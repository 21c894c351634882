/** The file that the threaded encoder writes is a function of the input and of the search for cuts. */
module PipelineDetermined {
  import opened Chunks
  import opened CutSearch
  import opened Pipeline
  import opened PipelineFlow
  import opened PipelineOrder
  import opened PipelineTheorems
  import opened PipelineSearch
  import opened Decoder
  import opened RabinSearch

  /** The chunks of an input: the cuts of Fragment, and in each piece those of FragmentRefine. */
  function ChunksOf(cut: Search, input: Bytes): seq<Bytes> { AllCuts(cut, CoarseRead(cut, [], input)) }

  lemma {:induction false} FlatCuts(cut: Search, coarse: seq<Bytes>, fine: seq<seq<Chunk>>)
    requires AllFineOk(cut, coarse, fine) && forall i :: 0 <= i < |fine| ==> DataOf(fine[i]) == coarse[i]
    ensures Datas(Flat(fine)) == AllCuts(cut, coarse)
  {
    hide Cuts, DataOf;
    if fine != [] {
      var n := |fine| - 1;
      FlatCuts(cut, coarse[..n], fine[..n]);
      assert FineOk(cut, coarse[n], fine[n]);
      NoCuts(cut, coarse[n][|coarse[n]|..]);
      assert Datas(Flat(fine)) == Datas(Flat(fine[..n])) + Datas(fine[n]);
    }
  }

  lemma NoCuts(cut: Search, b: Bytes)
    requires b == []
    ensures Cuts(cut, b) == []
  {
  }

  /** When Reorder leaves its main loop, the pieces and the chunks are those of the input. */
  lemma CutsDetermined(cut: Search, p: Params, states: seq<State>, steps: seq<Step>, i: nat)
    requires ValidParams(p) && Run(p, states, steps) && Obeys(cut, states, steps)
    requires i < |states| && states[i].re.phase != Main
    ensures states[i].coarse == CoarseRead(cut, [], p.input)
    ensures Datas(Flat(states[i].fine)) == ChunksOf(cut, p.input)
  {
    hide Run, Obeys, CoarseRead;
    var s := states[i];
    RunInv(p, states, steps, i);
    RunSearch(cut, p, states, steps, i);
    FragmentOver(p, s);
    assert s.coarse + [] == s.coarse;
    forall k | 0 <= k < |s.fine|
      ensures DataOf(s.fine[k]) == s.coarse[k]
    {
      PieceWhole(p, s, k);
    }
    FlatCuts(cut, s.coarse, s.fine);
  }

  lemma FragmentOver(p: Params, s: State)
    requires Inv(p, s) && s.re.phase != Main
    ensures s.frag.phase == Closing
  {
    PipelineShutdown.AllQuiet(p, s);
  }

  lemma PieceWhole(p: Params, s: State, k: nat)
    requires Inv(p, s) && s.re.phase != Main && k < |s.fine|
    ensures k < |s.coarse| && DataOf(s.fine[k]) == s.coarse[k]
  {
    AllPiecesClosed(p, s, k);
    assert PieceOk(k, s.coarse[k], s.fine[k]);
  }

  lemma {:induction false} ReadLaw(cut: Search, left: Bytes, rest: Bytes)
    requires SearchOk(cut) && Stable(cut) && Waits(cut, left)
    ensures FirstCuts(cut, ANCHOR_JUMP, left + rest, CoarseRead(cut, left, rest))
    decreases |rest|, 0, 0
  {
    hide FirstCuts, Stable;
    var n := Min(MAXBUF, |rest|);
    var cur := left + rest[..n];
    assert cur + rest[n..] == left + rest;
    if cur == [] {
      assert left + rest == [];
      FirstCutsNone(cut, ANCHOR_JUMP);
    } else if n == 0 {
      assert left + rest == left;
      FirstCutsOne(cut, ANCHOR_JUMP, left);
    } else {
      SplitLaw(cut, cur, rest[n..]);
    }
  }

  lemma {:induction false} SplitLaw(cut: Search, cur: Bytes, rest: Bytes)
    requires SearchOk(cut) && Stable(cut)
    ensures FirstCuts(cut, ANCHOR_JUMP, cur + rest, CoarseSplit(cut, cur, rest))
    decreases |rest|, 1, |cur|
  {
    hide FirstCuts;
    if Waits(cut, cur) {
      ReadLaw(cut, cur, rest);
    } else {
      var pos := ANCHOR_JUMP + cut(cur[ANCHOR_JUMP..]);
      SplitLaw(cut, cur[pos..], rest);
      assert StableAt(cut, cur[ANCHOR_JUMP..], rest);
      assert (cur + rest)[ANCHOR_JUMP..] == cur[ANCHOR_JUMP..] + rest;
      assert (cur + rest)[pos..] == cur[pos..] + rest && (cur + rest)[..pos] == cur[..pos];
      FirstCutsMore(cut, ANCHOR_JUMP, cur + rest, pos, CoarseSplit(cut, cur[pos..], rest));
    }
  }

  /** Whatever the threads do and however the input is read: behind the beginning of a coarse piece the
      search starts ANCHOR_JUMP bytes further on, and a next piece begins where it ends exactly if that is
      inside the input; behind the beginning of a chunk it starts at once, and a next chunk begins where it
      ends exactly if that is inside the piece. No other pieces and chunks do. */
  lemma CutsAreFirst(cut: Search, p: Params, states: seq<State>, steps: seq<Step>, i: nat)
    requires ValidParams(p) && Run(p, states, steps) && Obeys(cut, states, steps) && SearchOk(cut) && Stable(cut)
    requires i < |states| && states[i].re.phase != Main
    ensures var s := states[i];
            && FirstCuts(cut, ANCHOR_JUMP, p.input, s.coarse) && |s.fine| == |s.coarse|
            && forall k :: 0 <= k < |s.fine| ==> FirstCuts(cut, 0, s.coarse[k], Datas(s.fine[k]))
  {
    hide Run, Obeys, CoarseRead, Waits, SearchOk, Stable, FirstCuts, Inv, CoarseRest;
    var s := states[i];
    CutsDetermined(cut, p, states, steps, i);
    NothingWaits(cut);
    ReadLaw(cut, [], p.input);
    assert [] + p.input == p.input;
    RunInv(p, states, steps, i);
    RunSearch(cut, p, states, steps, i);
    forall k | 0 <= k < |s.fine|
      ensures FirstCuts(cut, 0, s.coarse[k], Datas(s.fine[k]))
    {
      PieceWhole(p, s, k);
      assert FineOk(cut, s.coarse[k], s.fine[k]);
      NoCuts(cut, s.coarse[k][|s.coarse[k]|..]);
      CutsLaw(cut, s.coarse[k]);
      assert Datas(s.fine[k]) + [] == Datas(s.fine[k]);
    }
  }

  lemma NothingWaits(cut: Search)
    ensures Waits(cut, [])
  {
  }

  /** The serial encoder looks at the data of chunks alone. */
  lemma {:induction false} SerialByData(c: Codec, a: seq<Chunk>, b: seq<Chunk>)
    requires Datas(a) == Datas(b)
    ensures SerialRecords(c, a) == SerialRecords(c, b)
  {
    if a != [] {
      var n := |a| - 1;
      assert Datas(a[..n]) == Datas(a)[..n] == Datas(b[..n]);
      SerialByData(c, a[..n], b[..n]);
      assert forall j :: 0 <= j <= n ==> a[j].data == Datas(a)[j] == b[j].data;
      assert Seen(c, a, n) <==> Seen(c, b, n);
    }
  }

  lemma InjectiveByData(c: Codec, a: seq<Chunk>, b: seq<Chunk>)
    requires Datas(a) == Datas(b) && Injective(c, a)
    ensures Injective(c, b)
  {
    assert forall j :: 0 <= j < |a| ==> a[j].data == Datas(a)[j] == b[j].data;
  }

  lemma NoCollisionOf(p: Params, s: State)
    requires Inv(p, s) && Injective(p.codec, Flat(s.fine))
    ensures NoCollision(p.codec, s.fine)
  {
    hide Flat;
    var c, cs := p.codec, Flat(s.fine);
    forall x, y | Created(s.fine, x) && Created(s.fine, y) && c.sha(x.data) == c.sha(y.data)
      ensures x.data == y.data
    {
      FlatMember(s.coarse, s.fine, x);
      FlatMember(s.coarse, s.fine, y);
      var i :| 0 <= i < |cs| && cs[i] == x;
      var j :| 0 <= j < |cs| && cs[j] == y;
      assert i < j || j < i || i == j;
    }
  }

  /** The records depend on the input and the search alone: not on the number of threads, the queues or
      the schedule. */
  lemma OutputDetermined(cut: Search, p: Params, states: seq<State>, steps: seq<Step>, i: nat)
    requires ValidParams(p) && Run(p, states, steps) && Obeys(cut, states, steps)
    requires i < |states| && states[i].re.phase != Main
    requires Injective(p.codec, Wrapped(ChunksOf(cut, p.input)))
    ensures NoCollision(p.codec, states[i].fine)
    ensures states[i].re.out == SerialRecords(p.codec, Wrapped(ChunksOf(cut, p.input)))
  {
    hide Run, Obeys, ChunksOf, NoCollision, Injective, Inv;
    CutsDetermined(cut, p, states, steps, i);
    var a, b := Flat(states[i].fine), Wrapped(ChunksOf(cut, p.input));
    InjectiveByData(p.codec, b, a);
    RunInv(p, states, steps, i);
    NoCollisionOf(p, states[i]);
    ScheduleIndependent(p, states, steps, i);
    SerialByData(p.codec, a, b);
  }

  lemma {:induction false} CoarseJoin(cut: Search, left: Bytes, rest: Bytes)
    ensures Concat(CoarseRead(cut, left, rest)) == left + rest
    decreases |rest|, 0, 0
  {
    var n := Min(MAXBUF, |rest|);
    assert rest == rest[..n] + rest[n..];
    if left + rest[..n] == [] {
      assert left == [] && rest == [];
    } else if n == 0 {
      ConcatSingle(left);
    } else {
      SplitJoin(cut, left + rest[..n], rest[n..]);
    }
  }

  lemma {:induction false} SplitJoin(cut: Search, cur: Bytes, rest: Bytes)
    ensures Concat(CoarseSplit(cut, cur, rest)) == cur + rest
    decreases |rest|, 1, |cur|
  {
    if Waits(cut, cur) {
      CoarseJoin(cut, cur, rest);
    } else {
      var pos := ANCHOR_JUMP + cut(cur[ANCHOR_JUMP..]);
      var more := CoarseSplit(cut, cur[pos..], rest);
      SplitJoin(cut, cur[pos..], rest);
      ConcatSingle(cur[..pos]);
      ConcatAppend([cur[..pos]], more);
      assert cur == cur[..pos] + cur[pos..];
    }
  }

  lemma ChunksJoin(cut: Search, input: Bytes)
    ensures DataOf(Wrapped(ChunksOf(cut, input))) == input
    ensures forall i :: 0 <= i < |ChunksOf(cut, input)| ==> ChunksOf(cut, input)[i] != []
  {
    hide CoarseRead, AllCuts;
    var pieces := CoarseRead(cut, [], input);
    AllCutsJoin(cut, pieces);
    CoarseJoin(cut, [], input);
    assert [] + input == input;
    DataIsConcat(Wrapped(ChunksOf(cut, input)));
  }

  /** Decode undoes Encode exactly if every chunk of the input fits the decoder's buffer: a condition on the
      input, for every number of threads and every schedule. */
  lemma DecodeByInput(cut: Search, p: Params, states: seq<State>, steps: seq<Step>, i: nat, limited: bool)
    requires ValidParams(p) && Run(p, states, steps) && Obeys(cut, states, steps) && SoundCodec(p.codec)
    requires i < |states| && states[i].re.phase != Main
    requires Injective(p.codec, Wrapped(ChunksOf(cut, p.input)))
    ensures var r := DecodeRecords(p.codec, limited, EMPTY_DECODED, states[i].re.out);
            if Fits(limited, Wrapped(ChunksOf(cut, p.input))) then r.Ok? && r.value.output == p.input
            else r == Err(UncompressError)
  {
    hide Run, Obeys, ChunksOf, SoundCodec, Injective;
    OutputDetermined(cut, p, states, steps, i);
    ChunksJoin(cut, p.input);
    var cs := Wrapped(ChunksOf(cut, p.input));
    assert forall j :: 0 <= j < |cs| ==> cs[j].data == Datas(cs)[j];
    DecodeSerial(p.codec, limited, cs);
  }

  /** Without a cut, and without one behind ANCHOR_JUMP, the whole input is one chunk. */
  lemma {:induction false} UncutRead(cut: Search, left: Bytes, rest: Bytes)
    requires Stable(cut) && left + rest != [] && Waits(cut, left + rest) && Waits(cut, left)
    ensures CoarseRead(cut, left, rest) == [left + rest]
    decreases |rest|
  {
    hide CoarseSplit, Waits;
    var n := Min(MAXBUF, |rest|);
    var cur := left + rest[..n];
    assert rest == rest[..n] + rest[n..] && cur + rest[n..] == left + rest;
    if n == 0 {
      assert cur == left == left + rest;
    } else {
      WaitsPrefix(cut, cur, rest[n..]);
      UncutRead(cut, cur, rest[n..]);
      SplitWaits(cut, cur, rest[n..]);
    }
  }

  lemma SplitWaits(cut: Search, cur: Bytes, rest: Bytes)
    requires Waits(cut, cur)
    ensures CoarseSplit(cut, cur, rest) == CoarseRead(cut, cur, rest)
  {
  }

  lemma WaitsPrefix(cut: Search, a: Bytes, b: Bytes)
    requires Stable(cut) && Waits(cut, a + b)
    ensures Waits(cut, a)
  {
    if |a| > ANCHOR_JUMP {
      assert (a + b)[ANCHOR_JUMP..] == a[ANCHOR_JUMP..] + b;
      assert StableAt(cut, a[ANCHOR_JUMP..], b);
    }
  }

  /** For every length there is an input that the encoder leaves in one chunk. */
  lemma UncutInput(n: nat) returns (b: Bytes)
    requires n > 0
    ensures |b| == n && RabinCut(b) == n && Waits(RabinCut, b) && ChunksOf(RabinCut, b) == [b]
  {
    hide Uncut, CoarseRead, RabinCut;
    b := NoCutTwice(n, ANCHOR_JUMP);
    UncutEnds(b);
    if n > ANCHOR_JUMP {
      UncutEnds(b[ANCHOR_JUMP..]);
    }
    RabinStable();
    assert [] + b == b;
    UncutRead(RabinCut, [], b);
    assert AllCuts(RabinCut, [b]) == AllCuts(RabinCut, [b][..0]) + Cuts(RabinCut, b);
  }

  /** A run of the encoder to its end, with the cuts that the search for fingerprints finds. */
  ghost predicate FinishedRun(p: Params, states: seq<State>, steps: seq<Step>) {
    && Run(p, states, steps) && Obeys(RabinCut, states, steps) && states != []
    && states[|states| - 1].re.phase == Finished
  }

  /** The failure of the decoder: for every length above its buffer there is an input of which no run of
      the encoder, with any number of threads, leaves a file that decodes. */
  lemma LargeInputFails(n: nat) returns (b: Bytes)
    requires n > UNCOMPRESS_BOUND
    ensures |b| == n && RabinCut(b) == n && Waits(RabinCut, b)
    ensures forall p: Params, states: seq<State>, steps: seq<Step> ::
              ValidParams(p) && p.input == b && SoundCodec(p.codec) && FinishedRun(p, states, steps)
              ==> DecodeRecords(p.codec, true, EMPTY_DECODED, states[|states| - 1].re.out) == Err(UncompressError)
  {
    hide ChunksOf, Run, Obeys;
    b := UncutInput(n);
    forall p: Params, states: seq<State>, steps: seq<Step>
      | ValidParams(p) && p.input == b && SoundCodec(p.codec) && FinishedRun(p, states, steps)
      ensures DecodeRecords(p.codec, true, EMPTY_DECODED, states[|states| - 1].re.out) == Err(UncompressError)
    {
      var cs := Wrapped(ChunksOf(RabinCut, b));
      assert Datas(cs)[0] == b;
      DecodeByInput(RabinCut, p, states, steps, |states| - 1, true);
    }
  }
}
