/** What holds in every state of every run of the threaded encoder, and at its end. */
module PipelineTheorems {
  import opened Chunks
  import opened Pipeline
  import opened PipelineShutdown
  import opened PipelineFlow
  import opened PipelineConserve
  import opened PipelineStore
  import opened PipelineOrder
  import opened PipelineOutput
  import opened Decoder

  /** A run: one enabled step of some thread after another, from the initial state. */
  ghost predicate Run(p: Params, states: seq<State>, steps: seq<Step>) {
    && |states| == |steps| + 1 && states[0] == Init(p)
    && forall i :: 0 <= i < |steps| ==> Goes(p, states[i], steps[i], states[i + 1])
  }

  ghost predicate Goes(p: Params, s: State, a: Step, s': State) {
    Shape(p, s) && Enabled(p, s, a) && s' == Apply(p, s, a)
  }

  ghost predicate Inv(p: Params, s: State) {
    ShutdownInv(p, s) && FlowInv(p, s) && StoreInv(p, s) && OrderInv(s) && OutInv(p, s)
  }

  lemma StepInv(p: Params, s: State, a: Step)
    requires Inv(p, s) && Enabled(p, s, a)
    ensures Inv(p, Apply(p, s, a))
  {
    hide Enabled, Apply, FlowInv, StoreInv, OrderInv, OutInv;
    StepShutdown(p, s, a);
    StepFlow(p, s, a);
    StepStore(p, s, a);
    StepOrder(p, s, a);
    StepOut(p, s, a);
  }

  lemma InitInv(p: Params)
    requires ValidParams(p)
    ensures Inv(p, Init(p))
  {
    hide Init, FlowInv, StoreInv, OrderInv, OutInv;
    InitShutdown(p);
    InitFlow(p);
    InitStore(p);
    InitOrder(p);
    InitOut(p);
  }

  lemma {:induction false} RunInv(p: Params, states: seq<State>, steps: seq<Step>, i: nat)
    requires ValidParams(p) && Run(p, states, steps) && i < |states|
    ensures Inv(p, states[i])
  {
    hide Inv, Init, Enabled, Apply, Shape;
    if i == 0 {
      InitInv(p);
    } else {
      RunInv(p, states, steps, i - 1);
      assert Goes(p, states[i - 1], steps[i - 1], states[i]);
      StepInv(p, states[i - 1], steps[i - 1]);
    }
  }

  /** What the program asserts just before it takes a step. */
  ghost predicate AssertionsOf(p: Params, s: State, a: Step)
    requires Shape(p, s) && Enabled(p, s, a)
  {
    match a
    case FragFlush => !IsTerminated(s.queues[0][s.frag.qid])
    case Flush(k, t) => !IsTerminated(s.queues[k + 1][GroupOf(p, t)])
    case FlushR(t) => !IsTerminated(s.queues[3][GroupOf(p, t)])
    case Terminate(k, t) => s.queues[k + 1][GroupOf(p, t)].terminated < s.queues[k + 1][GroupOf(p, t)].producers
    case Compress(t) => var id := s.pools[2][t].recv[0].Id();
      id in s.store && s.store[id].Original? && s.store[id].state == Uncompressed
    case Arrive => s.re.recv[0].last ==> s.re.recv[0].l1 !in s.re.cpa
    case _ => true
  }

  /** No assertion of the program fails, in any run. */
  lemma AssertionsHold(p: Params, states: seq<State>, steps: seq<Step>, i: nat)
    requires ValidParams(p) && Run(p, states, steps) && i < |steps|
    ensures Goes(p, states[i], steps[i], states[i + 1]) && AssertionsOf(p, states[i], steps[i])
  {
    RunInv(p, states, steps, i);
    assert Goes(p, states[i], steps[i], states[i + 1]);
    StepAssertions(p, states[i], steps[i]);
  }

  lemma StepAssertions(p: Params, s: State, a: Step)
    requires Inv(p, s) && Enabled(p, s, a)
    ensures AssertionsOf(p, s, a)
  {
    hide FlowInv, StoreInv, OrderInv, OutInv;
    match a
    case FragFlush => FragEnqueueSafe(p, s);
    case Flush(k, t) => assert WorkerOk(p, s, k, t); EnqueueSafe(p, s, k, t);
    case FlushR(t) => assert WorkerOk(p, s, 1, t); ReorderEnqueueSafe(p, s, t);
    case Terminate(k, t) => TerminateCounted(p, s, k, t);
    case Compress(t) => CompressFresh(p, s, t);
    case Arrive => if s.re.recv[0].last { SizeSetOnce(p, s); }
    case _ =>
  }

  lemma TerminateCounted(p: Params, s: State, k: nat, t: nat)
    requires ShutdownInv(p, s) && k < 3 && t < p.nthreads && CanTerminate(p, s, k, t)
    ensures s.queues[k + 1][GroupOf(p, t)].terminated < s.queues[k + 1][GroupOf(p, t)].producers
  {
    var g := GroupOf(p, t);
    EnqueueSafe(p, s, k, t);
    GroupRange(p, g);
    assert QueueOk(p, s, k + 1, g);
  }

  /** Written data is at every moment an initial part of the input. */
  lemma WrittenIsPrefix(p: Params, s: State)
    requires Inv(p, s)
    ensures DataOf(s.re.written) <= p.input
  {
    PrefixIsPrefix(s.coarse, s.fine, s.re.next);
  }

  lemma PrefixIsPrefix(coarse: seq<Bytes>, fine: seq<seq<Chunk>>, n: SeqNum)
    requires HistoryOk(coarse, fine) && NextOk(fine, n)
    ensures DataOf(Prefix(fine, n)) <= Concat(coarse)
  {
    hide Flat, DataOf, Concat, PieceClosed;
    var l := n.l1;
    DataOfFlat(coarse, fine, l);
    if l < |fine| {
      assert PieceOk(l, coarse[l], fine[l]);
      TakeWithin(fine[l], n.l2, coarse[l]);
      DataOfAppend(Flat(fine[..l]), fine[l][..n.l2]);
      ConcatTake(coarse, l + 1);
      ConcatNext(coarse, l);
      PrefixWithin(Concat(coarse[..l]), DataOf(fine[l][..n.l2]), coarse[l], Concat(coarse));
    } else {
      assert coarse[..l] == coarse && Flat(fine[..l]) + [] == Flat(fine[..l]);
    }
  }

  lemma TakeWithin(cs: seq<Chunk>, n: nat, whole: Bytes)
    requires n <= |cs| && DataOf(cs) <= whole
    ensures DataOf(cs[..n]) <= whole
  {
    hide DataOf;
    assert cs == cs[..n] + cs[n..];
    DataOfAppend(cs[..n], cs[n..]);
  }

  lemma ConcatNext(pieces: seq<Bytes>, n: nat)
    requires n < |pieces|
    ensures Concat(pieces[..n + 1]) == Concat(pieces[..n]) + pieces[n]
  {
    assert pieces[..n + 1][..n] == pieces[..n];
  }

  lemma PrefixWithin(a: Bytes, b: Bytes, c: Bytes, whole: Bytes)
    requires b <= c && a + c <= whole
    ensures a + b <= whole
  {
    assert a + b <= a + c;
  }

  lemma ConcatTake(pieces: seq<Bytes>, n: nat)
    requires n <= |pieces|
    ensures Concat(pieces[..n]) <= Concat(pieces)
  {
    assert pieces == pieces[..n] + pieces[n..];
    ConcatAppend(pieces[..n], pieces[n..]);
  }

  /** The chunks of finished pieces carry exactly the bytes of these pieces. */
  lemma {:induction false} DataOfFlat(coarse: seq<Bytes>, fine: seq<seq<Chunk>>, n: nat)
    requires HistoryOk(coarse, fine) && n <= |fine| && forall i :: 0 <= i < n ==> PieceClosed(fine[i])
    ensures DataOf(Flat(fine[..n])) == Concat(coarse[..n])
  {
    if n > 0 {
      DataOfFlat(coarse, fine, n - 1);
      assert PieceOk(n - 1, coarse[n - 1], fine[n - 1]);
      assert fine[..n][..n - 1] == fine[..n - 1] && coarse[..n][..n - 1] == coarse[..n - 1];
      DataOfAppend(Flat(fine[..n - 1]), fine[n - 1]);
    }
  }

  /** Nothing is under way any more once the reorder thread has left its main loop. */
  lemma NothingUnderWay(p: Params, s: State, x: Chunk)
    requires Inv(p, s) && s.re.phase != Main
    ensures CoarseCount(p, s, x) == 0
    ensures PreCount(p, s, x) == 0 && CompCount(p, s, x) == 0 && PostCount(p, s, x) == 0
  {
    AllQuiet(p, s);
    QueueQuiet(p, s, 0, x);
    QueueQuiet(p, s, 1, x);
    QueueQuiet(p, s, 2, x);
    QueueQuiet(p, s, 3, x);
    PoolEmpty(p, s, 0, x);
    PoolEmpty(p, s, 1, x);
    PoolEmpty(p, s, 2, x);
  }

  lemma QueueQuiet(p: Params, s: State, k: nat, x: Chunk)
    requires Shape(p, s) && k < 4 && forall i :: 0 <= i < NQueues(p) ==> IsClosed(s.queues[k][i])
    ensures Sum(InBuf, s.queues[k], x) == 0
  {
    SumZero(InBuf, s.queues[k], x);
  }

  lemma PoolEmpty(p: Params, s: State, k: nat, x: Chunk)
    requires ShutdownInv(p, s) && k < 3 && forall t :: 0 <= t < p.nthreads ==> s.pools[k][t].status == Done
    ensures Sum(InCur, s.pools[k], x) == 0 && Sum(InRecv, s.pools[k], x) == 0
    ensures Sum(InSend, s.pools[k], x) == 0 && Sum(InSendR, s.pools[k], x) == 0
  {
    forall t | 0 <= t < p.nthreads
      ensures var w := s.pools[k][t]; w.cur == [] && w.recv == [] && w.send == [] && w.sendR == []
    {
      assert WorkerOk(p, s, k, t);
    }
    SumZero(InCur, s.pools[k], x);
    SumZero(InRecv, s.pools[k], x);
    SumZero(InSend, s.pools[k], x);
    SumZero(InSendR, s.pools[k], x);
  }

  /** Every coarse piece has been cut up completely by then. */
  lemma AllPiecesClosed(p: Params, s: State, i: nat)
    requires Inv(p, s) && s.re.phase != Main && i < |s.fine|
    ensures PieceClosed(s.fine[i])
  {
    var x := Chunk(i, 0, false, s.coarse[i][|DataOf(s.fine[i])|..]);
    assert PieceOk(i, s.coarse[i], s.fine[i]);
    NothingUnderWay(p, s, x);
    assert FlowAt(p, s, x);
  }

  lemma NextAtEnd(p: Params, s: State)
    requires Inv(p, s) && s.re.phase != Main
    ensures s.re.next == SeqNum(|s.fine|, 0) && s.re.written == Flat(s.fine)
  {
    var n := s.re.next;
    if n.l1 < |s.fine| {
      AllPiecesClosed(p, s, n.l1);
      assert PieceOk(n.l1, s.coarse[n.l1], s.fine[n.l1]);
      var x := At(s.fine, n);
      NothingUnderWay(p, s, x);
      assert FlowAt(p, s, x);
      CountMember(s.re.written, x);
      PrefixMember(s.coarse, s.fine, n, x);
    }
    assert s.fine[..|s.fine|] == s.fine;
  }

  /** The final flush loop of Reorder finds the cache empty: when the main loop is left, every chunk
      has been written, once, in stream order, and the chunks written are the input. */
  lemma FlushFindsCacheEmpty(p: Params, states: seq<State>, steps: seq<Step>, i: nat)
    requires ValidParams(p) && Run(p, states, steps) && i < |states| && states[i].re.phase != Main
    ensures var s := states[i];
            && s.re.tree == map[] && s.re.writing == []
            && s.re.written == Flat(s.fine) && DataOf(s.re.written) == p.input
            && forall x :: Count(s.re.written, x) == if Created(s.fine, x) then 1 else 0
  {
    RunInv(p, states, steps, i);
    EndState(p, states[i]);
  }

  lemma EndState(p: Params, s: State)
    requires Inv(p, s) && s.re.phase != Main
    ensures s.re.tree == map[] && s.re.writing == []
    ensures s.re.written == Flat(s.fine) && DataOf(s.re.written) == p.input
    ensures forall x :: Count(s.re.written, x) == if Created(s.fine, x) then 1 else 0
  {
    hide StoreInv, OrderInv, OutInv, ShutdownInv;
    NextAtEnd(p, s);
    forall x
      ensures !InTree(s.re.tree, x) && Count(s.re.written, x) == if Created(s.fine, x) then 1 else 0
    {
      EndAt(p, s, x);
    }
    if l :| l in s.re.tree {
      var x :| x in s.re.tree[l];
      Holds(s.re.tree, l, x);
    }
    EndData(p, s);
    NotWriting(p, s);
  }

  lemma Holds(tree: map<nat, set<Chunk>>, l: nat, x: Chunk)
    requires TreeOk(tree) && l in tree && x in tree[l]
    ensures InTree(tree, x)
  {
  }

  lemma NotWriting(p: Params, s: State)
    requires Inv(p, s) && s.re.phase != Main
    ensures s.re.writing == []
  {
  }

  /** A chunk that was cut is written and not cached. */
  lemma EndAt(p: Params, s: State, x: Chunk)
    requires Inv(p, s) && s.re.phase != Main && s.re.written == Flat(s.fine)
    ensures !InTree(s.re.tree, x) && Count(s.re.written, x) == if Created(s.fine, x) then 1 else 0
  {
    NothingUnderWay(p, s, x);
    assert FlowAt(p, s, x);
    FlatMember(s.coarse, s.fine, x);
    CountMember(s.re.written, x);
  }

  lemma EndData(p: Params, s: State)
    requires Inv(p, s) && s.re.phase != Main
    ensures DataOf(Flat(s.fine)) == p.input
  {
    hide StoreInv, OrderInv, OutInv;
    AllQuiet(p, s);
    forall i | 0 <= i < |s.fine|
      ensures PieceClosed(s.fine[i])
    {
      AllPiecesClosed(p, s, i);
    }
    DataOfFlat(s.coarse, s.fine, |s.fine|);
    assert s.fine[..|s.fine|] == s.fine && s.coarse[..|s.coarse|] == s.coarse;
    assert s.frag.rest == [] && DataOf(s.frag.cur) == [];
  }

  /** Chunks with the same digest have the same data. */
  ghost predicate NoCollision(c: Codec, fine: seq<seq<Chunk>>) {
    forall x, y :: Created(fine, x) && Created(fine, y) && c.sha(x.data) == c.sha(y.data) ==> x.data == y.data
  }

  lemma WrittenChunk(p: Params, s: State, k: nat)
    requires Inv(p, s) && k < |s.re.written|
    ensures var x := s.re.written[k]; Created(s.fine, x) && x.data != []
    ensures Known(s.fine, OrigAt(s, k)) && Created(s.fine, At(s.fine, OrigAt(s, k)))
    ensures var d := p.codec.sha(s.re.written[k].data);
            p.codec.sha(At(s.fine, OrigAt(s, k)).data) == d && d in s.table && s.table[d] == OrigAt(s, k)
    ensures RecordAt(p, s, k)
  {
    var x := s.re.written[k];
    CountMember(s.re.written, x);
    LiveKnown(p, s, x);
    assert RecordAt(p, s, k);
    OrigIsOriginal(p, s, x.Id());
    assert PieceOk(x.l1, s.coarse[x.l1], s.fine[x.l1]);
    var o := OrigAt(s, k);
    assert PieceOk(o.l1, s.coarse[o.l1], s.fine[o.l1]);
    assert At(s.fine, o).Id() == o;
  }

  lemma UsedIsSeen(p: Params, s: State, k: nat)
    requires Inv(p, s) && k < |s.re.written|
    ensures Used(s, k, OrigAt(s, k)) <==> Seen(p.codec, s.re.written, k)
  {
    WrittenChunk(p, s, k);
    if Used(s, k, OrigAt(s, k)) {
      var j :| 0 <= j < k && OrigAt(s, j) == OrigAt(s, k);
      WrittenChunk(p, s, j);
    }
    if Seen(p.codec, s.re.written, k) {
      var j :| 0 <= j < k && p.codec.sha(s.re.written[j].data) == p.codec.sha(s.re.written[k].data);
      WrittenChunk(p, s, j);
      assert OrigAt(s, j) == OrigAt(s, k);
    }
  }

  /** A record is the one the serial encoder writes for the same chunks. */
  lemma RecordIsSerial(p: Params, s: State, k: nat)
    requires Inv(p, s) && NoCollision(p.codec, s.fine) && k < |s.re.out|
    ensures s.re.out[k] == SerialRecord(p.codec, s.re.written, k)
  {
    WrittenChunk(p, s, k);
    UsedIsSeen(p, s, k);
  }

  /** The output does not depend on the schedule: it is a function of how the input was cut. */
  lemma ScheduleIndependent(p: Params, states: seq<State>, steps: seq<Step>, i: nat)
    requires ValidParams(p) && Run(p, states, steps) && i < |states| && NoCollision(p.codec, states[i].fine)
    ensures states[i].re.out == SerialRecords(p.codec, states[i].re.written)
    ensures states[i].re.phase != Main ==> states[i].re.out == SerialRecords(p.codec, Flat(states[i].fine))
  {
    var s := states[i];
    RunInv(p, states, steps, i);
    forall k | 0 <= k < |s.re.out|
      ensures s.re.out[k] == SerialRecord(p.codec, s.re.written, k)
    {
      RecordIsSerial(p, s, k);
    }
    AllSerial(p.codec, s.re.written, s.re.out);
    if s.re.phase != Main {
      EndState(p, s);
    }
  }

  /** In every state the records written so far decode to what was read in as far as it was written. */
  lemma DecodeSoFar(p: Params, states: seq<State>, steps: seq<Step>, i: nat, limited: bool)
    requires ValidParams(p) && Run(p, states, steps) && i < |states|
    requires SoundCodec(p.codec) && NoCollision(p.codec, states[i].fine)
    ensures var s := states[i];
            var r := DecodeRecords(p.codec, limited, EMPTY_DECODED, s.re.out);
            if Fits(limited, s.re.written)
            then r.Ok? && r.value.output == DataOf(s.re.written) && r.value.output <= p.input
            else r == Err(UncompressError)
  {
    var s := states[i];
    RunInv(p, states, steps, i);
    ScheduleIndependent(p, states, steps, i);
    WrittenNonEmpty(p, s);
    DecodeSerial(p.codec, limited, s.re.written);
    WrittenIsPrefix(p, s);
  }

  lemma WrittenNonEmpty(p: Params, s: State)
    requires Inv(p, s)
    ensures forall j :: 0 <= j < |s.re.written| ==> s.re.written[j].data != []
    ensures NoCollision(p.codec, s.fine) ==> Injective(p.codec, s.re.written)
  {
    forall j | 0 <= j < |s.re.written|
      ensures s.re.written[j].data != [] && Created(s.fine, s.re.written[j])
    {
      WrittenChunk(p, s, j);
    }
  }

  /** Every chunk the refiners cut is small enough for the decoder's buffer. */
  predicate AllFit(limited: bool, fine: seq<seq<Chunk>>) {
    !limited || forall i, j :: 0 <= i < |fine| && 0 <= j < |fine[i]| ==> |fine[i][j].data| <= UNCOMPRESS_BOUND
  }

  /** Decode undoes Encode, for every input, every number of threads, every choice of cuts and every
      schedule: exactly if the decoder's buffer is large enough. */
  lemma DecodeUndoesEncode(p: Params, states: seq<State>, steps: seq<Step>, i: nat, limited: bool)
    requires ValidParams(p) && Run(p, states, steps) && i < |states| && states[i].re.phase == Finished
    requires SoundCodec(p.codec) && NoCollision(p.codec, states[i].fine)
    ensures var r := DecodeRecords(p.codec, limited, EMPTY_DECODED, states[i].re.out);
            (r.Ok? && r.value.output == p.input <==> AllFit(limited, states[i].fine))
            && (r.Ok? <==> AllFit(limited, states[i].fine))
  {
    hide Run, SoundCodec, NoCollision, FlowInv, StoreInv, OutInv, OrderInv, ShutdownInv;
    var s := states[i];
    DecodeSoFar(p, states, steps, i, limited);
    RunInv(p, states, steps, i);
    EndState(p, s);
    if limited {
      ChunkIds(p, s);
      FitsAll(s);
    }
  }

  lemma ChunkIds(p: Params, s: State)
    requires Inv(p, s)
    ensures forall i, j :: 0 <= i < |s.fine| && 0 <= j < |s.fine[i]| ==> s.fine[i][j].Id() == SeqNum(i, j)
  {
    forall i, j | 0 <= i < |s.fine| && 0 <= j < |s.fine[i]|
      ensures s.fine[i][j].Id() == SeqNum(i, j)
    {
      assert PieceOk(i, s.coarse[i], s.fine[i]);
    }
  }

  lemma FitsAll(s: State)
    requires s.re.written == Flat(s.fine)
    requires forall x :: Count(s.re.written, x) == if Created(s.fine, x) then 1 else 0
    requires forall i, j :: 0 <= i < |s.fine| && 0 <= j < |s.fine[i]| ==> s.fine[i][j].Id() == SeqNum(i, j)
    ensures Fits(true, s.re.written) <==> AllFit(true, s.fine)
  {
    forall x
      ensures x in s.re.written <==> Created(s.fine, x)
    {
      CountMember(s.re.written, x);
    }
    if AllFit(true, s.fine) {
      forall j | 0 <= j < |s.re.written|
        ensures |s.re.written[j].data| <= UNCOMPRESS_BOUND
      {
        assert s.re.written[j] in s.re.written;
      }
    }
    if Fits(true, s.re.written) {
      forall i, j | 0 <= i < |s.fine| && 0 <= j < |s.fine[i]|
        ensures |s.fine[i][j].data| <= UNCOMPRESS_BOUND
      {
        assert Created(s.fine, s.fine[i][j]);
        assert s.fine[i][j] in s.re.written;
      }
    }
  }

  /** The same through the bytes of the file, when every compressed chunk is below 2 GiB. */
  lemma FileRoundTrip(p: Params, states: seq<State>, steps: seq<Step>, i: nat, limited: bool)
    requires ValidParams(p) && Run(p, states, steps) && i < |states| && states[i].re.phase == Finished
    requires SoundCodec(p.codec) && NoCollision(p.codec, states[i].fine)
    requires forall x :: Created(states[i].fine, x) ==> |p.codec.comp(x.data)| < 0x8000_0000
    ensures var r := DecodeFile(p.codec, limited, EMPTY_DECODED, SerializeAll(states[i].re.out));
            if AllFit(limited, states[i].fine) then r.Ok? && r.value.output == p.input else r == Err(UncompressError)
  {
    var s := states[i];
    RunInv(p, states, steps, i);
    DecodeUndoesEncode(p, states, steps, i, limited);
    DecodeSoFar(p, states, steps, i, limited);
    forall k | 0 <= k < |s.re.out|
      ensures Storable(s.re.out[k])
    {
      WrittenChunk(p, s, k);
      assert RecordAt(p, s, k);
      var o := OrigAt(s, k);
      assert PieceOk(o.l1, s.coarse[o.l1], s.fine[o.l1]);
    }
    DecodeSerialized(p.codec, limited, EMPTY_DECODED, s.re.out);
  }

  /** In every state of every run a record is a fingerprint exactly if its digest was written before,
      and the table has one original for each digest. */
  lemma DataFirstInEveryRun(p: Params, states: seq<State>, steps: seq<Step>, i: nat)
    requires ValidParams(p) && Run(p, states, steps) && i < |states| && SoundCodec(p.codec)
    ensures var s := states[i]; forall k :: 0 <= k < |s.re.out| ==>
              (s.re.out[k].Fingerprint? <==>
                  exists j :: 0 <= j < k && DigestOf(p.codec, s.re.out[j]) == DigestOf(p.codec, s.re.out[k]))
    ensures var s := states[i]; forall a, b ::
              (a in s.store && b in s.store && s.store[a].Original? && s.store[b].Original? &&
                  s.store[a].sha == s.store[b].sha)
              ==> a == b
  {
    var s := states[i];
    RunInv(p, states, steps, i);
    forall k | 0 <= k < |s.re.out|
      ensures s.re.out[k].Fingerprint? <==>
              exists j :: 0 <= j < k && DigestOf(p.codec, s.re.out[j]) == DigestOf(p.codec, s.re.out[k])
    {
      DataOnceAndFirst(p, s, k);
    }
    forall a, b | a in s.store && b in s.store && s.store[a].Original? && s.store[b].Original? &&
        s.store[a].sha == s.store[b].sha
      ensures a == b
    {
      assert HeaderAt(p, s, a) && HeaderAt(p, s, b);
    }
  }
}
