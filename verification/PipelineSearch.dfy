/** Runs of the threaded encoder in which a search decides the cuts: what is written depends on the input
    alone, whatever the number of threads and the schedule. */
module PipelineSearch {
  import opened Chunks
  import opened CutSearch
  import opened Pipeline
  import opened PipelineFlow
  import opened PipelineConserve
  import opened PipelineTheorems
  import opened Decoder

  /** No cut of Fragment in a piece: it starts to look ANCHOR_JUMP bytes behind the beginning. */
  predicate Waits(cut: Search, b: Bytes) { |b| <= ANCHOR_JUMP || ANCHOR_JUMP + cut(b[ANCHOR_JUMP..]) >= |b| }

  /** The cuts that a step makes or does not make are those of the search. */
  predicate StepObeys(cut: Search, s: State, a: Step) {
    match a
    case FragCut(pos) =>
      |s.frag.cur| == 1 && !Waits(cut, s.frag.cur[0].data) &&
          pos == ANCHOR_JUMP + cut(s.frag.cur[0].data[ANCHOR_JUMP..])
    case FragKeep => |s.frag.cur| == 1 && Waits(cut, s.frag.cur[0].data)
    case RefineCut(t, pos) => Refining(s, t) && pos == cut(s.pools[0][t].cur[0].data)
    case RefineEnd(t) => Refining(s, t) && cut(s.pools[0][t].cur[0].data) >= |s.pools[0][t].cur[0].data|
    case _ => true
  }

  predicate Refining(s: State, t: nat) { |s.pools| == 3 && t < |s.pools[0]| && |s.pools[0][t].cur| == 1 }

  ghost predicate Obeys(cut: Search, states: seq<State>, steps: seq<Step>) {
    |states| == |steps| + 1 && forall i :: 0 <= i < |steps| ==> StepObeys(cut, states[i], steps[i])
  }

  /** The coarse pieces that Fragment still makes when it holds left and is about to read. */
  function CoarseRead(cut: Search, left: Bytes, rest: Bytes): seq<Bytes>
    decreases |rest|, 0, 0
  {
    var n := Min(MAXBUF, |rest|);
    if left + rest[..n] == [] then [] else if n == 0 then [left] else CoarseSplit(cut, left + rest[..n], rest[n..])
  }

  /** The same when it is about to look for a cut in cur. */
  function CoarseSplit(cut: Search, cur: Bytes, rest: Bytes): seq<Bytes>
    decreases |rest|, 1, |cur|
  {
    if Waits(cut, cur) then CoarseRead(cut, cur, rest)
    else
      var pos := ANCHOR_JUMP + cut(cur[ANCHOR_JUMP..]);
      [cur[..pos]] + CoarseSplit(cut, cur[pos..], rest)
  }

  function CoarseRest(cut: Search, f: Fragmenter): seq<Bytes> {
    match f.phase
    case Reading => CoarseRead(cut, DataOf(f.cur), f.rest)
    case Splitting => CoarseSplit(cut, DataOf(f.cur), f.rest)
    case Closing => []
  }

  /** The chunks cut from a piece so far are its first ones. */
  predicate FineOk(cut: Search, whole: Bytes, cs: seq<Chunk>) {
    |DataOf(cs)| <= |whole| && Datas(cs) + Cuts(cut, whole[|DataOf(cs)|..]) == Cuts(cut, whole)
  }

  predicate AllFineOk(cut: Search, coarse: seq<Bytes>, fine: seq<seq<Chunk>>) {
    |coarse| == |fine| && forall i :: 0 <= i < |fine| ==> FineOk(cut, coarse[i], fine[i])
  }

  /** All cuts so far are those of the search. */
  predicate SearchInv(cut: Search, p: Params, s: State) {
    s.coarse + CoarseRest(cut, s.frag) == CoarseRead(cut, [], p.input) && AllFineOk(cut, s.coarse, s.fine)
  }

  lemma InitSearch(cut: Search, p: Params)
    ensures SearchInv(cut, p, Init(p))
  {
  }

  /** Steps that have nothing to do with cuts. */
  predicate CutsNothing(a: Step) { !(a.FragRead? || a.FragCut? || a.FragKeep? || a.RefineCut? || a.RefineEnd?) }

  predicate SameCutting(s: State, s': State) {
    && s'.coarse == s.coarse && s'.fine == s.fine
    && s'.frag.phase == s.frag.phase && s'.frag.cur == s.frag.cur && s'.frag.rest == s.frag.rest
  }

  lemma CutsNothingSame(p: Params, s: State, a: Step)
    requires Shape(p, s) && Enabled(p, s, a) && CutsNothing(a)
    ensures SameCutting(s, Apply(p, s, a))
  {
    hide CanWrite, OrigOf;
  }

  lemma ReadSearch(cut: Search, p: Params, s: State)
    requires SearchInv(cut, p, s) && CanFragRead(s)
    ensures SearchInv(cut, p, DoFragRead(s))
  {
    hide CoarseSplit, AllFineOk, DataOf;
    var f, s' := s.frag, DoFragRead(s);
    var left := if f.cur == [] then [] else f.cur[0].data;
    CurData(f.cur);
    var n := Min(MAXBUF, |f.rest|);
    var data := left + f.rest[..n];
    CurData([Chunk(0, 0, false, data)]);
    CurData(s'.frag.cur);
    if data == [] {
    } else if n == 0 {
      assert data == left;
      assert s.coarse + [data] + [] == s.coarse + [data];
      NewPiece(cut, s.coarse, s.fine, data);
    }
  }

  lemma CurData(cur: seq<Chunk>)
    requires |cur| <= 1
    ensures DataOf(cur) == if cur == [] then [] else cur[0].data
  {
    assert cur != [] ==> cur[..0] == [];
  }

  /** A new coarse piece has not been cut yet. */
  lemma NewPiece(cut: Search, coarse: seq<Bytes>, fine: seq<seq<Chunk>>, b: Bytes)
    requires AllFineOk(cut, coarse, fine)
    ensures AllFineOk(cut, coarse + [b], fine + [[]])
  {
    hide Cuts;
    assert b[0..] == b && Datas([]) + Cuts(cut, b) == Cuts(cut, b);
    assert FineOk(cut, b, []);
  }

  lemma CutSearchInv(cut: Search, p: Params, s: State, pos: nat)
    requires SearchInv(cut, p, s) && CanFragCut(s, pos) && StepObeys(cut, s, FragCut(pos))
    ensures SearchInv(cut, p, DoFragCut(s, pos))
  {
    hide CoarseRead, AllFineOk, DataOf, Waits;
    var s', d := DoFragCut(s, pos), s.frag.cur[0].data;
    CurData(s.frag.cur);
    CurData(s'.frag.cur);
    NewPiece(cut, s.coarse, s.fine, d[..pos]);
    var more := CoarseSplit(cut, d[pos..], s.frag.rest);
    assert s.coarse + [d[..pos]] + more == s.coarse + ([d[..pos]] + more);
  }

  /** A refiner takes the next chunk off the rest of its piece. */
  lemma FineMore(cut: Search, whole: Bytes, cs: seq<Chunk>, c: Chunk)
    requires FineOk(cut, whole, cs) && c.data != []
    requires var rest := whole[|DataOf(cs)|..];
             if c.data == rest then cut(rest) >= |rest| else 0 < cut(rest) < |rest| && c.data == rest[..cut(rest)]
    ensures FineOk(cut, whole, cs + [c])
  {
    hide DataOf;
    DataOfAppend(cs, [c]);
    CurData([c]);
    var m, n := |DataOf(cs)|, |c.data|;
    var rest := whole[m..];
    NextCut(cut, rest, c.data);
    assert whole[m + n..] == rest[n..];
    assert Datas(cs + [c]) == Datas(cs) + [c.data];
    Regroup(Datas(cs), c.data, Cuts(cut, rest[n..]));
  }

  lemma NextCut(cut: Search, rest: Bytes, d: Bytes)
    requires d != [] && if d == rest then cut(rest) >= |rest| else 0 < cut(rest) < |rest| && d == rest[..cut(rest)]
    ensures |d| <= |rest| && Cuts(cut, rest) == [d] + Cuts(cut, rest[|d|..])
  {
  }

  lemma Regroup(a: seq<Bytes>, d: Bytes, b: seq<Bytes>)
    ensures a + [d] + b == a + ([d] + b)
  {
  }

  lemma EmitSearch(cut: Search, p: Params, s: State, t: nat, c: Chunk, cur: seq<Chunk>)
    requires Shape(p, s) && FlowInv(p, s) && SearchInv(cut, p, s) && t < p.nthreads && CanRefine(p, s, t)
    requires c.l1 == s.pools[0][t].cur[0].l1 && c.data != []
    requires var rest := s.pools[0][t].cur[0].data;
             if c.data == rest then cut(rest) >= |rest| else 0 < cut(rest) < |rest| && c.data == rest[..cut(rest)]
    ensures SearchInv(cut, p, EmitFine(s, t, c, cur))
  {
    hide FlowInv, Cuts, CoarseRead, CoarseSplit;
    CurIsOpen(p, s, t);
    FineMore(cut, s.coarse[c.l1], s.fine[c.l1], c);
  }

  lemma StepSearch(cut: Search, p: Params, s: State, a: Step)
    requires Shape(p, s) && FlowInv(p, s) && SearchInv(cut, p, s) && Enabled(p, s, a) && StepObeys(cut, s, a)
    ensures SearchInv(cut, p, Apply(p, s, a))
  {
    if CutsNothing(a) {
      hide Enabled, Apply, FlowInv;
      CutsNothingSame(p, s, a);
    } else {
      CutStep(cut, p, s, a);
    }
  }

  lemma CutStep(cut: Search, p: Params, s: State, a: Step)
    requires Shape(p, s) && FlowInv(p, s) && SearchInv(cut, p, s) && Enabled(p, s, a) && StepObeys(cut, s, a)
    requires !CutsNothing(a)
    ensures SearchInv(cut, p, Apply(p, s, a))
  {
    hide FlowInv, SearchInv, EmitFine, DoFragRead, DoFragCut;
    match a
    case FragRead => ReadSearch(cut, p, s);
    case FragCut(pos) => CutSearchInv(cut, p, s, pos);
    case FragKeep => KeepSearch(cut, p, s);
    case RefineCut(t, pos) =>
      var w := s.pools[0][t];
      var c := w.cur[0];
      EmitSearch(cut, p, s, t, Chunk(c.l1, w.chcount, false, c.data[..pos]), [c.(data := c.data[pos..])]);
    case RefineEnd(t) =>
      var w := s.pools[0][t];
      var c := w.cur[0];
      OpenNotEmpty(p, s, t);
      EmitSearch(cut, p, s, t, Chunk(c.l1, w.chcount, true, c.data), []);
    case _ =>
  }

  lemma KeepSearch(cut: Search, p: Params, s: State)
    requires SearchInv(cut, p, s) && s.frag.phase == Splitting && StepObeys(cut, s, FragKeep)
    ensures SearchInv(cut, p, s.(frag := s.frag.(phase := Reading)))
  {
    CurData(s.frag.cur);
  }

  lemma OpenNotEmpty(p: Params, s: State, t: nat)
    requires Shape(p, s) && FlowInv(p, s) && t < p.nthreads && CanRefine(p, s, t)
    ensures s.pools[0][t].cur[0].data != []
  {
    CurIsOpen(p, s, t);
    var i := s.pools[0][t].cur[0].l1;
    assert PieceOk(i, s.coarse[i], s.fine[i]);
  }

  lemma InvFlow(p: Params, s: State)
    requires Inv(p, s)
    ensures Shape(p, s) && FlowInv(p, s)
  {
  }

  lemma {:induction false} RunSearch(cut: Search, p: Params, states: seq<State>, steps: seq<Step>, i: nat)
    requires ValidParams(p) && Run(p, states, steps) && Obeys(cut, states, steps) && i < |states|
    ensures SearchInv(cut, p, states[i])
  {
    hide Inv, Init, Enabled, Apply, Shape, FlowInv, SearchInv, StepObeys;
    if i == 0 {
      InitSearch(cut, p);
    } else {
      RunSearch(cut, p, states, steps, i - 1);
      RunInv(p, states, steps, i - 1);
      assert Goes(p, states[i - 1], steps[i - 1], states[i]);
      InvFlow(p, states[i - 1]);
      StepSearch(cut, p, states[i - 1], steps[i - 1]);
    }
  }
}
