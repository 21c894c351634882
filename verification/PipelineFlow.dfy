/** Conservation: every chunk that has been cut is in exactly one buffer, queue, cache slot or
    output position, and every coarse piece not fully cut is in exactly one place before that. */
module PipelineFlow {
  import opened Chunks
  import opened Pipeline
  import opened PipelineShutdown

  function InBuf(q: Queue, x: Chunk): nat { Count(q.buf, x) }
  function InRecv(w: Worker, x: Chunk): nat { Count(w.recv, x) }
  function InCur(w: Worker, x: Chunk): nat { Count(w.cur, x) }
  function InSend(w: Worker, x: Chunk): nat { Count(w.send, x) }
  function InSendR(w: Worker, x: Chunk): nat { Count(w.sendR, x) }

  /** Coarse pieces on their way to a refiner. */
  ghost function TransitCount(p: Params, s: State, x: Chunk): nat
    requires Shape(p, s)
  {
    Count(s.frag.send, x) + Sum(InBuf, s.queues[0], x) + Sum(InRecv, s.pools[0], x)
  }

  /** Coarse pieces on their way to a refiner or being cut up. */
  ghost function CoarseCount(p: Params, s: State, x: Chunk): nat
    requires Shape(p, s)
  {
    TransitCount(p, s, x) + Sum(InCur, s.pools[0], x)
  }

  /** Chunks that deduplication has not seen. */
  ghost function PreCount(p: Params, s: State, x: Chunk): nat
    requires Shape(p, s)
  {
    Sum(InSend, s.pools[0], x) + Sum(InBuf, s.queues[1], x) + Sum(InRecv, s.pools[1], x)
  }

  /** Originals that are still to be compressed. */
  ghost function CompCount(p: Params, s: State, x: Chunk): nat
    requires Shape(p, s)
  {
    Sum(InSend, s.pools[1], x) + Sum(InBuf, s.queues[2], x) + Sum(InRecv, s.pools[2], x)
  }

  /** Duplicates and compressed originals on their way to the reorder thread. */
  ghost function PostCount(p: Params, s: State, x: Chunk): nat
    requires Shape(p, s)
  {
    Sum(InSendR, s.pools[1], x) + Sum(InSend, s.pools[2], x) + Sum(InBuf, s.queues[3], x) + Count(s.re.recv, x)
  }

  predicate InTree(tree: map<nat, set<Chunk>>, x: Chunk) { x.l1 in tree && x in tree[x.l1] }

  /** Chunks the reorder thread has received: cached, being written, or written. */
  function ArrivedCount(r: Reorderer, x: Chunk): nat {
    (if InTree(r.tree, x) then 1 else 0) + Count(r.writing, x) + Count(r.written, x)
  }

  ghost function LiveCount(p: Params, s: State, x: Chunk): nat
    requires Shape(p, s)
  {
    PreCount(p, s, x) + CompCount(p, s, x) + PostCount(p, s, x) + ArrivedCount(s.re, x)
  }

  predicate TreeOk(tree: map<nat, set<Chunk>>) {
    forall l :: l in tree ==> tree[l] != {} && forall c :: c in tree[l] ==> c.l1 == l
  }

  predicate PieceClosed(cs: seq<Chunk>) { cs != [] && cs[|cs| - 1].last }

  /** The chunks cs have been cut, in order and numbered densely, from the front of piece i. */
  predicate PieceOk(i: nat, whole: Bytes, cs: seq<Chunk>) {
    && (forall j :: 0 <= j < |cs| ==>
          cs[j].l1 == i && cs[j].l2 == j && cs[j].data != [] && (cs[j].last ==> j == |cs| - 1))
    && DataOf(cs) <= whole
    && (PieceClosed(cs) <==> DataOf(cs) == whole)
    && whole != []
  }

  predicate HistoryOk(coarse: seq<Bytes>, fine: seq<seq<Chunk>>) {
    |coarse| == |fine| && forall i :: 0 <= i < |fine| ==> PieceOk(i, coarse[i], fine[i])
  }

  /** x is the part of its coarse piece that no chunk has been cut from yet. */
  predicate IsOpenItem(coarse: seq<Bytes>, fine: seq<seq<Chunk>>, x: Chunk)
    requires HistoryOk(coarse, fine)
  {
    && x.l1 < |fine| && !PieceClosed(fine[x.l1])
    && x == Chunk(x.l1, 0, false, coarse[x.l1][|DataOf(fine[x.l1])|..])
  }

  predicate Created(fine: seq<seq<Chunk>>, c: Chunk) {
    c.l1 < |fine| && c.l2 < |fine[c.l1]| && fine[c.l1][c.l2] == c
  }

  /** The input is the coarse pieces sent on, the piece at hand, and what is still to be read. */
  ghost predicate FragData(p: Params, s: State) {
    && |s.frag.cur| <= 1
    && p.input == Concat(s.coarse) + DataOf(s.frag.cur) + s.frag.rest
    && (s.frag.cur != [] ==> s.frag.cur[0].l1 == |s.coarse| && s.frag.cur[0].l2 == 0 && !s.frag.cur[0].last &&
                             s.frag.cur[0].data != [] && s.frag.anchor == |s.coarse| + 1)
    && (s.frag.cur == [] && s.frag.phase == Reading ==> s.frag.anchor == |s.coarse|)
    && (s.frag.phase == Closing ==> s.frag.rest == [])
  }

  ghost predicate CountsOk(p: Params, s: State)
    requires Shape(p, s)
  {
    forall t :: 0 <= t < p.nthreads ==>
      var w := s.pools[0][t];
      |w.cur| == 1 ==> w.cur[0].l1 < |s.fine| && w.chcount == |s.fine[w.cur[0].l1]|
  }

  /** x is in one place if it should be anywhere, and nowhere else. */
  ghost predicate FlowAt(p: Params, s: State, x: Chunk)
    requires Shape(p, s) && HistoryOk(s.coarse, s.fine)
  {
    && CoarseCount(p, s, x) == (if IsOpenItem(s.coarse, s.fine, x) then 1 else 0)
    && (TransitCount(p, s, x) > 0 ==> x.l1 < |s.fine| && s.fine[x.l1] == [])
    && LiveCount(p, s, x) == (if Created(s.fine, x) then 1 else 0)
  }

  ghost predicate FlowInv(p: Params, s: State)
    requires Shape(p, s)
  {
    && HistoryOk(s.coarse, s.fine) && FragData(p, s) && CountsOk(p, s) && TreeOk(s.re.tree)
    && forall x :: FlowAt(p, s, x)
  }

  lemma WorkerSums(ws: seq<Worker>, t: nat, w: Worker, x: Chunk)
    requires t < |ws|
    ensures Sum(InCur, ws[t := w], x) + InCur(ws[t], x) == Sum(InCur, ws, x) + InCur(w, x)
    ensures Sum(InRecv, ws[t := w], x) + InRecv(ws[t], x) == Sum(InRecv, ws, x) + InRecv(w, x)
    ensures Sum(InSend, ws[t := w], x) + InSend(ws[t], x) == Sum(InSend, ws, x) + InSend(w, x)
    ensures Sum(InSendR, ws[t := w], x) + InSendR(ws[t], x) == Sum(InSendR, ws, x) + InSendR(w, x)
    ensures InCur(ws[t], x) <= Sum(InCur, ws, x) && InRecv(ws[t], x) <= Sum(InRecv, ws, x)
    ensures InSend(ws[t], x) <= Sum(InSend, ws, x) && InSendR(ws[t], x) <= Sum(InSendR, ws, x)
  {
    SumUpdate(InCur, ws, t, w, x);
    SumUpdate(InRecv, ws, t, w, x);
    SumUpdate(InSend, ws, t, w, x);
    SumUpdate(InSendR, ws, t, w, x);
  }

  /** Each of the five regions holds x as often as before. */
  ghost predicate SameCounts(p: Params, s: State, s': State, x: Chunk)
    requires Shape(p, s) && Shape(p, s')
  {
    && TransitCount(p, s', x) <= TransitCount(p, s, x)
    && CoarseCount(p, s', x) == CoarseCount(p, s, x) && PreCount(p, s', x) == PreCount(p, s, x)
    && CompCount(p, s', x) == CompCount(p, s, x) && PostCount(p, s', x) == PostCount(p, s, x)
    && ArrivedCount(s'.re, x) == ArrivedCount(s.re, x)
  }

  /** A step that replaces one queue and one worker changes the sums by exactly those two. */
  lemma MoveSums(p: Params, s: State, s': State, j: nat, i: nat, k: nat, t: nat, x: Chunk)
    requires Shape(p, s) && Shape(p, s')
    requires j < 4 && i < NQueues(p) && k < 3 && t < p.nthreads
    requires s'.queues == s.queues[j := s.queues[j][i := s'.queues[j][i]]]
    requires s'.pools == s.pools[k := s.pools[k][t := s'.pools[k][t]]]
    ensures forall m :: 0 <= m < 4 && m != j ==> s'.queues[m] == s.queues[m]
    ensures forall m :: 0 <= m < 3 && m != k ==> s'.pools[m] == s.pools[m]
    ensures Sum(InBuf, s'.queues[j], x) + InBuf(s.queues[j][i], x) ==
            Sum(InBuf, s.queues[j], x) + InBuf(s'.queues[j][i], x)
    ensures Sum(InCur, s'.pools[k], x) + InCur(s.pools[k][t], x) ==
            Sum(InCur, s.pools[k], x) + InCur(s'.pools[k][t], x)
    ensures Sum(InRecv, s'.pools[k], x) + InRecv(s.pools[k][t], x) ==
            Sum(InRecv, s.pools[k], x) + InRecv(s'.pools[k][t], x)
    ensures Sum(InSend, s'.pools[k], x) + InSend(s.pools[k][t], x) ==
            Sum(InSend, s.pools[k], x) + InSend(s'.pools[k][t], x)
    ensures Sum(InSendR, s'.pools[k], x) + InSendR(s.pools[k][t], x) ==
            Sum(InSendR, s.pools[k], x) + InSendR(s'.pools[k][t], x)
  {
    SumUpdate(InBuf, s.queues[j], i, s'.queues[j][i], x);
    WorkerSums(s.pools[k], t, s'.pools[k][t], x);
  }

  lemma FetchCounts(p: Params, s: State, k: nat, t: nat, x: Chunk)
    requires ShutdownInv(p, s) && k < 3 && t < p.nthreads && CanFetch(p, s, k, t)
    ensures Shape(p, DoFetch(p, s, k, t)) && SameCounts(p, s, DoFetch(p, s, k, t), x)
  {
    var g := GroupOf(p, t);
    RecvCounts(p, s, DoFetch(p, s, k, t), g, k, t, Min(FetchLimit(k), |s.queues[k][g].buf|), x);
  }

  lemma RecvCounts(p: Params, s: State, s': State, g: nat, k: nat, t: nat, n: nat, x: Chunk)
    requires Shape(p, s) && Shape(p, s') && g < NQueues(p) && k < 3 && t < p.nthreads
    requires n <= |s.queues[k][g].buf| && s.pools[k][t].recv == []
    requires var q, w := s.queues[k][g], s.pools[k][t];
             && s'.queues == s.queues[k := s.queues[k][g := q.(buf := q.buf[n..])]]
             && s'.pools == s.pools[k := s.pools[k][t := w.(recv := q.buf[..n])]]
    requires s'.frag == s.frag && s'.re == s.re
    ensures SameCounts(p, s, s', x)
  {
    CountSplit(s.queues[k][g].buf, n, x);
    MoveSums(p, s, s', k, g, k, t, x);
    assert k == 0 || k == 1 || k == 2;
  }

  lemma FlushCounts(p: Params, s: State, k: nat, t: nat, x: Chunk)
    requires ShutdownInv(p, s) && k < 3 && t < p.nthreads && CanFlush(p, s, k, t)
    ensures Shape(p, DoFlush(p, s, k, t)) && SameCounts(p, s, DoFlush(p, s, k, t), x)
  {
    var g, w := GroupOf(p, t), s.pools[k][t];
    SendCounts(p, s, DoFlush(p, s, k, t), g, k, t, EnqueueCount(s.queues[k + 1][g], w.send, SEND_LIMIT), x);
  }

  lemma SendCounts(p: Params, s: State, s': State, g: nat, k: nat, t: nat, n: nat, x: Chunk)
    requires Shape(p, s) && Shape(p, s') && g < NQueues(p) && k < 3 && t < p.nthreads
    requires n <= |s.pools[k][t].send|
    requires var q, w := s.queues[k + 1][g], s.pools[k][t];
             && s'.queues == s.queues[k + 1 := s.queues[k + 1][g := q.(buf := q.buf + w.send[..n])]]
             && s'.pools == s.pools[k := s.pools[k][t := w.(send := w.send[n..])]]
    requires s'.frag == s.frag && s'.re == s.re
    ensures SameCounts(p, s, s', x)
  {
    var q, w := s.queues[k + 1][g], s.pools[k][t];
    CountSplit(w.send, n, x);
    CountAppend(q.buf, w.send[..n], x);
    MoveSums(p, s, s', k + 1, g, k, t, x);
    assert k == 0 || k == 1 || k == 2;
  }

  lemma FlushRCounts(p: Params, s: State, t: nat, x: Chunk)
    requires ShutdownInv(p, s) && t < p.nthreads && CanFlushR(p, s, t)
    ensures Shape(p, DoFlushR(p, s, t)) && SameCounts(p, s, DoFlushR(p, s, t), x)
  {
    var s', g, w := DoFlushR(p, s, t), GroupOf(p, t), s.pools[1][t];
    var q := s.queues[3][g];
    var n := EnqueueCount(q, w.sendR, SEND_LIMIT);
    CountSplit(w.sendR, n, x);
    CountAppend(q.buf, w.sendR[..n], x);
    MoveSums(p, s, s', 3, g, 1, t, x);
  }

  /** A change of status or of a termination counter moves no chunk. */
  lemma KeepCounts(p: Params, s: State, s': State, j: nat, g: nat, k: nat, t: nat, x: Chunk)
    requires Shape(p, s) && Shape(p, s') && j < 4 && g < NQueues(p) && k < 3 && t < p.nthreads
    requires s'.queues == s.queues[j := s.queues[j][g := s'.queues[j][g]]]
    requires s'.pools == s.pools[k := s.pools[k][t := s'.pools[k][t]]]
    requires s'.queues[j][g].buf == s.queues[j][g].buf
    requires var w, w' := s.pools[k][t], s'.pools[k][t];
             w'.recv == w.recv && w'.cur == w.cur && w'.send == w.send && w'.sendR == w.sendR
    requires s'.frag.send == s.frag.send && s'.re == s.re
    ensures SameCounts(p, s, s', x)
  {
    MoveSums(p, s, s', j, g, k, t, x);
    assert k == 0 || k == 1 || k == 2;
    assert j == 0 || j == 1 || j == 2 || j == 3;
  }

  lemma HangUpCounts(p: Params, s: State, k: nat, t: nat, x: Chunk)
    requires ShutdownInv(p, s) && k < 3 && t < p.nthreads
    ensures var s' := SetWorker(s, k, t, s.pools[k][t].(status := Draining)); Shape(p, s') && SameCounts(p, s, s', x)
  {
    assert s.queues[0][0 := s.queues[0][0]] == s.queues[0];
    assert s.queues[0 := s.queues[0]] == s.queues;
    KeepCounts(p, s, SetWorker(s, k, t, s.pools[k][t].(status := Draining)), 0, 0, k, t, x);
  }

  lemma TerminateCounts(p: Params, s: State, k: nat, t: nat, x: Chunk)
    requires ShutdownInv(p, s) && k < 3 && t < p.nthreads
    ensures Shape(p, DoTerminate(p, s, k, t)) && SameCounts(p, s, DoTerminate(p, s, k, t), x)
  {
    KeepCounts(p, s, DoTerminate(p, s, k, t), k + 1, GroupOf(p, t), k, t, x);
  }

  lemma FragTerminateCounts(p: Params, s: State, x: Chunk)
    requires ShutdownInv(p, s) && s.frag.closed < NQueues(p)
    ensures Shape(p, DoFragTerminate(p, s)) && SameCounts(p, s, DoFragTerminate(p, s), x)
  {
    assert s.pools[0][0 := s.pools[0][0]] == s.pools[0];
    assert s.pools[0 := s.pools[0]] == s.pools;
    KeepCounts(p, s, DoFragTerminate(p, s), 0, s.frag.closed, 0, 0, x);
  }

  lemma FragFlushCounts(p: Params, s: State, x: Chunk)
    requires ShutdownInv(p, s)
    ensures Shape(p, DoFragFlush(p, s)) && SameCounts(p, s, DoFragFlush(p, s), x)
  {
    NextQueue(p, s.frag.qid);
    var s', i := DoFragFlush(p, s), s.frag.qid;
    CountAppend(s.queues[0][i].buf, s.frag.send, x);
    SumUpdate(InBuf, s.queues[0], i, s'.queues[0][i], x);
  }

  lemma RefineBeginCounts(p: Params, s: State, t: nat, x: Chunk)
    requires ShutdownInv(p, s) && t < p.nthreads && CanWork(p, s, 0, t)
    ensures Shape(p, DoRefineBegin(p, s, t)) && SameCounts(p, s, DoRefineBegin(p, s, t), x)
  {
    var s', w := DoRefineBegin(p, s, t), s.pools[0][t];
    WorkerSums(s.pools[0], t, s'.pools[0][t], x);
    CountFirst(w.recv, x);
    assert [w.recv[0]][..0] == [];
  }

  lemma PollCounts(p: Params, s: State, x: Chunk)
    requires ShutdownInv(p, s) && CanPoll(s)
    ensures Shape(p, DoPoll(p, s)) && SameCounts(p, s, DoPoll(p, s), x)
  {
    NextQueue(p, s.re.qid);
    var s', q := DoPoll(p, s), s.queues[3][s.re.qid];
    CountSplit(q.buf, Min(SEND_LIMIT, |q.buf|), x);
    SumUpdate(InBuf, s.queues[3], s.re.qid, s'.queues[3][s.re.qid], x);
  }
}
