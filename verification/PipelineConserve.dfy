/** Every step keeps the conservation invariant. */
module PipelineConserve {
  import opened Chunks
  import opened Pipeline
  import opened PipelineShutdown
  import opened PipelineFlow

  /** Nothing but places inside one region changed. */
  lemma SameFlow(p: Params, s: State, s': State)
    requires Shape(p, s) && FlowInv(p, s) && Shape(p, s')
    requires forall x :: SameCounts(p, s, s', x)
    requires s'.coarse == s.coarse && s'.fine == s.fine && FragData(p, s') && CountsOk(p, s') && TreeOk(s'.re.tree)
    ensures FlowInv(p, s')
  {
    forall x
      ensures FlowAt(p, s', x)
    {
      assert SameCounts(p, s, s', x) && FlowAt(p, s, x);
    }
  }

  lemma InitFlow(p: Params)
    requires ValidParams(p)
    ensures Shape(p, Init(p)) && FlowInv(p, Init(p))
  {
    InitShutdown(p);
    var s := Init(p);
    assert s.coarse == [] && p.input == Concat([]) + DataOf([]) + p.input;
    forall x
      ensures CoarseCount(p, s, x) == 0 && LiveCount(p, s, x) == 0
    {
      EmptyQueue(p, s, 0, x);
      EmptyQueue(p, s, 1, x);
      EmptyQueue(p, s, 2, x);
      EmptyQueue(p, s, 3, x);
      SumZero(InCur, s.pools[0], x);
      SumZero(InRecv, s.pools[0], x);
      SumZero(InSend, s.pools[0], x);
      SumZero(InRecv, s.pools[1], x);
      SumZero(InSend, s.pools[1], x);
      SumZero(InSendR, s.pools[1], x);
      SumZero(InRecv, s.pools[2], x);
      SumZero(InSend, s.pools[2], x);
    }
  }

  lemma EmptyQueue(p: Params, s: State, k: nat, x: Chunk)
    requires Shape(p, s) && k < 4 && forall i :: 0 <= i < NQueues(p) ==> s.queues[k][i].buf == []
    ensures Sum(InBuf, s.queues[k], x) == 0
  {
    SumZero(InBuf, s.queues[k], x);
  }

  /** The piece a refiner is cutting up is the open rest of its coarse piece, and its counter is
      the number of chunks cut so far. */
  lemma CurIsOpen(p: Params, s: State, t: nat)
    requires Shape(p, s) && FlowInv(p, s) && t < p.nthreads && |s.pools[0][t].cur| == 1
    ensures IsOpenItem(s.coarse, s.fine, s.pools[0][t].cur[0])
    ensures s.pools[0][t].chcount == |s.fine[s.pools[0][t].cur[0].l1]|
  {
    var c := s.pools[0][t].cur[0];
    CountMember(s.pools[0][t].cur, c);
    SumUpdate(InCur, s.pools[0], t, s.pools[0][t], c);
    assert FlowAt(p, s, c);
  }

  /** No two refiners work on the same coarse piece. */
  lemma CurUnique(p: Params, s: State, t: nat, u: nat)
    requires Shape(p, s) && FlowInv(p, s) && t < p.nthreads && u < p.nthreads && t != u
    requires |s.pools[0][t].cur| == 1 && |s.pools[0][u].cur| == 1
    ensures s.pools[0][t].cur[0].l1 != s.pools[0][u].cur[0].l1
  {
    var c := s.pools[0][t].cur[0];
    CurIsOpen(p, s, t);
    CurIsOpen(p, s, u);
    assert FlowAt(p, s, c);
    if c.l1 == s.pools[0][u].cur[0].l1 {
      CountMember(s.pools[0][t].cur, c);
      CountMember(s.pools[0][u].cur, c);
      SumTwo(InCur, s.pools[0], if t < u then t else u, if t < u then u else t, c);
    }
  }

  /** Cutting `piece` off the open rest of its coarse piece keeps the history well formed. */
  lemma HistoryGrow(coarse: seq<Bytes>, fine: seq<seq<Chunk>>, piece: Chunk, rest: Bytes)
    requires HistoryOk(coarse, fine) && piece.l1 < |fine| && !PieceClosed(fine[piece.l1])
    requires piece.l2 == |fine[piece.l1]| && piece.data != []
    requires piece.data + rest == coarse[piece.l1][|DataOf(fine[piece.l1])|..]
    requires piece.last <==> rest == []
    ensures HistoryOk(coarse, fine[piece.l1 := fine[piece.l1] + [piece]])
    ensures DataOf(fine[piece.l1] + [piece]) == DataOf(fine[piece.l1]) + piece.data
  {
    var i := piece.l1;
    var cs := fine[i] + [piece];
    assert cs[..|cs| - 1] == fine[i];
    assert coarse[i] == DataOf(fine[i]) + (piece.data + rest);
    assert coarse[i] == DataOf(cs) + rest;
    assert PieceOk(i, coarse[i], fine[i]);
    assert PieceOk(i, coarse[i], cs);
  }

  /** `piece` is the next chunk of the piece that refiner t holds and `cur` what is left of it. */
  ghost predicate Splits(p: Params, s: State, t: nat, piece: Chunk, cur: seq<Chunk>)
    requires Shape(p, s) && t < p.nthreads && CanRefine(p, s, t)
  {
    var c := s.pools[0][t].cur[0];
    && piece.l1 == c.l1 && piece.l2 == s.pools[0][t].chcount && piece.data != []
    && (if piece.last then cur == [] && piece.data == c.data
        else |cur| == 1 && cur[0].data != [] && piece.data + cur[0].data == c.data &&
             cur[0] == Chunk(c.l1, 0, false, cur[0].data))
  }

  lemma EmitHistory(p: Params, s: State, t: nat, piece: Chunk, cur: seq<Chunk>)
    requires Shape(p, s) && FlowInv(p, s) && t < p.nthreads && CanRefine(p, s, t) && Splits(p, s, t, piece, cur)
    ensures EmitFine(s, t, piece, cur).fine == s.fine[piece.l1 := s.fine[piece.l1] + [piece]]
    ensures HistoryOk(s.coarse, s.fine[piece.l1 := s.fine[piece.l1] + [piece]])
    ensures IsOpenItem(s.coarse, s.fine, s.pools[0][t].cur[0])
    ensures piece.l2 == |s.fine[piece.l1]|
    ensures s.coarse[piece.l1][|DataOf(s.fine[piece.l1] + [piece])|..] == if cur == [] then [] else cur[0].data
    ensures cur != [] ==> |cur| == 1 && |cur[0].data| < |s.pools[0][t].cur[0].data|
  {
    var c, i := s.pools[0][t].cur[0], piece.l1;
    var rest := if piece.last then [] else cur[0].data;
    CurIsOpen(p, s, t);
    assert piece.data + rest == c.data;
    HistoryGrow(s.coarse, s.fine, piece, rest);
  }

  lemma EmitOpen(coarse: seq<Bytes>, fine: seq<seq<Chunk>>, c: Chunk, piece: Chunk, cur: seq<Chunk>, x: Chunk)
    requires HistoryOk(coarse, fine) && piece.l1 < |fine| && piece.l2 == |fine[piece.l1]|
    requires HistoryOk(coarse, fine[piece.l1 := fine[piece.l1] + [piece]])
    requires IsOpenItem(coarse, fine, c) && c.l1 == piece.l1 && piece.last == (cur == []) && |cur| <= 1
    requires var rest := coarse[piece.l1][|DataOf(fine[piece.l1] + [piece])|..];
             cur != [] ==> cur[0] == Chunk(c.l1, 0, false, rest) && |rest| < |c.data|
    ensures var fine' := fine[piece.l1 := fine[piece.l1] + [piece]];
            && (IsOpenItem(coarse, fine', x) <==> (IsOpenItem(coarse, fine, x) && x != c) || (cur != [] && x == cur[0]))
            && (cur != [] && x == cur[0] ==> x != c && !IsOpenItem(coarse, fine, x))
            && (Created(fine', x) <==> Created(fine, x) || x == piece)
            && !Created(fine, piece)
  {
    var fine' := fine[piece.l1 := fine[piece.l1] + [piece]];
    assert PieceClosed(fine'[piece.l1]) == piece.last;
  }

  lemma EmitFlow(p: Params, s: State, t: nat, piece: Chunk, cur: seq<Chunk>)
    requires Shape(p, s) && FlowInv(p, s) && t < p.nthreads && CanRefine(p, s, t) && Splits(p, s, t, piece, cur)
    ensures Shape(p, EmitFine(s, t, piece, cur)) && FlowInv(p, EmitFine(s, t, piece, cur))
  {
    EmitHistory(p, s, t, piece, cur);
    forall x
      ensures FlowAt(p, EmitFine(s, t, piece, cur), x)
    {
      EmitTransit(p, s, t, piece, cur, x);
      EmitFlowAt(p, s, t, piece, cur, x);
    }
    EmitCountsOk(p, s, t, piece, cur);
  }

  lemma EmitTransit(p: Params, s: State, t: nat, piece: Chunk, cur: seq<Chunk>, x: Chunk)
    requires Shape(p, s) && FlowInv(p, s) && t < p.nthreads && CanRefine(p, s, t) && Splits(p, s, t, piece, cur)
    ensures TransitCount(p, EmitFine(s, t, piece, cur), x) > 0 ==>
              x.l1 < |s.fine| && EmitFine(s, t, piece, cur).fine[x.l1] == []
  {
    var c := s.pools[0][t].cur[0];
    EmitCounts(p, s, t, piece, cur, x);
    CurIsOpen(p, s, t);
    CountMember(s.pools[0][t].cur, c);
    SumUpdate(InCur, s.pools[0], t, s.pools[0][t], c);
    assert FlowAt(p, s, c) && FlowAt(p, s, x);
  }

  lemma EmitFlowAt(p: Params, s: State, t: nat, piece: Chunk, cur: seq<Chunk>, x: Chunk)
    requires Shape(p, s) && FlowInv(p, s) && t < p.nthreads && CanRefine(p, s, t) && Splits(p, s, t, piece, cur)
    requires HistoryOk(s.coarse, EmitFine(s, t, piece, cur).fine)
    ensures CoarseCount(p, EmitFine(s, t, piece, cur), x) ==
            if IsOpenItem(s.coarse, EmitFine(s, t, piece, cur).fine, x) then 1 else 0
    ensures LiveCount(p, EmitFine(s, t, piece, cur), x) ==
            if Created(EmitFine(s, t, piece, cur).fine, x) then 1 else 0
  {
    EmitHistory(p, s, t, piece, cur);
    EmitOpen(s.coarse, s.fine, s.pools[0][t].cur[0], piece, cur, x);
    EmitCounts(p, s, t, piece, cur, x);
    assert FlowAt(p, s, x);
  }

  lemma EmitCountsOk(p: Params, s: State, t: nat, piece: Chunk, cur: seq<Chunk>)
    requires Shape(p, s) && FlowInv(p, s) && t < p.nthreads && CanRefine(p, s, t) && Splits(p, s, t, piece, cur)
    ensures CountsOk(p, EmitFine(s, t, piece, cur))
  {
    var s' := EmitFine(s, t, piece, cur);
    forall u | 0 <= u < p.nthreads && |s'.pools[0][u].cur| == 1
      ensures s'.pools[0][u].cur[0].l1 < |s'.fine| && s'.pools[0][u].chcount == |s'.fine[s'.pools[0][u].cur[0].l1]|
    {
      if u != t {
        CurUnique(p, s, t, u);
      }
    }
  }

  lemma EmitCounts(p: Params, s: State, t: nat, piece: Chunk, cur: seq<Chunk>, x: Chunk)
    requires Shape(p, s) && t < p.nthreads && CanRefine(p, s, t) && piece.l1 < |s.fine|
    requires |cur| <= 1
    ensures var s' := EmitFine(s, t, piece, cur);
            && Shape(p, s') && TransitCount(p, s', x) == TransitCount(p, s, x)
            && CoarseCount(p, s', x) + (if s.pools[0][t].cur[0] == x then 1 else 0) ==
               CoarseCount(p, s, x) + (if cur != [] && cur[0] == x then 1 else 0)
            && LiveCount(p, s', x) == LiveCount(p, s, x) + (if piece == x then 1 else 0)
  {
    var s', w := EmitFine(s, t, piece, cur), s.pools[0][t];
    WorkerSums(s.pools[0], t, s'.pools[0][t], x);
    CountAppend(w.send, [piece], x);
    CountOne(piece, x);
    assert w.cur == [w.cur[0]];
    CountOne(w.cur[0], x);
    if cur != [] {
      assert cur == [cur[0]];
      CountOne(cur[0], x);
    }
  }

  lemma CountOne(c: Chunk, x: Chunk)
    ensures Count([c], x) == if c == x then 1 else 0
  {
    assert [c][..0] == [];
  }

  lemma DedupCounts(p: Params, s: State, t: nat, x: Chunk)
    requires Shape(p, s) && t < p.nthreads && CanWork(p, s, 1, t)
    ensures var s', c := DoDedup(p, s, t), s.pools[1][t].recv[0];
            var hit := p.codec.sha(c.data) in s.table;
            && Shape(p, s') && CoarseCount(p, s', x) == CoarseCount(p, s, x)
            && TransitCount(p, s', x) == TransitCount(p, s, x)
            && PreCount(p, s', x) + (if c == x then 1 else 0) == PreCount(p, s, x)
            && CompCount(p, s', x) == CompCount(p, s, x) + (if !hit && c == x then 1 else 0)
            && PostCount(p, s', x) == PostCount(p, s, x) + (if hit && c == x then 1 else 0)
            && ArrivedCount(s'.re, x) == ArrivedCount(s.re, x)
  {
    var s', w := DoDedup(p, s, t), s.pools[1][t];
    WorkerSums(s.pools[1], t, s'.pools[1][t], x);
    CountFirst(w.recv, x);
    CountAppend(w.send, [w.recv[0]], x);
    CountAppend(w.sendR, [w.recv[0]], x);
    CountOne(w.recv[0], x);
  }

  lemma CompressCounts(p: Params, s: State, t: nat, x: Chunk)
    requires Shape(p, s) && t < p.nthreads && CanWork(p, s, 2, t)
    ensures var s', c := DoCompress(p, s, t), s.pools[2][t].recv[0];
            && Shape(p, s') && CoarseCount(p, s', x) == CoarseCount(p, s, x)
            && TransitCount(p, s', x) == TransitCount(p, s, x)
            && PreCount(p, s', x) == PreCount(p, s, x)
            && CompCount(p, s', x) + (if c == x then 1 else 0) == CompCount(p, s, x)
            && PostCount(p, s', x) == PostCount(p, s, x) + (if c == x then 1 else 0)
            && ArrivedCount(s'.re, x) == ArrivedCount(s.re, x)
  {
    var s', w := DoCompress(p, s, t), s.pools[2][t];
    WorkerSums(s.pools[2], t, s'.pools[2][t], x);
    CountFirst(w.recv, x);
    CountAppend(w.send, [w.recv[0]], x);
    CountOne(w.recv[0], x);
  }

  lemma DedupKeeps(p: Params, s: State, t: nat)
    requires Shape(p, s) && t < p.nthreads && CanWork(p, s, 1, t)
    ensures var s' := DoDedup(p, s, t);
            Shape(p, s') && s'.coarse == s.coarse && s'.fine == s.fine && s'.frag == s.frag && s'.re == s.re &&
                s'.pools[0] == s.pools[0]
  {
  }

  lemma DedupFlow(p: Params, s: State, t: nat)
    requires Shape(p, s) && FlowInv(p, s) && t < p.nthreads && CanWork(p, s, 1, t)
    ensures Shape(p, DoDedup(p, s, t)) && FlowInv(p, DoDedup(p, s, t))
  {
    hide DoDedup, CanWork, HistoryOk, TreeOk, CoarseCount, TransitCount;
    var s' := DoDedup(p, s, t);
    DedupKeeps(p, s, t);
    forall x
      ensures FlowAt(p, s', x)
    {
      DedupCounts(p, s, t, x);
      assert FlowAt(p, s, x);
    }
  }

  lemma CompressFlow(p: Params, s: State, t: nat)
    requires Shape(p, s) && FlowInv(p, s) && t < p.nthreads && CanWork(p, s, 2, t)
    ensures Shape(p, DoCompress(p, s, t)) && FlowInv(p, DoCompress(p, s, t))
  {
    var s' := DoCompress(p, s, t);
    forall x
      ensures FlowAt(p, s', x)
    {
      CompressCounts(p, s, t, x);
      assert FlowAt(p, s, x);
    }
  }

  /** The chunk that reaches the reorder thread is not there yet. */
  lemma ArriveFresh(p: Params, s: State)
    requires Shape(p, s) && FlowInv(p, s) && s.re.recv != []
    ensures ArrivedCount(s.re, s.re.recv[0]) == 0 && Created(s.fine, s.re.recv[0])
  {
    var c := s.re.recv[0];
    CountFirst(s.re.recv, c);
    assert FlowAt(p, s, c);
  }

  lemma ArriveCounts(r: Reorderer, x: Chunk)
    requires r.writing == [] && r.recv != [] && !InTree(r.tree, r.recv[0])
    ensures Count(DoArrive(r).recv, x) + (if r.recv[0] == x then 1 else 0) == Count(r.recv, x)
    ensures ArrivedCount(DoArrive(r), x) == ArrivedCount(r, x) + (if r.recv[0] == x then 1 else 0)
  {
    CountFirst(r.recv, x);
    CountOne(r.recv[0], x);
  }

  lemma ArriveFlow(p: Params, s: State)
    requires Shape(p, s) && FlowInv(p, s) && s.re.writing == [] && s.re.recv != []
    ensures FlowInv(p, s.(re := DoArrive(s.re)))
  {
    var s' := s.(re := DoArrive(s.re));
    ArriveFresh(p, s);
    forall x
      ensures FlowAt(p, s', x)
    {
      ArriveCounts(s.re, x);
      assert FlowAt(p, s, x);
    }
  }

  lemma TakeFromTree(tree: map<nat, set<Chunk>>, d: Chunk, x: Chunk)
    requires TreeOk(tree) && InTree(tree, d)
    ensures InTree(TreeTake(tree, d), x) <==> InTree(tree, x) && x != d
  {
  }

  /** After a write the reorder thread has nothing at hand, or the chunk that follows, from the cache. */
  lemma WriteShape(s: State)
    requires CanWrite(s)
    ensures var r, r' := s.re, DoWrite(s).re;
            && r'.written == r.written + r.writing && r'.recv == r.recv
            && ((r'.writing == [] && r'.tree == r.tree)
                || (|r'.writing| == 1 && InTree(r.tree, r'.writing[0]) && r'.tree == TreeTake(r.tree, r'.writing[0])))
  {
    assert s.re.writing == [s.re.writing[0]];
  }

  lemma WriteCounts(s: State, x: Chunk)
    requires CanWrite(s) && TreeOk(s.re.tree)
    ensures ArrivedCount(DoWrite(s).re, x) == ArrivedCount(s.re, x)
  {
    hide DoWrite, InTree, TreeOk, TreeTake, CanWrite;
    var r, r' := s.re, DoWrite(s).re;
    WriteShape(s);
    CountAppend(r.written, r.writing, x);
    if r'.writing != [] {
      assert r'.writing == [r'.writing[0]];
      CountOne(r'.writing[0], x);
      TakeFromTree(r.tree, r'.writing[0], x);
    }
  }

  lemma WriteFlow(p: Params, s: State)
    requires Shape(p, s) && FlowInv(p, s) && CanWrite(s)
    ensures FlowInv(p, DoWrite(s))
  {
    var s' := DoWrite(s);
    forall x
      ensures SameCounts(p, s, s', x)
    {
      WriteCounts(s, x);
    }
    SameFlow(p, s, s');
  }

  lemma CoarseGrow(p: Params, s: State, s': State, c: Chunk)
    requires Shape(p, s) && FlowInv(p, s) && Shape(p, s')
    requires s.frag.send == [] && s'.frag.send == [c]
    requires s'.queues == s.queues && s'.pools == s.pools && s'.re == s.re
    requires c == Chunk(|s.coarse|, 0, false, c.data) && c.data != []
    requires s'.coarse == s.coarse + [c.data] && s'.fine == s.fine + [[]] && FragData(p, s')
    ensures FlowInv(p, s')
  {
    var n := |s.coarse|;
    assert PieceOk(n, c.data, []);
    forall i | 0 <= i < |s'.fine|
      ensures PieceOk(i, s'.coarse[i], s'.fine[i])
    {
      if i < n {
        assert PieceOk(i, s.coarse[i], s.fine[i]);
      }
    }
    forall x
      ensures FlowAt(p, s', x)
    {
      CountOne(c, x);
      assert FlowAt(p, s, x);
      assert c.data[0..] == c.data;
    }
  }

  lemma DataOne(c: Chunk)
    ensures DataOf([c]) == c.data
  {
    assert [c][..0] == [];
  }

  lemma ConcatOne(coarse: seq<Bytes>, b: Bytes)
    ensures Concat(coarse + [b]) == Concat(coarse) + b
  {
    assert (coarse + [b])[..|coarse|] == coarse;
  }

  lemma FragReadData(p: Params, s: State)
    requires FragData(p, s) && FragOk(s) && CanFragRead(s)
    ensures var s', left := DoFragRead(s), if s.frag.cur == [] then [] else s.frag.cur[0].data;
            && FragData(p, s')
            && (s'.frag.send == [] ==> s'.coarse == s.coarse && s'.fine == s.fine)
            && (s'.frag.send != [] ==>
                  && s'.frag.send == [Chunk(|s.coarse|, 0, false, left)] && left != []
                  && s'.coarse == s.coarse + [left] && s'.fine == s.fine + [[]])
  {
    var s', f := DoFragRead(s), s.frag;
    var left := if f.cur == [] then [] else f.cur[0].data;
    var n := Min(MAXBUF, |f.rest|);
    if f.cur != [] {
      assert f.cur == [f.cur[0]];
      DataOne(f.cur[0]);
    }
    ConcatOne(s.coarse, left);
    assert f.rest == f.rest[..n] + f.rest[n..];
    Regroup(Concat(s.coarse), left, f.rest[..n], f.rest[n..]);
    if s'.frag.cur != [] {
      DataOne(s'.frag.cur[0]);
    } else {
      assert f.rest[n..] == f.rest[..n] == [] && left + f.rest[..n] == left;
    }
  }

  lemma Regroup(a: Bytes, b: Bytes, c: Bytes, d: Bytes)
    ensures a + b + (c + d) == a + (b + c) + d
  {
  }

  lemma FragReadFlow(p: Params, s: State)
    requires ShutdownInv(p, s) && FlowInv(p, s) && CanFragRead(s)
    ensures Shape(p, DoFragRead(s)) && FlowInv(p, DoFragRead(s))
  {
    var s' := DoFragRead(s);
    FragReadData(p, s);
    if s'.frag.send == [] {
      SameFrag(p, s, s');
    } else {
      CoarseGrow(p, s, s', s'.frag.send[0]);
    }
  }

  lemma SameFrag(p: Params, s: State, s': State)
    requires Shape(p, s) && FlowInv(p, s) && Shape(p, s')
    requires s' == s.(frag := s'.frag) && s'.frag.send == s.frag.send && FragData(p, s')
    ensures FlowInv(p, s')
  {
    forall x
      ensures SameCounts(p, s, s', x)
    {
    }
    SameFlow(p, s, s');
  }

  lemma CutBytes(a: Bytes, d: Bytes, pos: nat, r: Bytes)
    requires pos <= |d|
    ensures a + d + r == a + d[..pos] + d[pos..] + r
  {
    assert d == d[..pos] + d[pos..];
  }

  lemma FragCutData(p: Params, s: State, pos: nat)
    requires FragData(p, s) && CanFragCut(s, pos)
    ensures FragData(p, DoFragCut(s, pos))
  {
    var s', c := DoFragCut(s, pos), s.frag.cur[0];
    assert s.frag.cur == [c];
    DataOne(c);
    DataOne(s'.frag.cur[0]);
    ConcatOne(s.coarse, c.data[..pos]);
    CutBytes(Concat(s.coarse), c.data, pos, s.frag.rest);
  }

  lemma FragCutFlow(p: Params, s: State, pos: nat)
    requires ShutdownInv(p, s) && FlowInv(p, s) && CanFragCut(s, pos)
    ensures Shape(p, DoFragCut(s, pos)) && FlowInv(p, DoFragCut(s, pos))
  {
    FragCutData(p, s, pos);
    CoarseGrow(p, s, DoFragCut(s, pos), DoFragCut(s, pos).frag.send[0]);
  }

  lemma MoveStepsFlow(p: Params, s: State, a: Step)
    requires ShutdownInv(p, s) && FlowInv(p, s) && Enabled(p, s, a)
    requires a.FragFlush? || a.FragTerminate? || a.Fetch? || a.HangUp? || a.Flush? || a.FlushR? || a.Terminate? ||
             a.Poll?
    requires ShutdownInv(p, Apply(p, s, a))
    ensures forall x :: SameCounts(p, s, Apply(p, s, a), x)
  {
    hide SameCounts, FlowInv, DoFragRead, DoFragCut, DoFragFlush, DoFragTerminate, DoFetch, DoFlush, DoFlushR;
    hide DoTerminate, DoRefineBegin, DoRefineCut, DoRefineEnd, DoDedup, DoCompress, DoPoll, DoPollMiss, DoArrive;
    hide DoWrite;
    forall x
      ensures SameCounts(p, s, Apply(p, s, a), x)
    {
      match a
      case FragFlush => FragFlushCounts(p, s, x);
      case FragTerminate => FragTerminateCounts(p, s, x);
      case Fetch(k, t) => FetchCounts(p, s, k, t, x);
      case HangUp(k, t) => HangUpCounts(p, s, k, t, x);
      case Flush(k, t) => FlushCounts(p, s, k, t, x);
      case FlushR(t) => FlushRCounts(p, s, t, x);
      case Terminate(k, t) => TerminateCounts(p, s, k, t, x);
      case Poll => PollCounts(p, s, x);
    }
  }

  lemma FetchFlow(p: Params, s: State, k: nat, t: nat)
    requires ShutdownInv(p, s) && FlowInv(p, s) && k < 3 && t < p.nthreads && CanFetch(p, s, k, t)
    requires Shape(p, DoFetch(p, s, k, t)) && forall x :: SameCounts(p, s, DoFetch(p, s, k, t), x)
    ensures FlowInv(p, DoFetch(p, s, k, t))
  {
    var s' := DoFetch(p, s, k, t);
    assert forall u :: 0 <= u < p.nthreads ==>
        s'.pools[0][u].cur == s.pools[0][u].cur && s'.pools[0][u].chcount == s.pools[0][u].chcount;
    SameFlow(p, s, s');
  }

  lemma SendFlow(p: Params, s: State, s': State)
    requires Shape(p, s) && FlowInv(p, s) && Shape(p, s') && (forall x :: SameCounts(p, s, s', x))
    requires KeepsCutting(p, s, s')
    ensures FlowInv(p, s')
  {
    hide FlowAt, SameCounts;
    SameFlow(p, s, s');
  }

  lemma RefineBeginFlow(p: Params, s: State, t: nat)
    requires ShutdownInv(p, s) && FlowInv(p, s) && t < p.nthreads && CanWork(p, s, 0, t)
    ensures Shape(p, DoRefineBegin(p, s, t)) && FlowInv(p, DoRefineBegin(p, s, t))
  {
    var s', c := DoRefineBegin(p, s, t), s.pools[0][t].recv[0];
    forall x
      ensures Shape(p, s') && SameCounts(p, s, s', x)
    {
      RefineBeginCounts(p, s, t, x);
    }
    CountFirst(s.pools[0][t].recv, c);
    SumUpdate(InRecv, s.pools[0], t, s.pools[0][t], c);
    assert FlowAt(p, s, c);
    SameFlow(p, s, s');
  }

  /** No refiner takes or finishes a piece, and nothing is cut or cached. */
  ghost predicate KeepsCutting(p: Params, s: State, s': State)
    requires Shape(p, s) && Shape(p, s')
  {
    && s'.coarse == s.coarse && s'.fine == s.fine && s'.re.tree == s.re.tree
    && s'.frag.(send := s.frag.send, qid := s.frag.qid, closed := s.frag.closed) == s.frag
    && forall u :: 0 <= u < p.nthreads ==>
         s'.pools[0][u].cur == s.pools[0][u].cur && s'.pools[0][u].chcount == s.pools[0][u].chcount
  }

  lemma EndsKeepCutting(p: Params, s: State, a: Step)
    requires Shape(p, s) && Enabled(p, s, a) && (a.FragFlush? || a.FragTerminate? || a.Poll?)
    requires Shape(p, Apply(p, s, a))
    ensures KeepsCutting(p, s, Apply(p, s, a))
  {
  }

  lemma WorkersKeepCutting(p: Params, s: State, a: Step)
    requires Shape(p, s) && Enabled(p, s, a) && (a.HangUp? || a.Flush? || a.FlushR? || a.Terminate?)
    requires Shape(p, Apply(p, s, a))
    ensures KeepsCutting(p, s, Apply(p, s, a))
  {
  }

  /** Steps that pass items from one place of a region to the next. */
  lemma MoveFlow(p: Params, s: State, a: Step)
    requires ShutdownInv(p, s) && FlowInv(p, s) && Enabled(p, s, a)
    requires a.FragFlush? || a.FragTerminate? || a.HangUp? || a.Flush? || a.FlushR? || a.Terminate? || a.Poll?
    requires ShutdownInv(p, Apply(p, s, a))
    ensures FlowInv(p, Apply(p, s, a))
  {
    hide FlowInv, SameCounts, Apply, Enabled, KeepsCutting;
    MoveStepsFlow(p, s, a);
    if a.FragFlush? || a.FragTerminate? || a.Poll? {
      EndsKeepCutting(p, s, a);
    } else {
      WorkersKeepCutting(p, s, a);
    }
    SendFlow(p, s, Apply(p, s, a));
  }

  lemma QuietFlow(p: Params, s: State, a: Step)
    requires ShutdownInv(p, s) && FlowInv(p, s) && Enabled(p, s, a) && (a.FragKeep? || a.PollMiss? || a.Finish?)
    requires ShutdownInv(p, Apply(p, s, a))
    ensures FlowInv(p, Apply(p, s, a))
  {
    hide FlowAt;
    match a
    case FragKeep => SameFrag(p, s, s.(frag := s.frag.(phase := Reading)));
    case PollMiss => PrivateFlow(p, s, DoPollMiss(p, s));
    case Finish => PrivateFlow(p, s, s.(re := s.re.(phase := Finished)));
  }

  /** Every step keeps the conservation invariant. */
  lemma StepFlow(p: Params, s: State, a: Step)
    requires ShutdownInv(p, s) && FlowInv(p, s) && Enabled(p, s, a)
    requires ShutdownInv(p, Apply(p, s, a))
    ensures FlowInv(p, Apply(p, s, a))
  {
    hide FlowInv, DoFragRead, DoFragCut, DoFragFlush, DoFragTerminate, DoFetch, DoFlush, DoFlushR, DoTerminate;
    hide DoRefineBegin, DoRefineCut, DoRefineEnd, DoDedup, DoCompress, DoPoll, DoPollMiss, DoArrive, DoWrite;
    match a
    case FragRead => FragReadFlow(p, s);
    case FragCut(pos) => FragCutFlow(p, s, pos);
    case FragKeep => QuietFlow(p, s, a);
    case Fetch(k, t) => MoveStepsFlow(p, s, a); FetchFlow(p, s, k, t);
    case RefineBegin(t) => RefineBeginFlow(p, s, t);
    case RefineCut(t, pos) => RefineCutFlow(p, s, t, pos);
    case RefineEnd(t) => RefineEndFlow(p, s, t);
    case Dedup(t) => DedupFlow(p, s, t);
    case Compress(t) => CompressFlow(p, s, t);
    case PollMiss => QuietFlow(p, s, a);
    case Arrive => ArriveFlow(p, s);
    case Write => WriteFlow(p, s);
    case Finish => QuietFlow(p, s, a);
    case _ => MoveFlow(p, s, a);
  }

  lemma PrivateFlow(p: Params, s: State, s': State)
    requires Shape(p, s) && FlowInv(p, s) && Shape(p, s') && s' == s.(re := s'.re)
    requires s'.re.recv == s.re.recv && s'.re.tree == s.re.tree && s'.re.writing == s.re.writing
    requires s'.re.written == s.re.written
    ensures FlowInv(p, s')
  {
    forall x
      ensures SameCounts(p, s, s', x)
    {
    }
    SameFlow(p, s, s');
  }

  lemma RefineCutFlow(p: Params, s: State, t: nat, pos: nat)
    requires Shape(p, s) && FlowInv(p, s) && t < p.nthreads && CanRefine(p, s, t)
    requires 0 < pos < |s.pools[0][t].cur[0].data|
    ensures FlowInv(p, DoRefineCut(p, s, t, pos))
  {
    var c := s.pools[0][t].cur[0];
    CurIsOpen(p, s, t);
    assert c.data == c.data[..pos] + c.data[pos..];
    EmitFlow(p, s, t, Chunk(c.l1, s.pools[0][t].chcount, false, c.data[..pos]), [c.(data := c.data[pos..])]);
  }

  lemma RefineEndFlow(p: Params, s: State, t: nat)
    requires Shape(p, s) && FlowInv(p, s) && t < p.nthreads && CanRefine(p, s, t)
    ensures FlowInv(p, DoRefineEnd(p, s, t))
  {
    var c := s.pools[0][t].cur[0];
    CurIsOpen(p, s, t);
    assert PieceOk(c.l1, s.coarse[c.l1], s.fine[c.l1]);
    EmitFlow(p, s, t, Chunk(c.l1, s.pools[0][t].chcount, true, c.data), []);
  }
}
