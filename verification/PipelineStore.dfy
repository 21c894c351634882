/** Deduplication: one original per digest, and what the shared chunk headers say about chunks in
    each region of the pipeline. */
module PipelineStore {
  import opened Chunks
  import opened Pipeline
  import opened PipelineShutdown
  import opened PipelineFlow
  import opened PipelineConserve

  predicate Known(fine: seq<seq<Chunk>>, id: SeqNum) {
    id.l1 < |fine| && id.l2 < |fine[id.l1]|
  }

  function At(fine: seq<seq<Chunk>>, id: SeqNum): Chunk
    requires Known(fine, id)
  {
    fine[id.l1][id.l2]
  }

  /** Where a chunk is decides what its header may be. */
  ghost predicate PlaceAt(p: Params, s: State, x: Chunk)
    requires Shape(p, s)
  {
    && (PreCount(p, s, x) > 0 ==> x.Id() !in s.store)
    && (CompCount(p, s, x) > 0 ==> x.Id() in s.store && s.store[x.Id()] == Original(p.codec.sha(x.data), Uncompressed))
    && (PostCount(p, s, x) + ArrivedCount(s.re, x) > 0 ==>
          x.Id() in s.store && (s.store[x.Id()].Original? ==> s.store[x.Id()].state != Uncompressed))
  }

  /** A header belongs to a chunk that was cut; it is the original that the table has for its
      digest, or refers to it. */
  ghost predicate HeaderAt(p: Params, s: State, id: SeqNum) {
    id in s.store ==>
      && Known(s.fine, id)
      && var c := At(s.fine, id);
      && var d := p.codec.sha(c.data);
      && d in s.table
      && match s.store[id]
         case Original(sha, st) => sha == d && s.table[d] == id &&
             (st.Compressed? ==> st.payload == p.codec.comp(c.data))
         case Duplicate(ref) => ref == s.table[d]
  }

  ghost predicate TableAt(p: Params, s: State, d: Bytes) {
    d in s.table ==> s.table[d] in s.store && s.store[s.table[d]].Original? && s.store[s.table[d]].sha == d
  }

  ghost predicate StoreInv(p: Params, s: State)
    requires Shape(p, s)
  {
    && (forall x :: PlaceAt(p, s, x))
    && (forall id :: HeaderAt(p, s, id))
    && (forall d :: TableAt(p, s, d))
  }

  lemma InitStore(p: Params)
    requires ValidParams(p)
    ensures Shape(p, Init(p)) && StoreInv(p, Init(p))
  {
    InitFlow(p);
    var s := Init(p);
    forall x
      ensures PlaceAt(p, s, x)
    {
      assert FlowAt(p, s, x);
    }
  }

  /** A step that neither moves chunks between regions nor touches headers. */
  lemma SameStore(p: Params, s: State, s': State)
    requires Shape(p, s) && StoreInv(p, s) && Shape(p, s')
    requires forall x :: SameCounts(p, s, s', x)
    requires s'.store == s.store && s'.table == s.table && s'.fine == s.fine
    ensures StoreInv(p, s')
  {
    forall x
      ensures PlaceAt(p, s', x)
    {
      assert SameCounts(p, s, s', x) && PlaceAt(p, s, x);
    }
    forall id
      ensures HeaderAt(p, s', id)
    {
      assert HeaderAt(p, s, id);
    }
    forall d
      ensures TableAt(p, s', d)
    {
      assert TableAt(p, s, d);
    }
  }

  /** A chunk that is in the pipeline was cut, is there once, and is the chunk its number names. */
  lemma LiveKnown(p: Params, s: State, x: Chunk)
    requires Shape(p, s) && FlowInv(p, s) && LiveCount(p, s, x) > 0
    ensures LiveCount(p, s, x) == 1 && Known(s.fine, x.Id()) && At(s.fine, x.Id()) == x
  {
    assert FlowAt(p, s, x);
  }

  lemma CoarseGrowStore(p: Params, s: State, s': State)
    requires Shape(p, s) && StoreInv(p, s) && Shape(p, s')
    requires s'.queues == s.queues && s'.pools == s.pools && s'.re == s.re
    requires s'.store == s.store && s'.table == s.table && (s'.fine == s.fine || s'.fine == s.fine + [[]])
    ensures StoreInv(p, s')
  {
    forall x
      ensures PlaceAt(p, s', x)
    {
      assert PlaceAt(p, s, x);
    }
    forall id
      ensures HeaderAt(p, s', id)
    {
      assert HeaderAt(p, s, id);
    }
    forall d
      ensures TableAt(p, s', d)
    {
      assert TableAt(p, s, d);
    }
  }

  lemma EmitStore(p: Params, s: State, t: nat, piece: Chunk, cur: seq<Chunk>)
    requires Shape(p, s) && FlowInv(p, s) && StoreInv(p, s) && t < p.nthreads && CanRefine(p, s, t)
    requires Splits(p, s, t, piece, cur)
    ensures Shape(p, EmitFine(s, t, piece, cur)) && StoreInv(p, EmitFine(s, t, piece, cur))
  {
    var s' := EmitFine(s, t, piece, cur);
    EmitHistory(p, s, t, piece, cur);
    assert HeaderAt(p, s, piece.Id());
    forall x
      ensures PlaceAt(p, s', x)
    {
      EmitRegions(p, s, t, piece, cur, x);
      assert PlaceAt(p, s, x);
    }
    forall id
      ensures HeaderAt(p, s', id)
    {
      assert HeaderAt(p, s, id);
      if id in s.store {
        assert At(s'.fine, id) == At(s.fine, id);
      }
    }
    forall d
      ensures TableAt(p, s', d)
    {
      assert TableAt(p, s, d);
    }
  }

  lemma EmitRegions(p: Params, s: State, t: nat, piece: Chunk, cur: seq<Chunk>, x: Chunk)
    requires Shape(p, s) && t < p.nthreads && CanRefine(p, s, t) && piece.l1 < |s.fine|
    ensures var s' := EmitFine(s, t, piece, cur);
            && Shape(p, s')
            && PreCount(p, s', x) == PreCount(p, s, x) + (if piece == x then 1 else 0)
            && CompCount(p, s', x) == CompCount(p, s, x) && PostCount(p, s', x) == PostCount(p, s, x)
            && ArrivedCount(s'.re, x) == ArrivedCount(s.re, x)
  {
    var s', w := EmitFine(s, t, piece, cur), s.pools[0][t];
    WorkerSums(s.pools[0], t, s'.pools[0][t], x);
    CountAppend(w.send, [piece], x);
    CountOne(piece, x);
  }

  /** The chunk a deduplication thread looks at has no header yet. */
  lemma DedupFresh(p: Params, s: State, t: nat)
    requires Shape(p, s) && FlowInv(p, s) && StoreInv(p, s) && t < p.nthreads && CanWork(p, s, 1, t)
    ensures var c := s.pools[1][t].recv[0];
            && PreCount(p, s, c) == 1 && CompCount(p, s, c) == 0 && PostCount(p, s, c) + ArrivedCount(s.re, c) == 0
            && c.Id() !in s.store && Known(s.fine, c.Id()) && At(s.fine, c.Id()) == c
  {
    var c := s.pools[1][t].recv[0];
    CountFirst(s.pools[1][t].recv, c);
    SumUpdate(InRecv, s.pools[1], t, s.pools[1][t], c);
    LiveKnown(p, s, c);
    assert PlaceAt(p, s, c);
  }

  /** What deduplication does to the headers and to the table. */
  lemma DedupHeaders(p: Params, s: State, t: nat)
    requires Shape(p, s) && t < p.nthreads && CanWork(p, s, 1, t)
    ensures var s', c := DoDedup(p, s, t), s.pools[1][t].recv[0];
            var d := p.codec.sha(c.data);
            && Shape(p, s') && s'.fine == s.fine
            && if d in s.table then s'.table == s.table && s'.store == s.store[c.Id() := Duplicate(s.table[d])]
               else s'.table == s.table[d := c.Id()] && s'.store == s.store[c.Id() := Original(d, Uncompressed)]
  {
  }

  lemma DedupPlace(p: Params, s: State, t: nat, x: Chunk)
    requires Shape(p, s) && FlowInv(p, s) && StoreInv(p, s) && t < p.nthreads && CanWork(p, s, 1, t)
    ensures Shape(p, DoDedup(p, s, t)) && PlaceAt(p, DoDedup(p, s, t), x)
  {
    hide DoDedup, CanWork, FlowInv, PreCount, CompCount, PostCount, ArrivedCount;
    DedupFresh(p, s, t);
    DedupHeaders(p, s, t);
    DedupCounts(p, s, t, x);
    assert PlaceAt(p, s, x);
    if LiveCount(p, s, x) > 0 {
      LiveKnown(p, s, x);
    }
  }

  lemma DedupStore(p: Params, s: State, t: nat)
    requires Shape(p, s) && FlowInv(p, s) && StoreInv(p, s) && t < p.nthreads && CanWork(p, s, 1, t)
    ensures Shape(p, DoDedup(p, s, t)) && StoreInv(p, DoDedup(p, s, t))
  {
    hide DoDedup, CanWork, FlowInv, PlaceAt;
    var s' := DoDedup(p, s, t);
    DedupFresh(p, s, t);
    DedupHeaders(p, s, t);
    forall x
      ensures PlaceAt(p, s', x)
    {
      DedupPlace(p, s, t, x);
    }
    forall id
      ensures HeaderAt(p, s', id)
    {
      assert HeaderAt(p, s, id);
    }
    forall d
      ensures TableAt(p, s', d)
    {
      assert TableAt(p, s, d);
    }
  }

  /** The assertion in sub_Compress holds: the chunk is an uncompressed original. */
  lemma CompressFresh(p: Params, s: State, t: nat)
    requires Shape(p, s) && FlowInv(p, s) && StoreInv(p, s) && t < p.nthreads && CanWork(p, s, 2, t)
    ensures var c := s.pools[2][t].recv[0];
            && CompCount(p, s, c) == 1 && PreCount(p, s, c) + PostCount(p, s, c) + ArrivedCount(s.re, c) == 0
            && c.Id() in s.store && s.store[c.Id()] == Original(p.codec.sha(c.data), Uncompressed)
            && Known(s.fine, c.Id()) && At(s.fine, c.Id()) == c
  {
    var c := s.pools[2][t].recv[0];
    CountFirst(s.pools[2][t].recv, c);
    SumUpdate(InRecv, s.pools[2], t, s.pools[2][t], c);
    LiveKnown(p, s, c);
    assert PlaceAt(p, s, c);
  }

  lemma CompressStore(p: Params, s: State, t: nat)
    requires Shape(p, s) && FlowInv(p, s) && StoreInv(p, s) && t < p.nthreads && CanWork(p, s, 2, t)
    ensures Shape(p, DoCompress(p, s, t)) && StoreInv(p, DoCompress(p, s, t))
  {
    var s', c := DoCompress(p, s, t), s.pools[2][t].recv[0];
    CompressFresh(p, s, t);
    forall x
      ensures Shape(p, s') && PlaceAt(p, s', x)
    {
      CompressCounts(p, s, t, x);
      assert PlaceAt(p, s, x);
      if LiveCount(p, s, x) > 0 {
        LiveKnown(p, s, x);
      }
    }
    forall id
      ensures HeaderAt(p, s', id)
    {
      assert HeaderAt(p, s, id);
    }
    forall d
      ensures TableAt(p, s', d)
    {
      assert TableAt(p, s, d);
    }
  }

  lemma ArriveStore(p: Params, s: State)
    requires Shape(p, s) && FlowInv(p, s) && StoreInv(p, s) && s.re.writing == [] && s.re.recv != []
    ensures StoreInv(p, s.(re := DoArrive(s.re)))
  {
    var s' := s.(re := DoArrive(s.re));
    ArriveFresh(p, s);
    forall x
      ensures PlaceAt(p, s', x)
    {
      ArriveCounts(s.re, x);
      assert PlaceAt(p, s, x);
    }
    forall id
      ensures HeaderAt(p, s', id)
    {
      assert HeaderAt(p, s, id);
    }
    forall d
      ensures TableAt(p, s', d)
    {
      assert TableAt(p, s, d);
    }
  }

  /** What a write does to the headers: a compressed original becomes flushed. */
  lemma WriteHeaders(p: Params, s: State)
    requires Shape(p, s) && CanWrite(s)
    ensures var s', o := DoWrite(s), OrigOf(s.store, s.re.writing[0].Id());
            && s'.fine == s.fine && s'.table == s.table && Shape(p, s')
            && s'.queues == s.queues && s'.pools == s.pools && s'.re.recv == s.re.recv
            && s'.store ==
               if s.store[o].state.Compressed? then s.store[o := Original(s.store[o].sha, Flushed)] else s.store
  {
  }

  lemma WritePlace(p: Params, s: State, x: Chunk)
    requires Shape(p, s) && FlowInv(p, s) && StoreInv(p, s) && CanWrite(s)
    ensures Shape(p, DoWrite(s)) && PlaceAt(p, DoWrite(s), x)
  {
    hide DoWrite, ArrivedCount;
    var c := s.re.writing[0];
    assert HeaderAt(p, s, c.Id()) && HeaderAt(p, s, OrigOf(s.store, c.Id()));
    WriteHeaders(p, s);
    WriteCounts(s, x);
    assert PlaceAt(p, s, x);
  }

  lemma WriteStore(p: Params, s: State)
    requires Shape(p, s) && FlowInv(p, s) && StoreInv(p, s) && CanWrite(s)
    ensures StoreInv(p, DoWrite(s))
  {
    hide DoWrite, FlowInv, PlaceAt;
    var s', c := DoWrite(s), s.re.writing[0];
    assert HeaderAt(p, s, c.Id()) && HeaderAt(p, s, OrigOf(s.store, c.Id()));
    WriteHeaders(p, s);
    forall x
      ensures PlaceAt(p, s', x)
    {
      WritePlace(p, s, x);
    }
    forall id
      ensures HeaderAt(p, s', id)
    {
      assert HeaderAt(p, s, id);
    }
    forall d
      ensures TableAt(p, s', d)
    {
      assert TableAt(p, s, d);
    }
  }

  /** Every step keeps the deduplication invariant. */
  lemma StepStore(p: Params, s: State, a: Step)
    requires ShutdownInv(p, s) && FlowInv(p, s) && StoreInv(p, s) && Enabled(p, s, a)
    requires ShutdownInv(p, Apply(p, s, a))
    ensures StoreInv(p, Apply(p, s, a))
  {
    hide StoreInv, FlowInv, DoFragRead, DoFragCut, DoFragFlush, DoFragTerminate, DoFetch, DoFlush, DoFlushR;
    hide DoTerminate, DoRefineBegin, DoRefineCut, DoRefineEnd, DoDedup, DoCompress, DoPoll, DoPollMiss, DoArrive;
    hide DoWrite;
    match a
    case FragRead => FragStore(p, s, a);
    case FragCut(pos) => FragStore(p, s, a);
    case FragKeep => FragStore(p, s, a);
    case RefineBegin(t) => RefineBeginStore(p, s, t);
    case RefineCut(t, pos) => RefineCutStore(p, s, t, pos);
    case RefineEnd(t) => RefineEndStore(p, s, t);
    case Dedup(t) => DedupStore(p, s, t);
    case Compress(t) => CompressStore(p, s, t);
    case PollMiss => QuietStore(p, s, a);
    case Arrive => ArriveStore(p, s);
    case Write => WriteStore(p, s);
    case Finish => QuietStore(p, s, a);
    case _ => MoveStore(p, s, a);
  }

  lemma FragStore(p: Params, s: State, a: Step)
    requires ShutdownInv(p, s) && StoreInv(p, s) && Enabled(p, s, a) && (a.FragRead? || a.FragCut? || a.FragKeep?)
    requires Shape(p, Apply(p, s, a))
    ensures StoreInv(p, Apply(p, s, a))
  {
    CoarseGrowStore(p, s, Apply(p, s, a));
  }

  lemma RefineBeginStore(p: Params, s: State, t: nat)
    requires ShutdownInv(p, s) && StoreInv(p, s) && t < p.nthreads && CanWork(p, s, 0, t)
    ensures Shape(p, DoRefineBegin(p, s, t)) && StoreInv(p, DoRefineBegin(p, s, t))
  {
    var s' := DoRefineBegin(p, s, t);
    forall x
      ensures Shape(p, s') && SameCounts(p, s, s', x)
    {
      RefineBeginCounts(p, s, t, x);
    }
    SameStore(p, s, s');
  }

  lemma MoveStore(p: Params, s: State, a: Step)
    requires ShutdownInv(p, s) && FlowInv(p, s) && StoreInv(p, s) && Enabled(p, s, a)
    requires a.FragFlush? || a.FragTerminate? || a.Fetch? || a.HangUp? || a.Flush? || a.FlushR? || a.Terminate? ||
             a.Poll?
    requires ShutdownInv(p, Apply(p, s, a))
    ensures StoreInv(p, Apply(p, s, a))
  {
    MoveStepsFlow(p, s, a);
    SameStore(p, s, Apply(p, s, a));
  }

  lemma PrivateStore(p: Params, s: State, s': State)
    requires Shape(p, s) && StoreInv(p, s) && Shape(p, s') && s' == s.(re := s'.re)
    requires s'.re.recv == s.re.recv && s'.re.tree == s.re.tree && s'.re.writing == s.re.writing
    requires s'.re.written == s.re.written
    ensures StoreInv(p, s')
  {
    forall x
      ensures SameCounts(p, s, s', x)
    {
    }
    SameStore(p, s, s');
  }

  lemma QuietStore(p: Params, s: State, a: Step)
    requires ShutdownInv(p, s) && StoreInv(p, s) && Enabled(p, s, a) && (a.PollMiss? || a.Finish?)
    requires Shape(p, Apply(p, s, a))
    ensures StoreInv(p, Apply(p, s, a))
  {
    hide StoreInv;
    PrivateStore(p, s, Apply(p, s, a));
  }

  lemma RefineCutStore(p: Params, s: State, t: nat, pos: nat)
    requires Shape(p, s) && FlowInv(p, s) && StoreInv(p, s) && t < p.nthreads && CanRefine(p, s, t)
    requires 0 < pos < |s.pools[0][t].cur[0].data|
    ensures StoreInv(p, DoRefineCut(p, s, t, pos))
  {
    var c := s.pools[0][t].cur[0];
    CurIsOpen(p, s, t);
    assert c.data == c.data[..pos] + c.data[pos..];
    EmitStore(p, s, t, Chunk(c.l1, s.pools[0][t].chcount, false, c.data[..pos]), [c.(data := c.data[pos..])]);
  }

  lemma RefineEndStore(p: Params, s: State, t: nat)
    requires Shape(p, s) && FlowInv(p, s) && StoreInv(p, s) && t < p.nthreads && CanRefine(p, s, t)
    ensures StoreInv(p, DoRefineEnd(p, s, t))
  {
    var c := s.pools[0][t].cur[0];
    CurIsOpen(p, s, t);
    assert PieceOk(c.l1, s.coarse[c.l1], s.fine[c.l1]);
    EmitStore(p, s, t, Chunk(c.l1, s.pools[0][t].chcount, true, c.data), []);
  }
}
