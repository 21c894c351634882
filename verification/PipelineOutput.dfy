/** What is written: the data of a digest once, before every fingerprint of it. */
module PipelineOutput {
  import opened Chunks
  import opened Pipeline
  import opened PipelineShutdown
  import opened PipelineFlow
  import opened PipelineConserve
  import opened PipelineStore
  import opened Decoder

  /** The original of the k-th chunk written. */
  ghost function OrigAt(s: State, k: nat): SeqNum
    requires k < |s.re.written|
  {
    if s.re.written[k].Id() in s.store then OrigOf(s.store, s.re.written[k].Id()) else s.re.written[k].Id()
  }

  /** Some chunk among the first n written has this original. */
  ghost predicate Used(s: State, n: nat, o: SeqNum)
    requires n <= |s.re.written|
  {
    exists k :: 0 <= k < n && OrigAt(s, k) == o
  }

  /** The k-th record: data at the first use of an original, its digest afterwards. */
  ghost predicate RecordAt(p: Params, s: State, k: nat)
    requires |s.re.out| == |s.re.written| && k < |s.re.written|
  {
    var o := OrigAt(s, k);
    && Known(s.fine, o)
    && s.re.out[k] == if Used(s, k, o) then Fingerprint(p.codec.sha(At(s.fine, o).data))
                      else Data(p.codec.comp(At(s.fine, o).data))
  }

  ghost predicate FlushedAt(s: State, o: SeqNum) {
    o in s.store && s.store[o].Original? ==> (s.store[o].state == Flushed <==> Used(s, |s.re.written|, o))
  }

  ghost predicate OutInv(p: Params, s: State) {
    && |s.re.out| == |s.re.written|
    && (forall k :: 0 <= k < |s.re.written| ==> s.re.written[k].Id() in s.store && RecordAt(p, s, k))
    && (forall o :: FlushedAt(s, o))
  }

  lemma InitOut(p: Params)
    ensures OutInv(p, Init(p))
  {
  }

  /** Nothing was written, and headers only changed in ways that keep originals and flushes. */
  lemma SameOut(p: Params, s: State, s': State)
    requires OutInv(p, s) && s'.re.written == s.re.written && s'.re.out == s.re.out
    requires forall k :: 0 <= k < |s.re.written| ==>
               var id := s.re.written[k].Id();
               id in s'.store && OrigOf(s'.store, id) == OrigOf(s.store, id)
    requires forall o :: o in s'.store && s'.store[o].Original? ==>
               if o in s.store && s.store[o].Original?
               then (s'.store[o].state == Flushed <==> s.store[o].state == Flushed)
               else s'.store[o].state != Flushed && !Used(s, |s.re.written|, o)
    requires forall id :: Known(s.fine, id) ==> Known(s'.fine, id) && At(s'.fine, id) == At(s.fine, id)
    ensures OutInv(p, s')
  {
    forall k | 0 <= k < |s.re.written|
      ensures OrigAt(s', k) == OrigAt(s, k)
    {
    }
    forall n, o | 0 <= n <= |s.re.written|
      ensures Used(s', n, o) <==> Used(s, n, o)
    {
      UsedSame(s, s', n, o);
    }
    forall k | 0 <= k < |s.re.written|
      ensures RecordAt(p, s', k)
    {
      assert RecordAt(p, s, k);
      assert Used(s', k, OrigAt(s, k)) <==> Used(s, k, OrigAt(s, k));
    }
    forall o
      ensures FlushedAt(s', o)
    {
      assert FlushedAt(s, o);
      assert Used(s', |s.re.written|, o) <==> Used(s, |s.re.written|, o);
    }
  }

  lemma UsedSame(s: State, s': State, n: nat, o: SeqNum)
    requires n <= |s.re.written| <= |s'.re.written|
    requires forall k :: 0 <= k < n ==> OrigAt(s', k) == OrigAt(s, k)
    ensures Used(s', n, o) <==> Used(s, n, o)
  {
    if Used(s', n, o) {
      var k :| 0 <= k < n && OrigAt(s', k) == o;
      assert OrigAt(s, k) == o;
    }
    if Used(s, n, o) {
      var k :| 0 <= k < n && OrigAt(s, k) == o;
      assert OrigAt(s', k) == o;
    }
  }

  /** An original that was used has a header; a chunk without one was not used. */
  lemma UsedHasHeader(p: Params, s: State, o: SeqNum)
    requires Shape(p, s) && StoreInv(p, s) && OutInv(p, s) && Used(s, |s.re.written|, o)
    ensures o in s.store && s.store[o].Original?
  {
    var k :| 0 <= k < |s.re.written| && OrigAt(s, k) == o;
    OrigIsOriginal(p, s, s.re.written[k].Id());
  }

  /** The header a chunk refers to is that of the original with the same digest. */
  lemma OrigIsOriginal(p: Params, s: State, id: SeqNum)
    requires Shape(p, s) && StoreInv(p, s) && id in s.store
    ensures var o := OrigOf(s.store, id);
            && o in s.store && s.store[o].Original? && Known(s.fine, id) && Known(s.fine, o)
            && s.store[o].sha == p.codec.sha(At(s.fine, o).data) == p.codec.sha(At(s.fine, id).data)
            && s.store[o].sha in s.table && s.table[s.store[o].sha] == o
  {
    var o := OrigOf(s.store, id);
    assert HeaderAt(p, s, id) && HeaderAt(p, s, o);
    assert TableAt(p, s, p.codec.sha(At(s.fine, id).data));
  }

  lemma FineGrowOut(p: Params, s: State, s': State)
    requires OutInv(p, s) && s'.re.written == s.re.written && s'.re.out == s.re.out && s'.store == s.store
    requires forall id :: Known(s.fine, id) ==> Known(s'.fine, id) && At(s'.fine, id) == At(s.fine, id)
    ensures OutInv(p, s')
  {
    forall o | o in s'.store && s'.store[o].Original?
      ensures s'.store[o].state == Flushed <==> s.store[o].state == Flushed
    {
    }
    SameOut(p, s, s');
  }

  lemma DedupOut(p: Params, s: State, t: nat)
    requires Shape(p, s) && FlowInv(p, s) && StoreInv(p, s) && OutInv(p, s) && t < p.nthreads && CanWork(p, s, 1, t)
    ensures OutInv(p, DoDedup(p, s, t))
  {
    var s', c := DoDedup(p, s, t), s.pools[1][t].recv[0];
    DedupFresh(p, s, t);
    if Used(s, |s.re.written|, c.Id()) {
      UsedHasHeader(p, s, c.Id());
    }
    SameOut(p, s, s');
  }

  lemma CompressOut(p: Params, s: State, t: nat)
    requires Shape(p, s) && FlowInv(p, s) && StoreInv(p, s) && OutInv(p, s) && t < p.nthreads && CanWork(p, s, 2, t)
    ensures OutInv(p, DoCompress(p, s, t))
  {
    CompressFresh(p, s, t);
    SameOut(p, s, DoCompress(p, s, t));
  }

  lemma WriteOut(p: Params, s: State)
    requires Shape(p, s) && FlowInv(p, s) && StoreInv(p, s) && OutInv(p, s) && CanWrite(s)
    ensures OutInv(p, DoWrite(s))
  {
    var s', c := DoWrite(s), s.re.writing[0];
    var o, n := OrigOf(s.store, c.Id()), |s.re.written|;
    OrigIsOriginal(p, s, c.Id());
    assert HeaderAt(p, s, o) && FlushedAt(s, o);
    assert s'.re.written == s.re.written + [c];
    forall k | 0 <= k < n
      ensures OrigAt(s', k) == OrigAt(s, k)
    {
    }
    assert OrigAt(s', n) == o;
    forall k | 0 <= k <= n
      ensures s'.re.written[k].Id() in s'.store && RecordAt(p, s', k)
    {
      if k < n {
        assert RecordAt(p, s, k);
        UsedSame(s, s', k, OrigAt(s, k));
      } else {
        UsedSame(s, s', n, o);
      }
    }
    forall q
      ensures FlushedAt(s', q)
    {
      assert FlushedAt(s, q);
      UsedSame(s, s', n, q);
      UsedNext(s', n, q);
    }
  }

  lemma UsedNext(s: State, n: nat, o: SeqNum)
    requires n < |s.re.written|
    ensures Used(s, n + 1, o) <==> Used(s, n, o) || OrigAt(s, n) == o
  {
    if Used(s, n, o) {
      var k :| 0 <= k < n && OrigAt(s, k) == o;
      assert Used(s, n + 1, o);
    }
  }

  /** Every step keeps the shape of the output. */
  lemma StepOut(p: Params, s: State, a: Step)
    requires ShutdownInv(p, s) && FlowInv(p, s) && StoreInv(p, s) && OutInv(p, s) && Enabled(p, s, a)
    ensures OutInv(p, Apply(p, s, a))
  {
    hide OutInv, FlowInv, StoreInv, DoFragRead, DoFragCut, DoFragFlush, DoFragTerminate, DoFetch, DoFlush, DoFlushR;
    hide DoTerminate, DoRefineBegin, DoRefineCut, DoRefineEnd, DoDedup, DoCompress, DoPoll, DoPollMiss, DoArrive;
    hide DoWrite;
    match a
    case Dedup(t) => DedupOut(p, s, t);
    case Compress(t) => CompressOut(p, s, t);
    case Write => WriteOut(p, s);
    case Fetch(_, _) => WorkerOut(p, s, a);
    case HangUp(_, _) => WorkerOut(p, s, a);
    case Flush(_, _) => WorkerOut(p, s, a);
    case FlushR(_) => WorkerOut(p, s, a);
    case Terminate(_, _) => WorkerOut(p, s, a);
    case RefineBegin(_) => WorkerOut(p, s, a);
    case RefineCut(_, _) => WorkerOut(p, s, a);
    case RefineEnd(_) => WorkerOut(p, s, a);
    case _ => EndsOut(p, s, a);
  }

  lemma WorkerOut(p: Params, s: State, a: Step)
    requires ShutdownInv(p, s) && OutInv(p, s) && Enabled(p, s, a)
    requires a.Fetch? || a.HangUp? || a.Flush? || a.FlushR? || a.Terminate? || a.RefineBegin? || a.RefineCut? ||
             a.RefineEnd?
    ensures OutInv(p, Apply(p, s, a))
  {
    FineGrowOut(p, s, Apply(p, s, a));
  }

  lemma EndsOut(p: Params, s: State, a: Step)
    requires ShutdownInv(p, s) && OutInv(p, s) && Enabled(p, s, a)
    requires a.FragRead? || a.FragCut? || a.FragKeep? || a.FragFlush? || a.FragTerminate? ||
             a.Poll? || a.PollMiss? || a.Arrive? || a.Finish?
    ensures OutInv(p, Apply(p, s, a))
  {
    FineGrowOut(p, s, Apply(p, s, a));
  }

  /** The digest a record stands for. */
  function DigestOf(c: Codec, rec: Record): Bytes {
    match rec
    case Data(payload) => c.sha(c.decomp(payload))
    case Fingerprint(h) => h
  }

  /** A record is a fingerprint exactly if an earlier record has the same digest: data first, once. */
  lemma DataOnceAndFirst(p: Params, s: State, k: nat)
    requires Shape(p, s) && FlowInv(p, s) && StoreInv(p, s) && OutInv(p, s) && SoundCodec(p.codec)
    requires k < |s.re.out|
    ensures s.re.out[k].Fingerprint? <==>
            exists j :: 0 <= j < k && DigestOf(p.codec, s.re.out[j]) == DigestOf(p.codec, s.re.out[k])
  {
    RecordDigest(p, s, k);
    var o := OrigAt(s, k);
    if s.re.out[k].Fingerprint? {
      var j :| 0 <= j < k && OrigAt(s, j) == o;
      RecordDigest(p, s, j);
    }
    if j :| 0 <= j < k && DigestOf(p.codec, s.re.out[j]) == DigestOf(p.codec, s.re.out[k]) {
      RecordDigest(p, s, j);
      assert OrigAt(s, j) == o;
    }
  }

  lemma RecordDigest(p: Params, s: State, k: nat)
    requires Shape(p, s) && FlowInv(p, s) && StoreInv(p, s) && OutInv(p, s) && SoundCodec(p.codec)
    requires k < |s.re.out|
    ensures RecordAt(p, s, k) && At(s.fine, OrigAt(s, k)).data != []
    ensures DigestOf(p.codec, s.re.out[k]) == p.codec.sha(At(s.fine, OrigAt(s, k)).data)
    ensures var d := DigestOf(p.codec, s.re.out[k]); d in s.table && s.table[d] == OrigAt(s, k)
  {
    var o := OrigAt(s, k);
    OrigIsOriginal(p, s, s.re.written[k].Id());
    assert HeaderAt(p, s, o) && RecordAt(p, s, k);
    assert PieceOk(o.l1, s.coarse[o.l1], s.fine[o.l1]);
    assert p.codec.decomp(p.codec.comp(At(s.fine, o).data)) == At(s.fine, o).data;
  }
}
