/** Shutdown of the pipeline: who has hung up, which queues are closed, and why no stage ever
    puts an item into a terminated queue. */
module PipelineShutdown {
  import opened Chunks
  import opened Pipeline

  /** How many workers in [lo, hi) have terminated. */
  function DoneIn(ws: seq<Worker>, lo: nat, hi: nat): (n: nat)
    requires lo <= hi <= |ws|
    ensures n <= hi - lo
  {
    if lo == hi then 0 else DoneIn(ws, lo, hi - 1) + (if ws[hi - 1].status == Done then 1 else 0)
  }

  lemma {:induction false} DoneInFull(ws: seq<Worker>, lo: nat, hi: nat)
    requires lo <= hi <= |ws|
    ensures DoneIn(ws, lo, hi) == hi - lo <==> forall t :: lo <= t < hi ==> ws[t].status == Done
  {
    if lo < hi {
      DoneInFull(ws, lo, hi - 1);
    }
  }

  lemma {:induction false} DoneInUpdate(ws: seq<Worker>, lo: nat, hi: nat, t: nat, w: Worker)
    requires lo <= hi <= |ws| && t < |ws|
    requires ws[t].status != Done
    ensures DoneIn(ws[t := w], lo, hi) ==
            DoneIn(ws, lo, hi) + (if lo <= t < hi && w.status == Done then 1 else 0)
  {
    if lo < hi {
      DoneInUpdate(ws, lo, hi - 1, t, w);
    }
  }

  function Lo(q: nat): nat { MAX_THREADS_PER_QUEUE * q }

  function Hi(p: Params, q: nat): nat { Lo(q) + ThreadsPerQueue(p, q) }

  /** The threads that Encode counts as producers of queue q are exactly those whose id maps to q. */
  lemma GroupRange(p: Params, q: nat)
    requires p.nthreads > 0 && q < NQueues(p)
    ensures Lo(q) < Hi(p, q) <= p.nthreads
    ensures forall t :: 0 <= t < p.nthreads ==> (Group(t) == q <==> Lo(q) <= t < Hi(p, q))
  {
  }

  function Producers(p: Params, k: nat, q: nat): nat {
    if k == 0 then 1 else ThreadsPerQueue(p, q)
  }

  /** How many producers of queues[k][i] have hung up. */
  function HungUp(p: Params, s: State, k: nat, i: nat): nat
    requires Shape(p, s) && k < 4 && i < NQueues(p)
  {
    GroupRange(p, i);
    if k == 0 then (if i < s.frag.closed then 1 else 0) else DoneIn(s.pools[k - 1], Lo(i), Hi(p, i))
  }

  ghost predicate QueueOk(p: Params, s: State, k: nat, i: nat)
    requires Shape(p, s) && k < 4 && i < NQueues(p)
  {
    && s.queues[k][i].producers == Producers(p, k, i)
    && s.queues[k][i].terminated == HungUp(p, s, k, i)
    && |s.queues[k][i].buf| <= QUEUE_SIZE
  }

  /** A worker that stopped fetching has nothing left to process and its queue is closed. */
  ghost predicate WorkerOk(p: Params, s: State, k: nat, t: nat)
    requires Shape(p, s) && k < 3 && t < p.nthreads
  {
    var w := s.pools[k][t];
    && (w.status != Running ==> w.recv == [] && w.cur == [] && IsClosed(s.queues[k][GroupOf(p, t)]))
    && (w.status == Done ==> w.send == [] && w.sendR == [])
    && |w.cur| <= 1 && (k != 0 ==> w.cur == []) && (k != 1 ==> w.sendR == [])
    && |w.send| <= SEND_LIMIT && |w.sendR| <= SEND_LIMIT
  }

  ghost predicate FragOk(s: State) {
    && |s.frag.cur| <= 1 && |s.frag.send| <= 1
    && (s.frag.closed > 0 ==> s.frag.phase == Closing && s.frag.send == [])
    && (s.frag.phase == Closing ==> s.frag.cur == [])
    && (s.frag.phase == Splitting ==> |s.frag.cur| == 1)
  }

  /** The queue polled j turns ago. */
  function Back(p: Params, qid: nat, j: nat): nat
    requires j <= NQueues(p) && qid < NQueues(p)
  {
    if j <= qid then qid - j else qid + NQueues(p) - j
  }

  ghost predicate PollOk(p: Params, s: State)
    requires Shape(p, s)
  {
    && (forall j :: 1 <= j <= s.re.misses ==> IsClosed(s.queues[3][Back(p, s.re.qid, j)]))
    && (s.re.phase != Main ==> s.re.misses == NQueues(p) && s.re.recv == [])
    && (s.re.phase == Finished ==> s.re.tree == map[])
    && (s.re.phase != Main || s.re.misses > 0 ==> s.re.writing == [] && s.re.recv == [])
    && |s.re.writing| <= 1
  }

  ghost predicate ShutdownInv(p: Params, s: State) {
    && Shape(p, s) && FragOk(s) && PollOk(p, s)
    && (forall k, i {:trigger QueueOk(p, s, k, i)} :: 0 <= k < 4 && 0 <= i < NQueues(p) ==> QueueOk(p, s, k, i))
    && (forall k, t {:trigger WorkerOk(p, s, k, t)} :: 0 <= k < 3 && 0 <= t < p.nthreads ==> WorkerOk(p, s, k, t))
  }

  /** The assertion at the head of queue_enqueue holds for a thread that feeds the next stage. */
  lemma EnqueueSafe(p: Params, s: State, k: nat, t: nat)
    requires ShutdownInv(p, s) && k < 3 && t < p.nthreads && s.pools[k][t].status != Done
    ensures !IsTerminated(s.queues[k + 1][GroupOf(p, t)])
  {
    var g := GroupOf(p, t);
    GroupRange(p, g);
    DoneInFull(s.pools[k], Lo(g), Hi(p, g));
    assert QueueOk(p, s, k + 1, g);
  }

  /** It also holds for a deduplication thread that feeds the reorder queue, although only the
      compression threads are counted as producers of that queue. */
  lemma ReorderEnqueueSafe(p: Params, s: State, t: nat)
    requires ShutdownInv(p, s) && t < p.nthreads && s.pools[1][t].status != Done
    ensures !IsTerminated(s.queues[3][GroupOf(p, t)])
  {
    var g := GroupOf(p, t);
    EnqueueSafe(p, s, 1, t);
    GroupRange(p, g);
    DoneInFull(s.pools[2], Lo(g), Hi(p, g));
    assert QueueOk(p, s, 3, g) && WorkerOk(p, s, 2, Lo(g));
    assert GroupOf(p, Lo(g)) == g;
  }

  lemma FragEnqueueSafe(p: Params, s: State)
    requires ShutdownInv(p, s) && s.frag.send != []
    ensures !IsTerminated(s.queues[0][s.frag.qid])
  {
    assert QueueOk(p, s, 0, s.frag.qid);
  }

  lemma InitShutdown(p: Params)
    requires ValidParams(p)
    ensures ShutdownInv(p, Init(p))
  {
    var s := Init(p);
    assert NQueues(p) > 0;
    forall k, i | 0 <= k < 4 && 0 <= i < NQueues(p)
      ensures QueueOk(p, s, k, i)
    {
      GroupRange(p, i);
      if k > 0 {
        NoneDone(s.pools[k - 1], Lo(i), Hi(p, i));
      }
      assert s.queues[k] == InitQueues(p, k);
    }
  }

  lemma {:induction false} NoneDone(ws: seq<Worker>, lo: nat, hi: nat)
    requires lo <= hi <= |ws| && forall t :: 0 <= t < |ws| ==> ws[t].status != Done
    ensures DoneIn(ws, lo, hi) == 0
  {
    if lo < hi {
      NoneDone(ws, lo, hi - 1);
    }
  }

  /** What a step may do to the queues and workers without breaking the bookkeeping: queues keep
      their counts and a closed queue stays closed. */
  ghost predicate QueuesGrowSafely(p: Params, s: State, s': State)
    requires Shape(p, s) && Shape(p, s')
  {
    forall k, i {:trigger s'.queues[k][i]} :: 0 <= k < 4 && 0 <= i < NQueues(p) ==>
      && s'.queues[k][i].producers == s.queues[k][i].producers
      && |s'.queues[k][i].buf| <= QUEUE_SIZE
      && (IsClosed(s.queues[k][i]) ==> IsClosed(s'.queues[k][i]))
  }

  /** Steps that change neither the status of a worker nor a termination counter. */
  lemma QuietStep(p: Params, s: State, s': State)
    requires ShutdownInv(p, s) && Shape(p, s') && QueuesGrowSafely(p, s, s')
    requires forall k, i {:trigger s'.queues[k][i]} :: 0 <= k < 4 && 0 <= i < NQueues(p) ==>
               s'.queues[k][i].terminated == s.queues[k][i].terminated
    requires forall k, t {:trigger s'.pools[k][t]} :: 0 <= k < 3 && 0 <= t < p.nthreads ==>
               s'.pools[k][t].status == s.pools[k][t].status &&
               (s'.pools[k][t] == s.pools[k][t] || WorkerOk(p, s', k, t))
    requires s'.frag.closed == s.frag.closed && FragOk(s') && PollOk(p, s')
    ensures ShutdownInv(p, s')
  {
    forall k, i | 0 <= k < 4 && 0 <= i < NQueues(p)
      ensures QueueOk(p, s', k, i)
    {
      assert QueueOk(p, s, k, i);
      GroupRange(p, i);
      if k > 0 {
        SameDone(s.pools[k - 1], s'.pools[k - 1], Lo(i), Hi(p, i));
      }
    }
    forall k, t | 0 <= k < 3 && 0 <= t < p.nthreads
      ensures WorkerOk(p, s', k, t)
    {
      assert WorkerOk(p, s, k, t);
      assert s'.pools[k][t].status == s.pools[k][t].status;
    }
  }

  lemma {:induction false} SameDone(ws: seq<Worker>, ws': seq<Worker>, lo: nat, hi: nat)
    requires lo <= hi <= |ws| == |ws'|
    requires forall t :: 0 <= t < |ws| ==> ws'[t].status == ws[t].status
    ensures DoneIn(ws', lo, hi) == DoneIn(ws, lo, hi)
  {
    if lo < hi {
      SameDone(ws, ws', lo, hi - 1);
    }
  }

  /** Setting one queue and one worker leaves all others as they were. */
  lemma PollStays(p: Params, s: State, s': State)
    requires ShutdownInv(p, s) && Shape(p, s') && QueuesGrowSafely(p, s, s') && s'.re == s.re
    ensures PollOk(p, s')
  {
    forall j | 1 <= j <= s'.re.misses
      ensures IsClosed(s'.queues[3][Back(p, s'.re.qid, j)])
    {
      assert IsClosed(s.queues[3][Back(p, s.re.qid, j)]);
      assert s'.queues[3][Back(p, s.re.qid, j)].producers == s.queues[3][Back(p, s.re.qid, j)].producers;
    }
  }

  lemma BufBounds(p: Params, s: State)
    requires ShutdownInv(p, s)
    ensures forall k, i {:trigger s.queues[k][i]} :: 0 <= k < 4 && 0 <= i < NQueues(p) ==>
              |s.queues[k][i].buf| <= QUEUE_SIZE
  {
    forall k, i | 0 <= k < 4 && 0 <= i < NQueues(p)
      ensures |s.queues[k][i].buf| <= QUEUE_SIZE
    {
      assert QueueOk(p, s, k, i);
    }
  }

  /** A step of the first stage on its own data. */
  lemma FragLocalStep(p: Params, s: State, s': State)
    requires ShutdownInv(p, s) && FragOk(s')
    requires s'.queues == s.queues && s'.pools == s.pools && s'.re == s.re
    requires s'.frag.closed == s.frag.closed && s'.frag.qid == s.frag.qid
    ensures ShutdownInv(p, s')
  {
    BufBounds(p, s);
    PollStays(p, s, s');
    QuietStep(p, s, s');
  }

  lemma FragFlushStep(p: Params, s: State)
    requires ShutdownInv(p, s) && |s.frag.send| == 1 && !IsFull(s.queues[0][s.frag.qid])
    ensures ShutdownInv(p, DoFragFlush(p, s))
  {
    NextQueue(p, s.frag.qid);
    BufBounds(p, s);
    FragEnqueueSafe(p, s);
    PollStays(p, s, DoFragFlush(p, s));
    QuietStep(p, s, DoFragFlush(p, s));
  }

  lemma FetchStep(p: Params, s: State, k: nat, t: nat)
    requires ShutdownInv(p, s) && k < 3 && t < p.nthreads && CanFetch(p, s, k, t)
    ensures ShutdownInv(p, DoFetch(p, s, k, t))
  {
    var s' := DoFetch(p, s, k, t);
    BufBounds(p, s);
    assert WorkerOk(p, s, k, t);
    PollStays(p, s, s');
    QuietStep(p, s, s');
  }

  /** A step of one worker that keeps its status and replaces one queue. */
  lemma WorkerStep(p: Params, s: State, s': State, j: nat, i: nat, q: Queue, k: nat, t: nat, w: Worker)
    requires ShutdownInv(p, s) && Shape(p, s')
    requires j < 4 && i < NQueues(p) && k < 3 && t < p.nthreads
    requires s'.queues == s.queues[j := s.queues[j][i := q]]
    requires s'.pools == s.pools[k := s.pools[k][t := w]]
    requires s'.frag == s.frag && s'.re == s.re
    requires q.producers == s.queues[j][i].producers && q.terminated == s.queues[j][i].terminated
    requires |q.buf| <= QUEUE_SIZE && (IsClosed(s.queues[j][i]) ==> q.buf == [])
    requires w.status == s.pools[k][t].status != Done
    requires w.status == Draining ==> w.recv == [] && w.cur == []
    requires |w.cur| <= 1 && (k != 0 ==> w.cur == []) && (k != 1 ==> w.sendR == [])
    requires |w.send| <= SEND_LIMIT && |w.sendR| <= SEND_LIMIT
    ensures ShutdownInv(p, s')
  {
    BufBounds(p, s);
    PollStays(p, s, s');
    assert WorkerOk(p, s, k, t);
    QuietStep(p, s, s');
  }

  lemma FlushStep(p: Params, s: State, k: nat, t: nat)
    requires ShutdownInv(p, s) && k < 3 && t < p.nthreads && CanFlush(p, s, k, t)
    ensures ShutdownInv(p, DoFlush(p, s, k, t))
  {
    var s', g := DoFlush(p, s, k, t), GroupOf(p, t);
    assert WorkerOk(p, s, k, t);
    EnqueueSafe(p, s, k, t);
    WorkerStep(p, s, s', k + 1, g, s'.queues[k + 1][g], k, t, s'.pools[k][t]);
  }

  lemma FlushRStep(p: Params, s: State, t: nat)
    requires ShutdownInv(p, s) && t < p.nthreads && CanFlushR(p, s, t)
    ensures ShutdownInv(p, DoFlushR(p, s, t))
  {
    var s', g := DoFlushR(p, s, t), GroupOf(p, t);
    assert WorkerOk(p, s, 1, t);
    ReorderEnqueueSafe(p, s, t);
    WorkerStep(p, s, s', 3, g, s'.queues[3][g], 1, t, s'.pools[1][t]);
  }

  /** A step of one worker on its own data. */
  lemma LocalStep(p: Params, s: State, s': State, k: nat, t: nat, w: Worker)
    requires ShutdownInv(p, s) && k < 3 && t < p.nthreads
    requires s'.queues == s.queues && s'.pools == s.pools[k := s.pools[k][t := w]]
    requires s'.frag == s.frag && s'.re == s.re
    requires w.status == s.pools[k][t].status == Running
    requires |w.cur| <= 1 && (k != 0 ==> w.cur == []) && (k != 1 ==> w.sendR == [])
    requires |w.send| <= SEND_LIMIT && |w.sendR| <= SEND_LIMIT
    ensures ShutdownInv(p, s')
  {
    BufBounds(p, s);
    assert s.queues[0][0 := s.queues[0][0]] == s.queues[0];
    assert s.queues[0 := s.queues[0]] == s.queues;
    WorkerStep(p, s, s', 0, 0, s.queues[0][0], k, t, w);
  }

  lemma RefineSteps(p: Params, s: State, a: Step)
    requires ShutdownInv(p, s) && Enabled(p, s, a)
    requires a.RefineBegin? || a.RefineCut? || a.RefineEnd?
    ensures ShutdownInv(p, Apply(p, s, a))
  {
    assert WorkerOk(p, s, 0, a.t);
    LocalStep(p, s, Apply(p, s, a), 0, a.t, Apply(p, s, a).pools[0][a.t]);
  }

  lemma DedupCompressSteps(p: Params, s: State, a: Step)
    requires ShutdownInv(p, s) && Enabled(p, s, a) && (a.Dedup? || a.Compress?)
    ensures ShutdownInv(p, Apply(p, s, a))
  {
    var k := if a.Dedup? then 1 else 2;
    assert WorkerOk(p, s, k, a.t);
    LocalStep(p, s, Apply(p, s, a), k, a.t, Apply(p, s, a).pools[k][a.t]);
  }

  lemma NextQueue(p: Params, qid: nat)
    requires qid < NQueues(p)
    ensures (qid + 1) % NQueues(p) == if qid + 1 == NQueues(p) then 0 else qid + 1
  {
  }

  lemma PollStep(p: Params, s: State)
    requires ShutdownInv(p, s) && CanPoll(s) && s.queues[3][s.re.qid].buf != []
    ensures ShutdownInv(p, DoPoll(p, s))
  {
    NextQueue(p, s.re.qid);
    BufBounds(p, s);
    QuietStep(p, s, DoPoll(p, s));
  }

  lemma PollMissStep(p: Params, s: State)
    requires ShutdownInv(p, s) && CanPoll(s) && IsClosed(s.queues[3][s.re.qid]) && s.re.misses < NQueues(p)
    ensures ShutdownInv(p, DoPollMiss(p, s))
  {
    var s' := DoPollMiss(p, s);
    NextQueue(p, s.re.qid);
    BufBounds(p, s);
    forall j | 1 <= j <= s'.re.misses
      ensures IsClosed(s'.queues[3][Back(p, s'.re.qid, j)])
    {
      if j > 1 {
        assert Back(p, s'.re.qid, j) == Back(p, s.re.qid, j - 1);
      }
    }
    QuietStep(p, s, s');
  }

  /** A step of the reorder thread on its own data. */
  lemma ReorderLocalStep(p: Params, s: State, s': State)
    requires ShutdownInv(p, s) && PollOk(p, s) && s'.re.qid == s.re.qid && s'.re.misses == s.re.misses
    requires s'.queues == s.queues && s'.pools == s.pools && s'.frag == s.frag
    requires Shape(p, s') && PollOk(p, s')
    ensures ShutdownInv(p, s')
  {
    BufBounds(p, s);
    QuietStep(p, s, s');
  }

  lemma HangUpStep(p: Params, s: State, k: nat, t: nat)
    requires ShutdownInv(p, s) && k < 3 && t < p.nthreads && CanHangUp(p, s, k, t)
    ensures ShutdownInv(p, SetWorker(s, k, t, s.pools[k][t].(status := Draining)))
  {
    var s' := SetWorker(s, k, t, s.pools[k][t].(status := Draining));
    assert s'.queues == s.queues && s'.re == s.re && s'.frag == s.frag;
    forall j, i | 0 <= j < 4 && 0 <= i < NQueues(p)
      ensures QueueOk(p, s', j, i)
    {
      assert QueueOk(p, s, j, i);
      GroupRange(p, i);
      if j == k + 1 {
        DoneInUpdate(s.pools[k], Lo(i), Hi(p, i), t, s'.pools[k][t]);
      }
    }
    forall j, u | 0 <= j < 3 && 0 <= u < p.nthreads
      ensures WorkerOk(p, s', j, u)
    {
      assert WorkerOk(p, s, j, u);
    }
  }

  lemma FragTerminateStep(p: Params, s: State)
    requires ShutdownInv(p, s) && s.frag.phase == Closing && s.frag.send == [] && s.frag.closed < NQueues(p)
    ensures ShutdownInv(p, DoFragTerminate(p, s))
  {
    var s' := DoFragTerminate(p, s);
    forall j, i | 0 <= j < 4 && 0 <= i < NQueues(p)
      ensures QueueOk(p, s', j, i)
    {
      assert QueueOk(p, s, j, i);
    }
    assert QueueOk(p, s, 0, s.frag.closed);
    forall j, u | 0 <= j < 3 && 0 <= u < p.nthreads
      ensures WorkerOk(p, s', j, u)
    {
      assert WorkerOk(p, s, j, u);
    }
  }

  lemma TerminateQueues(p: Params, s: State, k: nat, t: nat)
    requires ShutdownInv(p, s) && k < 3 && t < p.nthreads && CanTerminate(p, s, k, t)
    ensures forall j, i {:trigger QueueOk(p, DoTerminate(p, s, k, t), j, i)} ::
              0 <= j < 4 && 0 <= i < NQueues(p) ==> QueueOk(p, DoTerminate(p, s, k, t), j, i)
  {
    var s' := DoTerminate(p, s, k, t);
    forall j, i | 0 <= j < 4 && 0 <= i < NQueues(p)
      ensures QueueOk(p, s', j, i)
    {
      assert QueueOk(p, s, j, i);
      GroupRange(p, i);
      if j == k + 1 {
        DoneInUpdate(s.pools[k], Lo(i), Hi(p, i), t, s'.pools[k][t]);
      }
    }
  }

  lemma TerminateStep(p: Params, s: State, k: nat, t: nat)
    requires ShutdownInv(p, s) && k < 3 && t < p.nthreads && CanTerminate(p, s, k, t)
    ensures ShutdownInv(p, DoTerminate(p, s, k, t))
  {
    var s' := DoTerminate(p, s, k, t);
    EnqueueSafe(p, s, k, t);
    TerminateQueues(p, s, k, t);
    assert QueuesGrowSafely(p, s, s') by {
      forall j, i | 0 <= j < 4 && 0 <= i < NQueues(p)
        ensures |s'.queues[j][i].buf| <= QUEUE_SIZE
      {
        assert QueueOk(p, s', j, i);
      }
    }
    PollStays(p, s, s');
    forall j, u | 0 <= j < 3 && 0 <= u < p.nthreads
      ensures WorkerOk(p, s', j, u)
    {
      assert WorkerOk(p, s, j, u);
    }
  }

  lemma FragPrivateSteps(p: Params, s: State, a: Step)
    requires ShutdownInv(p, s) && Enabled(p, s, a) && (a.FragRead? || a.FragCut? || a.FragKeep?)
    ensures ShutdownInv(p, Apply(p, s, a))
  {
    FragLocalStep(p, s, Apply(p, s, a));
  }

  lemma ReorderPrivateSteps(p: Params, s: State, a: Step)
    requires ShutdownInv(p, s) && Enabled(p, s, a) && (a.Arrive? || a.Write? || a.Finish?)
    ensures ShutdownInv(p, Apply(p, s, a))
  {
    var s' := Apply(p, s, a);
    assert PollOk(p, s);
    assert Shape(p, s') && PollOk(p, s');
    ReorderLocalStep(p, s, s');
  }

  /** Every step of every thread keeps the shutdown bookkeeping. */
  lemma StepShutdown(p: Params, s: State, a: Step)
    requires ShutdownInv(p, s) && Enabled(p, s, a)
    ensures ShutdownInv(p, Apply(p, s, a))
  {
    hide DoFragRead, DoFragCut, DoFragFlush, DoFragTerminate, DoFetch, DoFlush, DoFlushR, DoTerminate, DoRefineBegin;
    hide DoRefineCut, DoRefineEnd, DoDedup, DoCompress, DoPoll, DoPollMiss, DoArrive, DoWrite, QueueOk, WorkerOk;
    hide PollOk;
    match a
    case FragRead => FragPrivateSteps(p, s, a);
    case FragCut(_) => FragPrivateSteps(p, s, a);
    case FragKeep => FragPrivateSteps(p, s, a);
    case FragFlush => FragFlushStep(p, s);
    case FragTerminate => FragTerminateStep(p, s);
    case Fetch(k, t) => FetchStep(p, s, k, t);
    case HangUp(k, t) => HangUpStep(p, s, k, t);
    case Flush(k, t) => FlushStep(p, s, k, t);
    case FlushR(t) => FlushRStep(p, s, t);
    case Terminate(k, t) => TerminateStep(p, s, k, t);
    case RefineBegin(_) => RefineSteps(p, s, a);
    case RefineCut(_, _) => RefineSteps(p, s, a);
    case RefineEnd(_) => RefineSteps(p, s, a);
    case Dedup(_) => DedupCompressSteps(p, s, a);
    case Compress(_) => DedupCompressSteps(p, s, a);
    case Poll => PollStep(p, s);
    case PollMiss => PollMissStep(p, s);
    case Arrive => ReorderPrivateSteps(p, s, a);
    case Write => ReorderPrivateSteps(p, s, a);
    case Finish => ReorderPrivateSteps(p, s, a);
  }

  /** When the reorder thread has left its main loop every thread before it has terminated with
      empty buffers and every queue is closed. */
  lemma AllQuiet(p: Params, s: State)
    requires ShutdownInv(p, s) && s.re.phase != Main
    ensures forall k, i :: 0 <= k < 4 && 0 <= i < NQueues(p) ==> IsClosed(s.queues[k][i])
    ensures forall k, t :: 0 <= k < 3 && 0 <= t < p.nthreads ==> s.pools[k][t].status == Done
    ensures s.frag.phase == Closing && s.frag.send == []
  {
    forall i | 0 <= i < NQueues(p)
      ensures IsClosed(s.queues[3][i])
    {
      var j := if i < s.re.qid then s.re.qid - i else s.re.qid + NQueues(p) - i;
      assert Back(p, s.re.qid, j) == i;
    }
    PoolQuiet(p, s, 2);
    PoolQuiet(p, s, 1);
    PoolQuiet(p, s, 0);
    assert QueueOk(p, s, 0, 0);
  }

  /** A terminated queue means that the pool which feeds it is done and its own queue closed. */
  lemma PoolQuiet(p: Params, s: State, k: nat)
    requires ShutdownInv(p, s) && k < 3
    requires var qs := s.queues[k + 1]; forall i :: 0 <= i < |qs| ==> IsTerminated(qs[i])
    ensures forall t :: 0 <= t < p.nthreads ==> s.pools[k][t].status == Done
    ensures forall i :: 0 <= i < NQueues(p) ==> IsClosed(s.queues[k][i])
  {
    forall t | 0 <= t < p.nthreads
      ensures s.pools[k][t].status == Done
    {
      if s.pools[k][t].status != Done {
        EnqueueSafe(p, s, k, t);
      }
    }
    forall i | 0 <= i < NQueues(p)
      ensures IsClosed(s.queues[k][i])
    {
      GroupRange(p, i);
      assert WorkerOk(p, s, k, Lo(i));
      assert GroupOf(p, Lo(i)) == i;
    }
  }
}
