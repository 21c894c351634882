/** The threaded dedup encoder as a transition system: one step is one region that the program
    runs under a mutex or on data private to a thread. */
module Pipeline {
  import opened Chunks

  const MAX_THREADS_PER_QUEUE: nat := 4
  const QUEUE_SIZE: nat := 1024 * 1024
  const MAXBUF: nat := 128 * 1024 * 1024
  const ANCHOR_JUMP: nat := 2 * 1024 * 1024

  /** What is external to the encoder: the digest and a compressor with its inverse. */
  datatype Codec = Codec(sha: Bytes -> Bytes, comp: Bytes -> Bytes, decomp: Bytes -> Bytes)

  datatype Params = Params(input: Bytes, nthreads: nat, codec: Codec)

  ghost predicate ValidParams(p: Params) {
    p.nthreads > 0
  }

  function NQueues(p: Params): nat {
    p.nthreads / MAX_THREADS_PER_QUEUE + (if p.nthreads % MAX_THREADS_PER_QUEUE != 0 then 1 else 0)
  }

  /** How many threads of a pool serve queue q. */
  function ThreadsPerQueue(p: Params, q: nat): nat {
    if q + 1 < NQueues(p) || p.nthreads % MAX_THREADS_PER_QUEUE == 0 then MAX_THREADS_PER_QUEUE
    else p.nthreads % MAX_THREADS_PER_QUEUE
  }

  function Group(t: nat): nat { t / MAX_THREADS_PER_QUEUE }

  /** A bounded queue with the number of its producers and of those that have hung up. */
  datatype Queue = Queue(buf: seq<Chunk>, producers: nat, terminated: nat)

  predicate IsTerminated(q: Queue) { q.terminated == q.producers }

  predicate IsFull(q: Queue) { |q.buf| >= QUEUE_SIZE }

  /** Nothing is in the queue and nothing may be put in any more. */
  predicate IsClosed(q: Queue) { q.buf == [] && IsTerminated(q) }

  function Min(a: nat, b: nat): nat { if a < b then a else b }

  /** How many items one call of queue_enqueue moves out of a send buffer. */
  function EnqueueCount(q: Queue, send: seq<Chunk>, limit: nat): nat
    requires !IsFull(q)
  {
    Min(limit, Min(QUEUE_SIZE - |q.buf|, |send|))
  }

  datatype Status = Running | Draining | Done

  /** A worker thread of one of the three pools. `cur` is the piece a refiner is cutting up and
      `chcount` its counter; `sendR` is the second send buffer of a deduplication thread. */
  datatype Worker = Worker(status: Status, recv: seq<Chunk>, cur: seq<Chunk>, chcount: nat,
                           send: seq<Chunk>, sendR: seq<Chunk>)

  datatype FragPhase = Reading | Splitting | Closing

  /** The first stage: `cur` is the piece being split, or the left-over of the previous buffer. */
  datatype Fragmenter = Fragmenter(phase: FragPhase, anchor: nat, cur: seq<Chunk>, rest: Bytes,
                                   send: seq<Chunk>, qid: nat, closed: nat)

  datatype ChunkState = Uncompressed | Compressed(payload: Bytes) | Flushed

  /** The shared header of a chunk once the deduplication stage has seen it. */
  datatype Header = Original(sha: Bytes, state: ChunkState) | Duplicate(ref: SeqNum)

  datatype Record = Data(payload: Bytes) | Fingerprint(digest: Bytes)

  datatype ReorderPhase = Main | Flushing | Finished

  /** The last stage. `tree` is the search tree of heaps, `cpa` the array chunks_per_anchor,
      `misses` counts the queues of the current polling round that were found terminated. */
  datatype Reorderer = Reorderer(phase: ReorderPhase, qid: nat, misses: nat, recv: seq<Chunk>,
                                 next: SeqNum, cpa: map<nat, nat>, tree: map<nat, set<Chunk>>,
                                 writing: seq<Chunk>, written: seq<Chunk>, out: seq<Record>)

  /** queues[k] feeds pools[k] for k < 3 and queues[3] the reorder thread. `coarse` and `fine` are
      histories: the coarse pieces sent on so far and the chunks cut from each of them. */
  datatype State = State(frag: Fragmenter, queues: seq<seq<Queue>>, pools: seq<seq<Worker>>, re: Reorderer,
                         store: map<SeqNum, Header>, table: map<Bytes, SeqNum>,
                         coarse: seq<Bytes>, fine: seq<seq<Chunk>>)

  /** Items taken by one fetch and held by a send buffer: MAX_PER_FETCH, CHUNK_ANCHOR_PER_FETCH
      and ITEM_PER_FETCH; CHUNK_ANCHOR_PER_INSERT and ITEM_PER_INSERT. */
  function FetchLimit(k: nat): nat { if k == 0 then 10000 else 20 }

  const SEND_LIMIT: nat := 20

  function InitQueues(p: Params, k: nat): seq<Queue> {
    seq(NQueues(p), (q: nat) => Queue([], if k == 0 then 1 else ThreadsPerQueue(p, q), 0))
  }

  function Init(p: Params): State {
    var w := Worker(Running, [], [], 0, [], []);
    var pool := seq(p.nthreads, _ => w);
    State(Fragmenter(Reading, 0, [], p.input, [], 0, 0),
          [InitQueues(p, 0), InitQueues(p, 1), InitQueues(p, 2), InitQueues(p, 3)],
          [pool, pool, pool],
          Reorderer(Main, 0, 0, [], SeqNum(0, 0), map[], map[], [], [], []),
          map[], map[], [], [])
  }

  /** The shape that never changes: how many queues, threads and pools there are. */
  predicate Shape(p: Params, s: State) {
    && p.nthreads > 0
    && |s.queues| == 4 && |s.pools| == 3
    && (forall k :: 0 <= k < 4 ==> |s.queues[k]| == NQueues(p))
    && (forall k :: 0 <= k < 3 ==> |s.pools[k]| == p.nthreads)
    && s.frag.qid < NQueues(p) && s.re.qid < NQueues(p)
    && s.frag.closed <= NQueues(p) && s.re.misses <= NQueues(p)
  }

  lemma GroupInRange(p: Params, t: nat)
    requires t < p.nthreads
    ensures Group(t) < NQueues(p)
  {
  }

  datatype Step =
    | FragRead
    | FragCut(pos: nat)
    | FragKeep
    | FragFlush
    | FragTerminate
    | Fetch(k: nat, t: nat)
    | HangUp(k: nat, t: nat)
    | Flush(k: nat, t: nat)
    | FlushR(t: nat)
    | Terminate(k: nat, t: nat)
    | RefineBegin(t: nat)
    | RefineCut(t: nat, pos: nat)
    | RefineEnd(t: nat)
    | Dedup(t: nat)
    | Compress(t: nat)
    | Poll
    | PollMiss
    | Arrive
    | Write
    | Finish

  function SetWorker(s: State, k: nat, t: nat, w: Worker): State
    requires k < |s.pools| && t < |s.pools[k]|
  {
    s.(pools := s.pools[k := s.pools[k][t := w]])
  }

  function SetQueue(s: State, k: nat, i: nat, q: Queue): State
    requires k < |s.queues| && i < |s.queues[k]|
  {
    s.(queues := s.queues[k := s.queues[k][i := q]])
  }

  /** The sequence number that follows a write: on to the next coarse piece once the known number
      of chunks of this one has been written. */
  function Advance(next: SeqNum, cpa: map<nat, nat>): SeqNum {
    var n := IncL2(next);
    if n.l1 in cpa && cpa[n.l1] == n.l2 then IncL1(n) else n
  }

  /** The smallest level-1 number in the search tree. */
  ghost predicate IsTreeMin(tree: map<nat, set<Chunk>>, l1: nat) {
    l1 in tree && forall k :: k in tree ==> l1 <= k
  }

  /** The element a heap gives first. */
  ghost predicate IsHeapMin(heap: set<Chunk>, c: Chunk) {
    c in heap && forall d :: d in heap ==> c.l2 <= d.l2
  }

  /** The cached chunk the writing loop takes next: the minimum of the heap at the minimum of the
      tree, provided it carries the expected number. */
  ghost predicate TakesNext(tree: map<nat, set<Chunk>>, next: SeqNum, c: Chunk) {
    IsTreeMin(tree, next.l1) && IsHeapMin(tree[next.l1], c) && c.Id() == next
  }

  function TreeAdd(tree: map<nat, set<Chunk>>, c: Chunk): map<nat, set<Chunk>> {
    tree[c.l1 := (if c.l1 in tree then tree[c.l1] else {}) + {c}]
  }

  function TreeTake(tree: map<nat, set<Chunk>>, c: Chunk): map<nat, set<Chunk>>
    requires c.l1 in tree
  {
    if tree[c.l1] == {c} then tree - {c.l1} else tree[c.l1 := tree[c.l1] - {c}]
  }

  /** The chunk whose header decides what is written for c: its original. */
  function OrigOf(store: map<SeqNum, Header>, id: SeqNum): SeqNum
    requires id in store
  {
    match store[id]
    case Original(_, _) => id
    case Duplicate(ref) => ref
  }

  function GroupOf(p: Params, t: nat): (q: nat)
    requires t < p.nthreads
    ensures q == Group(t) < NQueues(p)
  {
    GroupInRange(p, t); Group(t)
  }

  /** A worker between two items, with room in both send buffers. */
  predicate Ready(w: Worker) {
    w.status == Running && w.cur == [] && |w.send| < SEND_LIMIT && |w.sendR| < SEND_LIMIT
  }

  /** A refiner inside its split loop, with room in its send buffer. */
  predicate Cutting(w: Worker) {
    w.status == Running && |w.cur| == 1 && |w.send| < SEND_LIMIT
  }

  predicate Enabled(p: Params, s: State, a: Step)
    requires Shape(p, s)
  {
    match a
    case FragRead => CanFragRead(s)
    case FragCut(pos) => CanFragCut(s, pos)
    case FragKeep => s.frag.phase == Splitting && |s.frag.cur| == 1 && s.frag.send == []
    case FragFlush => |s.frag.send| == 1 && !IsFull(s.queues[0][s.frag.qid])
    case FragTerminate => s.frag.phase == Closing && s.frag.send == [] && s.frag.closed < NQueues(p)
    case Fetch(k, t) => k < 3 && t < p.nthreads && CanFetch(p, s, k, t)
    case HangUp(k, t) => k < 3 && t < p.nthreads && CanHangUp(p, s, k, t)
    case Flush(k, t) => k < 3 && t < p.nthreads && CanFlush(p, s, k, t)
    case FlushR(t) => t < p.nthreads && CanFlushR(p, s, t)
    case Terminate(k, t) => k < 3 && t < p.nthreads && CanTerminate(p, s, k, t)
    case RefineBegin(t) => t < p.nthreads && CanWork(p, s, 0, t)
    case RefineCut(t, pos) => t < p.nthreads && CanRefine(p, s, t) && 0 < pos < |s.pools[0][t].cur[0].data|
    case RefineEnd(t) => t < p.nthreads && CanRefine(p, s, t)
    case Dedup(t) => t < p.nthreads && CanWork(p, s, 1, t)
    case Compress(t) => t < p.nthreads && CanWork(p, s, 2, t)
    case Poll => CanPoll(s) && s.queues[3][s.re.qid].buf != []
    case PollMiss => CanPoll(s) && IsClosed(s.queues[3][s.re.qid]) && s.re.misses < NQueues(p)
    case Arrive => s.re.phase == Main && s.re.writing == [] && s.re.recv != []
    case Write => CanWrite(s)
    case Finish => s.re.phase == Flushing && s.re.tree == map[]
  }

  ghost function Apply(p: Params, s: State, a: Step): State
    requires Shape(p, s) && Enabled(p, s, a)
  {
    match a
    case FragRead => DoFragRead(s)
    case FragCut(pos) => DoFragCut(s, pos)
    case FragKeep => s.(frag := s.frag.(phase := Reading))
    case FragFlush => DoFragFlush(p, s)
    case FragTerminate => DoFragTerminate(p, s)
    case Fetch(k, t) => DoFetch(p, s, k, t)
    case HangUp(k, t) => SetWorker(s, k, t, s.pools[k][t].(status := Draining))
    case Flush(k, t) => DoFlush(p, s, k, t)
    case FlushR(t) => DoFlushR(p, s, t)
    case Terminate(k, t) => DoTerminate(p, s, k, t)
    case RefineBegin(t) => DoRefineBegin(p, s, t)
    case RefineCut(t, pos) => DoRefineCut(p, s, t, pos)
    case RefineEnd(t) => DoRefineEnd(p, s, t)
    case Dedup(t) => DoDedup(p, s, t)
    case Compress(t) => DoCompress(p, s, t)
    case Poll => DoPoll(p, s)
    case PollMiss => DoPollMiss(p, s)
    case Arrive => s.(re := DoArrive(s.re))
    case Write => DoWrite(s)
    case Finish => s.(re := s.re.(phase := Finished))
  }

  predicate CanFragRead(s: State) {
    s.frag.phase == Reading && |s.frag.cur| <= 1 && s.frag.send == []
  }

  predicate CanFragCut(s: State, pos: nat) {
    s.frag.phase == Splitting && |s.frag.cur| == 1 && s.frag.send == [] &&
    ANCHOR_JUMP < pos < |s.frag.cur[0].data|
  }

  function DoFragFlush(p: Params, s: State): State
    requires Shape(p, s)
  {
    var q := s.queues[0][s.frag.qid];
    SetQueue(s, 0, s.frag.qid, q.(buf := q.buf + s.frag.send))
      .(frag := s.frag.(send := [], qid := (s.frag.qid + 1) % NQueues(p)))
  }

  function DoFragTerminate(p: Params, s: State): State
    requires Shape(p, s) && s.frag.closed < NQueues(p)
  {
    var q := s.queues[0][s.frag.closed];
    SetQueue(s, 0, s.frag.closed, q.(terminated := q.terminated + 1))
      .(frag := s.frag.(closed := s.frag.closed + 1))
  }

  predicate CanFetch(p: Params, s: State, k: nat, t: nat)
    requires Shape(p, s) && k < 3 && t < p.nthreads
  {
    Ready(s.pools[k][t]) && s.pools[k][t].recv == [] && s.queues[k][GroupOf(p, t)].buf != []
  }

  function DoFetch(p: Params, s: State, k: nat, t: nat): State
    requires Shape(p, s) && k < 3 && t < p.nthreads
  {
    var q := s.queues[k][GroupOf(p, t)];
    var n := Min(FetchLimit(k), |q.buf|);
    SetWorker(SetQueue(s, k, GroupOf(p, t), q.(buf := q.buf[n..])), k, t, s.pools[k][t].(recv := q.buf[..n]))
  }

  predicate CanHangUp(p: Params, s: State, k: nat, t: nat)
    requires Shape(p, s) && k < 3 && t < p.nthreads
  {
    Ready(s.pools[k][t]) && s.pools[k][t].recv == [] && IsClosed(s.queues[k][GroupOf(p, t)])
  }

  /** A full send buffer is passed on at once, any other only when the thread shuts down. */
  predicate CanFlush(p: Params, s: State, k: nat, t: nat)
    requires Shape(p, s) && k < 3 && t < p.nthreads
  {
    var w := s.pools[k][t];
    && w.send != [] && (|w.send| == SEND_LIMIT || w.status == Draining)
    && !IsFull(s.queues[k + 1][GroupOf(p, t)])
  }

  function DoFlush(p: Params, s: State, k: nat, t: nat): State
    requires Shape(p, s) && k < 3 && t < p.nthreads && CanFlush(p, s, k, t)
  {
    var w, q := s.pools[k][t], s.queues[k + 1][GroupOf(p, t)];
    var n := EnqueueCount(q, w.send, SEND_LIMIT);
    SetWorker(SetQueue(s, k + 1, GroupOf(p, t), q.(buf := q.buf + w.send[..n])), k, t, w.(send := w.send[n..]))
  }

  predicate CanFlushR(p: Params, s: State, t: nat)
    requires Shape(p, s) && t < p.nthreads
  {
    var w := s.pools[1][t];
    && w.sendR != [] && (|w.sendR| == SEND_LIMIT || (w.status == Draining && w.send == []))
    && !IsFull(s.queues[3][GroupOf(p, t)])
  }

  function DoFlushR(p: Params, s: State, t: nat): State
    requires Shape(p, s) && t < p.nthreads && CanFlushR(p, s, t)
  {
    var w, q := s.pools[1][t], s.queues[3][GroupOf(p, t)];
    var n := EnqueueCount(q, w.sendR, SEND_LIMIT);
    SetWorker(SetQueue(s, 3, GroupOf(p, t), q.(buf := q.buf + w.sendR[..n])), 1, t, w.(sendR := w.sendR[n..]))
  }

  predicate CanTerminate(p: Params, s: State, k: nat, t: nat)
    requires Shape(p, s) && k < 3 && t < p.nthreads
  {
    s.pools[k][t].status == Draining && s.pools[k][t].send == [] && s.pools[k][t].sendR == []
  }

  function DoTerminate(p: Params, s: State, k: nat, t: nat): State
    requires Shape(p, s) && k < 3 && t < p.nthreads
  {
    var q := s.queues[k + 1][GroupOf(p, t)];
    SetWorker(SetQueue(s, k + 1, GroupOf(p, t), q.(terminated := q.terminated + 1)), k, t,
              s.pools[k][t].(status := Done))
  }

  predicate CanWork(p: Params, s: State, k: nat, t: nat)
    requires Shape(p, s) && k < 3 && t < p.nthreads
  {
    Ready(s.pools[k][t]) && s.pools[k][t].recv != []
  }

  function DoRefineBegin(p: Params, s: State, t: nat): State
    requires Shape(p, s) && t < p.nthreads && CanWork(p, s, 0, t)
  {
    var w := s.pools[0][t];
    SetWorker(s, 0, t, w.(recv := w.recv[1..], cur := [w.recv[0]], chcount := 0))
  }

  predicate CanRefine(p: Params, s: State, t: nat)
    requires Shape(p, s) && t < p.nthreads
  {
    Cutting(s.pools[0][t]) && s.pools[0][t].cur[0].l1 < |s.fine|
  }

  /** rabinseg found a cut inside the piece. */
  function DoRefineCut(p: Params, s: State, t: nat, pos: nat): State
    requires Shape(p, s) && t < p.nthreads && CanRefine(p, s, t) && pos < |s.pools[0][t].cur[0].data|
  {
    var w := s.pools[0][t];
    var c := w.cur[0];
    EmitFine(s, t, Chunk(c.l1, w.chcount, false, c.data[..pos]), [c.(data := c.data[pos..])])
  }

  /** rabinseg ran to the end of the piece. */
  function DoRefineEnd(p: Params, s: State, t: nat): State
    requires Shape(p, s) && t < p.nthreads && CanRefine(p, s, t)
  {
    var w := s.pools[0][t];
    var c := w.cur[0];
    EmitFine(s, t, Chunk(c.l1, w.chcount, true, c.data), [])
  }

  function DoCompress(p: Params, s: State, t: nat): State
    requires Shape(p, s) && t < p.nthreads && CanWork(p, s, 2, t)
  {
    var w := s.pools[2][t];
    var c := w.recv[0];
    SetWorker(s, 2, t, w.(recv := w.recv[1..], send := w.send + [c]))
      .(store := s.store[c.Id() := Original(p.codec.sha(c.data), Compressed(p.codec.comp(c.data)))])
  }

  predicate CanPoll(s: State) {
    s.re.phase == Main && s.re.writing == [] && s.re.recv == []
  }

  function DoPoll(p: Params, s: State): State
    requires Shape(p, s)
  {
    var q := s.queues[3][s.re.qid];
    var n := Min(SEND_LIMIT, |q.buf|);
    SetQueue(s, 3, s.re.qid, q.(buf := q.buf[n..]))
      .(re := s.re.(recv := q.buf[..n], misses := 0, qid := (s.re.qid + 1) % NQueues(p)))
  }

  /** A terminated queue is skipped; the main loop ends when a whole round finds nothing else. */
  function DoPollMiss(p: Params, s: State): State
    requires Shape(p, s)
  {
    s.(re := s.re.(misses := s.re.misses + 1, qid := (s.re.qid + 1) % NQueues(p),
                   phase := if s.re.misses + 1 == NQueues(p) then Flushing else Main))
  }

  /** Writing waits until the original has been compressed. */
  predicate CanWrite(s: State) {
    |s.re.writing| == 1 && s.re.writing[0].Id() in s.store &&
    var o := OrigOf(s.store, s.re.writing[0].Id());
    o in s.store && s.store[o].Original? && s.store[o].state != Uncompressed
  }

  /** Fill a new buffer from the left-over and up to MAXBUF fresh bytes. Without any byte the stage
      is over; without a fresh byte the left-over is the last coarse piece. */
  function DoFragRead(s: State): State
    requires CanFragRead(s)
  {
    var f := s.frag;
    var left := if f.cur == [] then [] else f.cur[0].data;
    var n := Min(MAXBUF, |f.rest|);
    var l1 := if left == [] then f.anchor else f.cur[0].l1;
    var anchor := if left == [] then f.anchor + 1 else f.anchor;
    var c := Chunk(l1, 0, false, left + f.rest[..n]);
    if c.data == [] then s.(frag := f.(phase := Closing, cur := [], anchor := anchor))
    else if n == 0 then
      s.(frag := f.(phase := Closing, cur := [], anchor := anchor, send := [c]),
         coarse := s.coarse + [c.data], fine := s.fine + [[]])
    else s.(frag := f.(phase := Splitting, cur := [c], anchor := anchor, rest := f.rest[n..]))
  }

  function DoFragCut(s: State, pos: nat): State
    requires CanFragCut(s, pos)
  {
    var f := s.frag;
    var c := f.cur[0];
    s.(frag := f.(cur := [Chunk(f.anchor, 0, false, c.data[pos..])], anchor := f.anchor + 1,
                  send := [c.(data := c.data[..pos])]),
       coarse := s.coarse + [c.data[..pos]], fine := s.fine + [[]])
  }

  /** A refiner puts one finished chunk into its send buffer and goes on with `cur`. */
  function EmitFine(s: State, t: nat, c: Chunk, cur: seq<Chunk>): State
    requires |s.pools| == 3 && t < |s.pools[0]| && c.l1 < |s.fine|
  {
    var w := s.pools[0][t];
    SetWorker(s, 0, t, w.(cur := cur, chcount := w.chcount + 1, send := w.send + [c]))
      .(fine := s.fine[c.l1 := s.fine[c.l1] + [c]])
  }

  /** One chunk through sub_Deduplicate, which holds the bucket lock of its digest. */
  function DoDedup(p: Params, s: State, t: nat): State
    requires Shape(p, s) && t < p.nthreads && CanWork(p, s, 1, t)
  {
    var w := s.pools[1][t];
    var c := w.recv[0];
    var d := p.codec.sha(c.data);
    if d in s.table then
      SetWorker(s, 1, t, w.(recv := w.recv[1..], sendR := w.sendR + [c]))
        .(store := s.store[c.Id() := Duplicate(s.table[d])])
    else
      SetWorker(s, 1, t, w.(recv := w.recv[1..], send := w.send + [c]))
        .(store := s.store[c.Id() := Original(d, Uncompressed)], table := s.table[d := c.Id()])
  }

  /** A chunk reaches the reorder thread: it is the next one or goes into the cache. */
  function DoArrive(r: Reorderer): Reorderer
    requires r.recv != []
  {
    var c := r.recv[0];
    var r1 := r.(recv := r.recv[1..], cpa := if c.last then r.cpa[c.l1 := c.l2 + 1] else r.cpa);
    if c.Id() != r.next then r1.(tree := TreeAdd(r.tree, c)) else r1.(writing := [c])
  }

  /** Write the chunk at hand: the data of its original if no one has yet, else the fingerprint;
      then look in the cache for the chunk that follows. */
  ghost function DoWrite(s: State): State
    requires CanWrite(s)
  {
    var c := s.re.writing[0];
    var o := OrigOf(s.store, c.Id());
    var st := s.store[o].state;
    var rec := if st.Compressed? then Data(st.payload) else Fingerprint(s.store[o].sha);
    var next := Advance(s.re.next, s.re.cpa);
    var r := s.re.(written := s.re.written + [c], out := s.re.out + [rec], next := next);
    var r' := if exists d :: TakesNext(r.tree, next, d)
              then var d :| TakesNext(r.tree, next, d); r.(writing := [d], tree := TreeTake(r.tree, d))
              else r.(writing := []);
    s.(re := r', store := if st.Compressed? then s.store[o := Original(s.store[o].sha, Flushed)] else s.store)
  }
}
