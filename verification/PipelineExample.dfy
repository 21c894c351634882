/** The encoder can finish: with one thread in each pool and an input that fits the buffer and has no cut, some
    run does. */
module PipelineExample {
  import opened Chunks
  import opened CutSearch
  import opened Pipeline
  import opened PipelineTheorems
  import opened PipelineSearch
  import opened PipelineDetermined
  import opened RabinSearch
  import opened Decoder

  /** No step cuts; where it could be, the whole input is at hand. */
  predicate KeepsWhole(p: Params, s: State, a: Step) {
    match a
    case FragCut(_) => false
    case FragKeep => |s.frag.cur| == 1 && s.frag.cur[0].data == p.input
    case RefineCut(_, _) => false
    case RefineEnd(t) => Refining(s, t) && s.pools[0][t].cur[0].data == p.input
    case _ => true
  }

  ghost predicate Leads(p: Params, states: seq<State>, steps: seq<Step>, s: State) {
    && Run(p, states, steps) && states[|states| - 1] == s
    && forall i :: 0 <= i < |steps| ==> KeepsWhole(p, states[i], steps[i])
  }

  /** Some run without a cut leads to the state. */
  ghost predicate Reachable(p: Params, s: State) {
    exists states: seq<State>, steps: seq<Step> :: Leads(p, states, steps, s)
  }

  lemma ReachInit(p: Params)
    ensures Reachable(p, Init(p))
  {
    hide Init;
    var states: seq<State>, steps: seq<Step> := [Init(p)], [];
    assert Leads(p, states, steps, Init(p));
  }

  lemma ReachStep(p: Params, s: State, a: Step, s': State)
    requires Reachable(p, s) && Goes(p, s, a, s') && KeepsWhole(p, s, a)
    ensures Reachable(p, s')
  {
    hide Goes, Init, KeepsWhole;
    var states: seq<State>, steps: seq<Step> :| Leads(p, states, steps, s);
    var more, next := states + [s'], steps + [a];
    forall i | 0 <= i < |next|
      ensures Goes(p, more[i], next[i], more[i + 1]) && KeepsWhole(p, more[i], next[i])
    {
      assert i < |steps| ==> Goes(p, states[i], steps[i], states[i + 1]) && KeepsWhole(p, states[i], steps[i]);
    }
    assert Leads(p, more, next, s');
  }

  predicate Small(p: Params) { p.nthreads == 1 && 0 < |p.input| <= MAXBUF }

  /** A state with one queue before each stage and one thread in each pool. */
  function Single(f: Fragmenter, q: seq<Queue>, w: seq<Worker>, r: Reorderer, store: map<SeqNum, Header>,
                  table: map<Bytes, SeqNum>, coarse: seq<Bytes>, fine: seq<seq<Chunk>>): State
    requires |q| == 4 && |w| == 3
  {
    State(f, [[q[0]], [q[1]], [q[2]], [q[3]]], [[w[0]], [w[1]], [w[2]]], r, store, table, coarse, fine)
  }

  lemma Counts(p: Params)
    requires Small(p)
    ensures NQueues(p) == 1 && ThreadsPerQueue(p, 0) == 1 && Group(0) == 0
  {
  }

  const IDLE := Worker(Running, [], [], 0, [], [])
  const CLOSED := Queue([], 1, 1)
  const OPEN := Queue([], 1, 0)

  function Coarse(p: Params): Chunk { Chunk(0, 0, false, p.input) }

  function Fine(p: Params): Chunk { Chunk(0, 0, true, p.input) }

  const START_RE := Reorderer(Main, 0, 0, [], SeqNum(0, 0), map[], map[], [], [], [])

  /** Two states are the same if their parts are. */
  lemma Same(s: State, t: State)
    requires s.frag == t.frag && s.re == t.re && s.store == t.store && s.table == t.table && s.coarse == t.coarse
    requires s.fine == t.fine
    requires |s.queues| == |t.queues| == 4 && |s.pools| == |t.pools| == 3
    requires forall k :: 0 <= k < 4 ==> |s.queues[k]| == |t.queues[k]| == 1 && s.queues[k][0] == t.queues[k][0]
    requires forall k :: 0 <= k < 3 ==> |s.pools[k]| == |t.pools[k]| == 1 && s.pools[k][0] == t.pools[k][0]
    ensures s == t
  {
    assert forall k :: 0 <= k < 4 ==> s.queues[k] == t.queues[k];
    assert forall k :: 0 <= k < 3 ==> s.pools[k] == t.pools[k];
  }

  /** The input has been read and sent on as one piece. */
  function AfterFragment(p: Params): State {
    Single(Fragmenter(Closing, 1, [], [], [], 0, 1), [Queue([Coarse(p)], 1, 1), OPEN, OPEN, OPEN], [IDLE, IDLE, IDLE],
           START_RE, map[], map[], [p.input], [[]])
  }

  const EMPTY: seq<Queue> := [OPEN, OPEN, OPEN, OPEN]
  const WAITING: seq<Worker> := [IDLE, IDLE, IDLE]

  lemma FragmentRuns(p: Params)
    requires Small(p)
    ensures Reachable(p, AfterFragment(p))
  {
    hide Reachable, Goes;
    Counts(p);
    ReachInit(p);
    var c := Coarse(p);
    var s0 := Single(Fragmenter(Reading, 0, [], p.input, [], 0, 0), EMPTY, WAITING, START_RE, map[], map[], [], []);
    Same(s0, Init(p));
    var s1 := Single(Fragmenter(Splitting, 1, [c], [], [], 0, 0), EMPTY, WAITING, START_RE, map[], map[], [], []);
    FirstRead(p, s0, s1);
    ReachStep(p, s0, FragRead, s1);
    var s2 := s1.(frag := Fragmenter(Reading, 1, [c], [], [], 0, 0));
    Kept(p, s1, s2);
    ReachStep(p, s1, FragKeep, s2);
    var s3 := Single(Fragmenter(Closing, 1, [], [], [c], 0, 0), EMPTY, WAITING, START_RE, map[], map[], [p.input],
        [[]]);
    LastRead(p, s2, s3);
    ReachStep(p, s2, FragRead, s3);
    var s4 := Single(Fragmenter(Closing, 1, [], [], [], 0, 0), [Queue([c], 1, 0), OPEN, OPEN, OPEN], WAITING, START_RE,
        map[], map[], [p.input], [[]]);
    Sent(p, s3, s4);
    ReachStep(p, s3, FragFlush, s4);
    HungUp(p, s4, AfterFragment(p));
    ReachStep(p, s4, FragTerminate, AfterFragment(p));
  }

  lemma FirstRead(p: Params, s: State, t: State)
    requires Small(p)
    requires s == Single(Fragmenter(Reading, 0, [], p.input, [], 0, 0), EMPTY, WAITING, START_RE, map[], map[], [], [])
    requires t == s.(frag := Fragmenter(Splitting, 1, [Coarse(p)], [], [], 0, 0))
    ensures Goes(p, s, FragRead, t)
  {
    Counts(p);
    assert [] + p.input[..|p.input|] == p.input && p.input[|p.input|..] == [];
  }

  lemma Kept(p: Params, s: State, t: State)
    requires Small(p)
    requires s == Single(Fragmenter(Splitting, 1, [Coarse(p)], [], [], 0, 0), EMPTY, WAITING, START_RE, map[], map[],
             [], [])
    requires t == s.(frag := Fragmenter(Reading, 1, [Coarse(p)], [], [], 0, 0))
    ensures Goes(p, s, FragKeep, t)
  {
    Counts(p);
  }

  lemma LastRead(p: Params, s: State, t: State)
    requires Small(p)
    requires s == Single(Fragmenter(Reading, 1, [Coarse(p)], [], [], 0, 0), EMPTY, WAITING, START_RE, map[], map[], [],
             [])
    requires t == s.(frag := Fragmenter(Closing, 1, [], [], [Coarse(p)], 0, 0), coarse := [p.input], fine := [[]])
    ensures Goes(p, s, FragRead, t)
  {
    Counts(p);
    assert p.input + [] == p.input;
  }

  lemma Sent(p: Params, s: State, t: State)
    requires Small(p)
    requires s == Single(Fragmenter(Closing, 1, [], [], [Coarse(p)], 0, 0), EMPTY, WAITING, START_RE, map[], map[],
             [p.input], [[]])
    requires t == Single(Fragmenter(Closing, 1, [], [], [], 0, 0), [Queue([Coarse(p)], 1, 0), OPEN, OPEN, OPEN],
             WAITING, START_RE, map[], map[], [p.input], [[]])
    ensures Goes(p, s, FragFlush, t)
  {
    Counts(p);
    assert [] + [Coarse(p)] == [Coarse(p)];
    Same(Apply(p, s, FragFlush), t);
  }

  lemma HungUp(p: Params, s: State, t: State)
    requires Small(p)
    requires s == Single(Fragmenter(Closing, 1, [], [], [], 0, 0), [Queue([Coarse(p)], 1, 0), OPEN, OPEN, OPEN],
             WAITING, START_RE, map[], map[], [p.input], [[]])
    requires t == AfterFragment(p)
    ensures Goes(p, s, FragTerminate, t)
  {
    Counts(p);
    Same(Apply(p, s, FragTerminate), t);
  }

  /** One queue before each stage and one thread in each pool. */
  predicate OneEach(p: Params, s: State) {
    && Small(p) && |s.queues| == 4 && |s.pools| == 3
    && (forall k :: 0 <= k < 4 ==> |s.queues[k]| == 1) && (forall k :: 0 <= k < 3 ==> |s.pools[k]| == 1)
    && s.frag.qid == 0 && s.re.qid == 0 && s.frag.closed <= 1 && s.re.misses == 0
  }

  function With(s: State, k: nat, w: Worker): State
    requires k < |s.pools|
  {
    s.(pools := s.pools[k := [w]])
  }

  function Queued(s: State, k: nat, q: Queue): State
    requires k < |s.queues|
  {
    s.(queues := s.queues[k := [q]])
  }

  lemma Shaped(p: Params, s: State)
    requires OneEach(p, s)
    ensures Shape(p, s)
  {
    Counts(p);
  }

  /** The thread of stage k takes the chunk from its queue. */
  lemma Fetches(p: Params, s: State, k: nat, c: Chunk)
    requires OneEach(p, s) && k < 3 && Reachable(p, s) && s.queues[k][0] == Queue([c], 1, 1) && s.pools[k][0] == IDLE
    ensures Reachable(p, With(Queued(s, k, CLOSED), k, IDLE.(recv := [c])))
  {
    hide Reachable;
    Shaped(p, s);
    Counts(p);
    var t := With(Queued(s, k, CLOSED), k, IDLE.(recv := [c]));
    assert [c][..1] == [c] && [c][1..] == [];
    assert Enabled(p, s, Fetch(k, 0));
    Same(Apply(p, s, Fetch(k, 0)), t);
    ReachStep(p, s, Fetch(k, 0), t);
  }

  /** It finds the queue closed, passes the chunk on and hangs up. */
  lemma Leaves(p: Params, s: State, k: nat, w: Worker, x: Chunk)
    requires OneEach(p, s) && k < 3 && Reachable(p, s) && s.queues[k][0] == CLOSED && s.queues[k + 1][0] == OPEN
    requires s.pools[k][0] == w && w == Worker(Running, [], [], w.chcount, [x], [])
    ensures Reachable(p, With(Queued(s, k + 1, Queue([x], 1, 1)), k, w.(status := Done, send := [])))
  {
    hide Reachable, Goes;
    Counts(p);
    var a := With(s, k, w.(status := Draining));
    LeavesA(p, s, k, w, x);
    ReachStep(p, s, HangUp(k, 0), a);
    var b := With(Queued(s, k + 1, Queue([x], 1, 0)), k, w.(status := Draining, send := []));
    LeavesB(p, a, k, w.(status := Draining), x);
    assert With(Queued(a, k + 1, Queue([x], 1, 0)), k, w.(status := Draining, send := [])) == b;
    ReachStep(p, a, Flush(k, 0), b);
    var c := With(Queued(s, k + 1, Queue([x], 1, 1)), k, w.(status := Done, send := []));
    LeavesC(p, b, k, w.(status := Draining, send := []), x);
    assert With(Queued(b, k + 1, Queue([x], 1, 1)), k, w.(status := Done, send := [])) == c;
    ReachStep(p, b, Terminate(k, 0), c);
  }

  lemma LeavesA(p: Params, s: State, k: nat, w: Worker, x: Chunk)
    requires OneEach(p, s) && k < 3 && s.queues[k][0] == CLOSED
    requires s.pools[k][0] == w && w == Worker(Running, [], [], w.chcount, [x], [])
    ensures Goes(p, s, HangUp(k, 0), With(s, k, w.(status := Draining)))
  {
    Shaped(p, s);
    Counts(p);
    assert Enabled(p, s, HangUp(k, 0));
    Same(Apply(p, s, HangUp(k, 0)), With(s, k, w.(status := Draining)));
  }

  lemma LeavesB(p: Params, s: State, k: nat, w: Worker, x: Chunk)
    requires OneEach(p, s) && k < 3 && s.queues[k + 1][0] == OPEN
    requires s.pools[k][0] == w && w == Worker(Draining, [], [], w.chcount, [x], [])
    ensures Goes(p, s, Flush(k, 0), With(Queued(s, k + 1, Queue([x], 1, 0)), k, w.(send := [])))
  {
    Shaped(p, s);
    Counts(p);
    assert [x][..1] == [x] && [x][1..] == [] && [] + [x] == [x];
    assert Enabled(p, s, Flush(k, 0));
    Same(Apply(p, s, Flush(k, 0)), With(Queued(s, k + 1, Queue([x], 1, 0)), k, w.(send := [])));
  }

  lemma LeavesC(p: Params, s: State, k: nat, w: Worker, x: Chunk)
    requires OneEach(p, s) && k < 3 && s.queues[k + 1][0] == Queue([x], 1, 0)
    requires s.pools[k][0] == w && w == Worker(Draining, [], [], w.chcount, [], [])
    ensures Goes(p, s, Terminate(k, 0), With(Queued(s, k + 1, Queue([x], 1, 1)), k, w.(status := Done)))
  {
    Shaped(p, s);
    Counts(p);
    assert Enabled(p, s, Terminate(k, 0));
    Same(Apply(p, s, Terminate(k, 0)), With(Queued(s, k + 1, Queue([x], 1, 1)), k, w.(status := Done)));
  }

  /** The piece becomes one chunk. */
  lemma Refines(p: Params, s: State)
    requires OneEach(p, s) && Reachable(p, s) && s.pools[0][0] == IDLE.(recv := [Coarse(p)]) && s.fine == [[]]
    ensures Reachable(p, With(s, 0, IDLE.(send := [Fine(p)], chcount := 1)).(fine := [[Fine(p)]]))
  {
    hide Reachable;
    Shaped(p, s);
    Counts(p);
    var a := With(s, 0, IDLE.(cur := [Coarse(p)]));
    assert [Coarse(p)][1..] == [];
    Same(Apply(p, s, RefineBegin(0)), a);
    ReachStep(p, s, RefineBegin(0), a);
    RefinesEnd(p, a);
    assert With(a, 0, IDLE.(send := [Fine(p)], chcount := 1)) == With(s, 0, IDLE.(send := [Fine(p)], chcount := 1));
  }

  lemma RefinesEnd(p: Params, s: State)
    requires OneEach(p, s) && Reachable(p, s) && s.pools[0][0] == IDLE.(cur := [Coarse(p)]) && s.fine == [[]]
    ensures Reachable(p, With(s, 0, IDLE.(send := [Fine(p)], chcount := 1)).(fine := [[Fine(p)]]))
  {
    hide Reachable;
    Shaped(p, s);
    Counts(p);
    var t := With(s, 0, IDLE.(send := [Fine(p)], chcount := 1)).(fine := [[Fine(p)]]);
    assert [] + [Fine(p)] == [Fine(p)];
    Same(Apply(p, s, RefineEnd(0)), t);
    ReachStep(p, s, RefineEnd(0), t);
  }

  function Digest(p: Params): Bytes { p.codec.sha(p.input) }

  lemma Dedups(p: Params, s: State)
    requires OneEach(p, s) && Reachable(p, s) && s.pools[1][0] == IDLE.(recv := [Fine(p)]) && s.table == map[]
    requires s.store == map[]
    ensures Reachable(p, With(s, 1, IDLE.(send := [Fine(p)]))
                           .(store := map[SeqNum(0, 0) := Original(Digest(p), Uncompressed)],
                               table := map[Digest(p) := SeqNum(0, 0)]))
  {
    hide Reachable;
    Shaped(p, s);
    Counts(p);
    var t := With(s, 1, IDLE.(send := [Fine(p)]))
               .(store := map[SeqNum(0, 0) := Original(Digest(p), Uncompressed)],
                   table := map[Digest(p) := SeqNum(0, 0)]);
    assert [Fine(p)][1..] == [] && [] + [Fine(p)] == [Fine(p)];
    Same(Apply(p, s, Dedup(0)), t);
    ReachStep(p, s, Dedup(0), t);
  }

  function Packed(p: Params): map<SeqNum, Header>
  {
    map[SeqNum(0, 0) := Original(Digest(p), Compressed(p.codec.comp(p.input)))]
  }

  lemma Compresses(p: Params, s: State)
    requires OneEach(p, s) && Reachable(p, s) && s.pools[2][0] == IDLE.(recv := [Fine(p)])
    requires s.store == map[SeqNum(0, 0) := Original(Digest(p), Uncompressed)]
    ensures Reachable(p, With(s, 2, IDLE.(send := [Fine(p)])).(store := Packed(p)))
  {
    hide Reachable;
    Shaped(p, s);
    Counts(p);
    var t := With(s, 2, IDLE.(send := [Fine(p)])).(store := Packed(p));
    assert [Fine(p)][1..] == [] && [] + [Fine(p)] == [Fine(p)];
    Same(Apply(p, s, Step.Compress(0)), t);
    ReachStep(p, s, Step.Compress(0), t);
  }

  /** The reorder thread takes the chunk and finds that it is the next one. */
  lemma Reorders(p: Params, s: State)
    requires OneEach(p, s) && Reachable(p, s) && s.queues[3][0] == Queue([Fine(p)], 1, 1) && s.re == START_RE
    ensures Reachable(p, Queued(s, 3, CLOSED).(re := START_RE.(writing := [Fine(p)], cpa := map[0 := 1])))
  {
    hide Reachable;
    Shaped(p, s);
    Counts(p);
    var a := Queued(s, 3, CLOSED).(re := START_RE.(recv := [Fine(p)]));
    assert [Fine(p)][..1] == [Fine(p)] && [Fine(p)][1..] == [];
    Same(Apply(p, s, Poll), a);
    ReachStep(p, s, Poll, a);
    var b := Queued(s, 3, CLOSED).(re := START_RE.(writing := [Fine(p)], cpa := map[0 := 1]));
    Arrives(p, a, b);
    ReachStep(p, a, Arrive, b);
  }

  lemma Arrives(p: Params, s: State, t: State)
    requires OneEach(p, s) && s.re == START_RE.(recv := [Fine(p)])
    requires t == s.(re := START_RE.(writing := [Fine(p)], cpa := map[0 := 1]))
    ensures Goes(p, s, Arrive, t)
  {
    Shaped(p, s);
    assert [Fine(p)][1..] == [];
  }

  const WRITTEN := SeqNum(1, 0)

  function Final(p: Params): Reorderer {
    Reorderer(Main, 0, 0, [], WRITTEN, map[0 := 1], map[], [], [Fine(p)], [Data(p.codec.comp(p.input))])
  }

  lemma Writes(p: Params, s: State) returns (t: State)
    requires OneEach(p, s) && Reachable(p, s) && s.re == START_RE.(writing := [Fine(p)], cpa := map[0 := 1])
    requires s.store == Packed(p)
    ensures Reachable(p, t) && t == s.(re := Final(p), store := t.store)
  {
    hide Reachable;
    Shaped(p, s);
    Counts(p);
    t := Apply(p, s, Write);
    NoneCached(map[0 := 1]);
    assert [] + [Fine(p)] == [Fine(p)] && [] + [Data(p.codec.comp(p.input))] == [Data(p.codec.comp(p.input))];
    ReachStep(p, s, Write, t);
  }

  lemma NoneCached(cpa: map<nat, nat>)
    requires cpa == map[0 := 1]
    ensures Advance(SeqNum(0, 0), cpa) == WRITTEN
    ensures forall d :: !TakesNext(map[], WRITTEN, d)
  {
  }

  lemma Finishes(p: Params, s: State) returns (t: State)
    requires OneEach(p, s) && Reachable(p, s) && s.re == Final(p) && s.queues[3][0] == CLOSED
    ensures Reachable(p, t) && t.re.phase == Finished && t.re.out == [Data(p.codec.comp(p.input))] && t.fine == s.fine
  {
    hide Reachable;
    Shaped(p, s);
    Counts(p);
    var a := s.(re := Final(p).(phase := Flushing, misses := 1));
    assert Goes(p, s, PollMiss, a);
    ReachStep(p, s, PollMiss, a);
    t := s.(re := Final(p).(phase := Finished, misses := 1));
    assert Goes(p, a, Finish, t);
    ReachStep(p, a, Finish, t);
  }

  /** A run that ends with the whole input as one chunk and one data record in the file. */
  ghost predicate EndsWithOneChunk(p: Params, states: seq<State>, steps: seq<Step>) {
    && Run(p, states, steps) && states[|states| - 1].re.phase == Finished
    && states[|states| - 1].re.out == [Data(p.codec.comp(p.input))] && states[|states| - 1].fine == [[Fine(p)]]
  }

  lemma KeepsObeys(cut: Search, p: Params, s: State, a: Step)
    requires KeepsWhole(p, s, a) && Waits(cut, p.input) && cut(p.input) >= |p.input|
    ensures StepObeys(cut, s, a)
  {
  }

  /** A whole run with the cuts of the search, on an input in which it finds none: every stage does its
      work, hangs up, and the file has one data record. */
  lemma SomeRunFinishes(cut: Search, p: Params) returns (states: seq<State>, steps: seq<Step>)
    requires p.nthreads == 1 && 0 < |p.input| <= MAXBUF && Waits(cut, p.input) && cut(p.input) >= |p.input|
    ensures EndsWithOneChunk(p, states, steps) && Obeys(cut, states, steps)
  {
    hide KeepsWhole, StepObeys, Goes;
    var t := LastState(p);
    states, steps :| Leads(p, states, steps, t);
    forall i | 0 <= i < |steps|
      ensures StepObeys(cut, states[i], steps[i])
    {
      KeepsObeys(cut, p, states[i], steps[i]);
    }
  }

  /** The failure of the decoder: for every length above its buffer, but not above the one of the encoder,
      there is an input that the encoder turns into a file, with the cuts of its search, and no file that it
      can make of it decodes. */
  lemma LargeChunkFails(n: nat, c: Codec) returns (b: Bytes, states: seq<State>, steps: seq<Step>)
    requires UNCOMPRESS_BOUND < n <= MAXBUF && SoundCodec(c)
    ensures |b| == n && FinishedRun(Params(b, 1, c), states, steps)
    ensures forall p: Params, states: seq<State>, steps: seq<Step> ::
              ValidParams(p) && p.input == b && SoundCodec(p.codec) && FinishedRun(p, states, steps)
              ==> DecodeRecords(p.codec, true, EMPTY_DECODED, states[|states| - 1].re.out) == Err(UncompressError)
  {
    hide Obeys, RabinCut, Waits, SoundCodec;
    b := LargeInputFails(n);
    states, steps := SomeRunFinishes(RabinCut, Params(b, 1, c));
  }

  lemma LastState(p: Params) returns (t: State)
    requires Small(p)
    ensures Reachable(p, t) && t.re.phase == Finished && t.re.out == [Data(p.codec.comp(p.input))]
    ensures t.fine == [[Fine(p)]]
  {
    hide Reachable, Run;
    FragmentRuns(p);
    var a := AfterFragment(p);
    Fetches(p, a, 0, Coarse(p));
    var b := With(Queued(a, 0, CLOSED), 0, IDLE.(recv := [Coarse(p)]));
    Refines(p, b);
    var c := With(b, 0, IDLE.(send := [Fine(p)], chcount := 1)).(fine := [[Fine(p)]]);
    Leaves(p, c, 0, IDLE.(send := [Fine(p)], chcount := 1), Fine(p));
    var d := With(Queued(c, 1, Queue([Fine(p)], 1, 1)), 0, IDLE.(chcount := 1, status := Done));
    t := SecondHalf(p, d);
  }

  lemma SecondHalf(p: Params, d: State) returns (t: State)
    requires OneEach(p, d) && Reachable(p, d) && d.queues[1][0] == Queue([Fine(p)], 1, 1)
    requires d.queues[2][0] == d.queues[3][0] == OPEN
    requires d.pools[1][0] == d.pools[2][0] == IDLE && d.table == map[] && d.store == map[] && d.re == START_RE
    ensures Reachable(p, t) && t.re.phase == Finished && t.re.out == [Data(p.codec.comp(p.input))] && t.fine == d.fine
  {
    hide Reachable, Run;
    var w := IDLE.(send := [Fine(p)]);
    Fetches(p, d, 1, Fine(p));
    var e := With(Queued(d, 1, CLOSED), 1, IDLE.(recv := [Fine(p)]));
    Dedups(p, e);
    var f := With(e, 1, w).(store := map[SeqNum(0, 0) := Original(Digest(p), Uncompressed)],
        table := map[Digest(p) := SeqNum(0, 0)]);
    Leaves(p, f, 1, w, Fine(p));
    var g := With(Queued(f, 2, Queue([Fine(p)], 1, 1)), 1, IDLE.(status := Done));
    t := ThirdPart(p, g);
  }

  lemma ThirdPart(p: Params, g: State) returns (t: State)
    requires OneEach(p, g) && Reachable(p, g) && g.queues[2][0] == Queue([Fine(p)], 1, 1) && g.queues[3][0] == OPEN
    requires g.pools[2][0] == IDLE && g.store == map[SeqNum(0, 0) := Original(Digest(p), Uncompressed)]
    requires g.re == START_RE
    ensures Reachable(p, t) && t.re.phase == Finished && t.re.out == [Data(p.codec.comp(p.input))] && t.fine == g.fine
  {
    hide Reachable, Run;
    var w := IDLE.(send := [Fine(p)]);
    Fetches(p, g, 2, Fine(p));
    var h := With(Queued(g, 2, CLOSED), 2, IDLE.(recv := [Fine(p)]));
    Compresses(p, h);
    var i := With(h, 2, w).(store := Packed(p));
    Leaves(p, i, 2, w, Fine(p));
    var j := With(Queued(i, 3, Queue([Fine(p)], 1, 1)), 2, IDLE.(status := Done));
    Reorders(p, j);
    var k := Queued(j, 3, CLOSED).(re := START_RE.(writing := [Fine(p)], cpa := map[0 := 1]));
    var l := Writes(p, k);
    t := Finishes(p, l);
  }
}
