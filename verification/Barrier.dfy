/** The two-phase barrier: a step is what a thread does between two points where another thread can
    see or change the shared fields. */
module Barrier {
  import opened Chunks

  /** Where a thread is inside parsec_barrier_wait: at the gate, where it needs an arrival phase, or in
      the hall, where it needs a departure phase. It tests the phase with the mutex held; without it
      it sleeps on the condition variable or polls. master is what it will return. */
  datatype Pc =
    | Out | Lock | Gate | GateWait | GateSpin | GateRelock | Arriving
    | Hall(master: bool) | HallWait(master: bool) | HallSpin(master: bool) | HallRelock(master: bool)
    | Leaving(master: bool)

  datatype Event = Enter(t: nat, r: nat, master: bool) | Leave(t: nat, r: nat, master: bool)

  /** round and log are histories. */
  datatype State = State(mutex: Option<nat>, n: nat, arrival: bool, pcs: seq<Pc>, round: nat, log: seq<Event>)

  datatype Step =
    | Call(t: nat)
    | Acquire(t: nat)
    | TestGate(t: nat, poll: bool)
    | Wake(t: nat)
    | Arrive(t: nat)
    | TestHall(t: nat, poll: bool)
    | Depart(t: nat)

  predicate Holding(pc: Pc) { pc.Gate? || pc.Arriving? || pc.Hall? || pc.Leaving? }

  predicate InHall(pc: Pc) { pc.Hall? || pc.HallWait? || pc.HallSpin? || pc.HallRelock? || pc.Leaving? }

  predicate Sleeping(pc: Pc) { pc.GateWait? || pc.HallWait? || pc.GateSpin? || pc.HallSpin? }

  /** A broadcast wakes every thread that sleeps on the condition variable; they need the mutex again. */
  function Woken(pc: Pc): Pc {
    match pc
    case GateWait => GateRelock
    case HallWait(m) => HallRelock(m)
    case _ => pc
  }

  function Broadcast(pcs: seq<Pc>): (r: seq<Pc>)
    ensures |r| == |pcs| && forall t :: 0 <= t < |r| ==> r[t] == Woken(pcs[t])
  {
    seq(|pcs|, (t: nat) requires t < |pcs| => Woken(pcs[t]))
  }

  /** Only the spinning variant polls. */
  predicate Enabled(spin: bool, s: State, e: Step) {
    e.t < |s.pcs| &&
    match e
    case Call(t) => s.pcs[t].Out?
    case Acquire(t) => s.mutex == None && (s.pcs[t].Lock? || s.pcs[t].GateRelock? || s.pcs[t].HallRelock?)
    case TestGate(t, poll) => s.pcs[t].Gate? && (poll ==> spin)
    case Wake(t) => Sleeping(s.pcs[t])
    case Arrive(t) => s.pcs[t].Arriving?
    case TestHall(t, poll) => s.pcs[t].Hall? && (poll ==> spin)
    case Depart(t) => s.pcs[t].Leaving?
  }

  function At(s: State, t: nat, pc: Pc): State
    requires t < |s.pcs|
  {
    s.(pcs := s.pcs[t := pc])
  }

  function Apply(max: nat, s: State, e: Step): State
    requires e.t < |s.pcs|
  {
    match e
    case Call(t) => At(s, t, Lock)
    case Acquire(t) => At(s, t, if s.pcs[t].HallRelock? then Hall(s.pcs[t].master) else Gate).(mutex := Some(t))
    case TestGate(t, poll) =>
      if s.arrival then At(s, t, Arriving) else At(s, t, if poll then GateSpin else GateWait).(mutex := None)
    case Wake(t) =>
      At(s, t, match s.pcs[t]
               case HallWait(m) => HallRelock(m)
               case HallSpin(m) => HallRelock(m)
               case _ => GateRelock)
    case Arrive(t) => DoArrive(max, s, t)
    case TestHall(t, poll) => DoTestHall(s, t, poll)
    case Depart(t) => DoDepart(s, t)
  }

  function DoTestHall(s: State, t: nat, poll: bool): State
    requires t < |s.pcs|
  {
    var m := if s.pcs[t].Hall? then s.pcs[t].master else false;
    if s.arrival then At(s, t, if poll then HallSpin(m) else HallWait(m)).(mutex := None) else At(s, t, Leaving(m))
  }

  /** The first thread of a round is the master; the last one ends the arrival phase. */
  function DoArrive(max: nat, s: State, t: nat): State
    requires t < |s.pcs|
  {
    var m := s.n == 0;
    var s1 := s.(n := s.n + 1, log := s.log + [Enter(t, s.round, m)]);
    if s1.n >= max then At(s1.(arrival := false, pcs := Broadcast(s1.pcs)), t, Leaving(m)) else At(s1, t, Hall(m))
  }

  /** The last thread to leave starts the next arrival phase. */
  function DoDepart(s: State, t: nat): State
    requires t < |s.pcs|
  {
    var m := if s.pcs[t].Leaving? then s.pcs[t].master else false;
    var s1 := s.(n := if s.n > 0 then s.n - 1 else 0, log := s.log + [Leave(t, s.round, m)], mutex := None);
    if s1.n == 0 then At(s1.(arrival := true, round := s.round + 1, pcs := Broadcast(s1.pcs)), t, Out)
    else At(s1, t, Out)
  }

  function Init(threads: nat): State { State(None, 0, true, seq(threads, _ => Out), 0, []) }

  /** How many threads are in the hall, and how many of them are masters. */
  function HallCount(pcs: seq<Pc>): nat {
    if pcs == [] then 0 else HallCount(pcs[..|pcs| - 1]) + (if InHall(pcs[|pcs| - 1]) then 1 else 0)
  }

  predicate IsMaster(pc: Pc) { InHall(pc) && pc.master }

  function Masters(pcs: seq<Pc>): nat {
    if pcs == [] then 0 else Masters(pcs[..|pcs| - 1]) + (if IsMaster(pcs[|pcs| - 1]) then 1 else 0)
  }

  function Bit(b: bool): nat { if b then 1 else 0 }

  lemma {:induction false} CountUpdate(pcs: seq<Pc>, t: nat, pc: Pc)
    requires t < |pcs|
    ensures HallCount(pcs[t := pc]) + Bit(InHall(pcs[t])) == HallCount(pcs) + Bit(InHall(pc))
    ensures Masters(pcs[t := pc]) + Bit(IsMaster(pcs[t])) == Masters(pcs) + Bit(IsMaster(pc))
    ensures Bit(InHall(pcs[t])) <= HallCount(pcs) && Bit(IsMaster(pcs[t])) <= Masters(pcs)
  {
    var k := |pcs| - 1;
    if t < k {
      CountUpdate(pcs[..k], t, pc);
      assert pcs[t := pc][..k] == pcs[..k][t := pc];
    } else {
      assert pcs[t := pc][..k] == pcs[..k];
    }
  }

  lemma {:induction false} CountSame(pcs: seq<Pc>, pcs': seq<Pc>)
    requires |pcs| == |pcs'| && forall t :: 0 <= t < |pcs| ==>
             InHall(pcs[t]) == InHall(pcs'[t]) && IsMaster(pcs[t]) == IsMaster(pcs'[t])
    ensures HallCount(pcs') == HallCount(pcs) && Masters(pcs') == Masters(pcs)
  {
    if pcs != [] {
      CountSame(pcs[..|pcs| - 1], pcs'[..|pcs| - 1]);
    }
  }

  lemma {:induction false} MastersInHall(pcs: seq<Pc>)
    ensures Masters(pcs) <= HallCount(pcs)
  {
    if pcs != [] {
      MastersInHall(pcs[..|pcs| - 1]);
    }
  }

  /** Entries of a round, departures from it, and how many of each were the master's. */
  function Entered(log: seq<Event>, r: nat): nat {
    if log == [] then 0
    else Entered(log[..|log| - 1], r) + Bit(log[|log| - 1].Enter? && log[|log| - 1].r == r)
  }

  function Left(log: seq<Event>, r: nat): nat {
    if log == [] then 0
    else Left(log[..|log| - 1], r) + Bit(log[|log| - 1].Leave? && log[|log| - 1].r == r)
  }

  function Serials(log: seq<Event>, r: nat): nat {
    if log == [] then 0
    else Serials(log[..|log| - 1], r) + Bit(log[|log| - 1].Leave? && log[|log| - 1].r == r && log[|log| - 1].master)
  }

  lemma LogMore(log: seq<Event>, e: Event, r: nat)
    ensures Entered(log + [e], r) == Entered(log, r) + Bit(e.Enter? && e.r == r)
    ensures Left(log + [e], r) == Left(log, r) + Bit(e.Leave? && e.r == r)
    ensures Serials(log + [e], r) == Serials(log, r) + Bit(e.Leave? && e.r == r && e.master)
  {
    assert (log + [e])[..|log|] == log;
  }

  /** The last event of a thread. */
  function Last(log: seq<Event>, t: nat): Option<Event> {
    if log == [] then None
    else if log[|log| - 1].t == t then Some(log[|log| - 1])
    else Last(log[..|log| - 1], t)
  }

  /** Bookkeeping of the mutex, and no thread sleeps on a condition that holds. */
  ghost predicate ThreadsOk(s: State) {
    forall t :: 0 <= t < |s.pcs| ==>
      && (Holding(s.pcs[t]) <==> s.mutex == Some(t))
      && (s.pcs[t].Arriving? ==> s.arrival) && (s.pcs[t].Leaving? ==> !s.arrival)
      && (s.pcs[t].GateWait? ==> !s.arrival) && (s.pcs[t].HallWait? ==> s.arrival)
      && (InHall(s.pcs[t]) ==> Last(s.log, t) == Some(Enter(t, s.round, s.pcs[t].master)))
  }

  ghost predicate CountsOk(max: nat, s: State) {
    && s.n == HallCount(s.pcs)
    && (if s.arrival then s.n < max else 0 < s.n <= max)
  }

  ghost predicate RoundOk(max: nat, s: State, r: nat) {
    && Entered(s.log, r) == (if r < s.round then max else if r > s.round then 0 else if s.arrival then s.n else max)
    && Left(s.log, r) == (if r < s.round then max else if r > s.round then 0 else if s.arrival then 0 else max - s.n)
    && Serials(s.log, r) ==
         (if r < s.round then 1 else if r > s.round then 0 else if s.arrival then 0 else 1 - Masters(s.pcs))
  }

  ghost predicate Inv(max: nat, s: State) {
    && max > 0 && ThreadsOk(s) && CountsOk(max, s)
    && Masters(s.pcs) <= 1 && (s.arrival ==> Masters(s.pcs) == (if s.n > 0 then 1 else 0))
    && (forall r :: RoundOk(max, s, r))
  }

  lemma {:induction false} NobodyInside(pcs: seq<Pc>)
    requires forall t :: 0 <= t < |pcs| ==> !InHall(pcs[t])
    ensures HallCount(pcs) == 0 && Masters(pcs) == 0
  {
    if pcs != [] {
      NobodyInside(pcs[..|pcs| - 1]);
    }
  }

  lemma InitInv(max: nat, threads: nat)
    requires max > 0
    ensures Inv(max, Init(threads))
  {
    NobodyInside(Init(threads).pcs);
  }

  /** Steps that change neither the shared counters nor who is in the hall. */
  lemma QuietInv(max: nat, spin: bool, s: State, e: Step)
    requires Inv(max, s) && Enabled(spin, s, e) && !e.Arrive? && !e.Depart?
    ensures Inv(max, Apply(max, s, e))
  {
    hide RoundOk;
    var s' := Apply(max, s, e);
    QuietThreads(max, spin, s, e);
    CountSame(s.pcs, s'.pcs);
    forall r
      ensures RoundOk(max, s', r)
    {
      assert RoundOk(max, s, r);
      SameRound(max, s, s', r);
    }
  }

  lemma SameRound(max: nat, s: State, s': State, r: nat)
    requires RoundOk(max, s, r) && s'.log == s.log && s'.round == s.round && s'.n == s.n && s'.arrival == s.arrival
    requires Masters(s'.pcs) == Masters(s.pcs)
    ensures RoundOk(max, s', r)
  {
  }

  ghost predicate Quiet(s: State, s': State) {
    && ThreadsOk(s') && |s'.pcs| == |s.pcs|
    && s'.log == s.log && s'.round == s.round && s'.n == s.n && s'.arrival == s.arrival
    && forall t :: 0 <= t < |s.pcs| ==>
         InHall(s'.pcs[t]) == InHall(s.pcs[t]) && IsMaster(s'.pcs[t]) == IsMaster(s.pcs[t])
  }

  lemma TestThreads(max: nat, spin: bool, s: State, e: Step)
    requires ThreadsOk(s) && Enabled(spin, s, e) && (e.TestGate? || e.TestHall?)
    ensures Quiet(s, Apply(max, s, e))
  {
    hide Last;
  }

  lemma OtherThreads(max: nat, spin: bool, s: State, e: Step)
    requires ThreadsOk(s) && Enabled(spin, s, e) && (e.Call? || e.Acquire? || e.Wake?)
    ensures Quiet(s, Apply(max, s, e))
  {
    hide Last;
  }

  lemma QuietThreads(max: nat, spin: bool, s: State, e: Step)
    requires ThreadsOk(s) && Enabled(spin, s, e) && !e.Arrive? && !e.Depart?
    ensures Quiet(s, Apply(max, s, e))
  {
    hide Quiet, ThreadsOk, Apply, Enabled;
    if e.TestGate? || e.TestHall? {
      TestThreads(max, spin, s, e);
    } else {
      OtherThreads(max, spin, s, e);
    }
  }

  lemma LastOwn(log: seq<Event>, e: Event, t: nat)
    ensures Last(log + [e], t) == if e.t == t then Some(e) else Last(log, t)
  {
    assert (log + [e])[..|log|] == log;
  }

  lemma ArriveThreads(max: nat, s: State, t: nat)
    requires ThreadsOk(s) && CountsOk(max, s) && max > 0 && t < |s.pcs| && s.pcs[t].Arriving?
    ensures ThreadsOk(DoArrive(max, s, t))
  {
    hide Last, HallCount;
    var s', e := DoArrive(max, s, t), Enter(t, s.round, s.n == 0);
    forall u | 0 <= u < |s'.pcs|
      ensures Last(s'.log, u) == if u == t then Some(e) else Last(s.log, u)
    {
      LastOwn(s.log, e, u);
    }
  }

  lemma ArriveCounts(max: nat, s: State, t: nat)
    requires Inv(max, s) && t < |s.pcs| && s.pcs[t].Arriving?
    ensures var s' := DoArrive(max, s, t);
            && s'.n == s.n + 1 == HallCount(s'.pcs) && Masters(s'.pcs) == 1
            && s'.arrival == (s'.n < max) && s'.round == s.round && s'.log == s.log + [Enter(t, s.round, s.n == 0)]
  {
    hide RoundOk, ThreadsOk;
    ArrivingPhase(s, t);
    var s' := DoArrive(max, s, t);
    var pc := s'.pcs[t];
    CountUpdate(s.pcs, t, pc);
    if s.n + 1 >= max {
      CountSame(s.pcs[t := pc], s'.pcs);
    }
  }

  lemma ArriveInv(max: nat, s: State, t: nat)
    requires Inv(max, s) && t < |s.pcs| && s.pcs[t].Arriving?
    ensures Inv(max, DoArrive(max, s, t))
  {
    var s' := DoArrive(max, s, t);
    ArriveThreads(max, s, t);
    ArriveCounts(max, s, t);
    hide ThreadsOk, DoArrive;
    assert s.arrival by {
      ArrivingPhase(s, t);
    }
    forall r
      ensures RoundOk(max, s', r)
    {
      assert RoundOk(max, s, r);
      LogMore(s.log, Enter(t, s.round, s.n == 0), r);
    }
  }

  lemma ArrivingPhase(s: State, t: nat)
    requires ThreadsOk(s) && t < |s.pcs|
    ensures (s.pcs[t].Arriving? ==> s.arrival) && (s.pcs[t].Leaving? ==> !s.arrival)
  {
  }

  lemma DepartThreads(max: nat, s: State, t: nat)
    requires ThreadsOk(s) && CountsOk(max, s) && t < |s.pcs| && s.pcs[t].Leaving? && s.n > 0
    ensures ThreadsOk(DoDepart(s, t))
  {
    hide Last, HallCount;
    var s', e := DoDepart(s, t), Leave(t, s.round, s.pcs[t].master);
    forall u | 0 <= u < |s'.pcs|
      ensures Last(s'.log, u) == if u == t then Some(e) else Last(s.log, u)
    {
      LastOwn(s.log, e, u);
    }
    if s.n == 1 {
      OnlyOne(s.pcs, t);
    }
  }

  lemma OnlyOne(pcs: seq<Pc>, t: nat)
    requires t < |pcs| && InHall(pcs[t]) && HallCount(pcs) == 1
    ensures forall u :: 0 <= u < |pcs| && u != t ==> !InHall(pcs[u])
  {
    CountUpdate(pcs, t, Out);
    forall u | 0 <= u < |pcs| && u != t
      ensures !InHall(pcs[u])
    {
      CountUpdate(pcs[t := Out], u, Out);
    }
  }

  lemma DepartCounts(max: nat, s: State, t: nat)
    requires Inv(max, s) && t < |s.pcs| && s.pcs[t].Leaving? && s.n > 0
    ensures var s', m := DoDepart(s, t), s.pcs[t].master;
            && s'.n == s.n - 1 == HallCount(s'.pcs) && Masters(s'.pcs) + Bit(m) == Masters(s.pcs)
            && s'.arrival == (s'.n == 0) && s'.round == s.round + Bit(s'.n == 0) &&
                 s'.log == s.log + [Leave(t, s.round, m)]
  {
    hide RoundOk;
    var s' := DoDepart(s, t);
    CountUpdate(s.pcs, t, Out);
    if s.n == 1 {
      CountSame(s.pcs[t := Out], s'.pcs);
    }
  }

  lemma DepartInv(max: nat, s: State, t: nat)
    requires Inv(max, s) && t < |s.pcs| && s.pcs[t].Leaving? && s.n > 0
    ensures Inv(max, DoDepart(s, t))
  {
    var s', m := DoDepart(s, t), s.pcs[t].master;
    DepartThreads(max, s, t);
    DepartCounts(max, s, t);
    MastersInHall(s'.pcs);
    hide ThreadsOk, DoDepart;
    ArrivingPhase(s, t);
    forall r
      ensures RoundOk(max, s', r)
    {
      assert RoundOk(max, s, r);
      LogMore(s.log, Leave(t, s.round, m), r);
    }
  }

  /** The counter does not run below zero. */
  lemma SomebodyInside(max: nat, s: State, t: nat)
    requires CountsOk(max, s) && t < |s.pcs| && InHall(s.pcs[t])
    ensures s.n > 0
  {
    CountUpdate(s.pcs, t, Out);
  }

  lemma StepInv(max: nat, spin: bool, s: State, e: Step)
    requires Inv(max, s) && Enabled(spin, s, e)
    ensures Inv(max, Apply(max, s, e))
  {
    match e
    case Arrive(t) => ArriveInv(max, s, t);
    case Depart(t) => SomebodyInside(max, s, t); DepartInv(max, s, t);
    case _ => QuietInv(max, spin, s, e);
  }

  ghost predicate Run(max: nat, threads: nat, spin: bool, states: seq<State>, steps: seq<Step>) {
    && |states| == |steps| + 1 && states[0] == Init(threads)
    && forall k :: 0 <= k < |steps| ==> Takes(max, spin, states[k], steps[k], states[k + 1])
  }

  ghost predicate Takes(max: nat, spin: bool, s: State, e: Step, s': State) {
    Enabled(spin, s, e) && s' == Apply(max, s, e)
  }

  lemma {:induction false} RunInv(max: nat, threads: nat, spin: bool, states: seq<State>, steps: seq<Step>, k: nat)
    requires max > 0 && Run(max, threads, spin, states, steps) && k < |states|
    ensures Inv(max, states[k])
  {
    if k == 0 {
      InitInv(max, threads);
    } else {
      RunInv(max, threads, spin, states, steps, k - 1);
      assert Takes(max, spin, states[k - 1], steps[k - 1], states[k]);
      StepInv(max, spin, states[k - 1], steps[k - 1]);
    }
  }

  /** A thread enters a round only when max threads have left every earlier one, and leaves it only
      when max threads have entered it; it returns what it was told on entry. */
  lemma RoundsSeparate(max: nat, threads: nat, spin: bool, states: seq<State>, steps: seq<Step>, k: nat)
    requires max > 0 && Run(max, threads, spin, states, steps) && k < |steps|
    ensures var s, s', e := states[k], states[k + 1], steps[k];
            && (s'.log != s.log ==> e.Arrive? || e.Depart?)
            && (e.Arrive? ==> s'.log == s.log + [Enter(e.t, s.round, Entered(s.log, s.round) == 0)] &&
                              Entered(s.log, s.round) < max && forall r :: 0 <= r < s.round ==> Left(s.log, r) == max)
            && (e.Depart? ==> e.t < |s.pcs| && s.pcs[e.t].Leaving? && Entered(s.log, s.round) == max &&
                              s'.log == s.log + [Leave(e.t, s.round, s.pcs[e.t].master)] &&
                              Last(s.log, e.t) == Some(Enter(e.t, s.round, s.pcs[e.t].master)))
  {
    var s, e := states[k], steps[k];
    RunInv(max, threads, spin, states, steps, k);
    assert Takes(max, spin, s, e, states[k + 1]);
    assert RoundOk(max, s, s.round);
    if e.Arrive? {
      forall r | 0 <= r < s.round
        ensures Left(s.log, r) == max
      {
        assert RoundOk(max, s, r);
      }
    } else if e.Depart? {
      SomebodyInside(max, s, e.t);
    }
  }

  /** Of every round that is over exactly max threads have entered and left, and exactly one of them
      was the serial thread; the counter stays between 0 and max. */
  lemma RoundsComplete(max: nat, threads: nat, spin: bool, states: seq<State>, steps: seq<Step>, k: nat, r: nat)
    requires max > 0 && Run(max, threads, spin, states, steps) && k < |states|
    ensures var s := states[k];
            && 0 <= s.n <= max && Entered(s.log, r) <= max && Left(s.log, r) <= Entered(s.log, r) &&
                 Serials(s.log, r) <= 1
            && (r < s.round ==> Entered(s.log, r) == max && Left(s.log, r) == max && Serials(s.log, r) == 1)
            && (Left(s.log, r) > 0 ==> Entered(s.log, r) == max)
  {
    RunInv(max, threads, spin, states, steps, k);
    assert RoundOk(max, states[k], r);
  }

  /** The thread can go on by itself: it is not outside, asleep, or waiting for the mutex. */
  predicate CanMove(s: State, t: nat)
    requires t < |s.pcs|
  {
    match s.pcs[t]
    case Out => false
    case GateWait => false
    case HallWait(_) => false
    case Lock => s.mutex == None
    case GateRelock => s.mutex == None
    case HallRelock(_) => s.mutex == None
    case _ => true
  }

  /** No wake-up is lost: if no thread can move, all threads inside wait in the hall for others to
      arrive, of which fewer than max have. */
  lemma BlocksOnlyForArrivals(max: nat, threads: nat, spin: bool, states: seq<State>, steps: seq<Step>, k: nat)
    requires max > 0 && Run(max, threads, spin, states, steps) && k < |states|
    requires forall t :: 0 <= t < |states[k].pcs| ==> !CanMove(states[k], t)
    ensures var s := states[k];
            s.arrival && s.n < max && forall t :: 0 <= t < |s.pcs| ==> s.pcs[t].Out? || s.pcs[t].HallWait?
  {
    var s := states[k];
    RunInv(max, threads, spin, states, steps, k);
    MutexInside(max, threads, spin, states, steps, k);
    if s.mutex.Some? {
      HolderCanMove(s);
    }
    forall t | 0 <= t < |s.pcs|
      ensures s.pcs[t].Out? || s.pcs[t].GateWait? || s.pcs[t].HallWait?
    {
      assert !CanMove(s, t);
    }
    if !s.arrival {
      NobodyInside(s.pcs);
    }
  }

  lemma HolderCanMove(s: State)
    requires ThreadsOk(s) && s.mutex.Some? && s.mutex.value < |s.pcs|
    ensures CanMove(s, s.mutex.value)
  {
  }

  lemma {:induction false} MutexInside(max: nat, threads: nat, spin: bool, states: seq<State>, steps: seq<Step>, k: nat)
    requires Run(max, threads, spin, states, steps) && k < |states|
    ensures |states[k].pcs| == threads && (states[k].mutex.Some? ==> states[k].mutex.value < threads)
  {
    if k > 0 {
      MutexInside(max, threads, spin, states, steps, k - 1);
      assert Takes(max, spin, states[k - 1], steps[k - 1], states[k]);
    }
  }
}
