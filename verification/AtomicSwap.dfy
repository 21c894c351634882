/** Concurrent swaps of two cells through compare-and-swap with a sentinel value. A step is one atomic
    access to one cell. */
module AtomicSwap {
  import opened Chunks

  /** Where a thread is inside Swap or TrySwap: before the load and before the compare-and-swap of the
      first cell, the same for the last cell, and before the final store to the first. vf is the value
      taken out of the first cell. */
  datatype Phase = Idle | Load1 | Cas1(v: nat) | Load2(vf: nat) | Cas2(vf: nat, w: nat) | Store(x: nat, ok: bool)

  datatype Thread = Thread(phase: Phase, trying: bool, first: nat, last: nat)

  /** A swap that has taken effect, and a call that has returned. */
  datatype Effect = Effect(t: nat, i: nat, j: nat)
  datatype Return = Return(t: nat, trying: bool, ok: bool)

  /** None in a cell is the sentinel; log and done are histories. */
  datatype State = State(cells: seq<Option<nat>>, threads: seq<Thread>, log: seq<Effect>, done: seq<Return>)

  datatype Step = Call(t: nat, trying: bool, a: nat, b: nat) | Go(t: nat)

  predicate Enabled(s: State, e: Step) {
    e.t < |s.threads| &&
    match e
    case Call(t, _, a, b) => s.threads[t].phase == Idle && a < |s.cells| && b < |s.cells|
    case Go(t) => s.threads[t].phase != Idle && s.threads[t].first < |s.cells| && s.threads[t].last < |s.cells|
  }

  function Apply(s: State, e: Step): State
    requires Enabled(s, e)
  {
    match e
    case Call(t, trying, a, b) =>
      s.(threads := s.threads[t := Thread(Load1, trying, if a < b then a else b, if a < b then b else a)])
    case Go(t) => DoGo(s, t)
  }

  function SetPhase(s: State, t: nat, ph: Phase): State
    requires t < |s.threads|
  {
    s.(threads := s.threads[t := s.threads[t].(phase := ph)])
  }

  function Finish(s: State, t: nat, ok: bool): State
    requires t < |s.threads|
  {
    SetPhase(s, t, Idle).(done := s.done + [Return(t, s.threads[t].trying, ok)])
  }

  /** The next access of thread t. Swap goes back to the load when a compare-and-swap fails and spins
      on the sentinel; TrySwap gives up, after putting back what it has taken. */
  function DoGo(s: State, t: nat): State
    requires Enabled(s, Go(t))
  {
    var th := s.threads[t];
    match th.phase
    case Load1 =>
      (match s.cells[th.first]
       case None => if th.trying then Finish(s, t, false) else s
       case Some(v) => SetPhase(s, t, Cas1(v)))
    case Cas1(v) =>
      if s.cells[th.first] == Some(v) then SetPhase(s, t, Load2(v)).(cells := s.cells[th.first := None])
      else if th.trying then Finish(s, t, false)
      else SetPhase(s, t, Load1)
    case Load2(vf) =>
      (match s.cells[th.last]
       case None => if th.trying then SetPhase(s, t, Store(vf, false)) else s
       case Some(w) => SetPhase(s, t, Cas2(vf, w)))
    case Cas2(vf, w) =>
      if s.cells[th.last] == Some(w)
      then SetPhase(s, t, Store(w, true)).(cells := s.cells[th.last := Some(vf)],
          log := s.log + [Effect(t, th.first, th.last)])
      else if th.trying then SetPhase(s, t, Store(vf, false))
      else SetPhase(s, t, Load2(vf))
    case Store(x, ok) => Finish(s, t, ok).(cells := s.cells[th.first := Some(x)])
    case Idle => s
  }

  /** The thread has taken the value out of cell i and not put one back. */
  predicate Holds(th: Thread, i: nat) {
    (th.phase.Load2? || th.phase.Cas2? || th.phase.Store?) && th.first == i
  }

  /** The value the cell will logically have: until the second compare-and-swap its old one. */
  function Held(th: Thread): nat
    requires Holds(th, th.first)
  {
    match th.phase
    case Load2(vf) => vf
    case Cas2(vf, _) => vf
    case Store(x, _) => x
  }

  function SwapSeq(a: seq<nat>, i: nat, j: nat): seq<nat> {
    if i < |a| && j < |a| then a[i := a[j]][j := a[i]] else a
  }

  /** The values after the logged swaps, each done at once. */
  function Replay(init: seq<nat>, log: seq<Effect>): (a: seq<nat>)
    ensures |a| == |init|
  {
    if log == [] then init
    else SwapSeq(Replay(init, log[..|log| - 1]), log[|log| - 1].i, log[|log| - 1].j)
  }

  /** Swaps permute: no value is lost or duplicated. */
  lemma {:induction false} ReplayPermutes(init: seq<nat>, log: seq<Effect>)
    ensures multiset(Replay(init, log)) == multiset(init)
  {
    if log != [] {
      var e := log[|log| - 1];
      var a := Replay(init, log[..|log| - 1]);
      ReplayPermutes(init, log[..|log| - 1]);
      if e.i < |a| && e.j < |a| {
        SwapPermutes(a, e.i, e.j);
      }
    }
  }

  lemma SwapPermutes(a: seq<nat>, i: nat, j: nat)
    requires i < |a| && j < |a|
    ensures multiset(a[i := a[j]][j := a[i]]) == multiset(a)
  {
  }

  ghost predicate Shaped(s: State) {
    forall t :: 0 <= t < |s.threads| && s.threads[t].phase != Idle ==>
      s.threads[t].first <= s.threads[t].last < |s.cells|
  }

  /** A cell shows the sentinel exactly while one thread holds it. */
  ghost predicate Exclusive(s: State) {
    && (forall t, u :: 0 <= t < u < |s.threads| && Holds(s.threads[t], s.threads[t].first) ==>
         !Holds(s.threads[u], s.threads[t].first))
    && (forall t :: 0 <= t < |s.threads| && Holds(s.threads[t], s.threads[t].first) ==>
          s.threads[t].first < |s.cells| && s.cells[s.threads[t].first] == None)
    && (forall i: nat :: i < |s.cells| && s.cells[i] == None ==> IsHeld(s, i))
  }

  ghost predicate IsHeld(s: State, i: nat) {
    exists t :: 0 <= t < |s.threads| && Holds(s.threads[t], i)
  }

  /** The cells together with the values held by threads in flight are the values a. */
  ghost predicate Shows(s: State, a: seq<nat>) {
    && |a| == |s.cells|
    && (forall i :: 0 <= i < |a| && s.cells[i].Some? ==> s.cells[i].value == a[i])
    && (forall t :: 0 <= t < |s.threads| && Holds(s.threads[t], s.threads[t].first) ==>
          s.threads[t].first < |a| && Held(s.threads[t]) == a[s.threads[t].first])
  }

  function Effects(log: seq<Effect>, t: nat): nat {
    if log == [] then 0 else Effects(log[..|log| - 1], t) + (if log[|log| - 1].t == t then 1 else 0)
  }

  function Successes(rs: seq<Return>, t: nat): nat {
    if rs == [] then 0
    else Successes(rs[..|rs| - 1], t) + (if rs[|rs| - 1].t == t && rs[|rs| - 1].ok then 1 else 0)
  }

  /** A thread has as many effects as successful returns, one more between its second compare-and-swap
      and its return. Swap never fails. */
  ghost predicate Accounted(s: State, t: nat)
    requires t < |s.threads|
  {
    var ph := s.threads[t].phase;
    && Effects(s.log, t) == Successes(s.done, t) + (if ph.Store? && ph.ok then 1 else 0)
    && (ph.Store? && !ph.ok ==> s.threads[t].trying)
  }

  ghost predicate Inv(s: State, init: seq<nat>) {
    && Shaped(s) && Exclusive(s) && Shows(s, Replay(init, s.log))
    && (forall t :: 0 <= t < |s.threads| ==> Accounted(s, t))
    && (forall k :: 0 <= k < |s.done| ==> s.done[k].ok || s.done[k].trying)
  }

  function Init(init: seq<nat>, n: nat): State {
    State(seq(|init|, (i: nat) requires i < |init| => Some(init[i])), seq(n, _ => Thread(Idle, false, 0, 0)), [], [])
  }

  lemma InitInv(init: seq<nat>, n: nat)
    ensures Inv(Init(init, n), init)
  {
  }

  lemma StepShaped(s: State, e: Step)
    requires Shaped(s) && Enabled(s, e)
    ensures Shaped(Apply(s, e)) && |Apply(s, e).cells| == |s.cells| && |Apply(s, e).threads| == |s.threads|
    ensures forall u :: 0 <= u < |s.threads| && u != e.t ==> Apply(s, e).threads[u] == s.threads[u]
  {
  }

  /** What a step does to the cells and to the cell its thread holds. */
  ghost predicate Moves(s: State, t: nat, s': State)
    requires t < |s.threads| && |s'.threads| == |s.threads|
  {
    var th, th' := s.threads[t], s'.threads[t];
    || (s'.cells == s.cells && forall i :: Holds(th', i) == Holds(th, i))
    || (th.first < |s.cells| && s.cells[th.first] != None && s'.cells == s.cells[th.first := None]
        && !Holds(th, th.first) && forall i :: Holds(th', i) == (i == th.first))
    || (th.first < |s.cells| && Holds(th, th.first) && (exists x :: s'.cells == s.cells[th.first := Some(x)]) &&
        forall i :: !Holds(th', i))
    || (th.last < |s.cells| && s.cells[th.last] != None && (exists x :: s'.cells == s.cells[th.last := Some(x)])
        && forall i :: Holds(th', i) == Holds(th, i))
  }

  lemma StepMoves(s: State, e: Step)
    requires Shaped(s) && Enabled(s, e)
    ensures |Apply(s, e).threads| == |s.threads| && Moves(s, e.t, Apply(s, e))
  {
    hide Shaped, Moves;
    if e.Go? {
      if s.threads[e.t].phase.Load1? || s.threads[e.t].phase.Cas1? {
        FirstMoves(s, e.t);
      } else {
        LastMoves(s, e.t);
      }
    } else {
      CallMoves(s, e);
    }
  }

  lemma CallMoves(s: State, e: Step)
    requires Enabled(s, e) && e.Call?
    ensures |Apply(s, e).threads| == |s.threads| && Moves(s, e.t, Apply(s, e))
  {
  }

  lemma FirstMoves(s: State, t: nat)
    requires Enabled(s, Go(t)) && (s.threads[t].phase.Load1? || s.threads[t].phase.Cas1?)
    ensures |DoGo(s, t).threads| == |s.threads| && Moves(s, t, DoGo(s, t))
  {
  }

  lemma LastMoves(s: State, t: nat)
    requires Enabled(s, Go(t)) && !(s.threads[t].phase.Load1? || s.threads[t].phase.Cas1?)
    ensures |DoGo(s, t).threads| == |s.threads| && Moves(s, t, DoGo(s, t))
  {
  }

  lemma HolderNone(s: State, t: nat)
    requires Exclusive(s) && t < |s.threads|
    ensures var th := s.threads[t]; Holds(th, th.first) ==> th.first < |s.cells| && s.cells[th.first] == None
  {
  }

  lemma MovesExclusive(s: State, t: nat, s': State)
    requires t < |s.threads| && |s'.threads| == |s.threads| && Moves(s, t, s') && Exclusive(s)
    requires forall u :: 0 <= u < |s.threads| && u != t ==> s'.threads[u] == s.threads[u]
    ensures Exclusive(s')
  {
    var th, th' := s.threads[t], s'.threads[t];
    forall i: nat | i < |s'.cells| && s'.cells[i] == None
      ensures IsHeld(s', i)
    {
      if s.cells[i] == None {
        assert IsHeld(s, i);
        var u :| 0 <= u < |s.threads| && Holds(s.threads[u], i);
        assert Holds(s'.threads[u], i);
      } else {
        assert Holds(th', i);
      }
    }
    forall u, v | 0 <= u < v < |s'.threads| && Holds(s'.threads[u], s'.threads[u].first)
      ensures !Holds(s'.threads[v], s'.threads[u].first)
    {
      HolderNone(s, u);
      HolderNone(s, v);
    }
    forall u | 0 <= u < |s'.threads| && Holds(s'.threads[u], s'.threads[u].first)
      ensures s'.threads[u].first < |s'.cells| && s'.cells[s'.threads[u].first] == None
    {
      HolderNone(s, u);
    }
  }

  lemma StepExclusive(s: State, e: Step)
    requires Shaped(s) && Exclusive(s) && Enabled(s, e)
    ensures Exclusive(Apply(s, e))
  {
    hide Exclusive, Moves, Enabled, Shaped;
    EnabledThread(s, e);
    StepShaped(s, e);
    StepMoves(s, e);
    MovesExclusive(s, e.t, Apply(s, e));
  }

  lemma EnabledThread(s: State, e: Step)
    requires Enabled(s, e)
    ensures e.t < |s.threads|
  {
  }

  /** The values shown after a step of which the log tells whether it was a successful second
      compare-and-swap. */
  ghost predicate ShownNext(s: State, t: nat, s': State, a: seq<nat>)
    requires t < |s.threads|
  {
    var th := s.threads[t];
    if s'.log == s.log then Shows(s', a)
    else s'.log == s.log + [Effect(t, th.first, th.last)] && Shows(s', SwapSeq(a, th.first, th.last))
  }

  lemma CallShows(s: State, e: Step, a: seq<nat>)
    requires Shows(s, a) && Enabled(s, e) && e.Call?
    ensures ShownNext(s, e.t, Apply(s, e), a)
  {
  }

  lemma FirstShows(s: State, t: nat, a: seq<nat>)
    requires Shows(s, a) && Enabled(s, Go(t)) && (s.threads[t].phase.Load1? || s.threads[t].phase.Cas1?)
    ensures ShownNext(s, t, DoGo(s, t), a)
  {
  }

  lemma SecondShows(s: State, t: nat, a: seq<nat>)
    requires Shaped(s) && Exclusive(s) && Shows(s, a) && Enabled(s, Go(t))
    requires s.threads[t].phase.Load2? || s.threads[t].phase.Cas2?
    ensures ShownNext(s, t, DoGo(s, t), a)
  {
    HolderNone(s, t);
  }

  lemma StoreShows(s: State, t: nat, a: seq<nat>)
    requires Shaped(s) && Exclusive(s) && Shows(s, a) && Enabled(s, Go(t)) && s.threads[t].phase.Store?
    ensures ShownNext(s, t, DoGo(s, t), a)
  {
    HolderNone(s, t);
  }

  /** A step changes the values shown only if it is a second compare-and-swap that succeeds: then it
      exchanges exactly the two cells, at once. */
  lemma StepShows(s: State, e: Step, a: seq<nat>)
    requires Shaped(s) && Exclusive(s) && Shows(s, a) && Enabled(s, e)
    ensures e.t < |s.threads| && ShownNext(s, e.t, Apply(s, e), a)
  {
    hide Shaped, Exclusive, Shows, ShownNext;
    match e
    case Call(_, _, _, _) => CallShows(s, e, a);
    case Go(t) =>
      match s.threads[t].phase
      case Load1 => FirstShows(s, t, a);
      case Cas1(_) => FirstShows(s, t, a);
      case Load2(_) => SecondShows(s, t, a);
      case Cas2(_, _) => SecondShows(s, t, a);
      case Store(_, _) => StoreShows(s, t, a);
  }

  lemma EffectsMore(log: seq<Effect>, e: Effect, u: nat)
    ensures Effects(log + [e], u) == Effects(log, u) + (if e.t == u then 1 else 0)
  {
    assert (log + [e])[..|log|] == log;
  }

  lemma SuccessesMore(rs: seq<Return>, r: Return, u: nat)
    ensures Successes(rs + [r], u) == Successes(rs, u) + (if r.t == u && r.ok then 1 else 0)
  {
    assert (rs + [r])[..|rs|] == rs;
  }

  lemma StepAccounted(s: State, e: Step, u: nat)
    requires Shaped(s) && Enabled(s, e) && u < |s.threads| && Accounted(s, u)
    ensures u < |Apply(s, e).threads| && Accounted(Apply(s, e), u)
  {
    hide Effects, Successes;
    var s', th := Apply(s, e), s.threads[e.t];
    EffectsMore(s.log, Effect(e.t, th.first, th.last), u);
    SuccessesMore(s.done, Return(e.t, th.trying, true), u);
    SuccessesMore(s.done, Return(e.t, th.trying, false), u);
    assert s'.log == s.log || s'.log == s.log + [Effect(e.t, th.first, th.last)];
    assert s'.done == s.done || s'.done == s.done + [Return(e.t, th.trying, true)] ||
        s'.done == s.done + [Return(e.t, th.trying, false)];
  }

  /** Swap never returns false. */
  lemma StepReturns(s: State, e: Step)
    requires Shaped(s) && Enabled(s, e) && Accounted(s, e.t)
    requires forall k :: 0 <= k < |s.done| ==> s.done[k].ok || s.done[k].trying
    ensures var s' := Apply(s, e); forall k :: 0 <= k < |s'.done| ==> s'.done[k].ok || s'.done[k].trying
  {
    hide Effects, Successes;
  }

  lemma StepInv(s: State, e: Step, init: seq<nat>)
    requires Inv(s, init) && Enabled(s, e)
    ensures Inv(Apply(s, e), init)
  {
    hide Shaped, Exclusive, Accounted, Apply, Shows, Enabled;
    var s' := Apply(s, e);
    EnabledThread(s, e);
    StepShaped(s, e);
    StepExclusive(s, e);
    StepShows(s, e, Replay(init, s.log));
    if s'.log != s.log {
      assert s'.log[..|s.log|] == s.log;
    }
    forall u | 0 <= u < |s'.threads|
      ensures Accounted(s', u)
    {
      StepAccounted(s, e, u);
    }
    StepReturns(s, e);
  }

  ghost predicate Run(init: seq<nat>, n: nat, states: seq<State>, steps: seq<Step>) {
    && |states| == |steps| + 1 && states[0] == Init(init, n)
    && forall k :: 0 <= k < |steps| ==> Takes(states[k], steps[k], states[k + 1])
  }

  ghost predicate Takes(s: State, e: Step, s': State) { Enabled(s, e) && s' == Apply(s, e) }

  lemma {:induction false} RunInv(init: seq<nat>, n: nat, states: seq<State>, steps: seq<Step>, k: nat)
    requires Run(init, n, states, steps) && k < |states|
    ensures Inv(states[k], init)
  {
    if k == 0 {
      InitInv(init, n);
    } else {
      RunInv(init, n, states, steps, k - 1);
      assert Takes(states[k - 1], steps[k - 1], states[k]);
      StepInv(states[k - 1], steps[k - 1], init);
    }
  }

  /** Swaps are linearizable: in every state of every run the cells together with the values in flight
      are the initial values after the logged swaps, one at a time in the order of the log, and so a
      permutation of the initial values. Every thread has logged one swap for each call that returned
      true, one more if it is between its second compare-and-swap and its return, and none for a
      TrySwap that failed. */
  lemma Linearizable(init: seq<nat>, n: nat, states: seq<State>, steps: seq<Step>, k: nat)
    requires Run(init, n, states, steps) && k < |states|
    ensures var s := states[k]; var a := Replay(init, s.log);
            && Shows(s, a) && multiset(a) == multiset(init)
            && (forall t :: 0 <= t < |s.threads| ==> Accounted(s, t))
            && (forall d :: 0 <= d < |s.done| ==> s.done[d].ok || s.done[d].trying)
  {
    RunInv(init, n, states, steps, k);
    ReplayPermutes(init, states[k].log);
  }

  /** No call is under way. */
  predicate Quiet(s: State) { forall t :: 0 <= t < |s.threads| ==> s.threads[t].phase == Idle }

  lemma NoneHeld(s: State, i: nat)
    requires Quiet(s)
    ensures !IsHeld(s, i)
  {
  }

  /** When no call is under way the cells themselves hold these values, none the sentinel. */
  lemma QuietState(init: seq<nat>, n: nat, states: seq<State>, steps: seq<Step>, k: nat)
    requires Run(init, n, states, steps) && k < |states| && Quiet(states[k])
    ensures var s := states[k]; var a := Replay(init, s.log);
            && |a| == |s.cells| && (forall i :: 0 <= i < |a| ==> s.cells[i] == Some(a[i]))
            && forall t :: 0 <= t < |s.threads| ==> Effects(s.log, t) == Successes(s.done, t)
  {
    var s := states[k];
    RunInv(init, n, states, steps, k);
    forall i: nat | i < |s.cells|
      ensures s.cells[i] != None
    {
      NoneHeld(s, i);
    }
    forall t | 0 <= t < |s.threads|
      ensures Effects(s.log, t) == Successes(s.done, t)
    {
      assert Accounted(s, t);
    }
  }

  /** A value that Get or TryGet loads is the current value of the cell. */
  lemma GetIsCurrent(init: seq<nat>, n: nat, states: seq<State>, steps: seq<Step>, k: nat, i: nat)
    requires Run(init, n, states, steps) && k < |states| && i < |states[k].cells|
    ensures var s := states[k]; s.cells[i] != None ==> i < |init| && s.cells[i].value == Replay(init, s.log)[i]
  {
    RunInv(init, n, states, steps, k);
  }

  /** Thread t alone, for at most n steps, until its call returns. */
  function Solo(s: State, t: nat, n: nat): State
    requires Shaped(s) && t < |s.threads|
    ensures |Solo(s, t, n).threads| == |s.threads|
    decreases n
  {
    if n == 0 || s.threads[t].phase == Idle then s
    else
      StepShaped(s, Go(t));
      Solo(DoGo(s, t), t, n - 1)
  }

  lemma SoloStep(s: State, t: nat, n: nat)
    requires Shaped(s) && t < |s.threads| && s.threads[t].phase != Idle && n > 0
    ensures Enabled(s, Go(t)) && Shaped(DoGo(s, t)) && |DoGo(s, t).threads| == |s.threads|
    ensures Solo(s, t, n) == Solo(DoGo(s, t), t, n - 1)
  {
    StepShaped(s, Go(t));
  }

  /** Nothing can keep the thread from finishing alone: it is about to put its value back, or its last
      cell is free, or it is allowed to give up. */
  predicate Unblocked(s: State, t: nat)
    requires t < |s.threads|
  {
    var th := s.threads[t];
    Holds(th, th.first) && th.first <= th.last < |s.cells| &&
    (th.phase.Store? || th.trying || (th.last != th.first && s.cells[th.last] != None))
  }

  lemma StoreFinishes(s: State, t: nat, n: nat)
    requires Shaped(s) && t < |s.threads| && s.threads[t].phase.Store? && n > 0
    ensures Solo(s, t, n).threads[t].phase == Idle
  {
    SoloStep(s, t, n);
  }

  /** A thread whose load of the last cell is current finishes in two steps. */
  lemma CasFinishes(s: State, t: nat, n: nat)
    requires Shaped(s) && t < |s.threads| && Unblocked(s, t) && s.threads[t].phase.Cas2? && n > 1
    requires s.threads[t].trying || s.cells[s.threads[t].last] == Some(s.threads[t].phase.w)
    ensures Solo(s, t, n).threads[t].phase == Idle
  {
    SoloStep(s, t, n);
    StoreFinishes(DoGo(s, t), t, n - 1);
  }

  lemma LoadFinishes(s: State, t: nat, n: nat)
    requires Shaped(s) && t < |s.threads| && Unblocked(s, t) && s.threads[t].phase.Load2? && n > 2
    ensures Solo(s, t, n).threads[t].phase == Idle
  {
    SoloStep(s, t, n);
    if s.cells[s.threads[t].last] == None {
      StoreFinishes(DoGo(s, t), t, n - 1);
    } else {
      CasFinishes(DoGo(s, t), t, n - 1);
    }
  }

  lemma HolderFinishes(s: State, t: nat, n: nat)
    requires Shaped(s) && t < |s.threads| && Unblocked(s, t) && n > 3
    ensures Solo(s, t, n).threads[t].phase == Idle
  {
    var th := s.threads[t];
    if th.phase.Store? {
      StoreFinishes(s, t, n);
    } else if th.phase.Load2? {
      LoadFinishes(s, t, n);
    } else if th.trying || s.cells[th.last] == Some(th.phase.w) {
      CasFinishes(s, t, n);
    } else {
      SoloStep(s, t, n);
      LoadFinishes(DoGo(s, t), t, n - 1);
    }
  }

  /** With all cells free any thread finishes alone. */
  lemma FreeFinishes(s: State, t: nat, n: nat)
    requires Shaped(s) && t < |s.threads| && s.threads[t].phase != Idle && n > 5
    requires forall i :: 0 <= i < |s.cells| ==> s.cells[i] != None
    requires !Holds(s.threads[t], s.threads[t].first)
    requires s.threads[t].trying || s.threads[t].first != s.threads[t].last
    ensures Solo(s, t, n).threads[t].phase == Idle
  {
    SoloStep(s, t, n);
    var s1 := DoGo(s, t);
    if s1.threads[t].phase != Idle {
      if s1.threads[t].phase.Load2? {
        HolderFinishes(s1, t, n - 1);
      } else {
        SoloStep(s1, t, n - 1);
        var s2 := DoGo(s1, t);
        if s2.threads[t].phase.Load2? {
          HolderFinishes(s2, t, n - 2);
        } else {
          SoloStep(s2, t, n - 2);
          LoadFinishes(DoGo(s2, t), t, n - 3);
        }
      }
    }
  }

  /** Thread t is in a call of Swap that was given the same cell twice. */
  predicate IsSelfSwap(s: State, t: nat) {
    t < |s.threads| && s.threads[t].phase != Idle && !s.threads[t].trying && s.threads[t].first == s.threads[t].last
  }

  /** No call of Swap is given the same cell twice. */
  predicate DistinctCells(s: State) {
    forall t :: 0 <= t < |s.threads| && s.threads[t].phase != Idle && !s.threads[t].trying ==>
      s.threads[t].first != s.threads[t].last
  }

  /** Among the threads that hold a cell the one with the highest first cell is not blocked. */
  lemma {:induction false} HighestHolder(s: State, n: nat) returns (t: nat)
    requires n <= |s.threads| && exists u :: 0 <= u < n && Holds(s.threads[u], s.threads[u].first)
    ensures t < n && Holds(s.threads[t], s.threads[t].first)
    ensures forall u :: 0 <= u < n && Holds(s.threads[u], s.threads[u].first) ==>
            s.threads[u].first <= s.threads[t].first
  {
    t := n - 1;
    if exists u :: 0 <= u < n - 1 && Holds(s.threads[u], s.threads[u].first) {
      var k := HighestHolder(s, n - 1);
      if !Holds(s.threads[t], s.threads[t].first) || s.threads[t].first < s.threads[k].first {
        t := k;
      }
    }
  }

  lemma NotHeldIsFree(s: State, i: nat)
    requires Exclusive(s) && i < |s.cells|
    requires forall u :: 0 <= u < |s.threads| ==> !Holds(s.threads[u], i)
    ensures s.cells[i] != None
  {
  }

  lemma AboveIsFree(s: State, t: nat)
    requires Shaped(s) && Exclusive(s) && t < |s.threads| && Holds(s.threads[t], s.threads[t].first)
    requires forall u :: 0 <= u < |s.threads| && Holds(s.threads[u], s.threads[u].first) ==>
             s.threads[u].first <= s.threads[t].first
    ensures s.threads[t].last != s.threads[t].first ==> s.cells[s.threads[t].last] != None
  {
    var i := s.threads[t].last;
    if i != s.threads[t].first {
      forall u | 0 <= u < |s.threads|
        ensures !Holds(s.threads[u], i)
      {
      }
      NotHeldIsFree(s, i);
    }
  }

  /** Deadlock freedom: as long as a call is under way, some thread finishes its call alone within six
      steps, because the cells are always taken in the order of their addresses. */
  lemma SomeThreadFinishes(s: State, init: seq<nat>) returns (t: nat)
    requires Inv(s, init) && DistinctCells(s) && exists u :: 0 <= u < |s.threads| && s.threads[u].phase != Idle
    ensures t < |s.threads| && s.threads[t].phase != Idle && Solo(s, t, 6).threads[t].phase == Idle
  {
    if exists u :: 0 <= u < |s.threads| && Holds(s.threads[u], s.threads[u].first) {
      t := HighestHolder(s, |s.threads|);
      AboveIsFree(s, t);
      HolderFinishes(s, t, 6);
    } else {
      t :| 0 <= t < |s.threads| && s.threads[t].phase != Idle;
      forall i: nat | i < |s.cells|
        ensures s.cells[i] != None
      {
        NotHeldIsFree(s, i);
      }
      FreeFinishes(s, t, 6);
    }
  }

  function Active(ths: seq<Thread>): nat {
    if ths == [] then 0 else Active(ths[..|ths| - 1]) + (if ths[|ths| - 1].phase == Idle then 0 else 1)
  }

  lemma {:induction false} ActiveLess(ths: seq<Thread>, ths': seq<Thread>, t: nat)
    requires |ths'| == |ths| && t < |ths| && ths[t].phase != Idle && ths'[t].phase == Idle
    requires forall u :: 0 <= u < |ths| && u != t ==> ths'[u] == ths[u]
    ensures Active(ths') == Active(ths) - 1
  {
    var n := |ths| - 1;
    if t < n {
      ActiveLess(ths[..n], ths'[..n], t);
    } else {
      assert ths'[..n] == ths[..n];
    }
  }

  lemma {:induction false} SomeActive(ths: seq<Thread>)
    ensures Active(ths) == 0 <==> forall u :: 0 <= u < |ths| ==> ths[u].phase == Idle
  {
    if ths != [] {
      SomeActive(ths[..|ths| - 1]);
    }
  }

  lemma {:induction false} SoloKeeps(s: State, t: nat, n: nat, init: seq<nat>)
    requires Inv(s, init) && DistinctCells(s) && t < |s.threads|
    ensures var s' := Solo(s, t, n);
            && Inv(s', init) && DistinctCells(s') && |s'.threads| == |s.threads|
            && forall u :: 0 <= u < |s.threads| && u != t ==> s'.threads[u] == s.threads[u]
    decreases n
  {
    if n > 0 && s.threads[t].phase != Idle {
      StepShaped(s, Go(t));
      StepInv(s, Go(t), init);
      GoDistinct(s, t);
      SoloKeeps(DoGo(s, t), t, n - 1, init);
    }
  }

  lemma GoDistinct(s: State, t: nat)
    requires Enabled(s, Go(t)) && DistinctCells(s)
    ensures DistinctCells(DoGo(s, t))
  {
  }

  predicate IsOrder(s: State, order: seq<nat>) { forall k :: 0 <= k < |order| ==> order[k] < |s.threads| }

  /** Each thread in turn, alone for six steps. */
  function InTurn(s: State, order: seq<nat>): State
    requires Shaped(s) && IsOrder(s, order)
    decreases |order|
  {
    if order == [] then s
    else
      SoloShaped(s, order[0], 6);
      InTurn(Solo(s, order[0], 6), order[1..])
  }

  lemma {:induction false} SoloShaped(s: State, t: nat, n: nat)
    requires Shaped(s) && t < |s.threads|
    ensures Shaped(Solo(s, t, n))
    decreases n
  {
    if n > 0 && s.threads[t].phase != Idle {
      StepShaped(s, Go(t));
      SoloShaped(DoGo(s, t), t, n - 1);
    }
  }

  /** From every state without a Swap of one cell there is a schedule under which all calls return. */
  lemma {:induction false} AllFinish(s: State, init: seq<nat>) returns (order: seq<nat>)
    requires Inv(s, init) && DistinctCells(s)
    ensures IsOrder(s, order) && Quiet(InTurn(s, order))
    decreases Active(s.threads)
  {
    hide Exclusive, Shows, Accounted, DistinctCells, Solo, Active;
    SomeActive(s.threads);
    if Active(s.threads) == 0 {
      order := [];
    } else {
      var t := SomeThreadFinishes(s, init);
      SoloKeeps(s, t, 6, init);
      ActiveLess(s.threads, Solo(s, t, 6).threads, t);
      var rest := AllFinish(Solo(s, t, 6), init);
      order := [t] + rest;
      assert order[1..] == rest;
    }
  }

  /** A call of Swap with the same cell twice: it has not come further than waiting for its own sentinel
      to disappear. */
  predicate Stuck(s: State, t: nat) {
    IsSelfSwap(s, t) && (s.threads[t].phase.Load1? || s.threads[t].phase.Cas1? || s.threads[t].phase.Load2?)
  }

  lemma StuckForever(s: State, e: Step, init: seq<nat>, t: nat)
    requires Inv(s, init) && Stuck(s, t) && Enabled(s, e)
    ensures Stuck(Apply(s, e), t)
  {
    StepShaped(s, e);
    HolderNone(s, t);
  }

  /** A call of Swap with the same cell twice never returns, whatever the threads do. */
  lemma {:induction false} SelfSwapNeverReturns(
      init: seq<nat>, n: nat, states: seq<State>, steps: seq<Step>, j: nat, k: nat, t: nat, a: nat)
    requires Run(init, n, states, steps) && j < k < |states| && steps[j] == Call(t, false, a, a)
    ensures Stuck(states[k], t) && states[k].threads[t].phase != Idle
    decreases k
  {
    assert Takes(states[k - 1], steps[k - 1], states[k]);
    if j < k - 1 {
      SelfSwapNeverReturns(init, n, states, steps, j, k - 1, t, a);
      RunInv(init, n, states, steps, k - 1);
      StuckForever(states[k - 1], steps[k - 1], init, t);
    }
  }

  /** Every call of Swap with the same cell twice is stuck. */
  predicate SelfSwapsStuck(s: State) {
    forall t :: 0 <= t < |s.threads| && s.threads[t].phase != Idle ==> IsSelfSwap(s, t) ==> Stuck(s, t)
  }

  lemma StepSelfSwaps(s: State, e: Step, init: seq<nat>)
    requires Inv(s, init) && SelfSwapsStuck(s) && Enabled(s, e)
    ensures SelfSwapsStuck(Apply(s, e))
  {
    StepShaped(s, e);
    var s' := Apply(s, e);
    forall t: nat | IsSelfSwap(s', t)
      ensures Stuck(s', t)
    {
      if t != e.t {
        assert s'.threads[t] == s.threads[t];
      } else if e.Go? {
        StuckForever(s, e, init, t);
      }
    }
  }

  lemma {:induction false} RunSelfSwaps(init: seq<nat>, n: nat, states: seq<State>, steps: seq<Step>, k: nat)
    requires Run(init, n, states, steps) && k < |states|
    ensures SelfSwapsStuck(states[k])
  {
    if k > 0 {
      RunSelfSwaps(init, n, states, steps, k - 1);
      RunInv(init, n, states, steps, k - 1);
      assert Takes(states[k - 1], steps[k - 1], states[k]);
      StepSelfSwaps(states[k - 1], steps[k - 1], init);
    }
  }

  lemma {:induction false} SoloStuck(s: State, u: nat, n: nat, init: seq<nat>, t: nat)
    requires Inv(s, init) && u < |s.threads| && Stuck(s, t)
    ensures Inv(Solo(s, u, n), init) && Stuck(Solo(s, u, n), t)
    decreases n
  {
    if n > 0 && s.threads[u].phase != Idle {
      StepShaped(s, Go(u));
      StepInv(s, Go(u), init);
      StuckForever(s, Go(u), init, t);
      SoloStuck(DoGo(s, u), u, n - 1, init, t);
    }
  }

  lemma {:induction false} InTurnStuck(s: State, order: seq<nat>, init: seq<nat>, t: nat)
    requires Inv(s, init) && Stuck(s, t) && IsOrder(s, order)
    ensures Stuck(InTurn(s, order), t)
    decreases |order|
  {
    hide Stuck, Solo, Exclusive, Shows, Accounted;
    if order != [] {
      SoloStuck(s, order[0], 6, init, t);
      InTurnStuck(Solo(s, order[0], 6), order[1..], init, t);
    }
  }

  ghost predicate SomeOrderFinishes(s: State)
    requires Shaped(s)
  {
    exists order: seq<nat> :: IsOrder(s, order) && Quiet(InTurn(s, order))
  }

  /** From a state of a run there is a schedule under which all calls return exactly if no Swap under way
      was given the same cell twice. */
  lemma AllFinishIff(init: seq<nat>, n: nat, states: seq<State>, steps: seq<Step>, k: nat)
    requires Run(init, n, states, steps) && k < |states|
    ensures Shaped(states[k]) && (SomeOrderFinishes(states[k]) <==> DistinctCells(states[k]))
  {
    hide Exclusive, Shows, Accounted, Solo, InTurn;
    var s := states[k];
    RunInv(init, n, states, steps, k);
    RunSelfSwaps(init, n, states, steps, k);
    if DistinctCells(s) {
      var order := AllFinish(s, init);
      assert IsOrder(s, order) && Quiet(InTurn(s, order));
    } else {
      var t: nat :| IsSelfSwap(s, t);
      forall order: seq<nat> | IsOrder(s, order)
        ensures !Quiet(InTurn(s, order))
      {
        InTurnStuck(s, order, init, t);
      }
    }
  }

  /** One thread that swaps a cell with itself is enough: no schedule brings its call to an end. */
  lemma SelfSwapExample(v: nat)
    ensures var s := Init([v], 1);
            var e := Call(0, false, 0, 0);
            && Enabled(s, e) && Run([v], 1, [s, Apply(s, e)], [e])
            && Shaped(Apply(s, e)) && !SomeOrderFinishes(Apply(s, e))
  {
    hide SomeOrderFinishes;
    var s := Init([v], 1);
    var e := Call(0, false, 0, 0);
    var states, steps := [s, Apply(s, e)], [e];
    assert Takes(states[0], steps[0], states[1]);
    AllFinishIff([v], 1, states, steps, 1);
    assert IsSelfSwap(states[1], 0) && states[1].threads[0].phase != Idle;
  }
}
