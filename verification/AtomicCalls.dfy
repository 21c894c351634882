/** What a single call of Swap or TrySwap does: to which cells, how often, and what it returns. */
module AtomicCalls {
  import opened Chunks
  import opened AtomicSwap

  /** The effects and the returns of one thread. */
  function EffectsBy(log: seq<Effect>, t: nat): seq<Effect> {
    if log == [] then []
    else EffectsBy(log[..|log| - 1], t) + (if log[|log| - 1].t == t then [log[|log| - 1]] else [])
  }

  function ReturnsBy(rs: seq<Return>, t: nat): seq<Return> {
    if rs == [] then [] else ReturnsBy(rs[..|rs| - 1], t) + (if rs[|rs| - 1].t == t then [rs[|rs| - 1]] else [])
  }

  lemma EffectsMoreBy(log: seq<Effect>, e: Effect, t: nat)
    ensures EffectsBy(log + [e], t) == EffectsBy(log, t) + (if e.t == t then [e] else [])
  {
    assert (log + [e])[..|log|] == log;
  }

  lemma ReturnsMoreBy(rs: seq<Return>, r: Return, t: nat)
    ensures ReturnsBy(rs + [r], t) == ReturnsBy(rs, t) + (if r.t == t then [r] else [])
  {
    assert (rs + [r])[..|rs|] == rs;
  }

  /** The thread is about to return true. */
  predicate Succeeds(th: Thread) { th.phase.Store? && th.phase.ok }

  /** The call that thread t made in state s0 has come this far in state s, with these effects: on its two
      cells and no others, at most once, and exactly if it returns or will return true. */
  ghost predicate CallSoFar(s0: State, s: State, call: Step, effects: seq<Effect>)
    requires call.Call? && call.t < |s.threads|
  {
    var t, th := call.t, s.threads[call.t];
    && EffectsBy(s.log, t) == EffectsBy(s0.log, t) + effects
    && (effects == [] || effects == [Effect(t, call.a, call.b)] || effects == [Effect(t, call.b, call.a)])
    && ReturnsBy(s.done, t) == ReturnsBy(s0.done, t) +
         (if th.phase == Idle then [Return(t, call.trying, effects != [])] else [])
    && (th.phase != Idle ==> (effects != [] <==> Succeeds(th)))
  }

  /** The thread still works on the cells of its call. */
  predicate OnCells(th: Thread, call: Step)
    requires call.Call?
  {
    th.trying == call.trying && ((th.first == call.a && th.last == call.b) || (th.first == call.b && th.last == call.a))
  }

  lemma CallBegins(s0: State, call: Step)
    requires call.Call? && Enabled(s0, call)
    ensures CallSoFar(s0, Apply(s0, call), call, []) && OnCells(Apply(s0, call).threads[call.t], call)
  {
  }

  /** A step records only what its own thread does. */
  lemma StepRecords(s: State, e: Step, u: nat)
    requires Enabled(s, e) && u < |s.threads| && u != e.t
    ensures var s' := Apply(s, e);
            && |s'.threads| == |s.threads| && s'.threads[u] == s.threads[u]
            && EffectsBy(s'.log, u) == EffectsBy(s.log, u) && ReturnsBy(s'.done, u) == ReturnsBy(s.done, u)
  {
    hide EffectsBy, ReturnsBy;
    if e.Go? {
      var th := s.threads[e.t];
      EffectsMoreBy(s.log, Effect(e.t, th.first, th.last), u);
      ReturnsMoreBy(s.done, Return(e.t, th.trying, true), u);
      ReturnsMoreBy(s.done, Return(e.t, th.trying, false), u);
    }
  }

  /** Steps of other threads do not touch the call. */
  lemma OthersStep(s0: State, s: State, call: Step, effects: seq<Effect>, e: Step)
    requires call.Call? && call.t < |s.threads| && Enabled(s, e) && e.t != call.t
    requires CallSoFar(s0, s, call, effects) && OnCells(s.threads[call.t], call)
    ensures |Apply(s, e).threads| == |s.threads|
    ensures CallSoFar(s0, Apply(s, e), call, effects) && OnCells(Apply(s, e).threads[call.t], call)
  {
    hide EffectsBy, ReturnsBy, Apply, Enabled;
    StepRecords(s, e, call.t);
  }

  /** What one access of a thread records: an effect when its second compare-and-swap succeeds, a return
      when it becomes idle. */
  lemma OwnRecords(s: State, t: nat)
    requires Enabled(s, Go(t))
    ensures var s', th := DoGo(s, t), s.threads[t];
            && |s'.threads| == |s.threads| && s'.threads[t] == th.(phase := s'.threads[t].phase)
            && s'.log == s.log + (if EntersStore(s, t) then [Effect(t, th.first, th.last)] else [])
            && s'.done == s.done + (if s'.threads[t].phase == Idle then [Return(t, th.trying, Succeeds(th))] else [])
            && (Succeeds(th) ==> s'.threads[t].phase == Idle)
            && (Succeeds(s'.threads[t]) <==> EntersStore(s, t)) && (EntersStore(s, t) ==> !Succeeds(th))
  {
  }

  predicate EntersStore(s: State, t: nat)
    requires Enabled(s, Go(t))
  {
    s.threads[t].phase.Cas2? && s.cells[s.threads[t].last] == Some(s.threads[t].phase.w)
  }

  /** The cells of the call stay the same, and what is recorded concerns them. */
  lemma OwnStep(s0: State, s: State, call: Step, effects: seq<Effect>) returns (effects': seq<Effect>)
    requires call.Call? && call.t < |s.threads| && Enabled(s, Go(call.t))
    requires CallSoFar(s0, s, call, effects) && OnCells(s.threads[call.t], call)
    ensures |DoGo(s, call.t).threads| == |s.threads|
    ensures CallSoFar(s0, DoGo(s, call.t), call, effects') && OnCells(DoGo(s, call.t).threads[call.t], call)
  {
    hide EffectsBy, ReturnsBy, DoGo;
    var t, th := call.t, s.threads[call.t];
    OwnRecords(s, t);
    IsBusy(s, t);
    var s' := DoGo(s, t);
    var e, r := Effect(t, th.first, th.last), Return(t, th.trying, Succeeds(th));
    EffectsMoreBy(s.log, e, t);
    ReturnsMoreBy(s.done, r, t);
    effects' := if EntersStore(s, t) then [e] else effects;
    assert s.log + [] == s.log && s.done + [] == s.done;
  }

  lemma IsBusy(s: State, t: nat)
    requires Enabled(s, Go(t))
    ensures s.threads[t].phase != Idle
  {
  }

  /** In every run: from a call of Swap or TrySwap to the next call of the same thread, the thread has at
      most one effect, which exchanges the two cells of the call, and if the call has returned, then it is
      the one return of the thread in between, and it is true exactly if there was the effect. */
  lemma {:induction false} CallOnItsCells(
      init: seq<nat>, n: nat, states: seq<State>, steps: seq<Step>, j: nat, k: nat) returns (effects: seq<Effect>)
    requires Run(init, n, states, steps) && j < k < |states| && steps[j].Call?
    requires forall i :: j < i < k ==> !(steps[i].Call? && steps[i].t == steps[j].t)
    ensures steps[j].t < |states[k].threads|
    ensures CallSoFar(states[j], states[k], steps[j], effects)
    ensures OnCells(states[k].threads[steps[j].t], steps[j])
    decreases k
  {
    hide CallSoFar, OnCells, Enabled, Apply;
    assert Takes(states[k - 1], steps[k - 1], states[k]);
    if j == k - 1 {
      effects := [];
      CallBegins(states[j], steps[j]);
      CallEnabled(states[j], steps[j]);
    } else {
      var before := CallOnItsCells(init, n, states, steps, j, k - 1);
      if steps[k - 1].t != steps[j].t {
        effects := before;
        OthersStep(states[j], states[k - 1], steps[j], before, steps[k - 1]);
      } else {
        effects := OwnStep(states[j], states[k - 1], steps[j], before);
        GoIs(states[k - 1], steps[k - 1]);
      }
    }
  }

  lemma CallEnabled(s: State, call: Step)
    requires Enabled(s, call) && call.Call?
    ensures call.t < |Apply(s, call).threads|
  {
  }

  lemma GoIs(s: State, e: Step)
    requires Enabled(s, e) && e.Go?
    ensures Apply(s, e) == DoGo(s, e.t)
  {
  }

  /** With all cells free a call has taken the value of its first cell after two accesses. */
  lemma TakesFirst(s: State, t: nat, v: nat)
    requires Shaped(s) && Enabled(s, Go(t)) && s.threads[t].phase.Load1? && s.cells[s.threads[t].first] == Some(v)
    ensures var th := s.threads[t];
            var s' := s.(cells := s.cells[th.first := None], threads := s.threads[t := th.(phase := Load2(v))]);
            Shaped(s') && Solo(s, t, 6) == Solo(s', t, 4)
  {
    hide Solo;
    SoloStep(s, t, 6);
    var s1 := DoGo(s, t);
    SoloStep(s1, t, 5);
    assert DoGo(s1, t).threads == s.threads[t := s.threads[t].(phase := Load2(v))];
  }

  /** Then it exchanges the values, if the last cell is free. */
  lemma PutsLast(s: State, t: nat, w: nat)
    requires Shaped(s) && Enabled(s, Go(t)) && s.threads[t].phase.Load2? && s.cells[s.threads[t].last] == Some(w)
    ensures var th, s' := s.threads[t], Solo(s, t, 4);
            && s'.threads == s.threads[t := th.(phase := Idle)]
            && s'.cells == s.cells[th.last := Some(th.phase.vf)][th.first := Some(w)]
            && s'.done == s.done + [Return(t, th.trying, true)]
  {
    hide Solo;
    SoloStep(s, t, 4);
    SoloStep(DoGo(s, t), t, 3);
    var s2 := DoGo(DoGo(s, t), t);
    SoloStep(s2, t, 2);
    SoloIdle(DoGo(s2, t), t, 1);
  }

  /** Or it puts back what it has taken, if it only tries. */
  lemma GivesBack(s: State, t: nat)
    requires Shaped(s) && Enabled(s, Go(t)) && s.threads[t].phase.Load2? && s.cells[s.threads[t].last] == None
    requires s.threads[t].trying
    ensures var th, s' := s.threads[t], Solo(s, t, 4);
            && s'.threads == s.threads[t := th.(phase := Idle)]
            && s'.cells == s.cells[th.first := Some(th.phase.vf)]
            && s'.done == s.done + [Return(t, true, false)]
  {
    hide Solo;
    SoloStep(s, t, 4);
    SoloStep(DoGo(s, t), t, 3);
    SoloIdle(DoGo(DoGo(s, t), t), t, 2);
  }

  lemma SoloIdle(s: State, t: nat, n: nat)
    requires Shaped(s) && t < |s.threads| && s.threads[t].phase == Idle
    ensures Solo(s, t, n) == s
  {
  }

  lemma AllFree(s: State, init: seq<nat>)
    requires Inv(s, init) && Quiet(s)
    ensures Shaped(s) && forall i :: 0 <= i < |s.cells| ==> s.cells[i] != None
  {
    hide Shows, Accounted, Replay;
    forall i: nat | i < |s.cells|
      ensures s.cells[i] != None
    {
      NoneHeld(s, i);
    }
  }

  /** A call alone, when no other is under way: on two different cells it exchanges their values and
      returns true, and TrySwap on one cell leaves it as it was and returns false. */
  lemma AloneInTurn(s: State, init: seq<nat>, call: Step)
    requires Inv(s, init) && Quiet(s) && call.Call? && Enabled(s, call) && (call.a != call.b || call.trying)
    ensures Shaped(Apply(s, call)) && call.t < |Apply(s, call).threads|
    ensures var s' := Solo(Apply(s, call), call.t, 6);
            && Quiet(s') && s'.cells == s.cells[call.a := s.cells[call.b]][call.b := s.cells[call.a]]
            && s'.done == s.done + [Return(call.t, call.trying, call.a != call.b)]
  {
    hide Inv, Solo, Shaped;
    AllFree(s, init);
    StepShaped(s, call);
    var t, s1 := call.t, Apply(s, call);
    var th := s1.threads[t];
    var v := s1.cells[th.first].value;
    TakesFirst(s1, t, v);
    var s2 := s1.(cells := s1.cells[th.first := None], threads := s1.threads[t := th.(phase := Load2(v))]);
    if call.a != call.b {
      PutsLast(s2, t, s2.cells[th.last].value);
    } else {
      GivesBack(s2, t);
    }
  }
}
