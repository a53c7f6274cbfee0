/**
 The directory watcher as a concurrent protocol: an event loop re-arms one timer, an expired
 timer starts a goroutine that checks the stop flag and then calls `onChange`, and stopping
 may come at any moment in between.
 */
module Watcher {
  import opened Wrappers
  import opened Engine

  /** 500 milliseconds. */
  const DEBOUNCE := SECOND / 2

  /**
   The shared state, with the fire goroutines counted by how far they are, and a history:
   the events handled, the calls made, whether an event was handled since the last call began,
   and the bursts of events no `DEBOUNCE` apart.
   */
  datatype State = State(
    now: int,
    timer: Option<int>,
    stopped: bool,
    looping: bool,
    starting: nat,
    passed: nat,
    handled: nat,
    calls: nat,
    lastEvent: Option<int>,
    dirty: bool,
    expiries: nat,
    bursts: nat)

  const INITIAL := State(0, None, false, true, 0, 0, 0, 0, None, false, 0, 0)

  datatype Action =
    | Tick(d: nat)                           // time passes
    | Event(changes: bool, isYaml: bool)     // the loop receives a file event
    | Expire                                 // the timer expires and starts a fire goroutine
    | Check                                  // a fire goroutine looks at the stop flag
    | Call                                   // a fire goroutine begins onChange
    | Stop                                   // the stop function
    | Cancel                                 // the loop sees the context cancelled

  predicate Handles(s: State, a: Action) {
    a.Event? && s.looping && a.changes && a.isYaml
  }

  /** One atomic step; an action that is not possible changes nothing. */
  function Next(s: State, a: Action): State {
    match a
    case Tick(d) => s.(now := s.now + d)
    case Event(_, _) =>
      if !Handles(s, a) then s
      else
        var newBurst := s.lastEvent.None? || s.now - s.lastEvent.value >= DEBOUNCE;
        s.(timer := Some(s.now + DEBOUNCE), handled := s.handled + 1, lastEvent := Some(s.now), dirty := true,
           bursts := if newBurst then s.bursts + 1 else s.bursts)
    case Expire =>
      if s.timer.Some? && s.timer.value <= s.now then
        s.(timer := None, starting := s.starting + 1, expiries := s.expiries + 1)
      else s
    case Check =>
      if s.starting == 0 then s
      else if s.stopped then s.(starting := s.starting - 1)
      else s.(starting := s.starting - 1, passed := s.passed + 1)
    case Call =>
      if s.passed == 0 then s
      else s.(passed := s.passed - 1, calls := s.calls + 1, dirty := false)
    case Stop => s.(stopped := true)
    case Cancel => if s.looping then s.(stopped := true, looping := false) else s
  }

  function After(s: State, actions: seq<Action>): State {
    if actions == [] then s else
    Next(After(s, actions[..|actions| - 1]), actions[|actions| - 1])
  }

  lemma AfterOne(s: State, actions: seq<Action>, a: Action)
    ensures After(s, actions + [a]) == Next(After(s, actions), a)
  {
    assert (actions + [a])[..|actions|] == actions;
  }

  function Armed(s: State): nat {
    if s.timer.Some? then 1 else 0
  }

  /** What every reachable state satisfies. */
  ghost predicate Invariant(s: State) {
    // an update not yet taken up has a timer set for it, or a goroutine on its way
    && (!s.stopped && s.dirty ==> s.timer.Some? || s.starting + s.passed > 0)
    && (s.dirty ==> s.lastEvent.Some?)
    // the timer always counts from the latest event
    && (s.timer.Some? ==> s.lastEvent.Some? && s.timer.value == s.lastEvent.value + DEBOUNCE)
    && (s.lastEvent.Some? ==> s.lastEvent.value <= s.now)
    && (s.timer.None? && s.lastEvent.Some? ==> s.lastEvent.value + DEBOUNCE <= s.now)
    // each burst ends in at most one expiry, each expiry in at most one call
    && s.calls + s.passed + s.starting <= s.expiries
    && s.expiries + Armed(s) <= s.bursts
    && s.bursts <= s.handled
    && (s.lastEvent.None? ==> s.bursts == 0)
  }

  lemma InvariantStep(s: State, a: Action)
    requires Invariant(s)
    ensures Invariant(Next(s, a))
  {
  }

  lemma {:induction false} InvariantKept(s: State, more: seq<Action>)
    requires Invariant(s)
    ensures Invariant(After(s, more))
  {
    if more == [] {
    } else {
      var n := |more| - 1;
      InvariantKept(s, more[..n]);
      InvariantStep(After(s, more[..n]), more[n]);
    }
  }

  lemma Reachable(actions: seq<Action>)
    ensures Invariant(After(INITIAL, actions))
  {
    InvariantKept(INITIAL, actions);
  }

  /**
   No update is lost: in every reachable state that is not stopped, an event handled since the
   last call began has a timer armed for half a second after the latest event, or a fire
   goroutine that has yet to call.
   */
  lemma NoUpdateLost(actions: seq<Action>)
    ensures var s := After(INITIAL, actions);
      !s.stopped && s.dirty ==>
        || (s.timer.Some? && s.lastEvent.Some? && s.timer == Some(s.lastEvent.value + 500_000_000))
        || s.starting + s.passed > 0
  {
    Reachable(actions);
  }

  // ---- The state told from the actions ----

  predicate Cancelled(actions: seq<Action>) {
    exists i :: 0 <= i < |actions| && actions[i].Cancel?
  }

  predicate Halted(actions: seq<Action>) {
    exists i :: 0 <= i < |actions| && (actions[i].Stop? || actions[i].Cancel?)
  }

  /** A yaml file changes while the loop still runs. */
  predicate Heard(before: seq<Action>, a: Action) {
    a == Event(true, true) && !Cancelled(before)
  }

  /** When each such change is received. */
  function HeardTimes(actions: seq<Action>): seq<int> {
    if actions == [] then [] else
    var n := |actions| - 1;
    HeardTimes(actions[..n]) + if Heard(actions[..n], actions[n]) then [Elapsed(actions[..n])] else []
  }

  /** The bursts the changes come in: a new one begins after half a second without a change. */
  function Bursts(times: seq<int>): nat {
    if times == [] then 0 else
    var n := |times| - 1;
    Bursts(times[..n]) + if n == 0 || times[n] - times[n - 1] >= 500_000_000 then 1 else 0
  }

  /** The clock, the flags and the history of a state are what the actions made them. */
  ghost predicate Recounts(s: State, actions: seq<Action>) {
    && s.now == Elapsed(actions)
    && (s.looping <==> !Cancelled(actions))
    && (s.stopped <==> Halted(actions))
    && CountsChanges(s, HeardTimes(actions))
  }

  ghost predicate CountsChanges(s: State, times: seq<int>) {
    && s.handled == |times| && s.bursts == Bursts(times)
    && s.lastEvent == if times == [] then None else Some(times[|times| - 1])
  }

  lemma FlagsOneMore(actions: seq<Action>, a: Action)
    ensures Cancelled(actions + [a]) <==> Cancelled(actions) || a.Cancel?
    ensures Halted(actions + [a]) <==> Halted(actions) || a.Stop? || a.Cancel?
    ensures Cancelled(actions) ==> Halted(actions)
  {
    var all := actions + [a];
    assert all[|actions|] == a;
    assert forall i :: 0 <= i < |actions| ==> all[i] == actions[i];
  }

  lemma TimesOneMore(actions: seq<Action>, a: Action)
    ensures HeardTimes(actions + [a]) ==
      HeardTimes(actions) + if Heard(actions, a) then [Elapsed(actions)] else []
  {
    assert (actions + [a])[..|actions|] == actions;
  }

  lemma BurstsOneMore(times: seq<int>, t: int)
    ensures Bursts(times + [t]) ==
      Bursts(times) + if times == [] || t - times[|times| - 1] >= 500_000_000 then 1 else 0
  {
    assert (times + [t])[..|times|] == times;
  }

  lemma NextChanges(s: State, a: Action)
    ensures var s' := Next(s, a);
      if Handles(s, a) then
        && s'.handled == s.handled + 1 && s'.lastEvent == Some(s.now)
        && s'.bursts == s.bursts +
             if s.lastEvent.None? || s.now - s.lastEvent.value >= 500_000_000 then 1 else 0
      else s'.handled == s.handled && s'.lastEvent == s.lastEvent && s'.bursts == s.bursts
  {
  }

  lemma ChangesStep(s: State, actions: seq<Action>, a: Action)
    requires CountsChanges(s, HeardTimes(actions)) && s.now == Elapsed(actions) && (s.looping <==> !Cancelled(actions))
    ensures CountsChanges(Next(s, a), HeardTimes(actions + [a]))
  {
    var times := HeardTimes(actions);
    NextChanges(s, a);
    TimesOneMore(actions, a);
    assert Handles(s, a) <==> Heard(actions, a);
    hide Next, Cancelled, HeardTimes, Elapsed, Heard, Handles;
    if Heard(actions, a) {
      BurstsOneMore(times, s.now);
    } else {
      assert HeardTimes(actions + [a]) == times;
    }
    hide Bursts;
  }

  lemma RecountStep(s: State, actions: seq<Action>, a: Action)
    requires Recounts(s, actions)
    ensures Recounts(Next(s, a), actions + [a])
  {
    ChangesStep(s, actions, a);
    FlagsOneMore(actions, a);
    ElapsedOne(actions, a);
    hide Cancelled, Halted, HeardTimes, CountsChanges, Elapsed;
  }

  /** In particular a stop or a cancellation is for good. */
  lemma {:induction false} StateRecounted(actions: seq<Action>)
    ensures Recounts(After(INITIAL, actions), actions)
  {
    if actions == [] {
    } else {
      var n := |actions| - 1;
      StateRecounted(actions[..n]);
      RecountStep(After(INITIAL, actions[..n]), actions[..n], actions[n]);
      assert actions[..n] + [actions[n]] == actions;
    }
  }

  /** Until cancelled, every change of a yaml file arms the timer anew; nothing else the loop hears does anything. */
  lemma ChangeArmsTimer(actions: seq<Action>, changes: bool, isYaml: bool)
    ensures var e, s := Event(changes, isYaml), After(INITIAL, actions);
      var s' := After(INITIAL, actions + [e]);
      if changes && isYaml && !Cancelled(actions) then
        && s'.timer == Some(s.now + 500_000_000) && s'.lastEvent == Some(s.now)
        && s'.dirty && s'.handled == s.handled + 1
      else s' == s
  {
    StateRecounted(actions);
    AfterOne(INITIAL, actions, Event(changes, isYaml));
  }

  /** A burst of changes less than half a second apart leads to one call at most. */
  lemma OneCallPerBurst(actions: seq<Action>)
    ensures After(INITIAL, actions).calls <= Bursts(HeardTimes(actions)) <= |HeardTimes(actions)|
  {
    Reachable(actions);
    StateRecounted(actions);
  }

  /** Neither an event nor a stop. */
  predicate Internal(a: Action) {
    a.Tick? || a.Expire? || a.Check? || a.Call?
  }

  function Elapsed(actions: seq<Action>): nat {
    if actions == [] then 0 else
    var a := actions[|actions| - 1];
    Elapsed(actions[..|actions| - 1]) + if a.Tick? then a.d else 0
  }

  lemma ElapsedOne(actions: seq<Action>, a: Action)
    ensures Elapsed(actions + [a]) == Elapsed(actions) + if a.Tick? then a.d else 0
  {
    assert (actions + [a])[..|actions|] == actions;
  }

  /** Time left until half a second after the latest event. */
  function Remaining(s: State): nat {
    if s.lastEvent.Some? && s.lastEvent.value + DEBOUNCE > s.now then s.lastEvent.value + DEBOUNCE - s.now else 0
  }

  /** With no event and no stop, `more` leads to the next call within the remaining time. */
  ghost predicate Delivers(s: State, more: seq<Action>) {
    && (forall i :: 0 <= i < |more| ==> Internal(more[i]))
    && After(s, more).calls == s.calls + 1 && !After(s, more).dirty
    && Elapsed(more) <= Remaining(s)
  }

  /**
   A pending update can always be delivered: with no further event and no stop, waiting no
   longer than until half a second after the latest event, `onChange` begins.
   */
  lemma UpdateCanBeDelivered(actions: seq<Action>) returns (more: seq<Action>)
    requires !After(INITIAL, actions).stopped && After(INITIAL, actions).dirty
    ensures Delivers(After(INITIAL, actions), more)
  {
    var s := After(INITIAL, actions);
    Reachable(actions);
    if s.passed > 0 {
      more := FinishPassed(s);
    } else if s.starting > 0 {
      more := FinishStarting(s);
    } else {
      more := FullFiring(s);
    }
  }

  lemma FinishPassed(s: State) returns (more: seq<Action>)
    requires s.passed > 0
    ensures Delivers(s, more)
  {
    AfterOne(s, [], Call);
    ElapsedOne([], Call);
    more := [] + [Call];
  }

  lemma FinishStarting(s: State) returns (more: seq<Action>)
    requires s.starting > 0 && !s.stopped
    ensures Delivers(s, more)
  {
    AfterOne(s, [], Check);
    ElapsedOne([], Check);
    AfterOne(s, [] + [Check], Call);
    ElapsedOne([] + [Check], Call);
    more := [] + [Check] + [Call];
  }

  lemma FullFiring(s: State) returns (more: seq<Action>)
    requires Invariant(s) && !s.stopped && s.timer.Some?
    ensures Delivers(s, more)
  {
    var wait := Tick(Remaining(s));
    AfterOne(s, [], wait);
    ElapsedOne([], wait);
    AfterOne(s, [] + [wait], Expire);
    ElapsedOne([] + [wait], Expire);
    AfterOne(s, [] + [wait] + [Expire], Check);
    ElapsedOne([] + [wait] + [Expire], Check);
    AfterOne(s, [] + [wait] + [Expire] + [Check], Call);
    ElapsedOne([] + [wait] + [Expire] + [Check], Call);
    more := [] + [wait] + [Expire] + [Check] + [Call];
  }

  /** No timer is armed and no goroutine is on its way. */
  predicate AtRest(s: State) {
    s.timer.None? && s.starting == 0 && s.passed == 0
  }

  /** Nothing pending at `from` has been taken up without a call. */
  predicate PendingOrCalled(from: State, to: State) {
    !to.stopped && to.calls >= from.calls && (to.dirty || to.calls > from.calls)
  }

  lemma PendingStep(from: State, to: State, a: Action)
    requires PendingOrCalled(from, to) && Internal(a)
    ensures PendingOrCalled(from, Next(to, a))
  {
  }

  lemma {:induction false} InternalKeepsPending(s: State, more: seq<Action>)
    requires !s.stopped && s.dirty
    requires forall i :: 0 <= i < |more| ==> Internal(more[i])
    ensures PendingOrCalled(s, After(s, more))
  {
    if more == [] {
    } else {
      var n := |more| - 1;
      InternalKeepsPending(s, more[..n]);
      PendingStep(s, After(s, more[..n]), more[n]);
    }
  }

  /**
   And it always is: however timer and goroutines go on from a pending update, with no further
   event and no stop, once they have come to rest `onChange` has begun and nothing is pending.
   */
  lemma {:induction false} RestMeansDelivered(actions: seq<Action>, more: seq<Action>)
    requires !After(INITIAL, actions).stopped && After(INITIAL, actions).dirty
    requires forall i :: 0 <= i < |more| ==> Internal(more[i])
    requires AtRest(After(After(INITIAL, actions), more))
    ensures var s, s' := After(INITIAL, actions), After(After(INITIAL, actions), more);
      s'.calls > s.calls && !s'.dirty
  {
    var s := After(INITIAL, actions);
    Reachable(actions);
    InvariantKept(s, more);
    InternalKeepsPending(s, more);
  }

  // ---- After stop ----

  /** Calls made and calls still to come: all that is left of `from` in the stopped state `to`. */
  predicate OnlyPassed(from: State, to: State) {
    to.stopped && to.calls + to.passed == from.calls + from.passed
  }

  lemma StoppedStep(from: State, to: State, a: Action)
    requires OnlyPassed(from, to)
    ensures OnlyPassed(from, Next(to, a))
  {
  }

  /** After a stop only goroutines already past the flag check can still call, each at most once. */
  lemma {:induction false} StopLeavesOnlyPassed(s: State, actions: seq<Action>)
    requires s.stopped
    ensures OnlyPassed(s, After(s, actions))
  {
    if actions == [] {
    } else {
      var n := |actions| - 1;
      StopLeavesOnlyPassed(s, actions[..n]);
      StoppedStep(s, After(s, actions[..n]), actions[n]);
    }
  }

  /** After a stop or a cancellation the state is stopped for good, and nobody passes the check any more. */
  lemma StopIsFinal(before: seq<Action>, a: Action, more: seq<Action>)
    requires a.Stop? || a.Cancel?
    ensures var s := After(INITIAL, before);
      var s' := After(After(INITIAL, before + [a]), more);
      s'.stopped && s'.calls + s'.passed == s.calls + s.passed
  {
    var s := After(INITIAL, before);
    AfterOne(INITIAL, before, a);
    StateRecounted(before);
    StateRecounted(before + [a]);
    FlagsOneMore(before, a);
    StopLeavesOnlyPassed(Next(s, a), more);
  }

  /** So a call after the stop is possible exactly when some goroutine had passed the check. */
  lemma CallAfterStopIff(s: State)
    requires s.stopped
    ensures (exists actions :: After(s, actions).calls > s.calls) <==> s.passed > 0
  {
    if s.passed > 0 {
      AfterOne(s, [], Call);
      assert After(s, [] + [Call]).calls > s.calls;
    }
    forall actions | After(s, actions).calls > s.calls ensures s.passed > 0 {
      StopLeavesOnlyPassed(s, actions);
    }
  }

  /** Which does happen: the flag check and the call are not one step. */
  lemma CallAfterStopHappens() returns (before: seq<Action>)
    ensures var s := After(INITIAL, before);
      s.stopped && s.calls == 0 && After(INITIAL, before + [Call]).calls == 1
  {
    var e := Event(true, true);
    AfterOne(INITIAL, [], e);
    AfterOne(INITIAL, [] + [e], Tick(DEBOUNCE));
    AfterOne(INITIAL, [] + [e] + [Tick(DEBOUNCE)], Expire);
    AfterOne(INITIAL, [] + [e] + [Tick(DEBOUNCE)] + [Expire], Check);
    AfterOne(INITIAL, [] + [e] + [Tick(DEBOUNCE)] + [Expire] + [Check], Stop);
    before := [] + [e] + [Tick(DEBOUNCE)] + [Expire] + [Check] + [Stop];
    AfterOne(INITIAL, before, Call);
  }
}
