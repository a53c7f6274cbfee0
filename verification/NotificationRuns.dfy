/** Properties of every run of the notification step between two restarts of the daemon. */
module NotificationRuns {
  import opened Wrappers
  import opened Forecasting
  import opened Notification

  /** A run of one sensor's turns: its final view, and what each turn did. */
  function Run(gate: bool, v: View, events: seq<Event>): (View, seq<Outcome>) {
    if events == [] then (v, []) else
    var k := |events| - 1;
    var (before, outcomes) := Run(gate, v, events[..k]);
    var (after, o) := SensorStep(gate, before, events[k]);
    (after, outcomes + [o])
  }

  // ---- Sensors do not interfere ----

  function TurnsOf(events: seq<Event>, id: string): seq<Event> {
    if events == [] then [] else
    var k := |events| - 1;
    TurnsOf(events[..k], id) + if events[k].id == id then [events[k]] else []
  }

  function LogOf(log: seq<(string, Outcome)>, id: string): seq<Outcome> {
    if log == [] then [] else
    var k := |log| - 1;
    LogOf(log[..k], id) + if log[k].0 == id then [log[k].1] else []
  }

  lemma StepView(gate: bool, w: World, e: Event, id: string)
    ensures ViewOf(WorldStep(gate, w, e), id) ==
      if id == e.id then SensorStep(gate, ViewOf(w, id), e).0 else ViewOf(w, id)
    ensures LogOf(WorldStep(gate, w, e).log, id) ==
      LogOf(w.log, id) + if id == e.id then [SensorStep(gate, ViewOf(w, id), e).1] else []
  {
    var log := WorldStep(gate, w, e).log;
    assert log[..|log| - 1] == w.log;
  }

  /** A run and one turn more. */
  function Longer(gate: bool, run: (View, seq<Outcome>), e: Event): (View, seq<Outcome>) {
    (SensorStep(gate, run.0, e).0, run.1 + [SensorStep(gate, run.0, e).1])
  }

  lemma RunLast(gate: bool, v: View, events: seq<Event>)
    requires events != []
    ensures Run(gate, v, events) == Longer(gate, Run(gate, v, events[..|events| - 1]), events[|events| - 1])
  {
  }

  lemma RunStep(gate: bool, v: View, events: seq<Event>, e: Event)
    ensures Run(gate, v, events + [e]) == Longer(gate, Run(gate, v, events), e)
  {
    assert (events + [e])[..|events|] == events;
  }

  /** In the interleaved run of all sensors, each fares as in a run of its own turns alone. */
  lemma {:induction false} SensorsIndependent(gate: bool, events: seq<Event>, id: string)
    ensures var w := WorldAfter(gate, START, events);
      (ViewOf(w, id), LogOf(w.log, id)) == Run(gate, NEW, TurnsOf(events, id))
  {
    if events == [] {
    } else {
      var k := |events| - 1;
      SensorsIndependent(gate, events[..k], id);
      StepView(gate, WorldAfter(gate, START, events[..k]), events[k], id);
      RunStep(gate, NEW, TurnsOf(events[..k], id), events[k]);
      if events[k].id != id {
        assert TurnsOf(events, id) == TurnsOf(events[..k], id);
        var w := WorldAfter(gate, START, events[..k]);
        assert LogOf(WorldStep(gate, w, events[k]).log, id) == LogOf(w.log, id);
      }
    }
  }

  // ---- The language of delivered states ----

  /** The states committed, in order. */
  function Commits(outcomes: seq<Outcome>): seq<State> {
    if outcomes == [] then [] else
    var k := |outcomes| - 1;
    Commits(outcomes[..k]) + if outcomes[k].committed then [outcomes[k].state] else []
  }

  /** `(warning | critical | warning critical) healthy`, repeated, the last cycle possibly unfinished. */
  ghost predicate Cycles(cs: seq<State>)
    decreases |cs|
  {
    cs == []
    || ((cs[0] == Warning || cs[0] == Critical) && Recovered(cs[1..]))
    || (|cs| >= 2 && cs[0] == Warning && cs[1] == Critical && Recovered(cs[2..]))
  }

  ghost predicate Recovered(cs: seq<State>)
    decreases |cs|
  {
    cs == [] || (cs[0] == Healthy && Cycles(cs[1..]))
  }

  function LastState(cs: seq<State>): State {
    if cs == [] then Healthy else cs[|cs| - 1]
  }

  predicate Alarm(s: State) {
    s == Warning || s == Critical
  }

  lemma ShortCycles(t: seq<State>)
    requires |t| == 1 || (|t| == 2 && t[1] != Healthy)
    ensures Cycles(t) <==> if |t| == 1 then Alarm(t[0]) else t[0] == Warning && t[1] == Critical
  {
    assert t[1..] == if |t| == 1 then [] else [t[1]];
    if |t| == 2 {
      assert t[2..] == [];
    }
  }

  lemma TwoStepCycle(t: seq<State>)
    requires |t| >= 2 && t[1] == Healthy
    ensures Cycles(t) <==> Alarm(t[0]) && Cycles(t[2..])
  {
    assert t[1..][0] == Healthy && t[1..][1..] == t[2..];
  }

  lemma ThreeStepCycle(t: seq<State>)
    requires |t| >= 3 && t[1] != Healthy
    ensures Cycles(t) <==> t[0] == Warning && t[1] == Critical && t[2] == Healthy && Cycles(t[3..])
  {
    assert t[1..][0] != Healthy;
    assert t[2..][0] == t[2] && t[2..][1..] == t[3..];
  }

  /** A word of the language goes on with exactly the transitions worth a message. */
  lemma {:induction false} CyclesExtend(cs: seq<State>, s: State)
    requires s != Unset
    requires Cycles(cs)
    ensures Cycles(cs + [s]) <==> Transition(LastState(cs), s)
    decreases |cs|
  {
    var t := cs + [s];
    if |cs| == 0 {
      ShortCycles(t);
    } else if |cs| >= 2 && cs[1] == Healthy {
      TwoStepCycle(cs);
      TwoStepCycle(t);
      assert t[2..] == cs[2..] + [s];
      CyclesExtend(cs[2..], s);
    } else if |cs| >= 3 {
      ThreeStepCycle(cs);
      ThreeStepCycle(t);
      assert t[3..] == cs[3..] + [s];
      CyclesExtend(cs[3..], s);
    } else {
      ShortCycles(cs);
      FirstCycleExtends(cs, s);
    }
  }

  lemma FirstCycleExtends(cs: seq<State>, s: State)
    requires s != Unset && 1 <= |cs| <= 2
    requires if |cs| == 1 then Alarm(cs[0]) else cs[0] == Warning && cs[1] == Critical
    ensures Cycles(cs + [s]) <==> Transition(LastState(cs), s)
  {
    var t := cs + [s];
    if |cs| == 2 {
      ThreeStepCycle(t);
      assert t[3..] == [];
    } else if s == Healthy {
      TwoStepCycle(t);
      assert t[2..] == [];
    } else {
      ShortCycles(t);
    }
  }

  lemma CommitsStep(outcomes: seq<Outcome>, o: Outcome)
    ensures Commits(outcomes + [o]) == Commits(outcomes) + if o.committed then [o.state] else []
  {
    assert (outcomes + [o])[..|outcomes|] == outcomes;
  }

  /** A state is committed exactly when the gate took the alarm or the full card was sent, and it was due. */
  ghost predicate CommitIsDelivery(o: Outcome) {
    && (o.committed <==> o.published.Some? || o.sent)
    && !(o.published.Some? && o.sent)
    && (o.committed ==> o.attempted)
    && (o.attempted ==> o.pending)
  }

  lemma StepDelivers(gate: bool, v: View, e: Event)
    ensures var (v', o) := SensorStep(gate, v, e);
      && CommitIsDelivery(o)
      && v'.last == (if o.committed then o.state else v.last)
      && (o.committed ==> o.state != Unset && Transition(v.last, o.state))
  {
  }

  /** The delivered states form a word of the language, `last` is the last of them, and every commit is a delivery. */
  ghost predicate DeliveredInCycles(last: State, outcomes: seq<Outcome>) {
    && Cycles(Commits(outcomes))
    && last == LastState(Commits(outcomes))
    && forall i :: 0 <= i < |outcomes| ==> CommitIsDelivery(outcomes[i])
  }

  lemma DeliveryStep(gate: bool, run: (View, seq<Outcome>), e: Event)
    requires DeliveredInCycles(run.0.last, run.1)
    ensures var after := Longer(gate, run, e); DeliveredInCycles(after.0.last, after.1)
  {
    var outcomes, o := run.1, SensorStep(gate, run.0, e).1;
    StepDelivers(gate, run.0, e);
    CommitsStep(outcomes, o);
    if o.committed {
      CyclesExtend(Commits(outcomes), o.state);
      assert LastState(Commits(outcomes) + [o.state]) == o.state;
    } else {
      assert Commits(outcomes + [o]) == Commits(outcomes);
    }
  }

  /** In every run, whatever fails, deliveries go in cycles and the remembered state is the last delivered. */
  lemma {:induction false} DeliveredLanguage(gate: bool, events: seq<Event>)
    ensures DeliveredInCycles(Run(gate, NEW, events).0.last, Run(gate, NEW, events).1)
  {
    if events == [] {
    } else {
      var k := |events| - 1;
      DeliveredLanguage(gate, events[..k]);
      DeliveryStep(gate, Run(gate, NEW, events[..k]), events[k]);
      RunLast(gate, NEW, events);
    }
  }

  function Report(s: Reported): Event {
    Polled("", s, false, false, true, true)
  }

  /** Turns that report the given states to a working notifier. */
  function Reports(cs: seq<Reported>): seq<Event> {
    if cs == [] then [] else
    Reports(cs[..|cs| - 1]) + [Report(cs[|cs| - 1])]
  }

  lemma {:induction false} CyclesPrefix(cs: seq<State>, n: nat)
    requires Cycles(cs) && n <= |cs|
    ensures Cycles(cs[..n])
    decreases |cs|
  {
    var t := cs[..n];
    if n >= 2 && cs[1] == Healthy {
      TwoStepCycle(cs);
      CyclesPrefix(cs[2..], n - 2);
      TwoStepCycle(t);
      assert t[2..] == cs[2..][..n - 2];
    } else if n >= 3 {
      ThreeStepCycle(cs);
      CyclesPrefix(cs[3..], n - 3);
      ThreeStepCycle(t);
      assert t[3..] == cs[3..][..n - 3];
    } else if n > 0 {
      ShortCycles(t);
      if |cs| > 2 && cs[1] != Healthy {
        ThreeStepCycle(cs);
      } else {
        assert n == |cs| ==> t == cs;
      }
    }
  }

  lemma DeliverStep(v: View, s: Reported)
    requires v.retry == None && !v.firing && Transition(v.last, s)
    ensures var (v', o) := SensorStep(false, v, Report(s));
      v' == View(s, None, false) && o.committed && o.state == s
  {
  }

  /** Every state of the word is worth a message after the one before. */
  ghost predicate Stepwise(cs: seq<State>) {
    forall n :: 0 <= n < |cs| ==> Transition(LastState(cs[..n]), cs[n])
  }

  lemma CyclesStepwise(cs: seq<Reported>)
    requires Cycles(cs)
    ensures Stepwise(cs)
  {
    forall n | 0 <= n < |cs| ensures Transition(LastState(cs[..n]), cs[n]) {
      CyclesPrefix(cs, n);
      CyclesPrefix(cs, n + 1);
      assert cs[..n + 1] == cs[..n] + [cs[n]];
      CyclesExtend(cs[..n], cs[n]);
    }
  }

  lemma {:induction false} StepwiseIsDelivered(cs: seq<Reported>)
    requires Stepwise(cs)
    ensures Commits(Run(false, NEW, Reports(cs)).1) == cs
    ensures Run(false, NEW, Reports(cs)).0 == View(LastState(cs), None, false)
  {
    if cs == [] {
    } else {
      var n := |cs| - 1;
      assert forall i :: 0 <= i < n ==> cs[..n][..i] == cs[..i];
      StepwiseIsDelivered(cs[..n]);
      assert cs[..n] + [cs[n]] == cs;
      ReportOneMore(Run(false, NEW, Reports(cs[..n])), cs[..n], cs[n]);
      RunStep(false, NEW, Reports(cs[..n]), Report(cs[n]));
    }
  }

  /** The language is no larger than need be: every word of it is delivered by some run. */
  lemma EveryWordIsDelivered(cs: seq<Reported>)
    requires Cycles(cs)
    ensures Commits(Run(false, NEW, Reports(cs)).1) == cs
    ensures Run(false, NEW, Reports(cs)).0 == View(LastState(cs), None, false)
  {
    CyclesStepwise(cs);
    StepwiseIsDelivered(cs);
  }

  lemma ReportOneMore(run: (View, seq<Outcome>), cs: seq<State>, s: Reported)
    requires run.0 == View(LastState(cs), None, false) && Commits(run.1) == cs
    requires Transition(LastState(cs), s)
    ensures var after := Longer(false, run, Report(s));
      after.0 == View(s, None, false) && Commits(after.1) == cs + [s]
  {
    DeliverStep(run.0, s);
    CommitsStep(run.1, SensorStep(false, run.0, Report(s)).1);
  }

  // ---- Incidents at the gate ----

  function Published(outcomes: seq<Outcome>): seq<Alert> {
    if outcomes == [] then [] else
    var k := |outcomes| - 1;
    Published(outcomes[..k]) + match outcomes[k].published { case None => [] case Some(a) => [a] }
  }

  lemma PublishedStep(outcomes: seq<Outcome>, o: Outcome)
    ensures Published(outcomes + [o]) ==
      Published(outcomes) + match o.published { case None => [] case Some(a) => [a] }
  {
    assert (outcomes + [o])[..|outcomes|] == outcomes;
  }

  /** What a turn may do to the flag: follow its publication, which resolves only what was firing. */
  ghost predicate FlagFollows(gate: bool, id: string, before: bool, after: bool, o: Outcome) {
    match o.published
    case None => after == before
    case Some(a) =>
      && gate && a.sensorId == id
      && (a.status == Resolved <==> o.state == Healthy)
      && (after <==> a.status == Firing)
      && (a.status == Resolved ==> before)
  }

  lemma StepPublishes(gate: bool, v: View, e: Event)
    ensures var (v', o) := SensorStep(gate, v, e);
      FlagFollows(gate, e.id, v.firing, v'.firing, o)
  {
  }

  /**
   The flag says whether the last accepted publication was an alarm; an incident is resolved
   only directly after it fired, and never twice.
   */
  ghost predicate IncidentsAlternate(firing: bool, ps: seq<Alert>) {
    && (firing <==> ps != [] && ps[|ps| - 1].status == Firing)
    && forall i :: 0 <= i < |ps| && ps[i].status == Resolved ==> i > 0 && ps[i - 1].status == Firing
  }

  /** In every run the firing flag and the publications agree, and nothing is published without a gate. */
  lemma {:induction false} IncidentSafety(gate: bool, events: seq<Event>)
    ensures IncidentsAlternate(Run(gate, NEW, events).0.firing, Published(Run(gate, NEW, events).1))
    ensures !gate ==> Published(Run(gate, NEW, events).1) == []
  {
    if events == [] {
    } else {
      var k := |events| - 1;
      IncidentSafety(gate, events[..k]);
      IncidentStep(gate, Run(gate, NEW, events[..k]), events[k]);
      RunLast(gate, NEW, events);
    }
  }

  lemma IncidentStep(gate: bool, run: (View, seq<Outcome>), e: Event)
    requires IncidentsAlternate(run.0.firing, Published(run.1))
    requires !gate ==> Published(run.1) == []
    ensures var after := Longer(gate, run, e);
      && IncidentsAlternate(after.0.firing, Published(after.1))
      && (!gate ==> Published(after.1) == [])
  {
    StepPublishes(gate, run.0, e);
    PublishedStep(run.1, SensorStep(gate, run.0, e).1);
  }

  /** A delivered recovery of a capacity sensor leaves the flag set only if its publication failed. */
  lemma RecoveryClearsFlag(v: View, e: Event)
    requires e.Polled? && e.capacity && e.state == Healthy
    requires SensorStep(true, v, e).1.committed
    ensures var (v', o) := SensorStep(true, v, e);
      && (v'.firing <==> v.firing && o.publishFailed)
      && (o.publishFailed ==> o.sent && !e.gateOk)
  {
  }

  // ---- Backoff ----

  function PendingCount(outcomes: seq<Outcome>): nat {
    if outcomes == [] then 0 else
    PendingCount(outcomes[..|outcomes| - 1]) + if outcomes[|outcomes| - 1].pending then 1 else 0
  }

  function Attempts(outcomes: seq<Outcome>): nat {
    if outcomes == [] then 0 else
    Attempts(outcomes[..|outcomes| - 1]) + if outcomes[|outcomes| - 1].attempted then 1 else 0
  }

  lemma CountsStep(outcomes: seq<Outcome>, o: Outcome)
    ensures PendingCount(outcomes + [o]) == PendingCount(outcomes) + if o.pending then 1 else 0
    ensures Attempts(outcomes + [o]) == Attempts(outcomes) + if o.attempted then 1 else 0
  {
    assert (outcomes + [o])[..|outcomes|] == outcomes;
  }

  /** The retry states that can arise. */
  ghost predicate Consistent(retry: Option<Retry>) {
    retry.Some? ==>
      var r := retry.value;
      1 <= r.fails && r.sinceFail < RETRY_EVERY && (r.fails < BACKOFF_AFTER ==> r.sinceFail == 0)
  }

  lemma {:induction false} RetryConsistent(gate: bool, v: View, events: seq<Event>)
    requires Consistent(v.retry)
    ensures Consistent(Run(gate, v, events).0.retry)
  {
    if events == [] {
    } else {
      RetryConsistent(gate, v, events[..|events| - 1]);
      RunLast(gate, v, events);
    }
  }

  /** Pending polls the backoff has already swallowed; `None` when it is not in force. */
  function Swallowed(retry: Option<Retry>): Option<nat> {
    if retry.Some? && retry.value.fails >= BACKOFF_AFTER then Some(retry.value.sinceFail) else None
  }

  /** From `v` to `v'` nothing was attempted, and the backoff swallowed `n` pending polls. */
  ghost predicate Waited(v: View, v': View, n: nat) {
    && v'.last == v.last && Consistent(v'.retry)
    && if n == 0 then v' == v
       else Swallowed(v.retry).Some? && Swallowed(v'.retry) == Some(Swallowed(v.retry).value + n)
  }

  lemma WaitStep(gate: bool, v: View, before: View, n: nat, e: Event)
    requires Consistent(v.retry) && Waited(v, before, n)
    ensures var (after, o) := SensorStep(gate, before, e);
      !o.attempted ==> Waited(v, after, n + if o.pending then 1 else 0)
  {
  }

  lemma {:induction false} WithoutAttempt(gate: bool, v: View, events: seq<Event>)
    requires Consistent(v.retry)
    requires Attempts(Run(gate, v, events).1) == 0
    ensures Waited(v, Run(gate, v, events).0, PendingCount(Run(gate, v, events).1))
  {
    if events == [] {
    } else {
      var k := |events| - 1;
      var before := Run(gate, v, events[..k]);
      RunLast(gate, v, events);
      CountsStep(before.1, SensorStep(gate, before.0, events[k]).1);
      WithoutAttempt(gate, v, events[..k]);
      WaitStep(gate, v, before.0, PendingCount(before.1), events[k]);
    }
  }

  /** From any reachable view, a transition that stays pending is attempted within five pending polls. */
  lemma AttemptedWithinFive(gate: bool, past: seq<Event>, events: seq<Event>)
    requires PendingCount(Run(gate, Run(gate, NEW, past).0, events).1) >= 5
    ensures Attempts(Run(gate, Run(gate, NEW, past).0, events).1) >= 1
  {
    var v := Run(gate, NEW, past).0;
    RetryConsistent(gate, NEW, past);
    if Attempts(Run(gate, v, events).1) == 0 {
      WithoutAttempt(gate, v, events);
    }
  }

  lemma {:induction false} SomeAttempt(outcomes: seq<Outcome>) returns (i: nat)
    requires Attempts(outcomes) >= 1
    ensures i < |outcomes| && outcomes[i].attempted
  {
    var k := |outcomes| - 1;
    if outcomes[k].attempted {
      i := k;
    } else {
      i := SomeAttempt(outcomes[..k]);
    }
  }

  lemma {:induction false} RunOutcome(gate: bool, v: View, events: seq<Event>, i: nat)
    requires i < |events|
    ensures |Run(gate, v, events).1| == |events|
    ensures exists before :: Run(gate, v, events).1[i] == SensorStep(gate, before, events[i]).1
  {
    var k := |events| - 1;
    RunLast(gate, v, events);
    if k > 0 {
      RunOutcome(gate, v, events[..k], if i < k then i else 0);
    }
  }

  /** So a notifier that works delivers something by then, even after any history of failures. */
  lemma WorkingNotifierDelivers(gate: bool, past: seq<Event>, events: seq<Event>) returns (i: nat)
    requires forall k :: 0 <= k < |events| && events[k].Polled? ==> events[k].sendOk
    requires PendingCount(Run(gate, Run(gate, NEW, past).0, events).1) >= 5
    ensures i < |Run(gate, Run(gate, NEW, past).0, events).1|
    ensures Run(gate, Run(gate, NEW, past).0, events).1[i].committed
  {
    var v := Run(gate, NEW, past).0;
    AttemptedWithinFive(gate, past, events);
    i := SomeAttempt(Run(gate, v, events).1);
    RunLength(gate, v, events);
    RunOutcome(gate, v, events, i);
  }

  lemma {:induction false} RunLength(gate: bool, v: View, events: seq<Event>)
    ensures |Run(gate, v, events).1| == |events|
  {
    if events != [] {
      RunLength(gate, v, events[..|events| - 1]);
    }
  }

  /** Attempts among the first `n` pending polls when none of them succeeds. */
  function AttemptsWhenFailing(n: nat): nat {
    if n <= BACKOFF_AFTER then n else BACKOFF_AFTER + (n - BACKOFF_AFTER) / RETRY_EVERY
  }

  /** The retry state after `n` pending polls when none of them succeeds. */
  function RetryWhenFailing(n: nat): Option<Retry> {
    if n == 0 then None
    else if n <= BACKOFF_AFTER then Some(Retry(n, 0))
    else Some(Retry(AttemptsWhenFailing(n), (n - BACKOFF_AFTER) % RETRY_EVERY))
  }

  lemma OneMoreFailure(n: nat)
    ensures var (allowed, retry) := Allow(RetryWhenFailing(n));
      && RetryWhenFailing(n + 1) == (if allowed then Failed(retry) else retry)
      && AttemptsWhenFailing(n + 1) == AttemptsWhenFailing(n) + if allowed then 1 else 0
  {
    if n > BACKOFF_AFTER {
      var m := n - BACKOFF_AFTER;
      assert if m % 5 == 4 then (m + 1) / 5 == m / 5 + 1 && (m + 1) % 5 == 0
             else (m + 1) / 5 == m / 5 && (m + 1) % 5 == m % 5 + 1;
    }
  }

  ghost predicate NothingWorks(e: Event) {
    e.Polled? ==> !e.sendOk && !e.gateOk
  }

  lemma FailingStep(gate: bool, v: View, e: Event, n: nat)
    requires NothingWorks(e) && v == View(Healthy, RetryWhenFailing(n), false)
    ensures var (v', o) := SensorStep(gate, v, e);
      var m := n + if o.pending then 1 else 0;
      && v' == View(Healthy, RetryWhenFailing(m), false)
      && AttemptsWhenFailing(m) == AttemptsWhenFailing(n) + (if o.attempted then 1 else 0)
      && (o.pending <==> Pending(v, e))
  {
    OneMoreFailure(n);
  }

  /** With nothing getting through, exactly that many attempts are made: all of the first three, then every fifth. */
  lemma {:induction false} BackoffSchedule(gate: bool, events: seq<Event>)
    requires forall k :: 0 <= k < |events| ==> NothingWorks(events[k])
    ensures var (v, outcomes) := Run(gate, NEW, events);
      var n := PendingCount(outcomes);
      && Attempts(outcomes) == (if n <= 3 then n else 3 + (n - 3) / 5)
      && v == View(Healthy, RetryWhenFailing(n), false)
  {
    if events != [] {
      var k := |events| - 1;
      BackoffSchedule(gate, events[..k]);
      var before := Run(gate, NEW, events[..k]);
      RunLast(gate, NEW, events);
      FailingStep(gate, before.0, events[k], PendingCount(before.1));
      CountsStep(before.1, SensorStep(gate, before.0, events[k]).1);
    }
  }

  /**
   After a delivery the next pending transition is attempted at once unless the gate took the
   delivery while backoff was in force: handing over to the gate does not clear the failures.
   */
  lemma NextIsImmediateIff(gate: bool, v: View, e: Event, next: Event)
    requires Consistent(v.retry)
    requires SensorStep(gate, v, e).1.committed
    requires Pending(SensorStep(gate, v, e).0, next)
    ensures SensorStep(gate, SensorStep(gate, v, e).0, next).1.attempted
      <==> !(SensorStep(gate, v, e).1.published.Some? && Swallowed(v.retry).Some?)
  {
  }

  function Repeated(e: Event, n: nat): (events: seq<Event>)
    ensures |events| == n
    ensures forall k :: 0 <= k < n ==> events[k] == e
  {
    if n == 0 then [] else Repeated(e, n - 1) + [e]
  }

  lemma {:induction false} RepeatedFailures(e: Event, n: nat)
    requires e.Polled? && NothingWorks(e) && !e.silenced && e.state != Healthy
    ensures PendingCount(Run(true, NEW, Repeated(e, n)).1) == n
  {
    if n > 0 {
      RepeatedFailures(e, n - 1);
      var events := Repeated(e, n - 1);
      BackoffSchedule(true, events);
      var before := Run(true, NEW, events);
      RunStep(true, NEW, events, e);
      FailingStep(true, before.0, e, n - 1);
      CountsStep(before.1, SensorStep(true, before.0, e).1);
    }
  }

  /** A history in which notifier and gate both work again, and a recovery is still held back. */
  lemma GateDeliveryKeepsBackoff() returns (past: seq<Event>, last: Event, next: Event)
    ensures last.Polled? && last.gateOk && last.sendOk
    ensures next.Polled? && next.gateOk && next.sendOk
    ensures SensorStep(true, Run(true, NEW, past).0, last).1.committed
    ensures Pending(Run(true, NEW, past + [last]).0, next)
    ensures !SensorStep(true, Run(true, NEW, past + [last]).0, next).1.attempted
  {
    var bad := Polled("disk", Critical, true, false, false, false);
    last := Polled("disk", Critical, true, false, true, true);
    next := Polled("disk", Healthy, true, false, true, true);
    past := Repeated(bad, 7);
    RepeatedFailures(bad, 7);
    BackoffSchedule(true, past);
    assert RetryWhenFailing(7) == Some(Retry(3, 4));
    RunStep(true, NEW, past, last);
  }

  // ---- All sensors together ----

  /** The guarantees above, for each sensor of the interleaved run the daemon makes. */
  lemma {:induction false} EverySensorOfEveryRun(gate: bool, events: seq<Event>, id: string)
    ensures var w := WorldAfter(gate, START, events);
      && DeliveredInCycles(LastOf(w.last, id), LogOf(w.log, id))
      && IncidentsAlternate(id in w.firing, Published(LogOf(w.log, id)))
  {
    SensorsIndependent(gate, events, id);
    DeliveredLanguage(gate, TurnsOf(events, id));
    IncidentSafety(gate, TurnsOf(events, id));
  }
}
