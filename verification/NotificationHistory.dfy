/**
 A sensor's turn told from the event itself and from what the turns before it did: what is
 pending, attempted, published, sent and committed, with every number written out.
 */
module NotificationHistory {
  import opened Wrappers
  import opened Forecasting
  import opened Notification
  import opened NotificationRuns

  // ---- What the turns so far amount to ----

  /** The attempts that delivered nothing since the last full card was sent. */
  function Failures(past: seq<Outcome>): nat {
    if past == [] then 0 else
    var k := |past| - 1;
    if past[k].sent then 0
    else Failures(past[..k]) + if past[k].attempted && !past[k].committed then 1 else 0
  }

  /** The pending turns since the last attempt. */
  function Waiting(past: seq<Outcome>): nat {
    if past == [] then 0 else
    var k := |past| - 1;
    if past[k].attempted then 0
    else Waiting(past[..k]) + if past[k].pending then 1 else 0
  }

  /** The last alert the gate took was firing. */
  predicate IncidentOpen(past: seq<Outcome>) {
    past != [] &&
    var k := |past| - 1;
    match past[k].published
    case None => IncidentOpen(past[..k])
    case Some(a) => a.status == Firing
  }

  lemma HistoryStep(past: seq<Outcome>, o: Outcome)
    ensures Failures(past + [o]) ==
      if o.sent then 0 else Failures(past) + if o.attempted && !o.committed then 1 else 0
    ensures Waiting(past + [o]) == if o.attempted then 0 else Waiting(past) + if o.pending then 1 else 0
    ensures IncidentOpen(past + [o]) <==>
      match o.published { case None => IncidentOpen(past) case Some(a) => a.status == Firing }
  {
    assert (past + [o])[..|past|] == past;
  }

  // ---- One turn ----

  /** An alarm out of healthy, an escalation, or a recovery. */
  predicate WorthTelling(last: State, now: State) {
    || (last == Healthy && (now == Warning || now == Critical))
    || (last == Warning && now == Critical)
    || (last != Healthy && now == Healthy)
  }

  /** The alert a state is published as. */
  function Notice(id: string, state: Reported): Alert {
    match state
    case Healthy => Alert(id, Resolved, "info")
    case Warning => Alert(id, Firing, "warning")
    case Critical => Alert(id, Firing, "critical")
  }

  /** What a turn does after the given past. */
  ghost predicate Told(gate: bool, past: seq<Outcome>, e: Event, o: Outcome) {
    match e
    case PollFailed(_) => o == Outcome(Unset, false, false, false, None, false, false)
    case Polled(id, state, capacity, silenced, gateOk, sendOk) =>
      var due := gate && capacity && (state != Healthy || IncidentOpen(past));
      && o.state == state
      && (o.pending <==> !silenced && WorthTelling(LastState(Commits(past)), state))
      && (o.attempted <==> o.pending && (Failures(past) < 3 || Waiting(past) >= 4))
      && o.published == (if o.attempted && due && gateOk then Some(Notice(id, state)) else None)
      && (o.publishFailed <==> o.attempted && due && !gateOk)
      && (o.sent <==> o.attempted && !(due && gateOk) && sendOk)
      && (o.committed <==> o.published.Some? || o.sent)
  }

  /** The view is nothing but a summary of the past. */
  ghost predicate Summarizes(v: View, past: seq<Outcome>) {
    && v.last == LastState(Commits(past)) && v.last != Unset
    && (v.firing <==> IncidentOpen(past))
    && v.retry == (if Failures(past) == 0 then None else Some(Retry(Failures(past), Waiting(past))))
    && (Failures(past) < 3 ==> Waiting(past) == 0)
    && Waiting(past) <= 4
  }

  lemma TurnTold(gate: bool, v: View, past: seq<Outcome>, e: Event)
    requires Summarizes(v, past)
    ensures Told(gate, past, e, SensorStep(gate, v, e).1)
  {
    hide Commits, Failures, Waiting, IncidentOpen;
  }

  lemma SummaryStep(gate: bool, v: View, past: seq<Outcome>, e: Event)
    requires Summarizes(v, past)
    ensures Summarizes(SensorStep(gate, v, e).0, past + [SensorStep(gate, v, e).1])
  {
    var o := SensorStep(gate, v, e).1;
    HistoryStep(past, o);
    CommitsStep(past, o);
    hide Commits, Failures, Waiting, IncidentOpen;
    assert o.committed ==> LastState(Commits(past) + [o.state]) == o.state;
    assert !o.committed ==> Commits(past + [o]) == Commits(past);
  }

  // ---- Runs ----

  ghost predicate AllTold(gate: bool, events: seq<Event>, outcomes: seq<Outcome>) {
    |outcomes| == |events| && forall n :: 0 <= n < |events| ==> Told(gate, outcomes[..n], events[n], outcomes[n])
  }

  lemma OneMoreTold(gate: bool, events: seq<Event>, outcomes: seq<Outcome>, e: Event, o: Outcome)
    requires AllTold(gate, events, outcomes) && Told(gate, outcomes, e, o)
    ensures AllTold(gate, events + [e], outcomes + [o])
  {
    forall n | 0 <= n <= |events| ensures Told(gate, (outcomes + [o])[..n], (events + [e])[n], (outcomes + [o])[n]) {
      assert (outcomes + [o])[..n] == outcomes[..n];
      if n == |events| {
        assert outcomes[..n] == outcomes;
      }
    }
  }

  /** In every run, whatever fails or is silenced, each turn does exactly that. */
  lemma {:induction false} EveryTurnTold(gate: bool, events: seq<Event>)
    ensures AllTold(gate, events, Run(gate, NEW, events).1)
    ensures Summarizes(Run(gate, NEW, events).0, Run(gate, NEW, events).1)
  {
    if events == [] {
    } else {
      var k := |events| - 1;
      var before := Run(gate, NEW, events[..k]);
      EveryTurnTold(gate, events[..k]);
      RunLast(gate, NEW, events);
      TurnTold(gate, before.0, before.1, events[k]);
      SummaryStep(gate, before.0, before.1, events[k]);
      OneMoreTold(gate, events[..k], before.1, events[k], SensorStep(gate, before.0, events[k]).1);
      assert events == events[..k] + [events[k]];
    }
  }

  /** And so for each sensor of the run the daemon makes of all of them. */
  lemma EveryTurnOfEverySensorTold(gate: bool, events: seq<Event>, id: string)
    ensures AllTold(gate, TurnsOf(events, id), LogOf(WorldAfter(gate, START, events).log, id))
  {
    SensorsIndependent(gate, events, id);
    EveryTurnTold(gate, TurnsOf(events, id));
  }

  // ---- Silence ----

  predicate IsSilenced(e: Event) {
    e.Polled? && e.silenced
  }

  /** The turns that are not silenced. */
  function Heard(events: seq<Event>): seq<Event> {
    if events == [] then [] else
    var k := |events| - 1;
    Heard(events[..k]) + if IsSilenced(events[k]) then [] else [events[k]]
  }

  /** Their outcomes. */
  function HeardOutcomes(events: seq<Event>, outcomes: seq<Outcome>): seq<Outcome>
    requires |events| == |outcomes|
  {
    if events == [] then [] else
    var k := |events| - 1;
    HeardOutcomes(events[..k], outcomes[..k]) + if IsSilenced(events[k]) then [] else [outcomes[k]]
  }

  /** A silenced turn attempts, publishes, sends and commits nothing, and leaves the sensor's view as it was. */
  lemma SilencedTurn(gate: bool, v: View, e: Event)
    requires e.Polled? && e.silenced
    ensures SensorStep(gate, v, e) == (v, Outcome(e.state, false, false, false, None, false, false))
  {
  }

  /** Dropping the silenced turns changes neither the view nor what any other turn does. */
  lemma {:induction false} SilenceLeavesNoTrace(gate: bool, v: View, events: seq<Event>)
    ensures |Run(gate, v, events).1| == |events|
    ensures Run(gate, v, Heard(events)) == (Run(gate, v, events).0, HeardOutcomes(events, Run(gate, v, events).1))
  {
    if events == [] {
    } else {
      var k := |events| - 1;
      var before := Run(gate, v, events[..k]);
      SilenceLeavesNoTrace(gate, v, events[..k]);
      RunLast(gate, v, events);
      assert Run(gate, v, events).1[..k] == before.1;
      if IsSilenced(events[k]) {
        SilencedTurn(gate, before.0, events[k]);
        assert Heard(events) == Heard(events[..k]);
        assert HeardOutcomes(events, Run(gate, v, events).1) == HeardOutcomes(events[..k], before.1);
      } else {
        RunStep(gate, v, Heard(events[..k]), events[k]);
      }
    }
  }

  /** Nor what is delivered: the same states are committed and the same alerts published. */
  lemma {:induction false} SilenceChangesNoDelivery(gate: bool, v: View, events: seq<Event>)
    ensures Commits(Run(gate, v, Heard(events)).1) == Commits(Run(gate, v, events).1)
    ensures Published(Run(gate, v, Heard(events)).1) == Published(Run(gate, v, events).1)
  {
    if events == [] {
    } else {
      var k := |events| - 1;
      var before, e := Run(gate, v, events[..k]), events[k];
      var heard := Run(gate, v, Heard(events[..k]));
      SilenceChangesNoDelivery(gate, v, events[..k]);
      SilenceLeavesNoTrace(gate, v, events[..k]);
      RunLast(gate, v, events);
      CommitsStep(before.1, SensorStep(gate, before.0, e).1);
      PublishedStep(before.1, SensorStep(gate, before.0, e).1);
      if IsSilenced(e) {
        SilencedTurn(gate, before.0, e);
        assert Heard(events) == Heard(events[..k]);
      } else {
        RunStep(gate, v, Heard(events[..k]), e);
        CommitsStep(heard.1, SensorStep(gate, heard.0, e).1);
        PublishedStep(heard.1, SensorStep(gate, heard.0, e).1);
      }
    }
  }
}
