/**
 The notification step of a poll: deduplication, backoff after failed sends, the silence of
 the alert manager, and the hand-off of capacity alarms to the triage gate.

 The environment decides everything else: what each sensor reports, whether it is silenced,
 and whether the gate and the notifier accept what they are given.
 */
module Notification {
  import opened Wrappers
  import opened Forecasting

  const BACKOFF_AFTER := 3
  const RETRY_EVERY := 5

  datatype Retry = Retry(fails: nat, sinceFail: nat)

  datatype Status = Firing | Resolved

  datatype Alert = Alert(sensorId: string, status: Status, severity: string)

  /** A forecast always reports one of the three states. */
  type Reported = s: State | s != Unset witness Healthy

  /** One sensor's turn in a poll. */
  datatype Event =
    | PollFailed(id: string)
    | Polled(id: string, state: Reported, capacity: bool, silenced: bool, gateOk: bool, sendOk: bool)

  /** What that turn did: a publication accepted by the gate, a full card sent, a state committed. */
  datatype Outcome = Outcome(
    state: State,
    pending: bool,
    attempted: bool,
    publishFailed: bool,
    published: Option<Alert>,
    sent: bool,
    committed: bool)

  const NOTHING := Outcome(Unset, false, false, false, None, false, false)

  /** Everything the daemon remembers about one sensor. */
  datatype View = View(last: State, retry: Option<Retry>, firing: bool)

  const NEW := View(Healthy, None, false)

  function Rank(s: State): int {
    match s
    case Critical => 2
    case Warning => 1
    case _ => 0
  }

  function StateName(s: State): string {
    match s
    case Healthy => "healthy"
    case Warning => "warning"
    case Critical => "critical"
    case Unset => ""
  }

  /** Is going from the last delivered state to `new_` worth a message? */
  predicate Transition(prev: State, new_: State) {
    prev != new_ && (new_ == Healthy || prev == Healthy || Rank(new_) > Rank(prev))
  }

  predicate Pending(v: View, e: Event) {
    e.Polled? && !e.silenced && Transition(v.last, e.state)
  }

  /** Does the backoff let a pending transition through, and what does it count? */
  function Allow(retry: Option<Retry>): (bool, Option<Retry>) {
    if retry.None? || retry.value.fails < BACKOFF_AFTER then (true, retry)
    else if retry.value.sinceFail + 1 >= RETRY_EVERY then (true, Some(retry.value.(sinceFail := 0)))
    else (false, Some(retry.value.(sinceFail := retry.value.sinceFail + 1)))
  }

  function Failed(retry: Option<Retry>): Option<Retry> {
    match retry
    case None => Some(Retry(1, 0))
    case Some(r) => Some(r.(fails := r.fails + 1))
  }

  /** A publication is due: every alarm, and a recovery whose alarm the gate knows. */
  predicate Publishes(gate: bool, firing: bool, e: Event)
    requires e.Polled?
  {
    gate && e.capacity && (e.state != Healthy || firing)
  }

  function AlertOf(e: Event): Alert
    requires e.Polled?
  {
    if e.state == Healthy then Alert(e.id, Resolved, "info") else Alert(e.id, Firing, StateName(e.state))
  }

  function SensorStep(gate: bool, v: View, e: Event): (View, Outcome) {
    if e.PollFailed? then (v, NOTHING)
    else if !Pending(v, e) then (v, NOTHING.(state := e.state))
    else
      var (allowed, retry) := Allow(v.retry);
      var o := Outcome(e.state, true, allowed, false, None, false, false);
      if !allowed then (v.(retry := retry), o)
      else if Publishes(gate, v.firing, e) && e.gateOk then
        (View(e.state, retry, e.state != Healthy), o.(published := Some(AlertOf(e)), committed := true))
      else
        var tried := o.(publishFailed := Publishes(gate, v.firing, e));
        if e.sendOk then (View(e.state, None, v.firing), tried.(sent := true, committed := true))
        else (v.(retry := Failed(retry)), tried)
  }

  // ---- The daemon ----

  datatype World = World(
    last: map<string, State>,
    retry: map<string, Retry>,
    firing: set<string>,
    log: seq<(string, Outcome)>)

  const START := World(map[], map[], {}, [])

  function LastOf(last: map<string, State>, id: string): State {
    if id !in last || last[id] == Unset then Healthy else last[id]
  }

  function RetryOf(retry: map<string, Retry>, id: string): Option<Retry> {
    if id in retry then Some(retry[id]) else None
  }

  function ViewOf(w: World, id: string): View {
    View(LastOf(w.last, id), RetryOf(w.retry, id), id in w.firing)
  }

  function SetRetry(retry: map<string, Retry>, id: string, r: Option<Retry>): map<string, Retry> {
    match r
    case None => retry - {id}
    case Some(x) => retry[id := x]
  }

  function SetFiring(firing: set<string>, id: string, on: bool): set<string> {
    if on then firing + {id} else firing - {id}
  }

  /** One sensor's turn changes that sensor's entries and nothing else. */
  function WorldStep(gate: bool, w: World, e: Event): World {
    var (v, o) := SensorStep(gate, ViewOf(w, e.id), e);
    World(if o.committed then w.last[e.id := v.last] else w.last,
          SetRetry(w.retry, e.id, v.retry),
          SetFiring(w.firing, e.id, v.firing),
          w.log + [(e.id, o)])
  }

  function WorldAfter(gate: bool, w: World, events: seq<Event>): World {
    if events == [] then w else
    var k := |events| - 1;
    WorldStep(gate, WorldAfter(gate, w, events[..k]), events[k])
  }

  class Dedupe {
    var lastState: map<string, State>

    constructor ()
      ensures lastState == map[]
    {
      lastState := map[];
    }

    method Peek(id: string, newState: State) returns (b: bool)
      ensures b == Transition(LastOf(lastState, id), newState)
    {
      var prev := Unset;
      if id in lastState {
        prev := lastState[id];
      }
      if prev == Unset {
        prev := Healthy;
      }
      if prev == newState {
        return false;
      }
      if newState != Healthy && prev != Healthy && Rank(newState) <= Rank(prev) {
        return false;
      }
      return true;
    }

    method Commit(id: string, newState: State)
      modifies this
      ensures lastState == old(lastState)[id := newState]
    {
      lastState := lastState[id := newState];
    }
  }

  class Daemon {
    const gate: bool
    const dedupe: Dedupe
    var notifyRetry: map<string, Retry>
    var publishedFiring: set<string>
    ghost var log: seq<(string, Outcome)>

    constructor (gate: bool)
      ensures this.gate == gate && fresh(dedupe) && WorldOf() == START
    {
      this.gate := gate;
      dedupe := new Dedupe();
      notifyRetry := map[];
      publishedFiring := {};
      log := [];
    }

    ghost function WorldOf(): World
      reads this, dedupe
    {
      World(dedupe.lastState, notifyRetry, publishedFiring, log)
    }

    method AllowNotify(id: string) returns (b: bool)
      modifies this`notifyRetry
      ensures (b, RetryOf(notifyRetry, id)) == Allow(RetryOf(old(notifyRetry), id))
      ensures notifyRetry == SetRetry(old(notifyRetry), id, RetryOf(notifyRetry, id))
    {
      if id !in notifyRetry || notifyRetry[id].fails < BACKOFF_AFTER {
        return true;
      }
      var rt := notifyRetry[id];
      rt := rt.(sinceFail := rt.sinceFail + 1);
      notifyRetry := notifyRetry[id := rt];
      if rt.sinceFail >= RETRY_EVERY {
        notifyRetry := notifyRetry[id := rt.(sinceFail := 0)];
        return true;
      }
      return false;
    }

    method MarkNotifyResult(id: string, ok: bool)
      modifies this`notifyRetry
      ensures notifyRetry ==
        SetRetry(old(notifyRetry), id, if ok then None else Failed(RetryOf(old(notifyRetry), id)))
    {
      if ok {
        notifyRetry := notifyRetry - {id};
        return;
      }
      var rt := if id in notifyRetry then notifyRetry[id] else Retry(0, 0);
      notifyRetry := notifyRetry[id := rt.(fails := rt.fails + 1)];
    }

    /**
     Hands a capacity transition to the gate. `handled` means the gate took it; the short
     local note that follows is sent without regard to its success.
     */
    method TriageHandled(e: Event) returns (handled: bool, failed: bool, published: Option<Alert>)
      requires e.Polled?
      modifies this`publishedFiring
      ensures var due := Publishes(gate, e.id in old(publishedFiring), e);
        && handled == (due && e.gateOk)
        && failed == (due && !e.gateOk)
        && published == (if handled then Some(AlertOf(e)) else None)
        && publishedFiring ==
             (if handled then SetFiring(old(publishedFiring), e.id, e.state != Healthy) else old(publishedFiring))
    {
      handled, failed, published := false, false, None;
      if !gate || !e.capacity {
        return;
      }
      var status, severity := Firing, StateName(e.state);
      if e.state == Healthy {
        if e.id !in publishedFiring {
          return;
        }
        status, severity := Resolved, "info";
      }
      var alert := Alert(e.id, status, severity);
      if !e.gateOk {
        failed := true;
        return;
      }
      if status == Resolved {
        publishedFiring := publishedFiring - {e.id};
      } else {
        publishedFiring := publishedFiring + {e.id};
      }
      handled, published := true, Some(alert);
    }

    /** An allowed attempt: the gate first, the full card if the gate did not take it. */
    method Attempt(e: Event) returns (failed: bool, published: Option<Alert>, sent: bool, committed: bool)
      requires e.Polled?
      modifies this`publishedFiring, this`notifyRetry, dedupe
      ensures var due := Publishes(gate, e.id in old(publishedFiring), e);
        && failed == (due && !e.gateOk)
        && published == (if due && e.gateOk then Some(AlertOf(e)) else None)
        && sent == (published == None && e.sendOk)
        && committed == (published.Some? || sent)
      ensures publishedFiring ==
        if published.Some? then SetFiring(old(publishedFiring), e.id, e.state != Healthy) else old(publishedFiring)
      ensures notifyRetry ==
        if published.Some? then old(notifyRetry)
        else SetRetry(old(notifyRetry), e.id, if e.sendOk then None else Failed(RetryOf(old(notifyRetry), e.id)))
      ensures dedupe.lastState ==
        if committed then old(dedupe.lastState)[e.id := e.state] else old(dedupe.lastState)
    {
      var handled;
      handled, failed, published := TriageHandled(e);
      sent, committed := false, false;
      if handled {
        dedupe.Commit(e.id, e.state);
        committed := true;
      } else if e.sendOk {
        MarkNotifyResult(e.id, true);
        dedupe.Commit(e.id, e.state);
        sent, committed := true, true;
      } else {
        MarkNotifyResult(e.id, false);
      }
    }

    /** The notification block for one sensor. */
    method Notify(e: Event)
      modifies this, dedupe
      ensures WorldOf() == WorldStep(gate, old(WorldOf()), e)
    {
      ghost var o := NOTHING;
      if e.Polled? {
        o := NotifyPolled(e);
      }
      log := log + [(e.id, o)];
    }

    /** The block itself, for a sensor whose poll succeeded. */
    method NotifyPolled(e: Event) returns (ghost o: Outcome)
      requires e.Polled?
      modifies this`publishedFiring, this`notifyRetry, dedupe
      ensures var (v, done) := SensorStep(gate, old(ViewOf(WorldOf(), e.id)), e);
        && o == done
        && dedupe.lastState == (if o.committed then old(dedupe.lastState)[e.id := v.last] else old(dedupe.lastState))
        && notifyRetry == SetRetry(old(notifyRetry), e.id, v.retry)
        && publishedFiring == SetFiring(old(publishedFiring), e.id, v.firing)
    {
      o := NOTHING.(state := e.state);
      var peek := dedupe.Peek(e.id, e.state);
      if !e.silenced && peek {
        var allowed := AllowNotify(e.id);
        o := o.(pending := true, attempted := allowed);
        if allowed {
          var failed, published, sent, committed := Attempt(e);
          o := o.(publishFailed := failed, published := published, sent := sent, committed := committed);
        }
      }
    }

    /** One poll over all sensors. */
    method RunOnePoll(events: seq<Event>)
      modifies this, dedupe
      ensures WorldOf() == WorldAfter(gate, old(WorldOf()), events)
    {
      var i := 0;
      while i < |events|
        invariant 0 <= i <= |events|
        invariant WorldOf() == WorldAfter(gate, old(WorldOf()), events[..i])
      {
        assert events[..i + 1][..i] == events[..i];
        Notify(events[i]);
        i := i + 1;
      }
      assert events[..i] == events;
    }
  }
}
