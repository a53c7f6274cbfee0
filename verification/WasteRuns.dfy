/** Properties of every run of the waste tracker, and of its ledger across a restart. */
module WasteRuns {
  import opened Wrappers
  import opened StringOrder
  import opened WasteTracker

  /** A call on the tracker; `order` is the order the map is iterated in during that call. */
  datatype Op =
    | Observe(c: Candidate, now: int)
    | Dismiss(resourceId: string, reason: string, until: Option<int>, order: seq<string>)
    | Resolve(resourceId: string, order: seq<string>)

  function Apply(b: Book, op: Op): Book {
    match op
    case Observe(c, now) => ObserveIn(b, c, now).0
    case Dismiss(r, reason, until, order) => DismissIn(b, r, reason, until, order)
    case Resolve(r, order) => ResolveIn(b, r, order)
  }

  /** The key a call works on, if it finds one. */
  function Target(b: Book, op: Op): Option<string> {
    match op
    case Observe(c, _) => Some(KeyOf(c))
    case Dismiss(r, _, _, order) => FirstMatch(b.entries, order, r, false)
    case Resolve(r, order) => FirstMatch(b.entries, order, r, true)
  }

  /** The message a call sends about `k`. */
  function NoteFor(b: Book, op: Op, k: string): Note {
    if op.Observe? && KeyOf(op.c) == k then ObserveIn(b, op.c, op.now).1 else Quiet
  }

  predicate IsTimedDismissal(b: Book, op: Op, k: string) {
    op.Dismiss? && op.until.Some? && Target(b, op) == Some(k)
  }

  function After(b: Book, ops: seq<Op>): Book {
    if ops == [] then b else Apply(After(b, ops[..|ops| - 1]), ops[|ops| - 1])
  }

  /** How many messages of each kind a run sends about one key, and how often the key is dismissed with a deadline. */
  datatype Tally = Tally(first: nat, again: nat, revived: nat, timed: nat)

  function Counted(t: Tally, note: Note, timed: bool): Tally {
    var t' := if timed then t.(timed := t.timed + 1) else t;
    match note
    case Quiet => t'
    case First => t'.(first := t.first + 1)
    case Again => t'.(again := t.again + 1)
    case Revived => t'.(revived := t.revived + 1)
  }

  function TallyOf(b: Book, ops: seq<Op>, k: string): Tally {
    if ops == [] then Tally(0, 0, 0, 0) else
    var n := |ops| - 1;
    var before := After(b, ops[..n]);
    Counted(TallyOf(b, ops[..n], k), NoteFor(before, ops[n], k), IsTimedDismissal(before, ops[n], k))
  }

  function Messages(t: Tally): nat {
    t.first + t.again + t.revived
  }

  /** Observation times never go back, none is later than `now`, nor earlier than the last notification about `k`. */
  ghost predicate ClockRuns(start: Book, ops: seq<Op>, k: string, now: int) {
    && (forall i, j :: 0 <= i < j < |ops| && ops[i].Observe? && ops[j].Observe? ==> ops[i].now <= ops[j].now)
    && (forall i :: 0 <= i < |ops| && ops[i].Observe? ==> ops[i].now <= now)
    && (k in start.entries ==>
          && start.entries[k].lastNotified <= now
          && forall i :: 0 <= i < |ops| && ops[i].Observe? ==> start.entries[k].lastNotified <= ops[i].now)
  }

  // ---- Reminders ----

  /** What the start of a run says of `k`: since when it is paced, and whether a revival is owed to it. */
  function PacedSince(start: Book, k: string, e: Entry): int {
    if k in start.entries then start.entries[k].lastNotified else e.firstSeen
  }

  function RevivalDue(entries: map<string, Entry>, k: string): nat {
    if k in entries && entries[k].state == Dismissed && entries[k].dismissUntil.Some? then 1 else 0
  }

  function Announced(start: Book, k: string): nat {
    if k in start.entries then 0 else 1
  }

  /** What holds of one key's entry and tally throughout a run. */
  ghost predicate Paced(start: Book, b: Book, t: Tally, k: string, now: int) {
    if k !in b.entries then k !in start.entries && t == Tally(0, 0, 0, 0)
    else
      var e := b.entries[k];
      && PacedSince(start, k, e) <= e.lastNotified <= now
      && t.first == Announced(start, k)
      && t.again * e.renotify <= e.lastNotified - PacedSince(start, k, e)
      && (e.renotify <= 0 ==> t.again == 0)
      && t.revived + RevivalDue(b.entries, k) <= t.timed + RevivalDue(start.entries, k)
  }

  lemma OneMoreReminder(n: nat, period: int, span: int, more: int)
    requires n * period <= span && period <= more
    ensures (n + 1) * period <= span + more
  {
  }

  lemma PacedObserve(start: Book, b: Book, t: Tally, k: string, c: Candidate, now: int, later: int)
    requires Paced(start, b, t, k, now) && now <= later
    ensures Paced(start, ObserveIn(b, c, later).0, Counted(t, NoteFor(b, Observe(c, later), k), false), k, later)
  {
    if KeyOf(c) == k {
      if k in b.entries {
        var e := b.entries[k];
        if e.state != Dismissed && Due(e, later) {
          OneMoreReminder(t.again, e.renotify, e.lastNotified - PacedSince(start, k, e), later - e.lastNotified);
        }
      } else {
        assert 0 * c.renotify == 0;
      }
    }
  }

  lemma PacedOther(start: Book, b: Book, t: Tally, k: string, op: Op, now: int)
    requires Paced(start, b, t, k, now) && !op.Observe?
    ensures Paced(start, Apply(b, op), Counted(t, Quiet, IsTimedDismissal(b, op, k)), k, now)
  {
  }

  lemma NothingSoFar(start: Book, k: string, now: int)
    requires k in start.entries ==> start.entries[k].lastNotified <= now
    ensures Paced(start, start, Tally(0, 0, 0, 0), k, now)
  {
    if k in start.entries {
      assert 0 * start.entries[k].renotify == 0;
    }
  }

  lemma {:induction false} EveryKeyPaced(start: Book, ops: seq<Op>, k: string, now: int)
    requires ClockRuns(start, ops, k, now)
    ensures Paced(start, After(start, ops), TallyOf(start, ops, k), k, now)
    decreases |ops|
  {
    if ops == [] {
      NothingSoFar(start, k, now);
    } else {
      var n := |ops| - 1;
      var op, earlier := ops[n], ops[..n];
      var b, t := After(start, earlier), TallyOf(start, earlier, k);
      if op.Observe? {
        EveryKeyPaced(start, earlier, k, op.now);
        PacedObserve(start, b, t, k, op.c, op.now, op.now);
        Later(start, After(start, ops), TallyOf(start, ops, k), k, op.now, now);
      } else {
        EveryKeyPaced(start, earlier, k, now);
        PacedOther(start, b, t, k, op, now);
      }
    }
  }

  lemma Later(start: Book, b: Book, t: Tally, k: string, now: int, later: int)
    requires Paced(start, b, t, k, now) && now <= later
    ensures Paced(start, b, t, k, later)
  {
  }

  lemma AtMostQuotient(n: nat, period: int, span: int)
    requires period > 0 && n * period <= span
    ensures n <= span / period
  {
    assert span < period * (span / period + 1);
    assert n * period < (span / period + 1) * period;
  }

  /**
   The entry was announced once if it was not there at the start, reminded at most once a
   period since its last notification then, and revived at most once for each dismissal with a
   deadline, counting one already in force at the start; without a period it was never reminded.
   */
  ghost predicate RemindersBounded(start: Book, k: string, e: Entry, t: Tally, now: int) {
    var owed := t.timed + RevivalDue(start.entries, k);
    && t.first == Announced(start, k)
    && t.revived <= owed
    && (e.renotify > 0 ==>
          && t.again * e.renotify <= e.lastNotified - PacedSince(start, k, e)
          && Messages(t) <= Announced(start, k) + (now - PacedSince(start, k, e)) / e.renotify + owed)
    && (e.renotify <= 0 ==> Messages(t) <= Announced(start, k) + owed)
  }

  lemma PacedBound(start: Book, b: Book, t: Tally, k: string, now: int)
    requires k in b.entries && Paced(start, b, t, k, now)
    ensures RemindersBounded(start, k, b.entries[k], t, now)
  {
    var e := b.entries[k];
    if e.renotify > 0 {
      AtMostQuotient(t.again, e.renotify, now - PacedSince(start, k, e));
    }
  }

  /** So it is in any run under a clock that never goes back, from an empty tracker or a restored one. */
  lemma {:induction false} ReminderBound(start: Book, ops: seq<Op>, k: string, now: int)
    requires ClockRuns(start, ops, k, now)
    requires k in After(start, ops).entries
    ensures RemindersBounded(start, k, After(start, ops).entries[k], TallyOf(start, ops, k), now)
  {
    EveryKeyPaced(start, ops, k, now);
    PacedBound(start, After(start, ops), TallyOf(start, ops, k), k, now);
  }

  // ---- Dismissal ----

  /** No `Dismiss` or `Resolve` of the run lands on `k`. */
  ghost predicate LeftAlone(b: Book, ops: seq<Op>, k: string) {
    var n := |ops| - 1;
    ops == [] || (LeftAlone(b, ops[..n], k) && (ops[n].Observe? || Target(After(b, ops[..n]), ops[n]) != Some(k)))
  }

  /** No observation of `k` is later than `d`. */
  ghost predicate NoneLater(ops: seq<Op>, k: string, d: int) {
    forall i :: 0 <= i < |ops| && ops[i].Observe? && KeyOf(ops[i].c) == k ==> ops[i].now <= d
  }

  ghost predicate Asleep(b: Book, k: string, until: Option<int>) {
    k in b.entries && b.entries[k].state == Dismissed && b.entries[k].dismissUntil == until
  }

  lemma AsleepStep(b: Book, op: Op, k: string, until: Option<int>)
    requires Asleep(b, k, until) && (op.Observe? || Target(b, op) != Some(k))
    requires until.Some? && op.Observe? && KeyOf(op.c) == k ==> op.now <= until.value
    ensures Asleep(Apply(b, op), k, until) && NoteFor(b, op, k) == Quiet
  {
  }

  lemma {:induction false} StaysAsleep(b: Book, ops: seq<Op>, k: string, until: Option<int>)
    requires Asleep(b, k, until) && LeftAlone(b, ops, k)
    requires until.Some? ==> NoneLater(ops, k, until.value)
    ensures Asleep(After(b, ops), k, until) && Messages(TallyOf(b, ops, k)) == 0
    decreases |ops|
  {
    if ops != [] {
      var n := |ops| - 1;
      assert forall i :: 0 <= i < n ==> ops[..n][i] == ops[i];
      StaysAsleep(b, ops[..n], k, until);
      AsleepStep(After(b, ops[..n]), ops[n], k, until);
    }
  }

  /** An entry dismissed without a deadline stays silent until another `Dismiss` or `Resolve` reaches it. */
  lemma DismissedForGood(b: Book, ops: seq<Op>, k: string)
    requires Asleep(b, k, None) && LeftAlone(b, ops, k)
    ensures Messages(TallyOf(b, ops, k)) == 0
    ensures Asleep(After(b, ops), k, None)
  {
    StaysAsleep(b, ops, k, None);
  }

  // ---- Accrued waste ----

  /** An entry observed at each of the given times. */
  function SeenAt(e: Entry, c: Candidate, times: seq<int>): Entry {
    if times == [] then e else
    Seen(SeenAt(e, c, times[..|times| - 1]), c, times[|times| - 1]).0
  }

  lemma CostAdds(perDay: real, a: int, b: int)
    ensures Cost(perDay, a) + Cost(perDay, b) == Cost(perDay, a + b)
    ensures Cost(perDay, 0) == 0.0
  {
  }

  /** The observation times never go back, and start no earlier than the last notification. */
  ghost predicate InTime(e: Entry, times: seq<int>) {
    && (forall i :: 0 <= i < |times| ==> e.lastNotified <= times[i])
    && (forall i, j :: 0 <= i < j < |times| ==> times[i] <= times[j])
  }

  /** The last observation, or the last notification when there was none. */
  function End(e: Entry, times: seq<int>): int {
    if times == [] then e.lastNotified else times[|times| - 1]
  }

  /** What the observations left charged but not yet notified: the next one charges it again. */
  function Outstanding(e: Entry, c: Candidate, times: seq<int>): real {
    if times == [] then 0.0 else
    var n := |times| - 1;
    Outstanding(e, c, times[..n]) + Cost(c.wastedCost, times[n] - SeenAt(e, c, times).lastNotified)
  }

  /** Time charged more than once: what every observation but the last left outstanding. */
  function Overcharge(e: Entry, c: Candidate, times: seq<int>): real {
    if times == [] then 0.0 else Outstanding(e, c, times[..|times| - 1])
  }

  lemma {:induction false} NotifiedInTime(e: Entry, c: Candidate, times: seq<int>)
    requires InTime(e, times)
    ensures SeenAt(e, c, times).lastNotified <= End(e, times)
  {
    if times == [] {
    } else {
      NotifiedInTime(e, c, times[..|times| - 1]);
    }
  }

  lemma AccruesSinceNotified(e: Entry, c: Candidate, now: int)
    requires c.wastedCost > 0.0 && e.lastNotified <= now
    ensures Seen(e, c, now).0.totalWaste == e.totalWaste + Cost(c.wastedCost, now - e.lastNotified)
  {
    CostAdds(c.wastedCost, 0, 0);
  }

  lemma AccruesOneMore(e: Entry, c: Candidate, times: seq<int>)
    requires c.wastedCost > 0.0 && times != [] && InTime(e, times)
    ensures var before := SeenAt(e, c, times[..|times| - 1]);
      SeenAt(e, c, times).totalWaste == before.totalWaste + Cost(c.wastedCost, End(e, times) - before.lastNotified)
  {
    var n := |times| - 1;
    NotifiedInTime(e, c, times[..n]);
    AccruesSinceNotified(SeenAt(e, c, times[..n]), c, times[n]);
  }

  /**
   Whatever is notified, dismissed or silent in between, the waste an entry accrues is the cost
   of the time that passed plus what every observation but the last left outstanding.
   */
  lemma {:induction false} AccruedWaste(e: Entry, c: Candidate, times: seq<int>)
    requires c.wastedCost > 0.0 && InTime(e, times)
    ensures SeenAt(e, c, times).totalWaste ==
      e.totalWaste + Cost(c.wastedCost, End(e, times) - e.lastNotified) + Overcharge(e, c, times)
  {
    if times == [] {
      CostAdds(c.wastedCost, 0, 0);
    } else {
      var n := |times| - 1;
      AccruedWaste(e, c, times[..n]);
      AccruesOneMore(e, c, times);
      OverchargeGrows(e, c, times);
    }
  }

  lemma OverchargeGrows(e: Entry, c: Candidate, times: seq<int>)
    requires times != []
    ensures var n := |times| - 1;
      var before := SeenAt(e, c, times[..n]);
      Cost(c.wastedCost, End(e, times[..n]) - e.lastNotified) + Overcharge(e, c, times[..n])
        + Cost(c.wastedCost, times[n] - before.lastNotified)
        == Cost(c.wastedCost, times[n] - e.lastNotified) + Overcharge(e, c, times)
  {
    var n := |times| - 1;
    var w, last, end := c.wastedCost, SeenAt(e, c, times[..n]).lastNotified, End(e, times[..n]);
    CostAdds(w, end - e.lastNotified, times[n] - end);
    CostAdds(w, times[n] - end, end - last);
    if n == 0 {
      CostAdds(w, 0, 0);
    }
  }

  /** The observation moves the last notification, or is made at it. */
  predicate Settles(e: Entry, now: int) {
    e.state == Dismissed || Due(e, now) || now == e.lastNotified
  }

  /** Every observation but the last settles. */
  ghost predicate AllSettle(e: Entry, c: Candidate, times: seq<int>) {
    forall i :: 0 <= i < |times| - 1 ==> Settles(SeenAt(e, c, times[..i]), times[i])
  }

  lemma OutstandingOne(e: Entry, c: Candidate, now: int)
    requires c.wastedCost > 0.0 && e.lastNotified <= now
    ensures Cost(c.wastedCost, now - Seen(e, c, now).0.lastNotified) >= 0.0
    ensures Cost(c.wastedCost, now - Seen(e, c, now).0.lastNotified) == 0.0 <==> Settles(e, now)
  {
    CostAdds(c.wastedCost, 0, 0);
    if e.lastNotified < now {
      CostPositive(c.wastedCost, now - e.lastNotified);
    }
  }

  ghost predicate SettledUpTo(e: Entry, c: Candidate, times: seq<int>) {
    forall i :: 0 <= i < |times| ==> Settles(SeenAt(e, c, times[..i]), times[i])
  }

  lemma SettledOneMore(e: Entry, c: Candidate, times: seq<int>)
    requires times != []
    ensures var n := |times| - 1;
      SettledUpTo(e, c, times) <==> SettledUpTo(e, c, times[..n]) && Settles(SeenAt(e, c, times[..n]), times[n])
  {
    var n := |times| - 1;
    assert forall i :: 0 <= i < n ==> times[..n][..i] == times[..i];
    if SettledUpTo(e, c, times[..n]) && Settles(SeenAt(e, c, times[..n]), times[n]) {
      forall i | 0 <= i <= n ensures Settles(SeenAt(e, c, times[..i]), times[i]) {
        assert i < n ==> Settles(SeenAt(e, c, times[..n][..i]), times[..n][i]);
      }
    }
    if SettledUpTo(e, c, times) {
      forall i | 0 <= i < n ensures Settles(SeenAt(e, c, times[..n][..i]), times[..n][i]) {
        assert Settles(SeenAt(e, c, times[..i]), times[i]);
      }
    }
  }

  lemma {:induction false} OutstandingIff(e: Entry, c: Candidate, times: seq<int>)
    requires c.wastedCost > 0.0 && InTime(e, times)
    ensures Outstanding(e, c, times) >= 0.0
    ensures Outstanding(e, c, times) == 0.0 <==> SettledUpTo(e, c, times)
  {
    if times == [] {
    } else {
      var n := |times| - 1;
      OutstandingIff(e, c, times[..n]);
      SettledOneMore(e, c, times);
      NotifiedInTime(e, c, times[..n]);
      OutstandingOne(SeenAt(e, c, times[..n]), c, times[n]);
    }
  }

  /**
   So the waste is never less than the cost of the time that passed, and exactly that when and
   only when every observation but the last moved the last notification or was made at it.
   */
  lemma WasteExactIff(e: Entry, c: Candidate, times: seq<int>)
    requires c.wastedCost > 0.0 && InTime(e, times)
    ensures var exact := e.totalWaste + Cost(c.wastedCost, End(e, times) - e.lastNotified);
      && SeenAt(e, c, times).totalWaste >= exact
      && (SeenAt(e, c, times).totalWaste == exact <==> AllSettle(e, c, times))
  {
    AccruedWaste(e, c, times);
    if times != [] {
      var n := |times| - 1;
      OutstandingIff(e, c, times[..n]);
      assert forall i :: 0 <= i < n ==> times[..n][..i] == times[..i];
      SettledButLast(e, c, times);
    }
  }

  lemma SettledButLast(e: Entry, c: Candidate, times: seq<int>)
    requires times != []
    ensures SettledUpTo(e, c, times[..|times| - 1]) <==> AllSettle(e, c, times)
  {
    var n := |times| - 1;
    if AllSettle(e, c, times) {
      forall i | 0 <= i < n ensures Settles(SeenAt(e, c, times[..n][..i]), times[..n][i]) {
        assert times[..n][..i] == times[..i] && Settles(SeenAt(e, c, times[..i]), times[i]);
      }
    }
    if SettledUpTo(e, c, times[..n]) {
      forall i | 0 <= i < n ensures Settles(SeenAt(e, c, times[..i]), times[i]) {
        assert times[..n][..i] == times[..i] && Settles(SeenAt(e, c, times[..n][..i]), times[..n][i]);
      }
    }
  }

  /** The deadline, if there is one, has not passed. */
  predicate InForce(e: Entry, now: int) {
    e.dismissUntil.None? || now <= e.dismissUntil.value
  }

  lemma {:induction false} StaysDismissed(e: Entry, c: Candidate, times: seq<int>)
    requires e.state == Dismissed && forall i :: 0 <= i < |times| ==> InForce(e, times[i])
    ensures SeenAt(e, c, times) == e.(totalWaste := SeenAt(e, c, times).totalWaste, lastNotified := End(e, times))
  {
    if times == [] {
    } else {
      StaysDismissed(e, c, times[..|times| - 1]);
    }
  }

  /**
   Across a dismissal, up to the observation that finds its deadline passed, the waste is the
   cost of exactly the time that passed.
   */
  lemma DismissedWasteTelescopes(e: Entry, c: Candidate, times: seq<int>)
    requires e.state == Dismissed && c.wastedCost > 0.0 && InTime(e, times)
    requires forall i :: 0 <= i < |times| - 1 ==> InForce(e, times[i])
    ensures SeenAt(e, c, times).totalWaste == e.totalWaste + Cost(c.wastedCost, End(e, times) - e.lastNotified)
    ensures SeenAt(e, c, times).lastNotified == End(e, times)
    ensures times != [] ==> (SeenAt(e, c, times).state == Dismissed <==> InForce(e, End(e, times)))
  {
    WasteExactIff(e, c, times);
    forall i | 0 <= i < |times| - 1 ensures Settles(SeenAt(e, c, times[..i]), times[i]) {
      StaysDismissed(e, c, times[..i]);
    }
    if times != [] {
      StaysDismissed(e, c, times[..|times| - 1]);
    }
  }

  lemma {:induction false} StaysSilent(e: Entry, c: Candidate, times: seq<int>)
    requires e.state != Dismissed && forall i :: 0 <= i < |times| ==> !Due(e, times[i])
    ensures SeenAt(e, c, times) == e.(totalWaste := SeenAt(e, c, times).totalWaste)
  {
    if times == [] {
    } else {
      StaysSilent(e, c, times[..|times| - 1]);
    }
  }

  /** The cost from the last notification to each of the given times. */
  function Charges(perDay: real, since: int, times: seq<int>): real {
    if times == [] then 0.0 else
    Charges(perDay, since, times[..|times| - 1]) + Cost(perDay, times[|times| - 1] - since)
  }

  lemma {:induction false} SilentCharges(e: Entry, c: Candidate, times: seq<int>)
    requires e.state != Dismissed && forall i :: 0 <= i < |times| ==> !Due(e, times[i])
    ensures Outstanding(e, c, times) == Charges(c.wastedCost, e.lastNotified, times)
  {
    if times == [] {
    } else {
      SilentCharges(e, c, times[..|times| - 1]);
      StaysSilent(e, c, times);
    }
  }

  /**
   Silent observations of an entry that is not dismissed charge, each of them, all the time
   since the last notification: exact only if all but the last were made at that very instant.
   */
  lemma SilentObservationsOverlap(e: Entry, c: Candidate, times: seq<int>)
    requires e.state != Dismissed && c.wastedCost > 0.0 && times != [] && InTime(e, times)
    requires forall i :: 0 <= i < |times| ==> !Due(e, times[i])
    ensures var w := SeenAt(e, c, times).totalWaste;
      var exact := e.totalWaste + Cost(c.wastedCost, End(e, times) - e.lastNotified);
      && w == exact + Charges(c.wastedCost, e.lastNotified, times[..|times| - 1])
      && (w == exact <==> forall i :: 0 <= i < |times| - 1 ==> times[i] == e.lastNotified)
  {
    AccruedWaste(e, c, times);
    SilentCharges(e, c, times[..|times| - 1]);
    WasteExactIff(e, c, times);
    forall i | 0 <= i < |times| - 1
      ensures Settles(SeenAt(e, c, times[..i]), times[i]) <==> times[i] == e.lastNotified
    {
      StaysSilent(e, c, times[..i]);
    }
  }

  // ---- The ledger ----

  ghost function TotalSaving(entries: map<string, Entry>): real {
    if entries == map[] then 0.0 else
    var k :| k in entries;
    SavingOf(entries[k]) + TotalSaving(entries - {k})
  }

  /** The sum does not depend on the order it is taken in. */
  lemma {:induction false} SavingWithout(entries: map<string, Entry>, k: string)
    requires k in entries
    ensures TotalSaving(entries) == SavingOf(entries[k]) + TotalSaving(entries - {k})
    decreases |entries|
  {
    var x :| x in entries && TotalSaving(entries) == SavingOf(entries[x]) + TotalSaving(entries - {x});
    if x != k {
      SavingWithout(entries - {x}, k);
      SavingWithout(entries - {k}, x);
      assert entries - {x} - {k} == entries - {k} - {x};
    }
  }

  lemma SavingUpdate(entries: map<string, Entry>, k: string, e: Entry)
    ensures TotalSaving(entries[k := e]) ==
      TotalSaving(entries) - (if k in entries then SavingOf(entries[k]) else 0.0) + SavingOf(e)
  {
    SavingWithout(entries[k := e], k);
    assert entries[k := e] - {k} == entries - {k};
    if k in entries {
      SavingWithout(entries, k);
    } else {
      assert entries - {k} == entries;
    }
  }

  /** The reported saving is the sum over the resolved entries. */
  ghost predicate Ledger(b: Book) {
    b.saving == TotalSaving(b.entries)
  }

  /** The calls that move the reported saving away from the entries: those that change a resolved entry's worth. */
  predicate Distorts(b: Book, op: Op) {
    match op
    case Observe(c, now) =>
      KeyOf(c) in b.entries &&
      var e := b.entries[KeyOf(c)];
      e.state == Resolved &&
      if Due(e, now) then e.totalWaste != 0.0 else now > e.lastNotified && c.wastedCost > 0.0
    case Dismiss(_, _, _, _) =>
      var k := Target(b, op);
      k.Some? && k.value in b.entries && b.entries[k.value].state == Resolved && b.entries[k.value].totalWaste != 0.0
    case Resolve(_, _) => false
  }

  lemma CostPositive(perDay: real, elapsed: int)
    requires perDay > 0.0 && elapsed > 0
    ensures Cost(perDay, elapsed) > 0.0
  {
  }

  /** From a balanced ledger, a call keeps it balanced exactly when it is none of those. */
  lemma LedgerKeptIff(b: Book, op: Op)
    requires Ledger(b)
    ensures Ledger(Apply(b, op)) <==> !Distorts(b, op)
  {
    match op
    case Observe(c, now) =>
      var k := KeyOf(c);
      SavingUpdate(b.entries, k, Apply(b, op).entries[k]);
      if k in b.entries && now > b.entries[k].lastNotified && c.wastedCost > 0.0 {
        CostPositive(c.wastedCost, now - b.entries[k].lastNotified);
      }
    case Dismiss(_, _, _, _) =>
      if Target(b, op).Some? {
        var k := Target(b, op).value;
        SavingUpdate(b.entries, k, Apply(b, op).entries[k]);
      }
    case Resolve(_, _) =>
      if Target(b, op).Some? {
        var k := Target(b, op).value;
        SavingUpdate(b.entries, k, Apply(b, op).entries[k]);
      }
  }

  ghost predicate NeverDistorts(b: Book, ops: seq<Op>) {
    forall i :: 0 <= i < |ops| ==> !Distorts(After(b, ops[..i]), ops[i])
  }

  /** So it balances over every run without such a call. */
  lemma {:induction false} LedgerBalances(b: Book, ops: seq<Op>)
    requires Ledger(b) && NeverDistorts(b, ops)
    ensures Ledger(After(b, ops))
    decreases |ops|
  {
    if ops != [] {
      var n := |ops| - 1;
      assert forall i :: 0 <= i < n ==> ops[..n][..i] == ops[..i];
      LedgerBalances(b, ops[..n]);
      LedgerKeptIff(After(b, ops[..n]), ops[n]);
    }
  }

  predicate IsResolved(b: Book, k: string) {
    k in b.entries && b.entries[k].state == Resolved
  }

  /** The call resolves `k` and counts its worth. */
  predicate Resolves(b: Book, op: Op, k: string) {
    op.Resolve? && Target(b, op) == Some(k)
  }

  /** A reminder or a dismissal of the resolved entry, which open it again. */
  predicate Reopens(b: Book, op: Op, k: string) {
    IsResolved(b, k) && Target(b, op) == Some(k) && (op.Dismiss? || (op.Observe? && Due(b.entries[k], op.now)))
  }

  /** How often a run counts the worth of `k`, and how often it opens it again. */
  function Resolutions(b: Book, ops: seq<Op>, k: string): nat {
    if ops == [] then 0 else
    var n := |ops| - 1;
    Resolutions(b, ops[..n], k) + if Resolves(After(b, ops[..n]), ops[n], k) then 1 else 0
  }

  function Reopenings(b: Book, ops: seq<Op>, k: string): nat {
    if ops == [] then 0 else
    var n := |ops| - 1;
    Reopenings(b, ops[..n], k) + if Reopens(After(b, ops[..n]), ops[n], k) then 1 else 0
  }

  function ResolvedNow(b: Book, k: string): nat {
    if IsResolved(b, k) then 1 else 0
  }

  lemma ResolvedStep(b: Book, op: Op, k: string)
    ensures ResolvedNow(b, k) + (if Resolves(b, op, k) then 1 else 0) ==
      ResolvedNow(Apply(b, op), k) + (if Reopens(b, op, k) then 1 else 0)
  {
  }

  /** Over any run an entry is counted once for each time it was opened again, and once more if it ends resolved. */
  lemma {:induction false} ResolvedOnce(b: Book, ops: seq<Op>, k: string)
    ensures ResolvedNow(b, k) + Resolutions(b, ops, k) == ResolvedNow(After(b, ops), k) + Reopenings(b, ops, k)
    decreases |ops|
  {
    if ops == [] {
    } else {
      var n := |ops| - 1;
      ResolvedOnce(b, ops[..n], k);
      ResolvedStep(After(b, ops[..n]), ops[n], k);
    }
  }

  // ---- Restart ----

  ghost predicate DistinctKeys(list: seq<Entry>) {
    forall i, j :: 0 <= i < j < |list| ==>
      Key(list[i].sensorId, list[i].resourceId) != Key(list[j].sensorId, list[j].resourceId)
  }

  lemma {:induction false} LoadedKeys(list: seq<Entry>, k: string)
    ensures k in LoadAll(map[], list) <==>
      exists i :: 0 <= i < |list| && Key(list[i].sensorId, list[i].resourceId) == k
  {
    if list == [] {
    } else {
      var n := |list| - 1;
      LoadedKeys(list[..n], k);
      assert forall i :: 0 <= i < n ==> list[..n][i] == list[i];
    }
  }

  lemma {:induction false} LoadedSaving(list: seq<Entry>)
    requires DistinctKeys(list)
    ensures TotalSaving(LoadAll(map[], list)) == ListSaving(list)
  {
    if list == [] {
    } else {
      var n := |list| - 1;
      var k := Key(list[n].sensorId, list[n].resourceId);
      LoadedSaving(list[..n]);
      LoadedKeys(list[..n], k);
      assert k !in LoadAll(map[], list[..n]) by {
        assert forall i :: 0 <= i < n ==> Key(list[..n][i].sensorId, list[..n][i].resourceId) != k;
      }
      SavingUpdate(LoadAll(map[], list[..n]), k, list[n]);
    }
  }

  /** Restoring distinct entries into a fresh tracker balances the ledger exactly when their saving is not negative. */
  lemma RestoreBalancesIff(list: seq<Entry>)
    requires DistinctKeys(list)
    ensures Ledger(RestoreIn(EMPTY, list)) <==> ListSaving(list) >= 0.0
  {
    LoadedSaving(list);
  }

  /** Every entry is filed under its own key. */
  ghost predicate Filed(b: Book) {
    forall k :: k in b.entries ==> k == Key(b.entries[k].sensorId, b.entries[k].resourceId)
  }

  lemma FiledStep(b: Book, op: Op)
    requires Filed(b)
    ensures Filed(Apply(b, op))
  {
  }

  lemma {:induction false} LoadedFiled(list: seq<Entry>)
    ensures Filed(Book(LoadAll(map[], list), 0.0))
  {
    if list == [] {
    } else {
      LoadedFiled(list[..|list| - 1]);
    }
  }

  /** A restored tracker files its entries under their keys, whatever list it was given. */
  lemma RestoredFiled(list: seq<Entry>)
    ensures Filed(RestoreIn(EMPTY, list))
  {
    LoadedFiled(list);
  }

  /** And every run keeps it so. */
  lemma {:induction false} AlwaysFiled(b: Book, ops: seq<Op>)
    requires Filed(b)
    ensures Filed(After(b, ops))
    decreases |ops|
  {
    if ops == [] {
    } else {
      var n := |ops| - 1;
      AlwaysFiled(b, ops[..n]);
      FiledStep(After(b, ops[..n]), ops[n]);
    }
  }

  /** `m` holds entries of `entries` only, among them those under `keys`. */
  ghost predicate Holds(m: map<string, Entry>, entries: map<string, Entry>, keys: seq<string>) {
    && (forall k :: k in m ==> k in entries && m[k] == entries[k])
    && (forall i :: 0 <= i < |keys| ==> keys[i] in m)
  }

  lemma HoldsStep(m: map<string, Entry>, entries: map<string, Entry>, keys: seq<string>)
    requires keys != [] && keys[|keys| - 1] in entries
    requires Holds(m, entries, keys[..|keys| - 1])
    ensures Holds(m[keys[|keys| - 1] := entries[keys[|keys| - 1]]], entries, keys)
  {
    var n := |keys| - 1;
    assert forall i :: 0 <= i < n ==> keys[..n][i] == keys[i];
  }

  lemma {:induction false} LoadListing(entries: map<string, Entry>, keys: seq<string>)
    requires forall i :: 0 <= i < |keys| ==>
      keys[i] in entries && keys[i] == Key(entries[keys[i]].sensorId, entries[keys[i]].resourceId)
    ensures Holds(LoadAll(map[], Listing(entries, keys)), entries, keys)
  {
    if keys == [] {
    } else {
      var n := |keys| - 1;
      LoadListing(entries, keys[..n]);
      assert Listing(entries, keys)[..n] == Listing(entries, keys[..n]);
      HoldsStep(LoadAll(map[], Listing(entries, keys[..n])), entries, keys);
    }
  }

  /** Writing the snapshot out and restoring it into a fresh tracker brings back every entry. */
  lemma SnapshotRestores(b: Book)
    requires Filed(b)
    ensures RestoreIn(EMPTY, EntriesIn(b)).entries == b.entries
    ensures ListSaving(EntriesIn(b)) == TotalSaving(b.entries)
  {
    SnapshotLoads(b);
    SnapshotDistinct(b);
    LoadedSaving(EntriesIn(b));
  }

  lemma SnapshotLoads(b: Book)
    requires Filed(b)
    ensures LoadAll(map[], EntriesIn(b)) == b.entries
  {
    var keys := SortedKeys(b.entries.Keys);
    EnumerationWithin(keys, b.entries.Keys);
    LoadListing(b.entries, keys);
    HoldsAll(LoadAll(map[], EntriesIn(b)), b.entries, keys);
  }

  lemma HoldsAll(m: map<string, Entry>, entries: map<string, Entry>, keys: seq<string>)
    requires Holds(m, entries, keys) && Enumerates(keys, entries.Keys)
    ensures m == entries
  {
    forall k | k in entries ensures k in m {
      EnumerationCovers(keys, entries.Keys, k);
    }
    assert m.Keys == entries.Keys;
  }

  lemma SnapshotDistinct(b: Book)
    requires Filed(b)
    ensures DistinctKeys(EntriesIn(b))
  {
    var keys, list := SortedKeys(b.entries.Keys), EntriesIn(b);
    EnumerationWithin(keys, b.entries.Keys);
    EnumerationDistinct(keys, b.entries.Keys);
    assert forall i :: 0 <= i < |list| ==> Key(list[i].sensorId, list[i].resourceId) == keys[i];
  }

  /** The whole book comes back exactly when its ledger balances and its saving is not negative. */
  lemma RestartRoundTripIff(b: Book)
    requires Filed(b)
    ensures RestoreIn(EMPTY, EntriesIn(b)) == b <==>
      (Ledger(b) && b.saving >= 0.0) || (b.saving == 0.0 && TotalSaving(b.entries) < 0.0)
  {
    SnapshotRestores(b);
  }

  /** A tracker restored from disk and worked on without distorting calls reports the sum of its resolved entries. */
  lemma LedgerSurvivesRestart(list: seq<Entry>, ops: seq<Op>)
    requires DistinctKeys(list) && forall i :: 0 <= i < |list| ==> list[i].totalWaste >= 0.0
    requires NeverDistorts(RestoreIn(EMPTY, list), ops)
    ensures Ledger(After(RestoreIn(EMPTY, list), ops))
  {
    SavingNotNegative(list);
    RestoreBalancesIff(list);
    LedgerBalances(RestoreIn(EMPTY, list), ops);
  }

  lemma {:induction false} SavingNotNegative(list: seq<Entry>)
    requires forall i :: 0 <= i < |list| ==> list[i].totalWaste >= 0.0
    ensures ListSaving(list) >= 0.0
  {
    if list != [] {
      SavingNotNegative(list[..|list| - 1]);
    }
  }

  // ---- Restart after restart ----

  ghost predicate NoNegativeWaste(b: Book) {
    forall k :: k in b.entries ==> b.entries[k].totalWaste >= 0.0
  }

  lemma NotNegativeStep(b: Book, op: Op)
    requires NoNegativeWaste(b)
    ensures NoNegativeWaste(Apply(b, op))
  {
    if op.Observe? && KeyOf(op.c) in b.entries {
      var e := b.entries[KeyOf(op.c)];
      if op.now > e.lastNotified && op.c.wastedCost > 0.0 {
        CostPositive(op.c.wastedCost, op.now - e.lastNotified);
      }
    }
  }

  lemma {:induction false} NeverNegativeWaste(b: Book, ops: seq<Op>)
    requires NoNegativeWaste(b)
    ensures NoNegativeWaste(After(b, ops))
    decreases |ops|
  {
    if ops == [] {
    } else {
      var n := |ops| - 1;
      NeverNegativeWaste(b, ops[..n]);
      NotNegativeStep(After(b, ops[..n]), ops[n]);
    }
  }

  lemma {:induction false} LoadedNotNegative(list: seq<Entry>)
    requires forall i :: 0 <= i < |list| ==> list[i].totalWaste >= 0.0
    ensures forall k :: k in LoadAll(map[], list) ==> LoadAll(map[], list)[k].totalWaste >= 0.0
  {
    if list == [] {
    } else {
      LoadedNotNegative(list[..|list| - 1]);
    }
  }

  /** Restored, run without a distorting call and restarted again, the tracker comes back whole: entries and saving. */
  lemma SecondRestart(list: seq<Entry>, ops: seq<Op>)
    requires DistinctKeys(list) && forall i :: 0 <= i < |list| ==> list[i].totalWaste >= 0.0
    requires NeverDistorts(RestoreIn(EMPTY, list), ops)
    ensures var b := After(RestoreIn(EMPTY, list), ops);
      RestoreIn(EMPTY, EntriesIn(b)) == b
  {
    var start := RestoreIn(EMPTY, list);
    var b := After(start, ops);
    RestoredFiled(list);
    AlwaysFiled(start, ops);
    LedgerSurvivesRestart(list, ops);
    LoadedNotNegative(list);
    NeverNegativeWaste(start, ops);
    EnumerationWithin(SortedKeys(b.entries.Keys), b.entries.Keys);
    SavingNotNegative(EntriesIn(b));
    SnapshotRestores(b);
    RestartRoundTripIff(b);
  }
}
