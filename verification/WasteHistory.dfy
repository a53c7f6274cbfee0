/**
 What an observation is answered with, told from the calls made before it: announcements,
 reminders and dismissals over whole runs, and which entry a call lands on.
 */
module WasteHistory {
  import opened Wrappers
  import opened StringOrder
  import opened WasteTracker
  import opened WasteRuns

  // ---- Where a call lands ----

  /** `k` comes first among the keys of `order` that satisfy `p`. */
  ghost predicate FirstIn(order: seq<string>, k: string, p: string -> bool) {
    exists i :: 0 <= i < |order| && order[i] == k && p(k) && forall j :: 0 <= j < i ==> !p(order[j])
  }

  lemma {:induction false} FirstMatchIsFirst(entries: map<string, Entry>, order: seq<string>, r: string, open: bool)
    requires FirstMatch(entries, order, r, open).Some?
    ensures FirstIn(order, FirstMatch(entries, order, r, open).value, k => Matches(entries, k, r, open))
  {
    var p := k => Matches(entries, k, r, open);
    if p(order[0]) {
      assert FirstIn(order, order[0], p);
    } else {
      FirstMatchIsFirst(entries, order[1..], r, open);
      var k := FirstMatch(entries, order[1..], r, open).value;
      var i :| 0 <= i < |order[1..]| && order[1..][i] == k && p(k) && forall j :: 0 <= j < i ==> !p(order[1..][j]);
      assert order[i + 1] == k;
      forall j | 0 <= j < i + 1 ensures !p(order[j]) {
        assert j > 0 ==> !p(order[1..][j - 1]);
      }
    }
  }

  lemma NoMatchAnywhere(entries: map<string, Entry>, order: seq<string>, r: string, open: bool)
    requires Enumerates(order, entries.Keys) && FirstMatch(entries, order, r, open).None?
    ensures forall k :: k in entries ==> !Matches(entries, k, r, open)
  {
    forall k | k in entries ensures !Matches(entries, k, r, open) {
      EnumerationCovers(order, entries.Keys, k);
    }
  }

  /** All but the entry under `k` is the same in both books. */
  ghost predicate OnlyAt(b: Book, b': Book, k: string) {
    b'.entries.Keys == b.entries.Keys && forall x :: x in b.entries && x != k ==> b'.entries[x] == b.entries[x]
  }

  /**
   A dismissal lands on the first entry of that very resource in the order the map is iterated
   in, puts its reason and its deadline there, and changes nothing else; without such an entry
   it changes nothing at all.
   */
  lemma DismissLands(b: Book, r: string, reason: string, until: Option<int>, order: seq<string>)
    requires Enumerates(order, b.entries.Keys)
    ensures var op := Dismiss(r, reason, until, order);
      var b' := Apply(b, op);
      match Target(b, op)
      case None => b' == b && forall k :: k in b.entries ==> b.entries[k].resourceId != r
      case Some(k) =>
        && FirstIn(order, k, x => x in b.entries && b.entries[x].resourceId == r)
        && k in b.entries && OnlyAt(b, b', k) && b'.saving == b.saving
        && b'.entries[k] == b.entries[k].(state := Dismissed, dismissReason := reason, dismissUntil := until)
  {
    var p := x => Matches(b.entries, x, r, false);
    var q := x => x in b.entries && b.entries[x].resourceId == r;
    if FirstMatch(b.entries, order, r, false).Some? {
      FirstMatchIsFirst(b.entries, order, r, false);
      SamePredicate(order, FirstMatch(b.entries, order, r, false).value, p, q);
    } else {
      NoMatchAnywhere(b.entries, order, r, false);
      assert forall k :: k in b.entries ==> !Matches(b.entries, k, r, false);
    }
  }

  lemma SamePredicate(order: seq<string>, k: string, p: string -> bool, q: string -> bool)
    requires FirstIn(order, k, p) && forall x :: p(x) == q(x)
    ensures FirstIn(order, k, q)
  {
  }

  /** A resolution lands on the first entry of the resource not resolved yet, and counts its waste. */
  lemma ResolveLands(b: Book, r: string, order: seq<string>)
    requires Enumerates(order, b.entries.Keys)
    ensures var op := Resolve(r, order);
      var b' := Apply(b, op);
      match Target(b, op)
      case None =>
        && b' == b
        && forall k :: k in b.entries && b.entries[k].resourceId == r ==> b.entries[k].state == Resolved
      case Some(k) =>
        && FirstIn(order, k, x => x in b.entries && b.entries[x].resourceId == r && b.entries[x].state != Resolved)
        && k in b.entries && OnlyAt(b, b', k) && b'.saving == b.saving + b.entries[k].totalWaste
        && b'.entries[k] == b.entries[k].(state := Resolved)
  {
    var p := x => Matches(b.entries, x, r, true);
    var q := x => x in b.entries && b.entries[x].resourceId == r && b.entries[x].state != Resolved;
    if FirstMatch(b.entries, order, r, true).Some? {
      FirstMatchIsFirst(b.entries, order, r, true);
      SamePredicate(order, FirstMatch(b.entries, order, r, true).value, p, q);
    } else {
      NoMatchAnywhere(b.entries, order, r, true);
      assert forall k :: k in b.entries ==> !Matches(b.entries, k, r, true);
    }
  }

  // ---- Dismissals over runs ----

  lemma DismissSleeps(b: Book, op: Op, k: string)
    requires op.Dismiss? && Target(b, op) == Some(k)
    ensures Asleep(Apply(b, op), k, op.until)
  {
  }

  lemma AsleepAnswers(b: Book, k: string, until: Option<int>, c: Candidate, now: int)
    requires Asleep(b, k, until) && KeyOf(c) == k
    ensures NoteFor(b, Observe(c, now), k) == if until.Some? && now > until.value then Revived else Quiet
  {
  }

  /**
   After a call that dismisses `k` until `d`, and with no further call on it, every observation
   up to `d` is silent and the first one later than `d` is answered as a revival.
   */
  lemma DismissedUntil(b: Book, r: string, reason: string, d: int, order: seq<string>, ops: seq<Op>, k: string,
                       c: Candidate, now: int)
    requires Target(b, Dismiss(r, reason, Some(d), order)) == Some(k)
    requires var b' := Apply(b, Dismiss(r, reason, Some(d), order));
      LeftAlone(b', ops, k) && NoneLater(ops, k, d) && KeyOf(c) == k
    ensures var b' := Apply(b, Dismiss(r, reason, Some(d), order));
      && Messages(TallyOf(b', ops, k)) == 0
      && NoteFor(After(b', ops), Observe(c, now), k) == if now > d then Revived else Quiet
  {
    var op := Dismiss(r, reason, Some(d), order);
    DismissSleeps(b, op, k);
    hide *;
    StaysAsleep(Apply(b, op), ops, k, Some(d));
    AsleepAnswers(After(Apply(b, op), ops), k, Some(d), c, now);
  }

  /** After one that dismisses it without a deadline every observation is silent, for good. */
  lemma DismissedWithoutDeadline(b: Book, r: string, reason: string, order: seq<string>, ops: seq<Op>, k: string,
                                 c: Candidate, now: int)
    requires Target(b, Dismiss(r, reason, None, order)) == Some(k)
    requires LeftAlone(Apply(b, Dismiss(r, reason, None, order)), ops, k) && KeyOf(c) == k
    ensures var b' := Apply(b, Dismiss(r, reason, None, order));
      && Messages(TallyOf(b', ops, k)) == 0
      && NoteFor(After(b', ops), Observe(c, now), k) == Quiet
  {
    var op := Dismiss(r, reason, None, order);
    DismissSleeps(b, op, k);
    hide *;
    StaysAsleep(Apply(b, op), ops, k, None);
    AsleepAnswers(After(Apply(b, op), ops), k, None, c, now);
  }

  // ---- Reminders over runs ----

  /** When `k` was last spoken of in the run: `since` if it was not. */
  function LastTold(b: Book, ops: seq<Op>, k: string, since: int): int {
    if ops == [] then since else
    var n := |ops| - 1;
    var op := ops[n];
    if op.Observe? && NoteFor(After(b, ops[..n]), op, k) != Quiet then op.now else LastTold(b, ops[..n], k, since)
  }

  /** The entry has the given period and state, and was last spoken of at `told`. */
  ghost predicate Awake(b: Book, k: string, period: int, state: Lifecycle, told: int) {
    && k in b.entries && state != Dismissed
    && b.entries[k].renotify == period && b.entries[k].state == state && b.entries[k].lastNotified == told
  }

  /** The state an entry is in after messages, or without any. */
  function StateAfter(state: Lifecycle, messages: nat): Lifecycle {
    if messages > 0 then Renoted else state
  }

  lemma {:induction false} StaysAwake(b: Book, ops: seq<Op>, k: string, period: int, state: Lifecycle, since: int)
    requires Awake(b, k, period, state, since) && LeftAlone(b, ops, k)
    ensures Awake(After(b, ops), k, period, StateAfter(state, Messages(TallyOf(b, ops, k))), LastTold(b, ops, k, since))
    decreases |ops|
  {
    if ops != [] {
      var n := |ops| - 1;
      StaysAwake(b, ops[..n], k, period, state, since);
      AwakeStep(After(b, ops[..n]), ops[n], k, period, StateAfter(state, Messages(TallyOf(b, ops[..n], k))),
                LastTold(b, ops[..n], k, since));
      OneMoreMessage(TallyOf(b, ops[..n], k), NoteFor(After(b, ops[..n]), ops[n], k),
                     IsTimedDismissal(After(b, ops[..n]), ops[n], k));
    }
  }

  lemma OneMoreMessage(t: Tally, note: Note, timed: bool)
    ensures Messages(Counted(t, note, timed)) == Messages(t) + if note == Quiet then 0 else 1
  {
  }

  lemma AwakeStep(b: Book, op: Op, k: string, period: int, state: Lifecycle, told: int)
    requires Awake(b, k, period, state, told) && (op.Observe? || Target(b, op) != Some(k))
    ensures if NoteFor(b, op, k) == Quiet then Awake(Apply(b, op), k, period, state, told)
      else op.Observe? && Awake(Apply(b, op), k, period, Renoted, op.now)
  {
  }

  /** A reminder is due: the period of the entry has passed since it was last spoken of. */
  predicate ReminderDue(period: int, told: int, now: int) {
    period > 0 && now - told >= period
  }

  /** The name a candidate's resource goes by: its label, or the alert's name where that is missing or empty. */
  function ResourceOf(c: Candidate): string {
    match "resource" in c.labels
    case false => c.alertName
    case true => if |c.labels["resource"]| == 0 then c.alertName else c.labels["resource"]
  }

  /**
   A candidate seen for the first time is announced and filed as such; from then on, with no
   call on it, an observation is answered with a reminder exactly when the period it was filed
   with has passed since it was last spoken of, and otherwise with silence. The first reminder
   makes it a renoted entry.
   */
  lemma AnnouncedThenReminded(b: Book, c: Candidate, t: int, ops: seq<Op>, next: Candidate, now: int)
    requires c.sensorId + "/" + ResourceOf(c) !in b.entries
    requires LeftAlone(Apply(b, Observe(c, t)), ops, KeyOf(c)) && KeyOf(next) == KeyOf(c)
    ensures var k, b' := c.sensorId + "/" + ResourceOf(c), Apply(b, Observe(c, t));
      && k == KeyOf(c) && NoteFor(b, Observe(c, t), k) == First
      && b'.entries == b.entries[k := Entry(c.sensorId, ResourceOf(c), c.reason, Notified, t, t, c.renotify,
                                            0.0, 0.0, "", None)]
      && NoteFor(After(b', ops), Observe(next, now), k) ==
           (if ReminderDue(c.renotify, LastTold(b', ops, k, t), now) then Again else Quiet)
      && k in After(b', ops).entries
      && After(b', ops).entries[k].state == if Messages(TallyOf(b', ops, k)) > 0 then Renoted else Notified
  {
    hide After, TallyOf, LastTold, LeftAlone;
    StaysAwake(Apply(b, Observe(c, t)), ops, KeyOf(c), c.renotify, Notified, t);
  }

  /** So it goes on after a revival, with the period the entry was filed with. */
  lemma RevivedThenReminded(b: Book, c: Candidate, t: int, ops: seq<Op>, next: Candidate, now: int)
    requires NoteFor(b, Observe(c, t), KeyOf(c)) == Revived
    requires LeftAlone(Apply(b, Observe(c, t)), ops, KeyOf(c)) && KeyOf(next) == KeyOf(c)
    ensures var k, b' := KeyOf(c), Apply(b, Observe(c, t));
      && k in b.entries
      && NoteFor(After(b', ops), Observe(next, now), k) ==
           (if ReminderDue(b.entries[k].renotify, LastTold(b', ops, k, t), now) then Again else Quiet)
      && k in After(b', ops).entries && After(b', ops).entries[k].state == Renoted
  {
    hide After, TallyOf, LastTold, LeftAlone;
    StaysAwake(Apply(b, Observe(c, t)), ops, KeyOf(c), b.entries[KeyOf(c)].renotify, Renoted, t);
  }

  /**
   All an observation does to a tracked entry besides charging it: a message makes it renoted,
   a message or a standing dismissal moves its last notification, and a revival lifts the deadline.
   */
  lemma ObservedEntry(b: Book, c: Candidate, now: int)
    requires KeyOf(c) in b.entries
    ensures var k, b' := KeyOf(c), Apply(b, Observe(c, now));
      var e, e', note := b.entries[k], b'.entries[k], NoteFor(b, Observe(c, now), k);
      && OnlyAt(b, b', k) && b'.saving == b.saving && note != First
      && e' == e.(totalWaste := e'.totalWaste,
                  state := if note == Quiet then e.state else Renoted,
                  lastNotified := if note == Quiet && e.state != Dismissed then e.lastNotified else now,
                  dismissUntil := if note == Revived then None else e.dismissUntil)
  {
  }

  /** Whatever is called, an entry stays, with the names, reason, first sight and period it was filed with. */
  lemma {:induction false} IdentityKept(b: Book, ops: seq<Op>, k: string)
    requires k in b.entries
    ensures k in After(b, ops).entries
    ensures var e, e' := b.entries[k], After(b, ops).entries[k];
      && e'.sensorId == e.sensorId && e'.resourceId == e.resourceId && e'.reason == e.reason
      && e'.firstSeen == e.firstSeen && e'.renotify == e.renotify
    decreases |ops|
  {
    if ops != [] {
      IdentityKept(b, ops[..|ops| - 1], k);
    }
  }

  // ---- Snapshots and restores ----

  /** A snapshot lists the entries in byte order of their keys. */
  lemma SnapshotInOrder(b: Book, keys: seq<string>)
    requires Enumerates(keys, b.entries.Keys)
    requires forall i, j :: 0 <= i < j < |keys| ==> ByteOrder(keys[i], keys[j])
    ensures |EntriesIn(b)| == |keys|
    ensures forall i :: 0 <= i < |keys| ==> keys[i] in b.entries && EntriesIn(b)[i] == b.entries[keys[i]]
  {
    SortedKeysIff(b.entries.Keys, keys);
    hide ByteOrder;
  }

  /** The last entry of the list with that key. */
  ghost predicate LastWith(list: seq<Entry>, k: string, i: nat) {
    && i < |list| && list[i].sensorId + "/" + list[i].resourceId == k
    && forall j :: i < j < |list| ==> list[j].sensorId + "/" + list[j].resourceId != k
  }

  /** A restored entry is the last of its key in the list; what the list has no entry for stays. */
  lemma {:induction false} RestoredEntry(b: Book, list: seq<Entry>, k: string)
    ensures var after := RestoreIn(b, list).entries;
      || (exists i: nat :: LastWith(list, k, i) && k in after && after[k] == list[i])
      || ((forall j :: 0 <= j < |list| ==> list[j].sensorId + "/" + list[j].resourceId != k)
          && (k in after <==> k in b.entries) && (k in after ==> after[k] == b.entries[k]))
  {
    if list != [] {
      var n := |list| - 1;
      RestoredEntry(b, list[..n], k);
      if list[n].sensorId + "/" + list[n].resourceId == k {
        assert LastWith(list, k, n);
      } else if i: nat :| LastWith(list[..n], k, i) && RestoreIn(b, list[..n]).entries[k] == list[..n][i] {
        assert LastWith(list, k, i);
      }
    }
  }

  /** The saving becomes the larger of the old one and the sum over the resolved entries of the list. */
  lemma RestoredSaving(b: Book, list: seq<Entry>)
    requires DistinctKeys(list)
    ensures var sum := TotalSaving(LoadAll(map[], list));
      RestoreIn(b, list).saving == if sum > b.saving then sum else b.saving
  {
    LoadedSaving(list);
  }

  // ---- Which resources share an entry ----

  /** Some other resource, of this or another sensor, is filed in the same place. */
  ghost predicate EntryShared(s: string, r: string) {
    exists s': string, r': string :: (s' != s || r' != r) && Key(s', r') == Key(s, r)
  }

  lemma SplitAt(s: string, r: string, p: nat)
    requires p < |Key(s, r)| && Key(s, r)[p] == '/' && p != |s|
    ensures EntryShared(s, r)
  {
    var k := Key(s, r);
    assert Key(k[..p], k[p + 1..]) == k;
    assert |k[..p]| != |s|;
  }

  /** A resource shares its entry with some other exactly when its name or its sensor's holds a slash. */
  lemma EntrySharedIff(s: string, r: string)
    ensures EntryShared(s, r) <==> '/' in s || '/' in r
  {
    var k := Key(s, r);
    if '/' in s {
      var p :| 0 <= p < |s| && s[p] == '/';
      assert k[p] == '/';
      SplitAt(s, r, p);
    } else if '/' in r {
      var q :| 0 <= q < |r| && r[q] == '/';
      assert k[|s| + 1 + q] == '/';
      SplitAt(s, r, |s| + 1 + q);
    } else {
      forall s': string, r': string | Key(s', r') == k ensures s' == s && r' == r {
        assert k[|s'|] == '/';
        assert |s'| == |s|;
        assert s == k[..|s|] && s' == k[..|s'|];
        assert r == k[|s| + 1..] && r' == k[|s'| + 1..];
      }
    }
  }

  /** Of two resources that share an entry the second is never announced while the first is tracked. */
  lemma SharedNotAnnounced(b: Book, c: Candidate, t: int, c': Candidate, t': int)
    requires Key(c.sensorId, ResourceOf(c)) == Key(c'.sensorId, ResourceOf(c'))
    ensures ObserveIn(Apply(b, Observe(c, t)), c', t').1 != First
  {
  }

  // ---- Rates ----

  /** An observation `days` after the last notification charges as many daily rates. */
  lemma WholeDaysCharged(e: Entry, c: Candidate, days: nat)
    requires c.wastedCost > 0.0
    ensures Seen(e, c, e.lastNotified + days * 86_400_000_000_000).0.totalWaste
      == e.totalWaste + days as real * c.wastedCost
  {
    assert (days * 86_400_000_000_000) as real / 86_400_000_000_000.0 == days as real;
  }

  /** What costs nothing charges nothing, and neither does an observation no later than the last notification. */
  lemma NothingCharged(e: Entry, c: Candidate, now: int)
    requires c.wastedCost <= 0.0 || now <= e.lastNotified
    ensures Seen(e, c, now).0.totalWaste == e.totalWaste
  {
  }
}
