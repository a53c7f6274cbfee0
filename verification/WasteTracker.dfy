/**
 The life cycle of waste candidates: reminders, timed dismissal, revival, and the ledger of
 savings. Instants and durations are integers in nanoseconds, amounts exact reals.
 */
module WasteTracker {
  import opened Wrappers
  import opened Engine
  import opened StringOrder

  datatype Lifecycle = Notified | Renoted | Dismissed | Resolved

  /** `dismissUntil == None` is a dismissal without a deadline. */
  datatype Entry = Entry(
    sensorId: string,
    resourceId: string,
    reason: string,
    state: Lifecycle,
    firstSeen: int,
    lastNotified: int,
    renotify: int,
    wastePerDay: real,
    totalWaste: real,
    dismissReason: string,
    dismissUntil: Option<int>)

  datatype Candidate = Candidate(
    sensorId: string,
    alertName: string,
    reason: string,
    wastedCost: real,
    renotify: int,
    labels: map<string, string>)

  /** Whether an observation sends a message, and which. */
  datatype Note = Quiet | First | Again | Revived

  datatype Book = Book(entries: map<string, Entry>, saving: real)

  const EMPTY := Book(map[], 0.0)

  function ResourceKey(c: Candidate): string {
    if "resource" in c.labels && c.labels["resource"] != "" then c.labels["resource"] else c.alertName
  }

  function Key(sensorId: string, resourceId: string): string {
    sensorId + "/" + resourceId
  }

  function KeyOf(c: Candidate): string {
    Key(c.sensorId, ResourceKey(c))
  }

  function NewEntry(c: Candidate, now: int): Entry {
    Entry(c.sensorId, ResourceKey(c), c.reason, Notified, now, now, c.renotify, 0.0, 0.0, "", None)
  }

  /** Cost of `elapsed` at a daily rate. */
  function Cost(perDay: real, elapsed: int): real {
    perDay * (elapsed as real / DAY as real)
  }

  function Accrued(e: Entry, c: Candidate, now: int): real {
    var elapsed := now - e.lastNotified;
    if elapsed > 0 && c.wastedCost > 0.0 then e.totalWaste + Cost(c.wastedCost, elapsed)
    else e.totalWaste
  }

  predicate Due(e: Entry, now: int) {
    e.renotify > 0 && now - e.lastNotified >= e.renotify
  }

  /** What an observation does to an entry that is already tracked. */
  function Seen(e: Entry, c: Candidate, now: int): (Entry, Note) {
    var e' := e.(totalWaste := Accrued(e, c, now));
    if e.state == Dismissed then
      if e.dismissUntil.Some? && now > e.dismissUntil.value then
        (e'.(lastNotified := now, state := Renoted, dismissUntil := None), Revived)
      else (e'.(lastNotified := now), Quiet)
    else if Due(e, now) then (e'.(state := Renoted, lastNotified := now), Again)
    else (e', Quiet)
  }

  function ObserveIn(b: Book, c: Candidate, now: int): (Book, Note) {
    var k := KeyOf(c);
    if k !in b.entries then (b.(entries := b.entries[k := NewEntry(c, now)]), First)
    else
      var (e, note) := Seen(b.entries[k], c, now);
      (b.(entries := b.entries[k := e]), note)
  }

  predicate Matches(entries: map<string, Entry>, k: string, resourceId: string, unresolvedOnly: bool) {
    k in entries && entries[k].resourceId == resourceId && (unresolvedOnly ==> entries[k].state != Resolved)
  }

  /** The first matching key in the given iteration order. */
  function FirstMatch(entries: map<string, Entry>, order: seq<string>, resourceId: string, unresolvedOnly: bool)
    : (k: Option<string>)
    ensures k.Some? ==> k.value in order && Matches(entries, k.value, resourceId, unresolvedOnly)
    ensures k.None? ==> forall x :: x in order ==> !Matches(entries, x, resourceId, unresolvedOnly)
  {
    if order == [] then None
    else if Matches(entries, order[0], resourceId, unresolvedOnly) then Some(order[0])
    else FirstMatch(entries, order[1..], resourceId, unresolvedOnly)
  }

  function DismissKey(b: Book, k: string, reason: string, until: Option<int>): Book
    requires k in b.entries
  {
    b.(entries := b.entries[k := b.entries[k].(state := Dismissed, dismissReason := reason, dismissUntil := until)])
  }

  function ResolveKey(b: Book, k: string): Book
    requires k in b.entries
  {
    Book(b.entries[k := b.entries[k].(state := Resolved)], b.saving + b.entries[k].totalWaste)
  }

  function DismissIn(b: Book, resourceId: string, reason: string, until: Option<int>, order: seq<string>): Book {
    match FirstMatch(b.entries, order, resourceId, false)
    case None => b
    case Some(k) => DismissKey(b, k, reason, until)
  }

  function ResolveIn(b: Book, resourceId: string, order: seq<string>): Book {
    match FirstMatch(b.entries, order, resourceId, true)
    case None => b
    case Some(k) => ResolveKey(b, k)
  }

  function LoadAll(entries: map<string, Entry>, list: seq<Entry>): map<string, Entry> {
    if list == [] then entries else
    var e := list[|list| - 1];
    LoadAll(entries, list[..|list| - 1])[Key(e.sensorId, e.resourceId) := e]
  }

  function SavingOf(e: Entry): real {
    if e.state == Resolved then e.totalWaste else 0.0
  }

  function ListSaving(list: seq<Entry>): real {
    if list == [] then 0.0 else ListSaving(list[..|list| - 1]) + SavingOf(list[|list| - 1])
  }

  function RestoreIn(b: Book, list: seq<Entry>): Book {
    Book(LoadAll(b.entries, list), if ListSaving(list) > b.saving then ListSaving(list) else b.saving)
  }

  /** The entries under the given keys. */
  function Listing(entries: map<string, Entry>, keys: seq<string>): (list: seq<Entry>)
    requires forall i :: 0 <= i < |keys| ==> keys[i] in entries
    ensures |list| == |keys|
    ensures forall i :: 0 <= i < |keys| ==> list[i] == entries[keys[i]]
  {
    seq(|keys|, i requires 0 <= i < |keys| => entries[keys[i]])
  }

  /** The loop over the sorted keys. */
  method CopyEntries(entries: map<string, Entry>, keys: seq<string>) returns (out: seq<Entry>)
    requires forall i :: 0 <= i < |keys| ==> keys[i] in entries
    ensures out == Listing(entries, keys)
  {
    out := [];
    var i := 0;
    while i < |keys|
      invariant 0 <= i <= |keys| && |out| == i
      invariant forall j :: 0 <= j < i ==> out[j] == entries[keys[j]]
    {
      out := out + [entries[keys[i]]];
      i := i + 1;
    }
  }

  ghost function EntriesIn(b: Book): seq<Entry> {
    Listing(b.entries, SortedKeys(b.entries.Keys))
  }

  class Tracker {
    var entries: map<string, Entry>
    var resolvedSaving: real

    constructor ()
      ensures BookOf() == EMPTY
    {
      entries := map[];
      resolvedSaving := 0.0;
    }

    function BookOf(): Book
      reads this
    {
      Book(entries, resolvedSaving)
    }

    /** The snapshot in key order; `order` is the order the map happens to be iterated in. */
    method Entries(order: seq<string>) returns (out: seq<Entry>)
      requires Enumerates(order, entries.Keys)
      ensures out == EntriesIn(BookOf())
    {
      var keys := Sort(order);
      SortForgetsOrder(order, entries.Keys);
      EnumerationWithin(keys, entries.Keys);
      out := CopyEntries(entries, keys);
    }

    method Restore(list: seq<Entry>)
      modifies this
      ensures BookOf() == RestoreIn(old(BookOf()), list)
    {
      var saving := 0.0;
      var i := 0;
      while i < |list|
        invariant 0 <= i <= |list|
        invariant entries == LoadAll(old(entries), list[..i])
        invariant saving == ListSaving(list[..i])
        invariant resolvedSaving == old(resolvedSaving)
      {
        var e := list[i];
        assert list[..i + 1][..i] == list[..i];
        entries := entries[Key(e.sensorId, e.resourceId) := e];
        if e.state == Resolved {
          saving := saving + e.totalWaste;
        }
        i := i + 1;
      }
      assert list[..i] == list;
      if saving > resolvedSaving {
        resolvedSaving := saving;
      }
    }

    method Observe(c: Candidate, now: int) returns (note: Note)
      modifies this
      ensures (BookOf(), note) == ObserveIn(old(BookOf()), c, now)
    {
      var key := KeyOf(c);
      if key !in entries {
        entries := entries[key := NewEntry(c, now)];
        return First;
      }
      var e := entries[key];
      var elapsed := now - e.lastNotified;
      if elapsed > 0 && c.wastedCost > 0.0 {
        e := e.(totalWaste := e.totalWaste + Cost(c.wastedCost, elapsed));
      }
      note := Quiet;
      if e.state == Dismissed {
        e := e.(lastNotified := now);
        if e.dismissUntil.Some? && now > e.dismissUntil.value {
          e := e.(state := Renoted, dismissUntil := None);
          note := Revived;
        }
      } else if e.renotify > 0 && elapsed >= e.renotify {
        e := e.(state := Renoted, lastNotified := now);
        note := Again;
      }
      entries := entries[key := e];
    }

    method Dismiss(resourceId: string, reason: string, until: Option<int>, order: seq<string>) returns (found: bool)
      requires Enumerates(order, entries.Keys)
      modifies this
      ensures BookOf() == DismissIn(old(BookOf()), resourceId, reason, until, order)
      ensures found <==> exists k :: k in old(entries) && Matches(old(entries), k, resourceId, false)
    {
      EnumerationWithin(order, entries.Keys);
      var i := 0;
      while i < |order|
        invariant 0 <= i <= |order|
        invariant BookOf() == old(BookOf())
        invariant FirstMatch(entries, order, resourceId, false) == FirstMatch(entries, order[i..], resourceId, false)
      {
        var k := order[i];
        assert order[i..][1..] == order[i + 1..];
        if entries[k].resourceId == resourceId {
          assert Matches(entries, k, resourceId, false);
          entries := entries[k := entries[k].(state := Dismissed, dismissReason := reason, dismissUntil := until)];
          return true;
        }
        i := i + 1;
      }
      forall k | k in entries ensures !Matches(entries, k, resourceId, false) {
        EnumerationCovers(order, entries.Keys, k);
      }
      return false;
    }

    method Resolve(resourceId: string, order: seq<string>) returns (found: bool)
      requires Enumerates(order, entries.Keys)
      modifies this
      ensures BookOf() == ResolveIn(old(BookOf()), resourceId, order)
      ensures found <==> exists k :: k in old(entries) && Matches(old(entries), k, resourceId, true)
    {
      EnumerationWithin(order, entries.Keys);
      var i := 0;
      while i < |order|
        invariant 0 <= i <= |order|
        invariant BookOf() == old(BookOf())
        invariant FirstMatch(entries, order, resourceId, true) == FirstMatch(entries, order[i..], resourceId, true)
      {
        var k := order[i];
        assert order[i..][1..] == order[i + 1..];
        if entries[k].resourceId == resourceId && entries[k].state != Resolved {
          assert Matches(entries, k, resourceId, true);
          resolvedSaving := resolvedSaving + entries[k].totalWaste;
          entries := entries[k := entries[k].(state := Resolved)];
          return true;
        }
        i := i + 1;
      }
      forall k | k in entries ensures !Matches(entries, k, resourceId, true) {
        EnumerationCovers(order, entries.Keys, k);
      }
      return false;
    }
  }
}
