/**
 The gate's retry map (`recordAttempt` and `assertAttempt` in `src/frontier/journal.ts`):
 a map in insertion order, bounded by dropping its oldest entry. It always holds exactly
 the most recently recorded distinct groups, with their last attempts.
 */
module RetryMaps {
  import opened Wrappers
  import opened Finite

  /** One recorded attempt; the group is its identifier. */
  datatype Entry = Entry(group: nat, attempt: int)

  /** `Map.delete` and `Map.set` on a map kept in insertion order. */
  function Deleted(entries: seq<Entry>, group: nat): seq<Entry> {
    if entries == [] then []
    else if entries[0].group == group then entries[1..]
    else [entries[0]] + Deleted(entries[1..], group)
  }

  function Bounded(entries: seq<Entry>, max: nat): seq<Entry> {
    if |entries| > max then entries[|entries| - max..] else entries
  }

  /** `recordAttempt`. */
  function Record(entries: seq<Entry>, e: Entry, max: nat): seq<Entry> {
    Bounded(Deleted(entries, e.group) + [e], max)
  }

  /** The map after a list of recorded attempts. */
  function After(records: seq<Entry>, max: nat): seq<Entry> {
    if records == [] then [] else Record(After(records[..|records| - 1], max), records[|records| - 1], max)
  }

  function Lookup(entries: seq<Entry>, group: nat): (r: Option<int>)
    ensures r.Some? <==> exists i :: 0 <= i < |entries| && entries[i].group == group
    ensures r.Some? ==> Entry(group, r.value) in entries
  {
    if entries == [] then None
    else if entries[0].group == group then Some(entries[0].attempt)
    else Lookup(entries[1..], group)
  }

  /** `assertAttempt`: a held group takes one step forward, any other is accepted. */
  predicate Accepts(entries: seq<Entry>, group: nat, attempt: int) {
    match Lookup(entries, group)
    case None => true
    case Some(last) => !(attempt <= last) && !(attempt > last + 1)
  }

  class RetryMap {
    const max: nat
    var entries: seq<Entry>

    constructor (max: nat)
      ensures entries == After([], max) && this.max == max
    {
      this.max := max;
      entries := [];
    }

    method AssertAttempt(group: nat, attempt: int) returns (ok: bool)
      ensures ok == Accepts(entries, group, attempt)
    {
      var last := Lookup(entries, group);
      if last.None? { return true; }
      if attempt <= last.value { return false; }
      if attempt > last.value + 1 { return false; }
      ok := true;
    }

    method RecordAttempt(group: nat, attempt: int)
      modifies this
      ensures entries == Record(old(entries), Entry(group, attempt), max)
    {
      entries := Deleted(entries, group);
      entries := entries + [Entry(group, attempt)];
      ghost var whole := entries;
      while |entries| > max
        invariant Bounded(entries, max) == Bounded(whole, max)
      {
        assert entries[1..][|entries| - 1 - max..] == entries[|entries| - max..];
        entries := entries[1..];
      }
    }
  }

  // --- the reference: what an unbounded memory would say -------------------------------------------

  ghost predicate Recorded(records: seq<Entry>, group: nat) {
    exists k :: 0 <= k < |records| && records[k].group == group
  }

  /** The last time a group was recorded. */
  ghost function LastIndex(records: seq<Entry>, group: nat): (at: nat)
    requires Recorded(records, group)
    ensures at < |records| && records[at].group == group
  {
    var last := |records| - 1;
    if records[last].group == group then last
    else
      assert Recorded(records[..last], group) by {
        var k :| 0 <= k < |records| && records[k].group == group;
        assert records[..last][k].group == group;
      }
      LastIndex(records[..last], group)
  }

  lemma {:induction false} LastIndexIsLast(records: seq<Entry>, group: nat, k: nat)
    requires k < |records| && records[k].group == group
    ensures Recorded(records, group) && k <= LastIndex(records, group)
  {
    var last := |records| - 1;
    if records[last].group != group {
      LastIndexIsLast(records[..last], group, k);
    }
  }

  /** The distinct groups recorded from a time on. */
  ghost function Since(records: seq<Entry>, at: nat): set<nat> {
    set k | at <= k < |records| :: records[k].group
  }

  /** Every group ever recorded, with its last attempt, in the order of those. */
  ghost function All(records: seq<Entry>): seq<Entry> {
    if records == [] then []
    else
      var e := records[|records| - 1];
      Deleted(All(records[..|records| - 1]), e.group) + [e]
  }

  ghost predicate DistinctGroups(entries: seq<Entry>) {
    forall i, j :: 0 <= i < j < |entries| ==> entries[i].group != entries[j].group
  }

  lemma {:induction false} DeletedIs(entries: seq<Entry>, group: nat)
    requires DistinctGroups(entries)
    ensures DistinctGroups(Deleted(entries, group))
    ensures forall e :: e in Deleted(entries, group) <==> e in entries && e.group != group
    ensures |Deleted(entries, group)| <= |entries|
  {
    if entries != [] {
      assert entries == [entries[0]] + entries[1..];
      if entries[0].group != group {
        DeletedIs(entries[1..], group);
      } else {
        forall e | e in entries[1..] ensures e.group != group {
          var i :| 0 <= i < |entries[1..]| && entries[1..][i] == e;
          assert entries[i + 1] == e;
        }
      }
    }
  }

  lemma {:induction false} DeletedAbsent(entries: seq<Entry>, group: nat)
    requires forall i :: 0 <= i < |entries| ==> entries[i].group != group
    ensures Deleted(entries, group) == entries
  {
    if entries != [] {
      DeletedAbsent(entries[1..], group);
    }
  }

  /** Deleting from a suffix is taking a suffix of the deletion, one shorter when the group is in it. */
  lemma {:induction false} DeletedSuffix(entries: seq<Entry>, group: nat, from: nat)
    requires DistinctGroups(entries) && from <= |entries|
    ensures var suffix, deleted := entries[from..], Deleted(entries, group);
            && |Deleted(suffix, group)| <= |deleted|
            && Deleted(suffix, group) == deleted[|deleted| - |Deleted(suffix, group)|..]
            && |Deleted(suffix, group)| >= |suffix| - 1
            && |deleted| <= |entries|
            && (Deleted(suffix, group) == suffix ==> |Deleted(suffix, group)| == |suffix|)
  {
    if from > 0 {
      DeletedSuffix(entries[1..], group, from - 1);
      assert entries[from..] == entries[1..][from - 1..];
      if entries[0].group == group {
        forall i | 0 <= i < |entries[from..]| ensures entries[from..][i].group != group {
          assert entries[from..][i] == entries[from + i];
        }
        DeletedAbsent(entries[from..], group);
      }
    } else {
      assert entries[0..] == entries;
      DeletedShorter(entries, group);
    }
  }

  lemma {:induction false} DeletedShorter(entries: seq<Entry>, group: nat)
    ensures |entries| - 1 <= |Deleted(entries, group)| <= |entries|
  {
    if entries != [] {
      DeletedShorter(entries[1..], group);
    }
  }

  // --- the bounded map is the end of the unbounded one ------------------------------------------------

  lemma RecordBounded(all: seq<Entry>, e: Entry, max: nat)
    requires DistinctGroups(all) && max >= 1
    ensures Record(Bounded(all, max), e, max) == Bounded(Deleted(all, e.group) + [e], max)
  {
    hide Deleted, DistinctGroups;
    if |all| > max {
      var from := |all| - max;
      DeletedSuffix(all, e.group, from);
      var d, s := Deleted(all, e.group), Deleted(all[from..], e.group);
      SuffixBounded(d, s, e, max);
    }
  }

  /** Two lists of which one ends the other, both long enough, have one bounded end. */
  lemma SuffixBounded(d: seq<Entry>, s: seq<Entry>, e: Entry, max: nat)
    requires |s| <= |d| && s == d[|d| - |s|..] && max >= 1 && |s| >= max - 1
    ensures Bounded(s + [e], max) == Bounded(d + [e], max)
  {
    var a, b := Bounded(s + [e], max), Bounded(d + [e], max);
    assert |a| == max == |b|;
    forall i | 0 <= i < max ensures a[i] == b[i] {
      assert a[i] == (s + [e])[|s| + 1 - max + i];
      assert b[i] == (d + [e])[|d| + 1 - max + i];
      if i < max - 1 {
        assert (s + [e])[|s| + 1 - max + i] == s[|s| + 1 - max + i] == d[|d| - |s| + |s| + 1 - max + i];
      }
    }
  }

  lemma {:induction false} AllIsDistinct(records: seq<Entry>)
    ensures DistinctGroups(All(records))
  {
    if records != [] {
      var e, before := records[|records| - 1], All(records[..|records| - 1]);
      AllIsDistinct(records[..|records| - 1]);
      DeletedIs(before, e.group);
      var deleted := Deleted(before, e.group);
      forall i | 0 <= i < |deleted| ensures deleted[i].group != e.group {
        assert deleted[i] in deleted;
      }
    }
  }

  lemma {:induction false} AfterIsBounded(records: seq<Entry>, max: nat)
    requires max >= 1
    ensures After(records, max) == Bounded(All(records), max)
  {
    hide Record, Deleted;
    if records != [] {
      AfterIsBounded(records[..|records| - 1], max);
      AllIsDistinct(records[..|records| - 1]);
      RecordBounded(All(records[..|records| - 1]), records[|records| - 1], max);
    }
  }

  // --- the unbounded map lists the groups by their last time -------------------------------------------

  /** Every entry is the last record of its group. */
  ghost predicate Latest(records: seq<Entry>, entries: seq<Entry>) {
    forall e :: e in entries ==> Recorded(records, e.group) && records[LastIndex(records, e.group)] == e
  }

  ghost predicate ByTime(records: seq<Entry>, entries: seq<Entry>)
    requires Latest(records, entries)
  {
    forall i, j :: 0 <= i < j < |entries| ==>
      LastIndex(records, entries[i].group) < LastIndex(records, entries[j].group)
  }

  lemma LastIndexStays(records: seq<Entry>, group: nat)
    requires records != [] && records[|records| - 1].group != group && Recorded(records[..|records| - 1], group)
    ensures Recorded(records, group) && LastIndex(records, group) == LastIndex(records[..|records| - 1], group)
  {
    var shorter := records[..|records| - 1];
    assert records[LastIndex(shorter, group)].group == group;
  }

  lemma LastIndexOfLast(records: seq<Entry>)
    requires records != []
    ensures var last := |records| - 1;
            Recorded(records, records[last].group) && LastIndex(records, records[last].group) == last
  {
    assert records[|records| - 1].group == records[|records| - 1].group;
  }

  lemma {:induction false} AllIsLatest(records: seq<Entry>)
    ensures Latest(records, All(records))
  {
    hide LastIndex, Recorded, DistinctGroups;
    if records != [] {
      var last, shorter := |records| - 1, records[..|records| - 1];
      var e := records[last];
      AllIsLatest(shorter);
      AllIsDistinct(shorter);
      DeletedIs(All(shorter), e.group);
      LastIndexOfLast(records);
      forall x | x in All(records) ensures Recorded(records, x.group) && records[LastIndex(records, x.group)] == x {
        if x != e {
          LastIndexStays(records, x.group);
        }
      }
    }
  }

  /** Every recorded group has its entry. */
  lemma {:induction false} AllHas(records: seq<Entry>, k: nat) returns (i: nat)
    requires k < |records|
    ensures i < |All(records)| && All(records)[i].group == records[k].group
  {
    hide DistinctGroups, Deleted;
    var last, shorter := |records| - 1, records[..|records| - 1];
    var e, all := records[last], All(records);
    if records[k].group == e.group {
      i := |all| - 1;
    } else {
      var j := AllHas(shorter, k);
      AllIsDistinct(shorter);
      DeletedIs(All(shorter), e.group);
      var x := All(shorter)[j];
      assert x in Deleted(All(shorter), e.group);
      assert all == Deleted(All(shorter), e.group) + [e];
      assert x in all;
      i :| 0 <= i < |all| && all[i] == x;
    }
  }

  lemma {:induction false} DeletedKeepsOrder(records: seq<Entry>, entries: seq<Entry>, group: nat)
    requires DistinctGroups(entries) && Latest(records, entries) && ByTime(records, entries)
    ensures Latest(records, Deleted(entries, group)) && ByTime(records, Deleted(entries, group))
  {
    hide LastIndex, Recorded;
    DeletedIs(entries, group);
    if entries != [] {
      var rest := entries[1..];
      assert DistinctGroups(rest) && Latest(records, rest) && ByTime(records, rest);
      if entries[0].group != group {
        hide DistinctGroups;
        DeletedKeepsOrder(records, rest, group);
        DeletedIs(rest, group);
        FirstIsEarliest(records, entries, Deleted(rest, group));
      }
    }
  }

  /** The first of a list in order comes before any part of its rest. */
  lemma FirstIsEarliest(records: seq<Entry>, entries: seq<Entry>, part: seq<Entry>)
    requires entries != [] && Latest(records, entries) && ByTime(records, entries)
    requires Latest(records, part) && ByTime(records, part) && forall e :: e in part ==> e in entries[1..]
    ensures Latest(records, [entries[0]] + part) && ByTime(records, [entries[0]] + part)
  {
    hide LastIndex, Recorded;
    var after := [entries[0]] + part;
    forall j | 0 < j < |after| ensures LastIndex(records, after[0].group) < LastIndex(records, after[j].group) {
      assert after[j] in part;
      var k :| 0 <= k < |entries| - 1 && entries[1..][k] == after[j];
      assert entries[k + 1] == after[j];
    }
  }

  lemma {:induction false} AllIsByTime(records: seq<Entry>)
    ensures Latest(records, All(records)) && ByTime(records, All(records))
  {
    hide LastIndex, Deleted, Latest;
    AllIsLatest(records);
    if records != [] {
      var last, shorter := |records| - 1, records[..|records| - 1];
      var e := records[last];
      AllIsByTime(shorter);
      AllIsDistinct(shorter);
      AllIsLatest(shorter);
      DeletedKeepsOrder(shorter, All(shorter), e.group);
      DeletedIs(All(shorter), e.group);
      ByTimeExtends(records, Deleted(All(shorter), e.group));
    }
  }

  lemma ByTimeExtends(records: seq<Entry>, kept: seq<Entry>)
    requires records != []
    requires Latest(records[..|records| - 1], kept) && ByTime(records[..|records| - 1], kept)
    requires forall x :: x in kept ==> x.group != records[|records| - 1].group
    ensures Latest(records, kept + [records[|records| - 1]]) && ByTime(records, kept + [records[|records| - 1]])
  {
    hide LastIndex;
    var last, e := |records| - 1, records[|records| - 1];
    LastIndexOfLast(records);
    forall x | x in kept
      ensures Recorded(records, x.group) && LastIndex(records, x.group) == LastIndex(records[..last], x.group) < last
    {
      LastIndexStays(records, x.group);
    }
  }

  function Groups(entries: seq<Entry>): seq<nat> {
    seq(|entries|, i requires 0 <= i < |entries| => entries[i].group)
  }

  lemma SinceIsListed(records: seq<Entry>, i: nat, g: nat)
    requires i < |All(records)| && Recorded(records, All(records)[i].group)
    requires g in Since(records, LastIndex(records, All(records)[i].group))
    ensures g in Groups(All(records)[i..])
  {
    hide LastIndex, All, DistinctGroups;
    AllIsByTime(records);
    var all, at := All(records), LastIndex(records, All(records)[i].group);
    var k :| at <= k < |records| && records[k].group == g;
    var j := AllHas(records, k);
    assert j < i ==> LastIndex(records, all[j].group) < LastIndex(records, all[i].group);
    LastIndexIsLast(records, g, k);
    assert Groups(all[i..])[j - i] == g;
  }

  lemma ListedIsSince(records: seq<Entry>, i: nat, g: nat)
    requires i < |All(records)| && Recorded(records, All(records)[i].group)
    requires g in Groups(All(records)[i..])
    ensures g in Since(records, LastIndex(records, All(records)[i].group))
  {
    hide LastIndex, All, DistinctGroups;
    AllIsByTime(records);
    var all, at := All(records), LastIndex(records, All(records)[i].group);
    var j :| 0 <= j < |all[i..]| && Groups(all[i..])[j] == g;
    assert all[i + j] in all;
    if j > 0 {
      assert at < LastIndex(records, all[i + j].group);
    }
    assert records[LastIndex(records, g)].group == g;
  }

  /** From an entry on, the unbounded map lists exactly the groups recorded since its last time. */
  lemma EntriesSince(records: seq<Entry>, i: nat)
    requires i < |All(records)|
    ensures Recorded(records, All(records)[i].group)
    ensures |Since(records, LastIndex(records, All(records)[i].group))| == |All(records)| - i
  {
    hide LastIndex, All, Since, ByTime;
    AllIsDistinct(records);
    AllIsLatest(records);
    var all := All(records);
    assert all[i] in all;
    var at, tail := LastIndex(records, all[i].group), Groups(all[i..]);
    ElementsSize(tail);
    forall g ensures g in Since(records, at) <==> g in Elements(tail) {
      if g in Since(records, at) {
        SinceIsListed(records, i, g);
      }
      if g in tail {
        ListedIsSince(records, i, g);
      }
    }
    assert Since(records, at) == Elements(tail);
  }

  lemma {:induction false} LookupAt(entries: seq<Entry>, i: nat)
    requires DistinctGroups(entries) && i < |entries|
    ensures Lookup(entries, entries[i].group) == Some(entries[i].attempt)
  {
    if i > 0 {
      LookupAt(entries[1..], i - 1);
    }
  }

  /** Where the bounded map begins in the unbounded one. */
  ghost function Begin(all: seq<Entry>, max: nat): (from: nat)
    ensures from <= |all|
  {
    if |all| > max then |all| - max else 0
  }

  lemma HeldRecorded(records: seq<Entry>, max: nat, k: nat)
    requires max >= 1 && k < |records|
    ensures var group, all := records[k].group, All(records);
            && Recorded(records, group)
            && Lookup(all[Begin(all, max)..], group)
               == if |Since(records, LastIndex(records, group))| <= max
                  then Some(records[LastIndex(records, group)].attempt) else None
  {
    hide LastIndex, All, Since, DistinctGroups, Lookup;
    AllIsDistinct(records);
    var i := AllHas(records, k);
    EntriesSince(records, i);
    EntryIsLast(records, i);
    HeldFrom(All(records), Begin(All(records), max), i);
  }

  lemma HeldUnrecorded(records: seq<Entry>, max: nat, group: nat)
    requires !Recorded(records, group)
    ensures var all := All(records); Lookup(all[Begin(all, max)..], group).None?
  {
    hide LastIndex, All, Recorded, Begin;
    var all := All(records);
    var from := Begin(all, max);
    forall j | 0 <= j < |all[from..]| ensures all[from..][j].group != group {
      EntryIsLast(records, from + j);
    }
  }

  /**
   Refinement: after any attempts, a group is held exactly when it was recorded and at most
   `max` distinct groups were recorded since its last time, itself included; what is held is
   its last attempt.
   */
  lemma HeldIff(records: seq<Entry>, max: nat, group: nat)
    requires max >= 1
    ensures Lookup(After(records, max), group)
         == if Recorded(records, group) && |Since(records, LastIndex(records, group))| <= max
            then Some(records[LastIndex(records, group)].attempt) else None
  {
    hide LastIndex, All, Since, After, Lookup;
    AfterIsBounded(records, max);
    assert Bounded(All(records), max) == All(records)[Begin(All(records), max)..];
    if Recorded(records, group) {
      var k :| 0 <= k < |records| && records[k].group == group;
      HeldRecorded(records, max, k);
    } else {
      HeldUnrecorded(records, max, group);
    }
  }

  lemma EntryIsLast(records: seq<Entry>, i: nat)
    requires i < |All(records)|
    ensures var e := All(records)[i]; Recorded(records, e.group) && records[LastIndex(records, e.group)] == e
  {
    hide LastIndex, All;
    AllIsLatest(records);
    assert All(records)[i] in All(records);
  }

  /** A suffix holds an entry's group exactly when it holds the entry. */
  lemma HeldFrom(all: seq<Entry>, from: nat, i: nat)
    requires DistinctGroups(all) && i < |all| && from <= |all|
    ensures Lookup(all[from..], all[i].group) == if i >= from then Some(all[i].attempt) else None
  {
    hide Lookup;
    if i >= from {
      assert all[from..][i - from] == all[i];
      LookupAt(all[from..], i - from);
    } else {
      forall j | 0 <= j < |all[from..]| ensures all[from..][j].group != all[i].group {
        assert all[from..][j] == all[from + j];
      }
    }
  }

  /** A held group accepts exactly the attempt after its last; any other group accepts every attempt. */
  lemma AcceptsIff(records: seq<Entry>, max: nat, group: nat, attempt: int)
    requires max >= 1
    ensures Accepts(After(records, max), group, attempt) <==>
              (Recorded(records, group) && |Since(records, LastIndex(records, group))| <= max
               ==> attempt == records[LastIndex(records, group)].attempt + 1)
  {
    hide LastIndex, Since, After, Lookup;
    HeldIff(records, max, group);
  }
}
