/**
 The canonical form of a JSON value (RFC 8785 section 3.2; `canonicalizeJson` in
 `src/journal/canon.ts`): keys sorted by code unit at every depth, a lone surrogate
 refused. Two values have one canonical text exactly when they are the same value.
 */
module Canonical {
  import opened Wrappers
  import opened Finite
  import opened StrictJson
  import opened JsonRoundTrip

  // --- members by key --------------------------------------------------------------------------

  /** `value[key]` of an object: the member with that key, if any. */
  function Get(members: seq<Member>, key: Text): (r: Option<Json>)
    ensures r.Some? <==> key in Keys(members)
    ensures r.Some? ==> Member(key, r.value) in members
  {
    if members == [] then None
    else
      KeysTail(members);
      if members[0].key == key then Some(members[0].value) else Get(members[1..], key)
  }

  lemma KeysTail(members: seq<Member>)
    requires members != []
    ensures Keys(members) == [members[0].key] + Keys(members[1..])
  {
  }

  lemma {:induction false} GetAt(members: seq<Member>, i: nat)
    requires i < |members| && NoRepeat(members)
    ensures Get(members, members[i].key) == Some(members[i].value)
  {
    if i > 0 {
      GetAt(members[1..], i - 1);
    }
  }

  /** The same value, object members in any order. */
  ghost predicate Same(v: Json, w: Json) {
    match w
    case Array(items) =>
      v.Array? && |v.items| == |items| && forall i :: 0 <= i < |items| ==> Same(v.items[i], items[i])
    case Object(members) =>
      && v.Object? && |v.members| == |members|
      && forall i :: 0 <= i < |members| ==>
           Get(v.members, members[i].key).Some? && Same(Get(v.members, members[i].key).value, members[i].value)
    case _ => v == w
  }

  // --- the order of keys -------------------------------------------------------------------------

  /** Unit by unit, as canonical keys are ordered. */
  predicate Less(a: Text, b: Text) {
    b != [] && (a == [] || a[0] < b[0] || (a[0] == b[0] && Less(a[1..], b[1..])))
  }

  lemma {:induction false} LessIsTotal(a: Text, b: Text)
    ensures Less(a, b) || Less(b, a) || a == b
    ensures !(Less(a, b) && Less(b, a)) && !Less(a, a)
  {
    if a != [] && b != [] {
      LessIsTotal(a[1..], b[1..]);
      if a[0] == b[0] && a[1..] == b[1..] {
        assert a == [a[0]] + a[1..] == [b[0]] + b[1..] == b;
      }
    }
    if a != [] {
      LessIsIrreflexive(a);
    }
  }

  lemma {:induction false} LessIsIrreflexive(a: Text)
    ensures !Less(a, a)
  {
    if a != [] {
      LessIsIrreflexive(a[1..]);
    }
  }

  lemma {:induction false} LessIsTransitive(a: Text, b: Text, c: Text)
    requires Less(a, b) && Less(b, c)
    ensures Less(a, c)
  {
    if a != [] && a[0] == b[0] && b[0] == c[0] {
      LessIsTransitive(a[1..], b[1..], c[1..]);
    }
  }

  ghost predicate Ascending(members: seq<Member>) {
    forall i, j :: 0 <= i < j < |members| ==> Less(members[i].key, members[j].key)
  }

  // --- sorting ---------------------------------------------------------------------------------------

  function Insert(m: Member, members: seq<Member>): seq<Member> {
    if members == [] || Less(m.key, members[0].key) then [m] + members
    else [members[0]] + Insert(m, members[1..])
  }

  function SortKeys(v: Json): Json {
    match v
    case Array(items) => Array(SortItems(items))
    case Object(members) => Object(SortMembers(members))
    case _ => v
  }

  function SortItems(items: seq<Json>): (r: seq<Json>)
    ensures |r| == |items| && forall i :: 0 <= i < |items| ==> r[i] == SortKeys(items[i])
  {
    if items == [] then [] else [SortKeys(items[0])] + SortItems(items[1..])
  }

  function SortMembers(members: seq<Member>): seq<Member> {
    if members == [] then []
    else Insert(Member(members[0].key, SortKeys(members[0].value)), SortMembers(members[1..]))
  }

  lemma {:induction false} InsertKeepsOrder(m: Member, members: seq<Member>)
    requires Ascending(members) && m.key !in Keys(members)
    ensures Ascending(Insert(m, members))
    ensures |Insert(m, members)| == |members| + 1
    ensures forall x :: x in Insert(m, members) <==> x == m || x in members
  {
    hide Less;
    if members != [] {
      KeysTail(members);
      LessIsTotal(m.key, members[0].key);
      if Less(m.key, members[0].key) {
        InsertFirst(m, members);
      } else {
        var rest := members[1..];
        InsertKeepsOrder(m, rest);
        var after := Insert(m, members);
        assert after == [members[0]] + Insert(m, rest);
        assert members == [members[0]] + rest;
        forall i, j | 0 <= i < j < |after| ensures Less(after[i].key, after[j].key) {
          if i == 0 {
            assert after[j] in Insert(m, rest);
            if after[j] in rest {
              assert after[j] in members[1..];
            }
          }
        }
      }
    }
  }

  lemma InsertFirst(m: Member, members: seq<Member>)
    requires Ascending(members) && members != [] && Less(m.key, members[0].key)
    ensures Ascending([m] + members)
  {
    hide Less;
    var after := [m] + members;
    forall j | 0 < j < |after| ensures Less(m.key, after[j].key) {
      if j > 1 {
        LessIsTransitive(m.key, members[0].key, members[j - 1].key);
      }
    }
  }

  lemma KeyOfMember(members: seq<Member>, m: Member)
    requires m in members
    ensures m.key in Keys(members)
  {
    var i :| 0 <= i < |members| && members[i] == m;
    assert Keys(members)[i] == m.key;
  }

  lemma MemberOfKey(members: seq<Member>, key: Text) returns (m: Member)
    requires key in Keys(members)
    ensures m in members && m.key == key
  {
    var i :| 0 <= i < |members| && Keys(members)[i] == key;
    m := members[i];
  }

  lemma TailNoRepeat(members: seq<Member>)
    requires members != [] && NoRepeat(members)
    ensures NoRepeat(members[1..]) && members[0].key !in Keys(members[1..])
  {
  }

  lemma AscendingDiffer(members: seq<Member>)
    requires Ascending(members)
    ensures NoRepeat(members)
  {
    hide Less;
    forall i, j | 0 <= i < j < |members| ensures members[i].key != members[j].key {
      LessIsIrreflexive(members[i].key);
    }
  }

  ghost predicate SortedFrom(members: seq<Member>) {
    forall x :: x in SortMembers(members) ==> exists m :: m in members && m.key == x.key && x.value == SortKeys(m.value)
  }

  lemma SortedKeyIsKey(members: seq<Member>, key: Text)
    requires SortedFrom(members) && key in Keys(SortMembers(members))
    ensures key in Keys(members)
  {
    hide SortMembers, SortKeys;
    var x := MemberOfKey(SortMembers(members), key);
    var m :| m in members && m.key == x.key && x.value == SortKeys(m.value);
    KeyOfMember(members, m);
  }

  /** Sorting keeps the keys, puts them in order and sorts each value. */
  lemma {:induction false} SortMembersIs(members: seq<Member>)
    requires NoRepeat(members)
    ensures Ascending(SortMembers(members)) && |SortMembers(members)| == |members|
    ensures forall x :: x in SortMembers(members) ==>
              exists m :: m in members && m.key == x.key && x.value == SortKeys(m.value)
    ensures forall m :: m in members ==> Member(m.key, SortKeys(m.value)) in SortMembers(members)
  {
    hide Less, Insert, SortKeys;
    if members != [] {
      var rest, first := members[1..], Member(members[0].key, SortKeys(members[0].value));
      TailNoRepeat(members);
      SortMembersIs(rest);
      if first.key in Keys(SortMembers(rest)) {
        SortedKeyIsKey(rest, first.key);
      }
      InsertKeepsOrder(first, SortMembers(rest));
      assert members == [members[0]] + rest;
    }
  }

  /** Looking a key up among the sorted members finds the sorted value. */
  lemma GetSorted(members: seq<Member>, key: Text)
    requires NoRepeat(members)
    ensures Get(SortMembers(members), key)
         == match Get(members, key) case None => None case Some(x) => Some(SortKeys(x))
  {
    hide SortMembers, SortKeys;
    var sorted := SortMembers(members);
    SortMembersIs(members);
    AscendingDiffer(sorted);
    match Get(members, key)
    case Some(x) =>
      var i :| 0 <= i < |sorted| && sorted[i] == Member(key, SortKeys(x));
      GetAt(sorted, i);
    case None =>
      if key in Keys(sorted) {
        SortedKeyIsKey(members, key);
      }
  }

  lemma FirstIsFound(members: seq<Member>)
    requires members != []
    ensures Get(members, members[0].key) == Some(members[0].value)
  {
  }

  lemma {:induction false} LookupsDetermine(a: seq<Member>, b: seq<Member>)
    requires Ascending(a) && Ascending(b) && forall key :: Get(a, key) == Get(b, key)
    ensures a == b
  {
    hide Less;
    if a == [] {
      if b != [] {
        FirstIsFound(b);
      }
    } else {
      assert Get(a, a[0].key) == Some(a[0].value);
      assert b != [];
      assert Get(b, b[0].key) == Some(b[0].value);
      FirstKeysAgree(a, b);
      AscendingDiffer(a);
      AscendingDiffer(b);
      TailNoRepeat(a);
      TailNoRepeat(b);
      forall key ensures Get(a[1..], key) == Get(b[1..], key) {
        assert Get(a, key) == Get(b, key);
        if key == a[0].key {
          assert Get(a[1..], key).None? && Get(b[1..], key).None?;
        }
      }
      LookupsDetermine(a[1..], b[1..]);
      assert a == [a[0]] + a[1..] && b == [b[0]] + b[1..];
    }
  }

  lemma FirstKeysAgree(a: seq<Member>, b: seq<Member>)
    requires a != [] && b != [] && Ascending(a) && Ascending(b) && forall key :: Get(a, key) == Get(b, key)
    ensures a[0].key == b[0].key
  {
    hide Less, Get;
    assert Get(b, a[0].key).Some? by { assert Keys(a)[0] == a[0].key; assert Get(a, a[0].key) == Get(b, a[0].key); }
    assert Get(a, b[0].key).Some? by { assert Keys(b)[0] == b[0].key; assert Get(a, b[0].key) == Get(b, b[0].key); }
    var i :| 0 <= i < |b| && Keys(b)[i] == a[0].key;
    var j :| 0 <= j < |a| && Keys(a)[j] == b[0].key;
    if i > 0 && j > 0 {
      assert Less(b[0].key, b[i].key) && Less(a[0].key, a[j].key);
      LessIsTotal(a[0].key, b[0].key);
    }
  }

  // --- sorting twice -------------------------------------------------------------------------------------

  /** An object whose keys ascend and whose values are sorted is its own sorted form. */
  lemma SortedStays(members: seq<Member>)
    requires Ascending(members) && forall m :: m in members ==> SortKeys(m.value) == m.value
    ensures SortKeys(Object(members)) == Object(members)
  {
    hide SortMembers, SortKeys, Get, Ascending;
    AscendingDiffer(members);
    SortMembersIs(members);
    forall key ensures Get(SortMembers(members), key) == Get(members, key) {
      GetSorted(members, key);
      if Get(members, key).Some? {
        assert Member(key, Get(members, key).value) in members;
      }
    }
    LookupsDetermine(SortMembers(members), members);
    ObjectSorts(members);
  }

  lemma ObjectSorts(members: seq<Member>)
    ensures SortKeys(Object(members)) == Object(SortMembers(members))
  {
    hide SortMembers;
  }

  lemma {:induction false} SortTwice(v: Json)
    requires DistinctKeys(v)
    ensures SortKeys(SortKeys(v)) == SortKeys(v)
  {
    hide SortMembers, Ascending;
    match v
    case Array(items) =>
      forall i | 0 <= i < |items| ensures SortKeys(SortItems(items)[i]) == SortItems(items)[i] {
        SortTwice(items[i]);
      }
      assert SortItems(SortItems(items)) == SortItems(items);
    case Object(members) =>
      SortMembersIs(members);
      forall x | x in SortMembers(members) ensures SortKeys(x.value) == x.value {
        var m :| m in members && m.key == x.key && x.value == SortKeys(m.value);
        SortTwice(m.value);
      }
      SortedStays(SortMembers(members));
    case _ =>
  }

  // --- one text for one value ---------------------------------------------------------------------------

  /** The keys of one list are the keys of the other when each is found and the sizes agree. */
  lemma KeysCovered(a: seq<Member>, b: seq<Member>, key: Text)
    requires NoRepeat(a) && NoRepeat(b) && |a| == |b|
    requires forall i :: 0 <= i < |b| ==> Get(a, b[i].key).Some?
    ensures Get(a, key).Some? <==> Get(b, key).Some?
  {
    hide Get;
    var mine, theirs := Elements(Keys(a)), Elements(Keys(b));
    ElementsSize(Keys(a));
    ElementsSize(Keys(b));
    forall x | x in theirs ensures x in mine {
      var i :| 0 <= i < |b| && Keys(b)[i] == x;
      assert Get(a, b[i].key).Some?;
    }
    SubsetOfSameSize(theirs, mine);
    assert key in Keys(a) <==> key in mine;
    assert key in Keys(b) <==> key in theirs;
  }

  /** Sorting the keys identifies exactly the values that differ only in member order. */
  lemma {:induction false} SortedSameIff(v: Json, w: Json)
    requires DistinctKeys(v) && DistinctKeys(w)
    ensures SortKeys(v) == SortKeys(w) <==> Same(v, w)
    decreases w
  {
    hide SortMembers, Get;
    if w.Array? && v.Array? && |v.items| == |w.items| {
      forall i | 0 <= i < |w.items| ensures SortKeys(v.items[i]) == SortKeys(w.items[i]) <==> Same(v.items[i], w.items[i]) {
        SortedSameIff(v.items[i], w.items[i]);
      }
      if Same(v, w) {
        assert SortItems(v.items) == SortItems(w.items);
      }
      if SortKeys(v) == SortKeys(w) {
        forall i | 0 <= i < |w.items| ensures Same(v.items[i], w.items[i]) {
          assert SortItems(v.items)[i] == SortItems(w.items)[i];
        }
      }
    } else if w.Object? && v.Object? {
      MembersSameIff(v, w);
    }
  }

  lemma {:induction false} MembersSameIff(v: Json, w: Json)
    requires v.Object? && w.Object? && DistinctKeys(v) && DistinctKeys(w)
    ensures SortMembers(v.members) == SortMembers(w.members) <==> Same(v, w)
    decreases w, 0
  {
    hide SortMembers, SortKeys, Get;
    var a, b := v.members, w.members;
    SortMembersIs(a);
    SortMembersIs(b);
    if SortMembers(a) == SortMembers(b) {
      forall i | 0 <= i < |b| ensures Get(a, b[i].key).Some? && Same(Get(a, b[i].key).value, b[i].value) {
        GetSorted(a, b[i].key);
        GetSorted(b, b[i].key);
        GetAt(b, i);
        var x := Get(a, b[i].key).value;
        ValueIsDistinctIn(v, b[i].key, x);
        SortedSameIff(x, b[i].value);
      }
    }
    if Same(v, w) {
      forall key ensures Get(SortMembers(a), key) == Get(SortMembers(b), key) {
        GetSorted(a, key);
        GetSorted(b, key);
        KeysCovered(a, b, key);
        if Get(b, key).Some? {
          var i :| 0 <= i < |b| && b[i] == Member(key, Get(b, key).value);
          GetAt(b, i);
          var x := Get(a, key).value;
          ValueIsDistinctIn(v, key, x);
          SortedSameIff(x, b[i].value);
        }
      }
      LookupsDetermine(SortMembers(a), SortMembers(b));
    }
  }

  lemma ValueIsDistinctIn(v: Json, key: Text, x: Json)
    requires v.Object? && DistinctKeys(v) && Get(v.members, key) == Some(x)
    ensures DistinctKeys(x)
  {
    hide Get;
    assert Member(key, x) in v.members;
  }

  /** Sorted values still repeat no key and still read back. */
  lemma {:induction false} SortedIsSound(v: Json, read: Reading)
    requires DistinctKeys(v) && Faithful(v, read)
    ensures DistinctKeys(SortKeys(v)) && Faithful(SortKeys(v), read)
  {
    hide SortMembers, Read;
    match v
    case Array(items) =>
      forall i | 0 <= i < |items| ensures DistinctKeys(SortItems(items)[i]) && Faithful(SortItems(items)[i], read) {
        SortedIsSound(items[i], read);
      }
    case Object(members) =>
      var sorted := SortMembers(members);
      SortMembersIs(members);
      AscendingDiffer(sorted);
      forall i | 0 <= i < |sorted| ensures DistinctKeys(sorted[i].value) && Faithful(sorted[i].value, read) {
        assert sorted[i] in sorted;
        var m :| m in members && m.key == sorted[i].key && sorted[i].value == SortKeys(m.value);
        SortedIsSound(m.value, read);
      }
    case _ =>
  }

  /** `HASH_RE`: 64 lowercase hexadecimal digits. */
  predicate IsHash(s: Text) {
    |s| == 64 && forall i :: 0 <= i < |s| ==> IsDigit(s[i]) || 0x61 <= s[i] <= 0x66
  }

  // --- the printer ------------------------------------------------------------------------------------------

  /** Every surrogate is one of a pair. */
  predicate WellFormedText(s: Text)
    decreases |s|
  {
    if s == [] then true
    else if 0xD800 <= s[0] <= 0xDBFF then |s| > 1 && 0xDC00 <= s[1] <= 0xDFFF && WellFormedText(s[2..])
    else !(0xDC00 <= s[0] <= 0xDFFF) && WellFormedText(s[1..])
  }

  predicate WellFormed(v: Json) {
    match v
    case String(text) => WellFormedText(text)
    case Array(items) => forall i :: 0 <= i < |items| ==> WellFormed(items[i])
    case Object(members) =>
      forall i :: 0 <= i < |members| ==> WellFormedText(members[i].key) && WellFormed(members[i].value)
    case _ => true
  }

  lemma {:induction false} SortedIsWellFormed(v: Json)
    requires DistinctKeys(v) && WellFormed(v)
    ensures WellFormed(SortKeys(v))
  {
    hide SortMembers, WellFormedText;
    match v
    case Array(items) =>
      forall i | 0 <= i < |items| ensures WellFormed(SortItems(items)[i]) {
        SortedIsWellFormed(items[i]);
      }
    case Object(members) =>
      var sorted := SortMembers(members);
      SortMembersIs(members);
      forall i | 0 <= i < |sorted| ensures WellFormedText(sorted[i].key) && WellFormed(sorted[i].value) {
        assert sorted[i] in sorted;
        var m :| m in members && m.key == sorted[i].key && sorted[i].value == SortKeys(m.value);
        SortedIsWellFormed(m.value);
      }
    case _ =>
  }

  /** `canonicalizeJson`; `None` where a value has no canonical form. */
  function Canonicalize(v: Json): Option<Text> {
    if WellFormed(v) then Some(Write(SortKeys(v))) else None
  }

  /** Two values have one canonical text exactly when they are the same value, whatever their member order. */
  lemma CanonicalIff(v: Json, w: Json, read: Reading)
    requires DistinctKeys(v) && DistinctKeys(w) && Faithful(v, read) && Faithful(w, read)
    requires WellFormed(v) && WellFormed(w)
    ensures Canonicalize(v) == Canonicalize(w) <==> Same(v, w)
  {
    hide Write, SortKeys, Same, DistinctKeys, Faithful, WellFormed;
    SortedSameIff(v, w);
    SortedIsSound(v, read);
    SortedIsSound(w, read);
    if Canonicalize(v) == Canonicalize(w) {
      WriteIsInjective(SortKeys(v), SortKeys(w), read);
    }
  }

  /** The strict parser takes a canonical text back to the sorted value. */
  lemma CanonicalRoundTrip(v: Json, read: Reading)
    requires DistinctKeys(v) && Faithful(v, read) && WellFormed(v)
    ensures Document(Canonicalize(v).value, read) == Some(SortKeys(v))
  {
    hide Write, SortKeys, Document, DistinctKeys, Faithful;
    SortedIsSound(v, read);
    RoundTrip(SortKeys(v), read);
  }

  function Sorted(v: Option<Json>): Option<Json> {
    match v case None => None case Some(x) => Some(SortKeys(x))
  }

  /** Objects that agree key by key, up to member order further in, have one canonical text. */
  lemma LookupsGiveText(v: seq<Member>, w: seq<Member>)
    requires NoRepeat(v) && NoRepeat(w) && WellFormed(Object(v)) && WellFormed(Object(w))
    requires forall key :: Sorted(Get(v, key)) == Sorted(Get(w, key))
    ensures Canonicalize(Object(v)) == Canonicalize(Object(w))
  {
    hide Get, SortMembers, SortKeys, Write, WellFormed;
    forall key ensures Get(SortMembers(v), key) == Get(SortMembers(w), key) {
      GetSorted(v, key);
      GetSorted(w, key);
      assert Sorted(Get(v, key)) == Sorted(Get(w, key));
    }
    SortMembersIs(v);
    SortMembersIs(w);
    LookupsDetermine(SortMembers(v), SortMembers(w));
    ObjectSorts(v);
    ObjectSorts(w);
  }
}
