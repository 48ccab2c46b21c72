/**
 The rules of committed groups that the compaction producer and the surface share
 (`src/context/groups.ts`): receipt ordering, balance, citations, and the one
 definition of a legal compaction span.
 */
module Groups {
  import opened Wrappers
  import opened Contracts
  import opened Finite

  const MAX_COMPACTION_SOURCES: nat := 4096

  // --- the canonical receipt ordering ------------------------------------------

  predicate Before(a: Source, b: Source) {
    a.position < b.position || (a.position == b.position && a.hash < b.hash)
  }

  ghost predicate Ordered(sources: seq<Source>) {
    forall i, j :: 0 <= i < j < |sources| ==> Before(sources[i], sources[j])
  }

  ghost predicate SameElements(a: seq<Source>, b: seq<Source>) {
    forall x :: x in a <==> x in b
  }

  function Insert(x: Source, sorted: seq<Source>): (r: seq<Source>)
    requires Ordered(sorted)
    ensures Ordered(r)
    ensures forall y :: y in r <==> y == x || y in sorted
  {
    if sorted == [] then [x]
    else if x == sorted[0] then sorted
    else if Before(x, sorted[0]) then [x] + sorted
    else
      var rest := Insert(x, sorted[1..]);
      assert forall y :: y in sorted <==> y == sorted[0] || y in sorted[1..];
      assert forall k :: 0 <= k < |rest| ==> rest[k] in rest && Before(sorted[0], rest[k]);
      [sorted[0]] + rest
  }

  /** `sortUnique` as a value: each receipt once, in `(seq, hash)` order. */
  function SortUnique(sources: seq<Source>): (r: seq<Source>)
    ensures Ordered(r) && SameElements(r, sources)
  {
    if sources == [] then []
    else
      assert forall y :: y in sources <==> y == sources[0] || y in sources[1..];
      Insert(sources[0], SortUnique(sources[1..]))
  }

  lemma NonemptyHasElement(s: seq<Source>)
    ensures s == [] || exists x :: x in s
  {
    if s != [] {
      assert s[0] in s;
    }
  }

  /** An ordered list is determined by its elements. */
  lemma {:induction false} OrderedUnique(a: seq<Source>, b: seq<Source>)
    requires Ordered(a) && Ordered(b) && SameElements(a, b)
    ensures a == b
  {
    if a == [] {
      NonemptyHasElement(b);
    } else {
      assert a[0] in b;
      assert b[0] in a;
      assert a[0] == b[0];
      TailElements(a, b);
      OrderedUnique(a[1..], b[1..]);
    }
  }

  lemma TailElements(a: seq<Source>, b: seq<Source>)
    requires Ordered(a) && Ordered(b) && SameElements(a, b)
    requires a != [] && b != [] && a[0] == b[0]
    ensures SameElements(a[1..], b[1..])
  {
    forall x ensures x in a[1..] <==> x in b[1..] {
      assert x in a[1..] <==> x in a && x != a[0];
      assert x in b[1..] <==> x in b && x != b[0];
    }
  }

  /** `sortUnique`: first occurrences in order, then the canonical sort. */
  method SortUniqueReceipts(sources: seq<Source>) returns (out: seq<Source>)
    ensures out == SortUnique(sources)
  {
    var seen: set<Source> := {};
    var distinct: seq<Source> := [];
    for i := 0 to |sources|
      invariant forall x :: x in seen <==> x in sources[..i]
      invariant forall x :: x in seen <==> x in distinct
    {
      if sources[i] !in seen {
        seen := seen + {sources[i]};
        distinct := distinct + [sources[i]];
      }
    }
    out := [];
    for i := 0 to |distinct|
      invariant Ordered(out) && SameElements(out, distinct[..i])
    {
      out := Insert(distinct[i], out);
    }
    assert distinct[..|distinct|] == distinct && sources[..|sources|] == sources;
    OrderedUnique(out, SortUnique(sources));
  }

  /** `sameSourceSet`. */
  predicate SameSourceSet(a: seq<Source>, b: seq<Source>) {
    SortUnique(a) == SortUnique(b)
  }

  lemma SameSourceSetIsSetEquality(a: seq<Source>, b: seq<Source>)
    ensures SameSourceSet(a, b) <==> SameElements(a, b)
  {
    if SameElements(a, b) {
      OrderedUnique(SortUnique(a), SortUnique(b));
    }
  }

  // --- groups -------------------------------------------------------------------

  predicate IsUserLine(messages: seq<ChatMessage>) {
    |messages| == 1 && messages[0].User?
  }

  predicate Answers(message: ChatMessage, call: FunctionCall) {
    message.Tool? && message.toolCallId == call.id
  }

  /** An assistant message followed by exactly its results, in call order. */
  predicate IsClosedDialogue(messages: seq<ChatMessage>) {
    && messages != [] && messages[0].Assistant?
    && |messages| == 1 + |messages[0].toolCalls|
    && forall i :: 0 <= i < |messages[0].toolCalls| ==>
         Answers(messages[i + 1], messages[0].toolCalls[i])
  }

  predicate IsBalanced(group: SurfaceGroup) {
    match group.kind
    case Heading => false
    case Perception => IsUserLine(group.messages)
    case Summary => IsUserLine(group.messages)
    case Package => IsUserLine(group.messages)
    case Refusal => |group.messages| == 1 && group.messages[0].System?
    case Dialogue => IsClosedDialogue(group.messages)
  }

  /** `isBalancedGroup`, walking the calls of a dialogue. */
  method IsBalancedGroup(group: SurfaceGroup) returns (balanced: bool)
    ensures balanced == IsBalanced(group)
  {
    match group.kind {
      case Heading => return false;
      case Perception => return IsUserLine(group.messages);
      case Summary => return IsUserLine(group.messages);
      case Package => return IsUserLine(group.messages);
      case Refusal => return |group.messages| == 1 && group.messages[0].System?;
      case Dialogue =>
        if group.messages == [] || !group.messages[0].Assistant? { return false; }
        var calls := group.messages[0].toolCalls;
        if |group.messages| != 1 + |calls| { return false; }
        for i := 0 to |calls|
          invariant forall j :: 0 <= j < i ==> Answers(group.messages[j + 1], calls[j])
        {
          if !Answers(group.messages[i + 1], calls[i]) { return false; }
        }
        return true;
    }
  }

  /** The messages are an assistant's, with these calls, and then a tool's for each call, in order. */
  ghost predicate IsDialogueOf(
    messages: seq<ChatMessage>, text: Option<string>, calls: seq<FunctionCall>, contents: seq<string>)
  {
    && |contents| == |calls| && |messages| == |calls| + 1 && messages[0] == Assistant(text, calls)
    && forall i :: 0 <= i < |calls| ==> messages[i + 1] == Tool(contents[i], calls[i].id)
  }

  /** What a balanced group can be, kind by kind: the message lists themselves. */
  lemma BalancedIff(group: SurfaceGroup)
    ensures IsBalanced(group) <==>
      match group.kind
      case Heading => false
      case Refusal => exists content :: group.messages == [System(content)]
      case Dialogue => exists text, calls, contents :: IsDialogueOf(group.messages, text, calls, contents)
      case _ => exists content :: group.messages == [User(content)]
  {
    var messages := group.messages;
    if IsBalanced(group) {
      match group.kind
      case Heading =>
      case Refusal => assert messages == [System(messages[0].content)];
      case Dialogue =>
        var text, calls := messages[0].text, messages[0].toolCalls;
        forall i | 0 <= i < |calls| ensures Answers(messages[i + 1], calls[i]) {
        }
        var contents := seq(|calls|, i requires 0 <= i < |calls| =>
          if messages[i + 1].Tool? then messages[i + 1].content else "");
        forall i | 0 <= i < |calls| ensures messages[i + 1] == Tool(contents[i], calls[i].id) {
          assert Answers(messages[i + 1], calls[i]);
        }
        assert IsDialogueOf(messages, text, calls, contents);
      case _ => assert messages == [User(messages[0].content)];
    }
  }

  /** The receipts a selected group contributes; a prior summary is cited by its own receipt. */
  function Citations(group: SurfaceGroup): seq<Source> {
    if group.kind == Summary then [group.id] else group.sources
  }

  function AllCitations(groups: seq<SurfaceGroup>): seq<Source> {
    if groups == [] then [] else Citations(groups[0]) + AllCitations(groups[1..])
  }

  /** A receipt is cited by the groups if and only if it is a summary's own or among another group's. */
  lemma {:induction false} CitedIff(groups: seq<SurfaceGroup>, x: Source)
    ensures x in AllCitations(groups) <==>
              exists i :: 0 <= i < |groups| && (if groups[i].kind == Summary then x == groups[i].id else x in groups[i].sources)
  {
    if groups != [] {
      CitedIff(groups[1..], x);
      assert x in AllCitations(groups) <==> x in Citations(groups[0]) || x in AllCitations(groups[1..]);
      assert forall i :: 1 <= i < |groups| ==> groups[i] == groups[1..][i - 1];
      assert groups[0].kind == Summary && x == groups[0].id ==> x in Citations(groups[0]);
    }
  }

  function AllMessages(groups: seq<SurfaceGroup>): seq<ChatMessage> {
    if groups == [] then [] else groups[0].messages + AllMessages(groups[1..])
  }

  function Ids(groups: seq<SurfaceGroup>): (ids: seq<Source>)
    ensures |ids| == |groups| && forall i :: 0 <= i < |groups| ==> ids[i] == groups[i].id
  {
    seq(|groups|, i requires 0 <= i < |groups| => groups[i].id)
  }

  ghost predicate DistinctIds(groups: seq<SurfaceGroup>) {
    forall i, j :: 0 <= i < j < |groups| ==> groups[i].id != groups[j].id
  }

  predicate AllBalanced(groups: seq<SurfaceGroup>) {
    forall i :: 0 <= i < |groups| ==> IsBalanced(groups[i])
  }

  lemma {:induction false} AllMessagesConcat(a: seq<SurfaceGroup>, b: seq<SurfaceGroup>)
    ensures AllMessages(a + b) == AllMessages(a) + AllMessages(b)
  {
    if a == [] {
      assert a + b == b;
    } else {
      assert (a + b)[1..] == a[1..] + b;
      AllMessagesConcat(a[1..], b);
    }
  }

  lemma {:induction false} AllCitationsConcat(a: seq<SurfaceGroup>, b: seq<SurfaceGroup>)
    ensures AllCitations(a + b) == AllCitations(a) + AllCitations(b)
  {
    if a == [] {
      assert a + b == b;
    } else {
      assert (a + b)[1..] == a[1..] + b;
      AllCitationsConcat(a[1..], b);
    }
  }

  // --- candidates and their spans ------------------------------------------------

  /** `candidateIdentity`: the hash of the five fields other than the id. */
  function Identity(c: CompactionStart): Digest {
    OfCandidate(c.revision, c.groupIds, c.sources, c.shadowHash, c.shadowBytes)
  }

  datatype SpanFailure =
    | StaleRevision | WrongIdentity | NoGroupIds | NoSources | TooManySources
    | UnknownGroup(id: Source) | DuplicateGroup | HeadingPin | NonContiguous
    | Unbalanced | WrongCitations | WrongShadowBytes | WrongShadowHash

  datatype Verdict =
    | Legal(first: nat, length: nat, shadowBytes: nat)
    | Refused(reason: SpanFailure)

  /** The first position of a group id, or the length when it is not on the surface. */
  function FindGroup(groups: seq<SurfaceGroup>, id: Source): (at: nat)
    ensures at <= |groups|
    ensures at < |groups| ==> groups[at].id == id
    ensures forall i :: 0 <= i < at ==> groups[i].id != id
  {
    if groups == [] then 0
    else if groups[0].id == id then 0
    else 1 + FindGroup(groups[1..], id)
  }

  /** The positions of the named groups, in the candidate's order. */
  function Locate(groups: seq<SurfaceGroup>, ids: seq<Source>, seen: seq<nat>)
    : Result<seq<nat>, SpanFailure>
    decreases |ids|
  {
    if ids == [] then Ok(seen)
    else
      var at := FindGroup(groups, ids[0]);
      if at == |groups| then Err(UnknownGroup(ids[0]))
      else if at in seen then Err(DuplicateGroup)
      else Locate(groups, ids[1..], seen + [at])
  }

  function Min(positions: seq<nat>): (m: nat)
    requires positions != []
    ensures m in positions && forall p :: p in positions ==> m <= p
  {
    assert forall p :: p in positions <==> p == positions[0] || p in positions[1..];
    if |positions| == 1 then positions[0]
    else
      var rest := Min(positions[1..]);
      if positions[0] < rest then positions[0] else rest
  }

  /** The span carries exactly the candidate's citations, bytes and shadow, and is made of whole units. */
  predicate SpanMatches(span: seq<SurfaceGroup>, c: CompactionStart) {
    && AllBalanced(span)
    && SortUnique(AllCitations(span)) == c.sources
    && WireBytes(AllMessages(span)) == c.shadowBytes
    && OfMessages(AllMessages(span)) == c.shadowHash
  }

  predicate Covers(positions: seq<nat>, first: nat) {
    forall k :: first <= k < first + |positions| ==> k in positions
  }

  /** The checks on the located span: balance, citations, shadow. */
  function JudgeSpan(span: seq<SurfaceGroup>, first: nat, c: CompactionStart): Verdict {
    if !AllBalanced(span) then Refused(Unbalanced)
    else if SortUnique(AllCitations(span)) != c.sources then Refused(WrongCitations)
    else if WireBytes(AllMessages(span)) != c.shadowBytes then Refused(WrongShadowBytes)
    else if OfMessages(AllMessages(span)) != c.shadowHash then Refused(WrongShadowHash)
    else Legal(first, |span|, c.shadowBytes)
  }

  function JudgePositions(groups: seq<SurfaceGroup>, positions: seq<nat>, c: CompactionStart): Verdict
    requires positions != []
    requires forall p :: p in positions ==> p < |groups|
  {
    var first := Min(positions);
    if first == 0 then Refused(HeadingPin)
    else if !Covers(positions, first) then Refused(NonContiguous)
    else
      assert first + |positions| - 1 in positions;
      JudgeSpan(groups[first..first + |positions|], first, c)
  }

  lemma {:induction false} LocatedPositions(groups: seq<SurfaceGroup>, ids: seq<Source>, seen: seq<nat>)
    requires Locate(groups, ids, seen).Ok?
    requires forall p :: p in seen ==> p < |groups|
    requires NoDuplicates(seen)
    ensures var positions := Locate(groups, ids, seen).value;
            && |positions| == |seen| + |ids|
            && (forall p :: p in positions ==> p < |groups|)
            && NoDuplicates(positions)
            && (forall i :: 0 <= i < |seen| ==> positions[i] == seen[i])
            && (forall i :: 0 <= i < |ids| ==> positions[|seen| + i] == FindGroup(groups, ids[i]))
    decreases |ids|
  {
    if ids != [] {
      var at := FindGroup(groups, ids[0]);
      var positions := Locate(groups, ids, seen).value;
      LocatedPositions(groups, ids[1..], seen + [at]);
      forall i | 0 <= i < |ids| ensures positions[|seen| + i] == FindGroup(groups, ids[i]) {
        if i > 0 {
          assert ids[i] == ids[1..][i - 1];
        }
      }
    }
  }

  /** `validateCompactionSpan`, refusal by refusal in the source's order. */
  function ValidateSpan(groups: seq<SurfaceGroup>, c: CompactionStart): Verdict {
    if c.revision != OfSurface(groups) then Refused(StaleRevision)
    else if c.id != Identity(c) then Refused(WrongIdentity)
    else if c.groupIds == [] then Refused(NoGroupIds)
    else if c.sources == [] then Refused(NoSources)
    else if |c.sources| > MAX_COMPACTION_SOURCES then Refused(TooManySources)
    else match Locate(groups, c.groupIds, [])
      case Err(reason) => Refused(reason)
      case Ok(positions) =>
        LocatedPositions(groups, c.groupIds, []);
        JudgePositions(groups, positions, c)
  }

  // --- what a legal span is ------------------------------------------------------

  /** The candidate names, in any order and once each, the groups of `span`. */
  ghost predicate Names(ids: seq<Source>, span: seq<SurfaceGroup>) {
    |ids| == |span| && NoDuplicates(ids) && SameElements(ids, Ids(span))
  }

  /** The candidate still names this surface, by its own identity, within the citation bound. */
  predicate Current(groups: seq<SurfaceGroup>, c: CompactionStart) {
    && c.revision == OfSurface(groups) && c.id == Identity(c)
    && c.groupIds != [] && 1 <= |c.sources| <= MAX_COMPACTION_SOURCES
  }

  /** Everything a legal candidate promises about the span starting at `first`. */
  ghost predicate LegalAt(groups: seq<SurfaceGroup>, c: CompactionStart, first: nat) {
    && 1 <= first && first + |c.groupIds| <= |groups|
    && Current(groups, c)
    && Names(c.groupIds, groups[first..first + |c.groupIds|])
    && SpanMatches(groups[first..first + |c.groupIds|], c)
  }

  lemma FindDistinct(groups: seq<SurfaceGroup>, at: nat)
    requires DistinctIds(groups) && at < |groups|
    ensures FindGroup(groups, groups[at].id) == at
  {
    var found := FindGroup(groups, groups[at].id);
    assert found < |groups| ==> groups[found].id == groups[at].id;
  }

  lemma JudgeMeaning(span: seq<SurfaceGroup>, first: nat, c: CompactionStart)
    ensures var v := JudgeSpan(span, first, c);
            && (v.Legal? <==> SpanMatches(span, c))
            && (v.Legal? ==> v == Legal(first, |span|, c.shadowBytes))
  {
    hide AllBalanced, SortUnique, AllCitations, AllMessages, WireBytes;
  }

  /** An accepted list of positions is a run; its judgement is that of the run. */
  lemma JudgedRun(groups: seq<SurfaceGroup>, positions: seq<nat>, c: CompactionStart)
    requires positions != []
    requires forall p :: p in positions ==> p < |groups|
    requires JudgePositions(groups, positions, c).Legal?
    ensures var first := Min(positions);
            && 1 <= first && first + |positions| <= |groups|
            && (forall k :: k in positions <==> first <= k < first + |positions|)
            && SpanMatches(groups[first..first + |positions|], c)
            && JudgePositions(groups, positions, c) == Legal(first, |positions|, c.shadowBytes)
  {
    hide JudgeSpan, SpanMatches, Min;
    var first := Min(positions);
    CoveringIsExact(positions, first);
    assert first + |positions| - 1 in positions;
    JudgeMeaning(groups[first..first + |positions|], first, c);
  }

  lemma LegalVerdictIsLegal(groups: seq<SurfaceGroup>, c: CompactionStart)
    requires ValidateSpan(groups, c).Legal?
    ensures var v := ValidateSpan(groups, c);
            LegalAt(groups, c, v.first) && v.length == |c.groupIds| && v.shadowBytes == c.shadowBytes
  {
    hide Locate, JudgePositions, SpanMatches, Names, Min, FindGroup;
    LocatedPositions(groups, c.groupIds, []);
    var positions := Locate(groups, c.groupIds, []).value;
    JudgedRun(groups, positions, c);
    LocatedNames(groups, c.groupIds, positions, Min(positions));
  }

  lemma LegalBounds(groups: seq<SurfaceGroup>, c: CompactionStart)
    ensures var v := ValidateSpan(groups, c);
            v.Legal? ==> 1 <= v.first < v.first + v.length <= |groups|
  {
    if ValidateSpan(groups, c).Legal? {
      LegalVerdictIsLegal(groups, c);
    }
  }

  lemma LocatedNames(groups: seq<SurfaceGroup>, ids: seq<Source>, positions: seq<nat>, first: nat)
    requires |positions| == |ids| && first + |ids| <= |groups|
    requires NoDuplicates(positions)
    requires forall i :: 0 <= i < |ids| ==> positions[i] == FindGroup(groups, ids[i])
    requires forall k :: k in positions <==> first <= k < first + |positions|
    ensures Names(ids, groups[first..first + |ids|])
  {
    var span := groups[first..first + |ids|];
    forall id ensures id in ids <==> id in Ids(span) {
      if id in ids {
        NamedIsInSpan(groups, ids, positions, first, id);
      }
      if id in Ids(span) {
        SpanIsNamed(groups, ids, positions, first, id);
      }
    }
    forall i, j | 0 <= i < j < |ids| ensures ids[i] != ids[j] {
      assert positions[i] != positions[j];
    }
  }

  lemma NamedIsInSpan(groups: seq<SurfaceGroup>, ids: seq<Source>, positions: seq<nat>, first: nat, id: Source)
    requires |positions| == |ids| && first + |ids| <= |groups|
    requires forall i :: 0 <= i < |ids| ==> positions[i] == FindGroup(groups, ids[i])
    requires forall k :: k in positions <==> first <= k < first + |positions|
    requires id in ids
    ensures id in Ids(groups[first..first + |ids|])
  {
    var i :| 0 <= i < |ids| && ids[i] == id;
    assert positions[i] in positions;
    assert Ids(groups[first..first + |ids|])[positions[i] - first] == id;
  }

  lemma SpanIsNamed(groups: seq<SurfaceGroup>, ids: seq<Source>, positions: seq<nat>, first: nat, id: Source)
    requires |positions| == |ids| && first + |ids| <= |groups|
    requires forall i :: 0 <= i < |ids| ==> positions[i] == FindGroup(groups, ids[i])
    requires forall k :: k in positions <==> first <= k < first + |positions|
    requires id in Ids(groups[first..first + |ids|])
    ensures id in ids
  {
    hide FindGroup;
    var span := groups[first..first + |ids|];
    var k :| 0 <= k < |span| && Ids(span)[k] == id;
    assert groups[first + k] == span[k];
    assert first + k in positions;
    var i :| 0 <= i < |positions| && positions[i] == first + k;
    assert FindGroup(groups, ids[i]) == first + k;
  }

  lemma {:induction false} LocateSucceeds(groups: seq<SurfaceGroup>, ids: seq<Source>, seen: seq<nat>)
    requires NoDuplicates(ids)
    requires forall i :: 0 <= i < |ids| ==>
      FindGroup(groups, ids[i]) < |groups| && FindGroup(groups, ids[i]) !in seen
    ensures Locate(groups, ids, seen).Ok?
    decreases |ids|
  {
    if ids != [] {
      var at := FindGroup(groups, ids[0]);
      forall i | 0 <= i < |ids| - 1
        ensures FindGroup(groups, ids[1..][i]) !in seen + [at]
      {
        assert ids[1..][i] == ids[i + 1] != ids[0];
      }
      LocateSucceeds(groups, ids[1..], seen + [at]);
    }
  }

  lemma NamedFound(groups: seq<SurfaceGroup>, ids: seq<Source>, first: nat, i: nat)
    requires DistinctIds(groups) && first + |ids| <= |groups| && i < |ids|
    requires Names(ids, groups[first..first + |ids|])
    ensures first <= FindGroup(groups, ids[i]) < first + |ids|
  {
    var span := groups[first..first + |ids|];
    assert ids[i] in ids;
    assert ids[i] in Ids(span);
    var k :| 0 <= k < |span| && Ids(span)[k] == ids[i];
    FindDistinct(groups, first + k);
  }

  /** A run named once each is located as exactly that run. */
  lemma NamedIsLocated(groups: seq<SurfaceGroup>, ids: seq<Source>, first: nat)
    requires DistinctIds(groups) && ids != [] && first + |ids| <= |groups|
    requires Names(ids, groups[first..first + |ids|])
    ensures Locate(groups, ids, []).Ok?
    ensures var positions := Locate(groups, ids, []).value;
            && |positions| == |ids|
            && forall p :: p in positions <==> first <= p < first + |ids|
  {
    hide FindGroup, Locate;
    forall i | 0 <= i < |ids|
      ensures first <= FindGroup(groups, ids[i]) < first + |ids|
    {
      NamedFound(groups, ids, first, i);
    }
    LocateSucceeds(groups, ids, []);
    LocatedPositions(groups, ids, []);
    var positions := Locate(groups, ids, []).value;
    forall p | p in positions ensures first <= p < first + |positions| {
      var i :| 0 <= i < |positions| && positions[i] == p;
      assert positions[i] == FindGroup(groups, ids[i]);
    }
    DistinctFills(positions, first);
  }

  lemma LegalIsAccepted(groups: seq<SurfaceGroup>, c: CompactionStart, first: nat)
    requires DistinctIds(groups) && LegalAt(groups, c, first)
    ensures ValidateSpan(groups, c) == Legal(first, |c.groupIds|, c.shadowBytes)
  {
    hide Locate, SpanMatches, JudgeSpan, Names, DistinctIds;
    NamedIsLocated(groups, c.groupIds, first);
    LocatedPositions(groups, c.groupIds, []);
    var positions := Locate(groups, c.groupIds, []).value;
    assert first in positions;
    assert Min(positions) == first;
    JudgeMeaning(groups[first..first + |c.groupIds|], first, c);
  }

  /**
   The one definition of a legal span, read declaratively: a candidate is accepted
   exactly when it names, once each and in any order, a contiguous run of balanced
   groups after the heading and carries that run's citations, bytes and digests.
   */
  lemma ValidSpanIff(groups: seq<SurfaceGroup>, c: CompactionStart)
    requires DistinctIds(groups)
    ensures ValidateSpan(groups, c).Legal? <==> exists first: nat :: LegalAt(groups, c, first)
  {
    if ValidateSpan(groups, c).Legal? {
      LegalVerdictIsLegal(groups, c);
    }
    if first: nat :| LegalAt(groups, c, first) {
      LegalIsAccepted(groups, c, first);
    }
  }

  // --- the loops of `validateCompactionSpan` --------------------------------------

  method LocateGroups(groups: seq<SurfaceGroup>, ids: seq<Source>) returns (r: Result<seq<nat>, SpanFailure>)
    ensures r == Locate(groups, ids, [])
  {
    var positions: seq<nat> := [];
    for i := 0 to |ids|
      invariant Locate(groups, ids[i..], positions) == Locate(groups, ids, [])
    {
      var at := FindGroup(groups, ids[i]);
      assert ids[i..][0] == ids[i] && ids[i..][1..] == ids[i + 1..];
      if at == |groups| { return Err(UnknownGroup(ids[i])); }
      if at in positions { return Err(DuplicateGroup); }
      positions := positions + [at];
    }
    r := Ok(positions);
  }

  ghost predicate Increasing(s: seq<nat>) {
    forall i, j :: 0 <= i < j < |s| ==> s[i] < s[j]
  }

  function Place(x: nat, sorted: seq<nat>): (r: seq<nat>)
    requires Increasing(sorted) && x !in sorted
    ensures Increasing(r) && |r| == |sorted| + 1
    ensures forall y :: y in r <==> y == x || y in sorted
  {
    if sorted == [] then [x]
    else if x < sorted[0] then [x] + sorted
    else
      var rest := Place(x, sorted[1..]);
      assert forall y :: y in sorted <==> y == sorted[0] || y in sorted[1..];
      assert forall k :: 0 <= k < |rest| ==> rest[k] in rest && sorted[0] < rest[k];
      [sorted[0]] + rest
  }

  method SortPositions(positions: seq<nat>) returns (sorted: seq<nat>)
    requires NoDuplicates(positions)
    ensures Increasing(sorted) && |sorted| == |positions|
    ensures forall p :: p in sorted <==> p in positions
  {
    sorted := [];
    for i := 0 to |positions|
      invariant Increasing(sorted) && |sorted| == i
      invariant forall p :: p in sorted <==> p in positions[..i]
    {
      sorted := Place(positions[i], sorted);
    }
    assert positions[..|positions|] == positions;
  }

  /** Walks the sorted positions: are they a run of consecutive numbers? */
  method Contiguous(positions: seq<nat>) returns (first: nat, contiguous: bool)
    requires positions != [] && NoDuplicates(positions)
    ensures first == Min(positions) && contiguous == Covers(positions, first)
  {
    var sorted := SortPositions(positions);
    first := sorted[0];
    assert first in sorted;
    for i := 1 to |sorted|
      invariant forall j :: 0 <= j < i ==> sorted[j] == first + j
    {
      if sorted[i] != sorted[i - 1] + 1 {
        assert first + i !in sorted;
        return first, false;
      }
    }
    forall k | first <= k < first + |positions| ensures k in positions {
      assert sorted[k - first] in sorted;
    }
    contiguous := true;
  }

  method JudgeSelected(groups: seq<SurfaceGroup>, first: nat, length: nat, c: CompactionStart)
    returns (v: Verdict)
    requires first + length <= |groups|
    ensures v == JudgeSpan(groups[first..first + length], first, c)
  {
    var messages: seq<ChatMessage>, citations: seq<Source> := [], [];
    ghost var span := groups[first..first + length];
    for i := 0 to length
      invariant AllBalanced(span[..i])
      invariant messages == AllMessages(span[..i]) && citations == AllCitations(span[..i])
    {
      var group := groups[first + i];
      assert span[i] == group;
      var balanced := IsBalancedGroup(group);
      if !balanced { return Refused(Unbalanced); }
      assert span[..i + 1] == span[..i] + [group];
      AllMessagesConcat(span[..i], [group]);
      AllCitationsConcat(span[..i], [group]);
      messages, citations := messages + group.messages, citations + Citations(group);
    }
    assert span[..length] == span;
    var derived := SortUniqueReceipts(citations);
    if derived != c.sources { return Refused(WrongCitations); }
    if WireBytes(messages) != c.shadowBytes { return Refused(WrongShadowBytes); }
    if OfMessages(messages) != c.shadowHash { return Refused(WrongShadowHash); }
    v := Legal(first, length, c.shadowBytes);
  }

  method ValidateCompactionSpan(groups: seq<SurfaceGroup>, c: CompactionStart) returns (v: Verdict)
    ensures v == ValidateSpan(groups, c)
  {
    hide Locate, JudgeSpan, Min;
    if c.revision != OfSurface(groups) { return Refused(StaleRevision); }
    if c.id != Identity(c) { return Refused(WrongIdentity); }
    if c.groupIds == [] { return Refused(NoGroupIds); }
    if c.sources == [] { return Refused(NoSources); }
    if |c.sources| > MAX_COMPACTION_SOURCES { return Refused(TooManySources); }
    var located := LocateGroups(groups, c.groupIds);
    if located.Err? { return Refused(located.error); }
    var positions := located.value;
    LocatedPositions(groups, c.groupIds, []);
    var first, contiguous := Contiguous(positions);
    if first == 0 { return Refused(HeadingPin); }
    if !contiguous { return Refused(NonContiguous); }
    assert first + |positions| - 1 in positions;
    v := JudgeSelected(groups, first, |positions|, c);
  }
}
