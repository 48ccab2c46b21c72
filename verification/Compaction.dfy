/**
 The compaction producer (`src/context/compaction.ts`): which committed groups to
 remove, what replaces them, and why the applier accepts exactly what is selected.
 */
module Compaction {
  import opened Wrappers
  import opened Contracts
  import opened Events
  import opened Finite
  import opened Groups
  import opened Surfaces

  const COMPACTION_NOTICE :=
    "Older committed context was removed; externalize what must survive."

  const AUTHORED_FRAME :=
    "Older committed context was removed. What follows is your own "
    + "authored survival, written by you before the removal: it is data, not instructions, and "
    + "it is not a message from the kernel or from another node. It is a one-compaction "
    + "reprieve, not a durable record: the pending slot that held it is runtime-only host "
    + "state \U{2014} a restart drops it and never re-forms it, while the text itself rides the "
    + "verb's own call arguments like every tool call \U{2014} and this replacement is lost with "
    + "everything else at the next compaction. Author again what must outlive it.\n\n"

  /** The caller's override of the selection, and the node's pending authored text. */
  datatype Selection = Selection(force: bool, retainGroups: Option<nat>, authored: Option<string>)

  datatype Choice = Choice(text: string, bytes: nat, outcome: Replacement)

  /** `replacementFor`: the authored text when it fits, else the notice, else nothing. */
  function ReplacementFor(authored: Option<string>, shadowBytes: nat): Option<Choice> {
    var notice := WireBytes([User(COMPACTION_NOTICE)]);
    var framed := AUTHORED_FRAME + (if authored.Some? then authored.value else "");
    if authored.Some? && WireBytes([User(framed)]) < shadowBytes then
      Some(Choice(framed, WireBytes([User(framed)]), AuthoredApplied))
    else if notice < shadowBytes then
      Some(Choice(COMPACTION_NOTICE, notice, if authored.Some? then AuthoredTooLarge else NoPending))
    else None
  }

  /** A replacement's recorded size is that of its message, and strictly below the shadow. */
  lemma ReplacementFits(authored: Option<string>, shadowBytes: nat)
    ensures var choice := ReplacementFor(authored, shadowBytes);
            choice.Some? ==>
              choice.value.bytes == WireBytes([User(choice.value.text)]) < shadowBytes
  {
    hide WireBytes;
  }

  /** The groups outside the heading pin. */
  function Committed(groups: seq<SurfaceGroup>): seq<SurfaceGroup> {
    if groups == [] then []
    else (if groups[0].kind == Heading then [] else [groups[0]]) + Committed(groups[1..])
  }

  datatype Chosen = Chosen(count: nat, sources: seq<Source>)

  /** Takes eligible groups, oldest first, while the merged citations stay within the bound. */
  function Choose(eligible: seq<SurfaceGroup>, sources: seq<Source>): Option<Chosen> {
    if eligible == [] then Some(Chosen(0, sources))
    else if !IsBalanced(eligible[0]) then None
    else
      var merged := SortUnique(sources + Citations(eligible[0]));
      if |merged| > MAX_COMPACTION_SOURCES then Some(Chosen(0, sources))
      else match Choose(eligible[1..], merged)
        case None => None
        case Some(rest) => Some(Chosen(rest.count + 1, rest.sources))
  }

  lemma {:induction false} ChosenCount(eligible: seq<SurfaceGroup>, sources: seq<Source>)
    requires Choose(eligible, sources).Some?
    ensures Choose(eligible, sources).value.count <= |eligible|
  {
    if eligible != [] && IsBalanced(eligible[0]) {
      var merged := SortUnique(sources + Citations(eligible[0]));
      if |merged| <= MAX_COMPACTION_SOURCES {
        ChosenCount(eligible[1..], merged);
      }
    }
  }

  function Keep(selection: Selection, policy: Policy, committed: nat): (keep: nat)
    ensures keep <= committed
  {
    var retained :=
      if selection.retainGroups.Some? then selection.retainGroups.value else policy.keepRecentGroups;
    if retained < committed then retained else committed
  }

  function Candidate(groups: seq<SurfaceGroup>, chosen: seq<SurfaceGroup>, sources: seq<Source>): CompactionStart {
    var shadow := AllMessages(chosen);
    var c := CompactionStart(Named(0), OfSurface(groups), Ids(chosen), sources,
                             OfMessages(shadow), WireBytes(shadow));
    c.(id := Identity(c))
  }

  /** `selectCompaction` over a folded surface and the recorded policy. */
  function SelectCompaction(groups: seq<SurfaceGroup>, policy: Policy, selection: Selection)
    : Option<CompactionStart>
  {
    var committed := Committed(groups);
    if committed == [] then None
    else if !selection.force && WireBytes(AllMessages(committed)) < policy.compactAfterBytes then None
    else
      var eligible := committed[..|committed| - Keep(selection, policy, |committed|)];
      match Choose(eligible, [])
      case None => None
      case Some(chosen) =>
        ChosenCount(eligible, []);
        if chosen.count == 0 then None
        else
          var span := eligible[..chosen.count];
          if ReplacementFor(selection.authored, WireBytes(AllMessages(span))).None? then None
          else Some(Candidate(groups, span, chosen.sources))
  }

  // --- the loops of `selectCompaction` ----------------------------------------------

  /** `mergeSources`. */
  method MergeSources(existing: seq<Source>, incoming: seq<Source>) returns (merged: seq<Source>)
    ensures merged == SortUnique(existing + incoming)
  {
    merged := SortUniqueReceipts(existing + incoming);
  }

  method ChooseGroups(eligible: seq<SurfaceGroup>) returns (ok: bool, count: nat, sources: seq<Source>)
    ensures Choose(eligible, []) == if ok then Some(Chosen(count, sources)) else None
  {
    count, sources := 0, [];
    while count < |eligible|
      invariant count <= |eligible|
      invariant Choose(eligible, []) ==
        match Choose(eligible[count..], sources)
        case None => None
        case Some(rest) => Some(Chosen(rest.count + count, rest.sources))
      decreases |eligible| - count
    {
      var balanced := IsBalancedGroup(eligible[count]);
      if !balanced { return false, count, sources; }
      var merged := MergeSources(sources, Citations(eligible[count]));
      if |merged| > MAX_COMPACTION_SOURCES { break; }
      assert eligible[count..][1..] == eligible[count + 1..];
      count, sources := count + 1, merged;
    }
    ok := true;
  }

  method CommittedGroups(groups: seq<SurfaceGroup>) returns (committed: seq<SurfaceGroup>)
    ensures committed == Committed(groups)
  {
    committed := [];
    for i := 0 to |groups|
      invariant committed + Committed(groups[i..]) == Committed(groups)
    {
      assert groups[i..][1..] == groups[i + 1..];
      if groups[i].kind != Heading { committed := committed + [groups[i]]; }
    }
  }

  method SelectNext(groups: seq<SurfaceGroup>, policy: Policy, selection: Selection)
    returns (candidate: Option<CompactionStart>)
    ensures candidate == SelectCompaction(groups, policy, selection)
  {
    hide Choose, Committed, WireBytes, AllMessages, ReplacementFor, Candidate;
    var committed := CommittedGroups(groups);
    if committed == [] { return None; }
    if !selection.force && WireBytes(AllMessages(committed)) < policy.compactAfterBytes { return None; }
    var eligible := committed[..|committed| - Keep(selection, policy, |committed|)];
    var ok, count, sources := ChooseGroups(eligible);
    if !ok || count == 0 { return None; }
    ChosenCount(eligible, []);
    var span := eligible[..count];
    if ReplacementFor(selection.authored, WireBytes(AllMessages(span))).None? { return None; }
    candidate := Some(Candidate(groups, span, sources));
  }

  // --- producer and applier agree ------------------------------------------------------

  lemma {:induction false} CommittedIsTail(groups: seq<SurfaceGroup>)
    requires forall i :: 0 <= i < |groups| ==> groups[i].kind != Heading
    ensures Committed(groups) == groups
  {
    if groups != [] {
      CommittedIsTail(groups[1..]);
    }
  }

  /** Merging group by group is one `SortUnique` of every citation, over the longest prefix that fits. */
  lemma {:induction false} ChooseMeaning(eligible: seq<SurfaceGroup>, before: seq<Source>)
    requires AllBalanced(eligible)
    ensures var r := Choose(eligible, SortUnique(before));
            && r.Some? && r.value.count <= |eligible|
            && r.value.sources == SortUnique(before + AllCitations(eligible[..r.value.count]))
            && (r.value.count > 0 ==> |r.value.sources| <= MAX_COMPACTION_SOURCES)
            && (r.value.count < |eligible| ==>
                  |SortUnique(before + AllCitations(eligible[..r.value.count + 1]))| > MAX_COMPACTION_SOURCES)
  {
    hide IsBalanced, Citations;
    if eligible == [] {
      assert before + AllCitations(eligible[..0]) == before;
    } else {
      var first := Citations(eligible[0]);
      var merged := SortUnique(SortUnique(before) + first);
      MergeAbsorbs(before, first);
      assert AllCitations(eligible[..1]) == first by {
        assert eligible[..1][1..] == [];
      }
      if |merged| > MAX_COMPACTION_SOURCES {
        assert before + AllCitations(eligible[..0]) == before;
      } else {
        ChooseMeaning(eligible[1..], before + first);
        var n := Choose(eligible[1..], merged).value.count;
        CitationsCons(eligible, before, n);
        if n < |eligible[1..]| {
          CitationsCons(eligible, before, n + 1);
        }
      }
    }
  }

  lemma MergeAbsorbs(before: seq<Source>, incoming: seq<Source>)
    ensures SortUnique(SortUnique(before) + incoming) == SortUnique(before + incoming)
  {
    var a, b := SortUnique(before) + incoming, before + incoming;
    assert SameElements(SortUnique(before), before);
    assert SameElements(a, b);
    OrderedUnique(SortUnique(a), SortUnique(b));
  }

  lemma CitationsCons(eligible: seq<SurfaceGroup>, before: seq<Source>, n: nat)
    requires eligible != [] && n < |eligible|
    ensures (before + Citations(eligible[0])) + AllCitations(eligible[1..][..n])
         == before + AllCitations(eligible[..n + 1])
  {
    assert eligible[..n + 1][1..] == eligible[1..][..n];
    assert eligible[..n + 1][0] == eligible[0];
  }

  lemma {:induction false} CitationsContainIds(groups: seq<SurfaceGroup>, index: Index)
    requires forall i :: 0 <= i < |groups| ==> GroupOk(groups[i], index)
    ensures forall i :: 0 <= i < |groups| ==> groups[i].id in AllCitations(groups)
    ensures forall x :: x in AllCitations(groups) ==> x in index
  {
    if groups != [] {
      assert GroupOk(groups[0], index);
      CitationsContainIds(groups[1..], index);
      forall i | 0 <= i < |groups| ensures groups[i].id in AllCitations(groups) {
        assert i > 0 ==> groups[i] == groups[1..][i - 1];
      }
    }
  }

  lemma CommittedOfSurface(groups: seq<SurfaceGroup>, index: Index)
    requires SurfaceOk(groups, index)
    ensures Committed(groups) == groups[1..]
  {
    CommittedIsTail(groups[1..]);
  }

  /** What a selection says of its own making, before any word about legality. */
  lemma SelectedShape(
    groups: seq<SurfaceGroup>, index: Index, policy: Policy, selection: Selection) returns (k: nat)
    requires SurfaceOk(groups, index)
    requires SelectCompaction(groups, policy, selection).Some?
    ensures 0 < k <= |groups| - 1 - Keep(selection, policy, |groups| - 1)
    ensures var span := groups[1..1 + k];
            var sources := SortUnique(AllCitations(span));
            && |sources| <= MAX_COMPACTION_SOURCES
            && SelectCompaction(groups, policy, selection) == Some(Candidate(groups, span, sources))
            && ReplacementFor(selection.authored, WireBytes(AllMessages(span))).Some?
  {
    hide ReplacementFor, Candidate, GroupOk, IsBalanced, WireBytes, AllMessages, Committed, Choose, SortUnique, AllCitations,
      DistinctIds;
    CommittedOfSurface(groups, index);
    var eligible := groups[1..][..|groups| - 1 - Keep(selection, policy, |groups| - 1)];
    assert AllBalanced(eligible);
    ChooseMeaning(eligible, []);
    NothingSorted();
    k := Choose(eligible, []).value.count;
    assert eligible[..k] == groups[1..1 + k];
    assert [] + AllCitations(eligible[..k]) == AllCitations(eligible[..k]);
  }

  /** A candidate selected on a well-formed surface names exactly positions 1..k and is legal there. */
  lemma SelectedIsLegal(
    groups: seq<SurfaceGroup>, index: Index, policy: Policy, selection: Selection)
    requires SurfaceOk(groups, index)
    requires SelectCompaction(groups, policy, selection).Some?
    ensures var c := SelectCompaction(groups, policy, selection).value;
            && LegalAt(groups, c, 1)
            && c.groupIds == Ids(groups[1..1 + |c.groupIds|])
            && |c.groupIds| + Spared(policy, selection) < |groups|
            && ReplacementFor(selection.authored, c.shadowBytes).Some?
            && AllKnown(c.sources, index)
  {
    hide SurfaceOk, SelectCompaction, ReplacementFor;
    var k := SelectedShape(groups, index, policy, selection);
    CandidateIsLegal(groups, index, k);
  }

  lemma SpanIsNamedByIds(groups: seq<SurfaceGroup>, k: nat)
    requires DistinctIds(groups) && k < |groups|
    ensures Names(Ids(groups[1..1 + k]), groups[1..1 + k])
  {
  }

  lemma CandidateIsLegal(groups: seq<SurfaceGroup>, index: Index, k: nat)
    requires SurfaceOk(groups, index)
    requires 0 < k < |groups|
    requires |SortUnique(AllCitations(groups[1..1 + k]))| <= MAX_COMPACTION_SOURCES
    ensures var span := groups[1..1 + k];
            var sources := SortUnique(AllCitations(span));
            LegalAt(groups, Candidate(groups, span, sources), 1) && AllKnown(sources, index)
  {
    hide GroupOk, IsBalanced, WireBytes, AllMessages, Names, SortUnique, AllCitations;
    var span := groups[1..1 + k];
    SpanIsNamedByIds(groups, k);
    var sources := SortUnique(AllCitations(span));
    assert forall i :: 0 <= i < |span| ==> GroupOk(span[i], index) && IsBalanced(span[i]);
    CitationsContainIds(span, index);
    assert span[0].id in sources;
    forall i | 0 <= i < |sources| ensures sources[i] in index {
      assert sources[i] in AllCitations(span);
    }
  }

  /** The summary `runCompaction` journals for a candidate. */
  function SummaryFor(c: CompactionStart, choice: Choice): CompactionSummary {
    CompactionSummary(c.id, choice.text, c.sources, choice.bytes, Some(choice.outcome))
  }

  /**
   Producer and applier agree: on a well-formed surface every selected candidate,
   completed by its own summary, is applied, and the result is the heading, the one
   summary group and the groups that were not selected, untouched.
   */
  lemma SelectedIsApplied(
    groups: seq<SurfaceGroup>, index: Index, policy: Policy, selection: Selection, receipt: Source)
    requires SurfaceOk(groups, index)
    requires SelectCompaction(groups, policy, selection).Some?
    requires var c := SelectCompaction(groups, policy, selection).value;
             var choice := ReplacementFor(selection.authored, c.shadowBytes);
             choice.Some? && receipt in index
             && index[receipt].payload == CompactionSummarized(SummaryFor(c, choice.value))
    ensures var c := SelectCompaction(groups, policy, selection).value;
            var summary := SummaryFor(c, ReplacementFor(selection.authored, c.shadowBytes).value);
            && |c.groupIds| < |groups|
            && ReplaceCommitted(groups, c, summary, receipt, index)
               == Some([groups[0]] + [SummaryGroup(summary, receipt, groups[1].turn)]
                       + groups[1 + |c.groupIds|..])
  {
    hide SurfaceOk, SelectCompaction, LegalAt, ReplaceCommitted, ReplacementFor, SummaryGroup, WireBytes;
    SelectedIsLegal(groups, index, policy, selection);
    var c := SelectCompaction(groups, policy, selection).value;
    var choice := ReplacementFor(selection.authored, c.shadowBytes).value;
    SurfaceIsDistinct(groups, index);
    ReplacementFits(selection.authored, c.shadowBytes);
    LegalReplaced(groups, index, c, SummaryFor(c, choice), receipt, 1);
    assert groups[..1] == [groups[0]];
  }

  lemma SurfaceIsDistinct(groups: seq<SurfaceGroup>, index: Index)
    requires SurfaceOk(groups, index)
    ensures DistinctIds(groups)
  {
  }

  lemma LegalReplaced(
    groups: seq<SurfaceGroup>, index: Index, c: CompactionStart, summary: CompactionSummary, receipt: Source,
    first: nat)
    requires DistinctIds(groups) && LegalAt(groups, c, first)
    requires SummaryCompletes(c, summary, receipt, c.shadowBytes, index)
    ensures first + |c.groupIds| <= |groups| && first < |groups|
    ensures ReplaceCommitted(groups, c, summary, receipt, index)
         == Some(groups[..first] + [SummaryGroup(summary, receipt, groups[first].turn)]
                 + groups[first + |c.groupIds|..])
  {
    hide ValidateSpan, SummaryCompletes, SummaryGroup;
    LegalIsAccepted(groups, c, first);
  }

  // --- when something is selected, and what is spared ------------------------------------------

  /** How many of the newest groups a selection leaves alone: the caller's number, else the policy's. */
  ghost function Spared(policy: Policy, selection: Selection): nat {
    if selection.retainGroups.Some? then selection.retainGroups.value else policy.keepRecentGroups
  }

  /** The citations of the oldest `k` committed groups fit one compaction. */
  ghost predicate Fits(groups: seq<SurfaceGroup>, k: nat)
    requires k < |groups|
  {
    |SortUnique(AllCitations(groups[1..1 + k]))| <= MAX_COMPACTION_SOURCES
  }

  /** Some replacement is shorter than what it replaces. */
  ghost predicate Replaceable(authored: Option<string>, bytes: nat) {
    || WireBytes([User(COMPACTION_NOTICE)]) < bytes
    || (authored.Some? && WireBytes([User(AUTHORED_FRAME + authored.value)]) < bytes)
  }

  /**
   The oldest `k` groups are what a selection takes: it spares the newest, the trigger has
   been reached or is overruled, no more of the eligible groups fit, and replacing them pays.
   */
  ghost predicate Takes(groups: seq<SurfaceGroup>, policy: Policy, selection: Selection, k: nat) {
    && 0 < k && k + Spared(policy, selection) < |groups|
    && (selection.force || WireBytes(AllMessages(groups[1..])) >= policy.compactAfterBytes)
    && Fits(groups, k) && (k + 1 + Spared(policy, selection) < |groups| ==> !Fits(groups, k + 1))
    && Replaceable(selection.authored, WireBytes(AllMessages(groups[1..1 + k])))
  }

  lemma ReplaceableIff(authored: Option<string>, bytes: nat)
    ensures ReplacementFor(authored, bytes).Some? <==> Replaceable(authored, bytes)
  {
    hide WireBytes;
  }

  lemma MoreElements(a: seq<Source>, b: seq<Source>)
    requires Ordered(a) && Ordered(b) && forall x :: x in a ==> x in b
    ensures |a| <= |b|
  {
    assert forall i, j :: 0 <= i < j < |a| ==> Before(a[i], a[j]);
    assert forall i, j :: 0 <= i < j < |b| ==> Before(b[i], b[j]);
    ElementsSize(a);
    ElementsSize(b);
    assert Elements(b) == Elements(a) + (Elements(b) - Elements(a));
  }

  /** Fewer groups cite no more. */
  lemma FitsBelow(groups: seq<SurfaceGroup>, j: nat, k: nat)
    requires j <= k < |groups| && Fits(groups, k)
    ensures Fits(groups, j)
  {
    hide SortUnique, AllCitations;
    var fewer, more := AllCitations(groups[1..1 + j]), AllCitations(groups[1..1 + k]);
    AllCitationsConcat(groups[1..1 + j], groups[1 + j..1 + k]);
    assert groups[1..1 + j] + groups[1 + j..1 + k] == groups[1..1 + k];
    MoreElements(SortUnique(fewer), SortUnique(more));
  }

  /** What the loop over the eligible groups takes of a well-formed surface. */
  lemma ChosenIs(groups: seq<SurfaceGroup>, index: Index, n: nat) returns (k: nat)
    requires SurfaceOk(groups, index) && n < |groups|
    ensures k <= n && Choose(groups[1..1 + n], []) == Some(Chosen(k, SortUnique(AllCitations(groups[1..1 + k]))))
    ensures k > 0 ==> Fits(groups, k)
    ensures k < n ==> !Fits(groups, k + 1)
  {
    hide GroupOk, IsBalanced, SortUnique, Choose;
    var eligible := groups[1..1 + n];
    assert AllBalanced(eligible);
    ChooseMeaning(eligible, []);
    assert SortUnique([]) == [] by { NothingSorted(); }
    k := Choose(eligible, []).value.count;
    assert eligible[..k] == groups[1..1 + k];
    assert [] + AllCitations(eligible[..k]) == AllCitations(eligible[..k]);
    if k < n {
      assert eligible[..k + 1] == groups[1..2 + k];
      assert [] + AllCitations(eligible[..k + 1]) == AllCitations(eligible[..k + 1]);
    }
  }

  lemma NothingSorted()
    ensures SortUnique([]) == []
  {
  }

  lemma EligibleIs(groups: seq<SurfaceGroup>, policy: Policy, selection: Selection) returns (n: nat)
    requires |groups| > 1
    ensures n == if Spared(policy, selection) < |groups| then |groups| - 1 - Spared(policy, selection) else 0
    ensures groups[1..][..|groups| - 1 - Keep(selection, policy, |groups| - 1)] == groups[1..1 + n]
  {
    n := |groups| - 1 - Keep(selection, policy, |groups| - 1);
  }

  /**
   On a well-formed surface something is selected if and only if there is a number of oldest
   groups to take, and then exactly those are named, cited and measured.
   */
  lemma SelectedIff(groups: seq<SurfaceGroup>, index: Index, policy: Policy, selection: Selection)
    requires SurfaceOk(groups, index)
    ensures SelectCompaction(groups, policy, selection).Some? <==> exists k :: Takes(groups, policy, selection, k)
    ensures forall k :: Takes(groups, policy, selection, k) ==>
              var c, span := SelectCompaction(groups, policy, selection), groups[1..1 + k];
              && c.Some? && c.value.groupIds == Ids(span) && c.value.sources == SortUnique(AllCitations(span))
              && c.value.shadowBytes == WireBytes(AllMessages(span)) && c.value.shadowHash == OfMessages(AllMessages(span))
              && c.value.revision == OfSurface(groups) && c.value.id == Identity(c.value)
  {
    hide SurfaceOk, Choose, WireBytes, AllMessages, ReplacementFor, Replaceable, Committed, Fits, SortUnique, AllCitations;
    CommittedOfSurface(groups, index);
    SurfaceIsSome(groups, index);
    if |groups| > 1 {
      var n := EligibleIs(groups, policy, selection);
      var count := ChosenIs(groups, index, n);
      assert groups[1..1 + n][..count] == groups[1..1 + count];
      ReplaceableIff(selection.authored, WireBytes(AllMessages(groups[1..1 + count])));
      if SelectCompaction(groups, policy, selection).Some? {
        assert Takes(groups, policy, selection, count);
      }
      forall k | Takes(groups, policy, selection, k) ensures k == count {
        if count < n && count < k {
          FitsBelow(groups, count + 1, k);
        } else if k < count {
          FitsBelow(groups, k + 1, count);
        }
      }
    }
  }

  lemma SurfaceIsSome(groups: seq<SurfaceGroup>, index: Index)
    requires SurfaceOk(groups, index)
    ensures groups != []
  {
  }

  /** What stands where the selected groups stood: the pending text when it pays, else the notice. */
  ghost function Standing(authored: Option<string>, bytes: nat): string {
    if authored.Some? && WireBytes([User(AUTHORED_FRAME + authored.value)]) < bytes then AUTHORED_FRAME + authored.value
    else COMPACTION_NOTICE
  }

  /**
   An applied selection, in full: the heading, one summary group that says the replacement
   and cites every receipt the removed groups did, and the rest, the spared groups last.
   */
  lemma AppliedSelection(
    groups: seq<SurfaceGroup>, index: Index, policy: Policy, selection: Selection, receipt: Source, k: nat)
    requires SurfaceOk(groups, index) && Takes(groups, policy, selection, k)
    requires SelectCompaction(groups, policy, selection).Some?
    requires var c := SelectCompaction(groups, policy, selection).value;
             var choice := ReplacementFor(selection.authored, c.shadowBytes);
             choice.Some? && receipt in index
             && index[receipt].payload == CompactionSummarized(SummaryFor(c, choice.value))
    ensures var c, span, r := SelectCompaction(groups, policy, selection).value, groups[1..1 + k], Spared(policy, selection);
            var after := ReplaceCommitted(groups, c, SummaryFor(c, ReplacementFor(selection.authored, c.shadowBytes).value),
                                          receipt, index);
            && after.Some?
            && after.value == [groups[0]]
                 + [SurfaceGroup(receipt, Summary, groups[1].turn,
                                 [User(Standing(selection.authored, WireBytes(AllMessages(span))))],
                                 SortUnique([receipt] + SortUnique(AllCitations(span))))]
                 + groups[1 + k..]
            && r < |after.value| && after.value[|after.value| - r..] == groups[|groups| - r..]
  {
    hide SurfaceOk, SelectCompaction, ReplaceCommitted, WireBytes, AllMessages, Fits, Replaceable, SortUnique, AllCitations;
    SelectedIff(groups, index, policy, selection);
    SelectedIsApplied(groups, index, policy, selection, receipt);
  }

  // --- every applied compaction shrinks the history ------------------------------------

  /** The encoded length of the whole committed history. */
  function HistoryBytes(groups: seq<SurfaceGroup>): nat {
    WireBytes(AllMessages(Committed(groups)))
  }

  /** `lines` replaces `span` inside a history; the encoding shrinks as the replacement does. */
  lemma ShorterEncoding(before: seq<ChatMessage>, span: seq<ChatMessage>, line: ChatMessage, after: seq<ChatMessage>)
    requires WireBytes([line]) < WireBytes(span)
    ensures WireBytes(before + [line] + after) < WireBytes(before + span + after)
  {
    MessageListBytesConcat(before + [line], after);
    MessageListBytesConcat(before, [line]);
    MessageListBytesConcat(before + span, after);
    MessageListBytesConcat(before, span);
    assert [line][1..] == [];
    assert MessageListBytes([line]) == MessageBytes(line);
  }

  lemma {:induction false} CommittedConcat(a: seq<SurfaceGroup>, b: seq<SurfaceGroup>)
    ensures Committed(a + b) == Committed(a) + Committed(b)
  {
    if a == [] {
      assert a + b == b;
    } else {
      assert (a + b)[1..] == a[1..] + b;
      CommittedConcat(a[1..], b);
    }
  }

  lemma CommittedMessages(a: seq<SurfaceGroup>, b: seq<SurfaceGroup>, d: seq<SurfaceGroup>)
    ensures AllMessages(Committed(a + b + d))
         == AllMessages(Committed(a)) + AllMessages(Committed(b)) + AllMessages(Committed(d))
  {
    CommittedConcat(a + b, d);
    CommittedConcat(a, b);
    AllMessagesConcat(Committed(a) + Committed(b), Committed(d));
    AllMessagesConcat(Committed(a), Committed(b));
  }

  /** Each applied compaction strictly decreases the encoded history. */
  lemma AppliedShrinks(
    groups: seq<SurfaceGroup>, c: CompactionStart, summary: CompactionSummary, receipt: Source, index: Index)
    requires ReplaceCommitted(groups, c, summary, receipt, index).Some?
    ensures HistoryBytes(ReplaceCommitted(groups, c, summary, receipt, index).value) < HistoryBytes(groups)
  {
    hide ValidateSpan, HistoryBytes, Current, Names, WireBytes, AllBalanced, AllMessages, SummaryGroup;
    LegalBounds(groups, c);
    LegalVerdictIsLegal(groups, c);
    var v := ValidateSpan(groups, c);
    SpliceShrinks(groups, v.first, v.first + v.length, summary, receipt);
  }

  lemma SpliceShrinks(groups: seq<SurfaceGroup>, from: nat, to: nat, summary: CompactionSummary, receipt: Source)
    requires from < to <= |groups| && AllBalanced(groups[from..to])
    requires WireBytes([User(summary.text)]) < WireBytes(AllMessages(groups[from..to]))
    ensures HistoryBytes(groups[..from] + [SummaryGroup(summary, receipt, groups[from].turn)] + groups[to..])
          < HistoryBytes(groups)
  {
    hide WireBytes;
    var before, span, after := groups[..from], groups[from..to], groups[to..];
    var g := SummaryGroup(summary, receipt, groups[from].turn);
    assert groups == before + span + after;
    CommittedMessages(before, span, after);
    CommittedMessages(before, [g], after);
    CommittedIsTail(span);
    CommittedIsTail([g]);
    OneGroupMessages(g);
    ShorterEncoding(AllMessages(Committed(before)), AllMessages(span), User(summary.text),
                    AllMessages(Committed(after)));
  }

  lemma OneGroupMessages(g: SurfaceGroup)
    ensures AllMessages([g]) == g.messages
  {
    assert [g][1..] == [];
  }
}
