/**
 The committed surface (`src/context/surface.ts`): an ordered list of groups whose
 node 0 is the heading. Each operation is a function on the list that refuses or
 yields the new list; class `Surface` applies it in place. The `lookup` closure of
 the source is the fold's index at the time of the call.
 */
module Surfaces {
  import opened Wrappers
  import opened Contracts
  import opened Events
  import opened Groups

  function HeadingGroup(text: string, source: Source): SurfaceGroup {
    SurfaceGroup(source, Heading, 0, [System(text)], [source])
  }

  /** `append`, refusal by refusal. */
  function AppendGroup(groups: seq<SurfaceGroup>, g: SurfaceGroup, index: Index): Option<seq<SurfaceGroup>> {
    if g.kind == Heading then None
    else if exists i :: 0 <= i < |groups| && groups[i].id == g.id then None
    else if g.sources == [] || g.id !in index then None
    else if !ReceiptMatches(g.kind, index[g.id].payload) then None
    else if g.id !in g.sources || !AllKnown(g.sources, index) then None
    else Some(groups + [g])
  }

  /** `replaceHeading`. */
  function RewriteHeading(groups: seq<SurfaceGroup>, text: string, source: Source, index: Index)
    : Option<seq<SurfaceGroup>>
  {
    if source !in index || !index[source].payload.SystemMessage? then None
    else if groups == [] then Some([HeadingGroup(text, source)])
    else Some(groups[0 := HeadingGroup(text, source)])
  }

  function SummaryGroup(summary: CompactionSummary, receipt: Source, turn: nat): SurfaceGroup {
    SurfaceGroup(receipt, Summary, turn, [User(summary.text)], SortUnique([receipt] + summary.sources))
  }

  /** The summary half of `replaceCommitted`: does `summary` complete `c` over a shadow of that size? */
  predicate SummaryCompletes(
    c: CompactionStart, summary: CompactionSummary, receipt: Source, shadowBytes: nat, index: Index)
  {
    && summary.id == c.id
    && SameSourceSet(summary.sources, c.sources)
    && summary.replacementBytes == WireBytes([User(summary.text)])
    && summary.replacementBytes < shadowBytes
    && receipt in index
    && index[receipt].payload == CompactionSummarized(summary)
    && AllKnown(c.sources, index)
  }

  /** What `replaceCommitted` does once the span is judged: one summary group, or no change. */
  function ReplaceJudged(
    groups: seq<SurfaceGroup>, v: Verdict, c: CompactionStart, summary: CompactionSummary, receipt: Source,
    index: Index): Option<seq<SurfaceGroup>>
    requires v.Legal? ==> v.first < v.first + v.length <= |groups|
  {
    if v.Refused? || !SummaryCompletes(c, summary, receipt, v.shadowBytes, index) then None
    else Some(groups[..v.first] + [SummaryGroup(summary, receipt, groups[v.first].turn)]
              + groups[v.first + v.length..])
  }

  /** `replaceCommitted`. */
  function ReplaceCommitted(
    groups: seq<SurfaceGroup>, c: CompactionStart, summary: CompactionSummary, receipt: Source, index: Index)
    : Option<seq<SurfaceGroup>>
  {
    LegalBounds(groups, c);
    ReplaceJudged(groups, ValidateSpan(groups, c), c, summary, receipt, index)
  }

  /** `before` became `after` as `r` says, or stayed as it was when `r` refuses. */
  ghost predicate Applied(r: Option<seq<SurfaceGroup>>, before: seq<SurfaceGroup>, ok: bool, after: seq<SurfaceGroup>) {
    ok == r.Some? && after == (if r.Some? then r.value else before)
  }

  class Surface {
    /** Index 0 is the heading node; positions are the list indexes. */
    var groups: seq<SurfaceGroup>

    constructor (text: string, source: Source)
      ensures groups == [HeadingGroup(text, source)]
    {
      groups := [HeadingGroup(text, source)];
    }

    method Append(g: SurfaceGroup, index: Index) returns (ok: bool)
      modifies this
      ensures Applied(AppendGroup(old(groups), g, index), old(groups), ok, groups)
    {
      if g.kind == Heading { return false; }
      for i := 0 to |groups|
        invariant forall j :: 0 <= j < i ==> groups[j].id != g.id
        invariant groups == old(groups)
      {
        if groups[i].id == g.id { return false; }
      }
      if g.sources == [] || g.id !in index { return false; }
      if !ReceiptMatches(g.kind, index[g.id].payload) { return false; }
      if g.id !in g.sources { return false; }
      for i := 0 to |g.sources|
        invariant forall j :: 0 <= j < i ==> g.sources[j] in index
        invariant groups == old(groups)
      {
        if g.sources[i] !in index { return false; }
      }
      groups := groups + [g];
      ok := true;
    }

    method ReplaceHeading(text: string, source: Source, index: Index) returns (ok: bool)
      modifies this
      ensures Applied(RewriteHeading(old(groups), text, source, index), old(groups), ok, groups)
    {
      if source !in index || !index[source].payload.SystemMessage? { return false; }
      groups := if groups == [] then [HeadingGroup(text, source)] else groups[0 := HeadingGroup(text, source)];
      ok := true;
    }

    /** Verifies the whole transaction before the one mutation. */
    method Replace(c: CompactionStart, summary: CompactionSummary, receipt: Source, index: Index)
      returns (ok: bool)
      modifies this
      ensures Applied(ReplaceCommitted(old(groups), c, summary, receipt, index), old(groups), ok, groups)
    {
      var verdict := ValidateCompactionSpan(groups, c);
      if verdict.Refused? { return false; }
      if summary.id != c.id || !SameSourceSet(summary.sources, c.sources) { return false; }
      if summary.replacementBytes != WireBytes([User(summary.text)]) { return false; }
      if summary.replacementBytes >= verdict.shadowBytes { return false; }
      if receipt !in index || !index[receipt].payload.CompactionSummarized? { return false; }
      var durable := index[receipt].payload.summary;
      if durable != summary || !AllKnown(c.sources, index) { return false; }
      LegalBounds(groups, c);
      var merged := SortUniqueReceipts([receipt] + durable.sources);
      var group := SurfaceGroup(receipt, Summary, groups[verdict.first].turn, [User(durable.text)], merged);
      groups := groups[..verdict.first] + [group] + groups[verdict.first + verdict.length..];
      ok := true;
    }
  }

  // --- the surface invariant -------------------------------------------------------

  /** A receipt of a call that the assistant message advertised, or of the result of one. */
  ghost predicate Belongs(q: Payload, p: Payload)
    requires p.AssistantMessage?
  {
    || (q.ToolCalled? && q.request == p.request && q.call in p.toolCalls)
    || (q.ToolResult? && q.request == p.request && exists i :: 0 <= i < |p.toolCalls| && p.toolCalls[i].id == q.callId)
  }

  /** Not two receipts of one call, nor two of one result. */
  ghost predicate Apart(q: Payload, r: Payload) {
    && !(q.ToolCalled? && r.ToolCalled? && q.call.id == r.call.id)
    && !(q.ToolResult? && r.ToolResult? && q.callId == r.callId)
  }

  /** Some cited receipt is of the call's result, and recorded that message. */
  ghost predicate ResultAttested(sources: seq<Source>, index: Index, call: FunctionCall, message: ChatMessage) {
    exists s :: s in sources && s in index && index[s].payload.ToolResult?
                && index[s].payload.callId == call.id && index[s].payload.message == message
  }

  /**
   A dialogue says what its receipts recorded: the assistant message, then the result of each
   call in call order. It cites that message, receipts of its calls and results, and nothing
   else; no call or result twice; and a result that is not synthetic only with its call.
   */
  ghost predicate DialogueAttested(g: SurfaceGroup, index: Index)
    requires g.id in index && AllKnown(g.sources, index)
  {
    var p := index[g.id].payload;
    && p.AssistantMessage? && g.turn == p.request.turn
    && |g.messages| == 1 + |p.toolCalls| && g.messages[0] == Assistant(p.text, p.toolCalls)
    && (forall i :: 0 <= i < |p.toolCalls| ==> ResultAttested(g.sources, index, p.toolCalls[i], g.messages[i + 1]))
    && (forall s :: s in g.sources && s != g.id ==> Belongs(index[s].payload, p))
    && (forall s, t :: s in g.sources && t in g.sources && s != t ==> Apart(index[s].payload, index[t].payload))
    && (forall s :: s in g.sources && index[s].payload.ToolResult? && !index[s].payload.synthetic ==>
          exists t :: t in g.sources && index[t].payload.ToolCalled? && index[t].payload.call.id == index[s].payload.callId)
  }

  /** A group says exactly what its receipt's payload recorded, and cites what that names. */
  ghost predicate Attested(g: SurfaceGroup, index: Index)
    requires g.id in index && AllKnown(g.sources, index)
  {
    var p := index[g.id].payload;
    match g.kind
    case Heading => p.SystemMessage? && g.messages == [System(p.config.heading)] && g.sources == [g.id]
    case Perception =>
      && p.WorldPerception? && p.value.text != "" && g.turn == p.turn
      && g.messages == [User(p.value.text)] && g.sources == [g.id]
    case Package => p.PackageFact? && g.messages == [User(p.line)] && g.sources == [g.id]
    case Refusal => p.CommitRefused? && g.messages == [System(p.line)] && g.sources == [g.id]
    case Summary =>
      && p.CompactionSummarized? && g.messages == [User(p.summary.text)]
      && g.sources == SortUnique([g.id] + p.summary.sources)
    case Dialogue => DialogueAttested(g, index)
  }

  /**
   A group's receipts: sorted, without repeats, its own among them, all observed and of its
   kind; its messages are what they recorded.
   */
  ghost predicate GroupOk(g: SurfaceGroup, index: Index) {
    && Ordered(g.sources) && g.id in g.sources && AllKnown(g.sources, index)
    && g.id in index && ReceiptMatches(g.kind, index[g.id].payload)
    && Attested(g, index)
  }

  lemma AttestedExtends(g: SurfaceGroup, smaller: Index, larger: Index)
    requires g.id in smaller && AllKnown(g.sources, smaller) && Extends(larger, smaller) && Attested(g, smaller)
    ensures AllKnown(g.sources, larger) && Attested(g, larger)
  {
    if g.kind == Dialogue {
      var p := smaller[g.id].payload;
      forall i | 0 <= i < |p.toolCalls| ensures ResultAttested(g.sources, larger, p.toolCalls[i], g.messages[i + 1]) {
        assert ResultAttested(g.sources, smaller, p.toolCalls[i], g.messages[i + 1]);
      }
      forall s | s in g.sources && larger[s].payload.ToolResult? && !larger[s].payload.synthetic
        ensures exists t :: t in g.sources && larger[t].payload.ToolCalled?
                            && larger[t].payload.call.id == larger[s].payload.callId
      {
        assert smaller[s].payload.ToolResult?;
        var t :| t in g.sources && smaller[t].payload.ToolCalled?
                 && smaller[t].payload.call.id == smaller[s].payload.callId;
        assert larger[t].payload.ToolCalled?;
      }
    }
  }

  /** The heading of a recorded configuration. */
  lemma HeadingAttested(text: string, source: Source, index: Index)
    requires source in index && index[source].payload.SystemMessage? && index[source].payload.config.heading == text
    ensures GroupOk(HeadingGroup(text, source), index)
  {
  }

  /** One heading, at position 0; distinct ids; every other group balanced; every receipt resolved. */
  ghost predicate SurfaceOk(groups: seq<SurfaceGroup>, index: Index) {
    && groups != [] && groups[0].kind == Heading
    && DistinctIds(groups)
    && (forall i :: 0 <= i < |groups| ==> GroupOk(groups[i], index))
    && (forall i :: 1 <= i < |groups| ==> IsBalanced(groups[i]))
  }

  lemma SurfaceOkExtends(groups: seq<SurfaceGroup>, smaller: Index, larger: Index)
    requires SurfaceOk(groups, smaller) && Extends(larger, smaller)
    ensures SurfaceOk(groups, larger)
  {
    hide Attested, IsBalanced;
    forall i | 0 <= i < |groups| ensures GroupOk(groups[i], larger) {
      assert GroupOk(groups[i], smaller);
      AttestedExtends(groups[i], smaller, larger);
    }
  }

  lemma AppendKeepsSurface(groups: seq<SurfaceGroup>, g: SurfaceGroup, index: Index)
    requires SurfaceOk(groups, index)
    requires AppendGroup(groups, g, index).Some?
    requires Ordered(g.sources) && IsBalanced(g) && AllKnown(g.sources, index) && Attested(g, index)
    ensures SurfaceOk(AppendGroup(groups, g, index).value, index)
  {
    hide Attested;
    assert GroupOk(g, index);
  }

  /** A group that says what its receipts recorded is appended exactly when the longer list is well formed. */
  lemma AppendIff(groups: seq<SurfaceGroup>, g: SurfaceGroup, index: Index)
    requires SurfaceOk(groups, index)
    requires Ordered(g.sources) && (g.kind != Heading ==> IsBalanced(g))
    requires g.id in index && AllKnown(g.sources, index) ==> Attested(g, index)
    ensures AppendGroup(groups, g, index).Some? <==> SurfaceOk(groups + [g], index)
    ensures AppendGroup(groups, g, index).Some? ==> AppendGroup(groups, g, index).value == groups + [g]
  {
    hide Attested;
    var longer, n := groups + [g], |groups|;
    if AppendGroup(groups, g, index).Some? {
      AppendKeepsSurface(groups, g, index);
    } else if SurfaceOk(longer, index) {
      assert longer[n] == g && GroupOk(longer[n], index) && IsBalanced(longer[n]);
      forall i | 0 <= i < n ensures groups[i].id != g.id {
        assert longer[i] == groups[i] && longer[i].id != longer[n].id;
      }
    }
  }

  lemma RewriteKeepsSurface(groups: seq<SurfaceGroup>, text: string, source: Source, index: Index)
    requires SurfaceOk(groups, index)
    requires RewriteHeading(groups, text, source, index).Some?
    requires index[source].payload.config.heading == text
    ensures SurfaceOk(RewriteHeading(groups, text, source, index).value, index)
  {
    hide Attested;
    var after := RewriteHeading(groups, text, source, index).value;
    forall i | 1 <= i < |after| ensures after[i].id != source {
      assert GroupOk(groups[i], index) && IsBalanced(groups[i]);
    }
    HeadingAttested(text, source, index);
    assert after[0] == HeadingGroup(text, source);
  }

  lemma ReplaceJudgedKeepsSurface(
    groups: seq<SurfaceGroup>, v: Verdict, c: CompactionStart, summary: CompactionSummary, receipt: Source,
    index: Index)
    requires SurfaceOk(groups, index) && receipt !in Ids(groups)
    requires v.Legal? && 1 <= v.first < v.first + v.length <= |groups|
    requires ReplaceJudged(groups, v, c, summary, receipt, index).Some?
    ensures SurfaceOk(ReplaceJudged(groups, v, c, summary, receipt, index).value, index)
  {
    SummaryGroupOk(c, summary, receipt, groups[v.first].turn, v.shadowBytes, index);
    SpliceKeepsSurface(groups, v.first, v.first + v.length,
                       SummaryGroup(summary, receipt, groups[v.first].turn), index);
  }

  lemma ReplaceKeepsSurface(
    groups: seq<SurfaceGroup>, c: CompactionStart, summary: CompactionSummary, receipt: Source, index: Index)
    requires SurfaceOk(groups, index) && receipt !in Ids(groups)
    requires ReplaceCommitted(groups, c, summary, receipt, index).Some?
    ensures SurfaceOk(ReplaceCommitted(groups, c, summary, receipt, index).value, index)
  {
    LegalBounds(groups, c);
    ReplaceJudgedKeepsSurface(groups, ValidateSpan(groups, c), c, summary, receipt, index);
  }

  lemma SummaryGroupOk(
    c: CompactionStart, summary: CompactionSummary, receipt: Source, turn: nat, shadowBytes: nat, index: Index)
    requires SummaryCompletes(c, summary, receipt, shadowBytes, index)
    ensures GroupOk(SummaryGroup(summary, receipt, turn), index)
    ensures IsBalanced(SummaryGroup(summary, receipt, turn))
  {
    SameSourceSetIsSetEquality(summary.sources, c.sources);
    var merged := SortUnique([receipt] + summary.sources);
    assert receipt in [receipt] + summary.sources;
    forall i | 0 <= i < |merged| ensures merged[i] in index {
      assert merged[i] in [receipt] + summary.sources;
      assert merged[i] == receipt || merged[i] in c.sources;
    }
  }

  lemma SpliceKeepsSurface(groups: seq<SurfaceGroup>, from: nat, to: nat, g: SurfaceGroup, index: Index)
    requires SurfaceOk(groups, index) && 1 <= from <= to <= |groups|
    requires GroupOk(g, index) && IsBalanced(g) && g.id !in Ids(groups)
    ensures SurfaceOk(groups[..from] + [g] + groups[to..], index)
  {
    hide GroupOk, IsBalanced, DistinctIds;
    var after := groups[..from] + [g] + groups[to..];
    SpliceIsDistinct(groups, from, to, g);
    forall i | 0 <= i < |after| ensures GroupOk(after[i], index) && (i >= 1 ==> IsBalanced(after[i])) {
      if i != from {
        assert after[i] == groups[if i < from then i else i - from - 1 + to];
      }
    }
  }

  lemma SpliceIsDistinct(groups: seq<SurfaceGroup>, from: nat, to: nat, g: SurfaceGroup)
    requires DistinctIds(groups) && from <= to <= |groups| && g.id !in Ids(groups)
    ensures DistinctIds(groups[..from] + [g] + groups[to..])
  {
    var after := groups[..from] + [g] + groups[to..];
    forall i | 0 <= i < |groups| ensures groups[i].id != g.id {
      assert Ids(groups)[i] == groups[i].id;
    }
    forall i | 0 <= i < |after| && i != from ensures after[i] == groups[if i < from then i else i - from - 1 + to] {
    }
  }
}
