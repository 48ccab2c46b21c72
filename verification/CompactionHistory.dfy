/**
 Which compaction events the fold accepts, from the events before them: starts that are
 still open, the one summary each may be offered, and the end that applies it.
 */
module CompactionHistory {
  import opened Wrappers
  import opened Contracts
  import opened Events
  import opened Groups
  import opened Surfaces
  import opened Compaction
  import opened FoldSteps
  import opened FoldInvariant
  import opened Conservation
  import opened Handlers
  import opened FoldRuns
  import opened FoldHistory
  import opened FoldAcceptance

  // --- reading the history -----------------------------------------------------------------

  /** The starts of a list that are not of this candidate. */
  ghost function Others(pending: seq<CompactionStart>, id: Digest): seq<CompactionStart> {
    if pending == [] then []
    else (if pending[0].id == id then [] else [pending[0]]) + Others(pending[1..], id)
  }

  /** The starts that have neither ended nor been aborted, oldest first. */
  ghost function StillPending(events: seq<Event>): seq<CompactionStart> {
    if events == [] then [] else PendingAfter(StillPending(events[..|events| - 1]), events[|events| - 1].payload)
  }

  ghost function PendingAfter(before: seq<CompactionStart>, p: Payload): seq<CompactionStart> {
    if p.CompactionStarted? then before + [p.start]
    else if p.CompactionEnded? || p.CompactionAborted? then Others(before, p.id)
    else before
  }

  /** The summary offered for a candidate since it was last started, ended or aborted. */
  ghost function OfferFor(events: seq<Event>, id: Digest): Option<Event> {
    if events == [] then None else OfferAfter(OfferFor(events[..|events| - 1], id), events[|events| - 1], id)
  }

  ghost function OfferAfter(before: Option<Event>, e: Event, id: Digest): Option<Event> {
    var p := e.payload;
    if p.CompactionSummarized? && p.summary.id == id then Some(e)
    else if p.CompactionStarted? && p.start.id == id then None
    else if (p.CompactionEnded? || p.CompactionAborted?) && p.id == id then None
    else before
  }

  ghost predicate Pending(events: seq<Event>, id: Digest) {
    exists i :: 0 <= i < |StillPending(events)| && StillPending(events)[i].id == id
  }

  ghost predicate IsReceipt(x: Source, events: seq<Event>) {
    exists k :: 0 <= k < |events| && events[k].source == x
  }

  /** Every receipt of the list is one of these events'. */
  ghost predicate Observed(sources: seq<Source>, events: seq<Event>) {
    forall i :: 0 <= i < |sources| ==> IsReceipt(sources[i], events)
  }

  // --- the state tells the history -------------------------------------------------------------

  ghost predicate OfferTraced(summaries: map<Digest, FoldSteps.Offered>, id: Digest, offer: Option<Event>) {
    && (id in summaries <==> offer.Some?)
    && (offer.Some? ==>
          offer.value.payload.CompactionSummarized?
          && summaries[id] == FoldSteps.Offered(offer.value.payload.summary, offer.value.source))
  }

  ghost predicate CompactionTraced(s: FoldState, events: seq<Event>) {
    s.pending == StillPending(events) && forall id :: OfferTraced(s.summaries, id, OfferFor(events, id))
  }

  lemma OneMorePending(events: seq<Event>, e: Event)
    ensures StillPending(events + [e]) == PendingAfter(StillPending(events), e.payload)
  {
    assert (events + [e])[..|events|] == events;
  }

  lemma OneMoreOffer(events: seq<Event>, e: Event, id: Digest)
    ensures OfferFor(events + [e], id) == OfferAfter(OfferFor(events, id), e, id)
  {
    assert (events + [e])[..|events|] == events;
  }

  lemma {:induction false} OthersUnlisted(pending: seq<CompactionStart>, id: Digest)
    requires forall i :: 0 <= i < |pending| ==> pending[i].id != id
    ensures Others(pending, id) == pending
  {
    if pending != [] {
      OthersUnlisted(pending[1..], id);
    }
  }

  /** With distinct candidates, leaving one out is leaving out its one place. */
  lemma {:induction false} OthersIs(pending: seq<CompactionStart>, id: Digest)
    requires forall i, j :: 0 <= i < j < |pending| ==> pending[i].id != pending[j].id
    requires FindPending(pending, id) < |pending|
    ensures Others(pending, id) == Without(pending, FindPending(pending, id))
  {
    if pending[0].id == id {
      OthersUnlisted(pending[1..], id);
      assert pending[..0] + pending[1..] == pending[1..];
    } else {
      OthersIs(pending[1..], id);
      var at := FindPending(pending[1..], id);
      assert [pending[0]] + (pending[1..][..at] + pending[1..][at + 1..]) == pending[..at + 1] + pending[at + 2..];
    }
  }

  lemma FindPendingIff(pending: seq<CompactionStart>, id: Digest)
    ensures FindPending(pending, id) < |pending| <==> exists i :: 0 <= i < |pending| && pending[i].id == id
  {
    var at := FindPending(pending, id);
    assert at < |pending| ==> pending[at].id == id;
  }

  lemma NotOffered(s: FoldState, id: Digest)
    requires Parts(s) && FindPending(s.pending, id) == |s.pending|
    ensures id !in s.summaries
  {
    hide CommittedOk, OpenOk, RecoveryOk, PendingOk, FindPending;
  }

  lemma DistinctPending(s: FoldState)
    requires Parts(s)
    ensures forall i, j :: 0 <= i < j < |s.pending| ==> s.pending[i].id != s.pending[j].id
  {
    hide CommittedOk, OpenOk, RecoveryOk, SummariesOk;
  }

  lemma StartTraced(s: FoldState, events: seq<Event>, e: Event, start: CompactionStart)
    requires Parts(s) && CompactionTraced(s, events) && e.payload == CompactionStarted(start)
    requires OnCompactionStart(s, start).Some?
    ensures CompactionTraced(OnCompactionStart(s, start).value, events + [e])
  {
    hide Parts, FindPending, AllKnown, StillPending, OfferFor;
    OneMorePending(events, e);
    NotOffered(s, start.id);
    forall id ensures OfferTraced(s.summaries, id, OfferFor(events + [e], id)) {
      OneMoreOffer(events, e, id);
      assert OfferTraced(s.summaries, id, OfferFor(events, id));
    }
  }

  lemma SummaryTraced(s: FoldState, events: seq<Event>, e: Event, summary: CompactionSummary)
    requires CompactionTraced(s, events) && e.payload == CompactionSummarized(summary)
    requires OnCompactionSummary(s, e, summary).Some?
    ensures CompactionTraced(OnCompactionSummary(s, e, summary).value, events + [e])
  {
    hide FindPending, AllKnown, StillPending, OfferFor;
    OneMorePending(events, e);
    var t := OnCompactionSummary(s, e, summary).value;
    forall id ensures OfferTraced(t.summaries, id, OfferFor(events + [e], id)) {
      OneMoreOffer(events, e, id);
      assert OfferTraced(s.summaries, id, OfferFor(events, id));
    }
  }

  /** An end or an abort takes its candidate and its offer away. */
  lemma RemovalTraced(s: FoldState, events: seq<Event>, e: Event, id: Digest, t: FoldState)
    requires Parts(s) && CompactionTraced(s, events) && FindPending(s.pending, id) < |s.pending|
    requires (e.payload.CompactionEnded? && e.payload.id == id) || (e.payload.CompactionAborted? && e.payload.id == id)
    requires t.pending == Without(s.pending, FindPending(s.pending, id)) && t.summaries == s.summaries - {id}
    ensures CompactionTraced(t, events + [e])
  {
    hide Parts, FindPending, StillPending, OfferFor, Without, Others;
    OneMorePending(events, e);
    DistinctPending(s);
    OthersIs(s.pending, id);
    forall other ensures OfferTraced(t.summaries, other, OfferFor(events + [e], other)) {
      OneMoreOffer(events, e, other);
      assert OfferTraced(s.summaries, other, OfferFor(events, other));
    }
  }

  lemma OtherTraced(s: FoldState, events: seq<Event>, e: Event)
    requires CompactionTraced(s, events)
    requires !e.payload.CompactionStarted? && !e.payload.CompactionSummarized? && !e.payload.CompactionEnded?
             && !e.payload.CompactionAborted?
    ensures CompactionTraced(s, events + [e])
  {
    hide StillPending, OfferFor, OfferTraced;
    OneMorePending(events, e);
    forall id ensures OfferTraced(s.summaries, id, OfferFor(events + [e], id)) {
      OneMoreOffer(events, e, id);
      assert OfferTraced(s.summaries, id, OfferFor(events, id));
    }
  }

  lemma OtherFrames(s: FoldState, e: Event)
    requires Process(s, e).Some?
    requires !e.payload.CompactionStarted? && !e.payload.CompactionSummarized? && !e.payload.CompactionEnded?
             && !e.payload.CompactionAborted?
    ensures Process(s, e).value.pending == s.pending && Process(s, e).value.summaries == s.summaries
  {
    hide RewriteHeading, BufferOf, PutBuffer, AddResult, IsComplete, AppendGroup, DialogueGroup, Sift, CommitTurn,
      FindRecovery, HasCall, DistinctCalls, OnCompactionStart, OnCompactionSummary, OnCompactionEnd, OnCompactionAbort,
      FactGroup, PerceptionGroup, HeadingGroup;
  }

  lemma ProcessCompaction(s: FoldState, events: seq<Event>, e: Event)
    requires Parts(s) && CompactionTraced(s, events) && Process(s, e).Some?
    ensures CompactionTraced(Process(s, e).value, events + [e])
  {
    hide Parts, CompactionTraced, FindPending, ReplaceCommitted, OnCompactionStart, OnCompactionSummary, OnTurnEnd, OnConfig,
      OnFact, OnToolResult, OnToolCall, OnAssistant, OnRefused, OnPerception, OnTurnStart;
    match e.payload
    case CompactionStarted(start) => StartTraced(s, events, e, start);
    case CompactionSummarized(summary) => SummaryTraced(s, events, e, summary);
    case CompactionEnded(id, receipt) => RemovalTraced(s, events, e, id, Process(s, e).value);
    case CompactionAborted(id) => RemovalTraced(s, events, e, id, Process(s, e).value);
    case Malformed =>
    case _ =>
      OtherFrames(s, e);
      OtherTraced(s, events, e);
      SameCompaction(s, Process(s, e).value, events + [e]);
  }

  lemma SameCompaction(s: FoldState, t: FoldState, events: seq<Event>)
    requires CompactionTraced(s, events) && t.pending == s.pending && t.summaries == s.summaries
    ensures CompactionTraced(t, events)
  {
    hide OfferTraced, OfferFor, StillPending;
  }

  lemma {:induction false} RunCompactions(events: seq<Event>)
    requires Play(events).Some?
    ensures CompactionTraced(Folded(events), events)
  {
    hide Process, RemovedBy, DroppedBy, CompactionTraced, Ready, Traced;
    if events == [] {
      assert CompactionTraced(INITIAL, []) by { NothingPending(); }
    } else {
      var shorter, e := events[..|events| - 1], events[|events| - 1];
      RunCompactions(shorter);
      assert shorter + [e] == events;
      LastIsOffered(events);
      var s := Offering(shorter, e);
      SameCompaction(Folded(shorter), s, shorter);
      ReadyIndex(s, e);
      ProcessCompaction(s, shorter, e);
      SameCompaction(Process(s, e).value, Folded(events), events);
    }
  }

  lemma LastIsOffered(events: seq<Event>)
    requires Play(events).Some? && events != []
    ensures FoldAcceptance.Offered(events[..|events| - 1], events[|events| - 1])
  {
    hide Process, RemovedBy, DroppedBy;
    RunKeeps(events[..|events| - 1]);
  }

  lemma NothingPending()
    ensures CompactionTraced(INITIAL, [])
  {
  }

  // --- what is accepted ---------------------------------------------------------------------------

  lemma KnownIsObserved(sources: seq<Source>, events: seq<Event>, index: Index)
    requires IndexOk(events, index)
    ensures AllKnown(sources, index) <==> Observed(sources, events)
  {
    forall i | 0 <= i < |sources|
      ensures sources[i] in index <==> IsReceipt(sources[i], events)
    {
      if sources[i] in index {
        assert events[sources[i].position].source == sources[i];
      }
    }
  }

  /** A start is accepted if and only if there is a surface, its candidate is not pending, and it cites what was observed. */
  lemma StartIff(events: seq<Event>, e: Event)
    requires FoldAcceptance.Offered(events, e) && e.payload.CompactionStarted?
    ensures var c := e.payload.start;
            Taken(events, e) <==>
              && LastConfig(events).Some? && !Pending(events, c.id)
              && Observed(c.groupIds, events + [e]) && Observed(c.sources, events + [e])
  {
    hide Play, TurnTraced, IndexOk, Ready, FindPending, AllKnown, Observed, OfferTraced, StillPending;
    var s := Offering(events, e);
    RunCompactions(events);
    FindPendingIff(s.pending, e.payload.start.id);
    KnownIsObserved(e.payload.start.groupIds, events + [e], s.index);
    KnownIsObserved(e.payload.start.sources, events + [e], s.index);
  }

  /** A summary is accepted if and only if its candidate is pending, has none yet, and it cites what was observed. */
  lemma SummaryIff(events: seq<Event>, e: Event)
    requires FoldAcceptance.Offered(events, e) && e.payload.CompactionSummarized?
    ensures var m := e.payload.summary;
            Taken(events, e) <==>
              Pending(events, m.id) && OfferFor(events, m.id).None? && Observed(m.sources, events + [e])
  {
    hide Play, TurnTraced, ConfigTraced, IndexOk, Ready, FindPending, AllKnown, Observed, StillPending, OfferFor;
    var s := Offering(events, e);
    RunCompactions(events);
    FindPendingIff(s.pending, e.payload.summary.id);
    assert OfferTraced(s.summaries, e.payload.summary.id, OfferFor(events, e.payload.summary.id));
    KnownIsObserved(e.payload.summary.sources, events + [e], s.index);
  }

  /** An abort is accepted if and only if its candidate is pending, whatever became of its summary. */
  lemma AbortIff(events: seq<Event>, e: Event)
    requires FoldAcceptance.Offered(events, e) && e.payload.CompactionAborted?
    ensures Taken(events, e) <==> Pending(events, e.payload.id)
  {
    hide Play, TurnTraced, ConfigTraced, IndexOk, Ready, FindPending, StillPending, OfferTraced, OfferFor;
    var s := Offering(events, e);
    RunCompactions(events);
    FindPendingIff(s.pending, e.payload.id);
  }

  /** The summary stands for the candidate's span: the same receipts, its own true size, and smaller. */
  ghost predicate StandsFor(m: CompactionSummary, c: CompactionStart) {
    && SameElements(m.sources, c.sources)
    && m.replacementBytes == WireBytes([User(m.text)]) && m.replacementBytes < c.shadowBytes
  }

  /** The surface with the span of `c` at `first` replaced by the summary's one group. */
  ghost function Replaced(
    groups: seq<SurfaceGroup>, c: CompactionStart, first: nat, m: CompactionSummary, receipt: Source): seq<SurfaceGroup>
    requires 1 <= first && first + |c.groupIds| <= |groups| && c.groupIds != []
  {
    groups[..first]
    + [SurfaceGroup(receipt, Summary, groups[first].turn, [User(m.text)], SortUnique([receipt] + m.sources))]
    + groups[first + |c.groupIds|..]
  }

  lemma CompletesMeans(c: CompactionStart, m: CompactionSummary, receipt: Source, index: Index)
    requires m.id == c.id && receipt in index && index[receipt].payload == CompactionSummarized(m)
    requires AllKnown(c.sources, index)
    ensures SummaryCompletes(c, m, receipt, c.shadowBytes, index) <==> StandsFor(m, c)
  {
    hide WireBytes;
    SameSourceSetIsSetEquality(m.sources, c.sources);
  }

  /** On distinct ids a pending candidate with its recorded summary is applied exactly where it is legal. */
  lemma ReplacedIff(groups: seq<SurfaceGroup>, c: CompactionStart, m: CompactionSummary, receipt: Source, index: Index)
    requires DistinctIds(groups) && m.id == c.id && receipt in index && index[receipt].payload == CompactionSummarized(m)
    requires AllKnown(c.sources, index)
    ensures ReplaceCommitted(groups, c, m, receipt, index).Some?
       <==> StandsFor(m, c) && exists first: nat :: LegalAt(groups, c, first)
    ensures forall first: nat :: StandsFor(m, c) && LegalAt(groups, c, first) ==>
              c.groupIds != [] && ReplaceCommitted(groups, c, m, receipt, index) == Some(Replaced(groups, c, first, m, receipt))
  {
    hide StandsFor, SummaryCompletes, ValidateSpan, SpanMatches, Names, DistinctIds, WireBytes, SortUnique;
    CompletesMeans(c, m, receipt, index);
    ValidSpanIff(groups, c);
    LegalBounds(groups, c);
    if ValidateSpan(groups, c).Legal? {
      LegalVerdictIsLegal(groups, c);
    }
    forall first: nat | LegalAt(groups, c, first)
      ensures ValidateSpan(groups, c) == Legal(first, |c.groupIds|, c.shadowBytes) && c.groupIds != []
    {
      LegalIsAccepted(groups, c, first);
    }
  }

  /**
   An end is accepted if and only if its candidate is pending with the very summary it names,
   that stands for the candidate, and the candidate is legal somewhere on the surface; the
   span there is then replaced by one group that says the summary, and nothing else changes.
   */
  lemma EndIff(events: seq<Event>, e: Event, c: CompactionStart, offer: Event)
    requires FoldAcceptance.Offered(events, e) && e.payload.CompactionEnded?
    requires c in StillPending(events) && c.id == e.payload.id
    requires OfferFor(events, c.id) == Some(offer) && offer.payload.CompactionSummarized?
    ensures Folded(events).surface.Some?
    ensures var groups, m := Folded(events).surface.value, offer.payload.summary;
            && (Taken(events, e) <==>
                  offer.source == e.payload.receipt && StandsFor(m, c) && exists first: nat :: LegalAt(groups, c, first))
            && (Taken(events, e) ==> forall first: nat :: LegalAt(groups, c, first) ==>
                  c.groupIds != [] && Folded(events + [e]).surface == Some(Replaced(groups, c, first, m, offer.source)))
  {
    hide Play, Traced, IndexOk, Ready, FindPending, StillPending, OfferFor, LegalAt, StandsFor, Replaced, ReplaceCommitted,
      Parts, Others, Without, DistinctIds;
    var s := Offering(events, e);
    ReadyIndex(s, e);
    RunCompactions(events);
    assert OfferTraced(s.summaries, c.id, OfferFor(events, c.id));
    FoundPending(s, c);
    OfferIsRecorded(s, c);
    SurfaceDistinct(s);
    ReplacedIff(s.surface.value, c, offer.payload.summary, offer.source, s.index);
  }

  lemma FoundPending(s: FoldState, c: CompactionStart)
    requires Parts(s) && c in s.pending
    ensures FindPending(s.pending, c.id) < |s.pending| && s.pending[FindPending(s.pending, c.id)] == c
    ensures s.surface.Some? && AllKnown(c.sources, s.index)
  {
    hide CommittedOk, OpenOk, RecoveryOk, SummariesOk, AllKnown;
    var i :| 0 <= i < |s.pending| && s.pending[i] == c;
    FindPendingIff(s.pending, c.id);
  }

  lemma OfferIsRecorded(s: FoldState, c: CompactionStart)
    requires Parts(s) && c.id in s.summaries
    ensures var offered := s.summaries[c.id];
            && offered.source in s.index && s.index[offered.source].payload == CompactionSummarized(offered.summary)
            && offered.summary.id == c.id
  {
    hide CommittedOk, OpenOk, RecoveryOk, PendingOk, FindPending;
  }

  lemma SurfaceDistinct(s: FoldState)
    requires Parts(s) && s.surface.Some?
    ensures DistinctIds(s.surface.value)
  {
    hide OpenOk, RecoveryOk, PendingOk, SummariesOk, GroupOk, IsBalanced;
  }

  /** Without a pending candidate, or without its summary, no end is accepted. */
  lemma EndNeedsBoth(events: seq<Event>, e: Event)
    requires FoldAcceptance.Offered(events, e) && e.payload.CompactionEnded? && Taken(events, e)
    ensures Pending(events, e.payload.id)
    ensures OfferFor(events, e.payload.id).Some? && OfferFor(events, e.payload.id).value.payload.CompactionSummarized?
    ensures !Pending(events + [e], e.payload.id) && OfferFor(events + [e], e.payload.id).None?
  {
    hide Play, Traced, IndexOk, Ready, FindPending, OfferFor, ReplaceCommitted, Parts;
    var s := Offering(events, e);
    RunCompactions(events);
    FindPendingIff(s.pending, e.payload.id);
    assert OfferTraced(s.summaries, e.payload.id, OfferFor(events, e.payload.id));
    OneMorePending(events, e);
    OneMoreOffer(events, e, e.payload.id);
    NoneOfOthers(StillPending(events), e.payload.id);
  }

  lemma {:induction false} NoneOfOthers(pending: seq<CompactionStart>, id: Digest)
    ensures forall i :: 0 <= i < |Others(pending, id)| ==> Others(pending, id)[i].id != id
  {
    if pending != [] {
      NoneOfOthers(pending[1..], id);
    }
  }
}
