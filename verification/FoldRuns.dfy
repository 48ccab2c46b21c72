/**
 Whole runs of the fold: the compaction handlers, then the invariant and the
 conservation of dialogues over every sequence of events, and what redelivering
 parts of a chain can change.
 */
module FoldRuns {
  import opened Wrappers
  import opened Contracts
  import opened Events
  import opened Finite
  import opened Groups
  import opened Surfaces
  import opened FoldSteps
  import opened FoldInvariant
  import opened Conservation
  import opened Handlers
  import opened Closers

  // --- compaction handlers ----------------------------------------------------------

  lemma PendingGrows(pending: seq<CompactionStart>, start: CompactionStart, id: Digest)
    requires FindPending(pending, id) < |pending|
    ensures FindPending(pending + [start], id) < |pending| + 1
  {
    var at := FindPending(pending, id);
    assert (pending + [start])[at].id == id;
  }

  lemma PendingShrinks(pending: seq<CompactionStart>, at: nat, id: Digest)
    requires at < |pending| && pending[at].id != id && FindPending(pending, id) < |pending|
    ensures FindPending(Without(pending, at), id) < |pending| - 1
  {
    var i := FindPending(pending, id);
    var rest := Without(pending, at);
    if i < at {
      assert rest[i] == pending[i];
    } else {
      assert rest[i - 1] == pending[i];
    }
  }

  lemma StartKeeps(s: FoldState, e: Event, start: CompactionStart)
    requires Ready(s, e) && e.payload == CompactionStarted(start)
    requires OnCompactionStart(s, start).Some?
    ensures Kept(s, e, OnCompactionStart(s, start).value)
  {
    hide CommittedOk, OpenOk, RecoveryOk, RecoveryReceipts, InOpen, OnSurface, FindPending;
    forall id | id in s.summaries ensures FindPending(s.pending + [start], id) < |s.pending| + 1 {
      PendingGrows(s.pending, start, id);
    }
  }

  lemma OfferedOk(
    summaries: map<Digest, Offered>, pending: seq<CompactionStart>, index: Index, ids: seq<Source>, offered: Offered)
    requires SummariesOk(summaries, pending, index, ids) && FindPending(pending, offered.summary.id) < |pending|
    requires offered.source in index && offered.source !in ids
    requires index[offered.source].payload == CompactionSummarized(offered.summary)
    ensures SummariesOk(summaries[offered.summary.id := offered], pending, index, ids)
  {
    hide FindPending;
  }

  lemma SummaryKeeps(s: FoldState, e: Event, summary: CompactionSummary)
    requires Ready(s, e) && e.payload == CompactionSummarized(summary)
    requires OnCompactionSummary(s, e, summary).Some?
    ensures Kept(s, e, OnCompactionSummary(s, e, summary).value)
  {
    hide CommittedOk, OpenOk, RecoveryOk, RecoveryReceipts, InOpen, FindPending, PendingOk, SummariesOk, AllKnown;
    OfferedOk(s.summaries, s.pending, s.index, SurfaceIds(s.surface), Offered(summary, e.source));
  }

  lemma PendingWithout(s: FoldState, at: nat)
    requires Parts(s) && at < |s.pending|
    ensures PendingOk(Without(s.pending, at), s.index)
    ensures SummariesOk(s.summaries - {s.pending[at].id}, Without(s.pending, at), s.index, SurfaceIds(s.surface))
  {
    hide CommittedOk, OpenOk, RecoveryOk, FindPending, AllKnown;
    var id := s.pending[at].id;
    forall other | other in s.summaries && other != id
      ensures FindPending(Without(s.pending, at), other) < |s.pending| - 1
    {
      PendingShrinks(s.pending, at, other);
    }
  }

  lemma AbortKeeps(s: FoldState, e: Event, id: Digest)
    requires Ready(s, e) && e.payload == CompactionAborted(id)
    requires OnCompactionAbort(s, id).Some?
    ensures Kept(s, e, OnCompactionAbort(s, id).value)
  {
    hide CommittedOk, OpenOk, RecoveryOk, RecoveryReceipts, InOpen, OnSurface, PendingOk, SummariesOk;
    PendingWithout(s, FindPending(s.pending, id));
  }

  /** Removing a span moves exactly its dialogues off the surface. */
  lemma SpliceMoves(groups: seq<SurfaceGroup>, from: nat, to: nat, g: SurfaceGroup)
    requires from <= to <= |groups| && g.kind == Summary
    ensures DialogueReceipts(groups[..from] + [g] + groups[to..]) + DialogueReceipts(groups[from..to]) == DialogueReceipts(groups)
    ensures forall x :: x in Ids(groups[..from] + [g] + groups[to..]) ==> x in Ids(groups) || x == g.id
  {
    hide DialogueReceipts;
    assert groups == groups[..from] + groups[from..to] + groups[to..];
    DialogueReceiptsConcat(groups[..from] + groups[from..to], groups[to..]);
    DialogueReceiptsConcat(groups[..from], groups[from..to]);
    DialogueReceiptsConcat(groups[..from] + [g], groups[to..]);
    DialogueReceiptsConcat(groups[..from], [g]);
    OneDialogue(g);
    forall x | x in Ids(groups[..from] + [g] + groups[to..]) ensures x in Ids(groups) || x == g.id {
      SplicedId(groups, from, to, g, x);
    }
  }

  lemma SplicedId(groups: seq<SurfaceGroup>, from: nat, to: nat, g: SurfaceGroup, x: Source)
    requires from <= to <= |groups| && x in Ids(groups[..from] + [g] + groups[to..])
    ensures x in Ids(groups) || x == g.id
  {
    var after := groups[..from] + [g] + groups[to..];
    var i :| 0 <= i < |after| && Ids(after)[i] == x;
    if i < from {
      assert Ids(groups)[i] == x;
    } else if i > from {
      assert after[i] == groups[i - from - 1 + to];
      assert Ids(groups)[i - from - 1 + to] == x;
    }
  }

  /** What an accepted end does to the surface, in terms of the span it names. */
  lemma EndSplices(s: FoldState, id: Digest, receipt: Source)
    requires OnCompactionEnd(s, id, receipt).Some?
    ensures s.surface.Some? && FindPending(s.pending, id) < |s.pending|
    ensures var c := s.pending[FindPending(s.pending, id)];
            var groups, v := s.surface.value, ValidateSpan(s.surface.value, c);
            && v.Legal? && 1 <= v.first < v.first + v.length <= |groups|
            && var g := SummaryGroup(s.summaries[id].summary, receipt, groups[v.first].turn);
            && ReplaceCommitted(groups, c, s.summaries[id].summary, receipt, s.index)
               == Some(groups[..v.first] + [g] + groups[v.first + v.length..])
            && OnCompactionEnd(s, id, receipt)
               == Some(s.(surface := Some(groups[..v.first] + [g] + groups[v.first + v.length..]),
                          pending := Without(s.pending, FindPending(s.pending, id)),
                          summaries := s.summaries - {id}))
  {
    hide ValidateSpan, SummaryCompletes, SummaryGroup, FindPending;
    LegalBounds(s.surface.value, s.pending[FindPending(s.pending, id)]);
  }

  lemma SummaryGroupIs(summary: CompactionSummary, receipt: Source, turn: nat)
    ensures var g := SummaryGroup(summary, receipt, turn); g.kind == Summary && g.id == receipt
  {
    hide SortUnique;
  }

  /** The parts after an accepted end, given what the splice did to the ids. */
  lemma EndParts(s: FoldState, id: Digest, groups: seq<SurfaceGroup>, receipt: Source)
    requires Parts(s) && s.surface.Some? && FindPending(s.pending, id) < |s.pending|
    requires id in s.summaries && s.summaries[id].source == receipt
    requires SurfaceOk(groups, s.index)
    requires forall x :: x in Ids(groups) ==> x in Ids(s.surface.value) || x == receipt
    ensures Parts(s.(surface := Some(groups), pending := Without(s.pending, FindPending(s.pending, id)),
                     summaries := s.summaries - {id}))
  {
    hide SurfaceOk, RecoveryOk, DialoguesOk, PendingOk, FindPending, IsBalanced;
    PendingWithout(s, FindPending(s.pending, id));
  }

  lemma EndRemoves(s: FoldState, e: Event, id: Digest, receipt: Source)
    requires e.payload == CompactionEnded(id, receipt) && s.surface.Some? && FindPending(s.pending, id) < |s.pending|
    requires ValidateSpan(s.surface.value, s.pending[FindPending(s.pending, id)]).Legal?
    ensures var v := ValidateSpan(s.surface.value, s.pending[FindPending(s.pending, id)]);
            && 1 <= v.first < v.first + v.length <= |s.surface.value|
            && RemovedBy(s, e) == DialogueReceipts(s.surface.value[v.first..v.first + v.length])
  {
    hide ValidateSpan, FindPending, DialogueReceipts;
    LegalBounds(s.surface.value, s.pending[FindPending(s.pending, id)]);
  }

  lemma EndMoves(s: FoldState, t: FoldState, span: multiset<Source>)
    requires t.open == s.open && t.recovery == s.recovery
    requires OnSurface(t.surface) + span == OnSurface(s.surface)
    ensures Held(t) + span + multiset{} == Held(s) + multiset{}
  {
    hide OnSurface, InOpen, RecoveryReceipts;
  }

  /** The new surface of an accepted end: well-formed, with one new id, without the span's dialogues. */
  lemma EndSurface(s: FoldState, id: Digest, receipt: Source, groups: seq<SurfaceGroup>)
    requires Parts(s) && OnCompactionEnd(s, id, receipt).Some?
    requires OnCompactionEnd(s, id, receipt).value.surface == Some(groups)
    ensures s.surface.Some? && FindPending(s.pending, id) < |s.pending|
    ensures SurfaceOk(groups, s.index)
    ensures forall x :: x in Ids(groups) ==> x in Ids(s.surface.value) || x == receipt
    ensures var v := ValidateSpan(s.surface.value, s.pending[FindPending(s.pending, id)]);
            && v.Legal? && v.first + v.length <= |s.surface.value|
            && DialogueReceipts(groups) + DialogueReceipts(s.surface.value[v.first..v.first + v.length])
               == DialogueReceipts(s.surface.value)
  {
    hide ValidateSpan, SummaryGroup, FindPending, Parts, ReplaceCommitted, OnCompactionEnd, SurfaceOk, DialogueReceipts;
    EndSplices(s, id, receipt);
    EndReceipt(s, id, receipt);
    var before := s.surface.value;
    var c := s.pending[FindPending(s.pending, id)];
    var v := ValidateSpan(before, c);
    var turn := before[v.first].turn;
    SummaryGroupIs(s.summaries[id].summary, receipt, turn);
    SpliceMoves(before, v.first, v.first + v.length, SummaryGroup(s.summaries[id].summary, receipt, turn));
    ReplaceKeepsSurface(before, c, s.summaries[id].summary, receipt, s.index);
  }

  lemma EndShape(s: FoldState, id: Digest, receipt: Source)
    requires OnCompactionEnd(s, id, receipt).Some?
    ensures var t := OnCompactionEnd(s, id, receipt).value;
            && t.surface.Some? && id in s.summaries && s.summaries[id].source == receipt
            && FindPending(s.pending, id) < |s.pending|
            && t == s.(surface := t.surface, pending := Without(s.pending, FindPending(s.pending, id)),
                       summaries := s.summaries - {id})
  {
    hide ReplaceCommitted, FindPending;
  }

  lemma EndKeeps(s: FoldState, e: Event, id: Digest, receipt: Source)
    requires Ready(s, e) && e.payload == CompactionEnded(id, receipt)
    requires OnCompactionEnd(s, id, receipt).Some?
    ensures Kept(s, e, OnCompactionEnd(s, id, receipt).value)
  {
    hide ValidateSpan, FindPending, Parts, OnCompactionEnd, SurfaceOk, Once, Fresh, Held, RemovedBy, DroppedBy, AddedBy,
      DialogueReceipts, OnSurface;
    EndShape(s, id, receipt);
    var t := OnCompactionEnd(s, id, receipt).value;
    EndSurface(s, id, receipt, t.surface.value);
    EndParts(s, id, t.surface.value, receipt);
    EndBalance(s, e, id, receipt, t);
  }

  lemma EndBalance(s: FoldState, e: Event, id: Digest, receipt: Source, t: FoldState)
    requires e.payload == CompactionEnded(id, receipt) && s.surface.Some? && t.surface.Some?
    requires FindPending(s.pending, id) < |s.pending| && t.open == s.open && t.recovery == s.recovery
    requires var v := ValidateSpan(s.surface.value, s.pending[FindPending(s.pending, id)]);
             && v.Legal? && v.first + v.length <= |s.surface.value|
             && DialogueReceipts(t.surface.value) + DialogueReceipts(s.surface.value[v.first..v.first + v.length])
                == DialogueReceipts(s.surface.value)
    ensures Held(t) + RemovedBy(s, e) + DroppedBy(s, e) == Held(s) + AddedBy(e)
  {
    hide ValidateSpan, FindPending, Held, RemovedBy, DialogueReceipts;
    EndRemoves(s, e, id, receipt);
    EndMoves(s, t, RemovedBy(s, e));
  }

  lemma EndReceipt(s: FoldState, id: Digest, receipt: Source)
    requires Parts(s) && OnCompactionEnd(s, id, receipt).Some?
    ensures id in s.summaries && s.summaries[id].source == receipt
    ensures receipt !in Ids(s.surface.value) && SurfaceOk(s.surface.value, s.index)
  {
    hide SurfaceOk, OpenOk, RecoveryOk, PendingOk, ReplaceCommitted, FindPending;
  }

  // --- one step ------------------------------------------------------------------------

  lemma ConfigKeeps(s: FoldState, e: Event, version: nat, config: AgentConfig)
    requires Ready(s, e) && e.payload == SystemMessage(version, config)
    requires OnConfig(s, e, version, config).Some?
    ensures Kept(s, e, OnConfig(s, e, version, config).value)
  {
    hide Ready, Kept, OnConfig;
    if s.config.None? {
      FirstConfigKeeps(s, e, version, config);
    } else {
      RewriteConfigKeeps(s, e, version, config);
    }
  }

  lemma InertKeeps(s: FoldState, e: Event)
    requires Ready(s, e) && e.payload.Inert?
    ensures Kept(s, e, s)
  {
    hide Parts;
  }

  lemma ProcessKeeps(s: FoldState, e: Event)
    requires Ready(s, e) && Process(s, e).Some?
    ensures Kept(s, e, Process(s, e).value)
  {
    hide Ready, Kept, OnConfig, OnTurnStart, OnTurnEnd, OnPerception, OnRefused, OnAssistant, OnToolCall,
      OnToolResult, OnCompactionStart, OnCompactionSummary, OnCompactionEnd, OnCompactionAbort, OnFact;
    match e.payload
    case Inert => InertKeeps(s, e);
    case Malformed =>
    case SystemMessage(version, config) => ConfigKeeps(s, e, version, config);
    case TurnStart(turn, world) => TurnStartKeeps(s, e, turn, world);
    case TurnEnd(turn, outcome) => TurnEndKeeps(s, e, turn, outcome);
    case WorldPerception(turn, range, value) => PerceptionKeeps(s, e, turn, range, value);
    case RequestRefused(request) => RefusedKeeps(s, e, request);
    case AssistantMessage(request, text, calls) => AssistantKeeps(s, e, request, text, calls);
    case ToolCalled(turn, request, call) => ToolCallKeeps(s, e, turn, request, call);
    case ToolResult(_, _, _, _, _, _) => ToolResultKeeps(s, e);
    case CompactionStarted(start) => StartKeeps(s, e, start);
    case CompactionSummarized(summary) => SummaryKeeps(s, e, summary);
    case CompactionEnded(id, receipt) => EndKeeps(s, e, id, receipt);
    case CompactionAborted(id) => AbortKeeps(s, e, id);
    case PackageFact(line) => FactKeeps(s, e, Package, User(line));
    case CommitRefused(line) => FactKeeps(s, e, Refusal, System(line));
  }

  // --- every run -------------------------------------------------------------------------

  /** A fold state together with the receipts of dialogues that have left it. */
  datatype Ledger = Ledger(state: FoldState, removed: multiset<Source>, dropped: multiset<Source>)

  ghost function Account(l: Ledger, e: Event): Option<Ledger> {
    if e.source.position != |l.state.seen| then None
    else
      var registered := Register(l.state, e);
      match Advance(l.state, e)
      case None => None
      case Some(next) =>
        Some(Ledger(next, l.removed + RemovedBy(registered, e), l.dropped + DroppedBy(registered, e)))
  }

  /** One pass over a chain, keeping account of every dialogue. */
  ghost function Play(events: seq<Event>): Option<Ledger> {
    if events == [] then Some(Ledger(INITIAL, multiset{}, multiset{}))
    else
      match Play(events[..|events| - 1])
      case None => None
      case Some(before) => Account(before, events[|events| - 1])
  }

  /** Every assistant message, tool call and tool result of the chain. */
  ghost function Exchanged(events: seq<Event>): multiset<Source> {
    if events == [] then multiset{}
    else Exchanged(events[..|events| - 1]) + AddedBy(events[|events| - 1])
  }

  /** What holds of every ledger a run reaches. */
  ghost predicate LedgerOk(l: Ledger, events: seq<Event>) {
    && l.state.seen == events && IndexOk(events, l.state.index) && Parts(l.state)
    && l.state.watermark == (if events == [] then None else Some(events[|events| - 1].source))
    && Held(l.state) + l.removed + l.dropped == Exchanged(events)
    && Once(Exchanged(events))
  }

  lemma {:induction false} ExchangedBelow(events: seq<Event>)
    requires forall i :: 0 <= i < |events| ==> events[i].source.position == i
    ensures Once(Exchanged(events))
    ensures forall x :: x in Exchanged(events) ==> x.position < |events|
  {
    if events != [] {
      var shorter := events[..|events| - 1];
      ExchangedBelow(shorter);
      var e := events[|events| - 1];
      forall x ensures Exchanged(events)[x] <= 1 {
        assert Exchanged(shorter)[x] <= 1;
        if x == e.source {
          assert x !in Exchanged(shorter);
        }
      }
    }
  }

  lemma RegisteredReady(l: Ledger, events: seq<Event>, e: Event)
    requires LedgerOk(l, events) && e.source.position == |events|
    ensures Ready(Register(l.state, e), e)
    ensures IndexOk(events + [e], Register(l.state, e).index)
    ensures Held(Register(l.state, e)) == Held(l.state)
  {
    hide Parts, Fresh, Exchanged, Held, Once;
    var s := Register(l.state, e);
    IndexAdvances(l.state.seen, l.state.index, e);
    NextIsFresh(l.state, e.source);
    PartsExtend(l.state, s.index);
    OnceHeld(l.state, l.removed + l.dropped, Exchanged(events));
    NewHeld(l, events, e);
    RegisterFrames(l.state, e);
  }

  /** A receipt of the next position is in no place yet. */
  lemma NewHeld(l: Ledger, events: seq<Event>, e: Event)
    requires Held(l.state) + l.removed + l.dropped == Exchanged(events) && Once(Exchanged(events))
    requires forall i :: 0 <= i < |events| ==> events[i].source.position == i
    requires e.source.position == |events|
    ensures Once(Held(l.state) + multiset{e.source})
  {
    hide Held;
    ExchangedBelow(events);
    assert e.source !in Exchanged(events);
    forall x ensures (Held(l.state) + multiset{e.source})[x] <= 1 {
      assert (Held(l.state) + l.removed + l.dropped)[x] == Exchanged(events)[x] <= 1;
      if x == e.source {
        assert (Held(l.state) + l.removed + l.dropped)[x] == 0;
      }
    }
  }

  lemma OnceHeld(s: FoldState, gone: multiset<Source>, all: multiset<Source>)
    requires Held(s) + gone == all && Once(all)
    ensures Once(Held(s))
  {
    hide Held;
    OnceOfPart(Held(s), gone);
  }

  lemma RegisterFrames(s: FoldState, e: Event)
    ensures Held(Register(s, e)) == Held(s)
    ensures Fresh(s, e.source) ==> Fresh(Register(s, e), e.source)
  {
  }

  lemma AccountKeeps(l: Ledger, events: seq<Event>, e: Event)
    requires LedgerOk(l, events) && Account(l, e).Some?
    ensures LedgerOk(Account(l, e).value, events + [e])
  {
    hide Ready, Process, Held, RemovedBy, DroppedBy, Parts, Once, IndexOk, Exchanged;
    var s := Register(l.state, e);
    RegisteredReady(l, events, e);
    ProcessKeeps(s, e);
    var next := Process(s, e).value;
    RecordedFrames(next, e);
    ExchangedGrow(events, e);
    IndexPositions(events + [e], s.index);
    ExchangedBelow(events + [e]);
    Balance(Held(next), RemovedBy(s, e), DroppedBy(s, e), Held(s), AddedBy(e), l.removed, l.dropped);
  }

  lemma ExchangedGrow(events: seq<Event>, e: Event)
    ensures Exchanged(events + [e]) == Exchanged(events) + AddedBy(e)
  {
    assert (events + [e])[..|events|] == events;
  }

  lemma IndexPositions(events: seq<Event>, index: Index)
    requires IndexOk(events, index)
    ensures forall i :: 0 <= i < |events| ==> events[i].source.position == i
  {
  }

  lemma RecordedFrames(s: FoldState, e: Event)
    ensures Held(Recorded(s, e)) == Held(s)
    ensures Parts(s) ==> Parts(Recorded(s, e))
  {
  }

  lemma Balance(
    after: multiset<Source>, removed: multiset<Source>, dropped: multiset<Source>, before: multiset<Source>,
    added: multiset<Source>, removedEarlier: multiset<Source>, droppedEarlier: multiset<Source>)
    requires after + removed + dropped == before + added
    ensures after + (removedEarlier + removed) + (droppedEarlier + dropped)
         == before + removedEarlier + droppedEarlier + added
  {
    assert after + (removedEarlier + removed) + (droppedEarlier + dropped)
        == (after + removed + dropped) + removedEarlier + droppedEarlier;
  }

  lemma StartsWell()
    ensures LedgerOk(Ledger(INITIAL, multiset{}, multiset{}), [])
  {
  }

  /** Every run the fold accepts keeps the surface, the parts and the account of its dialogues. */
  lemma {:induction false} RunKeeps(events: seq<Event>)
    requires Play(events).Some?
    ensures LedgerOk(Play(events).value, events)
  {
    hide LedgerOk, Account;
    if events == [] {
      StartsWell();
    } else {
      var shorter := events[..|events| - 1];
      RunKeeps(shorter);
      AccountKeeps(Play(shorter).value, shorter, events[|events| - 1]);
      assert shorter + [events[|events| - 1]] == events;
    }
  }

  /** How many places hold a dialogue's receipt. */
  ghost function Places(l: Ledger, x: Source): nat {
    InOpen(l.state.open)[x] + RecoveryReceipts(l.state.recovery)[x] + OnSurface(l.state.surface)[x]
    + l.removed[x] + l.dropped[x]
  }

  /**
   Conservation: at every point of every run, an observed assistant message, tool call or
   tool result is in exactly one place, and nothing else is in any: gathered in the open
   turn, cited by a dialogue of the surface, gathered by an entry in recovery, removed, or
   dropped. A recovery entry always misses a call.
   */
  lemma EveryReceiptIsInOnePlace(events: seq<Event>, x: Source)
    requires Play(events).Some?
    ensures Places(Play(events).value, x) == if x in Exchanged(events) then 1 else 0
    ensures forall r :: r in Play(events).value.state.recovery ==> !IsComplete(r.exchange)
  {
    hide IsComplete, ExchangeOk, InOpen, RecoveryReceipts, OnSurface, Exchanged, IndexOk, CommittedOk, OpenOk,
      PendingOk, SummariesOk;
    RunKeeps(events);
    var l := Play(events).value;
    assert (Held(l.state) + l.removed + l.dropped)[x] == Exchanged(events)[x];
    assert Exchanged(events)[x] <= 1;
  }

  /** The surface of every run: one heading, at position 0; distinct ids; balanced groups; sound receipts. */
  lemma EverySurfaceIsWellFormed(events: seq<Event>)
    requires Play(events).Some? && Play(events).value.state.surface.Some?
    ensures SurfaceOk(Play(events).value.state.surface.value, Play(events).value.state.index)
  {
    hide SurfaceOk, Account, OpenOk, RecoveryOk, PendingOk, SummariesOk, Held, Exchanged, IndexOk;
    RunKeeps(events);
  }
}
