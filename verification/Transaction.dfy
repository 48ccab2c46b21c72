/**
 The compaction transaction (`runCompaction` in `src/context/compaction.ts`) as the
 steps between its awaits, interleaved with every other writer of the journal and
 with crashes. `queue` holds the events appended to the journal and not yet folded.
 */
module Transaction {
  import opened Wrappers
  import opened Contracts
  import opened Events
  import opened Groups
  import opened Surfaces
  import opened Compaction
  import opened FoldSteps
  import opened FoldInvariant
  import opened Conservation
  import opened Handlers
  import opened Closers
  import opened FoldRuns

  /** What the transaction carries from its selection on; `read` is the surface it selected from. */
  datatype Ticket = Ticket(c: CompactionStart, read: seq<SurfaceGroup>, policy: Policy, selection: Selection)

  /** Where `runCompaction` waits: for its start, its summary, its end, or its aborts to be folded. */
  datatype Phase =
    | Idle
    | Starting(ticket: Ticket, at: nat)
    | Summarizing(ticket: Ticket, receipt: Source)
    | Ending(ticket: Ticket, receipt: Source, at: nat)
    | Aborting(at: nat)

  datatype Session = Session(fold: FoldState, queue: seq<Event>, phase: Phase)

  datatype Action =
    | Fold                                      // the fold observes the next durable event
    | Other(event: Event)                       // another writer appends
    | Begin(selection: Selection, hash: nat)    // selection, then `start`
    | Continue(hash: nat)                       // the recheck after an await
    | Recover(hashes: seq<nat>)                 // orphans are aborted first
    | Crash(survivors: nat)                     // a durable prefix of the queue is folded at boot

  predicate IsCompaction(p: Payload) {
    p.CompactionStarted? || p.CompactionSummarized? || p.CompactionEnded? || p.CompactionAborted?
  }

  function Next(sys: Session): nat {
    |sys.fold.seen| + |sys.queue|
  }

  function Appended(sys: Session, hash: nat, p: Payload): seq<Event> {
    sys.queue + [Event(Source(Next(sys), hash), false, p)]
  }

  /** `transactionValid`: the candidate re-derived from the current surface still holds. */
  predicate TransactionValid(surface: Option<seq<SurfaceGroup>>, c: CompactionStart, authored: Option<string>) {
    && surface.Some?
    && var v := ValidateSpan(surface.value, c);
    && v.Legal? && ReplacementFor(authored, v.shadowBytes).Some?
  }

  function Aborts(pending: seq<CompactionStart>, hashes: seq<nat>, position: nat): seq<Event>
    requires |hashes| == |pending|
  {
    seq(|pending|, i requires 0 <= i < |pending| =>
      Event(Source(position + i, hashes[i]), false, CompactionAborted(pending[i].id)))
  }

  function TicketSummary(t: Ticket): Option<CompactionSummary> {
    match ReplacementFor(t.selection.authored, t.c.shadowBytes)
    case None => None
    case Some(choice) => Some(SummaryFor(t.c, choice))
  }

  function StepBegin(sys: Session, selection: Selection, hash: nat): Option<Session> {
    var fold := sys.fold;
    if !sys.phase.Idle? || fold.pending != [] || fold.surface.None? || fold.config.None? then None
    else
      var policy := fold.config.value.value.policy;
      match SelectCompaction(fold.surface.value, policy, selection)
      case None => None
      case Some(c) =>
        Some(Session(fold, Appended(sys, hash, CompactionStarted(c)),
                    Starting(Ticket(c, fold.surface.value, policy, selection), Next(sys))))
  }

  function StepContinue(sys: Session, hash: nat): Option<Session> {
    match sys.phase
    case Idle => None
    case Aborting(at) => if |sys.fold.seen| <= at then None else Some(sys.(phase := Idle))
    case Starting(t, at) =>
      if |sys.fold.seen| <= at then None
      else if !TransactionValid(sys.fold.surface, t.c, t.selection.authored) || TicketSummary(t).None? then
        Some(StepAbort(sys, t.c, hash))
      else
        Some(sys.(queue := Appended(sys, hash, CompactionSummarized(TicketSummary(t).value)),
                  phase := Summarizing(t, Source(Next(sys), hash))))
    case Summarizing(t, receipt) =>
      if |sys.fold.seen| <= receipt.position then None
      else if !TransactionValid(sys.fold.surface, t.c, t.selection.authored) then
        Some(StepAbort(sys, t.c, hash))
      else
        Some(sys.(queue := Appended(sys, hash, CompactionEnded(t.c.id, receipt)),
                  phase := Ending(t, receipt, Next(sys))))
    case Ending(t, receipt, at) => if |sys.fold.seen| <= at then None else Some(sys.(phase := Idle))
  }

  function StepAbort(sys: Session, c: CompactionStart, hash: nat): Session {
    sys.(queue := Appended(sys, hash, CompactionAborted(c.id)), phase := Aborting(Next(sys)))
  }

  function StepRecover(sys: Session, hashes: seq<nat>): Option<Session> {
    if !sys.phase.Idle? || sys.fold.pending == [] || |hashes| != |sys.fold.pending| then None
    else Some(sys.(queue := sys.queue + Aborts(sys.fold.pending, hashes, Next(sys)),
                   phase := Aborting(Next(sys) + |hashes| - 1)))
  }

  function StepFold(sys: Session): Option<Session> {
    if sys.queue == [] then None
    else match ObserveOne(sys.fold, sys.queue[0])
      case None => None
      case Some(next) => Some(sys.(fold := next, queue := sys.queue[1..]))
  }

  /** A restart folds every durable event again; what survives of the queue is folded too. */
  function StepCrash(sys: Session, survivors: nat): Option<Session> {
    if survivors > |sys.queue| then None
    else match Observe(sys.fold, sys.queue[..survivors])
      case None => None
      case Some(next) => Some(Session(next, [], Idle))
  }

  function Step(sys: Session, a: Action): Option<Session> {
    match a
    case Fold => StepFold(sys)
    case Other(e) =>
      if IsCompaction(e.payload) || e.source.position != Next(sys) then None
      else Some(sys.(queue := sys.queue + [e]))
    case Begin(selection, hash) => StepBegin(sys, selection, hash)
    case Continue(hash) => StepContinue(sys, hash)
    case Recover(hashes) => StepRecover(sys, hashes)
    case Crash(survivors) => StepCrash(sys, survivors)
  }

  /** The system after a list of actions, each enabled when taken. */
  function Execute(actions: seq<Action>): Option<Session> {
    if actions == [] then Some(Session(INITIAL, [], Idle))
    else
      match Execute(actions[..|actions| - 1])
      case None => None
      case Some(sys) => Step(sys, actions[|actions| - 1])
  }

  // --- an accepted end is an unchanged surface ----------------------------------------

  /** The ticket was selected from a well-formed surface whose receipts are still known. */
  ghost predicate TicketOk(t: Ticket, index: Index) {
    && SurfaceOk(t.read, index)
    && SelectCompaction(t.read, t.policy, t.selection) == Some(t.c)
    && TicketSummary(t).Some?
    && AllKnown(t.c.sources, index) && AllKnown(t.c.groupIds, index)
    && t.c.revision == OfSurface(t.read)
  }

  lemma SelectedTicket(groups: seq<SurfaceGroup>, policy: Policy, selection: Selection, index: Index)
    requires SurfaceOk(groups, index) && SelectCompaction(groups, policy, selection).Some?
    ensures TicketOk(Ticket(SelectCompaction(groups, policy, selection).value, groups, policy, selection), index)
  {
    hide SelectCompaction, ReplacementFor, SpanMatches, Names, IsBalanced, SurfaceOk;
    SelectedIsLegal(groups, index, policy, selection);
    var c := SelectCompaction(groups, policy, selection).value;
    IdsKnown(groups, index);
    forall i | 0 <= i < |c.groupIds| ensures c.groupIds[i] in index {
      assert c.groupIds[i] == Ids(groups)[i + 1];
    }
  }

  lemma IdsKnown(groups: seq<SurfaceGroup>, index: Index)
    requires SurfaceOk(groups, index)
    ensures forall i :: 0 <= i < |groups| ==> Ids(groups)[i] in index
  {
    hide IsBalanced;
    forall i | 0 <= i < |groups| ensures Ids(groups)[i] in index {
      assert GroupOk(groups[i], index);
    }
  }

  lemma TicketExtends(t: Ticket, smaller: Index, larger: Index)
    requires TicketOk(t, smaller) && Extends(larger, smaller)
    ensures TicketOk(t, larger)
  {
    hide SurfaceOk, SelectCompaction, TicketSummary;
    SurfaceOkExtends(t.read, smaller, larger);
  }

  /** The transaction's start and summary are folded, and nothing else is pending. */
  ghost predicate Offering(s: FoldState, t: Ticket, receipt: Source) {
    && TicketSummary(t).Some?
    && s.pending == [t.c]
    && t.c.id in s.summaries && s.summaries[t.c.id] == Offered(TicketSummary(t).value, receipt)
    && receipt in s.index && s.index[receipt].payload == CompactionSummarized(TicketSummary(t).value)
  }

  /**
   With its start and summary folded, an end is accepted exactly when the surface is
   the one the selection read; it then leaves the heading, the summary and the groups
   that were not selected.
   */
  lemma EndAcceptedIff(s: FoldState, t: Ticket, receipt: Source)
    requires TicketOk(t, s.index) && Offering(s, t, receipt)
    ensures OnCompactionEnd(s, t.c.id, receipt).Some? <==> s.surface == Some(t.read)
    ensures OnCompactionEnd(s, t.c.id, receipt).Some? ==>
      && |t.c.groupIds| < |t.read|
      && OnCompactionEnd(s, t.c.id, receipt).value.surface
         == Some([t.read[0]] + [SummaryGroup(TicketSummary(t).value, receipt, t.read[1].turn)]
                 + t.read[1 + |t.c.groupIds|..])
  {
    hide SurfaceOk, SelectCompaction, ReplacementFor, SummaryGroup, ReplaceCommitted;
    assert FindPending([t.c], t.c.id) == 0;
    if s.surface == Some(t.read) {
      SelectedIsApplied(t.read, s.index, t.policy, t.selection, receipt);
    } else if s.surface.Some? {
      StaleIsRefused(s.surface.value, t, receipt, s.index);
    }
  }

  lemma StaleIsRefused(groups: seq<SurfaceGroup>, t: Ticket, receipt: Source, index: Index)
    requires t.c.revision == OfSurface(t.read) && groups != t.read && TicketSummary(t).Some?
    ensures ReplaceCommitted(groups, t.c, TicketSummary(t).value, receipt, index).None?
  {
    hide SummaryCompletes, TicketSummary;
    assert ValidateSpan(groups, t.c) == Refused(StaleRevision);
  }

  // --- the session invariant -------------------------------------------------------------

  /** A fold state some run reaches. */
  ghost predicate Reached(f: FoldState) {
    exists removed, dropped :: LedgerOk(Ledger(f, removed, dropped), f.seen)
  }

  ghost predicate Positioned(queue: seq<Event>, from: nat) {
    forall i :: 0 <= i < |queue| ==> queue[i].source.position == from + i
  }

  ghost predicate Quiet(queue: seq<Event>) {
    forall i :: 0 <= i < |queue| ==> !IsCompaction(queue[i].payload)
  }

  /** The queue's one compaction event is `p`, at position `k`. */
  ghost predicate OnlyAt(queue: seq<Event>, k: int, p: Payload) {
    && 0 <= k < |queue| && queue[k].payload == p
    && forall i :: 0 <= i < |queue| && i != k ==> !IsCompaction(queue[i].payload)
  }

  ghost function AbortOf(p: Payload): seq<Digest> {
    if p.CompactionAborted? then [p.id] else []
  }

  ghost function AbortIds(queue: seq<Event>): seq<Digest> {
    if queue == [] then [] else AbortOf(queue[0].payload) + AbortIds(queue[1..])
  }

  ghost function PendingIds(pending: seq<CompactionStart>): seq<Digest> {
    if pending == [] then [] else [pending[0].id] + PendingIds(pending[1..])
  }

  /** Every compaction event of the queue is an abort, none after position `at`. */
  ghost predicate OnlyAborts(queue: seq<Event>, from: nat, at: nat) {
    forall i :: 0 <= i < |queue| && IsCompaction(queue[i].payload) ==>
      queue[i].payload.CompactionAborted? && from + i <= at
  }

  ghost predicate PhaseOk(f: FoldState, queue: seq<Event>, phase: Phase) {
    match phase
    case Idle => Quiet(queue)
    case Starting(t, at) =>
      && TicketOk(t, f.index)
      && (if |f.seen| <= at then
            f.pending == [] && f.surface.Some? && OnlyAt(queue, at - |f.seen|, CompactionStarted(t.c))
          else f.pending == [t.c] && f.summaries == map[] && Quiet(queue))
    case Summarizing(t, receipt) =>
      && TicketOk(t, f.index)
      && (if |f.seen| <= receipt.position then
            && f.pending == [t.c] && f.summaries == map[]
            && OnlyAt(queue, receipt.position - |f.seen|, CompactionSummarized(TicketSummary(t).value))
            && queue[receipt.position - |f.seen|].source == receipt
          else Offering(f, t, receipt) && Quiet(queue))
    case Ending(t, receipt, at) =>
      if |f.seen| <= at then
        && TicketOk(t, f.index) && Offering(f, t, receipt)
        && OnlyAt(queue, at - |f.seen|, CompactionEnded(t.c.id, receipt))
      else f.pending == [] && Quiet(queue)
    case Aborting(at) => AbortIds(queue) == PendingIds(f.pending) && OnlyAborts(queue, |f.seen|, at)
  }

  ghost predicate SessionOk(sys: Session) {
    Reached(sys.fold) && Positioned(sys.queue, |sys.fold.seen|) && PhaseOk(sys.fold, sys.queue, sys.phase)
  }

  // --- what folding one event does --------------------------------------------------------

  lemma ReachedParts(f: FoldState)
    requires Reached(f)
    ensures Parts(f) && IndexOk(f.seen, f.index) && Once(Held(f))
    ensures f.pending == [] ==> f.summaries == map[]
  {
    hide CommittedOk, OpenOk, RecoveryOk, PendingOk, Held, Exchanged, IndexOk;
    var removed, dropped :| LedgerOk(Ledger(f, removed, dropped), f.seen);
    OnceHeldParts(f, removed, dropped);
    if f.pending == [] {
      NothingOffered(f.summaries, f.pending, f.index, SurfaceIds(f.surface));
    }
  }

  lemma NothingOffered(summaries: map<Digest, Offered>, pending: seq<CompactionStart>, index: Index, ids: seq<Source>)
    requires SummariesOk(summaries, pending, index, ids) && pending == []
    ensures summaries == map[]
  {
    assert forall id :: id in summaries ==> FindPending(pending, id) < |pending|;
    assert summaries.Keys == {};
  }

  lemma OnceHeldParts(f: FoldState, removed: multiset<Source>, dropped: multiset<Source>)
    requires Once(Exchanged(f.seen)) && Held(f) + removed + dropped == Exchanged(f.seen)
    ensures Once(Held(f))
  {
    hide Exchanged, Held;
    assert Held(f) + (removed + dropped) == Exchanged(f.seen);
    OnceHeld(f, removed + dropped, Exchanged(f.seen));
  }

  lemma ReachedAdvances(f: FoldState, e: Event)
    requires Reached(f) && e.source.position == |f.seen| && Advance(f, e).Some?
    ensures Reached(Advance(f, e).value)
    ensures Advance(f, e).value.seen == f.seen + [e]
    ensures Advance(f, e).value.index == f.index[e.source := e]
    ensures Extends(Advance(f, e).value.index, f.index)
  {
    hide LedgerOk, Process, RemovedBy, DroppedBy;
    var removed, dropped :| LedgerOk(Ledger(f, removed, dropped), f.seen);
    var l := Ledger(f, removed, dropped);
    SeenOf(l, f.seen);
    AccountKeeps(l, f.seen, e);
    var after := Account(l, e).value;
    SeenOf(after, f.seen + [e]);
    assert Ledger(after.state, after.removed, after.dropped) == after;
    IndexOfAdvance(f, e);
    ReachedParts(f);
    IndexAdvances(f.seen, f.index, e);
  }

  lemma SeenOf(l: Ledger, events: seq<Event>)
    requires LedgerOk(l, events)
    ensures l.state.seen == events
  {
    hide Parts, Held, Exchanged, IndexOk;
  }

  lemma IndexOfAdvance(f: FoldState, e: Event)
    requires Reached(f) && e.source.position == |f.seen| && Advance(f, e).Some?
    ensures Advance(f, e).value.index == f.index[e.source := e]
  {
    hide LedgerOk, Process, Ready, Parts, Held, RemovedBy, DroppedBy;
    var removed, dropped :| LedgerOk(Ledger(f, removed, dropped), f.seen);
    RegisteredReady(Ledger(f, removed, dropped), f.seen, e);
    ProcessKeeps(Register(f, e), e);
  }

  lemma CommitKeepsSome(surface: Option<seq<SurfaceGroup>>, open: OpenTurn, promote: seq<Exchange>, index: Index)
    requires surface.Some? && CommitTurn(surface, open, promote, index).Some?
    ensures CommitTurn(surface, open, promote, index).value.Some?
  {
    hide AppendGroup, PromoteAll;
  }

  /** An event of another writer leaves the transaction's bookkeeping alone. */
  lemma QuietFrame(s: FoldState, e: Event)
    requires !IsCompaction(e.payload) && Process(s, e).Some?
    ensures Process(s, e).value.pending == s.pending && Process(s, e).value.summaries == s.summaries
    ensures s.surface.Some? ==> Process(s, e).value.surface.Some?
  {
    hide RewriteHeading, AppendGroup, BufferOf, PutBuffer, AddResult, IsComplete, DialogueGroup, Sift, CommitTurn,
      FindRecovery, HasCall, DistinctCalls, OnCompactionStart, OnCompactionSummary, OnCompactionEnd,
      OnCompactionAbort;
    if e.payload.TurnEnd? && s.surface.Some? {
      var success := e.payload.outcome == Chained || e.payload.outcome == Waiting;
      var sifted := Sift(s.open.value.dialogues, e.payload.turn, success, e.ignorable).value;
      CommitKeepsSome(s.surface, s.open.value, sifted.promote, s.index);
    }
  }

  lemma AdvanceQuiet(f: FoldState, e: Event)
    requires !IsCompaction(e.payload) && Advance(f, e).Some?
    ensures Advance(f, e).value.pending == f.pending && Advance(f, e).value.summaries == f.summaries
    ensures f.surface.Some? ==> Advance(f, e).value.surface.Some?
  {
    hide Process;
    QuietFrame(Register(f, e), e);
  }

  /** A transaction's start, delivered to a fold with nothing pending, is accepted. */
  lemma AdvanceStart(f: FoldState, e: Event, t: Ticket)
    requires e.payload == CompactionStarted(t.c) && e.source !in f.index
    requires f.pending == [] && f.surface.Some? && TicketOk(t, f.index)
    ensures Advance(f, e).Some?
    ensures var g := Advance(f, e).value;
            g.pending == [t.c] && g.summaries == f.summaries && g.surface == f.surface
  {
    hide SurfaceOk, SelectCompaction, TicketSummary;
  }

  /** Its summary is accepted while its start is pending without one. */
  lemma AdvanceSummary(f: FoldState, e: Event, t: Ticket)
    requires TicketOk(t, f.index) && e.source !in f.index
    requires e.payload == CompactionSummarized(TicketSummary(t).value)
    requires f.pending == [t.c] && f.summaries == map[]
    ensures Advance(f, e).Some?
    ensures Offering(Advance(f, e).value, t, e.source) && Advance(f, e).value.surface == f.surface
  {
    hide SurfaceOk, SelectCompaction, ReplacementFor;
    assert FindPending([t.c], t.c.id) == 0;
  }

  lemma OfferingExtends(f: FoldState, g: FoldState, t: Ticket, receipt: Source)
    requires Offering(f, t, receipt) && g.pending == f.pending && g.summaries == f.summaries
    requires Extends(g.index, f.index)
    ensures Offering(g, t, receipt)
  {
    hide TicketSummary;
  }

  /** Its end is accepted exactly when the surface is still the one it read; nothing is pending after. */
  lemma AdvanceEnd(f: FoldState, e: Event, t: Ticket, receipt: Source)
    requires TicketOk(t, f.index) && Offering(f, t, receipt) && e.source !in f.index
    requires e.payload == CompactionEnded(t.c.id, receipt)
    ensures Advance(f, e).Some? <==> f.surface == Some(t.read)
    ensures Advance(f, e).Some? ==> Advance(f, e).value.pending == []
  {
    hide TicketOk, Offering, OnCompactionEnd, TicketSummary;
    var s := Register(f, e);
    TicketExtends(t, f.index, s.index);
    OfferingExtends(f, s, t, receipt);
    EndAcceptedIff(s, t, receipt);
    if OnCompactionEnd(s, t.c.id, receipt).Some? {
      EndClears(s, t, receipt);
    }
  }

  lemma EndClears(s: FoldState, t: Ticket, receipt: Source)
    requires Offering(s, t, receipt) && OnCompactionEnd(s, t.c.id, receipt).Some?
    ensures OnCompactionEnd(s, t.c.id, receipt).value.pending == []
  {
    hide ReplaceCommitted, TicketSummary;
  }

  /** The abort of the first pending compaction is accepted and removes only it. */
  lemma AdvanceAbort(f: FoldState, e: Event)
    requires f.pending != [] && e.payload == CompactionAborted(f.pending[0].id)
    ensures Advance(f, e).Some?
    ensures Advance(f, e).value.pending == f.pending[1..] && Advance(f, e).value.surface == f.surface
  {
  }

  // --- every step keeps the session invariant ------------------------------------------------

  lemma NextIsNew(f: FoldState, e: Event)
    requires Reached(f) && e.source.position == |f.seen|
    ensures e.source !in f.index && ObserveOne(f, e) == Advance(f, e)
  {
    hide Parts, Advance, Held, Once;
    ReachedParts(f);
  }

  lemma FoldStarting(f: FoldState, queue: seq<Event>, phase: Phase)
    requires Reached(f) && Positioned(queue, |f.seen|) && phase.Starting? && PhaseOk(f, queue, phase)
    requires queue != [] && Advance(f, queue[0]).Some?
    ensures PhaseOk(Advance(f, queue[0]).value, queue[1..], phase)
  {
    hide Reached, Advance, TicketOk, Parts, Held, TicketSummary;
    var e, t, k := queue[0], phase.ticket, phase.at - |f.seen|;
    ReachedParts(f);
    ReachedAdvances(f, e);
    NextIsNew(f, e);
    TicketExtends(t, f.index, Advance(f, e).value.index);
    if k == 0 {
      AdvanceStart(f, e, t);
    } else {
      AdvanceQuiet(f, e);
      if k > 0 {
        assert queue[1..][k - 1] == queue[k];
      }
    }
  }

  lemma FoldSummarizing(f: FoldState, queue: seq<Event>, phase: Phase)
    requires Reached(f) && Positioned(queue, |f.seen|) && phase.Summarizing? && PhaseOk(f, queue, phase)
    requires queue != [] && Advance(f, queue[0]).Some?
    ensures PhaseOk(Advance(f, queue[0]).value, queue[1..], phase)
  {
    hide Reached, Advance, TicketOk, Offering, TicketSummary;
    var e, t, k := queue[0], phase.ticket, phase.receipt.position - |f.seen|;
    var g := Advance(f, e).value;
    ReachedAdvances(f, e);
    NextIsNew(f, e);
    TicketExtends(t, f.index, g.index);
    if k == 0 {
      assert TicketSummary(t).Some? by { TicketHasSummary(t, f.index); }
      AdvanceSummary(f, e, t);
    } else {
      AdvanceQuiet(f, e);
      if k > 0 {
        assert queue[1..][k - 1] == queue[k];
      } else {
        OfferingExtends(f, g, t, phase.receipt);
      }
    }
  }

  lemma TicketHasSummary(t: Ticket, index: Index)
    requires TicketOk(t, index)
    ensures TicketSummary(t).Some?
  {
    hide SurfaceOk, SelectCompaction, TicketSummary;
  }

  lemma FoldEnding(f: FoldState, queue: seq<Event>, phase: Phase)
    requires Reached(f) && Positioned(queue, |f.seen|) && phase.Ending? && PhaseOk(f, queue, phase)
    requires queue != [] && Advance(f, queue[0]).Some?
    ensures PhaseOk(Advance(f, queue[0]).value, queue[1..], phase)
  {
    hide Reached, Advance, TicketOk, Offering, TicketSummary;
    var e, t, k := queue[0], phase.ticket, phase.at - |f.seen|;
    var g := Advance(f, e).value;
    ReachedAdvances(f, e);
    NextIsNew(f, e);
    if k == 0 {
      AdvanceEnd(f, e, t, phase.receipt);
    } else {
      AdvanceQuiet(f, e);
      if k > 0 {
        assert queue[1..][k - 1] == queue[k];
        TicketExtends(t, f.index, g.index);
        OfferingExtends(f, g, t, phase.receipt);
      }
    }
  }

  lemma {:induction false} FirstAbort(queue: seq<Event>, pending: seq<CompactionStart>)
    requires queue != [] && queue[0].payload.CompactionAborted? && AbortIds(queue) == PendingIds(pending)
    ensures pending != [] && queue[0].payload.id == pending[0].id
    ensures AbortIds(queue[1..]) == PendingIds(pending[1..])
  {
    assert AbortIds(queue)[0] == queue[0].payload.id && AbortIds(queue)[1..] == AbortIds(queue[1..]);
    assert pending != [];
    assert PendingIds(pending)[0] == pending[0].id && PendingIds(pending)[1..] == PendingIds(pending[1..]);
  }

  lemma FoldAborting(f: FoldState, queue: seq<Event>, phase: Phase)
    requires Reached(f) && Positioned(queue, |f.seen|) && phase.Aborting? && PhaseOk(f, queue, phase)
    requires queue != [] && Advance(f, queue[0]).Some?
    ensures PhaseOk(Advance(f, queue[0]).value, queue[1..], phase)
  {
    hide Reached, Advance;
    var e := queue[0];
    ReachedAdvances(f, e);
    if IsCompaction(e.payload) {
      FirstAbort(queue, f.pending);
      AdvanceAbort(f, e);
    } else {
      AdvanceQuiet(f, e);
    }
    var at, from := phase.at, |f.seen|;
    forall i | 0 <= i < |queue[1..]| && IsCompaction(queue[1..][i].payload)
      ensures queue[1..][i].payload.CompactionAborted? && from + 1 + i <= at
    {
      assert queue[1..][i] == queue[i + 1];
    }
  }

  lemma FoldKeeps(sys: Session)
    requires SessionOk(sys) && StepFold(sys).Some?
    ensures SessionOk(StepFold(sys).value)
  {
    hide Reached, Advance, TicketOk, Offering, TicketSummary, OnlyAt, AbortIds, PendingIds, OnlyAborts, ObserveOne;
    var f, e := sys.fold, sys.queue[0];
    NextIsNew(f, e);
    ReachedAdvances(f, e);
    match sys.phase
    case Idle =>
    case Starting(_, _) => FoldStarting(f, sys.queue, sys.phase);
    case Summarizing(_, _) => FoldSummarizing(f, sys.queue, sys.phase);
    case Ending(_, _, _) => FoldEnding(f, sys.queue, sys.phase);
    case Aborting(_) => FoldAborting(f, sys.queue, sys.phase);
  }

  lemma {:induction false} AbortIdsConcat(a: seq<Event>, b: seq<Event>)
    ensures AbortIds(a + b) == AbortIds(a) + AbortIds(b)
  {
    hide AbortOf;
    if a == [] {
      assert a + b == b;
    } else {
      AbortIdsConcat(a[1..], b);
      assert (a + b)[0] == a[0] && (a + b)[1..] == a[1..] + b;
    }
  }

  lemma {:induction false} QuietHasNoAborts(queue: seq<Event>)
    requires Quiet(queue)
    ensures AbortIds(queue) == []
  {
    if queue != [] {
      QuietHasNoAborts(queue[1..]);
    }
  }

  lemma AppendQuietly(queue: seq<Event>, e: Event)
    requires !IsCompaction(e.payload)
    ensures AbortIds(queue + [e]) == AbortIds(queue)
    ensures Quiet(queue) ==> Quiet(queue + [e])
    ensures forall from, at :: OnlyAborts(queue, from, at) ==> OnlyAborts(queue + [e], from, at)
  {
    AbortIdsConcat(queue, [e]);
    assert AbortIds([e]) == [];
  }

  lemma OnlyAtStays(queue: seq<Event>, e: Event, k: int, p: Payload)
    requires OnlyAt(queue, k, p) && !IsCompaction(e.payload)
    ensures OnlyAt(queue + [e], k, p) && (queue + [e])[k] == queue[k]
  {
  }

  lemma PhaseStays(f: FoldState, queue: seq<Event>, phase: Phase, e: Event)
    requires PhaseOk(f, queue, phase) && !IsCompaction(e.payload)
    ensures PhaseOk(f, queue + [e], phase)
  {
    hide TicketOk, Offering, TicketSummary, AbortIds, PendingIds, OnlyAborts, Quiet, OnlyAt;
    AppendQuietly(queue, e);
    match phase
    case Idle =>
    case Starting(t, at) =>
      if |f.seen| <= at {
        OnlyAtStays(queue, e, at - |f.seen|, CompactionStarted(t.c));
      }
    case Summarizing(t, receipt) =>
      if |f.seen| <= receipt.position {
        TicketHasSummary(t, f.index);
        OnlyAtStays(queue, e, receipt.position - |f.seen|, CompactionSummarized(TicketSummary(t).value));
      }
    case Ending(t, receipt, at) =>
      if |f.seen| <= at {
        OnlyAtStays(queue, e, at - |f.seen|, CompactionEnded(t.c.id, receipt));
      }
    case Aborting(_) =>
  }

  lemma OtherKeeps(sys: Session, e: Event)
    requires SessionOk(sys) && Step(sys, Other(e)).Some?
    ensures SessionOk(Step(sys, Other(e)).value)
  {
    hide Reached, PhaseOk;
    PhaseStays(sys.fold, sys.queue, sys.phase, e);
  }

  /** Appending a compaction event to a quiet queue makes it the only one. */
  lemma AppendOnly(queue: seq<Event>, e: Event)
    requires Quiet(queue)
    ensures OnlyAt(queue + [e], |queue|, e.payload)
  {
  }

  lemma BeginKeeps(sys: Session, selection: Selection, hash: nat)
    requires SessionOk(sys) && StepBegin(sys, selection, hash).Some?
    ensures SessionOk(StepBegin(sys, selection, hash).value)
  {
    hide Reached, TicketOk, SelectCompaction, OnlyAt, Held, Once, IndexOk, SurfaceOk, OpenOk, RecoveryOk, PendingOk,
      SummariesOk;
    var f, policy := sys.fold, sys.fold.config.value.value.policy;
    ReachedParts(f);
    SelectedTicket(f.surface.value, policy, selection, f.index);
    var c := SelectCompaction(f.surface.value, policy, selection).value;
    AppendOnly(sys.queue, Event(Source(Next(sys), hash), false, CompactionStarted(c)));
  }

  lemma AbortPhase(sys: Session, c: CompactionStart, hash: nat)
    requires Quiet(sys.queue) && sys.fold.pending == [c]
    ensures var next := StepAbort(sys, c, hash); PhaseOk(next.fold, next.queue, next.phase)
  {
    var abort := Event(Source(Next(sys), hash), false, CompactionAborted(c.id));
    AbortIdsConcat(sys.queue, [abort]);
    QuietHasNoAborts(sys.queue);
    assert AbortIds([abort]) == [c.id] + AbortIds([abort][1..]);
  }

  lemma ContinueKeeps(sys: Session, hash: nat)
    requires SessionOk(sys) && StepContinue(sys, hash).Some?
    ensures SessionOk(StepContinue(sys, hash).value)
  {
    hide Reached, TicketOk, Offering, TicketSummary, OnlyAt, TransactionValid, AbortIds, PendingIds;
    match sys.phase
    case Idle =>
    case Aborting(at) =>
    case Starting(t, at) =>
      AbortPhase(sys, t.c, hash);
      if TicketSummary(t).Some? {
        AppendOnly(sys.queue, Event(Source(Next(sys), hash), false, CompactionSummarized(TicketSummary(t).value)));
      }
    case Summarizing(t, receipt) =>
      assert sys.fold.pending == [t.c] by { OfferingPending(sys.fold, t, receipt); }
      AbortPhase(sys, t.c, hash);
      AppendOnly(sys.queue, Event(Source(Next(sys), hash), false, CompactionEnded(t.c.id, receipt)));
    case Ending(t, receipt, at) =>
  }

  lemma OfferingPending(f: FoldState, t: Ticket, receipt: Source)
    requires Offering(f, t, receipt)
    ensures f.pending == [t.c]
  {
    hide TicketSummary;
  }

  lemma {:induction false} AbortsAreAborts(pending: seq<CompactionStart>, hashes: seq<nat>, position: nat)
    requires |hashes| == |pending|
    ensures AbortIds(Aborts(pending, hashes, position)) == PendingIds(pending)
  {
    var events := Aborts(pending, hashes, position);
    if pending != [] {
      AbortsAreAborts(pending[1..], hashes[1..], position + 1);
      assert events[1..] == Aborts(pending[1..], hashes[1..], position + 1);
    }
  }

  lemma RecoverKeeps(sys: Session, hashes: seq<nat>)
    requires SessionOk(sys) && StepRecover(sys, hashes).Some?
    ensures SessionOk(StepRecover(sys, hashes).value)
  {
    hide Reached, TicketOk, Offering, TicketSummary, OnlyAt, AbortIds, PendingIds;
    var aborts := Aborts(sys.fold.pending, hashes, Next(sys));
    AbortsAreAborts(sys.fold.pending, hashes, Next(sys));
    AbortIdsConcat(sys.queue, aborts);
    QuietHasNoAborts(sys.queue);
  }

  lemma {:induction false} ObserveReaches(f: FoldState, events: seq<Event>)
    requires Reached(f) && Positioned(events, |f.seen|) && Observe(f, events).Some?
    ensures Reached(Observe(f, events).value)
    decreases |events|
  {
    hide Reached, Advance, ObserveOne;
    if events != [] {
      NextIsNew(f, events[0]);
      ReachedAdvances(f, events[0]);
      ObserveReaches(Advance(f, events[0]).value, events[1..]);
    }
  }

  lemma CrashKeeps(sys: Session, survivors: nat)
    requires SessionOk(sys) && StepCrash(sys, survivors).Some?
    ensures SessionOk(StepCrash(sys, survivors).value)
  {
    hide Reached, PhaseOk, Observe;
    ObserveReaches(sys.fold, sys.queue[..survivors]);
    IdleIsQuiet(Observe(sys.fold, sys.queue[..survivors]).value);
  }

  lemma IdleIsQuiet(f: FoldState)
    ensures PhaseOk(f, [], Idle)
  {
  }

  lemma StepKeeps(sys: Session, a: Action)
    requires SessionOk(sys) && Step(sys, a).Some?
    ensures SessionOk(Step(sys, a).value)
  {
    hide SessionOk, StepFold, StepBegin, StepContinue, StepRecover, StepCrash;
    match a
    case Fold => FoldKeeps(sys);
    case Other(e) => OtherKeeps(sys, e);
    case Begin(selection, hash) => BeginKeeps(sys, selection, hash);
    case Continue(hash) => ContinueKeeps(sys, hash);
    case Recover(hashes) => RecoverKeeps(sys, hashes);
    case Crash(survivors) => CrashKeeps(sys, survivors);
  }

  lemma StartsIdle()
    ensures SessionOk(Session(INITIAL, [], Idle))
  {
    hide LedgerOk;
    StartsWell();
    assert LedgerOk(Ledger(INITIAL, multiset{}, multiset{}), INITIAL.seen);
  }

  /** Every interleaving of the transaction with other writers and crashes keeps the invariant. */
  lemma {:induction false} ExecuteKeeps(actions: seq<Action>)
    requires Execute(actions).Some?
    ensures SessionOk(Execute(actions).value)
  {
    hide SessionOk, Step;
    if actions == [] {
      StartsIdle();
    } else {
      var shorter := actions[..|actions| - 1];
      ExecuteKeeps(shorter);
      StepKeeps(Execute(shorter).value, actions[|actions| - 1]);
    }
  }
}
