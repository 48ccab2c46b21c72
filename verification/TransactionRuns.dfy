/**
 What the session invariant means for whole runs of the compaction transaction:
 which deliveries the fold can refuse, what a recovery leaves behind, and why
 repeated compaction stops.
 */
module TransactionRuns {
  import opened Wrappers
  import opened Contracts
  import opened Events
  import opened Groups
  import opened Surfaces
  import opened Compaction
  import opened FoldSteps
  import opened FoldInvariant
  import opened Conservation
  import opened FoldRuns
  import opened Transaction

  // --- deliveries ------------------------------------------------------------------------

  /** The surface of an accepted end: heading, summary, and the groups that were not selected. */
  ghost function Spliced(t: Ticket, receipt: Source): Option<seq<SurfaceGroup>> {
    if TicketSummary(t).None? || |t.c.groupIds| >= |t.read| || |t.read| < 2 then None
    else
      Some([t.read[0]]
           + [SurfaceGroup(receipt, Summary, t.read[1].turn,
                           [User(Standing(t.selection.authored, t.c.shadowBytes))], SortUnique([receipt] + t.c.sources))]
           + t.read[1 + |t.c.groupIds|..])
  }

  lemma SummaryStands(t: Ticket, receipt: Source, turn: nat)
    requires TicketSummary(t).Some?
    ensures SummaryGroup(TicketSummary(t).value, receipt, turn)
         == SurfaceGroup(receipt, Summary, turn, [User(Standing(t.selection.authored, t.c.shadowBytes))],
                         SortUnique([receipt] + t.c.sources))
  {
    hide WireBytes, SortUnique;
  }

  lemma StartDelivery(f: FoldState, queue: seq<Event>, phase: Phase)
    requires Reached(f) && Positioned(queue, |f.seen|) && PhaseOk(f, queue, phase) && phase.Starting?
    requires queue != [] && IsCompaction(queue[0].payload)
    ensures !queue[0].payload.CompactionEnded? && ObserveOne(f, queue[0]).Some?
    ensures ObserveOne(f, queue[0]).value.surface == f.surface
  {
    hide Reached, Advance, TicketOk, TicketSummary, ObserveOne;
    NextIsNew(f, queue[0]);
    AdvanceStart(f, queue[0], phase.ticket);
  }

  lemma SummaryDelivery(f: FoldState, queue: seq<Event>, phase: Phase)
    requires Reached(f) && Positioned(queue, |f.seen|) && PhaseOk(f, queue, phase) && phase.Summarizing?
    requires queue != [] && IsCompaction(queue[0].payload)
    ensures !queue[0].payload.CompactionEnded? && ObserveOne(f, queue[0]).Some?
    ensures ObserveOne(f, queue[0]).value.surface == f.surface
  {
    hide Reached, Advance, TicketOk, TicketSummary, ObserveOne, Offering;
    NextIsNew(f, queue[0]);
    TicketHasSummary(phase.ticket, f.index);
    AdvanceSummary(f, queue[0], phase.ticket);
  }

  lemma AbortDelivery(f: FoldState, queue: seq<Event>, phase: Phase)
    requires Reached(f) && Positioned(queue, |f.seen|) && PhaseOk(f, queue, phase) && phase.Aborting?
    requires queue != [] && IsCompaction(queue[0].payload)
    ensures !queue[0].payload.CompactionEnded? && ObserveOne(f, queue[0]).Some?
    ensures ObserveOne(f, queue[0]).value.surface == f.surface
  {
    hide Reached, Advance, ObserveOne, AbortIds, PendingIds;
    NextIsNew(f, queue[0]);
    FirstAbort(queue, f.pending);
    AdvanceAbort(f, queue[0]);
  }

  lemma EndDelivery(f: FoldState, queue: seq<Event>, phase: Phase)
    requires Reached(f) && Positioned(queue, |f.seen|) && PhaseOk(f, queue, phase) && phase.Ending?
    requires queue != [] && IsCompaction(queue[0].payload)
    ensures queue[0].payload.CompactionEnded?
    ensures ObserveOne(f, queue[0]).Some? <==> f.surface == Some(phase.ticket.read)
    ensures ObserveOne(f, queue[0]).Some? ==>
              var g := ObserveOne(f, queue[0]).value;
              g.pending == [] && g.surface.Some? && g.surface == Spliced(phase.ticket, phase.receipt)
  {
    hide Reached, Advance, TicketOk, Offering, TicketSummary, ObserveOne, Spliced;
    var e, t := queue[0], phase.ticket;
    NextIsNew(f, e);
    AdvanceEnd(f, e, t, phase.receipt);
    if Advance(f, e).Some? {
      EndSurfaceIs(f, e, t, phase.receipt);
    }
  }

  lemma EndSurfaceIs(f: FoldState, e: Event, t: Ticket, receipt: Source)
    requires TicketOk(t, f.index) && Offering(f, t, receipt) && e.source !in f.index
    requires e.payload == CompactionEnded(t.c.id, receipt) && Advance(f, e).Some?
    ensures Advance(f, e).value.surface.Some? && Advance(f, e).value.surface == Spliced(t, receipt)
  {
    hide TicketOk, Offering, OnCompactionEnd, TicketSummary;
    var s := Register(f, e);
    TicketExtends(t, f.index, s.index);
    OfferingExtends(f, s, t, receipt);
    EndAcceptedIff(s, t, receipt);
    SelectedSomething(t, s.index);
    SummaryStands(t, receipt, t.read[1].turn);
  }

  lemma SelectedSomething(t: Ticket, index: Index)
    requires TicketOk(t, index)
    ensures TicketSummary(t).Some? && 0 < |t.c.groupIds| < |t.read|
  {
    hide SurfaceOk, SelectCompaction, ReplacementFor, Names, SpanMatches;
    SelectedIsLegal(t.read, index, t.policy, t.selection);
    LegalIsNonempty(t.read, t.c);
  }

  lemma LegalIsNonempty(groups: seq<SurfaceGroup>, c: CompactionStart)
    requires LegalAt(groups, c, 1)
    ensures 0 < |c.groupIds| < |groups|
  {
    hide Names;
  }

  /**
   Whether the fold takes the next durable event: an `end` exactly when the surface is the
   one the selection read, any other compaction event always, another writer's event when
   its own handler does.
   */
  ghost predicate Deliverable(sys: Session)
    requires sys.queue != []
  {
    var e := sys.queue[0];
    if e.payload.CompactionEnded? then sys.phase.Ending? && sys.fold.surface == Some(sys.phase.ticket.read)
    else IsCompaction(e.payload) || ObserveOne(sys.fold, e).Some?
  }

  lemma DeliveredFrom(sys: Session)
    requires SessionOk(sys) && sys.queue != []
    ensures StepFold(sys).Some? <==> Deliverable(sys)
    ensures var p := sys.queue[0].payload;
            && (p.CompactionEnded? ==> sys.phase.Ending?)
            && (IsCompaction(p) && StepFold(sys).Some? ==> (StepFold(sys).value.fold.surface ==
                  if p.CompactionEnded? then Spliced(sys.phase.ticket, sys.phase.receipt) else sys.fold.surface))
  {
    hide Reached, Spliced, ObserveOne, TicketOk, TicketSummary, Offering, OnlyAt, AbortIds, PendingIds, OnlyAborts;
    if IsCompaction(sys.queue[0].payload) {
      match sys.phase
      case Idle =>
      case Starting(_, _) => StartDelivery(sys.fold, sys.queue, sys.phase);
      case Summarizing(_, _) => SummaryDelivery(sys.fold, sys.queue, sys.phase);
      case Ending(_, _, _) => EndDelivery(sys.fold, sys.queue, sys.phase);
      case Aborting(_) => AbortDelivery(sys.fold, sys.queue, sys.phase);
    }
  }

  /**
   Over every interleaving and every crash, the one delivery of a transaction the fold
   can refuse is its `end`, and it refuses it exactly when the surface is not the one the
   selection read. Start, summary and abort leave the surface alone; an accepted end
   leaves the heading, the summary and the groups that were not selected.
   */
  lemma DeliveredIff(actions: seq<Action>)
    requires Execute(actions).Some?
    requires var sys := Execute(actions).value; sys.queue != [] && IsCompaction(sys.queue[0].payload)
    ensures var sys := Execute(actions).value;
            var p, next := sys.queue[0].payload, Step(sys, Fold);
            && (p.CompactionEnded? ==> sys.phase.Ending?)
            && (next.Some? <==> (p.CompactionEnded? ==> sys.fold.surface == Some(sys.phase.ticket.read)))
            && (next.Some? ==> (next.value.fold.surface ==
                  if p.CompactionEnded? then Spliced(sys.phase.ticket, sys.phase.receipt) else sys.fold.surface))
  {
    hide Execute, SessionOk, Spliced, StepFold, ObserveOne;
    ExecuteKeeps(actions);
    DeliveredFrom(Execute(actions).value);
  }

  /** A current revision is the surface the selection read. */
  lemma ValidMeansUnchanged(t: Ticket, f: FoldState)
    requires TicketOk(t, f.index) && TransactionValid(f.surface, t.c, t.selection.authored)
    ensures f.surface == Some(t.read)
  {
    hide SurfaceOk, SelectCompaction, TicketSummary, ReplacementFor, ValidateSpan;
    if f.surface.value != t.read {
      StaleSpan(f.surface.value, t);
    }
  }

  lemma StaleSpan(groups: seq<SurfaceGroup>, t: Ticket)
    requires t.c.revision == OfSurface(t.read) && groups != t.read
    ensures ValidateSpan(groups, t.c) == Refused(StaleRevision)
  {
  }

  /**
   A transaction whose fold had observed everything appended before its `end` never has
   that end refused, whatever other writers append after it.
   */
  lemma SyncedEndIsAccepted(actions: seq<Action>, hash: nat, others: seq<Event>)
    requires Execute(actions).Some?
    requires var sys := Execute(actions).value;
             && sys.phase.Summarizing? && sys.queue == []
             && Step(sys, Continue(hash)).Some? && Step(sys, Continue(hash)).value.phase.Ending?
    ensures var ending := Step(Execute(actions).value, Continue(hash)).value;
            var next := Step(ending.(queue := ending.queue + others), Fold);
            && next.Some? && next.value.fold.pending == []
            && next.value.fold.surface == Spliced(ending.phase.ticket, ending.phase.receipt)
  {
    hide Execute, Reached, Spliced, ObserveOne, TicketOk, TicketSummary, Offering, TransactionValid;
    ExecuteKeeps(actions);
    var sys := Execute(actions).value;
    ContinueKeeps(sys, hash);
    ValidMeansUnchanged(sys.phase.ticket, sys.fold);
    var ending := StepContinue(sys, hash).value;
    EndDelivery(ending.fold, ending.queue, ending.phase);
    assert (ending.queue + others)[0] == ending.queue[0];
  }

  // --- recovery -----------------------------------------------------------------------------

  /** A transaction whose aborts are folded leaves nothing pending. */
  lemma AbortedIsClear(actions: seq<Action>)
    requires Execute(actions).Some?
    requires var sys := Execute(actions).value; sys.phase.Aborting? && sys.phase.at < |sys.fold.seen|
    ensures Execute(actions).value.fold.pending == []
  {
    hide Execute, Reached;
    ExecuteKeeps(actions);
    QuietHasNoAborts(Execute(actions).value.queue);
  }

  lemma {:induction false} AbortsClear(f: FoldState, queue: seq<Event>)
    requires Reached(f) && Positioned(queue, |f.seen|) && AbortIds(queue) == PendingIds(f.pending)
    requires forall i :: 0 <= i < |queue| ==> queue[i].payload.CompactionAborted?
    ensures Observe(f, queue).Some?
    ensures Observe(f, queue).value.pending == [] && Observe(f, queue).value.surface == f.surface
    decreases |queue|
  {
    hide Reached, ObserveOne, Advance;
    if queue != [] {
      NextIsNew(f, queue[0]);
      FirstAbort(queue, f.pending);
      AdvanceAbort(f, queue[0]);
      ReachedAdvances(f, queue[0]);
      AbortsClear(Advance(f, queue[0]).value, queue[1..]);
    }
  }

  /** Every one of the next `n` durable events is taken when its turn comes. */
  ghost predicate Survivable(sys: Session, n: nat)
    requires n <= |sys.queue|
    decreases n
  {
    n == 0 || (Deliverable(sys) && (StepFold(sys).Some? ==> Survivable(StepFold(sys).value, n - 1)))
  }

  /** The restarted fold takes a surviving prefix exactly when it takes its events one by one. */
  lemma {:induction false} CrashDefinedFrom(sys: Session, n: nat)
    requires SessionOk(sys) && n <= |sys.queue|
    ensures StepCrash(sys, n).Some? <==> Survivable(sys, n)
    decreases n
  {
    hide SessionOk, Deliverable, ObserveOne;
    if n == 0 {
      assert sys.queue[..0] == [];
    } else {
      DeliveredFrom(sys);
      assert sys.queue[..n][0] == sys.queue[0] && sys.queue[..n][1..] == sys.queue[1..][..n - 1];
      if StepFold(sys).Some? {
        FoldKeeps(sys);
        CrashDefinedFrom(StepFold(sys).value, n - 1);
      }
    }
  }

  /**
   A crash leaves a journal whose restart succeeds exactly when every surviving event is
   taken in turn: other writers' events by their handlers, and a surviving `end` only over
   the surface its selection read. After such a crash, at any point of any run, nothing new
   is selected until every orphan is aborted; the aborts are all accepted, leave the
   surface as the crash found it, and leave nothing pending.
   */
  lemma CrashThenRecover(actions: seq<Action>, survivors: nat, hashes: seq<nat>, selection: Selection, hash: nat)
    requires Execute(actions).Some? && survivors <= |Execute(actions).value.queue|
    ensures var restarted := Execute(actions + [Crash(survivors)]);
            && (restarted.Some? <==> Survivable(Execute(actions).value, survivors))
            && (restarted.Some? ==>
                  var sys := restarted.value;
                  && (sys.fold.pending != [] ==> Step(sys, Begin(selection, hash)).None?)
                  && (sys.fold.pending != [] && |hashes| == |sys.fold.pending| ==>
                        && Step(sys, Recover(hashes)).Some?
                        && var recovering := Step(sys, Recover(hashes)).value;
                           var after := Observe(recovering.fold, recovering.queue);
                           after.Some? && after.value.pending == [] && after.value.surface == sys.fold.surface))
  {
    hide Execute, SessionOk, Survivable, Step, Observe;
    ExecuteKeeps(actions);
    CrashDefinedFrom(Execute(actions).value, survivors);
    CrashIsStep(actions, survivors);
    if Execute(actions + [Crash(survivors)]).Some? {
      RestartClears(actions, survivors, hashes, selection, hash);
    }
  }

  lemma CrashIsStep(actions: seq<Action>, survivors: nat)
    requires Execute(actions).Some?
    ensures Execute(actions + [Crash(survivors)]) == StepCrash(Execute(actions).value, survivors)
  {
    hide StepCrash;
    var crashed := actions + [Crash(survivors)];
    assert crashed[..|crashed| - 1] == actions;
  }

  lemma RestartClears(actions: seq<Action>, survivors: nat, hashes: seq<nat>, selection: Selection, hash: nat)
    requires Execute(actions + [Crash(survivors)]).Some?
    ensures var sys := Execute(actions + [Crash(survivors)]).value;
            && (sys.fold.pending != [] ==> Step(sys, Begin(selection, hash)).None?)
            && (sys.fold.pending != [] && |hashes| == |sys.fold.pending| ==>
                  && Step(sys, Recover(hashes)).Some?
                  && var recovering := Step(sys, Recover(hashes)).value;
                     var after := Observe(recovering.fold, recovering.queue);
                     after.Some? && after.value.pending == [] && after.value.surface == sys.fold.surface)
  {
    hide Execute, Reached, Observe, SelectCompaction;
    var crashed := actions + [Crash(survivors)];
    ExecuteKeeps(crashed);
    var sys := Execute(crashed).value;
    CrashIsIdle(actions, survivors);
    if sys.fold.pending != [] && |hashes| == |sys.fold.pending| {
      AbortsAreAborts(sys.fold.pending, hashes, Next(sys));
      var aborts := Aborts(sys.fold.pending, hashes, Next(sys));
      assert [] + aborts == aborts;
      AbortsClear(sys.fold, aborts);
    }
  }

  lemma CrashIsIdle(actions: seq<Action>, survivors: nat)
    requires Execute(actions + [Crash(survivors)]).Some?
    ensures var sys := Execute(actions + [Crash(survivors)]).value; sys.queue == [] && sys.phase == Idle
  {
    var crashed := actions + [Crash(survivors)];
    assert crashed[..|crashed| - 1] == actions;
  }

  // --- termination ----------------------------------------------------------------------------

  /** What one `runCompaction` is given: its selection, and the hashes its three events get. */
  datatype Turn = Turn(selection: Selection, start: nat, summary: nat, end: nat)

  /**
   One `runCompaction` on a fold that receives no other event; `None` when it is skipped.
   The last resumption finds its end folded and appends nothing.
   */
  function Round(sys: Session, turn: Turn): Option<Session> {
    var starting := Step(sys, Begin(turn.selection, turn.start));
    if starting.None? then None else Await(starting.value, [turn.summary, turn.end, turn.end])
  }

  /** Folds what was appended and resumes, once for each hash. */
  function Await(sys: Session, hashes: seq<nat>): Option<Session>
    decreases |hashes|
  {
    if hashes == [] then Some(sys)
    else
      match Step(sys, Fold)
      case None => None
      case Some(folded) =>
        match Step(folded, Continue(hashes[0]))
        case None => None
        case Some(next) => Await(next, hashes[1..])
  }

  /** A session between transactions, with everything folded. */
  ghost predicate Settled(sys: Session) {
    SessionOk(sys) && sys.phase == Idle && sys.queue == [] && sys.fold.pending == []
  }

  lemma StillValid(sys: Session, t: Ticket)
    requires TicketOk(t, sys.fold.index) && sys.fold.surface == Some(t.read)
    ensures TransactionValid(sys.fold.surface, t.c, t.selection.authored)
  {
    hide SurfaceOk, SelectCompaction, ReplacementFor, SpanMatches, ValidateSpan;
    SelectedIsLegal(t.read, sys.fold.index, t.policy, t.selection);
    SurfaceIsDistinct(t.read, sys.fold.index);
    LegalIsAccepted(t.read, t.c, 1);
  }

  /** A start, alone in the queue of a surface that has not changed, is followed by its summary. */
  lemma StartRound(sys: Session, hash: nat)
    requires SessionOk(sys) && sys.phase.Starting? && |sys.queue| == 1
    requires sys.fold.surface == Some(sys.phase.ticket.read) && sys.fold.pending == []
    ensures Step(sys, Fold).Some? && Step(Step(sys, Fold).value, Continue(hash)).Some?
    ensures var next := Step(Step(sys, Fold).value, Continue(hash)).value;
            && SessionOk(next) && |next.queue| == 1 && next.fold.surface == sys.fold.surface
            && next.phase.Summarizing? && next.phase.ticket == sys.phase.ticket
            && next.phase.receipt == Source(|sys.fold.seen| + 1, hash) && |next.fold.seen| == |sys.fold.seen| + 1
  {
    hide Reached, ObserveOne, TicketOk, TicketSummary, Offering, TransactionValid, Spliced;
    StartIsFirst(sys);
    StartDelivery(sys.fold, sys.queue, sys.phase);
    FoldKeeps(sys);
    var folded := StepFold(sys).value;
    SeenGrows(sys);
    StillValid(folded, sys.phase.ticket);
    TicketHasSummary(sys.phase.ticket, folded.fold.index);
    ContinueKeeps(folded, hash);
  }

  lemma SeenGrows(sys: Session)
    requires SessionOk(sys) && StepFold(sys).Some?
    ensures |StepFold(sys).value.fold.seen| == |sys.fold.seen| + 1
  {
    hide Reached, PhaseOk, Advance, ObserveOne;
    NextIsNew(sys.fold, sys.queue[0]);
    ReachedAdvances(sys.fold, sys.queue[0]);
  }

  lemma StartIsFirst(sys: Session)
    requires SessionOk(sys) && sys.phase.Starting? && |sys.queue| == 1 && sys.fold.pending == []
    ensures IsCompaction(sys.queue[0].payload) && sys.phase.at == |sys.fold.seen|
  {
    hide Reached, TicketOk;
  }

  lemma SummaryRound(sys: Session, hash: nat)
    requires SessionOk(sys) && sys.phase.Summarizing? && |sys.queue| == 1
    requires sys.phase.receipt.position == |sys.fold.seen|
    requires sys.fold.surface == Some(sys.phase.ticket.read)
    ensures Step(sys, Fold).Some? && Step(Step(sys, Fold).value, Continue(hash)).Some?
    ensures var next := Step(Step(sys, Fold).value, Continue(hash)).value;
            && SessionOk(next) && |next.queue| == 1 && next.fold.surface == sys.fold.surface
            && next.phase.Ending? && next.phase.ticket == sys.phase.ticket && next.phase.at == |next.fold.seen|
            && next.phase.receipt == sys.phase.receipt
  {
    hide Reached, ObserveOne, TicketOk, TicketSummary, Offering, TransactionValid, Spliced;
    SummaryDelivery(sys.fold, sys.queue, sys.phase);
    FoldKeeps(sys);
    var folded := StepFold(sys).value;
    SeenGrows(sys);
    StillValid(folded, sys.phase.ticket);
    ContinueKeeps(folded, hash);
  }

  lemma EndRound(sys: Session, hash: nat)
    requires SessionOk(sys) && sys.phase.Ending? && |sys.queue| == 1 && sys.phase.at == |sys.fold.seen|
    requires sys.fold.surface == Some(sys.phase.ticket.read)
    ensures Step(sys, Fold).Some? && Step(Step(sys, Fold).value, Continue(hash)).Some?
    ensures var next := Step(Step(sys, Fold).value, Continue(hash)).value;
            && Settled(next) && next.fold.surface.Some?
            && next.fold.surface == Spliced(sys.phase.ticket, sys.phase.receipt)
  {
    hide Reached, ObserveOne, TicketOk, TicketSummary, Offering, TransactionValid, Spliced;
    EndDelivery(sys.fold, sys.queue, sys.phase);
    FoldKeeps(sys);
    SeenGrows(sys);
    ContinueKeeps(StepFold(sys).value, hash);
  }

  lemma SplicedShrinks(t: Ticket, receipt: Source, index: Index)
    requires TicketOk(t, index) && Spliced(t, receipt).Some?
    ensures HistoryBytes(Spliced(t, receipt).value) < HistoryBytes(t.read)
  {
    hide TicketOk, HistoryBytes, ReplaceCommitted, TicketSummary, Spliced;
    var recorded := SplicedIsReplaced(t, receipt, index);
    AppliedShrinks(t.read, t.c, TicketSummary(t).value, receipt, recorded);
  }

  /** The splice is what the applier makes of the transaction once its summary is recorded. */
  lemma SplicedIsReplaced(t: Ticket, receipt: Source, index: Index) returns (recorded: Index)
    requires TicketOk(t, index) && Spliced(t, receipt).Some?
    ensures TicketSummary(t).Some?
    ensures ReplaceCommitted(t.read, t.c, TicketSummary(t).value, receipt, recorded) == Spliced(t, receipt)
  {
    hide SurfaceOk, SelectCompaction, SummaryGroup, ReplacementFor, ReplaceCommitted, LegalAt, SummaryCompletes;
    var choice := ReplacementFor(t.selection.authored, t.c.shadowBytes).value;
    recorded := index[receipt := Event(receipt, false, CompactionSummarized(SummaryFor(t.c, choice)))];
    SelectedIsLegal(t.read, index, t.policy, t.selection);
    SurfaceIsDistinct(t.read, index);
    SummaryIsComplete(t, choice, receipt, recorded);
    LegalReplaced(t.read, recorded, t.c, SummaryFor(t.c, choice), receipt, 1);
    SummaryStands(t, receipt, t.read[1].turn);
    assert t.read[..1] == [t.read[0]];
  }

  lemma SummaryIsComplete(t: Ticket, choice: Choice, receipt: Source, index: Index)
    requires receipt in index && index[receipt].payload == CompactionSummarized(SummaryFor(t.c, choice))
    requires ReplacementFor(t.selection.authored, t.c.shadowBytes) == Some(choice)
    requires AllKnown(t.c.sources, index)
    ensures SummaryCompletes(t.c, SummaryFor(t.c, choice), receipt, t.c.shadowBytes, index)
  {
    hide ReplacementFor, WireBytes;
    ReplacementFits(t.selection.authored, t.c.shadowBytes);
  }

  /** An undisturbed transaction that is not skipped is applied, and shrinks the history. */
  lemma RoundApplies(sys: Session, turn: Turn)
    requires Settled(sys) && Step(sys, Begin(turn.selection, turn.start)).Some?
    ensures Round(sys, turn).Some? && Settled(Round(sys, turn).value)
    ensures var next := Round(sys, turn).value;
            && sys.fold.surface.Some? && next.fold.surface.Some?
            && HistoryBytes(next.fold.surface.value) < HistoryBytes(sys.fold.surface.value)
  {
    hide SessionOk, Step, Await, Spliced, SelectCompaction, TicketOk, TicketSummary, HistoryBytes;
    var a := BeginRound(sys, turn.selection, turn.start);
    StartRound(a, turn.summary);
    var b := Step(Step(a, Fold).value, Continue(turn.summary)).value;
    SummaryRound(b, turn.end);
    var c := Step(Step(b, Fold).value, Continue(turn.end)).value;
    EndRound(c, turn.end);
    AwaitThree(a, [turn.summary, turn.end, turn.end]);
    SplicedShrinks(c.phase.ticket, c.phase.receipt, a.fold.index);
  }

  /** Three resumptions, each enabled, are three rounds of the loop. */
  lemma AwaitThree(a: Session, hashes: seq<nat>)
    requires |hashes| == 3
    requires Step(a, Fold).Some? && Step(Step(a, Fold).value, Continue(hashes[0])).Some?
    requires var b := Step(Step(a, Fold).value, Continue(hashes[0])).value;
             && Step(b, Fold).Some? && Step(Step(b, Fold).value, Continue(hashes[1])).Some?
             && var c := Step(Step(b, Fold).value, Continue(hashes[1])).value;
                Step(c, Fold).Some? && Step(Step(c, Fold).value, Continue(hashes[2])).Some?
    ensures var b := Step(Step(a, Fold).value, Continue(hashes[0])).value;
            var c := Step(Step(b, Fold).value, Continue(hashes[1])).value;
            Await(a, hashes) == Step(Step(c, Fold).value, Continue(hashes[2]))
  {
    hide Step;
    var b := Step(Step(a, Fold).value, Continue(hashes[0])).value;
    var c := Step(Step(b, Fold).value, Continue(hashes[1])).value;
    assert Await(a, hashes) == Await(b, hashes[1..]);
    assert Await(b, hashes[1..]) == Await(c, hashes[1..][1..]);
    assert hashes[1..][1..] == [hashes[2]] && [hashes[2]][1..] == [];
  }

  lemma BeginRound(sys: Session, selection: Selection, hash: nat) returns (a: Session)
    requires Settled(sys) && Step(sys, Begin(selection, hash)).Some?
    ensures Step(sys, Begin(selection, hash)) == Some(a)
    ensures SessionOk(a) && a.phase.Starting? && |a.queue| == 1 && a.fold == sys.fold && a.fold.pending == []
    ensures sys.fold.surface == Some(a.phase.ticket.read) && TicketOk(a.phase.ticket, a.fold.index)
  {
    hide Reached, TicketOk, SelectCompaction;
    BeginKeeps(sys, selection, hash);
    a := StepBegin(sys, selection, hash).value;
  }

  /** Undisturbed transactions one after another, each applied. */
  function Rounds(sys: Session, turns: seq<Turn>): Option<Session> {
    if turns == [] then Some(sys)
    else
      match Rounds(sys, turns[..|turns| - 1])
      case None => None
      case Some(before) => Round(before, turns[|turns| - 1])
  }

  ghost function History(sys: Session): nat {
    if sys.fold.surface.None? then 0 else HistoryBytes(sys.fold.surface.value)
  }

  /** However each one selects and hashes, no more can be applied in a row than the history has bytes. */
  lemma {:induction false} RoundsAreBounded(sys: Session, turns: seq<Turn>)
    requires Settled(sys) && Rounds(sys, turns).Some?
    ensures Settled(Rounds(sys, turns).value)
    ensures |turns| + History(Rounds(sys, turns).value) <= History(sys)
  {
    hide Settled, Step, HistoryBytes, Await;
    if turns != [] {
      var shorter, last := turns[..|turns| - 1], turns[|turns| - 1];
      RoundsAreBounded(sys, shorter);
      RoundApplies(Rounds(sys, shorter).value, last);
    }
  }

  /** The first `n` turns of an endless supply. */
  function Taken(turns: nat -> Turn, n: nat): seq<Turn> {
    if n == 0 then [] else Taken(turns, n - 1) + [turns(n - 1)]
  }

  /**
   Repeating compaction on an undisturbed fold reaches `skipped`, whatever hashes its
   events get and however each round selects; a forced selection repeated is one case.
   */
  lemma {:induction false} EventuallySkipped(sys: Session, turns: nat -> Turn) returns (rounds: nat)
    requires Settled(sys)
    ensures rounds <= History(sys)
    ensures var last := Rounds(sys, Taken(turns, rounds));
            && last.Some? && Settled(last.value)
            && forall hash :: Step(last.value, Begin(turns(rounds).selection, hash)).None?
  {
    hide Settled, Step, HistoryBytes, Await, Round;
    rounds := 0;
    var last, done := sys, [];
    while Step(last, Begin(turns(rounds).selection, turns(rounds).start)).Some?
      invariant done == Taken(turns, rounds)
      invariant Rounds(sys, done) == Some(last) && Settled(last)
      invariant rounds + History(last) <= History(sys)
      decreases History(last)
    {
      var turn := turns(rounds);
      RoundApplies(last, turn);
      var longer := done + [turn];
      assert longer[..|longer| - 1] == done;
      last, done, rounds := Round(last, turn).value, longer, rounds + 1;
    }
    SkippedWhateverHash(last, turns(rounds).selection, turns(rounds).start);
  }

  /** Whether a compaction is skipped does not depend on the hash its start would get. */
  lemma SkippedWhateverHash(sys: Session, selection: Selection, hash: nat)
    requires Step(sys, Begin(selection, hash)).None?
    ensures forall other :: Step(sys, Begin(selection, other)).None?
  {
    hide SelectCompaction;
  }
}
