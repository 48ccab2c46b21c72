/**
 What `runCompaction` answers: when it begins, what it appends after each await, and
 what an undisturbed one leaves on the surface.
 */
module TransactionAnswers {
  import opened Wrappers
  import opened Contracts
  import opened Events
  import opened Groups
  import opened Surfaces
  import opened Compaction
  import opened FoldSteps
  import opened FoldInvariant
  import opened Transaction
  import opened TransactionRuns

  /** The configured policy selects the oldest `k` groups of the folded surface. */
  ghost predicate Selects(f: FoldState, selection: Selection, k: nat) {
    f.surface.Some? && f.config.Some? && Takes(f.surface.value, f.config.value.value.policy, selection, k)
  }

  /** The one event a step appended, at the next free position. */
  ghost predicate Appends(before: Session, after: Session, hash: nat, p: Payload) {
    && after.fold == before.fold
    && after.queue == before.queue + [Event(Source(|before.fold.seen| + |before.queue|, hash), false, p)]
  }

  /** `p` is the start of a candidate that names, cites and measures the oldest `k` groups. */
  ghost predicate StartsWith(p: Payload, groups: seq<SurfaceGroup>, k: nat) {
    && 1 + k <= |groups| && p.CompactionStarted?
    && var c, span := p.start, groups[1..1 + k];
       && c.groupIds == Ids(span) && c.sources == SortUnique(AllCitations(span))
       && c.shadowBytes == WireBytes(AllMessages(span)) && c.shadowHash == OfMessages(AllMessages(span))
       && c.revision == OfSurface(groups) && c.id == Identity(c)
  }

  lemma SurfaceOfReached(f: FoldState)
    requires Reached(f) && f.surface.Some?
    ensures SurfaceOk(f.surface.value, f.index)
  {
    hide SurfaceOk, Reached;
    ReachedParts(f);
  }

  /**
   Between transactions one begins exactly when no earlier one is left open and the policy
   selects something; its start is then of exactly that selection.
   */
  lemma BeginIff(actions: seq<Action>, selection: Selection, hash: nat)
    requires Execute(actions).Some? && Execute(actions).value.phase == Idle
    ensures var sys := Execute(actions).value; var next := Step(sys, Begin(selection, hash));
            && (next.Some? <==> sys.fold.pending == [] && exists k :: Selects(sys.fold, selection, k))
            && (next.Some? ==> forall k :: Selects(sys.fold, selection, k) ==>
                  exists p :: Appends(sys, next.value, hash, p) && StartsWith(p, sys.fold.surface.value, k))
  {
    hide Execute, SessionOk, Step;
    ExecuteKeeps(actions);
    BeginFrom(Execute(actions).value, selection, hash);
  }

  lemma BeginFrom(sys: Session, selection: Selection, hash: nat)
    requires SessionOk(sys) && sys.phase == Idle
    ensures var next := Step(sys, Begin(selection, hash));
            && (next.Some? <==> sys.fold.pending == [] && exists k :: Selects(sys.fold, selection, k))
            && (next.Some? ==> forall k :: Selects(sys.fold, selection, k) ==>
                  exists p :: Appends(sys, next.value, hash, p) && StartsWith(p, sys.fold.surface.value, k))
  {
    hide Reached, Takes, SelectCompaction, SurfaceOk, Identity, WireBytes, AllMessages, SortUnique, AllCitations;
    if sys.fold.surface.Some? && sys.fold.config.Some? {
      var groups, policy := sys.fold.surface.value, sys.fold.config.value.value.policy;
      SurfaceOfReached(sys.fold);
      SelectedIff(groups, sys.fold.index, policy, selection);
      if exists k :: Takes(groups, policy, selection, k) {
        var k :| Takes(groups, policy, selection, k);
        assert Selects(sys.fold, selection, k);
      }
      var next := Step(sys, Begin(selection, hash));
      if next.Some? {
        var p := CompactionStarted(SelectCompaction(groups, policy, selection).value);
        forall k | Selects(sys.fold, selection, k)
          ensures Appends(sys, next.value, hash, p) && StartsWith(p, groups, k)
        {
          TakesWithin(groups, policy, selection, k);
        }
      }
    }
  }

  lemma TakesWithin(groups: seq<SurfaceGroup>, policy: Policy, selection: Selection, k: nat)
    requires Takes(groups, policy, selection, k)
    ensures 0 < k && 1 + k <= |groups|
  {
    hide WireBytes, Fits, Replaceable;
  }

  /** What the summary records of the pending text: applied, too large for the span, or none pending. */
  ghost function Told(authored: Option<string>, bytes: nat): Replacement {
    if authored.None? then NoPending
    else if WireBytes([User(AUTHORED_FRAME + authored.value)]) < bytes then AuthoredApplied
    else AuthoredTooLarge
  }

  /** The summary offered: its candidate's id and receipts, the text that will stand, what became of the pending one. */
  ghost predicate Offers(p: Payload, t: Ticket) {
    && p.CompactionSummarized?
    && p.summary.id == t.c.id && p.summary.sources == t.c.sources
    && p.summary.text == Standing(t.selection.authored, t.c.shadowBytes)
    && p.summary.replacementBytes == WireBytes([User(p.summary.text)])
    && p.summary.replacement == Some(Told(t.selection.authored, t.c.shadowBytes))
  }

  /**
   Once its last event is folded, a transaction goes on exactly when the surface is still
   the one it read: after its start with the summary, after its summary with the end that
   names it. Otherwise it appends the abort of its candidate.
   */
  lemma ResumesIff(actions: seq<Action>, hash: nat)
    requires Execute(actions).Some?
    requires var sys := Execute(actions).value;
             || (sys.phase.Starting? && sys.phase.at < |sys.fold.seen|)
             || (sys.phase.Summarizing? && sys.phase.receipt.position < |sys.fold.seen|)
    ensures var sys := Execute(actions).value; var next := Step(sys, Continue(hash));
            && next.Some?
            && if sys.fold.surface != Some(sys.phase.ticket.read) then
                 Appends(sys, next.value, hash, CompactionAborted(sys.phase.ticket.c.id)) && next.value.phase.Aborting?
               else if sys.phase.Starting? then
                 exists p :: Appends(sys, next.value, hash, p) && Offers(p, sys.phase.ticket)
               else
                 Appends(sys, next.value, hash, CompactionEnded(sys.phase.ticket.c.id, sys.phase.receipt))
  {
    hide Execute, SessionOk, Step;
    ExecuteKeeps(actions);
    ResumesFrom(Execute(actions).value, hash);
  }

  lemma ResumesFrom(sys: Session, hash: nat)
    requires SessionOk(sys)
    requires || (sys.phase.Starting? && sys.phase.at < |sys.fold.seen|)
             || (sys.phase.Summarizing? && sys.phase.receipt.position < |sys.fold.seen|)
    ensures var next := Step(sys, Continue(hash));
            && next.Some?
            && if sys.fold.surface != Some(sys.phase.ticket.read) then
                 Appends(sys, next.value, hash, CompactionAborted(sys.phase.ticket.c.id)) && next.value.phase.Aborting?
               else if sys.phase.Starting? then
                 exists p :: Appends(sys, next.value, hash, p) && Offers(p, sys.phase.ticket)
               else
                 Appends(sys, next.value, hash, CompactionEnded(sys.phase.ticket.c.id, sys.phase.receipt))
  {
    hide Reached, TicketOk, Offering, TransactionValid, TicketSummary, Offers;
    var t := sys.phase.ticket;
    TicketHasSummary(t, sys.fold.index);
    if sys.fold.surface == Some(t.read) {
      StillValid(sys, t);
      SummaryOffers(t);
      assert sys.phase.Starting? ==>
          Appends(sys, Step(sys, Continue(hash)).value, hash, CompactionSummarized(TicketSummary(t).value));
    } else if TransactionValid(sys.fold.surface, t.c, t.selection.authored) {
      ValidMeansUnchanged(t, sys.fold);
    }
  }

  lemma SummaryOffers(t: Ticket)
    requires TicketSummary(t).Some?
    ensures Offers(CompactionSummarized(TicketSummary(t).value), t)
  {
    hide WireBytes;
  }

  /** The oldest `k` groups are replaced: what is left is the heading, one summary that cites them, the rest. */
  ghost predicate Compacted(
    before: FoldState, authored: Option<string>, receipt: Source, k: nat, after: FoldState)
  {
    && before.surface.Some?
    && var groups := before.surface.value;
       && 0 < k && 1 + k <= |groups|
       && after.surface == Some(
            [groups[0]]
            + [SurfaceGroup(receipt, Summary, groups[1].turn,
                            [User(Standing(authored, WireBytes(AllMessages(groups[1..1 + k]))))],
                            SortUnique([receipt] + SortUnique(AllCitations(groups[1..1 + k]))))]
            + groups[1 + k..])
  }

  /** The receipt an undisturbed transaction's summary gets: it is the second of its three events. */
  ghost function SummaryReceipt(sys: Session, turn: Turn): Source {
    Source(|sys.fold.seen| + 1, turn.summary)
  }

  /**
   An undisturbed transaction in full: it is applied exactly when the policy selects
   something, and then the selected groups are replaced and nothing else changes.
   */
  lemma RoundIff(sys: Session, turn: Turn)
    requires Settled(sys)
    ensures Round(sys, turn).Some? <==> exists k :: Selects(sys.fold, turn.selection, k)
    ensures Round(sys, turn).Some? ==>
              forall k :: Selects(sys.fold, turn.selection, k) ==>
                Compacted(sys.fold, turn.selection.authored, SummaryReceipt(sys, turn), k, Round(sys, turn).value.fold)
  {
    hide SessionOk, Step, Await, Selects, Compacted, StartsWith, SummaryReceipt;
    BeginFrom(sys, turn.selection, turn.start);
    if Step(sys, Begin(turn.selection, turn.start)).Some? {
      RoundApplies(sys, turn);
      forall k: nat | Selects(sys.fold, turn.selection, k)
        ensures Compacted(sys.fold, turn.selection.authored, SummaryReceipt(sys, turn), k, Round(sys, turn).value.fold)
      {
        RoundCompacts(sys, turn, k);
      }
    }
  }

  lemma RoundCompacts(sys: Session, turn: Turn, k: nat)
    requires Settled(sys) && Step(sys, Begin(turn.selection, turn.start)).Some? && Round(sys, turn).Some?
    requires Selects(sys.fold, turn.selection, k)
    ensures Compacted(sys.fold, turn.selection.authored, SummaryReceipt(sys, turn), k, Round(sys, turn).value.fold)
  {
    hide SessionOk, Step, Await, Spliced, TicketOk, TicketSummary, Selects, Compacted;
    var a := BeginRound(sys, turn.selection, turn.start);
    StartRound(a, turn.summary);
    var b := Step(Step(a, Fold).value, Continue(turn.summary)).value;
    SummaryRound(b, turn.end);
    var c := Step(Step(b, Fold).value, Continue(turn.end)).value;
    EndRound(c, turn.end);
    AwaitThree(a, [turn.summary, turn.end, turn.end]);
    TicketOfBegin(sys, turn);
    SplicedIsCompacted(a.phase.ticket, sys.fold, turn.selection, c.phase.receipt, k, Round(sys, turn).value.fold);
  }

  lemma TicketOfBegin(sys: Session, turn: Turn)
    requires SessionOk(sys) && Step(sys, Begin(turn.selection, turn.start)).Some?
    ensures var a := Step(sys, Begin(turn.selection, turn.start)).value;
            && sys.fold.surface.Some? && sys.fold.config.Some?
            && a.phase.Starting? && a.phase.ticket.read == sys.fold.surface.value
            && a.phase.ticket.policy == sys.fold.config.value.value.policy && a.phase.ticket.selection == turn.selection
  {
    hide SelectCompaction, SessionOk;
  }

  lemma SplicedIsCompacted(t: Ticket, f: FoldState, selection: Selection, receipt: Source, k: nat, after: FoldState)
    requires TicketOk(t, f.index) && f.surface == Some(t.read) && f.config.Some?
    requires t.policy == f.config.value.value.policy && t.selection == selection
    requires after.surface.Some? && after.surface == Spliced(t, receipt) && Selects(f, selection, k)
    ensures Compacted(f, selection.authored, receipt, k, after)
  {
    hide SurfaceOk, SelectCompaction, TicketSummary, WireBytes, AllMessages, SortUnique, AllCitations, Standing, Takes;
    TakesWithin(t.read, t.policy, selection, k);
    SelectedIff(t.read, f.index, t.policy, selection);
  }
}
