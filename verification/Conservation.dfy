/**
 Where every assistant message, tool call and tool result is: in the open turn, on the
 surface, waiting for recovery, removed by an applied compaction, or dropped by an
 ignorable successful closer. Each handler keeps the state's parts and moves receipts
 between these places without losing or copying one.
 */
module Conservation {
  import opened Wrappers
  import opened Contracts
  import opened Events
  import opened Groups
  import opened Surfaces
  import opened FoldSteps
  import opened FoldInvariant

  // --- the places -----------------------------------------------------------------

  /** The receipts a dialogue group cites; every other group is counted elsewhere. */
  ghost function GroupReceipts(g: SurfaceGroup): multiset<Source> {
    if g.kind == Dialogue then multiset(g.sources) else multiset{}
  }

  ghost function DialogueReceipts(groups: seq<SurfaceGroup>): multiset<Source> {
    if groups == [] then multiset{}
    else GroupReceipts(groups[0]) + DialogueReceipts(groups[1..])
  }

  /** Everything an exchange has gathered: its assistant message, its calls, its results. */
  ghost function Gathered(x: Exchange): multiset<Source> {
    multiset{x.source} + multiset(CallSources(x.calls)) + multiset(ResultSources(x.results))
  }

  ghost function Receipts(x: Option<Exchange>): multiset<Source> {
    if x.None? then multiset{} else Gathered(x.value)
  }

  ghost function OpenReceipts(dialogues: seq<Buffer>): multiset<Source> {
    if dialogues == [] then multiset{}
    else OpenReceipts(dialogues[..|dialogues| - 1]) + Receipts(dialogues[|dialogues| - 1].exchange)
  }

  ghost function ExchangeReceipts(xs: seq<Exchange>): multiset<Source> {
    if xs == [] then multiset{} else ExchangeReceipts(xs[..|xs| - 1]) + Gathered(xs[|xs| - 1])
  }

  ghost function RecoveryReceipts(recovery: seq<RecoveryEntry>): multiset<Source> {
    if recovery == [] then multiset{}
    else RecoveryReceipts(recovery[..|recovery| - 1]) + Gathered(recovery[|recovery| - 1].exchange)
  }

  ghost function InOpen(open: Option<OpenTurn>): multiset<Source> {
    if open.None? then multiset{} else OpenReceipts(open.value.dialogues)
  }

  ghost function OnSurface(surface: Option<seq<SurfaceGroup>>): multiset<Source> {
    if surface.None? then multiset{} else DialogueReceipts(surface.value)
  }

  /** The receipts of dialogues that the state still holds. */
  ghost function Held(s: FoldState): multiset<Source> {
    InOpen(s.open) + RecoveryReceipts(s.recovery) + OnSurface(s.surface)
  }

  ghost predicate Once(m: multiset<Source>) {
    forall x :: m[x] <= 1
  }

  ghost function AddedBy(e: Event): multiset<Source> {
    if e.payload.AssistantMessage? || e.payload.ToolCalled? || e.payload.ToolResult? then multiset{e.source}
    else multiset{}
  }

  /** The dialogues of the span a completed compaction removes. */
  ghost function RemovedBy(s: FoldState, e: Event): multiset<Source> {
    if !e.payload.CompactionEnded? || s.surface.None? then multiset{}
    else
      var at := FindPending(s.pending, e.payload.id);
      if at == |s.pending| then multiset{}
      else
        var v := ValidateSpan(s.surface.value, s.pending[at]);
        LegalBounds(s.surface.value, s.pending[at]);
        if v.Refused? then multiset{} else DialogueReceipts(s.surface.value[v.first..v.first + v.length])
  }

  /** An ignorable successful closer commits none of its turn's dialogues. */
  ghost function DroppedBy(s: FoldState, e: Event): multiset<Source> {
    if e.payload.TurnEnd? && (e.payload.outcome == Chained || e.payload.outcome == Waiting) && e.ignorable
    then InOpen(s.open)
    else multiset{}
  }

  lemma {:induction false} DialogueReceiptsConcat(a: seq<SurfaceGroup>, b: seq<SurfaceGroup>)
    ensures DialogueReceipts(a + b) == DialogueReceipts(a) + DialogueReceipts(b)
  {
    if a == [] {
      assert a + b == b;
    } else {
      assert (a + b)[1..] == a[1..] + b;
      DialogueReceiptsConcat(a[1..], b);
    }
  }

  lemma OneDialogue(g: SurfaceGroup)
    ensures DialogueReceipts([g]) == GroupReceipts(g)
  {
    assert [g][1..] == [];
  }

  lemma {:induction false} OpenReceiptsUpdate(dialogues: seq<Buffer>, at: nat, buffer: Buffer)
    requires at < |dialogues|
    ensures OpenReceipts(dialogues[at := buffer]) + Receipts(dialogues[at].exchange)
         == OpenReceipts(dialogues) + Receipts(buffer.exchange)
  {
    hide OpenReceipts, Receipts;
    var last := |dialogues| - 1;
    var shorter, updated := dialogues[..last], dialogues[at := buffer];
    OpenReceiptsLast(dialogues, shorter, dialogues[last]);
    OpenReceiptsLast(updated, updated[..last], updated[last]);
    var before, mine := OpenReceipts(shorter), Receipts(buffer.exchange);
    if at < last {
      OpenReceiptsUpdate(shorter, at, buffer);
      assert updated[..last] == shorter[at := buffer];
      assert shorter[at] == dialogues[at];
      Swapped(OpenReceipts(shorter[at := buffer]), before, Receipts(dialogues[at].exchange), mine,
              Receipts(dialogues[last].exchange));
    } else {
      assert updated[..last] == shorter;
      assert before + mine + Receipts(dialogues[at].exchange) == before + Receipts(dialogues[at].exchange) + mine;
    }
  }

  lemma Swapped(a: multiset<Source>, b: multiset<Source>, x: multiset<Source>, y: multiset<Source>, more: multiset<Source>)
    requires a + x == b + y
    ensures (a + more) + x == (b + more) + y
  {
    assert (a + more) + x == (a + x) + more;
    assert (b + more) + y == (b + y) + more;
  }

  lemma OpenReceiptsLast(dialogues: seq<Buffer>, shorter: seq<Buffer>, last: Buffer)
    requires dialogues != [] && shorter == dialogues[..|dialogues| - 1] && last == dialogues[|dialogues| - 1]
    ensures OpenReceipts(dialogues) == OpenReceipts(shorter) + Receipts(last.exchange)
  {
  }

  /** Storing a buffer replaces what its request held before. */
  lemma PutMoves(dialogues: seq<Buffer>, buffer: Buffer)
    ensures OpenReceipts(PutBuffer(dialogues, buffer)) + Receipts(BufferOf(dialogues, buffer.request).exchange)
         == OpenReceipts(dialogues) + Receipts(buffer.exchange)
  {
    hide OpenReceipts, Gathered;
    var at := FindBuffer(dialogues, buffer.request);
    if at < |dialogues| {
      OpenReceiptsUpdate(dialogues, at, buffer);
    } else {
      assert (dialogues + [buffer])[..|dialogues|] == dialogues;
      OpenReceiptsLast(dialogues + [buffer], dialogues, buffer);
    }
  }

  lemma {:induction false} RecoveryReceiptsConcat(a: seq<RecoveryEntry>, b: seq<RecoveryEntry>)
    ensures RecoveryReceipts(a + b) == RecoveryReceipts(a) + RecoveryReceipts(b)
  {
    if b == [] {
      assert a + b == a;
    } else {
      hide Gathered;
      var last := |b| - 1;
      assert (a + b)[..|a + b| - 1] == a + b[..last];
      RecoveryReceiptsConcat(a, b[..last]);
    }
  }

  lemma OneRecovery(r: RecoveryEntry)
    ensures RecoveryReceipts([r]) == Gathered(r.exchange)
  {
    hide Gathered;
    assert [r][..0] == [];
  }

  lemma RecoverySplit(recovery: seq<RecoveryEntry>, at: nat)
    requires at < |recovery|
    ensures RecoveryReceipts(recovery)
         == RecoveryReceipts(recovery[..at]) + Gathered(recovery[at].exchange) + RecoveryReceipts(recovery[at + 1..])
  {
    hide RecoveryReceipts, Gathered;
    assert recovery == recovery[..at] + [recovery[at]] + recovery[at + 1..];
    RecoveryReceiptsConcat(recovery[..at] + [recovery[at]], recovery[at + 1..]);
    RecoveryReceiptsConcat(recovery[..at], [recovery[at]]);
    OneRecovery(recovery[at]);
  }

  lemma KindOf(g: SurfaceGroup, index: Index)
    requires GroupOk(g, index) && index[g.id].payload.AssistantMessage?
    ensures g.kind == Dialogue && g.id in GroupReceipts(g)
  {
    hide Attested;
  }

  /** A receipt of an assistant message that names a group names a dialogue. */
  lemma {:induction false} AssistantGroupIsDialogue(groups: seq<SurfaceGroup>, index: Index, x: Source)
    requires forall i :: 0 <= i < |groups| ==> GroupOk(groups[i], index)
    requires x in Ids(groups) && x in index && index[x].payload.AssistantMessage?
    ensures x in DialogueReceipts(groups)
  {
    hide GroupOk, GroupReceipts;
    if groups[0].id == x {
      assert GroupOk(groups[0], index);
      KindOf(groups[0], index);
    } else {
      var i :| 0 <= i < |groups| && Ids(groups)[i] == x;
      assert Ids(groups[1..])[i - 1] == x;
      AssistantGroupIsDialogue(groups[1..], index, x);
    }
  }

  // --- appending one group -----------------------------------------------------------

  lemma AppendedSurface(groups: seq<SurfaceGroup>, g: SurfaceGroup, index: Index)
    requires SurfaceOk(groups, index) && AppendGroup(groups, g, index).Some?
    requires Ordered(g.sources) && IsBalanced(g) && AllKnown(g.sources, index) && Attested(g, index)
    ensures AppendGroup(groups, g, index) == Some(groups + [g])
    ensures SurfaceOk(groups + [g], index)
    ensures DialogueReceipts(groups + [g])
         == DialogueReceipts(groups) + GroupReceipts(g)
  {
    hide IsBalanced, SurfaceOk, Attested;
    AppendKeepsSurface(groups, g, index);
    DialogueReceiptsConcat(groups, [g]);
    OneDialogue(g);
  }

  /** A group that is neither a perception nor a summary uses none of the receipts kept for those. */
  lemma AppendedIds(s: FoldState, g: SurfaceGroup)
    requires Parts(s) && s.surface.Some?
    requires AppendGroup(s.surface.value, g, s.index).Some?
    requires g.kind != Perception && g.kind != Summary
    ensures OpenOk(s.open, s.index, Ids(s.surface.value + [g]))
    ensures SummariesOk(s.summaries, s.pending, s.index, Ids(s.surface.value + [g]))
  {
    hide IsBalanced, SurfaceOk, RecoveryOk, PendingOk, ExchangeOk, Attested;
    var ids := Ids(s.surface.value + [g]);
    assert ids == Ids(s.surface.value) + [g.id];
  }
}
