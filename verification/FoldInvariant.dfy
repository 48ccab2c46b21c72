/**
 What every reachable fold state keeps: a well-formed surface, exchanges backed by
 their receipts, recovery entries that still miss a call, and compactions whose
 receipts resolve. The parts are stated separately so each handler proves only
 what it touches.
 */
module FoldInvariant {
  import opened Wrappers
  import opened Contracts
  import opened Events
  import opened Finite
  import opened Groups
  import opened Surfaces
  import opened FoldSteps

  // --- the parts ------------------------------------------------------------------

  /** A call receipt: observed, of this request, for a call the assistant message advertised. */
  ghost predicate CallOk(r: CallReceipt, x: Exchange, request: RequestId, index: Index) {
    && r.source in index && index[r.source].payload.ToolCalled?
    && var p := index[r.source].payload;
       p.request == request && p.call in x.advertised && p.call.id == r.callId
  }

  /** A result: observed, of this request, for an advertised call, with the message it recorded. */
  ghost predicate ResultOk(r: ResultEntry, x: Exchange, request: RequestId, index: Index) {
    && r.source in index && index[r.source].payload.ToolResult?
    && var p := index[r.source].payload;
       && p.request == request && p.callId == r.callId && p.message == r.message && p.synthetic == r.synthetic
       && Advertises(x, r.callId) && r.message.Tool? && r.message.toolCallId == r.callId
       && (!r.synthetic ==> HasCall(x, r.callId))
  }

  /** No call and no result twice. */
  ghost predicate ReceiptsApart(x: Exchange) {
    && (forall i, j :: 0 <= i < j < |x.calls| ==> x.calls[i].callId != x.calls[j].callId)
    && (forall i, j :: 0 <= i < j < |x.results| ==> x.results[i].callId != x.results[j].callId)
  }

  /** An exchange carries its recorded assistant message, and receipts of that message's calls. */
  ghost predicate ExchangeOk(x: Exchange, request: RequestId, index: Index) {
    && x.source in index && index[x.source].payload == AssistantMessage(request, x.text, x.advertised)
    && DistinctCalls(x.advertised) && ReceiptsApart(x)
    && (forall i :: 0 <= i < |x.calls| ==> CallOk(x.calls[i], x, request, index))
    && (forall i :: 0 <= i < |x.results| ==> ResultOk(x.results[i], x, request, index))
  }

  ghost predicate BufferOk(b: Buffer, turn: nat, index: Index) {
    b.exchange.Some? ==> b.request.turn == turn && ExchangeOk(b.exchange.value, b.request, index)
  }

  ghost predicate DialoguesOk(dialogues: seq<Buffer>, turn: nat, index: Index) {
    forall i :: 0 <= i < |dialogues| ==> BufferOk(dialogues[i], turn, index)
  }

  ghost predicate PerceptionOk(perception: Option<SurfaceGroup>, index: Index, ids: seq<Source>) {
    perception.Some? ==>
      && perception.value.kind == Perception && IsBalanced(perception.value)
      && GroupOk(perception.value, index) && perception.value.id !in ids
  }

  ghost predicate OpenOk(open: Option<OpenTurn>, index: Index, ids: seq<Source>) {
    open.Some? ==>
      && DialoguesOk(open.value.dialogues, open.value.turn, index)
      && PerceptionOk(open.value.perception, index, ids)
  }

  ghost predicate EntryOk(r: RecoveryEntry, index: Index) {
    r.request.turn == r.turn && ExchangeOk(r.exchange, r.request, index)
  }

  ghost predicate RecoveryOk(recovery: seq<RecoveryEntry>, index: Index) {
    forall i :: 0 <= i < |recovery| ==> EntryOk(recovery[i], index) && !IsComplete(recovery[i].exchange)
  }

  ghost predicate PendingOk(pending: seq<CompactionStart>, index: Index) {
    && (forall i, j :: 0 <= i < j < |pending| ==> pending[i].id != pending[j].id)
    && (forall i :: 0 <= i < |pending| ==>
          AllKnown(pending[i].sources, index) && AllKnown(pending[i].groupIds, index))
  }

  /** Each offered summary is a recorded receipt of a pending start that no group has used. */
  ghost predicate SummariesOk(
    summaries: map<Digest, Offered>, pending: seq<CompactionStart>, index: Index, ids: seq<Source>)
  {
    forall id :: id in summaries ==>
      && summaries[id].source in index
      && index[summaries[id].source].payload == CompactionSummarized(summaries[id].summary)
      && summaries[id].summary.id == id
      && summaries[id].source !in ids
      && FindPending(pending, id) < |pending|
  }

  function SurfaceIds(surface: Option<seq<SurfaceGroup>>): seq<Source> {
    if surface.None? then [] else Ids(surface.value)
  }

  ghost predicate CommittedOk(surface: Option<seq<SurfaceGroup>>, index: Index) {
    surface.Some? ==> SurfaceOk(surface.value, index)
  }

  ghost predicate Parts(s: FoldState) {
    && CommittedOk(s.surface, s.index)
    && OpenOk(s.open, s.index, SurfaceIds(s.surface))
    && RecoveryOk(s.recovery, s.index)
    && PendingOk(s.pending, s.index)
    && SummariesOk(s.summaries, s.pending, s.index, SurfaceIds(s.surface))
    && (s.config.Some? <==> s.surface.Some?)
    && (s.pending != [] ==> s.surface.Some?)
  }

  /** The index and the watermark describe exactly the observed prefix, in order. */
  ghost predicate IndexOk(seen: seq<Event>, index: Index) {
    && (forall i :: 0 <= i < |seen| ==>
          seen[i].source.position == i && seen[i].source in index && index[seen[i].source] == seen[i])
    && (forall k :: k in index ==> k.position < |seen| && seen[k.position].source == k)
  }

  // --- the index grows ---------------------------------------------------------------

  lemma ExchangeExtends(x: Exchange, request: RequestId, smaller: Index, larger: Index)
    requires ExchangeOk(x, request, smaller) && Extends(larger, smaller)
    ensures ExchangeOk(x, request, larger)
  {
    hide HasCall, Advertises, ReceiptsApart, DistinctCalls;
    forall i | 0 <= i < |x.calls| ensures CallOk(x.calls[i], x, request, larger) {
      assert CallOk(x.calls[i], x, request, smaller);
    }
    forall i | 0 <= i < |x.results| ensures ResultOk(x.results[i], x, request, larger) {
      assert ResultOk(x.results[i], x, request, smaller);
    }
  }

  lemma OpenExtends(open: Option<OpenTurn>, smaller: Index, larger: Index, ids: seq<Source>)
    requires OpenOk(open, smaller, ids) && Extends(larger, smaller)
    ensures OpenOk(open, larger, ids)
  {
    hide ExchangeOk, IsBalanced, Attested;
    if open.Some? {
      var dialogues, turn := open.value.dialogues, open.value.turn;
      forall i | 0 <= i < |dialogues| ensures BufferOk(dialogues[i], turn, larger) {
        assert BufferOk(dialogues[i], turn, smaller);
        if dialogues[i].exchange.Some? {
          ExchangeExtends(dialogues[i].exchange.value, dialogues[i].request, smaller, larger);
        }
      }
      if open.value.perception.Some? {
        AttestedExtends(open.value.perception.value, smaller, larger);
      }
    }
  }

  lemma RecoveryExtends(recovery: seq<RecoveryEntry>, smaller: Index, larger: Index)
    requires RecoveryOk(recovery, smaller) && Extends(larger, smaller)
    ensures RecoveryOk(recovery, larger)
  {
    hide ExchangeOk, IsComplete;
    forall i | 0 <= i < |recovery| ensures EntryOk(recovery[i], larger) {
      assert EntryOk(recovery[i], smaller);
      ExchangeExtends(recovery[i].exchange, recovery[i].request, smaller, larger);
    }
  }

  lemma PartsExtend(s: FoldState, larger: Index)
    requires Parts(s) && Extends(larger, s.index)
    ensures Parts(s.(index := larger))
  {
    hide SurfaceOk, OpenOk, RecoveryOk;
    if s.surface.Some? {
      SurfaceOkExtends(s.surface.value, s.index, larger);
    }
    OpenExtends(s.open, s.index, larger, SurfaceIds(s.surface));
    RecoveryExtends(s.recovery, s.index, larger);
  }

  /** A receipt of the next position is in no part of the state. */
  ghost predicate Fresh(s: FoldState, source: Source) {
    && source !in SurfaceIds(s.surface)
    && (forall id :: id in s.summaries ==> s.summaries[id].source != source)
  }

  lemma NextIsFresh(s: FoldState, source: Source)
    requires Parts(s) && IndexOk(s.seen, s.index) && source.position == |s.seen|
    ensures Fresh(s, source) && source !in s.index
  {
    hide IsBalanced, ReceiptMatches, OpenOk, RecoveryOk, PendingOk, Attested;
    if s.surface.Some? {
      var groups := s.surface.value;
      forall i | 0 <= i < |groups| ensures groups[i].id != source {
        assert GroupOk(groups[i], s.index);
      }
    }
  }

  lemma IndexAdvances(seen: seq<Event>, index: Index, e: Event)
    requires IndexOk(seen, index) && e.source.position == |seen|
    ensures IndexOk(seen + [e], index[e.source := e])
    ensures Extends(index[e.source := e], index)
  {
  }
}
