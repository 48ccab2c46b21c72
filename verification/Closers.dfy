/**
 How dialogues reach the surface: a closer that commits its turn, a recovery result
 that completes an interrupted exchange, and the one-line facts beside them. No
 append of a validated turn can fail, so a close is all or nothing.
 */
module Closers {
  import opened Wrappers
  import opened Contracts
  import opened Events
  import opened Finite
  import opened Groups
  import opened Surfaces
  import opened FoldSteps
  import opened FoldInvariant
  import opened Conservation
  import opened Handlers

  // --- a complete exchange makes a well-formed group ------------------------------------

  lemma ResultAnswers(x: Exchange, request: RequestId, index: Index, i: nat)
    requires ExchangeOk(x, request, index) && IsComplete(x) && i < |x.advertised|
    ensures Answers(ResultMessages(x)[i], x.advertised[i])
    ensures ResultAttested(ExchangeSources(x), index, x.advertised[i], ResultMessages(x)[i])
  {
    hide DistinctCalls, ReceiptsApart, Advertises, HasCall;
    assert HasResult(x, x.advertised[i].id);
    var r := ResultFor(x.results, x.advertised[i].id);
    var j :| 0 <= j < |x.results| && x.results[j] == r;
    assert ResultOk(x.results[j], x, request, index);
    assert ResultSources(x.results)[j] == r.source;
    assert r.source in ResultSources(x.results);
    assert r.source in [x.source] + CallSources(x.calls) + ResultSources(x.results);
    assert r.source in ExchangeSources(x);
  }

  lemma DialogueGroupOk(x: Exchange, request: RequestId, turn: nat, index: Index)
    requires ExchangeOk(x, request, index) && IsComplete(x) && request.turn == turn
    ensures GroupOk(DialogueGroup(x, turn), index)
    ensures IsBalanced(DialogueGroup(x, turn))
  {
    hide ExchangeOk, ExchangeSources, ResultMessages, ResultAttested, Belongs, Apart, Answers;
    var g := DialogueGroup(x, turn);
    forall i | 0 <= i < |x.advertised|
      ensures Answers(g.messages[i + 1], x.advertised[i])
      ensures ResultAttested(g.sources, index, x.advertised[i], g.messages[i + 1])
    {
      ResultAnswers(x, request, index, i);
    }
    ExchangeSourcesKnown(x, request, index);
    SourcesBelong(x, request, index);
    SourcesApart(x, request, index);
    ResultsAreCalled(x, request, index);
    assert index[x.source].payload == AssistantMessage(request, x.text, x.advertised) by { ExchangeIsOf(x, request, index); }
  }

  lemma ExchangeIsOf(x: Exchange, request: RequestId, index: Index)
    requires ExchangeOk(x, request, index)
    ensures x.source in index && index[x.source].payload == AssistantMessage(request, x.text, x.advertised)
  {
  }

  /** What a receipt of an exchange is: its assistant message, one of its calls, or one of its results. */
  lemma SourceIs(x: Exchange, s: Source) returns (call: bool, i: nat)
    requires s in ExchangeSources(x) && s != x.source
    ensures if call then i < |x.calls| && x.calls[i].source == s else i < |x.results| && x.results[i].source == s
  {
    assert s in [x.source] + CallSources(x.calls) + ResultSources(x.results);
    if s in CallSources(x.calls) {
      call := true;
      i :| 0 <= i < |x.calls| && CallSources(x.calls)[i] == s;
    } else {
      call := false;
      i :| 0 <= i < |x.results| && ResultSources(x.results)[i] == s;
    }
  }

  lemma SourcesBelong(x: Exchange, request: RequestId, index: Index)
    requires ExchangeOk(x, request, index)
    ensures forall s :: s in ExchangeSources(x) && s != x.source ==>
              s in index && Belongs(index[s].payload, index[x.source].payload)
  {
    hide ExchangeSources, DistinctCalls, ReceiptsApart, HasCall;
    forall s | s in ExchangeSources(x) && s != x.source
      ensures s in index && Belongs(index[s].payload, index[x.source].payload)
    {
      var call, i := SourceIs(x, s);
      if call {
        assert CallOk(x.calls[i], x, request, index);
      } else {
        assert ResultOk(x.results[i], x, request, index);
      }
    }
  }

  lemma SourcesApart(x: Exchange, request: RequestId, index: Index)
    requires ExchangeOk(x, request, index)
    ensures forall s, t :: s in ExchangeSources(x) && t in ExchangeSources(x) && s != t ==>
              s in index && t in index && Apart(index[s].payload, index[t].payload)
  {
    hide ExchangeSources, DistinctCalls, HasCall, Advertises;
    forall s, t | s in ExchangeSources(x) && t in ExchangeSources(x) && s != t
      ensures s in index && t in index && Apart(index[s].payload, index[t].payload)
    {
      if s != x.source {
        var call, i := SourceIs(x, s);
        if call {
          assert CallOk(x.calls[i], x, request, index);
        } else {
          assert ResultOk(x.results[i], x, request, index);
        }
        if t != x.source {
          var other, j := SourceIs(x, t);
          if other {
            assert CallOk(x.calls[j], x, request, index);
          } else {
            assert ResultOk(x.results[j], x, request, index);
          }
        }
      } else {
        var other, j := SourceIs(x, t);
        if other {
          assert CallOk(x.calls[j], x, request, index);
        } else {
          assert ResultOk(x.results[j], x, request, index);
        }
      }
    }
  }

  lemma CallIsNoResult(x: Exchange, request: RequestId, index: Index, i: nat)
    requires ExchangeOk(x, request, index) && i < |x.calls|
    ensures x.calls[i].source in index && index[x.calls[i].source].payload.ToolCalled?
  {
    assert CallOk(x.calls[i], x, request, index);
  }

  lemma ResultsAreCalled(x: Exchange, request: RequestId, index: Index)
    requires ExchangeOk(x, request, index)
    ensures forall s :: s in ExchangeSources(x) && s in index && index[s].payload.ToolResult? && !index[s].payload.synthetic ==>
              exists t :: t in ExchangeSources(x) && t in index && index[t].payload.ToolCalled?
                          && index[t].payload.call.id == index[s].payload.callId
  {
    hide DistinctCalls, ReceiptsApart, Advertises;
    forall s | s in ExchangeSources(x) && s in index && index[s].payload.ToolResult? && !index[s].payload.synthetic
      ensures exists t :: t in ExchangeSources(x) && t in index && index[t].payload.ToolCalled?
                          && index[t].payload.call.id == index[s].payload.callId
    {
      var call, i := SourceIs(x, s);
      if call {
        CallIsNoResult(x, request, index, i);
      } else {
        assert ResultOk(x.results[i], x, request, index);
        var k :| 0 <= k < |x.calls| && x.calls[k].callId == x.results[i].callId;
        assert CallOk(x.calls[k], x, request, index);
        assert CallSources(x.calls)[k] == x.calls[k].source;
        assert x.calls[k].source in CallSources(x.calls);
        assert x.calls[k].source in [x.source] + CallSources(x.calls) + ResultSources(x.results);
      }
    }
  }

  lemma ExchangeSourcesKnown(x: Exchange, request: RequestId, index: Index)
    requires ExchangeOk(x, request, index)
    ensures Ordered(ExchangeSources(x)) && x.source in ExchangeSources(x)
    ensures AllKnown(ExchangeSources(x), index)
  {
    hide DistinctCalls, ReceiptsApart, Advertises, HasCall;
    var all := [x.source] + CallSources(x.calls) + ResultSources(x.results);
    assert x.source == all[0];
    assert x.source in all;
    forall s | s in all ensures s in index {
      if s in ResultSources(x.results) {
        var i :| 0 <= i < |x.results| && ResultSources(x.results)[i] == s;
        assert ResultOk(x.results[i], x, request, index);
      } else if s in CallSources(x.calls) {
        var i :| 0 <= i < |x.calls| && CallSources(x.calls)[i] == s;
        assert CallOk(x.calls[i], x, request, index);
      }
    }
  }

  /** A list in order cites each receipt once. */
  lemma OrderedOnce(s: seq<Source>, y: Source)
    requires Ordered(s)
    ensures multiset(s)[y] == if y in s then 1 else 0
  {
    if y in s {
      var i :| 0 <= i < |s| && s[i] == y;
      assert s == s[..i] + [y] + s[i + 1..];
      assert y !in s[..i] && y !in s[i + 1..];
    }
  }

  /** The group of an exchange cites exactly what the exchange gathered, each once. */
  lemma CitesWhatWasGathered(x: Exchange)
    requires Once(Gathered(x))
    ensures multiset(ExchangeSources(x)) == Gathered(x)
  {
    var all := [x.source] + CallSources(x.calls) + ResultSources(x.results);
    assert multiset(all) == Gathered(x);
    forall y ensures multiset(ExchangeSources(x))[y] == Gathered(x)[y] {
      OrderedOnce(ExchangeSources(x), y);
      assert y in all <==> y in multiset(all);
    }
  }

  /** Appending a dialogue the surface does not hold succeeds. */
  lemma AppendDialogue(groups: seq<SurfaceGroup>, x: Exchange, turn: nat, index: Index)
    requires SurfaceOk(groups, index)
    requires Promotable(x, turn, index) && Once(Gathered(x)) && x.source !in DialogueReceipts(groups)
    ensures var g := DialogueGroup(x, turn);
            && AppendGroup(groups, g, index) == Some(groups + [g])
            && SurfaceOk(groups + [g], index)
            && DialogueReceipts(groups + [g]) == DialogueReceipts(groups) + Gathered(x)
  {
    hide ExchangeOk, IsComplete, SurfaceOk, AppendGroup, IsBalanced, DialogueReceipts, Attested, ExchangeSources, Gathered,
      ReceiptMatches;
    var g, request := DialogueGroup(x, turn), index[x.source].payload.request;
    DialogueGroupOk(x, request, turn, index);
    CitesWhatWasGathered(x);
    NotOnSurface(groups, x.source, index);
    AppendSucceeds(groups, g, index);
    AppendedSurface(groups, g, index);
  }

  /** A complete exchange of the turn, as the recorded assistant message began it. */
  ghost predicate Promotable(x: Exchange, turn: nat, index: Index) {
    && x.source in index && index[x.source].payload.AssistantMessage?
    && index[x.source].payload.request.turn == turn
    && ExchangeOk(x, index[x.source].payload.request, index) && IsComplete(x)
  }

  lemma NotOnSurface(groups: seq<SurfaceGroup>, x: Source, index: Index)
    requires SurfaceOk(groups, index)
    requires x in index && index[x].payload.AssistantMessage? && x !in DialogueReceipts(groups)
    ensures x !in Ids(groups)
  {
    hide GroupOk, IsBalanced, DialogueReceipts, GroupReceipts;
    if x in Ids(groups) {
      AssistantGroupIsDialogue(groups, index, x);
    }
  }

  lemma AppendSucceeds(groups: seq<SurfaceGroup>, g: SurfaceGroup, index: Index)
    requires GroupOk(g, index) && g.kind != Heading && g.id !in Ids(groups)
    ensures AppendGroup(groups, g, index).Some?
    ensures Ordered(g.sources)
  {
    hide Ordered, Attested;
    forall i | 0 <= i < |groups| ensures groups[i].id != g.id {
      assert Ids(groups)[i] == groups[i].id;
    }
  }

  // --- one-line facts ----------------------------------------------------------------------

  lemma FactKeeps(s: FoldState, e: Event, kind: GroupKind, message: ChatMessage)
    requires Ready(s, e)
    requires (kind == Package && e.payload.PackageFact? && message == User(e.payload.line))
          || (kind == Refusal && e.payload.CommitRefused? && message == System(e.payload.line))
    requires OnFact(s, kind, e.source, message).Some?
    ensures Kept(s, e, OnFact(s, kind, e.source, message).value)
  {
    hide SurfaceOk, OpenOk, RecoveryOk, PendingOk, SummariesOk, AppendGroup, DialogueReceipts, RecoveryReceipts, InOpen, Once,
      Gathered, DialogueAttested;
    var turn := if s.open.None? then 0 else s.open.value.turn;
    var g := FactGroup(kind, e.source, turn, message);
    AppendedSurface(s.surface.value, g, s.index);
    AppendedIds(s, g);
  }

  // --- a recovery result -----------------------------------------------------------------------

  lemma RecoveryAt(recovery: seq<RecoveryEntry>, index: Index, at: nat)
    requires RecoveryOk(recovery, index) && at < |recovery|
    ensures EntryOk(recovery[at], index)
    ensures RecoveryOk(Without(recovery, at), index)
  {
    hide EntryOk, IsComplete;
  }

  lemma RecoveryRemoves(recovery: seq<RecoveryEntry>, at: nat)
    requires at < |recovery|
    ensures RecoveryReceipts(Without(recovery, at)) + Gathered(recovery[at].exchange) == RecoveryReceipts(recovery)
  {
    hide RecoveryReceipts, Gathered;
    RecoverySplit(recovery, at);
    RecoveryReceiptsConcat(recovery[..at], recovery[at + 1..]);
  }

  lemma RecoveryReplaces(recovery: seq<RecoveryEntry>, at: nat, x: Exchange)
    requires at < |recovery|
    ensures RecoveryReceipts(recovery[at := recovery[at].(exchange := x)]) + Gathered(recovery[at].exchange)
         == RecoveryReceipts(recovery) + Gathered(x)
  {
    hide RecoveryReceipts, Gathered;
    var after := recovery[at := recovery[at].(exchange := x)];
    RecoverySplit(recovery, at);
    RecoverySplit(after, at);
    assert after[..at] == recovery[..at] && after[at + 1..] == recovery[at + 1..];
  }

  lemma RecoveryUpdated(recovery: seq<RecoveryEntry>, at: nat, x: Exchange, index: Index)
    requires RecoveryOk(recovery, index) && at < |recovery|
    requires ExchangeOk(x, recovery[at].request, index) && !IsComplete(x)
    ensures RecoveryOk(recovery[at := recovery[at].(exchange := x)], index)
  {
    hide ExchangeOk, IsComplete;
    var r := recovery[at].(exchange := x);
    assert EntryOk(recovery[at], index);
    assert EntryOk(r, index);
    hide EntryOk;
  }

  lemma StillRecovering(s: FoldState, e: Event, at: nat, added: Exchange)
    requires Ready(s, e) && e.payload.ToolResult? && at < |s.recovery|
    requires ExchangeOk(added, s.recovery[at].request, s.index) && !IsComplete(added)
    requires Gathered(added) == Gathered(s.recovery[at].exchange) + multiset{e.source}
    ensures Kept(s, e, s.(recovery := s.recovery[at := s.recovery[at].(exchange := added)]))
  {
    hide CommittedOk, OpenOk, RecoveryOk, PendingOk, SummariesOk, ExchangeOk, IsComplete, RecoveryReceipts, InOpen,
      OnSurface, Gathered;
    RecoveryUpdated(s.recovery, at, added, s.index);
    RecoveryReplaces(s.recovery, at, added);
    var after := RecoveryReceipts(s.recovery[at := s.recovery[at].(exchange := added)]);
    Grown(after, RecoveryReceipts(s.recovery), Gathered(s.recovery[at].exchange), multiset{e.source});
  }

  lemma Recovered(s: FoldState, e: Event, at: nat, added: Exchange, turn: nat)
    requires Ready(s, e) && e.payload.ToolResult? && at < |s.recovery| && s.surface.Some?
    requires Promotable(added, turn, s.index)
    requires Gathered(added) == Gathered(s.recovery[at].exchange) + multiset{e.source}
    requires Once(Held(s) + multiset{e.source})
    ensures var g := DialogueGroup(added, turn);
            && AppendGroup(s.surface.value, g, s.index) == Some(s.surface.value + [g])
            && Kept(s, e, s.(surface := Some(s.surface.value + [g]), recovery := Without(s.recovery, at)))
  {
    hide OpenOk, RecoveryOk, PendingOk, SummariesOk, Promotable, IsComplete, RecoveryReceipts, InOpen,
      DialogueReceipts, SurfaceOk, DialogueGroup, Gathered;
    assert IsComplete(added) by { PromotableIs(added, turn, s.index); }
    RecoveryAt(s.recovery, s.index, at);
    RecoveryRemoves(s.recovery, at);
    LeavesRecovery(s, e, at, added);
    AppendDialogue(s.surface.value, added, turn, s.index);
    DialogueGroupKind(added, turn);
    AppendedIds(s, DialogueGroup(added, turn));
    var rest := RecoveryReceipts(Without(s.recovery, at));
    var t := s.(surface := Some(s.surface.value + [DialogueGroup(added, turn)]),
                recovery := Without(s.recovery, at));
    assert Held(t) == InOpen(s.open) + rest + (DialogueReceipts(s.surface.value) + Gathered(added));
    assert Held(s) == InOpen(s.open) + (rest + Gathered(s.recovery[at].exchange)) + DialogueReceipts(s.surface.value);
    assert Held(t) == Held(s) + multiset{e.source};
  }

  lemma PromotableIs(x: Exchange, turn: nat, index: Index)
    requires Promotable(x, turn, index)
    ensures IsComplete(x) && x.source in index && index[x.source].payload.AssistantMessage?
  {
  }

  /** What an exchange in recovery has gathered is nowhere else, with one more receipt or without. */
  lemma LeavesRecovery(s: FoldState, e: Event, at: nat, added: Exchange)
    requires at < |s.recovery| && s.surface.Some?
    requires Gathered(added) == Gathered(s.recovery[at].exchange) + multiset{e.source}
    requires Once(Held(s) + multiset{e.source})
    ensures Once(Gathered(added)) && added.source !in DialogueReceipts(s.surface.value)
  {
    hide InOpen, DialogueReceipts, RecoveryReceipts;
    RecoveryRemoves(s.recovery, at);
    var rest := RecoveryReceipts(Without(s.recovery, at));
    var others := InOpen(s.open) + rest + DialogueReceipts(s.surface.value);
    assert added.source in Gathered(added);
    hide Gathered;
    assert Held(s) + multiset{e.source} == Gathered(added) + others;
    OnceOfPart(Gathered(added), others);
    assert (Gathered(added) + others)[added.source] <= 1;
  }

  lemma DialogueGroupKind(x: Exchange, turn: nat)
    requires IsComplete(x)
    ensures DialogueGroup(x, turn).kind == Dialogue && DialogueGroup(x, turn).id == x.source
  {
  }

  lemma RecoveryResultKeeps(
    s: FoldState, e: Event, turn: nat, request: RequestId, callId: string, message: ChatMessage)
    requires Ready(s, e) && Results(e, request, callId, message, true)
    requires OnRecoveryResult(s, e, turn, request, callId, message).Some?
    ensures Kept(s, e, OnRecoveryResult(s, e, turn, request, callId, message).value)
  {
    hide Parts, Held, AddResult, IsComplete, DialogueGroup, AppendGroup, FindRecovery, Kept, Gathered, ExchangeOk;
    var at := FindRecovery(s.recovery, turn, request);
    RecoveryIsOk(s);
    RecoveryAt(s.recovery, s.index, at);
    AddResultKeeps(s.recovery[at].exchange, callId, message, e, true, request, s.index);
    var added := AddResult(s.recovery[at].exchange, callId, message, e.source, true).value;
    ExchangeIsOf(added, request, s.index);
    if IsComplete(added) {
      Recovered(s, e, at, added, turn);
    } else {
      StillRecovering(s, e, at, added);
    }
  }

  lemma RecoveryIsOk(s: FoldState)
    requires Parts(s)
    ensures RecoveryOk(s.recovery, s.index)
  {
    hide RecoveryOk, CommittedOk, OpenOk, PendingOk, SummariesOk;
  }

  lemma ToolResultKeeps(s: FoldState, e: Event)
    requires Ready(s, e) && e.payload.ToolResult?
    requires OnToolResult(s, e, e.payload).Some?
    ensures Kept(s, e, OnToolResult(s, e, e.payload).value)
  {
    hide Ready, Kept, OnOpenResult, OnRecoveryResult;
    var p := e.payload;
    if s.open.Some? && s.open.value.turn == p.turn && p.request.turn == p.turn {
      OpenResultKeeps(s, e, p.request, p.callId, p.message, p.synthetic);
    } else {
      RecoveryResultKeeps(s, e, p.turn, p.request, p.callId, p.message);
    }
  }

  // --- the closer --------------------------------------------------------------------------------

  ghost predicate PromoteOk(promote: seq<Exchange>, turn: nat, index: Index) {
    forall i :: 0 <= i < |promote| ==> Promotable(promote[i], turn, index)
  }

  /** Some dialogue of the turn still misses a result. */
  ghost predicate Unbalanced(dialogues: seq<Buffer>) {
    exists i :: 0 <= i < |dialogues| && dialogues[i].exchange.Some? && !IsComplete(dialogues[i].exchange.value)
  }

  lemma {:induction false} SiftFails(dialogues: seq<Buffer>, turn: nat, success: bool, ignorable: bool)
    ensures Sift(dialogues, turn, success, ignorable).None? <==> success && Unbalanced(dialogues)
  {
    hide IsComplete;
    if dialogues != [] {
      var last := |dialogues| - 1;
      var shorter := dialogues[..last];
      SiftFails(shorter, turn, success, ignorable);
      if Unbalanced(shorter) {
        var i :| 0 <= i < last && shorter[i].exchange.Some? && !IsComplete(shorter[i].exchange.value);
        assert dialogues[i] == shorter[i];
      }
      if i :| 0 <= i < last && dialogues[i].exchange.Some? && !IsComplete(dialogues[i].exchange.value) {
        assert shorter[i] == dialogues[i];
      }
    }
  }

  lemma SiftOneSorts(sifted: Sifted, buffer: Buffer, turn: nat, success: bool, ignorable: bool, index: Index)
    requires PromoteOk(sifted.promote, turn, index) && RecoveryOk(sifted.recover, index)
    requires BufferOk(buffer, turn, index)
    requires SiftOne(sifted, buffer, turn, success, ignorable).Some?
    ensures var next := SiftOne(sifted, buffer, turn, success, ignorable).value;
            && PromoteOk(next.promote, turn, index) && RecoveryOk(next.recover, index)
            && (success && ignorable ==> next == sifted)
            && (!(success && ignorable) ==>
                  ExchangeReceipts(next.promote) + RecoveryReceipts(next.recover)
                  == ExchangeReceipts(sifted.promote) + RecoveryReceipts(sifted.recover) + Receipts(buffer.exchange))
  {
    hide ExchangeOk, IsComplete, PromoteOk, RecoveryOk, ExchangeReceipts, RecoveryReceipts, Gathered;
    if buffer.exchange.Some? {
      var x := buffer.exchange.value;
      ExchangeIsOf(x, buffer.request, index);
      if IsComplete(x) {
        PromoteOne(sifted.promote, x, turn, index);
      } else {
        RecoverOne(sifted.recover, RecoveryEntry(turn, buffer.request, x), index);
      }
    }
  }

  lemma PromoteOne(promote: seq<Exchange>, x: Exchange, turn: nat, index: Index)
    requires PromoteOk(promote, turn, index) && Promotable(x, turn, index)
    ensures PromoteOk(promote + [x], turn, index)
    ensures ExchangeReceipts(promote + [x]) == ExchangeReceipts(promote) + Gathered(x)
  {
    hide Promotable, Gathered;
    assert (promote + [x])[..|promote|] == promote;
  }

  lemma RecoverOne(recover: seq<RecoveryEntry>, r: RecoveryEntry, index: Index)
    requires RecoveryOk(recover, index) && EntryOk(r, index) && !IsComplete(r.exchange)
    ensures RecoveryOk(recover + [r], index)
    ensures RecoveryReceipts(recover + [r]) == RecoveryReceipts(recover) + Gathered(r.exchange)
  {
    hide EntryOk, IsComplete, Gathered;
    assert (recover + [r])[..|recover|] == recover;
  }

  lemma {:induction false} SiftSorts(dialogues: seq<Buffer>, turn: nat, success: bool, ignorable: bool, index: Index)
    requires DialoguesOk(dialogues, turn, index)
    requires Sift(dialogues, turn, success, ignorable).Some?
    ensures var sifted := Sift(dialogues, turn, success, ignorable).value;
            && PromoteOk(sifted.promote, turn, index) && RecoveryOk(sifted.recover, index)
            && (success && ignorable ==> sifted == Sifted([], []))
            && (!(success && ignorable) ==>
                  OpenReceipts(dialogues) == ExchangeReceipts(sifted.promote) + RecoveryReceipts(sifted.recover))
  {
    hide BufferOk, SiftOne, PromoteOk, RecoveryOk, Receipts;
    if dialogues == [] {
      NothingSifted(turn, index);
    } else {
      var last := |dialogues| - 1;
      SiftSorts(dialogues[..last], turn, success, ignorable, index);
      var before := Sift(dialogues[..last], turn, success, ignorable).value;
      SiftOneSorts(before, dialogues[last], turn, success, ignorable, index);
    }
  }

  lemma NothingSifted(turn: nat, index: Index)
    ensures PromoteOk([], turn, index) && RecoveryOk([], index)
  {
  }

  /** Every id of `after` is one of `before` or a receipt that is no summary's. */
  ghost predicate AddsNoSummary(before: seq<SurfaceGroup>, after: seq<SurfaceGroup>, index: Index) {
    forall x :: x in Ids(after) ==> x in Ids(before) || (x in index && !index[x].payload.CompactionSummarized?)
  }

  /** Validated dialogues that the surface does not hold are all committed, in order. */
  lemma {:induction false} PromotesAll(groups: seq<SurfaceGroup>, promote: seq<Exchange>, turn: nat, index: Index)
    requires SurfaceOk(groups, index) && PromoteOk(promote, turn, index)
    requires Once(DialogueReceipts(groups) + ExchangeReceipts(promote))
    ensures PromoteAll(groups, promote, turn, index).Some?
    ensures var after := PromoteAll(groups, promote, turn, index).value;
            && SurfaceOk(after, index) && AddsNoSummary(groups, after, index)
            && DialogueReceipts(after) == DialogueReceipts(groups) + ExchangeReceipts(promote)
  {
    hide SurfaceOk, AppendGroup, Promotable, DialogueReceipts, Gathered;
    if promote != [] {
      var last := |promote| - 1;
      var x := promote[last];
      PromotableIs(x, turn, index);
      assert DialogueReceipts(groups) + ExchangeReceipts(promote)
          == DialogueReceipts(groups) + ExchangeReceipts(promote[..last]) + Gathered(x);
      OnceOfPart(DialogueReceipts(groups) + ExchangeReceipts(promote[..last]), Gathered(x));
      PromotesAll(groups, promote[..last], turn, index);
      var before := PromoteAll(groups, promote[..last], turn, index).value;
      NotTwice(DialogueReceipts(before), x);
      AppendDialogue(before, x, turn, index);
      DialogueGroupKind(x, turn);
      assert Ids(before + [DialogueGroup(x, turn)]) == Ids(before) + [x.source];
    }
  }

  lemma OnceOfPart(part: multiset<Source>, rest: multiset<Source>)
    requires Once(part + rest)
    ensures Once(part)
  {
    forall x ensures part[x] <= 1 {
      assert (part + rest)[x] <= 1;
    }
  }

  lemma NotTwice(m: multiset<Source>, x: Exchange)
    requires Once(m + Gathered(x))
    ensures x.source !in m && Once(Gathered(x))
  {
    assert (m + Gathered(x))[x.source] <= 1;
    forall y ensures Gathered(x)[y] <= 1 {
      assert (m + Gathered(x))[y] <= 1;
    }
  }

  lemma SummariesKept(s: FoldState, before: seq<SurfaceGroup>, after: seq<SurfaceGroup>)
    requires SummariesOk(s.summaries, s.pending, s.index, Ids(before))
    requires AddsNoSummary(before, after, s.index)
    ensures SummariesOk(s.summaries, s.pending, s.index, Ids(after))
  {
    hide FindPending;
  }

  /** The open perception, when there is one, joins the surface. */
  lemma PerceptionJoins(s: FoldState)
    requires Parts(s) && s.open.Some? && s.surface.Some? && s.open.value.perception.Some?
    ensures var groups, g := s.surface.value, s.open.value.perception.value;
            && AppendGroup(groups, g, s.index) == Some(groups + [g])
            && SurfaceOk(groups + [g], s.index)
            && DialogueReceipts(groups + [g]) == DialogueReceipts(groups)
            && AddsNoSummary(groups, groups + [g], s.index)
  {
    hide SurfaceOk, DialoguesOk, RecoveryOk, PendingOk, SummariesOk, AppendGroup, DialogueReceipts, IsBalanced, Attested;
    var groups, g := s.surface.value, s.open.value.perception.value;
    AppendSucceeds(groups, g, s.index);
    AppendedSurface(groups, g, s.index);
    assert Ids(groups + [g]) == Ids(groups) + [g.id];
  }

  /** Committing a validated turn cannot fail once there is a surface. */
  lemma CommitSucceeds(s: FoldState, promote: seq<Exchange>)
    requires Parts(s) && s.open.Some? && s.surface.Some?
    requires PromoteOk(promote, s.open.value.turn, s.index) && Once(DialogueReceipts(s.surface.value) + ExchangeReceipts(promote))
    ensures var r := CommitTurn(s.surface, s.open.value, promote, s.index);
            && r.Some? && r.value.Some?
            && SurfaceOk(r.value.value, s.index)
            && AddsNoSummary(s.surface.value, r.value.value, s.index)
            && DialogueReceipts(r.value.value) == DialogueReceipts(s.surface.value) + ExchangeReceipts(promote)
  {
    hide SurfaceOk, PromoteOk, OpenOk, RecoveryOk, PendingOk, SummariesOk, DialogueReceipts, PromoteAll, AppendGroup;
    var open := s.open.value;
    if open.perception.Some? {
      PerceptionJoins(s);
      PromotesAll(s.surface.value + [open.perception.value], promote, open.turn, s.index);
    } else {
      PromotesAll(s.surface.value, promote, open.turn, s.index);
    }
  }

  /** The closer's outcome under the invariant, whatever the turn holds. */
  lemma TurnEndResult(s: FoldState, ignorable: bool, turn: nat, outcome: Outcome)
    requires Parts(s) && Once(Held(s)) && s.open.Some? && turn == s.open.value.turn
    requires var success := outcome == Chained || outcome == Waiting;
             Sift(s.open.value.dialogues, turn, success, ignorable).Some?
    requires s.surface.Some?
    ensures var success := outcome == Chained || outcome == Waiting;
            var sifted := Sift(s.open.value.dialogues, turn, success, ignorable).value;
            var r := CommitTurn(s.surface, s.open.value, sifted.promote, s.index);
            && r.Some? && r.value.Some?
            && SurfaceOk(r.value.value, s.index) && RecoveryOk(sifted.recover, s.index)
            && AddsNoSummary(s.surface.value, r.value.value, s.index)
            && DialogueReceipts(r.value.value) == DialogueReceipts(s.surface.value) + ExchangeReceipts(sifted.promote)
  {
    hide SurfaceOk, RecoveryOk, PendingOk, SummariesOk, DialogueReceipts, CommitTurn, Sift, DialoguesOk,
      PromoteOk, AddsNoSummary;
    var success := outcome == Chained || outcome == Waiting;
    var dialogues := s.open.value.dialogues;
    SiftSorts(dialogues, turn, success, ignorable, s.index);
    var sifted := Sift(dialogues, turn, success, ignorable).value;
    OncePromoted(s, sifted);
    CommitSucceeds(s, sifted.promote);
  }

  lemma OncePromoted(s: FoldState, sifted: Sifted)
    requires Once(Held(s)) && s.open.Some? && s.surface.Some?
    requires sifted.promote == []
          || OpenReceipts(s.open.value.dialogues) == ExchangeReceipts(sifted.promote) + RecoveryReceipts(sifted.recover)
    ensures Once(DialogueReceipts(s.surface.value) + ExchangeReceipts(sifted.promote))
  {
    var part := DialogueReceipts(s.surface.value) + ExchangeReceipts(sifted.promote);
    hide DialogueReceipts, OpenReceipts;
    if sifted.promote == [] {
      assert Held(s) == part + (OpenReceipts(s.open.value.dialogues) + RecoveryReceipts(s.recovery));
      OnceOfPart(part, OpenReceipts(s.open.value.dialogues) + RecoveryReceipts(s.recovery));
    } else {
      hide ExchangeReceipts, RecoveryReceipts;
      assert Held(s) == part + (RecoveryReceipts(sifted.recover) + RecoveryReceipts(s.recovery));
      OnceOfPart(part, RecoveryReceipts(sifted.recover) + RecoveryReceipts(s.recovery));
    }
  }

  /** Where the dialogues of a closed turn went. */
  lemma TurnEndMoves(s: FoldState, turn: nat, success: bool, ignorable: bool, sifted: Sifted, surface: Option<seq<SurfaceGroup>>)
    requires s.open.Some?
    requires success && ignorable ==> sifted == Sifted([], [])
    requires !(success && ignorable) ==>
      OpenReceipts(s.open.value.dialogues) == ExchangeReceipts(sifted.promote) + RecoveryReceipts(sifted.recover)
    requires OnSurface(surface) == OnSurface(s.surface) + ExchangeReceipts(sifted.promote)
    requires RecoveryReceipts(s.recovery + sifted.recover) == RecoveryReceipts(s.recovery) + RecoveryReceipts(sifted.recover)
    ensures var t := s.(surface := surface, recovery := s.recovery + sifted.recover, open := None);
            Held(t) + (if success && ignorable then InOpen(s.open) else multiset{}) == Held(s)
  {
    hide OnSurface, OpenReceipts;
  }

  /** The parts a closed turn leaves. */
  lemma TurnEndParts(s: FoldState, sifted: Sifted, surface: Option<seq<SurfaceGroup>>)
    requires Parts(s) && RecoveryOk(s.recovery + sifted.recover, s.index)
    requires surface.Some? <==> s.surface.Some?
    requires surface.Some? ==>
      (SurfaceOk(surface.value, s.index) && AddsNoSummary(s.surface.value, surface.value, s.index))
    ensures Parts(s.(surface := surface, recovery := s.recovery + sifted.recover, open := None))
  {
    hide SurfaceOk, RecoveryOk, PendingOk, SummariesOk, DialoguesOk, PerceptionOk, AddsNoSummary;
    if s.surface.Some? {
      SummariesKept(s, s.surface.value, surface.value);
    }
  }

  lemma TurnEndKeeps(s: FoldState, e: Event, turn: nat, outcome: Outcome)
    requires Ready(s, e) && e.payload == TurnEnd(turn, outcome)
    requires OnTurnEnd(s, e.ignorable, turn, outcome).Some?
    ensures Kept(s, e, OnTurnEnd(s, e.ignorable, turn, outcome).value)
  {
    hide Parts, Held, Sift, CommitTurn, SurfaceOk, RecoveryOk, DialoguesOk, DialogueReceipts, OpenReceipts, Once,
      RecoveryReceipts, ExchangeReceipts, AddsNoSummary, PromoteOk, Fresh;
    var success := outcome == Chained || outcome == Waiting;
    var dialogues := s.open.value.dialogues;
    OpenDialogues(s);
    RecoveryIsOk(s);
    SiftSorts(dialogues, turn, success, e.ignorable, s.index);
    var sifted := Sift(dialogues, turn, success, e.ignorable).value;
    if s.surface.Some? {
      TurnEndResult(s, e.ignorable, turn, outcome);
    } else {
      CommitWithoutSurface(s.open.value, sifted.promote, s.index);
      NoExchanges();
    }
    var surface := CommitTurn(s.surface, s.open.value, sifted.promote, s.index).value;
    RecoveryJoins(s.recovery, sifted.recover, s.index);
    TurnEndParts(s, sifted, surface);
    TurnEndMoves(s, turn, success, e.ignorable, sifted, surface);
  }

  lemma NoExchanges()
    ensures ExchangeReceipts([]) == multiset{}
  {
  }

  lemma CommitWithoutSurface(open: OpenTurn, promote: seq<Exchange>, index: Index)
    ensures CommitTurn(None, open, promote, index) == if promote == [] then Some(None) else None
  {
  }

  lemma RecoveryJoins(a: seq<RecoveryEntry>, b: seq<RecoveryEntry>, index: Index)
    requires RecoveryOk(a, index) && RecoveryOk(b, index)
    ensures RecoveryOk(a + b, index) && RecoveryReceipts(a + b) == RecoveryReceipts(a) + RecoveryReceipts(b)
  {
    hide ExchangeOk, IsComplete, RecoveryReceipts;
    RecoveryReceiptsConcat(a, b);
  }

  /**
   A close is all or nothing. On a reachable state with a surface it fails exactly
   when its validation does: no open turn, another turn's number, or an unbalanced
   dialogue under a successful outcome. No append after the validation can throw.
   */
  lemma CloseIsAllOrNothing(s: FoldState, ignorable: bool, turn: nat, outcome: Outcome)
    requires Parts(s) && Once(Held(s)) && s.surface.Some?
    ensures OnTurnEnd(s, ignorable, turn, outcome).None? <==>
      || s.open.None? || turn != s.open.value.turn
      || ((outcome == Chained || outcome == Waiting) && Unbalanced(s.open.value.dialogues))
  {
    hide Parts, Held, Sift, CommitTurn, Unbalanced;
    if s.open.Some? && turn == s.open.value.turn {
      var success := outcome == Chained || outcome == Waiting;
      SiftFails(s.open.value.dialogues, turn, success, ignorable);
      if Sift(s.open.value.dialogues, turn, success, ignorable).Some? {
        TurnEndResult(s, ignorable, turn, outcome);
      }
    }
  }

  // --- what a close commits ------------------------------------------------------------------------------

  /** The turn's complete dialogues, in the order they were buffered. */
  function Completes(dialogues: seq<Buffer>): (r: seq<Exchange>)
    ensures forall i :: 0 <= i < |r| ==> IsComplete(r[i])
  {
    if dialogues == [] then []
    else
      var last := dialogues[|dialogues| - 1].exchange;
      Completes(dialogues[..|dialogues| - 1]) + (if last.Some? && IsComplete(last.value) then [last.value] else [])
  }

  /** The dialogues that still miss a result, as recovery entries of the turn. */
  function Incompletes(dialogues: seq<Buffer>, turn: nat): seq<RecoveryEntry> {
    if dialogues == [] then []
    else
      var last := dialogues[|dialogues| - 1];
      Incompletes(dialogues[..|dialogues| - 1], turn)
      + (if last.exchange.Some? && !IsComplete(last.exchange.value)
         then [RecoveryEntry(turn, last.request, last.exchange.value)] else [])
  }

  function GroupsOf(xs: seq<Exchange>, turn: nat): seq<SurfaceGroup>
    requires forall i :: 0 <= i < |xs| ==> IsComplete(xs[i])
  {
    seq(|xs|, i requires 0 <= i < |xs| => DialogueGroup(xs[i], turn))
  }

  lemma {:induction false} SiftIs(dialogues: seq<Buffer>, turn: nat, success: bool, ignorable: bool)
    requires Sift(dialogues, turn, success, ignorable).Some?
    ensures var sifted := Sift(dialogues, turn, success, ignorable).value;
            && sifted.promote == (if success && ignorable then [] else Completes(dialogues))
            && sifted.recover == (if success then [] else Incompletes(dialogues, turn))
  {
    hide IsComplete;
    if dialogues != [] {
      SiftIs(dialogues[..|dialogues| - 1], turn, success, ignorable);
    }
  }

  lemma {:induction false} PromoteAllIs(groups: seq<SurfaceGroup>, promote: seq<Exchange>, turn: nat, index: Index)
    requires PromoteAll(groups, promote, turn, index).Some?
    ensures forall i :: 0 <= i < |promote| ==> IsComplete(promote[i])
    ensures PromoteAll(groups, promote, turn, index) == Some(groups + GroupsOf(promote, turn))
  {
    hide IsComplete, DialogueGroup;
    if promote == [] {
      assert groups + GroupsOf([], turn) == groups;
    } else {
      var last := |promote| - 1;
      PromoteAllIs(groups, promote[..last], turn, index);
      assert forall i :: 0 <= i < last ==> promote[i] == promote[..last][i];
      assert groups + GroupsOf(promote[..last], turn) + [DialogueGroup(promote[last], turn)]
          == groups + GroupsOf(promote, turn);
    }
  }

  /**
   What a close does: the perception joins the surface first, then the complete dialogues in
   order, unless the closer is an ignorable success; incomplete dialogues of an unsuccessful
   turn are kept for recovery, in order; the turn is no longer open.
   */
  lemma CloseCommitsInOrder(s: FoldState, ignorable: bool, turn: nat, outcome: Outcome)
    requires s.surface.Some? && OnTurnEnd(s, ignorable, turn, outcome).Some?
    ensures var t, open := OnTurnEnd(s, ignorable, turn, outcome).value, s.open.value;
            var success := outcome == Chained || outcome == Waiting;
            var perceived := if open.perception.Some? then [open.perception.value] else [];
            && t.open.None?
            && t.surface == Some(s.surface.value + perceived
                                 + GroupsOf(if success && ignorable then [] else Completes(open.dialogues), turn))
            && t.recovery == s.recovery + (if success then [] else Incompletes(open.dialogues, turn))
  {
    hide Sift, Completes, Incompletes, GroupsOf, PromoteAll;
    var open, success := s.open.value, outcome == Chained || outcome == Waiting;
    SiftIs(open.dialogues, turn, success, ignorable);
    var promote := Sift(open.dialogues, turn, success, ignorable).value.promote;
    var groups := s.surface.value;
    if open.perception.Some? {
      PromoteAllIs(groups + [open.perception.value], promote, turn, s.index);
    } else {
      PromoteAllIs(groups, promote, turn, s.index);
      assert groups + [] == groups;
    }
  }
}
