/**
 One lemma per handler of the fold: it keeps every part of the state, and the
 dialogues it held before, plus the one it received, are the dialogues it holds
 after, plus the ones a compaction removed or an ignorable closer dropped.
 */
module Handlers {
  import opened Wrappers
  import opened Contracts
  import opened Events
  import opened Finite
  import opened Groups
  import opened Surfaces
  import opened FoldSteps
  import opened FoldInvariant
  import opened Conservation

  /** A state about to process the registered event `e`. */
  ghost predicate Ready(s: FoldState, e: Event) {
    && Parts(s) && Once(Held(s)) && Once(Held(s) + multiset{e.source})
    && e.source in s.index && s.index[e.source] == e && Fresh(s, e.source)
  }

  /** What processing `e` keeps. */
  ghost predicate Kept(s: FoldState, e: Event, t: FoldState) {
    && Parts(t)
    && Held(t) + RemovedBy(s, e) + DroppedBy(s, e) == Held(s) + AddedBy(e)
    && t.seen == s.seen && t.index == s.index && t.watermark == s.watermark
  }

  // --- configuration ------------------------------------------------------------------

  lemma FirstConfigKeeps(s: FoldState, e: Event, version: nat, config: AgentConfig)
    requires Ready(s, e) && e.payload == SystemMessage(version, config) && s.config.None?
    requires OnConfig(s, e, version, config).Some?
    ensures Kept(s, e, OnConfig(s, e, version, config).value)
  {
    hide IsBalanced, RecoveryOk, DialoguesOk;
    var heading := HeadingGroup(config.heading, e.source);
    HeadingAttested(config.heading, e.source, s.index);
    OneDialogue(heading);
    assert Ids([heading]) == [e.source];
  }

  lemma SurfaceHeading(groups: seq<SurfaceGroup>, index: Index)
    requires SurfaceOk(groups, index)
    ensures groups != [] && groups[0].kind == Heading
  {
  }

  lemma RewriteMoves(groups: seq<SurfaceGroup>, heading: SurfaceGroup)
    requires groups != [] && groups[0].kind == Heading && heading.kind == Heading
    ensures DialogueReceipts(groups[0 := heading]) == DialogueReceipts(groups)
    ensures Ids(groups[0 := heading]) == Ids(groups)[0 := heading.id]
  {
    assert groups[0 := heading][1..] == groups[1..];
  }

  lemma RewriteConfigKeeps(s: FoldState, e: Event, version: nat, config: AgentConfig)
    requires Ready(s, e) && e.payload == SystemMessage(version, config) && s.config.Some?
    requires OnConfig(s, e, version, config).Some?
    ensures Kept(s, e, OnConfig(s, e, version, config).value)
  {
    hide IsBalanced, RecoveryOk, DialoguesOk, DialogueReceipts, PendingOk, FindPending, SurfaceOk, Parts, InOpen,
      RecoveryReceipts;
    RewritePrior(s);
    var groups, heading := s.surface.value, HeadingGroup(config.heading, e.source);
    RewriteKeepsSurface(groups, config.heading, e.source, s.index);
    RewriteMoves(groups, heading);
    RewriteParts(s, e, config, groups[0 := heading]);
  }

  lemma RewritePrior(s: FoldState)
    requires Parts(s) && s.config.Some?
    ensures s.surface.Some? && SurfaceOk(s.surface.value, s.index)
    ensures s.surface.value != [] && s.surface.value[0].kind == Heading
  {
    hide SurfaceOk, OpenOk, RecoveryOk, PendingOk, SummariesOk;
    SurfaceHeading(s.surface.value, s.index);
  }

  /** A new heading takes a fresh id, which no perception and no summary receipt uses. */
  lemma RewriteParts(s: FoldState, e: Event, config: AgentConfig, groups: seq<SurfaceGroup>)
    requires Ready(s, e) && e.payload.SystemMessage? && s.surface.Some? && s.config.Some?
    requires s.surface.value != [] && SurfaceOk(groups, s.index) && Ids(groups) == Ids(s.surface.value)[0 := e.source]
    ensures Parts(s.(config := Some(Configured(config, e.source)), surface := Some(groups)))
  {
    hide IsBalanced, RecoveryOk, DialoguesOk, PendingOk, FindPending, SurfaceOk, Once;
    assert forall x :: x in Ids(groups) ==> x in Ids(s.surface.value) || x == e.source;
  }

  // --- the open turn --------------------------------------------------------------------

  lemma TurnStartKeeps(s: FoldState, e: Event, turn: nat, world: WorldRange)
    requires Ready(s, e) && e.payload == TurnStart(turn, world)
    requires OnTurnStart(s, e, turn, world).Some?
    ensures Kept(s, e, OnTurnStart(s, e, turn, world).value)
  {
    hide CommittedOk, RecoveryOk, PendingOk, SummariesOk;
  }

  lemma PerceptionKeeps(s: FoldState, e: Event, turn: nat, range: WorldRange, value: Perceived)
    requires Ready(s, e) && e.payload == WorldPerception(turn, range, value)
    requires OnPerception(s, e, turn, range, value).Some?
    ensures Kept(s, e, OnPerception(s, e, turn, range, value).value)
  {
    hide CommittedOk, RecoveryOk, PendingOk, SummariesOk, DialoguesOk, OpenReceipts, GroupOk, IsBalanced, PerceptionGroup;
    if value.text != "" {
      PerceptionAttested(e, turn, range, value, s.index);
    }
  }

  lemma PerceptionAttested(e: Event, turn: nat, range: WorldRange, value: Perceived, index: Index)
    requires e.payload == WorldPerception(turn, range, value) && value.text != ""
    requires e.source in index && index[e.source] == e
    ensures var g := PerceptionGroup(e.source, turn, value.text);
            GroupOk(g, index) && IsBalanced(g) && g.id == e.source && g.kind == Perception
  {
  }

  lemma PutKeepsDialogues(dialogues: seq<Buffer>, buffer: Buffer, turn: nat, index: Index)
    requires DialoguesOk(dialogues, turn, index) && BufferOk(buffer, turn, index)
    ensures DialoguesOk(PutBuffer(dialogues, buffer), turn, index)
  {
    hide BufferOk;
  }

  lemma BufferIsOk(dialogues: seq<Buffer>, request: RequestId, turn: nat, index: Index)
    requires DialoguesOk(dialogues, turn, index)
    ensures BufferOf(dialogues, request).request == request && BufferOk(BufferOf(dialogues, request), turn, index)
  {
    hide ExchangeOk;
  }

  /** The state after storing one buffer of the open turn. */
  ghost function WithBuffer(s: FoldState, buffer: Buffer, consumed: bool): FoldState
    requires s.open.Some?
  {
    s.(open := Some(s.open.value.(dialogues := PutBuffer(s.open.value.dialogues, buffer),
                                  perceptionConsumed := consumed)))
  }

  lemma Cancel(a: multiset<Source>, b: multiset<Source>, c: multiset<Source>)
    requires a + c == b + c
    ensures a == b
  {
    forall x ensures a[x] == b[x] {
      assert (a + c)[x] == (b + c)[x];
    }
  }

  lemma MoveOne(
    a: multiset<Source>, b: multiset<Source>, rest: multiset<Source>, more: multiset<Source>,
    x: multiset<Source>, y: multiset<Source>)
    requires a + x == b + y
    ensures a + rest + more + x == b + rest + more + y
  {
    assert a + rest + more + x == (a + x) + rest + more;
    assert b + rest + more + y == (b + y) + rest + more;
  }

  lemma WithBufferKeeps(s: FoldState, buffer: Buffer, consumed: bool)
    requires Parts(s) && s.open.Some? && BufferOk(buffer, s.open.value.turn, s.index)
    ensures var t := WithBuffer(s, buffer, consumed);
            && Parts(t)
            && Held(t) + Receipts(BufferOf(s.open.value.dialogues, buffer.request).exchange)
               == Held(s) + Receipts(buffer.exchange)
  {
    hide CommittedOk, RecoveryOk, PendingOk, SummariesOk, DialoguesOk, BufferOk, PutBuffer, BufferOf,
      OpenReceipts, Receipts, GroupOk, IsBalanced;
    PutKeepsDialogues(s.open.value.dialogues, buffer, s.open.value.turn, s.index);
    PutMoves(s.open.value.dialogues, buffer);
    var dialogues := s.open.value.dialogues;
    MoveOne(OpenReceipts(PutBuffer(dialogues, buffer)), OpenReceipts(dialogues), RecoveryReceipts(s.recovery),
            OnSurface(s.surface), Receipts(BufferOf(dialogues, buffer.request).exchange),
            Receipts(buffer.exchange));
  }

  lemma RefusedKeeps(s: FoldState, e: Event, request: RequestId)
    requires Ready(s, e) && e.payload == RequestRefused(request)
    requires OnRefused(s, request).Some?
    ensures Kept(s, e, OnRefused(s, request).value)
  {
    hide Parts, Held, PutBuffer, FindBuffer, OpenReceipts, Gathered;
    var open := s.open.value;
    var buffer := BufferOf(open.dialogues, request).(refused := true);
    WithBufferKeeps(s, buffer, open.perceptionConsumed);
  }

  lemma AssistantKeeps(s: FoldState, e: Event, request: RequestId, text: Option<string>, calls: seq<FunctionCall>)
    requires Ready(s, e) && e.payload == AssistantMessage(request, text, calls)
    requires OnAssistant(s, e, request, text, calls).Some?
    ensures Kept(s, e, OnAssistant(s, e, request, text, calls).value)
  {
    hide Parts, Held, PutBuffer, FindBuffer, OpenReceipts, DistinctCalls;
    var open := s.open.value;
    var x := Exchange(e.source, text, calls, [], []);
    var buffer := BufferOf(open.dialogues, request).(exchange := Some(x));
    OpenDialogues(s);
    BufferIsOk(open.dialogues, request, open.turn, s.index);
    assert ExchangeOk(x, request, s.index);
    assert Gathered(x) == multiset{e.source};
    WithBufferKeeps(s, buffer, open.perceptionConsumed || open.perception.Some?);
  }

  lemma OpenDialogues(s: FoldState)
    requires Parts(s) && s.open.Some?
    ensures DialoguesOk(s.open.value.dialogues, s.open.value.turn, s.index)
  {
    hide CommittedOk, RecoveryOk, PendingOk, SummariesOk, DialoguesOk;
  }

  lemma ToolCallKeeps(s: FoldState, e: Event, turn: nat, request: RequestId, call: FunctionCall)
    requires Ready(s, e) && e.payload == ToolCalled(turn, request, call)
    requires OnToolCall(s, e, turn, request, call).Some?
    ensures Kept(s, e, OnToolCall(s, e, turn, request, call).value)
  {
    hide Parts, Held, PutBuffer, BufferOf, OpenReceipts, DistinctCalls, HasCall, ExchangeOk, Gathered;
    var open := s.open.value;
    OpenDialogues(s);
    BufferIsOk(open.dialogues, request, open.turn, s.index);
    var before := BufferOf(open.dialogues, request);
    var x := before.exchange.value;
    var called := x.(calls := x.calls + [CallReceipt(call.id, e.source)]);
    CalledKeeps(x, call, e.source, request, s.index);
    WithBufferKeeps(s, before.(exchange := Some(called)), open.perceptionConsumed);
    MoreCalls(x, CallReceipt(call.id, e.source));
    Grown(Held(OnToolCall(s, e, turn, request, call).value), Held(s), Gathered(x), multiset{e.source});
  }

  /** One more receipt for a call that has none yet. */
  lemma CalledKeeps(x: Exchange, call: FunctionCall, source: Source, request: RequestId, index: Index)
    requires ExchangeOk(x, request, index) && call in x.advertised && !HasCall(x, call.id)
    requires source in index && index[source].payload.ToolCalled?
    requires index[source].payload.request == request && index[source].payload.call == call
    ensures ExchangeOk(x.(calls := x.calls + [CallReceipt(call.id, source)]), request, index)
  {
    var called := x.(calls := x.calls + [CallReceipt(call.id, source)]);
    forall i | 0 <= i < |x.results| ensures ResultOk(x.results[i], called, request, index) {
      assert ResultOk(x.results[i], x, request, index);
      if HasCall(x, x.results[i].callId) {
        var k :| 0 <= k < |x.calls| && x.calls[k].callId == x.results[i].callId;
        assert called.calls[k].callId == x.results[i].callId;
      }
    }
    forall i | 0 <= i < |called.calls| ensures CallOk(called.calls[i], called, request, index) {
      if i < |x.calls| {
        assert CallOk(x.calls[i], x, request, index);
      }
    }
  }

  lemma MoreCalls(x: Exchange, r: CallReceipt)
    ensures Gathered(x.(calls := x.calls + [r])) == Gathered(x) + multiset{r.source}
  {
    assert CallSources(x.calls + [r]) == CallSources(x.calls) + [r.source];
  }

  lemma MoreResults(x: Exchange, r: ResultEntry)
    ensures Gathered(x.(results := x.results + [r])) == Gathered(x) + multiset{r.source}
  {
    assert ResultSources(x.results + [r]) == ResultSources(x.results) + [r.source];
  }

  lemma Grown(after: multiset<Source>, before: multiset<Source>, had: multiset<Source>, added: multiset<Source>)
    requires after + had == before + (had + added)
    ensures after == before + added
  {
    forall x ensures after[x] == (before + added)[x] {
      assert (after + had)[x] == (before + (had + added))[x];
    }
  }

  /** The recorded result that a tool message answers. */
  ghost predicate Results(e: Event, request: RequestId, callId: string, message: ChatMessage, synthetic: bool) {
    && e.payload.ToolResult? && e.payload.request == request && e.payload.callId == callId
    && e.payload.message == message && e.payload.synthetic == synthetic
    && message.Tool? && message.toolCallId == callId
  }

  lemma AddResultKeeps(
    x: Exchange, callId: string, message: ChatMessage, e: Event, synthetic: bool, request: RequestId, index: Index)
    requires ExchangeOk(x, request, index) && e.source in index && index[e.source] == e
    requires Results(e, request, callId, message, synthetic) && (!synthetic ==> HasCall(x, callId))
    requires AddResult(x, callId, message, e.source, synthetic).Some?
    ensures var added := AddResult(x, callId, message, e.source, synthetic).value;
            && ExchangeOk(added, request, index) && added.source == x.source
            && Gathered(added) == Gathered(x) + multiset{e.source}
  {
    hide DistinctCalls, Gathered, Advertises, HasCall;
    var r := ResultEntry(callId, message, e.source, synthetic);
    var added := AddResult(x, callId, message, e.source, synthetic).value;
    MoreResults(x, r);
    assert Advertises(added, callId) by { SameAdvertised(x, added, callId); }
    forall i | 0 <= i < |x.calls| ensures CallOk(x.calls[i], added, request, index) {
      assert CallOk(x.calls[i], x, request, index);
    }
    forall i | 0 <= i < |added.results| ensures ResultOk(added.results[i], added, request, index) {
      if i < |x.results| {
        assert ResultOk(x.results[i], x, request, index);
        SameAdvertised(x, added, x.results[i].callId);
        SameCalls(x, added, x.results[i].callId);
      } else {
        SameCalls(x, added, callId);
      }
    }
  }

  lemma SameAdvertised(x: Exchange, y: Exchange, callId: string)
    requires x.advertised == y.advertised
    ensures Advertises(x, callId) == Advertises(y, callId)
  {
  }

  lemma SameCalls(x: Exchange, y: Exchange, callId: string)
    requires x.calls == y.calls
    ensures HasCall(x, callId) == HasCall(y, callId)
  {
  }

  lemma OpenResultKeeps(
    s: FoldState, e: Event, request: RequestId, callId: string, message: ChatMessage, synthetic: bool)
    requires Ready(s, e) && s.open.Some? && Results(e, request, callId, message, synthetic)
    requires OnOpenResult(s, e, request, callId, message, synthetic).Some?
    ensures Kept(s, e, OnOpenResult(s, e, request, callId, message, synthetic).value)
  {
    hide Parts, Held, PutBuffer, BufferOf, OpenReceipts, AddResult, HasCall, ExchangeOk, Gathered;
    var open := s.open.value;
    OpenDialogues(s);
    BufferIsOk(open.dialogues, request, open.turn, s.index);
    var before := BufferOf(open.dialogues, request);
    var x := before.exchange.value;
    AddResultKeeps(x, callId, message, e, synthetic, request, s.index);
    var added := AddResult(x, callId, message, e.source, synthetic).value;
    WithBufferKeeps(s, before.(exchange := Some(added)), open.perceptionConsumed);
    Grown(Held(OnOpenResult(s, e, request, callId, message, synthetic).value), Held(s), Gathered(x), multiset{e.source});
  }
}
