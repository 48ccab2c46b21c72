/**
 Class `ContextFold` of `src/context/fold.ts`: the fields its handlers update, the
 surface object they append to and splice, and the flag that stops it for good after
 a failure. Every handler does exactly what its step function says.
 */
module ContextFolds {
  import opened Wrappers
  import opened Contracts
  import opened Events
  import opened Groups
  import opened Surfaces
  import opened FoldSteps

  class ContextFold {
    var config: Option<Configured>
    var surface: Surface?
    var open: Option<OpenTurn>
    var recovery: seq<RecoveryEntry>
    var pending: seq<CompactionStart>
    var summaries: map<Digest, Offered>
    var seen: seq<Event>
    var index: Index
    var watermark: Option<Source>
    var poisoned: bool

    ghost function State(): FoldState
      reads this, surface
    {
      FoldState(config, if surface == null then None else Some(surface.groups), open, recovery, pending,
                summaries, seen, index, watermark)
    }

    constructor ()
      ensures State() == INITIAL && !poisoned && surface == null
    {
      config, surface, open, recovery := None, null, None, [];
      pending, summaries, seen, index, watermark := [], map[], [], map[], None;
      poisoned := false;
    }

    /** The handler did what `r` says: the next state, or a refusal that says nothing of the state. */
    ghost predicate Did(r: Option<FoldState>, ok: bool)
      reads this, surface
    {
      ok == r.Some? && (ok ==> State() == r.value)
    }

    method HandleConfig(e: Event, version: nat, value: AgentConfig) returns (ok: bool)
      modifies this, surface
      ensures Did(OnConfig(old(State()), e, version, value), ok)
      ensures (surface == old(surface) || fresh(surface)) && poisoned == old(poisoned)
    {
      if value.version != version { return false; }
      if config == None {
        if value.version < 1 { return false; }
        surface := new Surface(value.heading, e.source);
      } else {
        if value.version <= config.value.value.version { return false; }
        if surface == null { return false; }
        var rewritten := surface.ReplaceHeading(value.heading, e.source, index);
        if !rewritten { return false; }
      }
      config := Some(Configured(value, e.source));
      ok := true;
    }

    method HandleTurnStart(e: Event, turn: nat, world: WorldRange) returns (ok: bool)
      modifies this`open
      ensures Did(OnTurnStart(old(State()), e, turn, world), ok)
    {
      if open.Some? { return false; }
      open := Some(OpenTurn(e.source, turn, world, None, false, false, []));
      ok := true;
    }

    method HandlePerception(e: Event, turn: nat, range: WorldRange, value: Perceived) returns (ok: bool)
      modifies this`open
      ensures Did(OnPerception(old(State()), e, turn, range, value), ok)
    {
      if open.None? || turn != open.value.turn || open.value.perceptionSeen { return false; }
      if range != open.value.world || value.range != range { return false; }
      var group := if value.text == "" then None else Some(PerceptionGroup(e.source, open.value.turn, value.text));
      open := Some(open.value.(perceptionSeen := true, perception := group));
      ok := true;
    }

    method HandleRefused(request: RequestId) returns (ok: bool)
      modifies this`open
      ensures Did(OnRefused(old(State()), request), ok)
    {
      if open.None? || request.turn != open.value.turn { return false; }
      var buffer := BufferOf(open.value.dialogues, request);
      if buffer.refused || buffer.exchange.Some? { return false; }
      Store(buffer.(refused := true));
      ok := true;
    }

    method Store(buffer: Buffer)
      requires open.Some?
      modifies this`open
      ensures open == Some(old(open).value.(dialogues := PutBuffer(old(open).value.dialogues, buffer)))
    {
      open := Some(open.value.(dialogues := PutBuffer(open.value.dialogues, buffer)));
    }

    method HandleAssistant(e: Event, request: RequestId, text: Option<string>, calls: seq<FunctionCall>)
      returns (ok: bool)
      modifies this`open
      ensures Did(OnAssistant(old(State()), e, request, text, calls), ok)
    {
      if open.None? || request.turn != open.value.turn { return false; }
      var buffer := BufferOf(open.value.dialogues, request);
      if buffer.refused || buffer.exchange.Some? { return false; }
      var ids: set<string> := {};
      for i := 0 to |calls|
        invariant forall j, k :: 0 <= j < k < i ==> calls[j].id != calls[k].id
        invariant forall id :: id in ids <==> exists j :: 0 <= j < i && calls[j].id == id
        invariant open == old(open)
      {
        if calls[i].id in ids { return false; }
        ids := ids + {calls[i].id};
      }
      Store(buffer.(exchange := Some(Exchange(e.source, text, calls, [], []))));
      if open.value.perception.Some? && !open.value.perceptionConsumed {
        open := Some(open.value.(perceptionConsumed := true));
      }
      ok := true;
    }

    method HandleToolCall(e: Event, turn: nat, request: RequestId, call: FunctionCall) returns (ok: bool)
      modifies this`open
      ensures Did(OnToolCall(old(State()), e, turn, request, call), ok)
    {
      if open.None? || turn != open.value.turn || request.turn != open.value.turn { return false; }
      var buffer := BufferOf(open.value.dialogues, request);
      if buffer.exchange.None? { return false; }
      var x := buffer.exchange.value;
      if call !in x.advertised || HasCall(x, call.id) { return false; }
      Store(buffer.(exchange := Some(x.(calls := x.calls + [CallReceipt(call.id, e.source)]))));
      ok := true;
    }

    method HandleOpenResult(e: Event, request: RequestId, callId: string, message: ChatMessage, synthetic: bool)
      returns (ok: bool)
      requires open.Some?
      modifies this`open
      ensures Did(OnOpenResult(old(State()), e, request, callId, message, synthetic), ok)
    {
      var buffer := BufferOf(open.value.dialogues, request);
      if buffer.exchange.None? { return false; }
      var x := buffer.exchange.value;
      if !Advertises(x, callId) || (!synthetic && !HasCall(x, callId)) || HasResult(x, callId) { return false; }
      var results := x.results + [ResultEntry(callId, message, e.source, synthetic)];
      Store(buffer.(exchange := Some(x.(results := results))));
      ok := true;
    }

    /** `promoteDialogue` and the append of `promoteRecovered`. */
    method Promote(x: Exchange, turn: nat) returns (ok: bool)
      requires surface != null && IsComplete(x)
      modifies surface
      ensures Applied(AppendGroup(old(surface.groups), DialogueGroup(x, turn), index), old(surface.groups), ok,
                      surface.groups)
    {
      hide IsComplete, AppendGroup, ResultMessages, SortUnique;
      var messages := [Assistant(x.text, x.advertised)] + ResultMessages(x);
      var sources := SortUniqueReceipts([x.source] + CallSources(x.calls) + ResultSources(x.results));
      ok := surface.Append(SurfaceGroup(x.source, Dialogue, turn, messages, sources), index);
    }

    method HandleRecoveryResult(e: Event, turn: nat, request: RequestId, callId: string, message: ChatMessage)
      returns (ok: bool)
      modifies this`recovery, surface
      ensures Did(OnRecoveryResult(old(State()), e, turn, request, callId, message), ok)
    {
      hide IsComplete, AppendGroup, DialogueGroup, Advertises, HasResult;
      var at := FindRecovery(recovery, turn, request);
      if at == |recovery| { return false; }
      var x := recovery[at].exchange;
      if !Advertises(x, callId) || HasResult(x, callId) { return false; }
      var added := x.(results := x.results + [ResultEntry(callId, message, e.source, true)]);
      if !IsComplete(added) {
        recovery := recovery[at := recovery[at].(exchange := added)];
        return true;
      }
      if surface == null { return false; }
      var promoted := Promote(added, turn);
      if !promoted { return false; }
      recovery := recovery[..at] + recovery[at + 1..];
      ok := true;
    }

    method HandleToolResult(e: Event) returns (ok: bool)
      requires e.payload.ToolResult?
      modifies this`open, this`recovery, surface
      ensures Did(OnToolResult(old(State()), e, e.payload), ok)
    {
      hide OnOpenResult, OnRecoveryResult;
      var p := e.payload;
      if !p.message.Tool? || p.message.toolCallId != p.callId { return false; }
      if open.Some? && open.value.turn == p.turn && p.request.turn == open.value.turn {
        ok := HandleOpenResult(e, p.request, p.callId, p.message, p.synthetic);
        return;
      }
      if !p.synthetic || p.raw { return false; }
      ok := HandleRecoveryResult(e, p.turn, p.request, p.callId, p.message);
    }

    method HandleFact(kind: GroupKind, source: Source, message: ChatMessage) returns (ok: bool)
      modifies surface
      ensures Did(OnFact(old(State()), kind, source, message), ok)
    {
      hide AppendGroup;
      if surface == null { return false; }
      var turn := if open.None? then 0 else open.value.turn;
      ok := surface.Append(FactGroup(kind, source, turn, message), index);
    }

    /** The validation loop: nothing is changed before it has passed over the whole turn. */
    method SiftTurn(success: bool, ignorable: bool) returns (sifted: Option<Sifted>)
      requires open.Some?
      ensures sifted == Sift(open.value.dialogues, open.value.turn, success, ignorable)
    {
      hide IsComplete;
      var dialogues, turn := open.value.dialogues, open.value.turn;
      var kept := Sifted([], []);
      for i := 0 to |dialogues|
        invariant Sift(dialogues[..i], turn, success, ignorable) == Some(kept)
      {
        assert dialogues[..i + 1][..i] == dialogues[..i];
        var next := SiftOne(kept, dialogues[i], turn, success, ignorable);
        if next.None? {
          SiftStops(dialogues, i + 1, turn, success, ignorable);
          return None;
        }
        kept := next.value;
      }
      assert dialogues[..|dialogues|] == dialogues;
      sifted := Some(kept);
    }

    method PromoteEach(promote: seq<Exchange>, turn: nat) returns (ok: bool)
      requires surface != null
      modifies surface
      ensures var r := PromoteAll(old(surface.groups), promote, turn, index);
              ok == r.Some? && (ok ==> surface.groups == r.value)
    {
      hide IsComplete, AppendGroup, DialogueGroup;
      for i := 0 to |promote|
        invariant PromoteAll(old(surface.groups), promote[..i], turn, index) == Some(surface.groups)
      {
        assert promote[..i + 1][..i] == promote[..i];
        var appended := false;
        if IsComplete(promote[i]) {
          appended := Promote(promote[i], turn);
        }
        if !appended {
          PromoteStops(old(surface.groups), promote, i + 1, turn, index);
          return false;
        }
      }
      assert promote[..|promote|] == promote;
      ok := true;
    }

    method CommitOpenTurn(promote: seq<Exchange>) returns (ok: bool)
      requires open.Some?
      modifies surface
      ensures var r := CommitTurn(old(State()).surface, open.value, promote, index);
              ok == r.Some? && (ok ==> State().surface == r.value)
    {
      hide AppendGroup, PromoteAll;
      if surface == null {
        ok := promote == [];
        return;
      }
      if open.value.perception.Some? {
        var appended := surface.Append(open.value.perception.value, index);
        if !appended { return false; }
      }
      ok := PromoteEach(promote, open.value.turn);
    }

    method HandleTurnEnd(ignorable: bool, turn: nat, outcome: Outcome) returns (ok: bool)
      modifies this`open, this`recovery, surface
      ensures Did(OnTurnEnd(old(State()), ignorable, turn, outcome), ok)
    {
      hide Sift, CommitTurn;
      if open.None? || turn != open.value.turn { return false; }
      var success := outcome == Chained || outcome == Waiting;
      var sifted := SiftTurn(success, ignorable);
      if sifted.None? { return false; }
      var committed := CommitOpenTurn(sifted.value.promote);
      if !committed { return false; }
      recovery := recovery + sifted.value.recover;
      open := None;
      ok := true;
    }

    method HandleCompactionStart(start: CompactionStart) returns (ok: bool)
      modifies this`pending
      ensures Did(OnCompactionStart(old(State()), start), ok)
    {
      if surface == null || FindPending(pending, start.id) < |pending| { return false; }
      if !AllKnown(start.groupIds, index) || !AllKnown(start.sources, index) { return false; }
      pending := pending + [start];
      ok := true;
    }

    method HandleCompactionSummary(e: Event, summary: CompactionSummary) returns (ok: bool)
      modifies this`summaries
      ensures Did(OnCompactionSummary(old(State()), e, summary), ok)
    {
      if FindPending(pending, summary.id) == |pending| || summary.id in summaries { return false; }
      if !AllKnown(summary.sources, index) { return false; }
      summaries := summaries[summary.id := Offered(summary, e.source)];
      ok := true;
    }

    method HandleCompactionEnd(id: Digest, receipt: Source) returns (ok: bool)
      modifies this`pending, this`summaries, surface
      ensures Did(OnCompactionEnd(old(State()), id, receipt), ok)
    {
      hide ReplaceCommitted;
      var at := FindPending(pending, id);
      if at == |pending| || id !in summaries { return false; }
      var offered := summaries[id];
      if offered.source != receipt || surface == null { return false; }
      var replaced := surface.Replace(pending[at], offered.summary, offered.source, index);
      if !replaced { return false; }
      pending := Without(pending, at);
      summaries := summaries - {id};
      ok := true;
    }

    method HandleCompactionAbort(id: Digest) returns (ok: bool)
      modifies this`pending, this`summaries
      ensures Did(OnCompactionAbort(old(State()), id), ok)
    {
      var at := FindPending(pending, id);
      if at == |pending| { return false; }
      pending := Without(pending, at);
      summaries := summaries - {id};
      ok := true;
    }

    /** `process`. */
    method HandleEvent(e: Event) returns (ok: bool)
      modifies this, surface
      ensures Did(Process(old(State()), e), ok)
      ensures (surface == old(surface) || fresh(surface)) && poisoned == old(poisoned)
    {
      hide OnConfig, OnTurnStart, OnTurnEnd, OnPerception, OnRefused, OnAssistant, OnToolCall,
        OnToolResult, OnCompactionStart, OnCompactionSummary, OnCompactionEnd, OnCompactionAbort, OnFact;
      match e.payload
      case Inert => ok := true;
      case Malformed => ok := false;
      case SystemMessage(version, value) => ok := HandleConfig(e, version, value);
      case TurnStart(turn, world) => ok := HandleTurnStart(e, turn, world);
      case TurnEnd(turn, outcome) => ok := HandleTurnEnd(e.ignorable, turn, outcome);
      case WorldPerception(turn, range, value) => ok := HandlePerception(e, turn, range, value);
      case RequestRefused(request) => ok := HandleRefused(request);
      case AssistantMessage(request, text, calls) => ok := HandleAssistant(e, request, text, calls);
      case ToolCalled(turn, request, call) => ok := HandleToolCall(e, turn, request, call);
      case ToolResult(_, _, _, _, _, _) => ok := HandleToolResult(e);
      case CompactionStarted(start) => ok := HandleCompactionStart(start);
      case CompactionSummarized(summary) => ok := HandleCompactionSummary(e, summary);
      case CompactionEnded(id, receipt) => ok := HandleCompactionEnd(id, receipt);
      case CompactionAborted(id) => ok := HandleCompactionAbort(id);
      case PackageFact(line) => ok := HandleFact(Package, e.source, User(line));
      case CommitRefused(line) => ok := HandleFact(Refusal, e.source, System(line));
    }

    /** One delivered event. */
    method ObserveEvent(e: Event) returns (ok: bool)
      modifies this, surface
      ensures Did(ObserveOne(old(State()), e), ok)
      ensures (surface == old(surface) || fresh(surface)) && poisoned == old(poisoned)
    {
      hide Process;
      if e.source.position < |seen| {
        ok := seen[e.source.position].source.hash == e.source.hash;
        return;
      }
      if e.source.position != |seen| { return false; }
      index := index[e.source := e];
      ok := HandleEvent(e);
      if !ok { return; }
      seen := seen + [e];
      watermark := Some(e.source);
    }

    /** `observe`: a poisoned fold refuses; any failure poisons it. */
    method ObserveAll(events: seq<Event>) returns (ok: bool)
      modifies this, surface
      ensures ok == (!old(poisoned) && Observe(old(State()), events).Some?)
      ensures ok ==> State() == Observe(old(State()), events).value
      ensures poisoned == !ok
    {
      if poisoned { return false; }
      for i := 0 to |events|
        invariant !poisoned && (surface == old(surface) || fresh(surface))
        invariant Observe(State(), events[i..]) == Observe(old(State()), events)
      {
        hide ObserveOne;
        assert events[i..][0] == events[i] && events[i..][1..] == events[i + 1..];
        var observed := ObserveEvent(events[i]);
        if !observed {
          poisoned := true;
          return false;
        }
      }
      ok := true;
    }
  }

  // --- a loop that stops early has the whole loop's answer ---------------------------------

  lemma {:induction false} SiftStops(dialogues: seq<Buffer>, n: nat, turn: nat, success: bool, ignorable: bool)
    requires n <= |dialogues| && Sift(dialogues[..n], turn, success, ignorable).None?
    ensures Sift(dialogues, turn, success, ignorable).None?
    decreases |dialogues| - n
  {
    hide SiftOne;
    if n == |dialogues| {
      assert dialogues[..n] == dialogues;
    } else {
      assert dialogues[..n + 1][..n] == dialogues[..n];
      SiftStops(dialogues, n + 1, turn, success, ignorable);
    }
  }

  lemma {:induction false} PromoteStops(
    groups: seq<SurfaceGroup>, promote: seq<Exchange>, n: nat, turn: nat, index: Index)
    requires n <= |promote| && PromoteAll(groups, promote[..n], turn, index).None?
    ensures PromoteAll(groups, promote, turn, index).None?
    decreases |promote| - n
  {
    hide AppendGroup, IsComplete, DialogueGroup;
    if n == |promote| {
      assert promote[..n] == promote;
    } else {
      assert promote[..n + 1][..n] == promote[..n];
      PromoteStops(groups, promote, n + 1, turn, index);
    }
  }
}
