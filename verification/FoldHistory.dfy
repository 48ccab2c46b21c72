/**
 What the fold's state says of the events behind it, and so which event the fold accepts
 next: every rule of the handlers, read off the history instead of the state.
 */
module FoldHistory {
  import opened Wrappers
  import opened Contracts
  import opened Events
  import opened Groups
  import opened Surfaces
  import opened FoldSteps
  import opened FoldInvariant
  import opened Conservation
  import opened Handlers
  import opened Closers
  import opened FoldRuns

  // --- reading the history ------------------------------------------------------------------

  /** The event that opened the turn still open. */
  ghost function OpenedBy(events: seq<Event>): Option<Event> {
    if events == [] then None
    else
      var e := events[|events| - 1];
      if e.payload.TurnStart? then Some(e)
      else if e.payload.TurnEnd? then None
      else OpenedBy(events[..|events| - 1])
  }

  /** The events since a turn last opened or closed. */
  ghost function TurnEvents(events: seq<Event>): seq<Event> {
    if events == [] then []
    else
      var e := events[|events| - 1];
      if e.payload.TurnStart? || e.payload.TurnEnd? then [] else TurnEvents(events[..|events| - 1]) + [e]
  }

  /** The latest configuration. */
  ghost function LastConfig(events: seq<Event>): Option<Event> {
    if events == [] then None
    else
      var e := events[|events| - 1];
      if e.payload.SystemMessage? then Some(e) else LastConfig(events[..|events| - 1])
  }

  /** The perception among a turn's events. */
  ghost function PerceivedIn(turn: seq<Event>): Option<Event> {
    if turn == [] then None
    else
      var e := turn[|turn| - 1];
      if e.payload.WorldPerception? then Some(e) else PerceivedIn(turn[..|turn| - 1])
  }

  /** The assistant message that answered a request among a turn's events. */
  ghost function AnsweredIn(turn: seq<Event>, request: RequestId): Option<Event> {
    if turn == [] then None
    else
      var e := turn[|turn| - 1];
      if e.payload.AssistantMessage? && e.payload.request == request then Some(e)
      else AnsweredIn(turn[..|turn| - 1], request)
  }

  ghost predicate RefusedIn(turn: seq<Event>, request: RequestId) {
    exists i :: 0 <= i < |turn| && turn[i].payload == RequestRefused(request)
  }

  /** The call was made for the request, and recorded. */
  ghost predicate CalledIn(turn: seq<Event>, request: RequestId, callId: string) {
    exists i :: 0 <= i < |turn| && Calls(turn[i].payload, request, callId)
  }

  predicate Calls(p: Payload, request: RequestId, callId: string) {
    p.ToolCalled? && p.request == request && p.call.id == callId
  }

  /** The call's result came back within the request's own turn. */
  ghost predicate ResultIn(turn: seq<Event>, request: RequestId, callId: string) {
    exists i :: 0 <= i < |turn| && Resolves(turn[i].payload, request, callId)
  }

  predicate Resolves(p: Payload, request: RequestId, callId: string) {
    p.ToolResult? && p.turn == request.turn && p.request == request && p.callId == callId
  }

  /** What a turn's perception shows: one group of its own receipt, or nothing when it had no text. */
  ghost function Shown(p: Option<Event>): seq<SurfaceGroup> {
    if p.None? || !p.value.payload.WorldPerception? || p.value.payload.value.text == "" then []
    else
      var e := p.value;
      [SurfaceGroup(e.source, Perception, e.payload.turn, [User(e.payload.value.text)], [e.source])]
  }

  /** Some answer came after the turn's perception had something to show. */
  ghost predicate ConsumedIn(turn: seq<Event>) {
    if turn == [] then false
    else
      var before, e := turn[..|turn| - 1], turn[|turn| - 1];
      ConsumedIn(before) || (e.payload.AssistantMessage? && Shown(PerceivedIn(before)) != [])
  }

  // --- the state tells the history --------------------------------------------------------------

  ghost predicate PerceptionTraced(open: OpenTurn, p: Option<Event>) {
    && open.perceptionSeen == p.Some? && (p.Some? ==> p.value.payload.WorldPerception?)
    && Shown(p) == if open.perception.Some? then [open.perception.value] else []
  }

  ghost predicate BufferTraced(b: Buffer, turn: seq<Event>) {
    var answer := AnsweredIn(turn, b.request);
    && b.refused == RefusedIn(turn, b.request)
    && b.exchange.Some? == answer.Some?
    && (b.exchange.Some? ==> ExchangeTraced(b.exchange.value, b.request, answer.value, turn))
    && (b.exchange.None? ==> forall id :: !CalledIn(turn, b.request, id) && !ResultIn(turn, b.request, id))
  }

  ghost predicate ExchangeTraced(x: Exchange, request: RequestId, answer: Event, turn: seq<Event>) {
    && answer.payload == AssistantMessage(request, x.text, x.advertised) && answer.source == x.source
    && (forall id :: HasCall(x, id) <==> CalledIn(turn, request, id))
    && (forall id :: HasResult(x, id) <==> ResultIn(turn, request, id))
  }

  ghost predicate BuffersTraced(dialogues: seq<Buffer>, number: nat, turn: seq<Event>) {
    forall r: RequestId :: r.turn == number ==> BufferTraced(BufferOf(dialogues, r), turn)
  }

  ghost function SourceOf(b: Buffer): seq<Source> {
    if b.exchange.Some? then [b.exchange.value.source] else []
  }

  /** The assistant messages the buffers hold, in their order. */
  ghost function BufferedSources(dialogues: seq<Buffer>): seq<Source> {
    if dialogues == [] then []
    else BufferedSources(dialogues[..|dialogues| - 1]) + SourceOf(dialogues[|dialogues| - 1])
  }

  /** The assistant messages among a turn's events. */
  ghost function AnswerSources(turn: seq<Event>): seq<Source> {
    if turn == [] then []
    else
      var e := turn[|turn| - 1];
      AnswerSources(turn[..|turn| - 1]) + (if e.payload.AssistantMessage? then [e.source] else [])
  }

  /** One buffer per request of the turn, answered ones in the order of their answers. */
  ghost predicate Lined(dialogues: seq<Buffer>, number: nat, turn: seq<Event>) {
    && (forall i :: 0 <= i < |dialogues| ==>
          dialogues[i].request.turn == number && (dialogues[i].exchange.None? ==> dialogues[i].refused))
    && (forall i, j :: 0 <= i < j < |dialogues| ==> dialogues[i].request != dialogues[j].request)
    && BufferedSources(dialogues) == AnswerSources(turn)
  }

  ghost predicate OpenTraced(open: OpenTurn, started: Event, turn: seq<Event>) {
    && started.payload == TurnStart(open.turn, open.world) && started.source == open.start
    && PerceptionTraced(open, PerceivedIn(turn)) && open.perceptionConsumed == ConsumedIn(turn)
    && BuffersTraced(open.dialogues, open.turn, turn)
    && Lined(open.dialogues, open.turn, turn)
  }

  ghost predicate ConfigTraced(s: FoldState, last: Option<Event>) {
    && s.config.Some? == last.Some? == s.surface.Some?
    && (last.Some? ==>
          && last.value.payload.SystemMessage?
          && s.config.value == Configured(last.value.payload.config, last.value.source)
          && s.surface.value != [] && s.surface.value[0].id == last.value.source)
  }

  ghost predicate TurnTraced(open: Option<OpenTurn>, started: Option<Event>, turn: seq<Event>) {
    open.Some? == started.Some? && (open.Some? ==> OpenTraced(open.value, started.value, turn))
  }

  /** The state after these events, as far as the open turn and the configuration go. */
  ghost predicate Traced(s: FoldState, events: seq<Event>) {
    TurnTraced(s.open, OpenedBy(events), TurnEvents(events)) && ConfigTraced(s, LastConfig(events))
  }

  // --- one more event ------------------------------------------------------------------------------

  lemma OneMoreEvent(events: seq<Event>, e: Event)
    ensures OpenedBy(events + [e]) ==
      if e.payload.TurnStart? then Some(e) else if e.payload.TurnEnd? then None else OpenedBy(events)
    ensures TurnEvents(events + [e]) ==
      if e.payload.TurnStart? || e.payload.TurnEnd? then [] else TurnEvents(events) + [e]
    ensures LastConfig(events + [e]) == if e.payload.SystemMessage? then Some(e) else LastConfig(events)
  {
    assert (events + [e])[..|events|] == events;
  }

  lemma OneMoreInTurn(turn: seq<Event>, e: Event, r: RequestId)
    ensures PerceivedIn(turn + [e]) == if e.payload.WorldPerception? then Some(e) else PerceivedIn(turn)
    ensures AnsweredIn(turn + [e], r) ==
      if e.payload.AssistantMessage? && e.payload.request == r then Some(e) else AnsweredIn(turn, r)
    ensures RefusedIn(turn + [e], r) <==> RefusedIn(turn, r) || e.payload == RequestRefused(r)
    ensures ConsumedIn(turn + [e]) <==>
              ConsumedIn(turn) || (e.payload.AssistantMessage? && Shown(PerceivedIn(turn)) != [])
  {
    var longer := turn + [e];
    assert longer[..|turn|] == turn && longer[|turn|] == e;
    if RefusedIn(turn, r) {
      var i :| 0 <= i < |turn| && turn[i].payload == RequestRefused(r);
      assert longer[i].payload == RequestRefused(r);
    }
  }

  lemma OneMoreReceipt(turn: seq<Event>, e: Event, r: RequestId, id: string)
    ensures CalledIn(turn + [e], r, id) <==> CalledIn(turn, r, id) || Calls(e.payload, r, id)
    ensures ResultIn(turn + [e], r, id) <==> ResultIn(turn, r, id) || Resolves(e.payload, r, id)
  {
    hide Calls, Resolves;
    var longer := turn + [e];
    assert longer[|turn|] == e;
    if CalledIn(turn, r, id) {
      var i :| 0 <= i < |turn| && Calls(turn[i].payload, r, id);
      assert Calls(longer[i].payload, r, id);
    }
    if ResultIn(turn, r, id) {
      var i :| 0 <= i < |turn| && Resolves(turn[i].payload, r, id);
      assert Resolves(longer[i].payload, r, id);
    }
  }

  /** An event that tells a buffer nothing leaves it traced. */
  lemma BufferStays(b: Buffer, turn: seq<Event>, e: Event)
    requires BufferTraced(b, turn) && !Concerns(e, b.request)
    ensures BufferTraced(b, turn + [e])
  {
    hide RefusedIn, CalledIn, ResultIn, AnsweredIn, HasCall, HasResult;
    OneMoreInTurn(turn, e, b.request);
    forall id ensures CalledIn(turn + [e], b.request, id) <==> CalledIn(turn, b.request, id)
      ensures ResultIn(turn + [e], b.request, id) <==> ResultIn(turn, b.request, id)
    {
      OneMoreReceipt(turn, e, b.request, id);
    }
  }

  /** The event is one step of the request's own exchange, within its turn. */
  predicate Concerns(e: Event, r: RequestId) {
    || (e.payload.RequestRefused? && e.payload.request == r)
    || (e.payload.AssistantMessage? && e.payload.request == r)
    || (e.payload.ToolCalled? && e.payload.request == r)
    || (e.payload.ToolResult? && e.payload.request == r && e.payload.turn == r.turn)
  }

  lemma BuffersStay(dialogues: seq<Buffer>, number: nat, turn: seq<Event>, e: Event)
    requires BuffersTraced(dialogues, number, turn)
    requires forall r: RequestId :: r.turn == number ==> !Concerns(e, r)
    ensures BuffersTraced(dialogues, number, turn + [e])
  {
    hide BufferOf, BufferTraced, Concerns;
    forall r: RequestId | r.turn == number ensures BufferTraced(BufferOf(dialogues, r), turn + [e]) {
      assert BufferOf(dialogues, r).request == r by { BufferIsOf(dialogues, r); }
      BufferStays(BufferOf(dialogues, r), turn, e);
    }
  }

  lemma BufferIsOf(dialogues: seq<Buffer>, r: RequestId)
    ensures BufferOf(dialogues, r).request == r
  {
  }

  lemma {:induction false} FindIsFirst(dialogues: seq<Buffer>, r: RequestId)
    ensures forall i :: 0 <= i < FindBuffer(dialogues, r) ==> dialogues[i].request != r
  {
    if dialogues != [] && dialogues[0].request != r {
      FindIsFirst(dialogues[1..], r);
    }
  }

  lemma FindUnique(dialogues: seq<Buffer>, r: RequestId, at: nat)
    requires at <= |dialogues| && (at < |dialogues| ==> dialogues[at].request == r)
    requires forall i :: 0 <= i < at ==> dialogues[i].request != r
    ensures FindBuffer(dialogues, r) == at
  {
    FindIsFirst(dialogues, r);
  }

  /** Storing a buffer changes what its own request finds, and nothing else. */
  lemma BufferAfterPut(dialogues: seq<Buffer>, b: Buffer, r: RequestId)
    ensures BufferOf(PutBuffer(dialogues, b), r) == if r == b.request then b else BufferOf(dialogues, r)
  {
    hide FindBuffer;
    var after, at := PutBuffer(dialogues, b), FindBuffer(dialogues, b.request);
    FindIsFirst(dialogues, b.request);
    if r == b.request {
      FindUnique(after, r, at);
    } else {
      var k := FindBuffer(dialogues, r);
      FindIsFirst(dialogues, r);
      FindUnique(after, r, if k < |dialogues| then k else |after|);
    }
  }

  /** A step of one exchange, once its buffer is traced, leaves them all traced. */
  lemma BuffersPut(dialogues: seq<Buffer>, b: Buffer, number: nat, turn: seq<Event>, e: Event)
    requires BuffersTraced(dialogues, number, turn) && BufferTraced(b, turn + [e])
    requires forall r: RequestId :: r != b.request ==> !Concerns(e, r)
    ensures BuffersTraced(PutBuffer(dialogues, b), number, turn + [e])
  {
    hide BufferOf, PutBuffer, BufferTraced, Concerns;
    forall r: RequestId | r.turn == number ensures BufferTraced(BufferOf(PutBuffer(dialogues, b), r), turn + [e]) {
      BufferAfterPut(dialogues, b, r);
      if r != b.request {
        assert BufferOf(dialogues, r).request == r by { BufferIsOf(dialogues, r); }
        BufferStays(BufferOf(dialogues, r), turn, e);
      }
    }
  }

  lemma {:induction false} BufferedUpdate(dialogues: seq<Buffer>, at: nat, b: Buffer)
    requires at < |dialogues| && SourceOf(b) == SourceOf(dialogues[at])
    ensures BufferedSources(dialogues[at := b]) == BufferedSources(dialogues)
  {
    hide SourceOf;
    var last, updated := |dialogues| - 1, dialogues[at := b];
    if at < last {
      BufferedUpdate(dialogues[..last], at, b);
      assert updated[..last] == dialogues[..last][at := b];
    } else {
      assert updated[..last] == dialogues[..last];
    }
  }

  lemma AnswersMore(turn: seq<Event>, e: Event)
    ensures AnswerSources(turn + [e]) == AnswerSources(turn) + if e.payload.AssistantMessage? then [e.source] else []
  {
    assert (turn + [e])[..|turn|] == turn;
  }

  lemma LinedStay(dialogues: seq<Buffer>, number: nat, turn: seq<Event>, e: Event)
    requires Lined(dialogues, number, turn) && !e.payload.AssistantMessage?
    ensures Lined(dialogues, number, turn + [e])
  {
    AnswersMore(turn, e);
  }

  /** A buffer that exists is stored where it was. */
  lemma LinedUpdate(dialogues: seq<Buffer>, b: Buffer, number: nat, turn: seq<Event>, e: Event)
    requires Lined(dialogues, number, turn) && !e.payload.AssistantMessage?
    requires BufferOf(dialogues, b.request).exchange.Some? && b.exchange.Some?
    requires b.exchange.value.source == BufferOf(dialogues, b.request).exchange.value.source
    ensures Lined(PutBuffer(dialogues, b), number, turn + [e])
  {
    hide BufferedSources, AnswerSources, FindBuffer;
    var at := FindBuffer(dialogues, b.request);
    AnswersMore(turn, e);
    BufferedUpdate(dialogues, at, b);
    var after := dialogues[at := b];
    forall i, j | 0 <= i < j < |after| ensures after[i].request != after[j].request {
      assert after[i].request == dialogues[i].request && after[j].request == dialogues[j].request;
    }
  }

  /** A request's first buffer is stored behind the others. */
  lemma LinedAppend(dialogues: seq<Buffer>, b: Buffer, number: nat, turn: seq<Event>, e: Event)
    requires Lined(dialogues, number, turn) && b.request.turn == number
    requires !BufferOf(dialogues, b.request).refused && BufferOf(dialogues, b.request).exchange.None?
    requires if e.payload.AssistantMessage? then SourceOf(b) == [e.source] else b.exchange.None? && b.refused
    ensures Lined(PutBuffer(dialogues, b), number, turn + [e])
  {
    AnswersMore(turn, e);
    FindIsFirst(dialogues, b.request);
    assert FindBuffer(dialogues, b.request) == |dialogues|;
    assert (dialogues + [b])[..|dialogues|] == dialogues;
  }

  // --- each handler keeps it ---------------------------------------------------------------------------

  lemma RefusedTraced(b: Buffer, turn: seq<Event>, e: Event)
    requires BufferTraced(b, turn) && e.payload == RequestRefused(b.request) && b.exchange.None?
    ensures BufferTraced(b.(refused := true), turn + [e])
  {
    hide RefusedIn, CalledIn, ResultIn, AnsweredIn;
    OneMoreInTurn(turn, e, b.request);
    forall id ensures !CalledIn(turn + [e], b.request, id) && !ResultIn(turn + [e], b.request, id) {
      OneMoreReceipt(turn, e, b.request, id);
    }
  }

  lemma AnswerTraced(b: Buffer, turn: seq<Event>, e: Event, text: Option<string>, calls: seq<FunctionCall>)
    requires BufferTraced(b, turn) && e.payload == AssistantMessage(b.request, text, calls) && b.exchange.None?
    ensures BufferTraced(b.(exchange := Some(Exchange(e.source, text, calls, [], []))), turn + [e])
  {
    hide RefusedIn, CalledIn, ResultIn, AnsweredIn;
    OneMoreInTurn(turn, e, b.request);
    forall id ensures !CalledIn(turn + [e], b.request, id) && !ResultIn(turn + [e], b.request, id) {
      OneMoreReceipt(turn, e, b.request, id);
    }
  }

  lemma CallTraced(b: Buffer, turn: seq<Event>, e: Event, call: FunctionCall)
    requires BufferTraced(b, turn) && e.payload.ToolCalled? && e.payload.request == b.request && e.payload.call == call
    requires b.exchange.Some?
    ensures var x := b.exchange.value;
            BufferTraced(b.(exchange := Some(x.(calls := x.calls + [CallReceipt(call.id, e.source)]))), turn + [e])
  {
    hide RefusedIn, CalledIn, ResultIn, AnsweredIn;
    var x := b.exchange.value;
    var called := x.(calls := x.calls + [CallReceipt(call.id, e.source)]);
    OneMoreInTurn(turn, e, b.request);
    forall id
      ensures HasCall(called, id) <==> CalledIn(turn + [e], b.request, id)
      ensures HasResult(called, id) <==> ResultIn(turn + [e], b.request, id)
    {
      OneMoreReceipt(turn, e, b.request, id);
      CallAdded(x, CallReceipt(call.id, e.source), id);
    }
  }

  lemma CallAdded(x: Exchange, r: CallReceipt, id: string)
    ensures HasCall(x.(calls := x.calls + [r]), id) <==> HasCall(x, id) || r.callId == id
    ensures HasResult(x.(calls := x.calls + [r]), id) <==> HasResult(x, id)
  {
    var longer := x.calls + [r];
    assert longer[|x.calls|] == r;
    if HasCall(x, id) {
      var i :| 0 <= i < |x.calls| && x.calls[i].callId == id;
      assert longer[i].callId == id;
    }
  }

  lemma ResultAdded(x: Exchange, r: ResultEntry, id: string)
    ensures HasResult(x.(results := x.results + [r]), id) <==> HasResult(x, id) || r.callId == id
    ensures HasCall(x.(results := x.results + [r]), id) <==> HasCall(x, id)
  {
    var longer := x.results + [r];
    assert longer[|x.results|] == r;
    if HasResult(x, id) {
      var i :| 0 <= i < |x.results| && x.results[i].callId == id;
      assert longer[i].callId == id;
    }
  }

  lemma ResultTraced(b: Buffer, turn: seq<Event>, e: Event, r: ResultEntry)
    requires BufferTraced(b, turn) && e.payload.ToolResult? && e.payload.request == b.request && b.exchange.Some?
    requires e.payload.turn == b.request.turn && e.payload.callId == r.callId
    ensures var x := b.exchange.value;
            BufferTraced(b.(exchange := Some(x.(results := x.results + [r]))), turn + [e])
  {
    hide RefusedIn, CalledIn, ResultIn, AnsweredIn;
    var x := b.exchange.value;
    var resolved := x.(results := x.results + [r]);
    OneMoreInTurn(turn, e, b.request);
    forall id
      ensures HasCall(resolved, id) <==> CalledIn(turn + [e], b.request, id)
      ensures HasResult(resolved, id) <==> ResultIn(turn + [e], b.request, id)
    {
      OneMoreReceipt(turn, e, b.request, id);
      ResultAdded(x, r, id);
    }
  }

  /** The heading and the configuration are those of before. */
  ghost predicate HeadKept(s: FoldState, t: FoldState) {
    && t.config == s.config && t.surface.Some? == s.surface.Some?
    && (s.surface.Some? && s.surface.value != [] ==> t.surface.value != [] && t.surface.value[0].id == s.surface.value[0].id)
  }

  lemma ConfigStays(s: FoldState, t: FoldState, events: seq<Event>, e: Event)
    requires ConfigTraced(s, LastConfig(events)) && HeadKept(s, t) && !e.payload.SystemMessage?
    ensures ConfigTraced(t, LastConfig(events + [e]))
  {
    OneMoreEvent(events, e);
  }

  /** An event that is no step of the open turn. */
  lemma TurnStays(open: Option<OpenTurn>, events: seq<Event>, e: Event)
    requires TurnTraced(open, OpenedBy(events), TurnEvents(events))
    requires !e.payload.TurnStart? && !e.payload.TurnEnd? && !e.payload.WorldPerception?
    requires !e.payload.AssistantMessage?
    requires open.Some? ==> forall r: RequestId :: r.turn == open.value.turn ==> !Concerns(e, r)
    ensures TurnTraced(open, OpenedBy(events + [e]), TurnEvents(events + [e]))
  {
    hide BuffersTraced, Concerns, PerceptionTraced, Lined;
    OneMoreEvent(events, e);
    if open.Some? {
      LinedStay(open.value.dialogues, open.value.turn, TurnEvents(events), e);
      OneMoreInTurn(TurnEvents(events), e, RequestId(0, 0));
      BuffersStay(open.value.dialogues, open.value.turn, TurnEvents(events), e);
    }
  }

  /** A step of one exchange of the open turn. */
  lemma ExchangeStep(open: OpenTurn, b: Buffer, consumed: bool, events: seq<Event>, e: Event)
    requires TurnTraced(Some(open), OpenedBy(events), TurnEvents(events)) && b.request.turn == open.turn
    requires !e.payload.TurnStart? && !e.payload.TurnEnd? && !e.payload.WorldPerception?
    requires BufferTraced(b, TurnEvents(events) + [e])
    requires forall r: RequestId :: r != b.request ==> !Concerns(e, r)
    requires Lined(PutBuffer(open.dialogues, b), open.turn, TurnEvents(events) + [e])
    requires consumed == (open.perceptionConsumed || (e.payload.AssistantMessage? && open.perception.Some?))
    ensures TurnTraced(Some(open.(dialogues := PutBuffer(open.dialogues, b), perceptionConsumed := consumed)),
                       OpenedBy(events + [e]), TurnEvents(events + [e]))
  {
    hide BuffersTraced, Concerns, BufferTraced, PutBuffer, Shown, Lined;
    OneMoreEvent(events, e);
    OneMoreInTurn(TurnEvents(events), e, RequestId(0, 0));
    BuffersPut(open.dialogues, b, open.turn, TurnEvents(events), e);
  }

  lemma BufferIsTraced(open: OpenTurn, events: seq<Event>, r: RequestId)
    requires TurnTraced(Some(open), OpenedBy(events), TurnEvents(events)) && r.turn == open.turn
    ensures BufferTraced(BufferOf(open.dialogues, r), TurnEvents(events)) && BufferOf(open.dialogues, r).request == r
    ensures Lined(open.dialogues, open.turn, TurnEvents(events))
  {
    hide BufferTraced, PerceptionTraced, Lined;
    BufferIsOf(open.dialogues, r);
  }

  lemma TurnOpens(s: FoldState, events: seq<Event>, e: Event, turn: nat, world: WorldRange)
    requires Traced(s, events) && e.payload == TurnStart(turn, world) && OnTurnStart(s, e, turn, world).Some?
    ensures Traced(OnTurnStart(s, e, turn, world).value, events + [e])
  {
    hide ConfigTraced;
    var t := OnTurnStart(s, e, turn, world).value;
    ConfigStays(s, t, events, e);
    OneMoreEvent(events, e);
    assert BuffersTraced([], turn, []) && Lined([], turn, []);
  }

  lemma PerceptionHappens(s: FoldState, events: seq<Event>, e: Event, turn: nat, range: WorldRange, value: Perceived)
    requires Traced(s, events) && e.payload == WorldPerception(turn, range, value)
    requires OnPerception(s, e, turn, range, value).Some?
    ensures Traced(OnPerception(s, e, turn, range, value).value, events + [e])
  {
    hide ConfigTraced, BuffersTraced, Concerns, Lined;
    var t := OnPerception(s, e, turn, range, value).value;
    ConfigStays(s, t, events, e);
    OneMoreEvent(events, e);
    var open := s.open.value;
    OneMoreInTurn(TurnEvents(events), e, RequestId(0, 0));
    assert forall r: RequestId :: !Concerns(e, r) by { NoExchange(e); }
    BuffersStay(open.dialogues, open.turn, TurnEvents(events), e);
    LinedStay(open.dialogues, open.turn, TurnEvents(events), e);
  }

  lemma NoExchange(e: Event)
    requires !e.payload.RequestRefused? && !e.payload.AssistantMessage? && !e.payload.ToolCalled? && !e.payload.ToolResult?
    ensures forall r: RequestId :: !Concerns(e, r)
  {
  }

  lemma RefusalHappens(s: FoldState, events: seq<Event>, e: Event, request: RequestId)
    requires Traced(s, events) && e.payload == RequestRefused(request) && OnRefused(s, request).Some?
    ensures Traced(OnRefused(s, request).value, events + [e])
  {
    hide ConfigTraced, TurnTraced, BufferTraced, PutBuffer, BufferOf, Lined;
    ConfigStays(s, OnRefused(s, request).value, events, e);
    var open := s.open.value;
    BufferIsTraced(open, events, request);
    var b := BufferOf(open.dialogues, request);
    RefusedTraced(b, TurnEvents(events), e);
    LinedAppend(open.dialogues, b.(refused := true), open.turn, TurnEvents(events), e);
    ExchangeStep(open, b.(refused := true), open.perceptionConsumed, events, e);
  }

  lemma AnswerHappens(
    s: FoldState, events: seq<Event>, e: Event, request: RequestId, text: Option<string>, calls: seq<FunctionCall>)
    requires Traced(s, events) && e.payload == AssistantMessage(request, text, calls)
    requires OnAssistant(s, e, request, text, calls).Some?
    ensures Traced(OnAssistant(s, e, request, text, calls).value, events + [e])
  {
    hide ConfigTraced, TurnTraced, BufferTraced, PutBuffer, BufferOf, Lined, DistinctCalls;
    ConfigStays(s, OnAssistant(s, e, request, text, calls).value, events, e);
    var open := s.open.value;
    BufferIsTraced(open, events, request);
    var b := BufferOf(open.dialogues, request);
    AnswerTraced(b, TurnEvents(events), e, text, calls);
    var answered := b.(exchange := Some(Exchange(e.source, text, calls, [], [])));
    LinedAppend(open.dialogues, answered, open.turn, TurnEvents(events), e);
    ExchangeStep(open, answered,
                 open.perceptionConsumed || open.perception.Some?, events, e);
  }

  lemma CallHappens(s: FoldState, events: seq<Event>, e: Event, turn: nat, request: RequestId, call: FunctionCall)
    requires Traced(s, events) && e.payload == ToolCalled(turn, request, call)
    requires OnToolCall(s, e, turn, request, call).Some?
    ensures Traced(OnToolCall(s, e, turn, request, call).value, events + [e])
  {
    hide ConfigTraced, TurnTraced, BufferTraced, PutBuffer, BufferOf, Lined, HasCall;
    ConfigStays(s, OnToolCall(s, e, turn, request, call).value, events, e);
    var open := s.open.value;
    BufferIsTraced(open, events, request);
    var b := BufferOf(open.dialogues, request);
    var x := b.exchange.value;
    CallTraced(b, TurnEvents(events), e, call);
    var called := b.(exchange := Some(x.(calls := x.calls + [CallReceipt(call.id, e.source)])));
    LinedUpdate(open.dialogues, called, open.turn, TurnEvents(events), e);
    ExchangeStep(open, called, open.perceptionConsumed, events, e);
  }

  lemma OpenResultHappens(
    s: FoldState, events: seq<Event>, e: Event, request: RequestId, callId: string, message: ChatMessage, synthetic: bool)
    requires Traced(s, events) && s.open.Some? && request.turn == s.open.value.turn
    requires e.payload.ToolResult? && e.payload.request == request && e.payload.callId == callId
    requires e.payload.turn == request.turn
    requires OnOpenResult(s, e, request, callId, message, synthetic).Some?
    ensures Traced(OnOpenResult(s, e, request, callId, message, synthetic).value, events + [e])
  {
    hide ConfigTraced, TurnTraced, BufferTraced, PutBuffer, BufferOf, Lined, HasCall, HasResult, Advertises;
    ConfigStays(s, OnOpenResult(s, e, request, callId, message, synthetic).value, events, e);
    var open := s.open.value;
    BufferIsTraced(open, events, request);
    var b := BufferOf(open.dialogues, request);
    var r := ResultEntry(callId, message, e.source, synthetic);
    ResultTraced(b, TurnEvents(events), e, r);
    var x := b.exchange.value;
    var resolved := b.(exchange := Some(x.(results := x.results + [r])));
    LinedUpdate(open.dialogues, resolved, open.turn, TurnEvents(events), e);
    ExchangeStep(open, resolved, open.perceptionConsumed, events, e);
  }

  lemma AppendKeepsHead(groups: seq<SurfaceGroup>, g: SurfaceGroup, index: Index)
    requires AppendGroup(groups, g, index).Some? && groups != []
    ensures AppendGroup(groups, g, index).value != [] && AppendGroup(groups, g, index).value[0] == groups[0]
  {
  }

  lemma RecoveryResultHappens(
    s: FoldState, events: seq<Event>, e: Event, turn: nat, request: RequestId, callId: string, message: ChatMessage)
    requires Traced(s, events) && e.payload.ToolResult? && e.payload.turn == turn && e.payload.request == request
    requires !(s.open.Some? && s.open.value.turn == turn && request.turn == turn)
    requires OnRecoveryResult(s, e, turn, request, callId, message).Some?
    ensures Traced(OnRecoveryResult(s, e, turn, request, callId, message).value, events + [e])
  {
    hide ConfigTraced, TurnTraced, FindRecovery, AddResult, IsComplete, DialogueGroup, AppendGroup;
    var t := OnRecoveryResult(s, e, turn, request, callId, message).value;
    var at := FindRecovery(s.recovery, turn, request);
    var added := AddResult(s.recovery[at].exchange, callId, message, e.source, true).value;
    if IsComplete(added) && s.surface.value != [] {
      AppendKeepsHead(s.surface.value, DialogueGroup(added, turn), s.index);
    }
    ConfigStays(s, t, events, e);
    TurnStays(s.open, events, e);
  }

  lemma {:induction false} PromotionKeepsHead(groups: seq<SurfaceGroup>, promote: seq<Exchange>, turn: nat, index: Index)
    requires PromoteAll(groups, promote, turn, index).Some? && groups != []
    ensures var after := PromoteAll(groups, promote, turn, index).value; after != [] && after[0] == groups[0]
  {
    hide AppendGroup, IsComplete, DialogueGroup;
    if promote != [] {
      var last := |promote| - 1;
      PromotionKeepsHead(groups, promote[..last], turn, index);
      AppendKeepsHead(PromoteAll(groups, promote[..last], turn, index).value, DialogueGroup(promote[last], turn), index);
    }
  }

  lemma TurnCloses(s: FoldState, events: seq<Event>, e: Event, turn: nat, outcome: Outcome)
    requires Traced(s, events) && e.payload == TurnEnd(turn, outcome)
    requires OnTurnEnd(s, e.ignorable, turn, outcome).Some?
    ensures Traced(OnTurnEnd(s, e.ignorable, turn, outcome).value, events + [e])
  {
    hide ConfigTraced, Sift, PromoteAll, AppendGroup;
    var t := OnTurnEnd(s, e.ignorable, turn, outcome).value;
    var success := outcome == Chained || outcome == Waiting;
    var promote := Sift(s.open.value.dialogues, turn, success, e.ignorable).value.promote;
    if s.surface.Some? && s.surface.value != [] {
      var open := s.open.value;
      if open.perception.Some? {
        AppendKeepsHead(s.surface.value, open.perception.value, s.index);
        PromotionKeepsHead(AppendGroup(s.surface.value, open.perception.value, s.index).value, promote, open.turn, s.index);
      } else {
        PromotionKeepsHead(s.surface.value, promote, open.turn, s.index);
      }
    }
    ConfigStays(s, t, events, e);
    OneMoreEvent(events, e);
  }

  lemma ConfigHappens(s: FoldState, events: seq<Event>, e: Event, version: nat, config: AgentConfig)
    requires Traced(s, events) && e.payload == SystemMessage(version, config)
    requires OnConfig(s, e, version, config).Some?
    ensures Traced(OnConfig(s, e, version, config).value, events + [e])
  {
    hide TurnTraced;
    TurnStays(s.open, events, e);
    OneMoreEvent(events, e);
  }

  lemma FactHappens(s: FoldState, events: seq<Event>, e: Event, kind: GroupKind, message: ChatMessage)
    requires Traced(s, events) && (e.payload.PackageFact? || e.payload.CommitRefused?)
    requires OnFact(s, kind, e.source, message).Some?
    ensures Traced(OnFact(s, kind, e.source, message).value, events + [e])
  {
    hide ConfigTraced, TurnTraced, AppendGroup;
    var turn := if s.open.None? then 0 else s.open.value.turn;
    if s.surface.value != [] {
      AppendKeepsHead(s.surface.value, FactGroup(kind, e.source, turn, message), s.index);
    }
    ConfigStays(s, OnFact(s, kind, e.source, message).value, events, e);
    TurnStays(s.open, events, e);
  }

  lemma EndKeepsHead(s: FoldState, id: Digest, receipt: Source)
    requires OnCompactionEnd(s, id, receipt).Some?
    ensures HeadKept(s, OnCompactionEnd(s, id, receipt).value) && OnCompactionEnd(s, id, receipt).value.open == s.open
  {
    hide ValidateSpan, SummaryGroup, FindPending, OnCompactionEnd, Without;
    EndSplices(s, id, receipt);
  }

  /** Compaction and whatever the fold skips leave the turn and the heading alone. */
  lemma AsideHappens(s: FoldState, events: seq<Event>, e: Event)
    requires Traced(s, events) && Process(s, e).Some?
    requires var p := e.payload; p.Inert? || p.CompactionStarted? || p.CompactionSummarized? || p.CompactionEnded?
                                 || p.CompactionAborted?
    ensures Traced(Process(s, e).value, events + [e])
  {
    hide ConfigTraced, TurnTraced, FindPending, AllKnown, OnCompactionEnd, ValidateSpan, Concerns;
    NoExchange(e);
    if e.payload.CompactionEnded? {
      EndKeepsHead(s, e.payload.id, e.payload.receipt);
    }
    ConfigStays(s, Process(s, e).value, events, e);
    TurnStays(s.open, events, e);
  }

  lemma ResultHappens(s: FoldState, events: seq<Event>, e: Event)
    requires Traced(s, events) && e.payload.ToolResult? && OnToolResult(s, e, e.payload).Some?
    ensures Traced(OnToolResult(s, e, e.payload).value, events + [e])
  {
    hide Traced, OnOpenResult, OnRecoveryResult;
    var p := e.payload;
    if s.open.Some? && s.open.value.turn == p.turn && p.request.turn == p.turn {
      OpenResultHappens(s, events, e, p.request, p.callId, p.message, p.synthetic);
    } else {
      RecoveryResultHappens(s, events, e, p.turn, p.request, p.callId, p.message);
    }
  }

  lemma ProcessTraced(s: FoldState, events: seq<Event>, e: Event)
    requires Traced(s, events) && Process(s, e).Some?
    ensures Traced(Process(s, e).value, events + [e])
  {
    hide Traced, OnConfig, OnTurnStart, OnTurnEnd, OnPerception, OnRefused, OnAssistant, OnToolCall,
      OnToolResult, OnCompactionStart, OnCompactionSummary, OnCompactionEnd, OnCompactionAbort, OnFact;
    match e.payload
    case SystemMessage(version, config) => ConfigHappens(s, events, e, version, config);
    case TurnStart(turn, world) => TurnOpens(s, events, e, turn, world);
    case TurnEnd(turn, outcome) => TurnCloses(s, events, e, turn, outcome);
    case WorldPerception(turn, range, value) => PerceptionHappens(s, events, e, turn, range, value);
    case RequestRefused(request) => RefusalHappens(s, events, e, request);
    case AssistantMessage(request, text, calls) => AnswerHappens(s, events, e, request, text, calls);
    case ToolCalled(turn, request, call) => CallHappens(s, events, e, turn, request, call);
    case ToolResult(_, _, _, _, _, _) => ResultHappens(s, events, e);
    case PackageFact(line) => FactHappens(s, events, e, Package, User(line));
    case CommitRefused(line) => FactHappens(s, events, e, Refusal, System(line));
    case _ => AsideHappens(s, events, e);
  }

  lemma TracedFrames(s: FoldState, t: FoldState, events: seq<Event>)
    requires Traced(s, events) && t.open == s.open && t.config == s.config && t.surface == s.surface
    ensures Traced(t, events)
  {
    hide TurnTraced;
  }

  lemma NothingTraced()
    ensures Traced(INITIAL, [])
  {
  }

  /** At every point of every run the state tells its history. */
  lemma {:induction false} RunTraced(events: seq<Event>)
    requires Play(events).Some?
    ensures Traced(Play(events).value.state, events)
  {
    hide Traced, Process, RemovedBy, DroppedBy;
    if events == [] {
      NothingTraced();
    } else {
      var shorter, e := events[..|events| - 1], events[|events| - 1];
      RunTraced(shorter);
      var s := Play(shorter).value.state;
      TracedFrames(s, Register(s, e), shorter);
      ProcessTraced(Register(s, e), shorter, e);
      assert shorter + [e] == events;
      TracedFrames(Process(Register(s, e), e).value, Play(events).value.state, events);
    }
  }
}
