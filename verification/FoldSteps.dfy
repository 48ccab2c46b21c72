/**
 The context fold (`src/context/fold.ts`) as a step function: one verified event
 yields the next state, or `None` where the source throws an invariant failure.
 A thrown invariant poisons the fold, so nothing is said about the state after it.
 */
module FoldSteps {
  import opened Wrappers
  import opened Contracts
  import opened Events
  import opened Groups
  import opened Surfaces

  datatype CallReceipt = CallReceipt(callId: string, source: Source)

  datatype ResultEntry = ResultEntry(callId: string, message: ChatMessage, source: Source, synthetic: bool)

  /** An assistant message with the receipts and results gathered for its calls so far. */
  datatype Exchange = Exchange(
    source: Source, text: Option<string>, advertised: seq<FunctionCall>,
    calls: seq<CallReceipt>, results: seq<ResultEntry>)

  /** The buffer of one request; call receipts and results exist only once its assistant does. */
  datatype Buffer = Buffer(request: RequestId, refused: bool, exchange: Option<Exchange>)

  datatype OpenTurn = OpenTurn(
    start: Source, turn: nat, world: WorldRange, perception: Option<SurfaceGroup>,
    perceptionSeen: bool, perceptionConsumed: bool, dialogues: seq<Buffer>)

  datatype RecoveryEntry = RecoveryEntry(turn: nat, request: RequestId, exchange: Exchange)

  datatype Configured = Configured(value: AgentConfig, source: Source)

  datatype Offered = Offered(summary: CompactionSummary, source: Source)

  datatype FoldState = FoldState(
    config: Option<Configured>,
    surface: Option<seq<SurfaceGroup>>,
    open: Option<OpenTurn>,
    recovery: seq<RecoveryEntry>,
    pending: seq<CompactionStart>,
    summaries: map<Digest, Offered>,
    seen: seq<Event>,
    index: Index,
    watermark: Option<Source>)

  const INITIAL := FoldState(None, None, None, [], [], map[], [], map[], None)

  // --- exchanges -----------------------------------------------------------------

  predicate Advertises(x: Exchange, callId: string) {
    exists i :: 0 <= i < |x.advertised| && x.advertised[i].id == callId
  }

  predicate HasCall(x: Exchange, callId: string) {
    exists i :: 0 <= i < |x.calls| && x.calls[i].callId == callId
  }

  predicate HasResult(x: Exchange, callId: string) {
    exists i :: 0 <= i < |x.results| && x.results[i].callId == callId
  }

  /** Every advertised call has its result. */
  predicate IsComplete(x: Exchange) {
    forall i :: 0 <= i < |x.advertised| ==> HasResult(x, x.advertised[i].id)
  }

  function ResultFor(results: seq<ResultEntry>, callId: string): (r: ResultEntry)
    requires exists i :: 0 <= i < |results| && results[i].callId == callId
    ensures r in results && r.callId == callId
  {
    if results[0].callId == callId then results[0] else ResultFor(results[1..], callId)
  }

  function ResultMessages(x: Exchange): (messages: seq<ChatMessage>)
    requires IsComplete(x)
    ensures |messages| == |x.advertised|
  {
    seq(|x.advertised|, i requires 0 <= i < |x.advertised| =>
      assert HasResult(x, x.advertised[i].id);
      ResultFor(x.results, x.advertised[i].id).message)
  }

  function CallSources(calls: seq<CallReceipt>): (r: seq<Source>)
    ensures |r| == |calls| && forall i :: 0 <= i < |calls| ==> r[i] == calls[i].source
  {
    seq(|calls|, i requires 0 <= i < |calls| => calls[i].source)
  }

  function ResultSources(results: seq<ResultEntry>): (r: seq<Source>)
    ensures |r| == |results| && forall i :: 0 <= i < |results| ==> r[i] == results[i].source
  {
    seq(|results|, i requires 0 <= i < |results| => results[i].source)
  }

  /** `bufferSources`: the assistant, its call receipts and its results, in canonical order. */
  function ExchangeSources(x: Exchange): seq<Source> {
    SortUnique([x.source] + CallSources(x.calls) + ResultSources(x.results))
  }

  /** The committed group of a complete exchange. */
  function DialogueGroup(x: Exchange, turn: nat): SurfaceGroup
    requires IsComplete(x)
  {
    SurfaceGroup(x.source, Dialogue, turn, [Assistant(x.text, x.advertised)] + ResultMessages(x),
                 ExchangeSources(x))
  }

  // --- buffers ---------------------------------------------------------------------

  function FindBuffer(dialogues: seq<Buffer>, request: RequestId): (at: nat)
    ensures at <= |dialogues|
    ensures at < |dialogues| ==> dialogues[at].request == request
  {
    if dialogues == [] then 0
    else if dialogues[0].request == request then 0
    else 1 + FindBuffer(dialogues[1..], request)
  }

  /** The request's buffer, fresh when the turn has none. */
  function BufferOf(dialogues: seq<Buffer>, request: RequestId): Buffer {
    var at := FindBuffer(dialogues, request);
    if at < |dialogues| then dialogues[at] else Buffer(request, false, None)
  }

  function PutBuffer(dialogues: seq<Buffer>, buffer: Buffer): seq<Buffer> {
    var at := FindBuffer(dialogues, buffer.request);
    if at < |dialogues| then dialogues[at := buffer] else dialogues + [buffer]
  }

  // --- configuration and turns -------------------------------------------------------

  function OnConfig(s: FoldState, e: Event, version: nat, config: AgentConfig): Option<FoldState>
  {
    if config.version != version then None
    else if s.config.None? then
      if config.version < 1 then None
      else Some(s.(config := Some(Configured(config, e.source)),
                   surface := Some([HeadingGroup(config.heading, e.source)])))
    else if config.version <= s.config.value.value.version then None
    else if s.surface.None? then None
    else
      match RewriteHeading(s.surface.value, config.heading, e.source, s.index)
      case None => None
      case Some(groups) => Some(s.(config := Some(Configured(config, e.source)), surface := Some(groups)))
  }

  function OnTurnStart(s: FoldState, e: Event, turn: nat, world: WorldRange): Option<FoldState> {
    if s.open.Some? then None
    else Some(s.(open := Some(OpenTurn(e.source, turn, world, None, false, false, []))))
  }

  function PerceptionGroup(source: Source, turn: nat, text: string): SurfaceGroup {
    SurfaceGroup(source, Perception, turn, [User(text)], [source])
  }

  function OnPerception(s: FoldState, e: Event, turn: nat, range: WorldRange, value: Perceived): Option<FoldState> {
    if s.open.None? then None
    else
      var open := s.open.value;
      if turn != open.turn || open.perceptionSeen || range != open.world || value.range != range then None
      else
        var group := if value.text == "" then None else Some(PerceptionGroup(e.source, open.turn, value.text));
        Some(s.(open := Some(open.(perceptionSeen := true, perception := group))))
  }

  // --- the request pipeline ------------------------------------------------------------

  function OnRefused(s: FoldState, request: RequestId): Option<FoldState> {
    if s.open.None? || request.turn != s.open.value.turn then None
    else
      var open := s.open.value;
      var buffer := BufferOf(open.dialogues, request);
      if buffer.refused || buffer.exchange.Some? then None
      else Some(s.(open := Some(open.(dialogues := PutBuffer(open.dialogues, buffer.(refused := true))))))
  }

  predicate DistinctCalls(calls: seq<FunctionCall>) {
    forall i, j :: 0 <= i < j < |calls| ==> calls[i].id != calls[j].id
  }

  function OnAssistant(s: FoldState, e: Event, request: RequestId, text: Option<string>, calls: seq<FunctionCall>)
    : Option<FoldState>
  {
    if s.open.None? || request.turn != s.open.value.turn then None
    else
      var open := s.open.value;
      var buffer := BufferOf(open.dialogues, request);
      if buffer.refused || buffer.exchange.Some? || !DistinctCalls(calls) then None
      else
        var answered := buffer.(exchange := Some(Exchange(e.source, text, calls, [], [])));
        Some(s.(open := Some(open.(
          dialogues := PutBuffer(open.dialogues, answered),
          perceptionConsumed := open.perceptionConsumed || open.perception.Some?))))
  }

  function OnToolCall(s: FoldState, e: Event, turn: nat, request: RequestId, call: FunctionCall): Option<FoldState> {
    if s.open.None? || turn != s.open.value.turn || request.turn != turn then None
    else
      var open := s.open.value;
      var buffer := BufferOf(open.dialogues, request);
      if buffer.exchange.None? then None
      else
        var x := buffer.exchange.value;
        if call !in x.advertised || HasCall(x, call.id) then None
        else
          var called := x.(calls := x.calls + [CallReceipt(call.id, e.source)]);
          Some(s.(open := Some(open.(
            dialogues := PutBuffer(open.dialogues, buffer.(exchange := Some(called)))))))
  }

  /** A result joins an exchange when it answers an advertised call that has none. */
  function AddResult(x: Exchange, callId: string, message: ChatMessage, source: Source, synthetic: bool)
    : Option<Exchange>
  {
    if !Advertises(x, callId) || HasResult(x, callId) then None
    else Some(x.(results := x.results + [ResultEntry(callId, message, source, synthetic)]))
  }

  function FindRecovery(recovery: seq<RecoveryEntry>, turn: nat, request: RequestId): (at: nat)
    ensures at <= |recovery|
    ensures at < |recovery| ==> recovery[at].turn == turn && recovery[at].request == request
  {
    if recovery == [] then 0
    else if recovery[0].turn == turn && recovery[0].request == request then 0
    else 1 + FindRecovery(recovery[1..], turn, request)
  }

  /** A result inside its open turn. */
  function OnOpenResult(s: FoldState, e: Event, request: RequestId, callId: string, message: ChatMessage, synthetic: bool)
    : Option<FoldState>
    requires s.open.Some?
  {
    var open := s.open.value;
    var buffer := BufferOf(open.dialogues, request);
    if buffer.exchange.None? then None
    else
      var x := buffer.exchange.value;
      if !synthetic && !HasCall(x, callId) then None
      else match AddResult(x, callId, message, e.source, synthetic)
        case None => None
        case Some(added) =>
          Some(s.(open := Some(open.(
            dialogues := PutBuffer(open.dialogues, buffer.(exchange := Some(added)))))))
  }

  /** A synthetic result for a call an interrupted turn left open; the last one commits the group. */
  function OnRecoveryResult(s: FoldState, e: Event, turn: nat, request: RequestId, callId: string, message: ChatMessage)
    : Option<FoldState>
  {
    var at := FindRecovery(s.recovery, turn, request);
    if at == |s.recovery| then None
    else match AddResult(s.recovery[at].exchange, callId, message, e.source, true)
      case None => None
      case Some(added) =>
        if !IsComplete(added) then
          Some(s.(recovery := s.recovery[at := s.recovery[at].(exchange := added)]))
        else if s.surface.None? then None
        else match AppendGroup(s.surface.value, DialogueGroup(added, turn), s.index)
          case None => None
          case Some(groups) =>
            Some(s.(surface := Some(groups), recovery := s.recovery[..at] + s.recovery[at + 1..]))
  }

  function OnToolResult(s: FoldState, e: Event, p: Payload): Option<FoldState>
    requires p.ToolResult?
  {
    if !p.message.Tool? || p.message.toolCallId != p.callId then None
    else if s.open.Some? && s.open.value.turn == p.turn && p.request.turn == p.turn then
      OnOpenResult(s, e, p.request, p.callId, p.message, p.synthetic)
    else if !p.synthetic || p.raw then None
    else OnRecoveryResult(s, e, p.turn, p.request, p.callId, p.message)
  }

  // --- one-line facts --------------------------------------------------------------------

  function FactGroup(kind: GroupKind, source: Source, turn: nat, message: ChatMessage): SurfaceGroup {
    SurfaceGroup(source, kind, turn, [message], [source])
  }

  /** `onPackageEvent` and `onCommitRefused`: one closed group, appended at once. */
  function OnFact(s: FoldState, kind: GroupKind, source: Source, message: ChatMessage): Option<FoldState> {
    if s.surface.None? then None
    else
      var turn := if s.open.None? then 0 else s.open.value.turn;
      match AppendGroup(s.surface.value, FactGroup(kind, source, turn, message), s.index)
      case None => None
      case Some(groups) => Some(s.(surface := Some(groups)))
  }

  // --- closers ---------------------------------------------------------------------------

  datatype Sifted = Sifted(promote: seq<Exchange>, recover: seq<RecoveryEntry>)

  /** One round of `onTurnEnd`'s validation loop. */
  function SiftOne(sifted: Sifted, buffer: Buffer, turn: nat, success: bool, ignorable: bool): Option<Sifted> {
    if buffer.exchange.None? then Some(sifted)
    else
      var x := buffer.exchange.value;
      if success && !IsComplete(x) then None
      else if success && ignorable then Some(sifted)
      else if IsComplete(x) then Some(sifted.(promote := sifted.promote + [x]))
      else Some(sifted.(recover := sifted.recover + [RecoveryEntry(turn, buffer.request, x)]))
  }

  /** The validation loop of `onTurnEnd`: which dialogues are committed and which are kept to recover. */
  function Sift(dialogues: seq<Buffer>, turn: nat, success: bool, ignorable: bool): Option<Sifted> {
    if dialogues == [] then Some(Sifted([], []))
    else
      match Sift(dialogues[..|dialogues| - 1], turn, success, ignorable)
      case None => None
      case Some(sifted) => SiftOne(sifted, dialogues[|dialogues| - 1], turn, success, ignorable)
  }

  /** Appends the promoted dialogues in order; an incomplete one never gets here. */
  function PromoteAll(groups: seq<SurfaceGroup>, promote: seq<Exchange>, turn: nat, index: Index)
    : Option<seq<SurfaceGroup>>
  {
    if promote == [] then Some(groups)
    else
      var last := |promote| - 1;
      match PromoteAll(groups, promote[..last], turn, index)
      case None => None
      case Some(before) =>
        if !IsComplete(promote[last]) then None
        else AppendGroup(before, DialogueGroup(promote[last], turn), index)
  }

  /** Everything a closer commits: the perception first, then the promoted dialogues. */
  function CommitTurn(surface: Option<seq<SurfaceGroup>>, open: OpenTurn, promote: seq<Exchange>, index: Index)
    : Option<Option<seq<SurfaceGroup>>>
  {
    if surface.None? then (if promote == [] then Some(None) else None)
    else
      var perceived :=
        if open.perception.Some? then AppendGroup(surface.value, open.perception.value, index)
        else Some(surface.value);
      match perceived
      case None => None
      case Some(groups) =>
        match PromoteAll(groups, promote, open.turn, index)
        case None => None
        case Some(after) => Some(Some(after))
  }

  function OnTurnEnd(s: FoldState, ignorable: bool, turn: nat, outcome: Outcome): Option<FoldState> {
    if s.open.None? || turn != s.open.value.turn then None
    else
      var success := outcome == Chained || outcome == Waiting;
      match Sift(s.open.value.dialogues, turn, success, ignorable)
      case None => None
      case Some(sifted) =>
        match CommitTurn(s.surface, s.open.value, sifted.promote, s.index)
        case None => None
        case Some(surface) =>
          Some(s.(surface := surface, recovery := s.recovery + sifted.recover, open := None))
  }

  // --- compaction --------------------------------------------------------------------------

  function FindPending(pending: seq<CompactionStart>, id: Digest): (at: nat)
    ensures at <= |pending|
    ensures at < |pending| ==> pending[at].id == id
    ensures forall i :: 0 <= i < at ==> pending[i].id != id
  {
    if pending == [] then 0
    else if pending[0].id == id then 0
    else 1 + FindPending(pending[1..], id)
  }

  function Without<T>(s: seq<T>, at: nat): seq<T>
    requires at < |s|
  {
    s[..at] + s[at + 1..]
  }

  function OnCompactionStart(s: FoldState, start: CompactionStart): Option<FoldState> {
    if s.surface.None? || FindPending(s.pending, start.id) < |s.pending| then None
    else if !AllKnown(start.groupIds, s.index) || !AllKnown(start.sources, s.index) then None
    else Some(s.(pending := s.pending + [start]))
  }

  function OnCompactionSummary(s: FoldState, e: Event, summary: CompactionSummary): Option<FoldState> {
    if FindPending(s.pending, summary.id) == |s.pending| || summary.id in s.summaries then None
    else if !AllKnown(summary.sources, s.index) then None
    else Some(s.(summaries := s.summaries[summary.id := Offered(summary, e.source)]))
  }

  function OnCompactionEnd(s: FoldState, id: Digest, receipt: Source): Option<FoldState> {
    var at := FindPending(s.pending, id);
    if at == |s.pending| || id !in s.summaries || s.summaries[id].source != receipt || s.surface.None? then None
    else
      match ReplaceCommitted(s.surface.value, s.pending[at], s.summaries[id].summary, receipt, s.index)
      case None => None
      case Some(groups) =>
        Some(s.(surface := Some(groups), pending := Without(s.pending, at), summaries := s.summaries - {id}))
  }

  function OnCompactionAbort(s: FoldState, id: Digest): Option<FoldState> {
    var at := FindPending(s.pending, id);
    if at == |s.pending| then None
    else Some(s.(pending := Without(s.pending, at), summaries := s.summaries - {id}))
  }

  // --- observation -----------------------------------------------------------------------------

  /** `process`: the handler of the event's type. */
  function Process(s: FoldState, e: Event): Option<FoldState> {
    match e.payload
    case Inert => Some(s)
    case Malformed => None
    case SystemMessage(version, config) => OnConfig(s, e, version, config)
    case TurnStart(turn, world) => OnTurnStart(s, e, turn, world)
    case TurnEnd(turn, outcome) => OnTurnEnd(s, e.ignorable, turn, outcome)
    case WorldPerception(turn, range, value) => OnPerception(s, e, turn, range, value)
    case RequestRefused(request) => OnRefused(s, request)
    case AssistantMessage(request, text, calls) => OnAssistant(s, e, request, text, calls)
    case ToolCalled(turn, request, call) => OnToolCall(s, e, turn, request, call)
    case ToolResult(_, _, _, _, _, _) => OnToolResult(s, e, e.payload)
    case CompactionStarted(start) => OnCompactionStart(s, start)
    case CompactionSummarized(summary) => OnCompactionSummary(s, e, summary)
    case CompactionEnded(id, receipt) => OnCompactionEnd(s, id, receipt)
    case CompactionAborted(id) => OnCompactionAbort(s, id)
    case PackageFact(line) => OnFact(s, Package, e.source, User(line))
    case CommitRefused(line) => OnFact(s, Refusal, e.source, System(line))
  }

  /** The event is indexed before it is processed, so a group can resolve its own receipt. */
  function Register(s: FoldState, e: Event): FoldState {
    s.(index := s.index[e.source := e])
  }

  function Recorded(s: FoldState, e: Event): FoldState {
    s.(seen := s.seen + [e], watermark := Some(e.source))
  }

  /** One new event, whose position continues the chain. */
  function Advance(s: FoldState, e: Event): Option<FoldState> {
    match Process(Register(s, e), e)
    case None => None
    case Some(next) => Some(Recorded(next, e))
  }

  /** One delivered event: a repeat is skipped, a changed hash or a gap refuses. */
  function ObserveOne(s: FoldState, e: Event): Option<FoldState> {
    if e.source.position < |s.seen| then
      if s.seen[e.source.position].source.hash != e.source.hash then None else Some(s)
    else if e.source.position != |s.seen| then None
    else Advance(s, e)
  }

  function Observe(s: FoldState, events: seq<Event>): Option<FoldState>
    decreases |events|
  {
    if events == [] then Some(s)
    else match ObserveOne(s, events[0])
      case None => None
      case Some(next) => Observe(next, events[1..])
  }
}
