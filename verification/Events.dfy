/**
 The journal events the context fold consumes, with their payloads already resolved
 (`src/context/events.ts`, `src/context/loader.ts`). `Malformed` is any payload a
 shape validator refuses; `Inert` is every type the fold skips.
 */
module Events {
  import opened Wrappers
  import opened Contracts

  datatype Outcome = Chained | Waiting | Failed | Interrupted

  datatype Perceived = Perceived(range: WorldRange, text: string)

  datatype Payload =
    | Inert
    | Malformed
    | SystemMessage(version: nat, config: AgentConfig)
    | TurnStart(turn: nat, world: WorldRange)
    | TurnEnd(turn: nat, outcome: Outcome)
    | WorldPerception(turn: nat, range: WorldRange, value: Perceived)
    | RequestRefused(request: RequestId)
    | AssistantMessage(request: RequestId, text: Option<string>, toolCalls: seq<FunctionCall>)
    | ToolCalled(turn: nat, request: RequestId, call: FunctionCall)
    | ToolResult(turn: nat, request: RequestId, callId: string, message: ChatMessage,
                 synthetic: bool, raw: bool)
    | CompactionStarted(start: CompactionStart)
    | CompactionSummarized(summary: CompactionSummary)
    | CompactionEnded(id: Digest, receipt: Source)
    | CompactionAborted(id: Digest)
    | PackageFact(line: string)
    | CommitRefused(line: string)

  datatype Event = Event(source: Source, ignorable: bool, payload: Payload)

  /** The `(seq, hash)` index of observed events. */
  type Index = map<Source, Event>

  /** `groupType`: the receipt type a group's id must name. */
  predicate ReceiptMatches(kind: GroupKind, payload: Payload) {
    match kind
    case Heading => payload.SystemMessage?
    case Perception => payload.WorldPerception?
    case Dialogue => payload.AssistantMessage?
    case Summary => payload.CompactionSummarized?
    case Package => payload.PackageFact?
    case Refusal => payload.CommitRefused?
  }

  ghost predicate Extends(larger: Index, smaller: Index) {
    forall s :: s in smaller ==> s in larger && larger[s] == smaller[s]
  }

  predicate AllKnown(sources: seq<Source>, index: Index) {
    forall i :: 0 <= i < |sources| ==> sources[i] in index
  }
}
