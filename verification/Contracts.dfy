/**
 The shared values of the context components (`src/context/contracts.ts`), and the
 byte length of the provider wire's canonical message array.

 A receipt's hash is the number its 64 lowercase hex digits spell: two such strings
 compare as those numbers do. A SHA-256 digest computed by these components is kept
 as the value it was taken over (`Digest`), which makes hashing injective by
 construction; `Named` stands for any other 64 hex digits a journal may carry.
 */
module Contracts {
  import opened Wrappers
  import Utf8

  datatype Source = Source(position: nat, hash: nat)

  datatype RequestId = RequestId(turn: nat, ordinal: nat)

  datatype FunctionCall = FunctionCall(id: string, name: string, arguments: string)

  datatype ChatMessage =
    | System(content: string)
    | User(content: string)
    | Assistant(text: Option<string>, toolCalls: seq<FunctionCall>)
    | Tool(content: string, toolCallId: string)

  datatype GroupKind = Heading | Perception | Dialogue | Summary | Package | Refusal

  datatype SurfaceGroup = SurfaceGroup(
    id: Source, kind: GroupKind, turn: nat, messages: seq<ChatMessage>, sources: seq<Source>)

  datatype Digest =
    | OfSurface(groups: seq<SurfaceGroup>)
    | OfCandidate(revision: Digest, groupIds: seq<Source>, sources: seq<Source>,
                  shadowHash: Digest, shadowBytes: nat)
    | OfMessages(messages: seq<ChatMessage>)
    | Named(hex: nat)

  datatype CompactionStart = CompactionStart(
    id: Digest, revision: Digest, groupIds: seq<Source>, sources: seq<Source>,
    shadowHash: Digest, shadowBytes: nat)

  datatype Replacement = AuthoredApplied | AuthoredTooLarge | NoPending

  datatype CompactionSummary = CompactionSummary(
    id: Digest, text: string, sources: seq<Source>, replacementBytes: nat,
    replacement: Option<Replacement>)

  datatype Policy = Policy(compactAfterBytes: nat, keepRecentGroups: nat)

  datatype AgentConfig = AgentConfig(version: nat, heading: string, policy: Policy)

  /** A world range by its two commit hashes; `None` is an open edge. */
  datatype WorldRange = WorldRange(from: Option<string>, to: Option<string>)

  // --- the wire's canonical bytes (RFC 8785 section 3.2) ------------------------

  /** The bytes one character occupies inside a canonical JSON string. */
  function EscapedBytes(c: char): nat {
    if c in "\"\\\n\r\t" || c as int == 8 || c as int == 12 then 2
    else if c as int < 0x20 then 6
    else |Utf8.EncodeChar(c)|
  }

  function EscapedTextBytes(s: string): nat {
    if s == "" then 0 else EscapedBytes(s[0]) + EscapedTextBytes(s[1..])
  }

  function StringBytes(s: string): nat {
    2 + EscapedTextBytes(s)
  }

  function CallBytes(call: FunctionCall): nat {
    |"{\"function\":{\"arguments\":,\"name\":},\"id\":,\"type\":\"function\"}"|
    + StringBytes(call.arguments) + StringBytes(call.name) + StringBytes(call.id)
  }

  function CallListBytes(calls: seq<FunctionCall>): nat {
    if calls == [] then 0 else CallBytes(calls[0]) + CallListBytes(calls[1..])
  }

  function MessageBytes(message: ChatMessage): (n: nat)
    ensures n > 0
  {
    match message
    case System(content) => |"{\"content\":,\"role\":\"system\"}"| + StringBytes(content)
    case User(content) => |"{\"content\":,\"role\":\"user\"}"| + StringBytes(content)
    case Tool(content, id) =>
      |"{\"content\":,\"role\":\"tool\",\"tool_call_id\":}"| + StringBytes(content) + StringBytes(id)
    case Assistant(text, calls) =>
      |"{\"content\":,\"role\":\"assistant\"}"|
      + (if text.Some? then StringBytes(text.value) else |"null"|)
      + (if calls == [] then 0
         else |",\"tool_calls\":[]"| + CallListBytes(calls) + |calls| - 1)
  }

  function MessageListBytes(messages: seq<ChatMessage>): nat {
    if messages == [] then 0 else MessageBytes(messages[0]) + MessageListBytes(messages[1..])
  }

  /** The length of `canonicalMessagesBytes`: brackets, the messages, and the commas between. */
  function WireBytes(messages: seq<ChatMessage>): nat {
    2 + MessageListBytes(messages) + (if messages == [] then 0 else |messages| - 1)
  }

  lemma {:induction false} MessageListBytesConcat(a: seq<ChatMessage>, b: seq<ChatMessage>)
    ensures MessageListBytes(a + b) == MessageListBytes(a) + MessageListBytes(b)
  {
    if a == [] {
      assert a + b == b;
    } else {
      assert (a + b)[1..] == a[1..] + b;
      MessageListBytesConcat(a[1..], b);
    }
  }
}
