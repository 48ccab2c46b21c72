/**
 The event envelope (`src/journal/envelope.ts`) and the line it is stored as. SHA-256
 and `JSON.parse` are parameters: the first only has to yield a hash, the second to
 read every strict document as the strict parser does and never to repeat a key.
 */
module Envelopes {
  import opened Wrappers
  import opened Decimals
  import opened Finite
  import opened StrictJson
  import opened JsonRoundTrip
  import opened Canonical

  datatype Codec = Codec(parse: Text -> Option<Json>, read: Reading, sha: Text -> Text)

  /** What the model relies on of the three foreign functions. */
  ghost predicate Sound(c: Codec) {
    && Lawful(c.read) && Stable(c.read)
    && (forall x :: IsHash(c.sha(x)))
    && (forall t :: Document(t, c.read).Some? ==> c.parse(t) == Document(t, c.read))
    && (forall t :: c.parse(t).Some? ==> DistinctKeys(c.parse(t).value) && Faithful(c.parse(t).value, c.read))
  }

  function Zeros(n: nat): (r: Text)
    ensures |r| == n && forall i :: 0 <= i < n ==> r[i] == ZERO
  {
    if n == 0 then [] else [ZERO] + Zeros(n - 1)
  }

  const FORMAT_VERSION := Integer(0)
  const GENESIS_HASH: Text := Zeros(64)

  const DATA: Text := [0x64, 0x61, 0x74, 0x61]
  const HASH: Text := [0x68, 0x61, 0x73, 0x68]
  const IGNORABLE: Text := [0x69, 0x67, 0x6E, 0x6F, 0x72, 0x61, 0x62, 0x6C, 0x65]
  const PREV_HASH: Text := [0x70, 0x72, 0x65, 0x76, 0x5F, 0x68, 0x61, 0x73, 0x68]
  const SEQ: Text := [0x73, 0x65, 0x71]
  const TIME: Text := [0x74, 0x69, 0x6D, 0x65]
  const TYPE: Text := [0x74, 0x79, 0x70, 0x65]
  const V: Text := [0x76]

  const ENVELOPE_KEYS: seq<Text> := [DATA, HASH, IGNORABLE, PREV_HASH, SEQ, TIME, TYPE, V]

  datatype Envelope = Envelope(
    version: Numeric, kind: Text, position: int, time: Numeric, prevHash: Text, hash: Text,
    ignorable: Option<bool>, data: Json)

  /** The optional member is present only when the caller passed it. */
  function IgnorableMember(e: Envelope): seq<Member> {
    if e.ignorable.None? then [] else [Member(IGNORABLE, Bool(e.ignorable.value))]
  }

  function PayloadMembers(e: Envelope): seq<Member> {
    [Member(DATA, e.data)] + IgnorableMember(e)
    + [Member(SEQ, Number(Integer(e.position))), Member(TIME, Number(e.time)), Member(TYPE, String(e.kind)),
       Member(V, Number(e.version))]
  }

  function EnvelopeMembers(e: Envelope): seq<Member> {
    [Member(DATA, e.data), Member(HASH, String(e.hash))] + IgnorableMember(e)
    + [Member(PREV_HASH, String(e.prevHash)), Member(SEQ, Number(Integer(e.position))),
       Member(TIME, Number(e.time)), Member(TYPE, String(e.kind)), Member(V, Number(e.version))]
  }

  /** The text `computeHash` hashes; `None` where the payload has no canonical form. */
  function HashInput(e: Envelope): Option<Text> {
    match Canonicalize(Object(PayloadMembers(e)))
    case None => None
    case Some(payload) => Some(e.prevHash + payload)
  }

  /** `computeHash`. */
  function ComputeHash(c: Codec, e: Envelope): Option<Text> {
    match HashInput(e)
    case None => None
    case Some(input) => Some(c.sha(input))
  }

  /** `verifyEvent`. */
  predicate VerifyEvent(c: Codec, e: Envelope) {
    ComputeHash(c, e) == Some(e.hash)
  }

  /** `eventLine`. */
  function EventLine(e: Envelope): Option<Text> {
    Canonicalize(Object(EnvelopeMembers(e)))
  }

  /** `makeEvent`. */
  function MakeEvent(
    c: Codec, kind: Text, data: Json, position: int, time: Numeric, prevHash: Text, ignorable: Option<bool>)
    : Option<Envelope>
  {
    var unsigned := Envelope(FORMAT_VERSION, kind, position, time, prevHash, [], ignorable, data);
    match ComputeHash(c, unsigned)
    case None => None
    case Some(hash) => Some(unsigned.(hash := hash))
  }

  function TextOf(v: Option<Json>): Option<Text> {
    if v.Some? && v.value.String? then Some(v.value.text) else None
  }

  function NumberOf(v: Option<Json>): Option<Numeric> {
    if v.Some? && v.value.Number? then Some(v.value.number) else None
  }

  function PositionOf(v: Option<Json>): Option<int> {
    var n := NumberOf(v);
    if n.Some? && n.value.Integer? && 0 <= n.value.n <= MAX_SAFE_INTEGER then Some(n.value.n) else None
  }

  function HashOf(v: Option<Json>): Option<Text> {
    var t := TextOf(v);
    if t.Some? && IsHash(t.value) then t else None
  }

  /** `parseEnvelope` of a parsed line. */
  function EnvelopeOf(members: seq<Member>): Option<Envelope> {
    var version, kind, position := NumberOf(Get(members, V)), TextOf(Get(members, TYPE)), PositionOf(Get(members, SEQ));
    var time, prevHash, hash := NumberOf(Get(members, TIME)), HashOf(Get(members, PREV_HASH)), HashOf(Get(members, HASH));
    var data, ignorable := Get(members, DATA), Get(members, IGNORABLE);
    if exists i :: 0 <= i < |members| && members[i].key !in ENVELOPE_KEYS then None
    else if version.None? || kind.None? || position.None? || time.None? || prevHash.None? || hash.None? then None
    else if data.None? || (ignorable.Some? && !ignorable.value.Bool?) then None
    else
      var flag := if ignorable.None? then None else Some(ignorable.value.flag);
      Some(Envelope(version.value, kind.value, position.value, time.value, prevHash.value, hash.value, flag, data.value))
  }

  function ParseEnvelope(c: Codec, line: Text): Option<Envelope> {
    match c.parse(line)
    case None => None
    case Some(v) => if v.Object? then EnvelopeOf(v.members) else None
  }

  // --- lookups -----------------------------------------------------------------------------------------

  lemma KeysDiffer()
    ensures NoDuplicates(ENVELOPE_KEYS)
  {
    var k := ENVELOPE_KEYS;
    assert k[0][0] == 0x64 && k[1][0] == 0x68 && k[2][0] == 0x69 && k[3][0] == 0x70 && k[4][0] == 0x73;
    assert k[5][0] == 0x74 && k[6][0] == 0x74 && k[5][1] == 0x69 && k[6][1] == 0x79 && k[7][0] == 0x76;
  }

  lemma NamesDiffer()
    ensures DATA != HASH && DATA != IGNORABLE && DATA != PREV_HASH && DATA != SEQ && DATA != TIME && DATA != TYPE
    ensures HASH != IGNORABLE && HASH != PREV_HASH && HASH != SEQ && HASH != TIME && HASH != TYPE && HASH != V
    ensures IGNORABLE != PREV_HASH && IGNORABLE != SEQ && IGNORABLE != TIME && IGNORABLE != TYPE && IGNORABLE != V
    ensures PREV_HASH != SEQ && PREV_HASH != TIME && PREV_HASH != TYPE && PREV_HASH != V && DATA != V
    ensures SEQ != TIME && SEQ != TYPE && SEQ != V && TIME != TYPE && TIME != V && TYPE != V
  {
    KeysDiffer();
    var k := ENVELOPE_KEYS;
    assert k[0] == DATA && k[1] == HASH && k[2] == IGNORABLE && k[3] == PREV_HASH && k[4] == SEQ && k[5] == TIME;
    assert k[6] == TYPE && k[7] == V;
  }

  /** What each key of the hashed payload names. */
  function PayloadAt(e: Envelope, key: Text): Option<Json> {
    if key == DATA then Some(e.data)
    else if key == IGNORABLE then if e.ignorable.None? then None else Some(Bool(e.ignorable.value))
    else if key == SEQ then Some(Number(Integer(e.position)))
    else if key == TIME then Some(Number(e.time))
    else if key == TYPE then Some(String(e.kind))
    else if key == V then Some(Number(e.version))
    else None
  }

  /** The stored line adds the two hashes. */
  function EnvelopeAt(e: Envelope, key: Text): Option<Json> {
    if key == HASH then Some(String(e.hash))
    else if key == PREV_HASH then Some(String(e.prevHash))
    else PayloadAt(e, key)
  }

  lemma PayloadRepeatsNothing(e: Envelope)
    ensures NoRepeat(PayloadMembers(e))
  {
    NamesDiffer();
  }

  lemma PayloadLookup(e: Envelope, key: Text)
    ensures NoRepeat(PayloadMembers(e)) && Get(PayloadMembers(e), key) == PayloadAt(e, key)
  {
    hide Get, Keys, NoRepeat;
    PayloadRepeatsNothing(e);
    NamesDiffer();
    var members := PayloadMembers(e);
    if key in Keys(members) {
      var m := MemberOfKey(members, key);
      var i :| 0 <= i < |members| && members[i] == m;
      GetAt(members, i);
    }
    PayloadKeys(e);
  }

  lemma PayloadKeys(e: Envelope)
    ensures forall key :: key in Keys(PayloadMembers(e)) <==> PayloadAt(e, key).Some?
  {
    NamesDiffer();
    var keys := Keys(PayloadMembers(e));
    if e.ignorable.None? {
      assert keys == [DATA, SEQ, TIME, TYPE, V];
    } else {
      assert keys == [DATA, IGNORABLE, SEQ, TIME, TYPE, V];
    }
  }

  lemma EnvelopeRepeatsNothing(e: Envelope)
    ensures NoRepeat(EnvelopeMembers(e))
  {
    NamesDiffer();
  }

  lemma EnvelopeLookup(e: Envelope, key: Text)
    ensures NoRepeat(EnvelopeMembers(e)) && Get(EnvelopeMembers(e), key) == EnvelopeAt(e, key)
  {
    hide Get, Keys, NoRepeat;
    EnvelopeRepeatsNothing(e);
    NamesDiffer();
    var members := EnvelopeMembers(e);
    if key in Keys(members) {
      var m := MemberOfKey(members, key);
      var i :| 0 <= i < |members| && members[i] == m;
      GetAt(members, i);
    }
    EnvelopeMemberKeys(e);
  }

  lemma EnvelopeMemberKeys(e: Envelope)
    ensures forall key :: key in Keys(EnvelopeMembers(e)) <==> EnvelopeAt(e, key).Some?
    ensures forall key :: key in Keys(EnvelopeMembers(e)) ==> key in ENVELOPE_KEYS
  {
    NamesDiffer();
    var keys, k := Keys(EnvelopeMembers(e)), ENVELOPE_KEYS;
    assert k[0] == DATA && k[1] == HASH && k[2] == IGNORABLE && k[3] == PREV_HASH && k[4] == SEQ && k[5] == TIME;
    assert k[6] == TYPE && k[7] == V;
    if e.ignorable.None? {
      assert keys == [DATA, HASH, PREV_HASH, SEQ, TIME, TYPE, V];
    } else {
      assert keys == [DATA, HASH, IGNORABLE, PREV_HASH, SEQ, TIME, TYPE, V];
    }
  }

  /**
   A parsed object is an envelope if and only if, key by key, it holds exactly what the envelope
   puts there and nothing else, with a position in range and two hashes.
   */
  lemma EnvelopeIff(members: seq<Member>, e: Envelope)
    ensures EnvelopeOf(members) == Some(e) <==>
              && (forall key :: Get(members, key) == EnvelopeAt(e, key))
              && 0 <= e.position <= MAX_SAFE_INTEGER && IsHash(e.prevHash) && IsHash(e.hash)
  {
    hide Get, IsHash, Keys, EnvelopeAt;
    Named(e);
    if EnvelopeOf(members) == Some(e) {
      forall key ensures Get(members, key) == EnvelopeAt(e, key) {
        OnlyNamed(members, e, key);
      }
    } else if forall key :: Get(members, key) == EnvelopeAt(e, key) {
      forall i | 0 <= i < |members| ensures members[i].key in ENVELOPE_KEYS {
        KeyIsFound(members, i);
        OnlyNamed(members, e, members[i].key);
      }
    }
  }

  lemma KeyIsFound(members: seq<Member>, i: nat)
    requires i < |members|
    ensures Get(members, members[i].key).Some?
  {
    hide Get;
    assert Keys(members)[i] == members[i].key;
  }

  /** A key is one of the eight, or neither the envelope nor members that all are has it. */
  lemma OnlyNamed(members: seq<Member>, e: Envelope, key: Text)
    ensures key in ENVELOPE_KEYS ==> key in {DATA, HASH, IGNORABLE, PREV_HASH, SEQ, TIME, TYPE, V}
    ensures key !in ENVELOPE_KEYS ==> EnvelopeAt(e, key).None?
    ensures key !in ENVELOPE_KEYS && (forall i :: 0 <= i < |members| ==> members[i].key in ENVELOPE_KEYS) ==>
              Get(members, key).None?
  {
    hide Get;
    var k := ENVELOPE_KEYS;
    assert k[0] == DATA && k[1] == HASH && k[2] == IGNORABLE && k[3] == PREV_HASH && k[4] == SEQ && k[5] == TIME;
    assert k[6] == TYPE && k[7] == V;
  }

  lemma Named(e: Envelope)
    ensures EnvelopeAt(e, V) == Some(Number(e.version)) && EnvelopeAt(e, TYPE) == Some(String(e.kind))
    ensures EnvelopeAt(e, SEQ) == Some(Number(Integer(e.position))) && EnvelopeAt(e, TIME) == Some(Number(e.time))
    ensures EnvelopeAt(e, PREV_HASH) == Some(String(e.prevHash)) && EnvelopeAt(e, HASH) == Some(String(e.hash))
    ensures EnvelopeAt(e, DATA) == Some(e.data)
    ensures EnvelopeAt(e, IGNORABLE) == if e.ignorable.None? then None else Some(Bool(e.ignorable.value))
  {
    NamesDiffer();
  }
}
