/**
 Chain verification (`src/journal/verify.ts`): one walk that carries the chain state
 from line to line, whatever frames the lines come in. Two accepted logs with one last
 hash are one log, unless they exhibit a collision; what the writer makes verifies.
 */
module Chains {
  import opened Wrappers
  import opened Decimals
  import opened StrictJson
  import opened JsonRoundTrip
  import opened Canonical
  import opened Envelopes

  datatype Chain = Chain(prevHash: Text, position: nat, firstHash: Option<Text>)

  const GENESIS := Chain(GENESIS_HASH, 0, None)

  datatype Break = ChainBreak(at: int) | UnknownType(kind: Text)

  datatype Walked = Walked(events: seq<Envelope>, state: Chain, broken: Option<Break>)

  /** One round of the walk: every rule of the chain, in the source's order. */
  function Judge(c: Codec, known: Option<set<Text>>, s: Chain, line: Text): Result<Envelope, Break> {
    match ParseEnvelope(c, line)
    case None => Err(ChainBreak(s.position))
    case Some(e) =>
      if e.version != FORMAT_VERSION then Err(ChainBreak(s.position))
      else if EventLine(e) != Some(line) then Err(ChainBreak(s.position))
      else if e.position != s.position then Err(ChainBreak(e.position))
      else if e.prevHash != s.prevHash then Err(ChainBreak(e.position))
      else if !VerifyEvent(c, e) then Err(ChainBreak(e.position))
      else if known.Some? && e.kind !in known.value && e.ignorable != Some(true) then Err(UnknownType(e.kind))
      else Ok(e)
  }

  function Next(s: Chain, e: Envelope): Chain {
    Chain(e.hash, s.position + 1, if s.firstHash.None? then Some(e.hash) else s.firstHash)
  }

  /** The walk over a list of lines: the events it yields, the state it leaves, why it stopped. */
  function Walk(c: Codec, known: Option<set<Text>>, s: Chain, lines: seq<Text>): Walked {
    if lines == [] then Walked([], s, None)
    else
      var before := Walk(c, known, s, lines[..|lines| - 1]);
      if before.broken.Some? then before
      else
        match Judge(c, known, before.state, lines[|lines| - 1])
        case Err(b) => before.(broken := Some(b))
        case Ok(e) => Walked(before.events + [e], Next(before.state, e), None)
  }

  function Flatten(batches: seq<seq<Text>>): seq<Text> {
    if batches == [] then [] else Flatten(batches[..|batches| - 1]) + batches[|batches| - 1]
  }

  /** `ChainState`, which a verification pass mutates as it goes. */
  class ChainState {
    var prevHash: Text
    var position: nat
    var firstHash: Option<Text>

    ghost function State(): Chain
      reads this
    {
      Chain(prevHash, position, firstHash)
    }

    /** `genesisState`. */
    constructor ()
      ensures State() == GENESIS
    {
      prevHash := GENESIS_HASH;
      position := 0;
      firstHash := None;
    }

    /** The inner loop: the lines of one batch, to the end or the first refusal. */
    method VerifyLines(c: Codec, known: Option<set<Text>>, lines: seq<Text>)
      returns (events: seq<Envelope>, broken: Option<Break>)
      modifies this
      ensures Walked(events, State(), broken) == Walk(c, known, old(State()), lines)
    {
      hide Judge, Walk;
      ghost var from := State();
      events, broken := [], None;
      WalkNothing(c, known, from);
      var j := 0;
      assert lines[..0] == [];
      while j < |lines|
        invariant j <= |lines| && broken.None?
        invariant Walked(events, State(), None) == Walk(c, known, from, lines[..j])
      {
        WalkOne(c, known, from, lines[..j], lines[j]);
        assert lines[..j] + [lines[j]] == lines[..j + 1];
        var judged := Judge(c, known, Chain(prevHash, position, firstHash), lines[j]);
        if judged.Err? {
          broken := Some(judged.error);
          BrokenStays(c, known, from, lines[..j + 1], lines[j + 1..]);
          assert lines[..j + 1] + lines[j + 1..] == lines;
          return;
        }
        var e := judged.value;
        events := events + [e];
        if firstHash.None? { firstHash := Some(e.hash); }
        prevHash := e.hash;
        position := position + 1;
        j := j + 1;
      }
      assert lines[..j] == lines;
    }

    /** The walk of `verifyChain`, to its end or its first refusal. */
    method VerifyChain(c: Codec, known: Option<set<Text>>, batches: seq<seq<Text>>)
      returns (events: seq<Envelope>, broken: Option<Break>)
      modifies this
      ensures Walked(events, State(), broken) == Walk(c, known, old(State()), Flatten(batches))
    {
      hide Walk, Flatten;
      ghost var from := State();
      events, broken := [], None;
      WalkNothing(c, known, from);
      FlattenNothing();
      var i := 0;
      assert batches[..0] == [];
      while i < |batches|
        invariant i <= |batches| && broken.None?
        invariant Walked(events, State(), None) == Walk(c, known, from, Flatten(batches[..i]))
      {
        FlattenNext(batches, i);
        CarriedState(c, known, from, Flatten(batches[..i]), batches[i]);
        var more;
        more, broken := VerifyLines(c, known, batches[i]);
        events := events + more;
        if broken.Some? {
          FlattenSplit(batches, i);
          BrokenStays(c, known, from, Flatten(batches[..i]) + batches[i], Flatten(batches[i + 1..]));
          return;
        }
        i := i + 1;
      }
      assert batches[..i] == batches;
    }
  }

  lemma WalkNothing(c: Codec, known: Option<set<Text>>, s: Chain)
    ensures Walk(c, known, s, []) == Walked([], s, None)
  {
  }

  lemma FlattenNothing()
    ensures Flatten([]) == []
  {
  }

  lemma FlattenNext(batches: seq<seq<Text>>, i: nat)
    requires i < |batches|
    ensures Flatten(batches[..i + 1]) == Flatten(batches[..i]) + batches[i]
  {
    assert batches[..i + 1][..i] == batches[..i];
  }

  lemma WalkOne(c: Codec, known: Option<set<Text>>, s: Chain, lines: seq<Text>, line: Text)
    ensures Walk(c, known, s, lines + [line]) ==
      var before := Walk(c, known, s, lines);
      if before.broken.Some? then before
      else match Judge(c, known, before.state, line)
        case Err(b) => before.(broken := Some(b))
        case Ok(e) => Walked(before.events + [e], Next(before.state, e), None)
  {
    hide Judge;
    assert (lines + [line])[..|lines|] == lines;
  }

  lemma {:induction false} FlattenConcat(a: seq<seq<Text>>, b: seq<seq<Text>>)
    ensures Flatten(a + b) == Flatten(a) + Flatten(b)
  {
    if b == [] {
      assert a + b == a;
    } else {
      assert (a + b)[..|a + b| - 1] == a + b[..|b| - 1];
      FlattenConcat(a, b[..|b| - 1]);
    }
  }

  lemma FlattenSplit(batches: seq<seq<Text>>, i: nat)
    requires i < |batches|
    ensures Flatten(batches) == Flatten(batches[..i]) + batches[i] + Flatten(batches[i + 1..])
  {
    hide Flatten;
    FlattenNext(batches, i);
    FlattenConcat(batches[..i + 1], batches[i + 1..]);
    assert batches == batches[..i + 1] + batches[i + 1..];
  }

  lemma {:induction false} BrokenStays(c: Codec, known: Option<set<Text>>, s: Chain, a: seq<Text>, b: seq<Text>)
    requires Walk(c, known, s, a).broken.Some?
    ensures Walk(c, known, s, a + b) == Walk(c, known, s, a)
  {
    hide Judge;
    if b == [] {
      assert a + b == a;
    } else {
      BrokenStays(c, known, s, a, b[..|b| - 1]);
      assert (a + b)[..|a + b| - 1] == a + b[..|b| - 1];
    }
  }

  /** Verifying one part and then the next with the carried state is verifying them together. */
  lemma {:induction false} CarriedState(c: Codec, known: Option<set<Text>>, s: Chain, a: seq<Text>, b: seq<Text>)
    requires Walk(c, known, s, a).broken.None?
    ensures var first := Walk(c, known, s, a);
            var second := Walk(c, known, first.state, b);
            Walk(c, known, s, a + b) == Walked(first.events + second.events, second.state, second.broken)
  {
    hide Judge;
    var first := Walk(c, known, s, a);
    if b == [] {
      assert a + b == a && first.events + [] == first.events;
    } else {
      var shorter := b[..|b| - 1];
      CarriedState(c, known, s, a, shorter);
      assert (a + b)[..|a + b| - 1] == a + shorter;
      assert (a + b)[|a + b| - 1] == b[|b| - 1];
      var second := Walk(c, known, first.state, shorter);
      if second.broken.None? {
        match Judge(c, known, second.state, b[|b| - 1]) {
          case Err(_) =>
          case Ok(e) => assert first.events + second.events + [e] == first.events + (second.events + [e]);
        }
      }
    }
  }

  // --- one accepted line -------------------------------------------------------------------------------

  /** What an accepted line says: it is the canonical line of an event that links to the state. */
  ghost predicate Linked(c: Codec, s: Chain, line: Text, e: Envelope) {
    && ParseEnvelope(c, line) == Some(e) && EventLine(e) == Some(line)
    && e.position == s.position && e.prevHash == s.prevHash && HashInput(e).Some? && e.hash == c.sha(HashInput(e).value)
  }

  lemma AcceptedIsLinked(c: Codec, known: Option<set<Text>>, s: Chain, line: Text)
    requires Judge(c, known, s, line).Ok?
    ensures Linked(c, s, line, Judge(c, known, s, line).value)
  {
    hide ParseEnvelope, EventLine, HashInput;
  }

  /** The parsed envelope's members are those of the parsed object. */
  lemma ParsedMembers(c: Codec, line: Text)
    requires Sound(c) && ParseEnvelope(c, line).Some?
    ensures var e := ParseEnvelope(c, line).value;
            && IsHash(e.prevHash) && IsHash(e.hash) && DistinctKeys(e.data) && Faithful(e.data, c.read)
            && Read(e.version, c.read) && Read(e.time, c.read) && Read(Integer(e.position), c.read)
  {
    hide Get, IsHash, DistinctKeys, Faithful, Read, Lawful, Stable, Document;
    var v := c.parse(line).value;
    var e := ParseEnvelope(c, line).value;
    ValueIsDistinctIn(v, DATA, Get(v.members, DATA).value);
    ValueIsFaithfulIn(v, DATA, Get(v.members, DATA).value, c.read);
    ValueIsFaithfulIn(v, V, Number(e.version), c.read);
    ValueIsFaithfulIn(v, TIME, Number(e.time), c.read);
    ValueIsFaithfulIn(v, SEQ, Number(Integer(e.position)), c.read);
    NumberIsFaithful(e.version, c.read);
    NumberIsFaithful(e.time, c.read);
    NumberIsFaithful(Integer(e.position), c.read);
  }

  lemma NumberIsFaithful(n: Numeric, read: Reading)
    ensures Faithful(Number(n), read) <==> Read(n, read)
  {
  }

  lemma ValueIsFaithfulIn(v: Json, key: Text, x: Json, read: Reading)
    requires v.Object? && Faithful(v, read) && Get(v.members, key) == Some(x)
    ensures Faithful(x, read)
  {
    hide Get;
    assert Member(key, x) in v.members;
  }

  // --- the chain determines the log ------------------------------------------------------------------------

  ghost predicate SoundParts(e: Envelope, read: Reading) {
    && DistinctKeys(e.data) && Faithful(e.data, read)
    && Read(e.version, read) && Read(e.time, read) && Read(Integer(e.position), read)
  }

  lemma PayloadIsSound(e: Envelope, read: Reading)
    requires SoundParts(e, read)
    ensures DistinctKeys(Object(PayloadMembers(e))) && Faithful(Object(PayloadMembers(e)), read)
  {
    hide Read;
    PayloadRepeatsNothing(e);
  }

  lemma EnvelopeIsSound(e: Envelope, read: Reading)
    requires SoundParts(e, read)
    ensures DistinctKeys(Object(EnvelopeMembers(e))) && Faithful(Object(EnvelopeMembers(e)), read)
  {
    hide Read;
    EnvelopeRepeatsNothing(e);
  }

  /** One hashed payload is one payload, up to member order inside the data. */
  lemma PayloadsAgree(a: Envelope, b: Envelope, read: Reading, key: Text)
    requires SoundParts(a, read) && SoundParts(b, read)
    requires Canonicalize(Object(PayloadMembers(a))).Some?
    requires Canonicalize(Object(PayloadMembers(a))) == Canonicalize(Object(PayloadMembers(b)))
    ensures Sorted(PayloadAt(a, key)) == Sorted(PayloadAt(b, key))
  {
    hide SoundParts, Get, SortMembers, SortKeys, DistinctKeys, Faithful, Write, WellFormed, PayloadMembers, PayloadAt;
    var v, w := Object(PayloadMembers(a)), Object(PayloadMembers(b));
    PayloadIsSound(a, read);
    PayloadIsSound(b, read);
    SortedIsSound(v, read);
    SortedIsSound(w, read);
    WriteIsInjective(SortKeys(v), SortKeys(w), read);
    ObjectSorts(PayloadMembers(a));
    ObjectSorts(PayloadMembers(b));
    PayloadLookup(a, key);
    PayloadLookup(b, key);
    GetSorted(PayloadMembers(a), key);
    GetSorted(PayloadMembers(b), key);
  }

  lemma PositionsAgree(a: Envelope, b: Envelope)
    requires Sorted(PayloadAt(a, SEQ)) == Sorted(PayloadAt(b, SEQ))
    ensures a.position == b.position
  {
    NamesDiffer();
  }

  /** Envelopes that agree key by key, up to member order inside the data, have one line. */
  lemma LinesAgree(a: Envelope, b: Envelope)
    requires a.hash == b.hash && a.prevHash == b.prevHash
    requires forall key :: Sorted(PayloadAt(a, key)) == Sorted(PayloadAt(b, key))
    requires EventLine(a).Some? && EventLine(b).Some?
    ensures EventLine(a) == EventLine(b)
  {
    hide Get, SortKeys, Write, WellFormed, EnvelopeMembers, PayloadAt, Canonicalize;
    var v, w := EnvelopeMembers(a), EnvelopeMembers(b);
    forall key ensures Sorted(Get(v, key)) == Sorted(Get(w, key)) {
      EnvelopeLookup(a, key);
      EnvelopeLookup(b, key);
      assert Sorted(PayloadAt(a, key)) == Sorted(PayloadAt(b, key));
    }
    EnvelopeRepeatsNothing(a);
    EnvelopeRepeatsNothing(b);
    TextIsWellFormed(Object(v));
    TextIsWellFormed(Object(w));
    LookupsGiveText(v, w);
  }

  lemma TextIsWellFormed(v: Json)
    requires Canonicalize(v).Some?
    ensures WellFormed(v)
  {
    hide WellFormed;
  }

  /** The text a stored line's hash is taken of. */
  function Hashed(c: Codec, line: Text): Text {
    var e := ParseEnvelope(c, line);
    if e.None? then [] else
      var input := HashInput(e.value);
      if input.None? then [] else input.value
  }

  /** Two different hashed texts with one hash. */
  ghost predicate Collide(c: Codec, a: Text, b: Text) {
    Hashed(c, a) != Hashed(c, b) && c.sha(Hashed(c, a)) == c.sha(Hashed(c, b))
  }

  /** Two accepted lines with one hash are one line at one position behind one hash, or collide. */
  lemma SameHashSameLine(c: Codec, s: Chain, t: Chain, a: Text, b: Text, e: Envelope, f: Envelope)
    requires Sound(c) && Linked(c, s, a, e) && Linked(c, t, b, f) && e.hash == f.hash
    ensures Collide(c, a, b) || (a == b && s.position == t.position && s.prevHash == t.prevHash)
  {
    hide ParseEnvelope, Canonicalize, PayloadMembers, PayloadAt, EventLine, SoundParts, Sound, Sorted;
    LineIsSound(c, a);
    LineIsSound(c, b);
    if Hashed(c, a) == Hashed(c, b) {
      var p, q := Canonicalize(Object(PayloadMembers(e))), Canonicalize(Object(PayloadMembers(f)));
      assert e.prevHash + p.value == f.prevHash + q.value;
      assert e.prevHash == (e.prevHash + p.value)[..64] && f.prevHash == (f.prevHash + q.value)[..64];
      assert p.value == (e.prevHash + p.value)[64..] && q.value == (f.prevHash + q.value)[64..];
      forall key ensures Sorted(PayloadAt(e, key)) == Sorted(PayloadAt(f, key)) {
        PayloadsAgree(e, f, c.read, key);
      }
      PositionsAgree(e, f);
      LinesAgree(e, f);
    }
  }

  lemma LineIsSound(c: Codec, line: Text)
    requires Sound(c) && ParseEnvelope(c, line).Some?
    ensures SoundParts(ParseEnvelope(c, line).value, c.read) && |ParseEnvelope(c, line).value.prevHash| == 64
  {
    hide ParseEnvelope, Sound, DistinctKeys, Faithful, Read;
    ParsedMembers(c, line);
  }

  /** Some pair of lines of the two logs collides. */
  ghost predicate SomeCollision(c: Codec, a: seq<Text>, b: seq<Text>) {
    exists x, y :: x in a && y in b && Collide(c, x, y)
  }

  /** Some line of the log hashes to the all-zero hash that names no event. */
  ghost predicate HitsGenesis(c: Codec, a: seq<Text>) {
    exists x :: x in a && c.sha(Hashed(c, x)) == GENESIS_HASH
  }

  lemma LastLine(c: Codec, known: Option<set<Text>>, lines: seq<Text>) returns (before: Chain, e: Envelope)
    requires lines != [] && Walk(c, known, GENESIS, lines).broken.None?
    ensures var shorter := Walk(c, known, GENESIS, lines[..|lines| - 1]);
            shorter.broken.None? && before == shorter.state
    ensures Linked(c, before, lines[|lines| - 1], e)
    ensures Walk(c, known, GENESIS, lines).state.prevHash == e.hash == c.sha(Hashed(c, lines[|lines| - 1]))
  {
    hide Judge, ParseEnvelope, HashInput, EventLine;
    before := Walk(c, known, GENESIS, lines[..|lines| - 1]).state;
    var line := lines[|lines| - 1];
    AcceptedIsLinked(c, known, before, line);
    e := Judge(c, known, before, line).value;
  }

  /**
   The chain determines the log: two logs accepted from genesis whose last hashes are
   equal are the same lines, unless their own lines exhibit a SHA-256 collision or a
   preimage of the all-zero genesis hash. The two passes may know different event types.
   */
  lemma {:induction false} ChainDeterminesLog(
    c: Codec, known: Option<set<Text>>, other: Option<set<Text>>, a: seq<Text>, b: seq<Text>)
    requires Sound(c)
    requires Walk(c, known, GENESIS, a).broken.None? && Walk(c, other, GENESIS, b).broken.None?
    requires Walk(c, known, GENESIS, a).state.prevHash == Walk(c, other, GENESIS, b).state.prevHash
    ensures a == b || SomeCollision(c, a, b) || HitsGenesis(c, a) || HitsGenesis(c, b)
  {
    hide Sound, Walk, Linked, Hashed, Collide;
    WalkNothing(c, known, GENESIS);
    WalkNothing(c, other, GENESIS);
    if a != [] {
      var s, e := LastLine(c, known, a);
      if b == [] {
        assert a[|a| - 1] in a;
      } else {
        var t, f := LastLine(c, other, b);
        var x, y := a[|a| - 1], b[|b| - 1];
        assert x in a && y in b;
        SameHashSameLine(c, s, t, x, y, e, f);
        if !Collide(c, x, y) {
          var shortA, shortB := a[..|a| - 1], b[..|b| - 1];
          ChainDeterminesLog(c, known, other, shortA, shortB);
          assert a == shortA + [x] && b == shortB + [y];
        }
      }
    } else if b != [] {
      var t, f := LastLine(c, other, b);
      assert b[|b| - 1] in b;
    }
  }

  // --- what the writer makes verifies ------------------------------------------------------------------------

  datatype Draft = Draft(kind: Text, data: Json, time: Numeric, ignorable: Option<bool>)

  datatype Journal = Journal(lines: seq<Text>, events: seq<Envelope>, state: Chain)

  /** The next event of a log, made from a draft. */
  function NextEvent(c: Codec, s: Chain, d: Draft): Option<Envelope> {
    MakeEvent(c, d.kind, d.data, s.position, d.time, s.prevHash, d.ignorable)
  }

  /** One more event and its line; `None` where either has no canonical form. */
  function Append(c: Codec, j: Journal, d: Draft): Option<Journal> {
    var e := NextEvent(c, j.state, d);
    if e.None? || EventLine(e.value).None? then None
    else Some(Journal(j.lines + [EventLine(e.value).value], j.events + [e.value], Next(j.state, e.value)))
  }

  /** A log made of `makeEvent` and `eventLine`. */
  function WriteLog(c: Codec, drafts: seq<Draft>): Option<Journal> {
    if drafts == [] then Some(Journal([], [], GENESIS))
    else
      match WriteLog(c, drafts[..|drafts| - 1])
      case None => None
      case Some(j) => Append(c, j, drafts[|drafts| - 1])
  }

  /** A payload a JavaScript value can be: no repeated key, and numbers the reading takes back. */
  ghost predicate Proper(d: Draft, c: Codec, known: Option<set<Text>>) {
    && DistinctKeys(d.data) && Faithful(d.data, c.read) && Read(d.time, c.read)
    && (known.None? || d.kind in known.value || d.ignorable == Some(true))
  }

  /** The event as the reader gets it back: its data with sorted keys. */
  function Stored(e: Envelope): Envelope {
    e.(data := SortKeys(e.data))
  }

  lemma StoredAt(e: Envelope, key: Text)
    requires DistinctKeys(e.data)
    ensures Sorted(PayloadAt(Stored(e), key)) == Sorted(PayloadAt(e, key))
  {
    hide SortKeys;
    SortTwice(e.data);
  }

  lemma StoredIsWellFormed(e: Envelope)
    requires DistinctKeys(e.data) && WellFormed(Object(EnvelopeMembers(e)))
    ensures WellFormed(Object(EnvelopeMembers(Stored(e)))) && WellFormed(Object(PayloadMembers(Stored(e))))
    ensures WellFormed(Object(PayloadMembers(e)))
  {
    hide SortKeys, WellFormedText;
    var members := EnvelopeMembers(e);
    assert members[0] == Member(DATA, e.data);
    assert members[|members| - 2] == Member(TYPE, String(e.kind));
    assert members[|members| - 1] == Member(V, Number(e.version));
    assert members[|members| - 3] == Member(TIME, Number(e.time));
    assert members[|members| - 4] == Member(SEQ, Number(Integer(e.position)));
    assert members[|members| - 5] == Member(PREV_HASH, String(e.prevHash)) && members[1] == Member(HASH, String(e.hash));
    if e.ignorable.Some? {
      assert members[2] == Member(IGNORABLE, Bool(e.ignorable.value));
    }
    SortedIsWellFormed(e.data);
  }

  /** Sorting the data changes neither the line nor the hash. */
  lemma StoredIsSame(e: Envelope)
    requires DistinctKeys(e.data) && EventLine(e).Some?
    ensures EventLine(Stored(e)) == EventLine(e) && HashInput(Stored(e)) == HashInput(e)
  {
    hide Get, SortKeys, Write, WellFormed, EnvelopeMembers, PayloadMembers, PayloadAt, Stored, Sorted, Canonicalize;
    TextIsWellFormed(Object(EnvelopeMembers(e)));
    StoredIsWellFormed(e);
    WellFormedHasText(Object(EnvelopeMembers(Stored(e))));
    var v, w := PayloadMembers(Stored(e)), PayloadMembers(e);
    forall key ensures Sorted(Get(v, key)) == Sorted(Get(w, key)) {
      PayloadLookup(Stored(e), key);
      PayloadLookup(e, key);
      StoredAt(e, key);
    }
    forall key ensures Sorted(PayloadAt(Stored(e), key)) == Sorted(PayloadAt(e, key)) {
      StoredAt(e, key);
    }
    StoredKeepsHashes(e);
    LinesAgree(Stored(e), e);
    PayloadRepeatsNothing(e);
    PayloadRepeatsNothing(Stored(e));
    LookupsGiveText(v, w);
  }

  lemma WellFormedHasText(v: Json)
    requires WellFormed(v)
    ensures Canonicalize(v).Some?
  {
    hide WellFormed;
  }

  lemma StoredKeepsHashes(e: Envelope)
    ensures Stored(e).hash == e.hash && Stored(e).prevHash == e.prevHash
  {
  }

  lemma StoredLookup(e: Envelope, key: Text)
    ensures Get(SortMembers(EnvelopeMembers(e)), key) == Sorted(EnvelopeAt(e, key))
  {
    hide Get, SortMembers, EnvelopeMembers, EnvelopeAt, SortKeys;
    EnvelopeLookup(e, key);
    GetSorted(EnvelopeMembers(e), key);
  }

  /** What each name finds in the stored line. */
  lemma StoredNames(e: Envelope)
    ensures var sorted := SortMembers(EnvelopeMembers(e));
            && Get(sorted, V) == Some(Number(e.version)) && Get(sorted, TYPE) == Some(String(e.kind))
            && Get(sorted, SEQ) == Some(Number(Integer(e.position))) && Get(sorted, TIME) == Some(Number(e.time))
            && Get(sorted, PREV_HASH) == Some(String(e.prevHash)) && Get(sorted, HASH) == Some(String(e.hash))
            && Get(sorted, DATA) == Some(SortKeys(e.data))
            && Get(sorted, IGNORABLE) == if e.ignorable.None? then None else Some(Bool(e.ignorable.value))
  {
    hide Get, SortMembers, EnvelopeMembers;
    NamesDiffer();
    StoredLookup(e, V);
    StoredLookup(e, TYPE);
    StoredLookup(e, SEQ);
    StoredLookup(e, TIME);
    StoredLookup(e, PREV_HASH);
    StoredLookup(e, HASH);
    StoredLookup(e, DATA);
    StoredLookup(e, IGNORABLE);
  }

  lemma StoredKeysAreKnown(e: Envelope)
    ensures forall m :: m in SortMembers(EnvelopeMembers(e)) ==> m.key in ENVELOPE_KEYS
  {
    hide SortMembers, EnvelopeMembers, Keys;
    var members := EnvelopeMembers(e);
    EnvelopeRepeatsNothing(e);
    SortMembersIs(members);
    EnvelopeMemberKeys(e);
    forall x | x in SortMembers(members) ensures x.key in ENVELOPE_KEYS {
      var m :| m in members && m.key == x.key;
      KeyOfMember(members, m);
    }
  }

  /** The members of a line the writer stores parse to the stored event. */
  lemma StoredIsParsed(e: Envelope)
    requires IsHash(e.prevHash) && IsHash(e.hash) && 0 <= e.position <= MAX_SAFE_INTEGER
    ensures EnvelopeOf(SortMembers(EnvelopeMembers(e))) == Some(Stored(e))
  {
    hide Get, SortMembers, EnvelopeMembers, IsHash;
    StoredNames(e);
    StoredKeysAreKnown(e);
  }

  /** The writer's line is judged to be its event. */
  lemma WrittenIsAccepted(c: Codec, known: Option<set<Text>>, s: Chain, d: Draft)
    requires Sound(c) && Proper(d, c, known) && IsHash(s.prevHash) && s.position <= MAX_SAFE_INTEGER
    requires NextEvent(c, s, d).Some? && EventLine(NextEvent(c, s, d).value).Some?
    ensures var e := NextEvent(c, s, d).value;
            Judge(c, known, s, EventLine(e).value) == Ok(Stored(e)) && IsHash(e.hash)
  {
    hide Canonicalize, EnvelopeMembers, PayloadMembers, IsHash, DistinctKeys, Faithful, Read, SortKeys, Document, Lawful, Stable;
    var e := NextEvent(c, s, d).value;
    var line := EventLine(e).value;
    MadeEvent(c, s, d);
    StoredIsSame(e);
    LineParses(c, e);
    StoredKeepsHashes(e);
  }

  /** What `makeEvent` builds: the draft at the next position, hashed over its payload. */
  lemma MadeEvent(c: Codec, s: Chain, d: Draft)
    requires NextEvent(c, s, d).Some?
    ensures var e := NextEvent(c, s, d).value;
            && e.version == FORMAT_VERSION && e.kind == d.kind && e.position == s.position && e.time == d.time
            && e.prevHash == s.prevHash && e.ignorable == d.ignorable && e.data == d.data
            && HashInput(e).Some? && e.hash == c.sha(HashInput(e).value)
  {
    hide Canonicalize;
  }

  lemma LineParses(c: Codec, e: Envelope)
    requires Sound(c) && EventLine(e).Some? && DistinctKeys(e.data) && Faithful(e.data, c.read)
    requires Read(e.time, c.read) && e.version == FORMAT_VERSION && 0 <= e.position <= MAX_SAFE_INTEGER
    requires IsHash(e.prevHash) && IsHash(e.hash)
    ensures ParseEnvelope(c, EventLine(e).value) == Some(Stored(e))
  {
    hide EnvelopeMembers, IsHash, DistinctKeys, Faithful, Read, SortKeys, SortMembers, Document, Lawful, Stable,
      EnvelopeOf, WellFormed, Write;
    var v := Object(EnvelopeMembers(e));
    IntegerIsRead(0, c.read);
    IntegerIsRead(e.position, c.read);
    EnvelopeIsSound(e, c.read);
    CanonicalRoundTrip(v, c.read);
    ObjectSorts(EnvelopeMembers(e));
    StoredIsParsed(e);
  }

  lemma GenesisIsHash()
    ensures IsHash(GENESIS_HASH)
  {
  }

  /**
   What the writer makes verifies: a log of proper drafts is walked to its end, yields
   its events (data with sorted keys) and leaves the writer's own chain state.
   */
  lemma {:induction false} WriterVerifies(c: Codec, known: Option<set<Text>>, drafts: seq<Draft>)
    requires Sound(c) && WriteLog(c, drafts).Some? && |drafts| <= MAX_SAFE_INTEGER
    requires forall i :: 0 <= i < |drafts| ==> Proper(drafts[i], c, known)
    ensures var j := WriteLog(c, drafts).value;
            && Walk(c, known, GENESIS, j.lines) == Walked(StoredAll(j.events), j.state, None)
            && j.state.position == |drafts| && IsHash(j.state.prevHash)
  {
    hide Sound, Proper, Judge, NextEvent, EventLine, IsHash;
    if drafts == [] {
      GenesisIsHash();
    } else {
      var shorter, d := drafts[..|drafts| - 1], drafts[|drafts| - 1];
      WriterVerifies(c, known, shorter);
      var before := WriteLog(c, shorter).value;
      var e := NextEvent(c, before.state, d).value;
      WrittenIsAccepted(c, known, before.state, d);
      WalkOne(c, known, GENESIS, before.lines, EventLine(e).value);
      StoredKeepsHashes(e);
      assert (before.events + [e])[..|before.events|] == before.events;
    }
  }

  function StoredAll(events: seq<Envelope>): seq<Envelope> {
    if events == [] then [] else StoredAll(events[..|events| - 1]) + [Stored(events[|events| - 1])]
  }

  // --- exactly which logs are accepted -----------------------------------------------------------------

  /** The line is the event's own canonical line, in this format, under the hash it carries. */
  predicate Stores(c: Codec, line: Text, e: Envelope) {
    ParseEnvelope(c, line) == Some(e) && EventLine(e) == Some(line) && e.version == FORMAT_VERSION && VerifyEvent(c, e)
  }

  /** A type the reader knows, or one its event says may be skipped. */
  predicate Readable(known: Option<set<Text>>, e: Envelope) {
    known.None? || e.kind in known.value || e.ignorable == Some(true)
  }

  /** The hash the next event must stand behind. */
  function LastHash(s: Chain, events: seq<Envelope>): Text {
    if events == [] then s.prevHash else events[|events| - 1].hash
  }

  ghost predicate ChainedAt(c: Codec, s: Chain, lines: seq<Text>, events: seq<Envelope>, i: nat)
    requires i < |lines| == |events|
  {
    && Stores(c, lines[i], events[i])
    && events[i].position == s.position + i
    && events[i].prevHash == LastHash(s, events[..i])
  }

  /** Each line stores its event; each event stands at the next position, behind the hash before it. */
  ghost predicate Chained(c: Codec, s: Chain, lines: seq<Text>, events: seq<Envelope>) {
    |events| == |lines| && forall i :: 0 <= i < |lines| ==> ChainedAt(c, s, lines, events, i)
  }

  ghost predicate AllReadable(known: Option<set<Text>>, events: seq<Envelope>) {
    forall i :: 0 <= i < |events| ==> Readable(known, events[i])
  }

  /** The line carries the chain on from a state: its position, its link, and its own soundness. */
  predicate CarriesOn(c: Codec, s: Chain, line: Text, e: Envelope) {
    Stores(c, line, e) && e.position == s.position && e.prevHash == s.prevHash
  }

  /** A line is accepted exactly when it carries the chain on with a readable event; else why not. */
  lemma JudgeIff(c: Codec, known: Option<set<Text>>, s: Chain, line: Text, e: Envelope)
    ensures Judge(c, known, s, line) == Ok(e) <==> CarriesOn(c, s, line, e) && Readable(known, e)
    ensures CarriesOn(c, s, line, e) && !Readable(known, e) ==> Judge(c, known, s, line) == Err(UnknownType(e.kind))
  {
    hide ParseEnvelope, EventLine, VerifyEvent;
  }

  lemma UnknownMeans(c: Codec, known: Option<set<Text>>, s: Chain, line: Text) returns (e: Envelope)
    requires Judge(c, known, s, line).Err? && Judge(c, known, s, line).error.UnknownType?
    ensures CarriesOn(c, s, line, e) && !Readable(known, e) && Judge(c, known, s, line).error.kind == e.kind
  {
    hide ParseEnvelope, EventLine, VerifyEvent;
    e := ParseEnvelope(c, line).value;
  }

  lemma ChainedMore(c: Codec, s: Chain, lines: seq<Text>, line: Text, events: seq<Envelope>, e: Envelope)
    requires |events| == |lines|
    ensures Chained(c, s, lines + [line], events + [e]) <==>
              && Chained(c, s, lines, events) && Stores(c, line, e)
              && e.position == s.position + |lines| && e.prevHash == LastHash(s, events)
  {
    hide Stores;
    var longer, more, n := lines + [line], events + [e], |lines|;
    assert more[..n] == events;
    forall i | 0 <= i < n ensures ChainedAt(c, s, longer, more, i) <==> ChainedAt(c, s, lines, events, i) {
      assert more[..i] == events[..i];
    }
    assert ChainedAt(c, s, longer, more, n) <==>
             Stores(c, line, e) && e.position == s.position + n && e.prevHash == LastHash(s, events);
  }

  /** The state a walk has reached, from its events. */
  lemma {:induction false} WalkedState(c: Codec, known: Option<set<Text>>, s: Chain, lines: seq<Text>)
    ensures var w := Walk(c, known, s, lines);
            && |w.events| <= |lines| && Chained(c, s, lines[..|w.events|], w.events) && AllReadable(known, w.events)
            && w.state.position == s.position + |w.events|
            && w.state.prevHash == (if w.events == [] then s.prevHash else w.events[|w.events| - 1].hash)
            && w.state.firstHash == (if s.firstHash.Some? || w.events == [] then s.firstHash else Some(w.events[0].hash))
            && (w.broken.None? <==> |w.events| == |lines|)
            && (w.broken.Some? ==> Judge(c, known, w.state, lines[|w.events|]) == Err(w.broken.value))
  {
    hide Judge, Stores, Chained, Readable;
    if lines == [] {
      assert Chained(c, s, [], []) by { NothingChained(c, s); }
    } else {
      var shorter, last := lines[..|lines| - 1], lines[|lines| - 1];
      WalkedState(c, known, s, shorter);
      var before, w := Walk(c, known, s, shorter), Walk(c, known, s, lines);
      if before.broken.None? && w.broken.None? {
        var e := w.events[|w.events| - 1];
        JudgeIff(c, known, before.state, last, e);
        ChainedMore(c, s, shorter, last, before.events, e);
        assert lines[..|w.events|] == shorter + [last] && shorter[..|before.events|] == shorter;
      } else {
        assert lines[..|before.events|] == shorter[..|before.events|];
      }
    }
  }

  lemma NothingChained(c: Codec, s: Chain)
    ensures Chained(c, s, [], [])
  {
  }

  lemma {:induction false} LinkedIsWalked(c: Codec, known: Option<set<Text>>, s: Chain, lines: seq<Text>, events: seq<Envelope>)
    requires Chained(c, s, lines, events) && AllReadable(known, events)
    ensures Walk(c, known, s, lines).broken.None? && Walk(c, known, s, lines).events == events
  {
    hide Judge, Stores, Chained, Readable;
    assert |events| == |lines| by { ChainedSize(c, s, lines, events); }
    if lines != [] {
      var n := |lines| - 1;
      assert lines == lines[..n] + [lines[n]] && events == events[..n] + [events[n]];
      ChainedMore(c, s, lines[..n], lines[n], events[..n], events[n]);
      LinkedIsWalked(c, known, s, lines[..n], events[..n]);
      WalkedState(c, known, s, lines[..n]);
      JudgeIff(c, known, Walk(c, known, s, lines[..n]).state, lines[n], events[n]);
      assert events[..n] + [events[n]] == events;
    }
  }

  lemma ChainedSize(c: Codec, s: Chain, lines: seq<Text>, events: seq<Envelope>)
    requires Chained(c, s, lines, events)
    ensures |events| == |lines|
  {
  }

  /**
   A log is accepted if and only if its lines are those of some list of readable events, each
   the canonical line of its event, at consecutive positions, linked by their hashes.
   */
  lemma AcceptedIff(c: Codec, known: Option<set<Text>>, s: Chain, lines: seq<Text>)
    ensures Walk(c, known, s, lines).broken.None?
       <==> exists events :: Chained(c, s, lines, events) && AllReadable(known, events)
    ensures forall events :: Chained(c, s, lines, events) && AllReadable(known, events) ==>
              Walk(c, known, s, lines).events == events
  {
    hide Walk, Chained, AllReadable;
    WalkedState(c, known, s, lines);
    if Walk(c, known, s, lines).broken.None? {
      assert lines[..|lines|] == lines;
    }
    forall events | Chained(c, s, lines, events) && AllReadable(known, events)
      ensures Walk(c, known, s, lines).broken.None? && Walk(c, known, s, lines).events == events
    {
      LinkedIsWalked(c, known, s, lines, events);
    }
  }

  /**
   A walk that stops serves the longest acceptable prefix. It blames an unknown type exactly
   when the next line carries the chain on but for its type, and names that type.
   */
  lemma StopsAtFirstDamage(c: Codec, known: Option<set<Text>>, s: Chain, lines: seq<Text>)
    requires Walk(c, known, s, lines).broken.Some?
    ensures var w := Walk(c, known, s, lines);
            && |w.events| < |lines| && Chained(c, s, lines[..|w.events|], w.events) && AllReadable(known, w.events)
            && (forall e :: !(CarriesOn(c, w.state, lines[|w.events|], e) && Readable(known, e)))
            && (forall kind :: w.broken == Some(UnknownType(kind))
                  <==> exists e :: CarriesOn(c, w.state, lines[|w.events|], e) && e.kind == kind)
  {
    hide Walk, Chained, AllReadable, Judge, Readable, CarriesOn;
    WalkedState(c, known, s, lines);
    var w := Walk(c, known, s, lines);
    var line := lines[|w.events|];
    forall e ensures !(CarriesOn(c, w.state, line, e) && Readable(known, e))
      ensures CarriesOn(c, w.state, line, e) ==> w.broken == Some(UnknownType(e.kind))
    {
      JudgeIff(c, known, w.state, line, e);
    }
    if w.broken.value.UnknownType? {
      var e := UnknownMeans(c, known, w.state, line);
    }
  }
}
