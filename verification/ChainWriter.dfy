/**
 The writer's half of the chain (`makeEvent` and `eventLine` in `src/journal/envelope.ts`):
 which drafts can be written at all, and what stands in the log for each.
 */
module ChainWriters {
  import opened Wrappers
  import opened StrictJson
  import opened JsonRoundTrip
  import opened Canonical
  import opened Envelopes
  import opened Chains
  import Utf16

  /** Nothing in the draft holds a lone surrogate. */
  ghost predicate Storable(d: Draft) {
    WellFormedText(d.kind) && WellFormed(d.data)
  }

  lemma KeysArePlain()
    ensures WellFormedText(DATA) && WellFormedText(HASH) && WellFormedText(IGNORABLE) && WellFormedText(PREV_HASH)
    ensures WellFormedText(SEQ) && WellFormedText(TIME) && WellFormedText(TYPE) && WellFormedText(V)
  {
    hide WellFormedText;
    Utf16.PlainIsWellFormed(DATA);
    Utf16.PlainIsWellFormed(HASH);
    Utf16.PlainIsWellFormed(IGNORABLE);
    Utf16.PlainIsWellFormed(PREV_HASH);
    Utf16.PlainIsWellFormed(SEQ);
    Utf16.PlainIsWellFormed(TIME);
    Utf16.PlainIsWellFormed(TYPE);
    Utf16.PlainIsWellFormed(V);
  }

  lemma PayloadFormIff(e: Envelope)
    ensures WellFormed(Object(PayloadMembers(e))) <==> WellFormedText(e.kind) && WellFormed(e.data)
  {
    hide WellFormedText;
    KeysArePlain();
    var members := PayloadMembers(e);
    var n := |IgnorableMember(e)|;
    assert members[0] == Member(DATA, e.data) && members[n + 3] == Member(TYPE, String(e.kind));
    assert WellFormed(String(e.kind)) <==> WellFormedText(e.kind);
    if WellFormed(Object(members)) {
      assert WellFormed(members[0].value) && WellFormed(members[n + 3].value);
    }
  }

  lemma LineFormIff(e: Envelope)
    requires IsHash(e.prevHash) && IsHash(e.hash)
    ensures WellFormed(Object(EnvelopeMembers(e))) <==> WellFormedText(e.kind) && WellFormed(e.data)
  {
    hide WellFormedText;
    KeysArePlain();
    Utf16.PlainIsWellFormed(e.prevHash);
    Utf16.PlainIsWellFormed(e.hash);
    var members := EnvelopeMembers(e);
    var n := |IgnorableMember(e)|;
    assert members[0] == Member(DATA, e.data) && members[n + 5] == Member(TYPE, String(e.kind));
    assert WellFormed(String(e.kind)) <==> WellFormedText(e.kind);
    if WellFormed(Object(members)) {
      assert WellFormed(members[0].value) && WellFormed(members[n + 5].value);
    }
  }

  /** One more event is written exactly when its draft is storable. */
  lemma AppendIff(c: Codec, j: Journal, d: Draft)
    requires Sound(c) && IsHash(j.state.prevHash)
    ensures Append(c, j, d).Some? <==> Storable(d)
    ensures Append(c, j, d).Some? ==> NextEvent(c, j.state, d).Some? && IsHash(NextEvent(c, j.state, d).value.hash)
  {
    hide IsHash, WellFormed, WellFormedText, PayloadMembers, EnvelopeMembers, Write, SortKeys;
    var unsigned := Envelope(FORMAT_VERSION, d.kind, j.state.position, d.time, j.state.prevHash, [], d.ignorable, d.data);
    PayloadFormIff(unsigned);
    if HashInput(unsigned).Some? {
      var e := NextEvent(c, j.state, d).value;
      assert e.hash == c.sha(HashInput(unsigned).value);
      LineFormIff(e);
    }
  }

  /**
   What the log holds for the draft at `i`: its own type, data, time and mark, at position `i`,
   behind the hash of the event before, hashed over that hash and its canonical payload.
   */
  ghost predicate Holds(c: Codec, j: Journal, i: nat, d: Draft)
    requires i < |j.events| == |j.lines|
  {
    var e := j.events[i];
    && e.version == Integer(0) && e.kind == d.kind && e.data == d.data && e.time == d.time && e.ignorable == d.ignorable
    && e.position == i && e.prevHash == (if i == 0 then GENESIS_HASH else j.events[i - 1].hash)
    && Canonicalize(Object(PayloadMembers(e))).Some?
    && e.hash == c.sha(e.prevHash + Canonicalize(Object(PayloadMembers(e))).value)
    && Canonicalize(Object(EnvelopeMembers(e))) == Some(j.lines[i])
  }

  /**
   A log is written if and only if no draft holds a lone surrogate. It then holds each draft in
   its place, and the state carried on is the last event's hash, the length and the first hash.
   */
  lemma {:induction false} WrittenIff(c: Codec, drafts: seq<Draft>)
    requires Sound(c)
    ensures WriteLog(c, drafts).Some? <==> forall i :: 0 <= i < |drafts| ==> Storable(drafts[i])
    ensures WriteLog(c, drafts).Some? ==>
              var j := WriteLog(c, drafts).value;
              && |j.events| == |j.lines| == |drafts| && IsHash(j.state.prevHash)
              && (forall i :: 0 <= i < |drafts| ==> Holds(c, j, i, drafts[i]))
              && j.state == if drafts == [] then Chain(GENESIS_HASH, 0, None)
                            else Chain(j.events[|drafts| - 1].hash, |drafts|, Some(j.events[0].hash))
  {
    hide Sound, Storable, Append, IsHash, Holds;
    if drafts == [] {
      GenesisIsHash();
    } else {
      var shorter, d := drafts[..|drafts| - 1], drafts[|drafts| - 1];
      WrittenIff(c, shorter);
      assert forall i :: 0 <= i < |shorter| ==> shorter[i] == drafts[i];
      if WriteLog(c, shorter).Some? {
        var j := WriteLog(c, shorter).value;
        AppendIff(c, j, d);
        if Append(c, j, d).Some? {
          Appended(c, j, d, |shorter|);
          var k := Append(c, j, d).value;
          forall i | 0 <= i < |drafts| ensures Holds(c, k, i, drafts[i]) {
            if i < |shorter| {
              assert Holds(c, j, i, shorter[i]);
              HoldsOn(c, j, k, i, drafts[i]);
            }
          }
        }
      } else {
        var i :| 0 <= i < |shorter| && !Storable(shorter[i]);
        assert !Storable(drafts[i]);
      }
    }
  }

  /** What one append adds. */
  lemma Appended(c: Codec, j: Journal, d: Draft, n: nat)
    requires Append(c, j, d).Some? && |j.events| == |j.lines| == n
    requires j.state == if n == 0 then Chain(GENESIS_HASH, 0, None)
                        else Chain(j.events[n - 1].hash, n, Some(j.events[0].hash))
    ensures var k := Append(c, j, d).value;
            && |k.events| == |k.lines| == n + 1 && k.events[..n] == j.events && k.lines[..n] == j.lines
            && Holds(c, k, n, d) && NextEvent(c, j.state, d) == Some(k.events[n])
            && k.state == Chain(k.events[n].hash, n + 1, Some(k.events[0].hash))
  {
    hide Canonicalize, PayloadMembers, EnvelopeMembers;
    MadeEvent(c, j.state, d);
    var k := Append(c, j, d).value;
    if n > 0 {
      assert k.events[n - 1] == j.events[n - 1] && k.events[0] == j.events[0];
    }
  }

  lemma HoldsOn(c: Codec, j: Journal, k: Journal, i: nat, d: Draft)
    requires i < |j.events| == |j.lines| < |k.events| == |k.lines|
    requires k.events[..|j.events|] == j.events && k.lines[..|j.lines|] == j.lines && Holds(c, j, i, d)
    ensures Holds(c, k, i, d)
  {
    hide Canonicalize, PayloadMembers, EnvelopeMembers;
    assert k.events[i] == j.events[i] && k.lines[i] == j.lines[i];
    if i > 0 {
      assert k.events[i - 1] == j.events[i - 1];
    }
  }
}
