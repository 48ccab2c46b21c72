/**
 The read side of the journal (`src/journal/reader.ts`), from bytes to events: scan the
 frames, then walk the chain. A log the writer made, cut at any byte, serves exactly
 the events of its whole frames. The byte form of a line is a parameter; UTF-8 meets
 what is asked of it.
 */
module Readers {
  import opened Wrappers
  import opened Decimals
  import opened StrictJson
  import opened JsonRoundTrip
  import opened Canonical
  import opened Envelopes
  import opened Chains
  import Framing
  import Utf16

  /** A line as bytes and back. */
  datatype Lines = Lines(encode: Text -> Framing.Bytes, decode: Framing.Bytes -> Text)

  /** The encoding of well-formed text can be undone, and only a newline encodes to the newline byte. */
  ghost predicate Undone(u: Lines) {
    && (forall t :: WellFormedText(t) ==> u.decode(u.encode(t)) == t)
    && (forall t :: WellFormedText(t) && Framing.NEWLINE in u.encode(t) ==> 0x0A in t)
  }

  /** What the source uses: UTF-8, with U+FFFD for a surrogate that has no partner. */
  function Utf8Lines(): Lines {
    Lines(t => Utf16.Encode(t), b => Utf16.Decode(b))
  }

  /** What a canonical text is: one line, and every surrogate one of a pair. */
  predicate IsLine(t: Text) {
    WellFormedText(t) && 0x0A !in t
  }

  ghost predicate AreLines(lines: seq<Text>) {
    forall i :: 0 <= i < |lines| ==> IsLine(lines[i])
  }

  function Texts(u: Lines, lines: seq<Framing.Bytes>): seq<Text> {
    seq(|lines|, i requires 0 <= i < |lines| => u.decode(lines[i]))
  }

  function BatchTexts(u: Lines, batches: seq<Framing.Batch>): seq<seq<Text>> {
    seq(|batches|, i requires 0 <= i < |batches| => Texts(u, batches[i].lines))
  }

  /** Why a read stopped short. */
  datatype Stop = CorruptFrame(offset: nat) | Broken(reason: Break)

  datatype Served = Served(events: seq<Envelope>, torn: nat, stop: Option<Stop>)

  function From(events: seq<Envelope>, from: int): seq<Envelope> {
    if events == [] then []
    else
      var last := events[|events| - 1];
      From(events[..|events| - 1], from) + (if last.position >= from then [last] else [])
  }

  /** `events`: the verified prefix from `from` on, with what the scan said of the tail. */
  function Serve(
    z: Framing.Zstd, u: Lines, c: Codec, known: set<Text>, raw: Option<Framing.Bytes>, from: int): Served
  {
    if raw.None? then Served([], 0, None)
    else
      match Framing.ScanFrom(z, raw.value, 0)
      case Corrupt(offset) => Served([], 0, Some(CorruptFrame(offset)))
      case Scanned(batches, torn) =>
        var walked := Walk(c, Some(known), GENESIS, Flatten(BatchTexts(u, batches)));
        Served(From(walked.events, from), torn,
               if walked.broken.None? then None else Some(Broken(walked.broken.value)))
  }

  class JournalReader {
    /** Torn bytes of the latest read attempt: 0 before a scan completes. */
    var lastTornBytes: nat

    constructor ()
      ensures lastTornBytes == 0
    {
      lastTornBytes := 0;
    }

    method Events(
        z: Framing.Zstd, u: Lines, c: Codec, known: set<Text>, raw: Option<Framing.Bytes>, from: int)
      returns (events: seq<Envelope>, stop: Option<Stop>)
      modifies this
      ensures Served(events, lastTornBytes, stop) == Serve(z, u, c, known, raw, from)
    {
      lastTornBytes := 0;
      if raw.None? { return [], None; }
      var scan := Framing.ScanBatches(z, raw.value);
      match scan {
        case Corrupt(offset) => return [], Some(CorruptFrame(offset));
        case Scanned(batches, torn) =>
          lastTornBytes := torn;
          var state := new ChainState();
          var walked, broken := state.VerifyChain(c, Some(known), BatchTexts(u, batches));
          events := [];
          var i := 0;
          while i < |walked|
            invariant i <= |walked| && events == From(walked[..i], from)
          {
            assert walked[..i + 1][..i] == walked[..i];
            if walked[i].position >= from { events := events + [walked[i]]; }
            i := i + 1;
          }
          assert walked[..i] == walked;
          stop := if broken.None? then None else Some(Broken(broken.value));
      }
    }
  }

  // --- a canonical text is one line ---------------------------------------------------------------

  lemma {:induction false} DigitsAreDigits(s: Text)
    ensures Utf16.Plain(s[..Digits(s)])
  {
    if s != [] && IsDigit(s[0]) {
      DigitsAreDigits(s[1..]);
      assert forall i :: 0 < i < Digits(s) ==> s[i] == s[1..][..Digits(s[1..])][i - 1];
    }
  }

  lemma MarkedUnits(s: Text, mark: nat)
    requires mark <= |s| && Utf16.Plain(s[..mark])
    ensures Utf16.Plain(s[..Marked(s, mark)])
  {
    var digits := Digits(s[mark..]);
    DigitsAreDigits(s[mark..]);
    if digits > 0 {
      assert s[..mark + digits] == s[..mark] + s[mark..][..digits];
    }
  }

  lemma WholeUnits(s: Text)
    ensures Utf16.Plain(s[..Whole(s)])
  {
    DigitsAreDigits(s);
  }

  lemma ExponentUnits(s: Text)
    ensures Utf16.Plain(s[..ExponentLength(s)])
  {
    hide Marked;
    if Starts(s, 0x65) || Starts(s, 0x45) {
      if |s| > 1 && (s[1] == 0x2B || s[1] == MINUS) {
        MarkedUnits(s, 2);
      } else {
        MarkedUnits(s, 1);
      }
    }
  }

  /** A number is visible ASCII. */
  lemma NumberUnits(s: Text)
    ensures Utf16.Plain(s[..NumberLength(s)])
  {
    hide Digits, Marked, Utf16.Plain, Whole, ExponentLength;
    var sign := if Starts(s, MINUS) then 1 else 0;
    var whole := Whole(s[sign..]);
    var a := s[sign + whole..];
    var fraction := FractionLength(a);
    var b := s[sign + whole + fraction..];
    WholeUnits(s[sign..]);
    FractionUnits(a);
    ExponentUnits(b);
    SignUnits(s);
    PlainConcat(s[..sign], s[sign..][..whole]);
    PlainConcat(s[..sign] + s[sign..][..whole], a[..fraction]);
    PlainConcat(s[..sign] + s[sign..][..whole] + a[..fraction], b[..ExponentLength(b)]);
    if whole > 0 {
      assert s[..NumberLength(s)] == s[..sign] + s[sign..][..whole] + a[..fraction] + b[..ExponentLength(b)];
    } else {
      NothingIsPlain(s[..0]);
    }
  }

  lemma NothingIsPlain(s: Text)
    requires s == []
    ensures Utf16.Plain(s)
  {
  }

  lemma SignUnits(s: Text)
    ensures Utf16.Plain(s[..if Starts(s, MINUS) then 1 else 0])
  {
  }

  lemma FractionUnits(s: Text)
    ensures Utf16.Plain(s[..FractionLength(s)])
  {
    hide Marked;
    if Starts(s, DOT) {
      MarkedUnits(s, 1);
    }
  }

  lemma PlainConcat(a: Text, b: Text)
    requires Utf16.Plain(a) && Utf16.Plain(b)
    ensures Utf16.Plain(a + b)
  {
  }

  lemma {:induction false} StringUnits(s: Text)
    ensures 0x0A !in WriteUnits(s)
  {
    if s != [] {
      StringUnits(s[1..]);
    }
  }

  lemma StringIsLine(s: Text)
    requires WellFormedText(s)
    ensures IsLine(WriteString(s))
  {
    hide WriteUnits, WellFormedText;
    StringUnits(s);
    Utf16.WriteStringWellFormed(s);
  }

  lemma LineConcat(a: Text, b: Text)
    requires IsLine(a) && IsLine(b)
    ensures IsLine(a + b)
  {
    hide WellFormedText;
    Utf16.WellFormedConcat(a, b);
  }

  lemma PlainIsLine(s: Text)
    requires Utf16.Plain(s)
    ensures IsLine(s)
  {
    Utf16.PlainIsWellFormed(s);
  }

  /** The printer escapes every newline and keeps surrogate pairs: a canonical text is a line. */
  lemma {:induction false} WriteIsOneLine(v: Json, read: Reading)
    requires Faithful(v, read) && WellFormed(v)
    ensures IsLine(Write(v))
    decreases v
  {
    hide WriteUnits, NumberLength, WriteNumber, WriteString, WriteItems, WriteMembers, IsLine, WellFormedText;
    match v
    case Null => PlainIsLine(NULL);
    case Bool(flag) => PlainIsLine(if flag then TRUE else FALSE);
    case Number(number) =>
      NumberUnits(WriteNumber(number));
      assert WriteNumber(number)[..|WriteNumber(number)|] == WriteNumber(number);
      PlainIsLine(WriteNumber(number));
    case String(text) => StringIsLine(text);
    case Array(items) =>
      ItemsAreOneLine(items, read);
      Bracketed(OPEN_ARRAY, WriteItems(items), CLOSE_ARRAY);
    case Object(members) =>
      MembersAreOneLine(members, read);
      Bracketed(OPEN_OBJECT, WriteMembers(members), CLOSE_OBJECT);
  }

  lemma Bracketed(open: Unit, body: Text, close: Unit)
    requires IsLine(body) && Utf16.Plain([open]) && Utf16.Plain([close])
    ensures IsLine([open] + body + [close])
  {
    hide IsLine;
    PlainIsLine([open]);
    PlainIsLine([close]);
    LineConcat([open], body);
    LineConcat([open] + body, [close]);
  }

  lemma {:induction false} ItemsAreOneLine(items: seq<Json>, read: Reading)
    requires forall i :: 0 <= i < |items| ==> Faithful(items[i], read) && WellFormed(items[i])
    ensures IsLine(WriteItems(items))
    decreases items
  {
    hide Write, Faithful, IsLine, WellFormed;
    PlainIsLine([]);
    PlainIsLine([COMMA]);
    if items != [] {
      WriteIsOneLine(items[0], read);
      ItemsAreOneLine(items[1..], read);
      LineConcat(Write(items[0]), [COMMA]);
      LineConcat(Write(items[0]) + [COMMA], WriteItems(items[1..]));
    }
  }

  lemma {:induction false} MembersAreOneLine(members: seq<Member>, read: Reading)
    requires forall i :: 0 <= i < |members| ==> Faithful(members[i].value, read)
    requires forall i :: 0 <= i < |members| ==> WellFormedText(members[i].key) && WellFormed(members[i].value)
    ensures IsLine(WriteMembers(members))
    decreases members
  {
    hide Write, Faithful, WriteString, IsLine, WellFormed, WellFormedText;
    PlainIsLine([]);
    PlainIsLine([COLON]);
    PlainIsLine([COMMA]);
    if members != [] {
      var key, value := WriteString(members[0].key), Write(members[0].value);
      StringIsLine(members[0].key);
      WriteIsOneLine(members[0].value, read);
      MembersAreOneLine(members[1..], read);
      LineConcat(key, [COLON]);
      LineConcat(key + [COLON], value);
      LineConcat(key + [COLON] + value, [COMMA]);
      LineConcat(key + [COLON] + value + [COMMA], WriteMembers(members[1..]));
    }
  }

  // --- from the writer to a cut log and back ------------------------------------------------------------

  /** The line of a made event is one line. */
  lemma MadeLineIsOneLine(c: Codec, known: Option<set<Text>>, s: Chain, d: Draft)
    requires Sound(c) && Proper(d, c, known) && s.position <= MAX_SAFE_INTEGER
    requires NextEvent(c, s, d).Some? && EventLine(NextEvent(c, s, d).value).Some?
    ensures IsLine(EventLine(NextEvent(c, s, d).value).value)
  {
    hide NextEvent, EnvelopeMembers, DistinctKeys, Faithful, Read, Lawful, Stable, Document, Write, SortKeys, WellFormed,
      IsHash, HashInput, IsLine;
    var e := NextEvent(c, s, d).value;
    MadeEvent(c, s, d);
    IntegerIsRead(0, c.read);
    IntegerIsRead(s.position, c.read);
    EnvelopeIsSound(e, c.read);
    SortedIsSound(Object(EnvelopeMembers(e)), c.read);
    SortedIsWellFormed(Object(EnvelopeMembers(e)));
    WriteIsOneLine(SortKeys(Object(EnvelopeMembers(e))), c.read);
  }

  lemma {:induction false} OneLinePerDraft(c: Codec, drafts: seq<Draft>)
    requires WriteLog(c, drafts).Some?
    ensures var j := WriteLog(c, drafts).value; |j.lines| == |j.events| == |drafts|
  {
    hide NextEvent, EventLine;
    if drafts != [] {
      OneLinePerDraft(c, drafts[..|drafts| - 1]);
    }
  }

  /** A prefix of the drafts writes the prefix of the log. */
  lemma {:induction false} WriteLogPrefix(c: Codec, drafts: seq<Draft>, n: nat)
    requires WriteLog(c, drafts).Some? && n <= |drafts|
    ensures WriteLog(c, drafts[..n]).Some?
    ensures var j, whole := WriteLog(c, drafts[..n]).value, WriteLog(c, drafts).value;
            && |whole.lines| == |whole.events| == |drafts|
            && j.lines == whole.lines[..n] && j.events == whole.events[..n]
  {
    OneLinePerDraft(c, drafts);
    hide NextEvent, EventLine;
    if n == |drafts| {
      assert drafts[..n] == drafts;
    } else {
      var shorter := drafts[..|drafts| - 1];
      assert drafts[..n] == shorter[..n];
      OneLinePerDraft(c, shorter);
      WriteLogPrefix(c, shorter, n);
      var before, whole := WriteLog(c, shorter).value, WriteLog(c, drafts).value;
      assert before.lines == whole.lines[..|shorter|] && before.events == whole.events[..|shorter|];
    }
  }

  /** Every line of the log is one. */
  lemma {:induction false} LinesAreOneLine(c: Codec, known: Option<set<Text>>, drafts: seq<Draft>)
    requires Sound(c) && WriteLog(c, drafts).Some? && |drafts| <= MAX_SAFE_INTEGER
    requires forall i :: 0 <= i < |drafts| ==> Proper(drafts[i], c, known)
    ensures AreLines(WriteLog(c, drafts).value.lines)
  {
    hide Sound, Proper, NextEvent, EventLine, IsLine;
    if drafts != [] {
      var shorter, d := drafts[..|drafts| - 1], drafts[|drafts| - 1];
      var before := WriteLog(c, shorter).value;
      LinesAreOneLine(c, known, shorter);
      WriterVerifies(c, known, shorter);
      MadeLineIsOneLine(c, known, before.state, d);
      assert WriteLog(c, drafts).value.lines == before.lines + [EventLine(NextEvent(c, before.state, d).value).value];
    }
  }

  function Encoded(u: Lines, lines: seq<Text>): seq<Framing.Bytes> {
    seq(|lines|, i requires 0 <= i < |lines| => u.encode(lines[i]))
  }

  function EncodedBatches(u: Lines, batches: seq<seq<Text>>): seq<seq<Framing.Bytes>> {
    seq(|batches|, i requires 0 <= i < |batches| => Encoded(u, batches[i]))
  }

  lemma {:induction false} PlacedTexts(z: Framing.Zstd, u: Lines, batches: seq<seq<Text>>, at: nat)
    requires Undone(u) && Framing.Writable(z, EncodedBatches(u, batches))
    requires forall i :: 0 <= i < |batches| ==> AreLines(batches[i])
    ensures BatchTexts(u, Framing.Placed(z, EncodedBatches(u, batches), at)) == batches
  {
    hide Framing.Encode, Framing.ProperLines, Undone, AreLines;
    var bytes := EncodedBatches(u, batches);
    if batches != [] {
      assert bytes[1..] == EncodedBatches(u, batches[1..]);
      var size := |Framing.Encode(z, bytes[0]).value|;
      PlacedTexts(z, u, batches[1..], at + size);
      EncodedTexts(u, batches[0]);
      var placed := Framing.Placed(z, bytes, at);
      assert placed == [Framing.Batch(at, size, bytes[0])] + Framing.Placed(z, bytes[1..], at + size);
      assert BatchTexts(u, placed) == [batches[0]] + BatchTexts(u, Framing.Placed(z, bytes[1..], at + size));
    }
  }

  lemma EncodedTexts(u: Lines, lines: seq<Text>)
    requires Undone(u) && AreLines(lines)
    ensures Texts(u, Encoded(u, lines)) == lines
  {
    hide WellFormedText;
  }

  lemma {:induction false} FlattenPrefix(batches: seq<seq<Text>>, k: nat)
    requires k <= |batches|
    ensures |Flatten(batches[..k])| <= |Flatten(batches)|
    ensures Flatten(batches[..k]) == Flatten(batches)[..|Flatten(batches[..k])|]
  {
    hide Flatten;
    FlattenConcat(batches[..k], batches[k..]);
    assert batches == batches[..k] + batches[k..];
  }

  lemma {:induction false} FlattenHas(batches: seq<seq<Text>>, i: nat, line: Text)
    requires i < |batches| && line in batches[i]
    ensures line in Flatten(batches)
  {
    if i < |batches| - 1 {
      assert batches[..|batches| - 1][i] == batches[i];
      FlattenHas(batches[..|batches| - 1], i, line);
    }
  }

  /** The events from a position on, of a list whose positions count up from 0. */
  function Rest(events: seq<Envelope>, from: int): seq<Envelope> {
    if from <= 0 then events else if from >= |events| then [] else events[from..]
  }

  lemma {:induction false} FromIs(events: seq<Envelope>, from: int)
    requires forall i :: 0 <= i < |events| ==> events[i].position == i
    ensures From(events, from) == Rest(events, from)
  {
    if events != [] {
      var n := |events| - 1;
      FromIs(events[..n], from);
      if 0 < from <= n {
        assert events[from..] == events[..n][from..] + [events[n]];
      }
    }
  }

  /** The writer frames nonempty batches of its lines, each within the frame's bounds. */
  ghost predicate Framed(z: Framing.Zstd, u: Lines, j: Journal, batches: seq<seq<Text>>) {
    && Flatten(batches) == j.lines
    && forall i :: 0 <= i < |batches| ==> batches[i] != [] && Framing.Encode(z, Encoded(u, batches[i])).Some?
  }

  lemma FramedIsWritable(z: Framing.Zstd, u: Lines, j: Journal, batches: seq<seq<Text>>)
    requires Undone(u) && Framed(z, u, j, batches) && AreLines(j.lines)
    ensures Framing.Writable(z, EncodedBatches(u, batches))
  {
    hide Framing.Encode, WellFormedText;
    BatchesAreLines(batches);
    var bytes := EncodedBatches(u, batches);
    forall i | 0 <= i < |bytes| ensures Framing.ProperLines(bytes[i]) && Framing.Encode(z, bytes[i]).Some? {
      assert AreLines(batches[i]);
      forall k | 0 <= k < |bytes[i]| ensures Framing.NEWLINE !in bytes[i][k] {
        assert IsLine(batches[i][k]);
      }
    }
  }

  lemma BatchesAreLines(batches: seq<seq<Text>>)
    requires AreLines(Flatten(batches))
    ensures forall i :: 0 <= i < |batches| ==> AreLines(batches[i])
  {
    hide IsLine, Flatten;
    forall i, k | 0 <= i < |batches| && 0 <= k < |batches[i]| ensures IsLine(batches[i][k]) {
      FlattenHas(batches, i, batches[i][k]);
    }
  }

  lemma {:induction false} StoredPositions(c: Codec, drafts: seq<Draft>)
    requires WriteLog(c, drafts).Some?
    ensures var j := WriteLog(c, drafts).value;
            && j.state.position == |drafts| == |j.events| == |StoredAll(j.events)|
            && forall i :: 0 <= i < |j.events| ==> StoredAll(j.events)[i].position == i
  {
    hide Canonicalize;
    if drafts != [] {
      var shorter := drafts[..|drafts| - 1];
      StoredPositions(c, shorter);
      var before, j := WriteLog(c, shorter).value, WriteLog(c, drafts).value;
      MadeEvent(c, before.state, drafts[|drafts| - 1]);
      assert j.events[..|before.events|] == before.events;
    }
  }

  /** What a cut log should serve: the events of its whole frames from a position on, and the rest as torn. */
  ghost function CutResult(
    z: Framing.Zstd, u: Lines, events: seq<Envelope>, batches: seq<seq<Text>>, cut: nat, from: int): Served
    requires Framing.Writable(z, EncodedBatches(u, batches)) && |Flatten(batches)| <= |events|
  {
    var bytes := EncodedBatches(u, batches);
    var k := Framing.Whole(z, bytes, cut);
    FlattenPrefix(batches, k);
    Served(Rest(StoredAll(events[..|Flatten(batches[..k])|]), from), cut - Framing.WholeBytes(z, bytes, cut), None)
  }

  /**
   End to end: the log of a writer, cut at any byte and read from any position, serves exactly
   the events of the frames that lie wholly before the cut from that position on, in order,
   and reports the rest as torn.
   */
  lemma CutLogServesPrefix(
    z: Framing.Zstd, u: Lines, c: Codec, known: set<Text>, drafts: seq<Draft>, batches: seq<seq<Text>>, cut: nat,
    from: int)
    requires Framing.Lawful(z) && Undone(u) && Sound(c)
    requires WriteLog(c, drafts).Some? && |drafts| <= MAX_SAFE_INTEGER
    requires forall i :: 0 <= i < |drafts| ==> Proper(drafts[i], c, Some(known))
    requires Framed(z, u, WriteLog(c, drafts).value, batches)
    requires Framing.Writable(z, EncodedBatches(u, batches))
    requires |Flatten(batches)| <= |WriteLog(c, drafts).value.events|
    requires cut <= |Framing.Log(z, EncodedBatches(u, batches))|
    ensures Serve(z, u, c, known, Some(Framing.Log(z, EncodedBatches(u, batches))[..cut]), from)
         == CutResult(z, u, WriteLog(c, drafts).value.events, batches, cut, from)
  {
    hide Framing.Lawful, Framing.Encode, Framing.ProperLines, Framing.ScanFrom, Sound, Proper, Walk, Flatten, Undone,
      From, Rest, WriteLog, Framing.Writable, Framing.Log, Framing.Whole, Framing.WholeBytes, Framing.Placed, StoredAll;
    var j, bytes := WriteLog(c, drafts).value, EncodedBatches(u, batches);
    var k := Framing.Whole(z, bytes, cut);
    Framing.CrashTruncation(z, bytes, cut, 0);
    LinesAreOneLine(c, Some(known), drafts);
    WholeTexts(z, u, batches, k);
    FlattenPrefix(batches, k);
    var n := |Flatten(batches[..k])|;
    OneLinePerDraft(c, drafts);
    WriteLogPrefix(c, drafts, n);
    WriterVerifies(c, Some(known), drafts[..n]);
    StoredPositions(c, drafts[..n]);
    FromIs(StoredAll(j.events[..n]), from);
  }

  /**
   A damaged log serves nothing: a frame that is empty or does not decode, or a whole payload
   behind a length that overruns the file, is reported at its offset and no event is yielded.
   */
  lemma DamagedLogServesNothing(
    z: Framing.Zstd, u: Lines, c: Codec, known: set<Text>, batches: seq<seq<Framing.Bytes>>, payload: Framing.Bytes,
    n: nat, rest: Framing.Bytes, from: int)
    requires Framing.Lawful(z) && Framing.Writable(z, batches) && |payload| <= n <= Framing.MAX_U32
    requires || (n == |payload| && (payload == [] || z.decompress(payload).None?))
             || (|payload| < n && rest == [] && 2 * |Framing.ZSTD_MAGIC| <= |payload|
                 && exists lines :: Framing.ProperLines(lines) && Framing.Encode(z, lines).Some?
                                    && payload == z.compress(Framing.Join(lines)))
    ensures var log := Framing.Log(z, batches);
            Serve(z, u, c, known, Some(log + (Framing.WriteU32(n) + payload + rest)), from)
            == Served([], 0, Some(CorruptFrame(|log|)))
  {
    hide Framing.Lawful, Framing.Encode, Framing.ScanFrom, Framing.ProperLines, Framing.WriteU32, Framing.Writable,
      Framing.Log, Walk, From, Framing.Join;
    if n == |payload| {
      Framing.BadFrameIsCorrupt(z, batches, payload, rest);
    } else {
      var lines :| Framing.ProperLines(lines) && Framing.Encode(z, lines).Some?
                   && payload == z.compress(Framing.Join(lines));
      Framing.DamagedLengthIff(z, batches, lines, n, |payload|);
      assert payload[..|payload|] == payload && Framing.WriteU32(n) + payload + [] == Framing.WriteU32(n) + payload;
    }
  }

  /** The two side conditions hold of every framed log of proper drafts. */
  lemma FramedLogIsWritable(
    z: Framing.Zstd, u: Lines, c: Codec, known: set<Text>, drafts: seq<Draft>, batches: seq<seq<Text>>)
    requires Undone(u) && Sound(c) && WriteLog(c, drafts).Some? && |drafts| <= MAX_SAFE_INTEGER
    requires forall i :: 0 <= i < |drafts| ==> Proper(drafts[i], c, Some(known))
    requires Framed(z, u, WriteLog(c, drafts).value, batches)
    ensures Framing.Writable(z, EncodedBatches(u, batches))
    ensures |Flatten(batches)| == |WriteLog(c, drafts).value.events| == |drafts|
  {
    hide Sound, Proper, Flatten, Undone, WriteLog, Framing.Writable, Framing.Encode;
    OneLinePerDraft(c, drafts);
    LinesAreOneLine(c, Some(known), drafts);
    FramedIsWritable(z, u, WriteLog(c, drafts).value, batches);
  }

  lemma WholeTexts(z: Framing.Zstd, u: Lines, batches: seq<seq<Text>>, k: nat)
    requires Undone(u) && Framing.Writable(z, EncodedBatches(u, batches)) && k <= |batches|
    requires AreLines(Flatten(batches))
    ensures Framing.Writable(z, EncodedBatches(u, batches)[..k])
    ensures BatchTexts(u, Framing.Placed(z, EncodedBatches(u, batches)[..k], 0)) == batches[..k]
  {
    hide Framing.Encode, Framing.ProperLines, Framing.Placed, Undone, AreLines, Flatten;
    BatchesAreLines(batches);
    assert EncodedBatches(u, batches)[..k] == EncodedBatches(u, batches[..k]);
    PlacedTexts(z, u, batches[..k], 0);
  }

  // --- the parameters exist -------------------------------------------------------------------------------

  lemma DocumentIsFaithful(text: Text, read: Reading)
    requires Stable(read) && Document(text, read).Some?
    ensures Faithful(Document(text, read).value, read)
  {
    hide Value, Faithful, Stable;
    ValueIsFaithful(text, read);
  }

  /** UTF-8 meets what is asked of the byte form of a line. */
  lemma Utf8IsUndone()
    ensures Undone(Utf8Lines())
  {
    forall t | WellFormedText(t)
      ensures Utf8Lines().decode(Utf8Lines().encode(t)) == t
      ensures Framing.NEWLINE in Utf8Lines().encode(t) ==> 0x0A in t
    {
      Utf16.DecodeEncodeIff(t);
      if Framing.NEWLINE in Utf8Lines().encode(t) {
        Utf16.NewlineIsNewline(t);
      }
    }
  }

  /** A codec with every property asked of the parser, the number reading and the hash. */
  lemma SomeCodecIsSound()
    ensures exists c :: Sound(c)
  {
    hide Document, DistinctKeys, Faithful, Lawful, Stable;
    var c := Codec(t => Document(t, ReadDecimal), ReadDecimal, _ => GENESIS_HASH);
    ReadDecimalIsLawful();
    GenesisIsHash();
    forall t | c.parse(t).Some? ensures DistinctKeys(c.parse(t).value) && Faithful(c.parse(t).value, c.read) {
      AcceptedIsDistinct(t, ReadDecimal);
      DocumentIsFaithful(t, ReadDecimal);
    }
    assert Sound(c);
  }
}
