/**
 The journal's frames (`src/journal/framing.ts`): a four-byte little-endian length and
 one zstd frame (RFC 8878 section 3.1.1) of newline-joined lines. Lines are their UTF-8
 bytes. zstd is a parameter with three laws; a toy codec shows the laws can be met.
 */
module Framing {
  import opened Wrappers
  import Utf8

  type Byte = Utf8.Byte
  type Bytes = seq<Byte>

  const LEN_BYTES := 4
  const NEWLINE: Byte := 10
  const ZSTD_MAGIC: Bytes := [0x28, 0xB5, 0x2F, 0xFD]
  const MAX_DECOMPRESSED_BATCH_BYTES := 64 * 1024 * 1024
  const MAX_U32 := 0xFFFF_FFFF

  /** `decompress` is `None` when the bytes do not decode within the size bound. */
  datatype Zstd = Zstd(compress: Bytes -> Bytes, decompress: Bytes -> Option<Bytes>)

  ghost predicate Lawful(z: Zstd) {
    forall raw :: |raw| < MAX_DECOMPRESSED_BATCH_BYTES ==>
      && z.decompress(z.compress(raw)) == Some(raw)
      && ZSTD_MAGIC <= z.compress(raw)
      && forall n :: 0 <= n < |z.compress(raw)| ==> z.decompress(z.compress(raw)[..n]).None?
  }

  // --- lines ------------------------------------------------------------------------------------

  /** `lines.join('\n')`. */
  function Join(lines: seq<Bytes>): Bytes {
    if lines == [] then [] else if |lines| == 1 then lines[0] else lines[0] + [NEWLINE] + Join(lines[1..])
  }

  /** The length of the first line. */
  function LineLength(raw: Bytes): (n: nat)
    ensures n <= |raw| && NEWLINE !in raw[..n] && (n < |raw| ==> raw[n] == NEWLINE)
  {
    if raw == [] || raw[0] == NEWLINE then 0 else 1 + LineLength(raw[1..])
  }

  /** `raw.split('\n')`. */
  function Split(raw: Bytes): (lines: seq<Bytes>)
    ensures lines != []
    decreases |raw|
  {
    var n := LineLength(raw);
    if n == |raw| then [raw] else [raw[..n]] + Split(raw[n + 1..])
  }

  /** What the writer appends: at least one line, none holding a newline. */
  ghost predicate ProperLines(lines: seq<Bytes>) {
    lines != [] && forall i :: 0 <= i < |lines| ==> NEWLINE !in lines[i]
  }

  lemma {:induction false} LineLengthIs(line: Bytes, rest: Bytes)
    requires NEWLINE !in line && (rest == [] || rest[0] == NEWLINE)
    ensures LineLength(line + rest) == |line|
  {
    if line == [] {
      assert line + rest == rest;
    } else {
      assert line[0] in line && (line + rest)[1..] == line[1..] + rest;
      LineLengthIs(line[1..], rest);
    }
  }

  lemma {:induction false} SplitJoin(lines: seq<Bytes>)
    requires ProperLines(lines)
    ensures Split(Join(lines)) == lines
  {
    if |lines| == 1 {
      assert lines[0] + [] == lines[0];
      LineLengthIs(lines[0], []);
    } else {
      var rest := [NEWLINE] + Join(lines[1..]);
      assert Join(lines) == lines[0] + rest;
      LineLengthIs(lines[0], rest);
      assert (lines[0] + rest)[..|lines[0]|] == lines[0];
      assert (lines[0] + rest)[|lines[0]| + 1..] == Join(lines[1..]);
      SplitJoin(lines[1..]);
    }
  }

  // --- frames ----------------------------------------------------------------------------------------

  function WriteU32(n: nat): (b: Bytes)
    requires n <= MAX_U32
    ensures |b| == LEN_BYTES
  {
    [n % 256, n / 256 % 256, n / 65536 % 256, n / 16777216]
  }

  function ReadU32(s: Bytes): (n: nat)
    requires |s| >= LEN_BYTES
    ensures n <= MAX_U32
  {
    var a: int, b: int, c: int, d: int := s[0], s[1], s[2], s[3];
    a + 256 * b + 65536 * c + 16777216 * d
  }

  lemma U32RoundTrip(n: nat, rest: Bytes)
    requires n <= MAX_U32
    ensures ReadU32(WriteU32(n) + rest) == n
  {
    var a, b := n / 256, n / 65536;
    assert b == a / 256 && n / 16777216 == b / 256;
    assert n == n % 256 + 256 * a && a == a % 256 + 256 * b && b == b % 256 + 256 * (b / 256);
  }

  /** `encodeBatch`; `None` where it refuses an oversized batch. */
  function Encode(z: Zstd, lines: seq<Bytes>): Option<Bytes> {
    var raw := Join(lines);
    if |raw| >= MAX_DECOMPRESSED_BATCH_BYTES || |z.compress(raw)| > MAX_U32 then None
    else Some(WriteU32(|z.compress(raw)|) + z.compress(raw))
  }

  function Decompress(z: Zstd, compressed: Bytes): Option<seq<Bytes>> {
    if compressed == [] then None
    else
      match z.decompress(compressed)
      case None => None
      case Some(raw) => Some(Split(raw))
  }

  /** `decodeBatch` of a buffer holding one frame. */
  function Decode(z: Zstd, frame: Bytes): Option<seq<Bytes>> {
    if |frame| < LEN_BYTES || |frame| < LEN_BYTES + ReadU32(frame) then None
    else Decompress(z, frame[LEN_BYTES..LEN_BYTES + ReadU32(frame)])
  }

  /** `isTornTail` of what is left from the length prefix on. */
  predicate IsTornTail(z: Zstd, s: Bytes)
    requires |s| >= LEN_BYTES
  {
    var available := s[LEN_BYTES..];
    |available| < 2 * |ZSTD_MAGIC| || !(ZSTD_MAGIC <= available) || Decompress(z, available).None?
  }

  datatype Batch = Batch(offset: nat, size: nat, lines: seq<Bytes>)

  /** A scan serves batches and a torn tail, or names the offset of interior corruption. */
  datatype Scan = Scanned(batches: seq<Batch>, torn: nat) | Corrupt(offset: nat)

  /** `scanBatches` of what is left of the buffer, which starts at `at`. */
  function ScanFrom(z: Zstd, s: Bytes, at: nat): Scan
    decreases |s|
  {
    if |s| < LEN_BYTES then Scanned([], |s|)
    else
      var end := LEN_BYTES + ReadU32(s);
      if end == LEN_BYTES then Corrupt(at)
      else if end > |s| then
        if IsTornTail(z, s) then Scanned([], |s|) else Corrupt(at)
      else
        match Decompress(z, s[LEN_BYTES..end])
        case None => Corrupt(at)
        case Some(lines) =>
          match ScanFrom(z, s[end..], at + end)
          case Corrupt(offset) => Corrupt(offset)
          case Scanned(batches, torn) => Scanned([Batch(at, end, lines)] + batches, torn)
  }

  /** What a scan that has found `batches` already makes of the rest. */
  function Onward(batches: seq<Batch>, rest: Scan): Scan {
    match rest
    case Corrupt(offset) => Corrupt(offset)
    case Scanned(more, torn) => Scanned(batches + more, torn)
  }

  /** A complete frame is decoded, and the scan goes on behind it. */
  lemma ScanStep(z: Zstd, s: Bytes, at: nat)
    requires |s| >= LEN_BYTES && 0 < ReadU32(s) <= |s| - LEN_BYTES
    ensures var end := LEN_BYTES + ReadU32(s);
            var lines := Decompress(z, s[LEN_BYTES..end]);
            ScanFrom(z, s, at)
            == if lines.None? then Corrupt(at)
               else Onward([Batch(at, end, lines.value)], ScanFrom(z, s[end..], at + end))
  {
    hide Decompress, ReadU32;
  }

  // --- the imperative forms -----------------------------------------------------------------------------

  /** `encodeBatch`: the length and the payload are written into one fresh buffer. */
  method EncodeBatch(z: Zstd, lines: seq<Bytes>) returns (ok: bool, out: array<Byte>)
    ensures fresh(out)
    ensures Encode(z, lines) == if ok then Some(out[..]) else None
  {
    var raw := Join(lines);
    var compressed := z.compress(raw);
    if |raw| >= MAX_DECOMPRESSED_BATCH_BYTES || |compressed| > MAX_U32 {
      out := new Byte[0];
      return false, out;
    }
    out := new Byte[LEN_BYTES + |compressed|];
    var prefix := WriteU32(|compressed|);
    out[0], out[1], out[2], out[3] := prefix[0], prefix[1], prefix[2], prefix[3];
    var i := 0;
    while i < |compressed|
      invariant 0 <= i <= |compressed|
      invariant out[..LEN_BYTES] == prefix && out[LEN_BYTES..LEN_BYTES + i] == compressed[..i]
    {
      out[LEN_BYTES + i] := compressed[i];
      i := i + 1;
    }
    assert out[LEN_BYTES..] == out[LEN_BYTES..LEN_BYTES + |compressed|] == compressed;
    assert out[..] == out[..LEN_BYTES] + out[LEN_BYTES..];
    ok := true;
  }

  /** `scanBatches`. */
  method ScanBatches(z: Zstd, buf: Bytes) returns (r: Scan)
    ensures r == ScanFrom(z, buf, 0)
  {
    hide Decompress, ReadU32, IsTornTail;
    var batches: seq<Batch> := [];
    var offset := 0;
    assert buf[0..] == buf;
    OnwardNothing(ScanFrom(z, buf, 0));
    while offset + LEN_BYTES <= |buf|
      invariant offset <= |buf|
      invariant ScanFrom(z, buf, 0) == Onward(batches, ScanFrom(z, buf[offset..], offset))
    {
      var s := buf[offset..];
      var len := ReadU32(s);
      if len == 0 { return Corrupt(offset); }
      var end := offset + LEN_BYTES + len;
      if end > |buf| {
        if !IsTornTail(z, s) { return Corrupt(offset); }
        return Scanned(batches, |buf| - offset);
      }
      DecodeIs(z, s);
      var lines := Decode(z, s[..LEN_BYTES + len]);
      ScanStep(z, s, offset);
      if lines.None? { return Corrupt(offset); }
      assert s[LEN_BYTES + len..] == buf[end..];
      var batch := Batch(offset, end - offset, lines.value);
      OnwardMore(batches, batch, ScanFrom(z, buf[end..], end));
      batches := batches + [batch];
      offset := end;
    }
    r := Scanned(batches, |buf| - offset);
  }

  /** The buffer cut at the frame's end decodes to the frame's payload. */
  lemma DecodeIs(z: Zstd, s: Bytes)
    requires |s| >= LEN_BYTES && LEN_BYTES + ReadU32(s) <= |s|
    ensures Decode(z, s[..LEN_BYTES + ReadU32(s)]) == Decompress(z, s[LEN_BYTES..LEN_BYTES + ReadU32(s)])
  {
    hide Decompress;
    var frame := s[..LEN_BYTES + ReadU32(s)];
    assert frame[LEN_BYTES..LEN_BYTES + ReadU32(s)] == s[LEN_BYTES..LEN_BYTES + ReadU32(s)];
  }

  lemma OnwardNothing(rest: Scan)
    ensures Onward([], rest) == rest
  {
    if rest.Scanned? {
      assert [] + rest.batches == rest.batches;
    }
  }

  lemma OnwardMore(batches: seq<Batch>, batch: Batch, rest: Scan)
    ensures Onward(batches, Onward([batch], rest)) == Onward(batches + [batch], rest)
  {
    if rest.Scanned? {
      assert batches + ([batch] + rest.batches) == batches + [batch] + rest.batches;
    }
  }

  // --- what a cut log scans to ----------------------------------------------------------------------------

  /** The writer can encode every batch, and no line holds a newline. */
  ghost predicate Writable(z: Zstd, batches: seq<seq<Bytes>>) {
    forall i :: 0 <= i < |batches| ==> ProperLines(batches[i]) && Encode(z, batches[i]).Some?
  }

  /** The log of a list of batches. */
  ghost function Log(z: Zstd, batches: seq<seq<Bytes>>): Bytes
    requires Writable(z, batches)
  {
    if batches == [] then [] else Encode(z, batches[0]).value + Log(z, batches[1..])
  }

  /** How many frames lie wholly before the cut. */
  ghost function Whole(z: Zstd, batches: seq<seq<Bytes>>, cut: nat): (k: nat)
    requires Writable(z, batches)
    ensures k <= |batches|
  {
    if batches == [] || cut < |Encode(z, batches[0]).value| then 0
    else 1 + Whole(z, batches[1..], cut - |Encode(z, batches[0]).value|)
  }

  /** The bytes of the frames wholly before the cut. */
  ghost function WholeBytes(z: Zstd, batches: seq<seq<Bytes>>, cut: nat): (n: nat)
    requires Writable(z, batches)
    ensures n <= cut
  {
    if batches == [] || cut < |Encode(z, batches[0]).value| then 0
    else
      var size := |Encode(z, batches[0]).value|;
      size + WholeBytes(z, batches[1..], cut - size)
  }

  /** The batches as a scan reports them from offset `at` on. */
  ghost function Placed(z: Zstd, batches: seq<seq<Bytes>>, at: nat): seq<Batch>
    requires Writable(z, batches)
  {
    if batches == [] then []
    else
      var size := |Encode(z, batches[0]).value|;
      [Batch(at, size, batches[0])] + Placed(z, batches[1..], at + size)
  }

  lemma LawfulAt(z: Zstd, raw: Bytes)
    requires Lawful(z) && |raw| < MAX_DECOMPRESSED_BATCH_BYTES
    ensures z.decompress(z.compress(raw)) == Some(raw) && z.compress(raw) != []
    ensures forall n :: 0 <= n < |z.compress(raw)| ==> z.decompress(z.compress(raw)[..n]).None?
  {
  }

  /** The bytes of the lines, without the newlines between them. */
  ghost function LineBytes(lines: seq<Bytes>): nat {
    if lines == [] then 0 else |lines[0]| + LineBytes(lines[1..])
  }

  lemma {:induction false} JoinedSize(lines: seq<Bytes>)
    requires lines != []
    ensures |Join(lines)| == LineBytes(lines) + |lines| - 1
  {
    if |lines| > 1 {
      JoinedSize(lines[1..]);
    }
  }

  /**
   A batch is refused exactly when its lines with their newlines reach 64 MiB or its payload
   has no 32-bit length; any other frame decodes to its lines.
   */
  lemma FrameRoundTripIff(z: Zstd, lines: seq<Bytes>)
    requires Lawful(z) && ProperLines(lines)
    ensures Encode(z, lines).Some? <==>
              LineBytes(lines) + |lines| - 1 < 0x400_0000 && |z.compress(Join(lines))| <= 0xFFFF_FFFF
    ensures Encode(z, lines).Some? ==> Decode(z, Encode(z, lines).value) == Some(lines)
  {
    hide Lawful, Join, Split, WriteU32, ReadU32;
    JoinedSize(lines);
    if Encode(z, lines).Some? {
      var c := z.compress(Join(lines));
      LawfulAt(z, Join(lines));
      SplitJoin(lines);
      U32RoundTrip(|c|, c);
      assert (WriteU32(|c|) + c)[LEN_BYTES..LEN_BYTES + |c|] == c;
    }
  }

  lemma WritablePrefix(z: Zstd, batches: seq<seq<Bytes>>, k: nat)
    requires Writable(z, batches) && k <= |batches|
    ensures Writable(z, batches[..k])
  {
    hide Encode, ProperLines;
  }

  /** The frames wholly before the cut, and the bytes after them as torn. */
  ghost function CutScan(z: Zstd, batches: seq<seq<Bytes>>, cut: nat, at: nat): (r: Scan)
    requires Writable(z, batches)
    ensures r.Scanned?
  {
    WritablePrefix(z, batches, Whole(z, batches, cut));
    Scanned(Placed(z, batches[..Whole(z, batches, cut)], at), cut - WholeBytes(z, batches, cut))
  }

  /** The log of the frames wholly before the cut. */
  ghost function WholeLog(z: Zstd, batches: seq<seq<Bytes>>, cut: nat): Bytes
    requires Writable(z, batches)
  {
    WritablePrefix(z, batches, Whole(z, batches, cut));
    Log(z, batches[..Whole(z, batches, cut)])
  }

  lemma {:induction false} WholeBytesAreTheirLog(z: Zstd, batches: seq<seq<Bytes>>, cut: nat)
    requires Writable(z, batches)
    ensures |WholeLog(z, batches, cut)| == WholeBytes(z, batches, cut)
  {
    hide Encode, ProperLines;
    WritablePrefix(z, batches, Whole(z, batches, cut));
    if Whole(z, batches, cut) > 0 {
      WholeBytesAreTheirLog(z, batches[1..], cut - |Encode(z, batches[0]).value|);
      assert batches[..Whole(z, batches, cut)][1..] == batches[1..][..Whole(z, batches, cut) - 1];
    }
  }

  /** A frame cut anywhere before its end is torn, never corrupt. */
  lemma CutFrameIsTorn(z: Zstd, lines: seq<Bytes>, cut: nat, at: nat)
    requires Lawful(z) && Encode(z, lines).Some? && cut < |Encode(z, lines).value|
    ensures ScanFrom(z, Encode(z, lines).value[..cut], at) == Scanned([], cut)
  {
    hide Join, Split, WriteU32, ReadU32, Lawful;
    var c := z.compress(Join(lines));
    var s := Encode(z, lines).value[..cut];
    LawfulAt(z, Join(lines));
    if cut >= LEN_BYTES {
      assert s == WriteU32(|c|) + c[..cut - LEN_BYTES];
      U32RoundTrip(|c|, c[..cut - LEN_BYTES]);
      assert s[LEN_BYTES..] == c[..cut - LEN_BYTES];
      assert z.decompress(c[..cut - LEN_BYTES]).None?;
    }
  }

  /** A whole frame scans to its lines, and the scan goes on behind it. */
  lemma WholeFrameScans(z: Zstd, lines: seq<Bytes>, rest: Bytes, at: nat)
    requires Lawful(z) && ProperLines(lines) && Encode(z, lines).Some?
    ensures var frame := Encode(z, lines).value;
            ScanFrom(z, frame + rest, at)
            == Onward([Batch(at, |frame|, lines)], ScanFrom(z, rest, at + |frame|))
  {
    hide Join, Split, ProperLines, ReadU32, WriteU32, ScanFrom, Onward, Lawful;
    var c, frame := z.compress(Join(lines)), Encode(z, lines).value;
    var s := frame + rest;
    LawfulAt(z, Join(lines));
    assert s == WriteU32(|c|) + (c + rest);
    U32RoundTrip(|c|, c + rest);
    assert s[LEN_BYTES..LEN_BYTES + |c|] == c && s[|frame|..] == rest;
    ScanStep(z, s, at);
    SplitJoin(lines);
  }

  /**
   Crash truncation: whatever byte a log is cut at, the scan serves exactly the frames
   that lie wholly before the cut, in order, and reports the rest as torn.
   */
  lemma {:induction false} CrashTruncation(z: Zstd, batches: seq<seq<Bytes>>, cut: nat, at: nat)
    requires Lawful(z) && Writable(z, batches) && cut <= |Log(z, batches)|
    ensures ScanFrom(z, Log(z, batches)[..cut], at) == CutScan(z, batches, cut, at)
  {
    hide Lawful, Encode, ScanFrom, ProperLines;
    if batches == [] {
      NothingScans(z, at);
    } else {
      var frame, k := Encode(z, batches[0]).value, Whole(z, batches, cut);
      if cut < |frame| {
        assert Log(z, batches)[..cut] == frame[..cut];
        CutFrameIsTorn(z, batches[0], cut, at);
      } else {
        CrashTruncation(z, batches[1..], cut - |frame|, at + |frame|);
        assert Log(z, batches)[..cut] == frame + Log(z, batches[1..])[..cut - |frame|];
        WholeFrameScans(z, batches[0], Log(z, batches[1..])[..cut - |frame|], at);
        assert batches[..k][1..] == batches[1..][..k - 1];
      }
    }
  }

  lemma NothingScans(z: Zstd, at: nat)
    ensures ScanFrom(z, [], at) == Scanned([], 0)
  {
  }

  /** The count of whole frames is the largest whose bytes fit before the cut. */
  lemma {:induction false} WholeIsMaximal(z: Zstd, batches: seq<seq<Bytes>>, cut: nat, j: nat)
    requires Writable(z, batches) && j <= |batches|
    ensures |Log(z, batches[..j])| <= cut <==> j <= Whole(z, batches, cut)
  {
    hide Encode, ProperLines;
    if j > 0 {
      var frame := Encode(z, batches[0]).value;
      assert batches[..j][1..] == batches[1..][..j - 1];
      if cut >= |frame| {
        WholeIsMaximal(z, batches[1..], cut - |frame|, j - 1);
      }
    }
  }

  // --- what follows a written log -------------------------------------------------------------------

  /** A written log in front of anything is scanned to its batches, and the scan goes on behind it. */
  lemma {:induction false} LogThen(z: Zstd, batches: seq<seq<Bytes>>, tail: Bytes, at: nat)
    requires Lawful(z) && Writable(z, batches)
    ensures ScanFrom(z, Log(z, batches) + tail, at)
         == Onward(Placed(z, batches, at), ScanFrom(z, tail, at + |Log(z, batches)|))
  {
    hide Lawful, Encode, ScanFrom, ProperLines, Onward;
    if batches == [] {
      assert Log(z, batches) + tail == tail;
      OnwardNothing(ScanFrom(z, tail, at));
    } else {
      var frame, more := Encode(z, batches[0]).value, Log(z, batches[1..]);
      assert Log(z, batches) + tail == frame + (more + tail);
      WholeFrameScans(z, batches[0], more + tail, at);
      LogThen(z, batches[1..], tail, at + |frame|);
      OnwardAll([Batch(at, |frame|, batches[0])], Placed(z, batches[1..], at + |frame|),
                ScanFrom(z, tail, at + |frame| + |more|));
    }
  }

  lemma OnwardAll(first: seq<Batch>, more: seq<Batch>, rest: Scan)
    ensures Onward(first, Onward(more, rest)) == Onward(first + more, rest)
  {
    if rest.Scanned? {
      assert first + (more + rest.batches) == first + more + rest.batches;
    }
  }

  /** A length that overruns what is present: a whole frame behind it is corruption, a cut one a torn tail. */
  lemma OverrunScans(z: Zstd, lines: seq<Bytes>, n: nat, k: nat, at: nat)
    requires Lawful(z) && Encode(z, lines).Some? && k <= |z.compress(Join(lines))| && k < n <= MAX_U32
    ensures var c := z.compress(Join(lines));
            ScanFrom(z, WriteU32(n) + c[..k], at)
            == if k == |c| && |c| >= 2 * |ZSTD_MAGIC| then Corrupt(at) else Scanned([], LEN_BYTES + k)
  {
    hide Join, Split, WriteU32, ReadU32;
    var c := z.compress(Join(lines));
    var s := WriteU32(n) + c[..k];
    LawfulAt(z, Join(lines));
    U32RoundTrip(n, c[..k]);
    assert s[LEN_BYTES..] == c[..k];
    if k == |c| {
      assert c[..k] == c;
    }
  }

  /**
   A damaged length prefix. Behind any written log, a frame's payload under a length that
   overruns it is corruption at that very offset exactly when the payload is all there (and
   long enough to be told from chance); a payload cut short is a torn tail.
   */
  lemma DamagedLengthIff(z: Zstd, batches: seq<seq<Bytes>>, lines: seq<Bytes>, n: nat, k: nat)
    requires Lawful(z) && Writable(z, batches) && ProperLines(lines) && Encode(z, lines).Some?
    requires k <= |z.compress(Join(lines))| && k < n <= MAX_U32
    ensures var log, c := Log(z, batches), z.compress(Join(lines));
            ScanFrom(z, log + (WriteU32(n) + c[..k]), 0)
            == if k == |c| && |c| >= 2 * |ZSTD_MAGIC| then Corrupt(|log|)
               else Scanned(Placed(z, batches, 0), LEN_BYTES + k)
  {
    hide Lawful, Encode, ScanFrom, ProperLines, WriteU32, Placed;
    LogThen(z, batches, WriteU32(n) + z.compress(Join(lines))[..k], 0);
    OverrunScans(z, lines, n, k, |Log(z, batches)|);
    assert Placed(z, batches, 0) + [] == Placed(z, batches, 0);
  }

  /** A complete frame that is empty or does not decode is corruption where it begins, whatever follows. */
  lemma BadFrameIsCorrupt(z: Zstd, batches: seq<seq<Bytes>>, payload: Bytes, rest: Bytes)
    requires Lawful(z) && Writable(z, batches) && |payload| <= MAX_U32
    requires payload == [] || z.decompress(payload).None?
    ensures var log := Log(z, batches);
            ScanFrom(z, log + (WriteU32(|payload|) + payload + rest), 0) == Corrupt(|log|)
  {
    hide Lawful, Encode, ScanFrom, ProperLines, WriteU32, Placed;
    var tail, at := WriteU32(|payload|) + payload + rest, |Log(z, batches)|;
    LogThen(z, batches, tail, 0);
    BadFrameScans(z, payload, rest, at);
  }

  lemma BadFrameScans(z: Zstd, payload: Bytes, rest: Bytes, at: nat)
    requires |payload| <= MAX_U32 && (payload == [] || z.decompress(payload).None?)
    ensures ScanFrom(z, WriteU32(|payload|) + payload + rest, at) == Corrupt(at)
  {
    hide ReadU32, WriteU32;
    var s := WriteU32(|payload|) + payload + rest;
    assert s == WriteU32(|payload|) + (payload + rest);
    U32RoundTrip(|payload|, payload + rest);
    assert s[LEN_BYTES..LEN_BYTES + |payload|] == payload;
  }
}
