/**
 Destructive repair (`repairIn` in `src/journal/reader.ts`): the stale head is removed,
 and its removal made durable, before the log is shortened. A disk holds what is live
 and what is durable; a crash keeps, file by file, one or the other.
 */
module Repair {
  import opened Wrappers
  import opened Framing

  datatype Files = Files(log: Option<Bytes>, head: Option<Bytes>)

  datatype Disk = Disk(live: Files, durable: Files)

  /** What a crash may leave of a disk. */
  ghost predicate Survives(d: Disk, after: Files) {
    && (after.log == d.live.log || after.log == d.durable.log)
    && (after.head == d.live.head || after.head == d.durable.head)
  }

  /** A disk with nothing unsynced. */
  function Settled(files: Files): Disk {
    Disk(files, files)
  }

  function HeadRemoved(d: Disk): Disk {
    d.(live := d.live.(head := None))
  }

  function DirectorySynced(d: Disk): Disk {
    d.(durable := d.durable.(head := d.live.head))
  }

  function LogTruncated(d: Disk, length: nat): Disk
    requires d.live.log.Some? && length <= |d.live.log.value|
  {
    d.(live := d.live.(log := Some(d.live.log.value[..length])))
  }

  function LogSynced(d: Disk): Disk {
    d.(durable := d.durable.(log := d.live.log))
  }

  /** The torn bytes a repair finds, or the offset of the corruption it refuses to touch. */
  function Finding(z: Zstd, log: Option<Bytes>): Result<nat, nat> {
    if log.None? then Ok(0)
    else
      match ScanFrom(z, log.value, 0)
      case Corrupt(offset) => Err(offset)
      case Scanned(_, torn) => Ok(torn)
  }

  lemma {:induction false} TornIsInside(z: Zstd, s: Bytes, at: nat)
    requires ScanFrom(z, s, at).Scanned?
    ensures ScanFrom(z, s, at).torn <= |s|
    decreases |s|
  {
    hide Decompress, IsTornTail;
    if |s| >= LEN_BYTES && LEN_BYTES + ReadU32(s) <= |s| {
      TornIsInside(z, s[LEN_BYTES + ReadU32(s)..], at + LEN_BYTES + ReadU32(s));
    }
  }

  function Shortened(z: Zstd, log: Bytes): (r: Bytes)
    requires ScanFrom(z, log, 0).Scanned?
    ensures |r| + ScanFrom(z, log, 0).torn == |log|
  {
    TornIsInside(z, log, 0);
    log[..|log| - ScanFrom(z, log, 0).torn]
  }

  /** Every disk a repair passes through, in order. */
  function Passed(z: Zstd, d: Disk): (r: seq<Disk>)
    ensures r != [] && r[0] == d
  {
    match Finding(z, d.live.log)
    case Err(_) => [d]
    case Ok(torn) =>
      if torn == 0 then [d]
      else
        var a := HeadRemoved(d);
        var b := DirectorySynced(a);
        var c := LogTruncated(b, |Shortened(z, d.live.log.value)|);
        [d, a, b, c, LogSynced(c)]
  }

  function Final(z: Zstd, d: Disk): Files {
    Passed(z, d)[|Passed(z, d)| - 1].live
  }

  class Journal {
    var disk: Disk
    ghost var history: seq<Disk>

    constructor (files: Files)
      ensures disk == Settled(files) && history == [disk]
    {
      disk := Settled(files);
      history := [Settled(files)];
    }

    method Apply(next: Disk)
      modifies this
      ensures disk == next && history == old(history) + [next]
    {
      disk := next;
      history := history + [next];
    }

    /** `repairIn`, under ownership of the log. */
    method RepairIn(z: Zstd) returns (r: Result<nat, nat>)
      requires history != [] && history[|history| - 1] == disk
      modifies this
      ensures r == Finding(z, old(disk).live.log)
      ensures history == old(history[..|history| - 1]) + Passed(z, old(disk))
      ensures disk == history[|history| - 1]
    {
      var files := disk.live;
      if files.log.None? { return Ok(0); }
      var scan := ScanBatches(z, files.log.value);
      match scan {
        case Corrupt(offset) => r := Err(offset);
        case Scanned(_, torn) =>
          TornIsInside(z, files.log.value, 0);
          if torn > 0 {
            Apply(HeadRemoved(disk));
            Apply(DirectorySynced(disk));
            Apply(LogTruncated(disk, |files.log.value| - torn));
            Apply(LogSynced(disk));
          }
          r := Ok(torn);
      }
    }
  }

  // --- what a repair leaves -----------------------------------------------------------------------------

  /** A repaired log serves the same batches and scans with nothing torn. */
  lemma {:induction false} ShortenedScansClean(z: Zstd, s: Bytes, at: nat)
    requires ScanFrom(z, s, at).Scanned?
    ensures var scan := ScanFrom(z, s, at);
            scan.torn <= |s| && ScanFrom(z, s[..|s| - scan.torn], at) == Scanned(scan.batches, 0)
    decreases |s|
  {
    hide Decompress, IsTornTail, ReadU32;
    TornIsInside(z, s, at);
    var scan := ScanFrom(z, s, at);
    var short := s[..|s| - scan.torn];
    if |s| >= LEN_BYTES && LEN_BYTES + ReadU32(s) <= |s| {
      var end := LEN_BYTES + ReadU32(s);
      var rest := s[end..];
      ScanStep(z, s, at);
      ShortenedScansClean(z, rest, at + end);
      assert |short| >= end;
      assert short[end..] == rest[..|rest| - scan.torn];
      assert short[LEN_BYTES..end] == s[LEN_BYTES..end];
      SameLength(s, short);
      ScanStep(z, short, at);
    } else {
      assert short == [];
      NothingScans(z, at);
    }
  }

  lemma SameLength(s: Bytes, prefix: Bytes)
    requires prefix <= s && |prefix| >= LEN_BYTES
    ensures ReadU32(prefix) == ReadU32(s)
  {
  }

  /** The final log, its batches and its scan. */
  lemma RepairKeepsBatches(z: Zstd, files: Files)
    requires files.log.Some? && ScanFrom(z, files.log.value, 0).Scanned?
    ensures var scan, after := ScanFrom(z, files.log.value, 0), Final(z, Settled(files));
            && after.log == Some(Shortened(z, files.log.value))
            && ScanFrom(z, after.log.value, 0) == Scanned(scan.batches, 0)
            && after.head == if scan.torn == 0 then files.head else None
  {
    hide ScanFrom;
    ShortenedScansClean(z, files.log.value, 0);
    if ScanFrom(z, files.log.value, 0).torn == 0 {
      assert files.log.value[..|files.log.value|] == files.log.value;
    }
  }

  /**
   Wherever a repair is cut by a crash, a head that survives stands beside the log it was
   written for: the head never outlives a shortened log.
   */
  lemma HeadNeverOutlives(z: Zstd, files: Files, i: nat, after: Files)
    requires i < |Passed(z, Settled(files))| && Survives(Passed(z, Settled(files))[i], after)
    ensures after.head != None ==> after == files
    ensures after.log == files.log || after.log == Final(z, Settled(files)).log
  {
    hide ScanFrom;
  }

  /** What a reader gets of the second log is what it got of the first: the same batches or the same corruption. */
  predicate ServesAlike(a: Scan, b: Scan) {
    if a.Corrupt? then b == a else b.Scanned? && b.batches == a.batches && b.torn <= a.torn
  }

  /**
   Whatever the log holds and wherever the repair is cut by a crash, no reader can tell it
   was there: every whole batch, or the corruption that was refused, is served as before.
   */
  lemma RepairServesAlike(z: Zstd, files: Files, i: nat, after: Files)
    requires files.log.Some? && i < |Passed(z, Settled(files))| && Survives(Passed(z, Settled(files))[i], after)
    ensures after.log.Some? && ServesAlike(ScanFrom(z, files.log.value, 0), ScanFrom(z, after.log.value, 0))
    ensures ScanFrom(z, files.log.value, 0).Corrupt? ==> after == files
  {
    hide ScanFrom, Shortened;
    HeadNeverOutlives(z, files, i, after);
    if ScanFrom(z, files.log.value, 0).Scanned? {
      RepairKeepsBatches(z, files);
    }
  }

  /** A repair run again after any crash ends where the uninterrupted one does. */
  lemma RepairIsIdempotent(z: Zstd, files: Files, i: nat, after: Files)
    requires i < |Passed(z, Settled(files))| && Survives(Passed(z, Settled(files))[i], after)
    ensures Final(z, Settled(after)) == Final(z, Settled(files))
  {
    hide ScanFrom, Shortened;
    var passed := Passed(z, Settled(files));
    if |passed| > 1 {
      RepairKeepsBatches(z, files);
      HeadNeverOutlives(z, files, i, after);
      if after.log == files.log {
        assert Final(z, Settled(after)) == Files(Some(Shortened(z, files.log.value)), None);
      } else {
        assert Passed(z, Settled(after)) == [Settled(after)];
      }
    }
  }

  /**
   A log whose next frame is whole behind a damaged length is refused at that frame, and the
   repair leaves every file as it was: a batch that can still be read is never cut away.
   */
  lemma DamagedLengthIsKept(z: Zstd, batches: seq<seq<Bytes>>, lines: seq<Bytes>, n: nat, head: Option<Bytes>)
    requires Lawful(z) && Writable(z, batches) && ProperLines(lines) && Encode(z, lines).Some?
    requires 2 * |ZSTD_MAGIC| <= |z.compress(Join(lines))| < n <= MAX_U32
    ensures var files := Files(Some(Log(z, batches) + (WriteU32(n) + z.compress(Join(lines)))), head);
            && Finding(z, files.log) == Err(|Log(z, batches)|)
            && Final(z, Settled(files)) == files
  {
    hide Lawful, Encode, ScanFrom, ProperLines, WriteU32;
    var c := z.compress(Join(lines));
    DamagedLengthIff(z, batches, lines, n, |c|);
    assert c[..|c|] == c;
  }

  lemma {:induction false} LogOfPrefix(z: Zstd, batches: seq<seq<Bytes>>, k: nat)
    requires Writable(z, batches) && k <= |batches|
    ensures Log(z, batches[..k]) <= Log(z, batches)
  {
    hide Encode, ProperLines;
    if k > 0 {
      LogOfPrefix(z, batches[1..], k - 1);
      assert batches[..k][1..] == batches[1..][..k - 1];
    }
  }

  /**
   A repair touches the disk if and only if there is a log that scans with a torn tail. The head
   is then gone and the log is its whole frames, both durably; otherwise the disk never changes.
   */
  lemma TouchedIff(z: Zstd, files: Files)
    ensures var tears := files.log.Some? && ScanFrom(z, files.log.value, 0).Scanned? && ScanFrom(z, files.log.value, 0).torn > 0;
            var passed := Passed(z, Settled(files));
            && (tears ==>
                  && ScanFrom(z, files.log.value, 0).torn <= |files.log.value|
                  && var whole := files.log.value[..|files.log.value| - ScanFrom(z, files.log.value, 0).torn];
                     passed[|passed| - 1] == Settled(Files(Some(whole), None)))
            && (!tears ==> passed == [Settled(files)])
  {
    hide ScanFrom;
    if files.log.Some? && ScanFrom(z, files.log.value, 0).Scanned? {
      TornIsInside(z, files.log.value, 0);
    }
  }

  /** What the repair of a written log, cut anywhere, leaves of it. */
  ghost predicate RepairsTo(z: Zstd, s: Bytes, head: Option<Bytes>, repaired: Bytes, batches: seq<Batch>) {
    && Final(z, Settled(Files(Some(s), head))).log == Some(repaired)
    && ScanFrom(z, repaired, 0) == Scanned(batches, 0)
  }

  /** A written log cut at any byte is repaired to exactly its whole frames, which scan with nothing torn. */
  lemma RepairedIsWholeFrames(z: Zstd, batches: seq<seq<Bytes>>, s: Bytes, head: Option<Bytes>)
    requires Lawful(z) && Writable(z, batches) && s <= Log(z, batches)
    ensures RepairsTo(z, s, head, WholeLog(z, batches, |s|), CutScan(z, batches, |s|, 0).batches)
  {
    hide Lawful, Encode, ProperLines, ScanFrom, Final;
    var cut := |s|;
    var k := Whole(z, batches, cut);
    assert s == Log(z, batches)[..cut];
    CrashTruncation(z, batches, cut, 0);
    WholeBytesAreTheirLog(z, batches, cut);
    LogOfPrefix(z, batches, k);
    RepairKeepsBatches(z, Files(Some(s), head));
    assert Shortened(z, s) == WholeLog(z, batches, cut);
  }

  // --- the laws can be met --------------------------------------------------------------------------------

  /** A toy codec: the magic, each byte behind a mark, and an end mark. */
  function Marks(raw: Bytes): Bytes {
    if raw == [] then [0] else [1, raw[0]] + Marks(raw[1..])
  }

  function Unmarks(s: Bytes): Option<Bytes>
    decreases |s|
  {
    if s == [] then None
    else if s[0] == 0 then if |s| == 1 then Some([]) else None
    else if |s| < 2 then None
    else
      match Unmarks(s[2..])
      case None => None
      case Some(rest) => Some([s[1]] + rest)
  }

  function Toy(): Zstd {
    Zstd(raw => ZSTD_MAGIC + Marks(raw), s => if ZSTD_MAGIC <= s then Unmarks(s[|ZSTD_MAGIC|..]) else None)
  }

  lemma {:induction false} UnmarksMarks(raw: Bytes, n: nat)
    requires n <= |Marks(raw)|
    ensures Unmarks(Marks(raw)[..n]) == if n == |Marks(raw)| then Some(raw) else None
  {
    var s := Marks(raw)[..n];
    if raw != [] && n >= 2 {
      assert s[2..] == Marks(raw[1..])[..n - 2];
      UnmarksMarks(raw[1..], n - 2);
      assert [raw[0]] + raw[1..] == raw;
    }
  }

  lemma ToyIsLawful()
    ensures Lawful(Toy())
  {
    var z := Toy();
    forall raw | |raw| < MAX_DECOMPRESSED_BATCH_BYTES
      ensures z.decompress(z.compress(raw)) == Some(raw) && ZSTD_MAGIC <= z.compress(raw)
      ensures forall n :: 0 <= n < |z.compress(raw)| ==> z.decompress(z.compress(raw)[..n]).None?
    {
      var c := z.compress(raw);
      assert c[|ZSTD_MAGIC|..] == Marks(raw) == Marks(raw)[..|Marks(raw)|];
      UnmarksMarks(raw, |Marks(raw)|);
      forall n | 0 <= n < |c| ensures z.decompress(c[..n]).None? {
        if n >= |ZSTD_MAGIC| {
          assert c[..n][|ZSTD_MAGIC|..] == Marks(raw)[..n - |ZSTD_MAGIC|];
          UnmarksMarks(raw, n - |ZSTD_MAGIC|);
        }
      }
    }
  }
}
