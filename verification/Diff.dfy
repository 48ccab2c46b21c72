/**
 The opening perception of the world (`presentWorld` in `src/context/diff.ts`): a walk
 from the newest commit back that keeps whole commits inside a byte budget, and a tail
 reserve that always has room to say what was left out.
 */
module Diffs {
  import opened Wrappers
  import opened Decimals
  import Utf8

  const TAIL_RESERVE: nat := 128
  const MIN_MAX_BYTES: nat := 512
  const MAX_COMMITS: nat := 4096

  const FALLBACK_NOTICE := "fallback: from " + "unreachable; full " + "history shown"
  const LIST_TRUNCATED_NOTICE := "commit-list " + "truncated; oldest " + "history omitted"
  const ATTRIBUTION_NOTICE :=
    "attribution: commit " + "author names the " + "closer; omitted own " + "commits may contain " + "peer in-flight writes"
  const READ_TIMEOUT := "world diff " + "unavailable: git " + "read timeout\n"

  datatype Commit = Commit(hash: string, author: string)

  /** A read ends with its value, at a deadline, or with a failure that is thrown. */
  datatype ParentRead = Parent(hash: Option<string>) | ParentTimeout | ParentFailed
  datatype DiffRead = Captured(text: string, cut: bool, retained: nat) | DiffTimeout | DiffFailed

  /** The world's reads: a commit's first parent, and its patch within a limit of bytes. */
  datatype World = World(parent: string -> ParentRead, diff: (string, nat) -> DiffRead)

  /** `diff` keeps its limit, in what it returns and in what it says it retained. */
  ghost predicate Honest(world: World) {
    forall hash, limit :: world.diff(hash, limit).Captured? ==>
      Utf8.Length(world.diff(hash, limit).text) <= limit && world.diff(hash, limit).retained <= limit
  }

  function Decimal(n: nat): (r: string)
    ensures |r| == DecimalWidth(n)
  {
    if n < 10 then [(n + 48) as char] else Decimal(n / 10) + [(n % 10 + 48) as char]
  }

  // --- the texts --------------------------------------------------------------------------------

  function Oldest(hash: string): string {
    if |hash| > 12 then hash[..12] else hash
  }

  function OmissionNotice(count: nat, oldest: Option<string>, older: bool): string {
    "rendering " + "truncated; " + Decimal(count) + " " + (if older then "older " else "") + "commit(s) not shown"
    + (if oldest.None? then "" else " (oldest omitted " + Oldest(oldest.value) + ")") + "\n"
  }

  function PatchNotice(bytes: nat): string {
    "patch truncated " + "after " + Decimal(bytes) + " bytes\n"
  }

  function OwnLine(c: Commit, uid: string): string {
    "commit " + c.hash + " author " + uid + " omitted: own commit\n"
  }

  function Header(c: Commit, parent: Option<string>): string {
    "commit " + c.hash + "\nauthor " + c.author + "\n"
    + (if parent.None? then "parent none" else "parent " + parent.value) + "\n"
  }

  // --- the walk -----------------------------------------------------------------------------------

  /** A kept commit with its text; `read` is whether its patch could be read. */
  datatype Block = Block(commit: Commit, text: string, own: bool, read: bool)

  /** What the walk kept, oldest first; how many older commits it dropped; what it says of a patch. */
  datatype Walked = Walked(blocks: seq<Block>, omitted: nat, patch: Option<string>, truncated: bool)

  datatype Shown = Shown(block: Option<Block>, goOn: bool, omitted: nat, patch: Option<string>, bytes: nat)

  /** One round, for the commit at index `i` with `bytes` already spent; `None` where a read throws. */
  function Round(world: World, uid: string, c: Commit, i: nat, bytes: nat, limit: nat): (r: Option<Shown>)
    ensures r.Some? ==> r.value.omitted <= i + 1
  {
    if c.author == uid then
      var line := OwnLine(c, uid);
      if bytes + Utf8.Length(line) > limit then Some(Shown(None, false, i + 1, None, bytes))
      else Some(Shown(Some(Block(c, line, true, true)), true, 0, None, bytes + Utf8.Length(line)))
    else
      match world.parent(c.hash)
      case ParentFailed => None
      case ParentTimeout => Some(Shown(None, false, i + 1, Some(READ_TIMEOUT), bytes))
      case Parent(parent) => Patched(world, c, Header(c, parent), i, bytes, limit)
  }

  /** The rest of the round, once the header is known. */
  function Patched(world: World, c: Commit, header: string, i: nat, bytes: nat, limit: nat): (r: Option<Shown>)
    ensures r.Some? ==> r.value.omitted <= i + 1
  {
    var after := bytes + Utf8.Length(header);
    if after > limit then Some(Shown(None, false, i + 1, None, bytes))
    else if after == limit then
      Some(Shown(Some(Block(c, header, false, true)), false, i, Some(PatchNotice(0)), after))
    else
      match world.diff(c.hash, limit - after)
      case DiffFailed => None
      case DiffTimeout => Some(Shown(Some(Block(c, header, false, false)), false, i, Some(READ_TIMEOUT), after))
      case Captured(text, cut, retained) =>
        Some(Shown(Some(Block(c, header + text, false, true)), !cut, if cut then i else 0,
                   if cut then Some(PatchNotice(retained)) else None, after + Utf8.Length(text)))
  }

  function ShownBlocks(shown: Shown): seq<Block> {
    if shown.block.None? then [] else [shown.block.value]
  }

  /** The walk over the oldest `n` commits, newest of them first. */
  function Walk(world: World, uid: string, commits: seq<Commit>, bytes: nat, limit: nat): (r: Option<Walked>)
    ensures r.Some? ==> r.value.omitted <= |commits|
    decreases |commits|
  {
    if commits == [] then Some(Walked([], 0, None, false))
    else
      var last := |commits| - 1;
      match Round(world, uid, commits[last], last, bytes, limit)
      case None => None
      case Some(shown) =>
        if !shown.goOn then Some(Walked(ShownBlocks(shown), shown.omitted, shown.patch, true))
        else
          match Walk(world, uid, commits[..last], shown.bytes, limit)
          case None => None
          case Some(rest) => Some(rest.(blocks := rest.blocks + ShownBlocks(shown)))
  }

  // --- the perception --------------------------------------------------------------------------------

  datatype Perception = Perception(text: string, included: seq<string>, truncated: bool)

  function Preamble(fallback: bool, listTruncated: bool, own: bool): string {
    (if fallback then FALLBACK_NOTICE + "\n" else "") + (if listTruncated then LIST_TRUNCATED_NOTICE + "\n" else "")
    + (if own then ATTRIBUTION_NOTICE + "\n" else "")
  }

  /** `budgetNotice`: the chunk, when the reserve still has room for it, and what is then used of it. */
  function BudgetNotice(used: nat, text: string): (string, nat) {
    var chunk := "\n" + text;
    if used + Utf8.Length(chunk) > TAIL_RESERVE then ("", used) else (chunk, used + Utf8.Length(chunk))
  }

  function Texts(blocks: seq<Block>): string {
    if blocks == [] then "" else Texts(blocks[..|blocks| - 1]) + blocks[|blocks| - 1].text
  }

  /** The blocks in order, with the patch notice behind the first. */
  function Body(blocks: seq<Block>, patch: string): string {
    if blocks == [] then "" else blocks[0].text + patch + Texts(blocks[1..])
  }

  function Included(blocks: seq<Block>): seq<string> {
    if blocks == [] then []
    else
      var b := blocks[|blocks| - 1];
      Included(blocks[..|blocks| - 1]) + (if !b.own && b.read then [b.commit.hash] else [])
  }

  /** The omission notice, budgeted before any other. */
  function Aggregate(commits: seq<Commit>, w: Walked): (string, nat)
    requires w.omitted > 0 ==> commits != []
  {
    if w.omitted > 0 then BudgetNotice(0, OmissionNotice(w.omitted, Some(commits[0].hash), w.blocks != []))
    else ("", 0)
  }

  function PatchChunk(used: nat, w: Walked): string {
    if w.patch.None? then "" else BudgetNotice(used, w.patch.value).0
  }

  function Compose(preamble: string, commits: seq<Commit>, w: Walked): Perception
    requires w.omitted > 0 ==> commits != []
  {
    var (aggregate, used) := Aggregate(commits, w);
    Perception(preamble + Body(w.blocks, PatchChunk(used, w)) + aggregate, Included(w.blocks), w.truncated)
  }

  /** The commits a traversal lists: git hashes, no more than the caller's bound. */
  ghost predicate Listed(commits: seq<Commit>) {
    |commits| <= MAX_COMMITS && forall i :: 0 <= i < |commits| ==> IsAscii(commits[i].hash)
  }

  /** The budget walk, newest first. */
  method WalkBack(world: World, uid: string, commits: seq<Commit>, bytes: nat, limit: nat)
    returns (r: Option<Walked>)
    ensures r == Walk(world, uid, commits, bytes, limit)
  {
    hide Round, ShownBlocks;
    var kept: seq<Block> := [];
    var keptBytes := bytes;
    ghost var whole := Walk(world, uid, commits, bytes, limit);
    var i := |commits|;
    assert commits[..i] == commits;
    OnwardNothing(whole);
    while i > 0
      invariant i <= |commits|
      invariant whole == Onward(Walk(world, uid, commits[..i], keptBytes, limit), kept)
    {
      i := i - 1;
      assert commits[..i + 1][..i] == commits[..i];
      var shown := Round(world, uid, commits[i], i, keptBytes, limit);
      if shown.None? { return None; }
      keptBytes := shown.value.bytes;
      if !shown.value.goOn {
        return Some(Walked(ShownBlocks(shown.value) + kept, shown.value.omitted, shown.value.patch, true));
      }
      OnwardMore(Walk(world, uid, commits[..i], keptBytes, limit), ShownBlocks(shown.value), kept);
      kept := ShownBlocks(shown.value) + kept;
    }
    assert commits[..0] == [] && [] + kept == kept;
    r := Some(Walked(kept, 0, None, false));
  }

  /** The rest of `presentWorld` once the commits are listed; `None` where a read throws. */
  method PresentWorld(
      world: World, uid: string, commits: seq<Commit>, fallback: bool, listTruncated: bool, maxBytes: nat)
    returns (r: Option<Perception>)
    requires maxBytes >= MIN_MAX_BYTES
    ensures r == Presented(world, uid, commits, fallback, listTruncated, maxBytes)
  {
    hide Walk, Compose, Preamble;
    var preamble := Preamble(fallback, listTruncated, HasOwn(commits, uid));
    var limit := maxBytes - TAIL_RESERVE;
    // A preamble over the budget would say only what was omitted; none is.
    PreambleFits(fallback, listTruncated, HasOwn(commits, uid));
    assert Utf8.Length(preamble) <= limit;
    var walked := WalkBack(world, uid, commits, Utf8.Length(preamble), limit);
    r := if walked.None? then None else Some(Compose(preamble, commits, walked.value));
  }

  predicate HasOwn(commits: seq<Commit>, uid: string) {
    exists i :: 0 <= i < |commits| && commits[i].author == uid
  }

  function Presented(
    world: World, uid: string, commits: seq<Commit>, fallback: bool, listTruncated: bool, maxBytes: nat)
    : Option<Perception>
    requires maxBytes >= MIN_MAX_BYTES
  {
    var preamble := Preamble(fallback, listTruncated, HasOwn(commits, uid));
    match Walk(world, uid, commits, Utf8.Length(preamble), maxBytes - TAIL_RESERVE)
    case None => None
    case Some(w) => Some(Compose(preamble, commits, w))
  }

  /** What a walk that has kept `kept` already makes of the rest. */
  function Onward(rest: Option<Walked>, kept: seq<Block>): Option<Walked> {
    match rest case None => None case Some(w) => Some(w.(blocks := w.blocks + kept))
  }

  lemma OnwardNothing(rest: Option<Walked>)
    ensures Onward(rest, []) == rest
  {
    if rest.Some? {
      assert rest.value.blocks + [] == rest.value.blocks;
    }
  }

  lemma OnwardMore(rest: Option<Walked>, shown: seq<Block>, kept: seq<Block>)
    ensures Onward(Onward(rest, shown), kept) == Onward(rest, shown + kept)
  {
    if rest.Some? {
      assert rest.value.blocks + shown + kept == rest.value.blocks + (shown + kept);
    }
  }

  // --- lengths --------------------------------------------------------------------------------------

  predicate IsAscii(s: string) {
    forall i :: 0 <= i < |s| ==> s[i] as int < 0x80
  }

  lemma {:induction false} DecimalIsAscii(n: nat)
    ensures IsAscii(Decimal(n)) && Decimal(n) != ""
  {
    if n >= 10 {
      DecimalIsAscii(n / 10);
    }
  }

  lemma ConcatLength(a: string, b: string)
    requires IsAscii(a) && IsAscii(b)
    ensures IsAscii(a + b) && Utf8.Length(a + b) == |a| + |b|
  {
    Utf8.LengthAscii(a + b);
  }

  lemma AsciiConcat(a: string, b: string)
    requires IsAscii(a) && IsAscii(b)
    ensures IsAscii(a + b)
  {
  }

  lemma FallbackIsAscii()
    ensures IsAscii(FALLBACK_NOTICE) && |FALLBACK_NOTICE| == 46
  {
    AsciiConcat("fallback: from ", "unreachable; full ");
    AsciiConcat("fallback: from " + "unreachable; full ", "history shown");
  }

  lemma ListTruncatedIsAscii()
    ensures IsAscii(LIST_TRUNCATED_NOTICE) && |LIST_TRUNCATED_NOTICE| == 45
  {
    AsciiConcat("commit-list ", "truncated; oldest ");
    AsciiConcat("commit-list " + "truncated; oldest ", "history omitted");
  }

  lemma AttributionIsAscii()
    ensures IsAscii(ATTRIBUTION_NOTICE) && |ATTRIBUTION_NOTICE| == 98
  {
    hide IsAscii;
    var a, b, c := "attribution: commit ", "author names the ", "closer; omitted own ";
    var d, e := "commits may contain ", "peer in-flight writes";
    ShortIsAscii();
    AsciiConcat(a, b);
    AsciiConcat(a + b, c);
    AsciiConcat(a + b + c, d);
    AsciiConcat(a + b + c + d, e);
  }

  lemma ShortIsAscii()
    ensures IsAscii("attribution: commit ") && IsAscii("author names the ") && IsAscii("closer; omitted own ")
    ensures IsAscii("commits may contain ") && IsAscii("peer in-flight writes")
  {
  }

  lemma TimeoutIsAscii()
    ensures IsAscii(READ_TIMEOUT) && |READ_TIMEOUT| == 41
  {
    AsciiConcat("world diff ", "unavailable: git ");
    AsciiConcat("world diff " + "unavailable: git ", "read timeout\n");
  }

  /** The largest preamble fits the smallest working budget, so its fallback branch is never taken. */
  lemma PreambleFits(fallback: bool, listTruncated: bool, own: bool)
    ensures Utf8.Length(Preamble(fallback, listTruncated, own)) <= 192 <= MIN_MAX_BYTES - TAIL_RESERVE
  {
    FallbackIsAscii();
    ListTruncatedIsAscii();
    AttributionIsAscii();
    assert IsAscii("\n") && IsAscii("");
    Utf8.LengthAscii(Preamble(fallback, listTruncated, own));
  }

  // --- what the walk keeps ---------------------------------------------------------------------------

  lemma {:induction false} TextsConcat(a: seq<Block>, b: seq<Block>)
    ensures Texts(a + b) == Texts(a) + Texts(b)
  {
    if b == [] {
      assert a + b == a;
    } else {
      assert (a + b)[..|a + b| - 1] == a + b[..|b| - 1];
      TextsConcat(a, b[..|b| - 1]);
    }
  }

  lemma TextsOfOne(b: Block)
    ensures Texts([b]) == b.text
  {
    assert [b][..0] == [];
  }

  /** A round spends what it shows, and never over the limit. */
  lemma RoundFits(world: World, uid: string, c: Commit, i: nat, bytes: nat, limit: nat)
    requires Honest(world) && bytes <= limit && Round(world, uid, c, i, bytes, limit).Some?
    ensures var shown := Round(world, uid, c, i, bytes, limit).value;
            && shown.bytes <= limit
            && shown.bytes == bytes + (if shown.block.Some? then Utf8.Length(shown.block.value.text) else 0)
  {
    hide OwnLine, Header, PatchNotice;
    if c.author != uid && world.parent(c.hash).Parent? {
      var header := Header(c, world.parent(c.hash).hash);
      var after := bytes + Utf8.Length(header);
      if after < limit {
        var read := world.diff(c.hash, limit - after);
        if read.Captured? {
          Utf8.LengthConcat(header, read.text);
        }
      }
    }
  }

  lemma {:induction false} WalkFits(world: World, uid: string, commits: seq<Commit>, bytes: nat, limit: nat)
    requires Honest(world) && bytes <= limit && Walk(world, uid, commits, bytes, limit).Some?
    ensures bytes + Utf8.Length(Texts(Walk(world, uid, commits, bytes, limit).value.blocks)) <= limit
    decreases |commits|
  {
    hide Round, Honest;
    if commits != [] {
      var last := |commits| - 1;
      RoundFits(world, uid, commits[last], last, bytes, limit);
      var shown := Round(world, uid, commits[last], last, bytes, limit).value;
      if shown.block.Some? {
        TextsOfOne(shown.block.value);
      }
      if shown.goOn {
        WalkFits(world, uid, commits[..last], shown.bytes, limit);
        var rest := Walk(world, uid, commits[..last], shown.bytes, limit).value;
        TextsConcat(rest.blocks, ShownBlocks(shown));
        Utf8.LengthConcat(Texts(rest.blocks), Texts(ShownBlocks(shown)));
      }
    }
  }

  /** A block is its commit's own text: it opens with the commit's hash. */
  predicate Opens(b: Block, c: Commit, uid: string) {
    b.commit == c && "commit " + c.hash <= b.text && (b.own <==> c.author == uid)
  }

  /** A notice on a patch: it could not be read, or it was cut after no more bytes than there was room for. */
  ghost predicate SaysPatch(notice: string, limit: nat) {
    notice == READ_TIMEOUT || exists n :: 0 <= n <= limit && notice == PatchNotice(n)
  }

  /** A stopped round accounts for its commit: it is shown and the older are dropped, or it is dropped too. */
  ghost predicate Accounts(shown: Shown, uid: string, c: Commit, i: nat, limit: nat) {
    && (shown.goOn ==> shown.block.Some? && shown.omitted == 0 && shown.patch.None?)
    && (!shown.goOn ==> shown.omitted == if shown.block.Some? then i else i + 1)
    && (shown.block.Some? ==> Opens(shown.block.value, c, uid))
    && (shown.patch.Some? ==> SaysPatch(shown.patch.value, limit))
  }

  lemma PatchedCounts(world: World, uid: string, c: Commit, parent: Option<string>, i: nat, bytes: nat, limit: nat)
    requires Honest(world) && c.author != uid && Patched(world, c, Header(c, parent), i, bytes, limit).Some?
    ensures Accounts(Patched(world, c, Header(c, parent), i, bytes, limit).value, uid, c, i, limit)
  {
    hide PatchNotice;
    var tail := "\nauthor " + c.author + "\n"
                + (if parent.None? then "parent none" else "parent " + parent.value) + "\n";
    assert Header(c, parent) == "commit " + c.hash + tail;
    var after := bytes + Utf8.Length(Header(c, parent));
    if after < limit && world.diff(c.hash, limit - after).Captured? {
      var text := world.diff(c.hash, limit - after).text;
      assert Header(c, parent) + text == "commit " + c.hash + (tail + text);
    }
  }

  lemma RoundCounts(world: World, uid: string, c: Commit, i: nat, bytes: nat, limit: nat)
    requires Honest(world) && Round(world, uid, c, i, bytes, limit).Some?
    ensures Accounts(Round(world, uid, c, i, bytes, limit).value, uid, c, i, limit)
  {
    hide PatchNotice, Patched, Header, Honest;
    if c.author == uid {
      OpensWith(OwnLine(c, uid), c, " author " + uid + " omitted: own commit\n");
    } else if world.parent(c.hash).Parent? {
      PatchedCounts(world, uid, c, world.parent(c.hash).hash, i, bytes, limit);
    }
  }

  lemma OpensWith(text: string, c: Commit, tail: string)
    requires text == "commit " + c.hash + tail
    ensures "commit " + c.hash <= text
  {
  }

  /**
   The kept commits are a contiguous newest suffix, in order and each with its own text;
   omitted and kept add up to the commits; nothing is omitted silently.
   */
  lemma {:induction false} WalkIsSuffix(world: World, uid: string, commits: seq<Commit>, bytes: nat, limit: nat)
    requires Honest(world) && Walk(world, uid, commits, bytes, limit).Some?
    ensures var w := Walk(world, uid, commits, bytes, limit).value;
            && w.omitted + |w.blocks| == |commits|
            && (forall j :: 0 <= j < |w.blocks| ==> Opens(w.blocks[j], commits[w.omitted + j], uid))
            && (w.omitted > 0 || w.patch.Some? ==> w.truncated)
            && (w.patch.Some? ==> SaysPatch(w.patch.value, limit))
    decreases |commits|
  {
    hide Round, Opens, SaysPatch, Honest;
    if commits != [] {
      var last := |commits| - 1;
      RoundCounts(world, uid, commits[last], last, bytes, limit);
      var shown := Round(world, uid, commits[last], last, bytes, limit).value;
      if shown.goOn {
        WalkIsSuffix(world, uid, commits[..last], shown.bytes, limit);
        var rest := Walk(world, uid, commits[..last], shown.bytes, limit).value;
        var w := Walk(world, uid, commits, bytes, limit).value;
        forall j | 0 <= j < |w.blocks| ensures Opens(w.blocks[j], commits[w.omitted + j], uid) {
          if j < |rest.blocks| {
            assert w.blocks[j] == rest.blocks[j];
          }
        }
      }
    }
  }

  // --- the tail reserve ----------------------------------------------------------------------------------

  lemma OmissionHead(count: nat)
    requires count <= MAX_COMMITS
    ensures var s := "rendering " + "truncated; " + Decimal(count) + " "; IsAscii(s) && |s| <= 26
  {
    hide Decimal;
    DecimalIsAscii(count);
    assert Power(1) == 10 && Power(2) == 100 && Power(3) == 1000 && Power(4) == 10000;
    DecimalLength(count, 4);
    assert IsAscii("rendering ") && IsAscii("truncated; ") && IsAscii(" ");
    AsciiConcat("rendering ", "truncated; ");
    AsciiConcat("rendering " + "truncated; ", Decimal(count));
    AsciiConcat("rendering " + "truncated; " + Decimal(count), " ");
  }

  lemma OmissionTail(hash: string)
    requires IsAscii(hash)
    ensures var s := " (oldest omitted " + Oldest(hash) + ")"; IsAscii(s) && |s| <= 30
  {
    assert IsAscii(" (oldest omitted ") && IsAscii(")") && IsAscii(Oldest(hash));
    AsciiConcat(" (oldest omitted ", Oldest(hash));
    AsciiConcat(" (oldest omitted " + Oldest(hash), ")");
  }

  lemma OmissionWords()
    ensures IsAscii("older ") && IsAscii("") && IsAscii("commit(s) not shown") && IsAscii("\n")
  {
  }

  /** The aggregate notice is never larger than 83 bytes, so it always fits its reserve. */
  lemma OmissionFits(count: nat, hash: string, older: bool)
    requires count <= MAX_COMMITS && IsAscii(hash)
    ensures Utf8.Length("\n" + OmissionNotice(count, Some(hash), older)) <= 83
  {
    hide Decimal, IsAscii, Oldest;
    OmissionHead(count);
    OmissionTail(hash);
    OmissionWords();
    var head := "rendering " + "truncated; " + Decimal(count) + " ";
    var middle := if older then "older " else "";
    var tail := " (oldest omitted " + Oldest(hash) + ")";
    AsciiConcat(head, middle);
    AsciiConcat(head + middle, "commit(s) not shown");
    AsciiConcat(head + middle + "commit(s) not shown", tail);
    AsciiConcat(head + middle + "commit(s) not shown" + tail, "\n");
    ConcatLength("\n", OmissionNotice(count, Some(hash), older));
  }

  lemma PatchFits(n: nat)
    requires n <= 1024 * 1024
    ensures Utf8.Length("\n" + PatchNotice(n)) <= 37
  {
    hide Decimal;
    DecimalIsAscii(n);
    assert Power(1) == 10 && Power(2) == 100 && Power(3) == 1000 && Power(4) == 10000;
    assert Power(5) == 100000 && Power(6) == 1000000 && Power(7) == 10000000;
    DecimalLength(n, 7);
    assert IsAscii("patch truncated ") && IsAscii("after ") && IsAscii(" bytes\n") && IsAscii("\n");
    AsciiConcat("patch truncated ", "after ");
    AsciiConcat("patch truncated " + "after ", Decimal(n));
    AsciiConcat("patch truncated " + "after " + Decimal(n), " bytes\n");
    AsciiConcat("\n", PatchNotice(n));
    Utf8.LengthAscii("\n" + PatchNotice(n));
  }

  /** What was omitted is always said, whatever else the reserve holds. */
  lemma AggregateIsSaid(commits: seq<Commit>, w: Walked)
    requires w.omitted > 0 && w.omitted <= |commits| && Listed(commits)
    ensures Aggregate(commits, w).0 == "\n" + OmissionNotice(w.omitted, Some(commits[0].hash), w.blocks != [])
    ensures Aggregate(commits, w).1 <= 83
  {
    hide OmissionNotice;
    OmissionFits(w.omitted, commits[0].hash, w.blocks != []);
  }

  /** The notices together never exceed the reserve. */
  lemma NoticesFit(commits: seq<Commit>, w: Walked)
    requires w.omitted <= |commits|
    ensures var (aggregate, used) := Aggregate(commits, w);
            Utf8.Length(PatchChunk(used, w)) + Utf8.Length(aggregate) <= TAIL_RESERVE
  {
    hide OmissionNotice, PatchNotice;
    assert Utf8.Length("") == 0;
  }

  lemma {:induction false} TextsCons(blocks: seq<Block>)
    requires blocks != []
    ensures Texts(blocks) == blocks[0].text + Texts(blocks[1..])
  {
    TextsConcat([blocks[0]], blocks[1..]);
    TextsOfOne(blocks[0]);
    assert [blocks[0]] + blocks[1..] == blocks;
  }

  lemma BodyLength(blocks: seq<Block>, patch: string)
    ensures Utf8.Length(Body(blocks, patch)) == Utf8.Length(Texts(blocks)) + (if blocks == [] then 0 else Utf8.Length(patch))
  {
    if blocks != [] {
      TextsCons(blocks);
      Utf8.LengthConcat(blocks[0].text + patch, Texts(blocks[1..]));
      Utf8.LengthConcat(blocks[0].text, patch);
      Utf8.LengthConcat(blocks[0].text, Texts(blocks[1..]));
    }
  }

  // --- the perception -------------------------------------------------------------------------------------

  /** The rendered text is at most the budget, for every budget the source accepts. */
  lemma TextFits(
    world: World, uid: string, commits: seq<Commit>, fallback: bool, listTruncated: bool, maxBytes: nat)
    requires maxBytes >= MIN_MAX_BYTES && Honest(world)
    requires Presented(world, uid, commits, fallback, listTruncated, maxBytes).Some?
    ensures Utf8.Length(Presented(world, uid, commits, fallback, listTruncated, maxBytes).value.text) <= maxBytes
  {
    hide Walk, Preamble, Body, Aggregate, PatchChunk, Honest;
    var preamble := Preamble(fallback, listTruncated, HasOwn(commits, uid));
    var limit := maxBytes - TAIL_RESERVE;
    PreambleFits(fallback, listTruncated, HasOwn(commits, uid));
    var w := Walk(world, uid, commits, Utf8.Length(preamble), limit).value;
    WalkFits(world, uid, commits, Utf8.Length(preamble), limit);
    var (aggregate, used) := Aggregate(commits, w);
    var patch := PatchChunk(used, w);
    NoticesFit(commits, w);
    BodyLength(w.blocks, patch);
    Utf8.LengthConcat(preamble + Body(w.blocks, patch), aggregate);
    Utf8.LengthConcat(preamble, Body(w.blocks, patch));
  }

  /** Whenever anything was omitted, the text ends with the statement of how much and from where. */
  lemma OmissionIsSaid(
    world: World, uid: string, commits: seq<Commit>, fallback: bool, listTruncated: bool, maxBytes: nat)
    requires maxBytes >= MIN_MAX_BYTES && Listed(commits) && Honest(world)
    requires Presented(world, uid, commits, fallback, listTruncated, maxBytes).Some?
    ensures var preamble := Preamble(fallback, listTruncated, HasOwn(commits, uid));
            var w := Walk(world, uid, commits, Utf8.Length(preamble), maxBytes - TAIL_RESERVE).value;
            var p := Presented(world, uid, commits, fallback, listTruncated, maxBytes).value;
            && w.omitted + |w.blocks| == |commits|
            && (w.omitted > 0 ==>
                  && p.truncated
                  && var said := "\n" + OmissionNotice(w.omitted, Some(commits[0].hash), w.blocks != []);
                     |said| <= |p.text| && p.text[|p.text| - |said|..] == said)
  {
    hide Walk, Preamble, Body, PatchChunk, OmissionNotice, Aggregate, Opens, SaysPatch, Honest;
    var preamble := Preamble(fallback, listTruncated, HasOwn(commits, uid));
    var limit := maxBytes - TAIL_RESERVE;
    var w := Walk(world, uid, commits, Utf8.Length(preamble), limit).value;
    WalkIsSuffix(world, uid, commits, Utf8.Length(preamble), limit);
    if w.omitted > 0 {
      AggregateIsSaid(commits, w);
      var (aggregate, used) := Aggregate(commits, w);
      var before := preamble + Body(w.blocks, PatchChunk(used, w));
      assert (before + aggregate)[|before|..] == aggregate;
    }
  }

  lemma PatchChunkFits(commits: seq<Commit>, w: Walked, limit: nat)
    requires Listed(commits) && w.omitted <= |commits| && w.patch.Some?
    requires limit <= 1024 * 1024 && SaysPatch(w.patch.value, limit)
    ensures PatchChunk(Aggregate(commits, w).1, w) == "\n" + w.patch.value
  {
    hide OmissionNotice, PatchNotice, Aggregate, Listed;
    assert Aggregate(commits, w).1 <= 83 by { ReserveLeft(commits, w); }
    if w.patch.value == READ_TIMEOUT {
      TimeoutIsAscii();
      Utf8.LengthAscii("\n" + READ_TIMEOUT);
    } else {
      var n :| 0 <= n <= limit && w.patch.value == PatchNotice(n);
      PatchFits(n);
    }
  }

  /** The newest commit is another's, and the read of its parent times out. */
  predicate NewestTimedOut(world: World, uid: string, commits: seq<Commit>) {
    && commits != []
    && commits[|commits| - 1].author != uid
    && world.parent(commits[|commits| - 1].hash).ParentTimeout?
  }

  /** A walk has something to say of a patch and no block to say it behind exactly then. */
  lemma NothingKeptIff(world: World, uid: string, commits: seq<Commit>, bytes: nat, limit: nat)
    requires Walk(world, uid, commits, bytes, limit).Some?
    ensures var w := Walk(world, uid, commits, bytes, limit).value;
            && (w.patch.Some? && w.blocks == [] <==> NewestTimedOut(world, uid, commits))
            && (NewestTimedOut(world, uid, commits) ==> w.omitted == |commits|)
  {
    hide Header, OwnLine;
  }

  /**
   Up to 1 MiB the notice on a cut or unread patch follows the first block, unless the
   newest commit's parent read is the one that timed out: then nothing is kept, and the
   text says only how many commits it does not show.
   */
  lemma PatchIsSaid(
    world: World, uid: string, commits: seq<Commit>, fallback: bool, listTruncated: bool, maxBytes: nat)
    requires MIN_MAX_BYTES <= maxBytes <= 1024 * 1024 && Listed(commits) && Honest(world)
    requires Presented(world, uid, commits, fallback, listTruncated, maxBytes).Some?
    ensures var preamble := Preamble(fallback, listTruncated, HasOwn(commits, uid));
            var w := Walk(world, uid, commits, Utf8.Length(preamble), maxBytes - TAIL_RESERVE).value;
            var text := Presented(world, uid, commits, fallback, listTruncated, maxBytes).value.text;
            && (NewestTimedOut(world, uid, commits) ==> w.patch.Some?)
            && (w.patch.Some? ==>
                  if NewestTimedOut(world, uid, commits) then
                    text == preamble + "\n" + OmissionNotice(|commits|, Some(commits[0].hash), false)
                  else
                    w.blocks != [] && preamble + w.blocks[0].text + "\n" + w.patch.value <= text)
  {
    hide Walk, Preamble, PatchChunk, OmissionNotice, Aggregate, Opens, SaysPatch, Honest, Texts, Listed, NewestTimedOut;
    var preamble := Preamble(fallback, listTruncated, HasOwn(commits, uid));
    var limit := maxBytes - TAIL_RESERVE;
    var w := Walk(world, uid, commits, Utf8.Length(preamble), limit).value;
    WalkIsSuffix(world, uid, commits, Utf8.Length(preamble), limit);
    NothingKeptIff(world, uid, commits, Utf8.Length(preamble), limit);
    if w.patch.Some? && w.blocks != [] {
      PatchChunkFits(commits, w, limit);
      var (aggregate, used) := Aggregate(commits, w);
      var chunk := "\n" + w.patch.value;
      assert preamble + Body(w.blocks, chunk) + aggregate
          == preamble + w.blocks[0].text + "\n" + w.patch.value + (Texts(w.blocks[1..]) + aggregate);
    } else if w.patch.Some? {
      TimedOutNewest(world, uid, commits);
      AggregateIsSaid(commits, w);
      var notice := OmissionNotice(|commits|, Some(commits[0].hash), false);
      assert preamble + "" + ("\n" + notice) == preamble + "\n" + notice;
    }
  }

  lemma TimedOutNewest(world: World, uid: string, commits: seq<Commit>)
    requires NewestTimedOut(world, uid, commits)
    ensures commits != []
  {
  }

  /** One commit of another node whose parent read times out: the text does not say that a read did. */
  lemma SomeTimeoutIsUnsaid(maxBytes: nat)
    requires MIN_MAX_BYTES <= maxBytes <= 1024 * 1024
    ensures var world := World(_ => ParentTimeout, (_, _) => DiffTimeout);
            var p := Presented(world, "node-1", [Commit("abc", "node-2")], false, false, maxBytes);
            && p.Some? && p.value.truncated && p.value.included == []
            && p.value.text == "\n" + OmissionNotice(1, Some("abc"), false)
  {
    hide OmissionNotice;
    var world := World(_ => ParentTimeout, (_, _) => DiffTimeout);
    var commits := [Commit("abc", "node-2")];
    assert Preamble(false, false, HasOwn(commits, "node-1")) == "";
    PatchIsSaid(world, "node-1", commits, false, false, maxBytes);
  }

  lemma ReserveLeft(commits: seq<Commit>, w: Walked)
    requires Listed(commits) && w.omitted <= |commits|
    ensures Aggregate(commits, w).1 <= 83
  {
    hide OmissionNotice;
    if w.omitted > 0 {
      AggregateIsSaid(commits, w);
    }
  }

  // --- what is kept, what stops the walk, what is reported --------------------------------------------

  /** A kept commit, given the room that was left for it: its one line, or its header and what was read of its patch. */
  ghost predicate Keeps(world: World, uid: string, c: Commit, room: int, b: Block) {
    && b.commit == c && b.own == (c.author == uid)
    && if b.own then b.text == OwnLine(c, uid) && b.read && Utf8.Length(b.text) <= room
       else
         && world.parent(c.hash).Parent?
         && var header := Header(c, world.parent(c.hash).hash);
            var behind := room - Utf8.Length(header);
            && behind >= 0
            && if behind == 0 then b.text == header && b.read
               else
                 match world.diff(c.hash, behind)
                 case DiffFailed => false
                 case DiffTimeout => b.text == header && !b.read
                 case Captured(text, _, _) => b.text == header + text && b.read
  }

  /** A kept commit behind which nothing older is: no room for its patch, no reading of it, or not all of it. */
  ghost function Ending(world: World, uid: string, c: Commit, room: int): Option<string> {
    if c.author == uid || !world.parent(c.hash).Parent? then None
    else
      var behind := room - Utf8.Length(Header(c, world.parent(c.hash).hash));
      if behind < 0 then None
      else if behind == 0 then Some(PatchNotice(0))
      else
        match world.diff(c.hash, behind)
        case DiffFailed => None
        case DiffTimeout => Some(READ_TIMEOUT)
        case Captured(_, cut, retained) => if cut then Some(PatchNotice(retained)) else None
  }

  /** A commit that is not kept: its line or its header does not fit, or the read of its parent timed out. */
  ghost predicate Unfit(world: World, uid: string, c: Commit, room: int) {
    if c.author == uid then Utf8.Length(OwnLine(c, uid)) > room
    else
      || world.parent(c.hash).ParentTimeout?
      || (world.parent(c.hash).Parent? && Utf8.Length(Header(c, world.parent(c.hash).hash)) > room)
  }

  /** The room left for the commit before the kept ones. */
  ghost function Room(blocks: seq<Block>, bytes: nat, limit: nat): int {
    limit - bytes - Utf8.Length(Texts(blocks))
  }

  /** A kept commit shows what there was room for; behind any but the oldest the walk went on. */
  ghost predicate KeptAt(world: World, uid: string, commits: seq<Commit>, bytes: nat, limit: nat, w: Walked, j: nat)
    requires w.omitted + |w.blocks| == |commits| && j < |w.blocks|
  {
    var c, room := commits[w.omitted + j], Room(w.blocks[j + 1..], bytes, limit);
    Keeps(world, uid, c, room, w.blocks[j]) && (j > 0 ==> Ending(world, uid, c, room).None?)
  }

  /**
   Why a walk is what it is: each kept commit shows what there was room for, only the oldest of
   them may end the walk, and where older commits are missing it did, or the next did not fit.
   */
  ghost predicate Explained(world: World, uid: string, commits: seq<Commit>, bytes: nat, limit: nat, w: Walked) {
    && w.omitted + |w.blocks| == |commits|
    && (forall j :: 0 <= j < |w.blocks| ==> KeptAt(world, uid, commits, bytes, limit, w, j))
    && var oldest := if w.blocks == [] then None
                     else Ending(world, uid, commits[w.omitted], Room(w.blocks[1..], bytes, limit));
       && (w.omitted > 0 && oldest.None? ==> Unfit(world, uid, commits[w.omitted - 1], Room(w.blocks, bytes, limit)))
       && w.truncated == (w.omitted > 0 || oldest.Some?)
       && w.patch ==
            if oldest.Some? then oldest
            else if w.omitted > 0 && commits[w.omitted - 1].author != uid
                    && world.parent(commits[w.omitted - 1].hash).ParentTimeout? then Some(READ_TIMEOUT)
            else None
  }

  lemma {:induction false} TextsOfMore(blocks: seq<Block>, b: Block)
    ensures Utf8.Length(Texts(blocks + [b])) == Utf8.Length(Texts(blocks)) + Utf8.Length(b.text)
  {
    assert (blocks + [b])[..|blocks|] == blocks;
    Utf8.LengthConcat(Texts(blocks), b.text);
  }

  /** What one round shows, in the same terms. */
  lemma RoundExplained(world: World, uid: string, c: Commit, i: nat, bytes: nat, limit: nat)
    requires Round(world, uid, c, i, bytes, limit).Some?
    ensures var shown, room := Round(world, uid, c, i, bytes, limit).value, limit as int - bytes;
            if shown.block.Some? then
              && Keeps(world, uid, c, room, shown.block.value)
              && shown.bytes == bytes + Utf8.Length(shown.block.value.text)
              && shown.goOn == Ending(world, uid, c, room).None? && shown.patch == Ending(world, uid, c, room)
              && shown.omitted == if shown.goOn then 0 else i
            else
              && !shown.goOn && Unfit(world, uid, c, room) && shown.omitted == i + 1
              && shown.patch == if c.author != uid && world.parent(c.hash).ParentTimeout? then Some(READ_TIMEOUT) else None
  {
    hide Header, OwnLine, PatchNotice;
    if c.author != uid && world.parent(c.hash).Parent? {
      var header := Header(c, world.parent(c.hash).hash);
      var after := bytes + Utf8.Length(header);
      if after < limit && world.diff(c.hash, limit - after).Captured? {
        Utf8.LengthConcat(header, world.diff(c.hash, limit - after).text);
      }
    }
  }

  /** A walk that goes on behind a kept commit is explained when the walk behind it is. */
  lemma GoesOn(
    world: World, uid: string, commits: seq<Commit>, bytes: nat, limit: nat, b: Block, after: nat, rest: Walked)
    requires commits != []
    requires var c := commits[|commits| - 1];
             Keeps(world, uid, c, limit as int - bytes, b) && Ending(world, uid, c, limit as int - bytes).None?
    requires after == bytes + Utf8.Length(b.text)
    requires Explained(world, uid, commits[..|commits| - 1], after, limit, rest)
    ensures Explained(world, uid, commits, bytes, limit, rest.(blocks := rest.blocks + [b]))
  {
    hide Keeps, Ending, Unfit, Texts;
    var older, w := commits[..|commits| - 1], rest.(blocks := rest.blocks + [b]);
    var n := |rest.blocks|;
    assert Texts([]) == "" && Utf8.Length("") == 0 by { NoTexts(); }
    assert w.blocks[n + 1..] == [];
    forall j | 0 <= j < |w.blocks| ensures KeptAt(world, uid, commits, bytes, limit, w, j) {
      if j < n {
        StaysKept(world, uid, commits, bytes, limit, b, after, rest, j);
      }
    }
    hide KeptAt;
    TextsOfMore(rest.blocks, b);
    if n > 0 {
      assert w.blocks[1..] == rest.blocks[1..] + [b];
      TextsOfMore(rest.blocks[1..], b);
    } else {
      assert w.blocks[1..] == [];
    }
  }

  lemma StaysKept(
    world: World, uid: string, commits: seq<Commit>, bytes: nat, limit: nat, b: Block, after: nat, rest: Walked, j: nat)
    requires commits != [] && rest.omitted + |rest.blocks| == |commits| - 1 && j < |rest.blocks|
    requires after == bytes + Utf8.Length(b.text)
    requires KeptAt(world, uid, commits[..|commits| - 1], after, limit, rest, j)
    ensures KeptAt(world, uid, commits, bytes, limit, rest.(blocks := rest.blocks + [b]), j)
  {
    hide Keeps, Ending, Texts;
    assert (rest.blocks + [b])[j + 1..] == rest.blocks[j + 1..] + [b];
    TextsOfMore(rest.blocks[j + 1..], b);
  }

  lemma NoTexts()
    ensures Texts([]) == "" && Utf8.Length("") == 0
  {
  }

  /** Every walk is explained. */
  lemma {:induction false} WalkExplained(world: World, uid: string, commits: seq<Commit>, bytes: nat, limit: nat)
    requires Walk(world, uid, commits, bytes, limit).Some?
    ensures Explained(world, uid, commits, bytes, limit, Walk(world, uid, commits, bytes, limit).value)
    decreases |commits|
  {
    hide Round, Keeps, Ending, Unfit, Texts;
    NoTexts();
    if commits != [] {
      var last := |commits| - 1;
      var c := commits[last];
      RoundExplained(world, uid, c, last, bytes, limit);
      var shown := Round(world, uid, c, last, bytes, limit).value;
      if shown.goOn {
        WalkExplained(world, uid, commits[..last], shown.bytes, limit);
        GoesOn(world, uid, commits, bytes, limit, shown.block.value, shown.bytes,
               Walk(world, uid, commits[..last], shown.bytes, limit).value);
      } else if shown.block.Some? {
        assert [shown.block.value][1..] == [];
      }
    }
  }

  /** The commits of others among the kept whose patch was read, oldest first. */
  ghost function ReadHashes(blocks: seq<Block>): seq<string> {
    if blocks == [] then []
    else (if blocks[0].own || !blocks[0].read then [] else [blocks[0].commit.hash]) + ReadHashes(blocks[1..])
  }

  lemma {:induction false} IncludedMore(b: Block, blocks: seq<Block>)
    ensures Included([b] + blocks) == (if b.own || !b.read then [] else [b.commit.hash]) + Included(blocks)
    decreases |blocks|
  {
    if blocks == [] {
      assert [b] + blocks == [b] && [b][..0] == [];
    } else {
      var n := |blocks| - 1;
      IncludedMore(b, blocks[..n]);
      assert ([b] + blocks)[..n + 1] == [b] + blocks[..n];
    }
  }

  lemma {:induction false} IncludedIs(blocks: seq<Block>)
    ensures Included(blocks) == ReadHashes(blocks)
  {
    if blocks != [] {
      IncludedIs(blocks[1..]);
      IncludedMore(blocks[0], blocks[1..]);
      assert [blocks[0]] + blocks[1..] == blocks;
    }
  }

  /** Each flag answers for exactly its own notice, in this order. */
  lemma PreambleSays(fallback: bool, listTruncated: bool, own: bool)
    ensures Preamble(true, listTruncated, own) ==
            FALLBACK_NOTICE + "\n" + Preamble(false, listTruncated, own)
    ensures Preamble(false, true, own) ==
            LIST_TRUNCATED_NOTICE + "\n" + Preamble(false, false, own)
    ensures Preamble(false, false, true) == ATTRIBUTION_NOTICE + "\n"
    ensures Preamble(false, false, false) == ""
  {
    PreambleIs(FALLBACK_NOTICE, LIST_TRUNCATED_NOTICE, ATTRIBUTION_NOTICE, listTruncated, own);
  }

  lemma PreambleIs(a: string, b: string, c: string, listTruncated: bool, own: bool)
    ensures a + "\n" + (if listTruncated then b + "\n" else "") + (if own then c + "\n" else "")
         == a + "\n" + ("" + (if listTruncated then b + "\n" else "") + (if own then c + "\n" else ""))
    ensures "" + (b + "\n") + (if own then c + "\n" else "")
         == b + "\n" + ("" + "" + (if own then c + "\n" else ""))
    ensures "" + "" + (c + "\n") == c + "\n"
  {
  }

  /**
   The whole perception: the notices its flags call for, and a walk that is explained, whose
   read commits of others are the ones reported, oldest first.
   */
  lemma PerceptionExplained(
    world: World, uid: string, commits: seq<Commit>, fallback: bool, listTruncated: bool, maxBytes: nat)
    requires maxBytes >= MIN_MAX_BYTES
    requires Presented(world, uid, commits, fallback, listTruncated, maxBytes).Some?
    ensures var own := exists i :: 0 <= i < |commits| && commits[i].author == uid;
            var preamble := Preamble(fallback, listTruncated, own);
            var p := Presented(world, uid, commits, fallback, listTruncated, maxBytes).value;
            exists w: Walked :: Explained(world, uid, commits, Utf8.Length(preamble), maxBytes - TAIL_RESERVE, w)
                        && preamble <= p.text && p.included == ReadHashes(w.blocks) && p.truncated == w.truncated
  {
    hide Walk, Preamble, Body, Aggregate, PatchChunk, Explained, Included, ReadHashes;
    var preamble := Preamble(fallback, listTruncated, HasOwn(commits, uid));
    var w := Walk(world, uid, commits, Utf8.Length(preamble), maxBytes - TAIL_RESERVE).value;
    WalkExplained(world, uid, commits, Utf8.Length(preamble), maxBytes - TAIL_RESERVE);
    WalkIsCounted(world, uid, commits, Utf8.Length(preamble), maxBytes - TAIL_RESERVE);
    IncludedIs(w.blocks);
  }

  lemma WalkIsCounted(world: World, uid: string, commits: seq<Commit>, bytes: nat, limit: nat)
    requires Walk(world, uid, commits, bytes, limit).Some?
    ensures Walk(world, uid, commits, bytes, limit).value.omitted <= |commits|
  {
  }

  /**
   The text of an explained walk, up to 1 MiB: every kept block in order, the patch notice behind
   the first, the rest said last.
   */
  ghost function Rendered(preamble: string, commits: seq<Commit>, w: Walked): string
    requires w.omitted > 0 ==> commits != []
  {
    preamble
    + (if w.blocks == [] then ""
       else w.blocks[0].text + (if w.patch.Some? then "\n" + w.patch.value else "") + Texts(w.blocks[1..]))
    + (if w.omitted > 0 then "\n" + OmissionNotice(w.omitted, Some(commits[0].hash), w.blocks != []) else "")
  }

  lemma WholeText(
    world: World, uid: string, commits: seq<Commit>, fallback: bool, listTruncated: bool, maxBytes: nat)
    requires MIN_MAX_BYTES <= maxBytes <= 1024 * 1024 && Listed(commits) && Honest(world)
    requires Presented(world, uid, commits, fallback, listTruncated, maxBytes).Some?
    ensures var preamble := Preamble(fallback, listTruncated, HasOwn(commits, uid));
            var w := Walk(world, uid, commits, Utf8.Length(preamble), maxBytes - TAIL_RESERVE).value;
            Presented(world, uid, commits, fallback, listTruncated, maxBytes).value.text == Rendered(preamble, commits, w)
  {
    hide Walk, Preamble, PatchChunk, OmissionNotice, Aggregate, Opens, SaysPatch, Honest, Texts, Listed;
    var preamble := Preamble(fallback, listTruncated, HasOwn(commits, uid));
    var limit := maxBytes - TAIL_RESERVE;
    var w := Walk(world, uid, commits, Utf8.Length(preamble), limit).value;
    WalkIsSuffix(world, uid, commits, Utf8.Length(preamble), limit);
    NoticesAre(commits, w, limit);
  }

  lemma NoticesAre(commits: seq<Commit>, w: Walked, limit: nat)
    requires Listed(commits) && w.omitted <= |commits| && limit <= 1024 * 1024
    requires w.patch.Some? ==> SaysPatch(w.patch.value, limit)
    ensures var (aggregate, used) := Aggregate(commits, w);
            && aggregate == (if w.omitted > 0 then "\n" + OmissionNotice(w.omitted, Some(commits[0].hash), w.blocks != [])
                             else "")
            && PatchChunk(used, w) == if w.patch.Some? then "\n" + w.patch.value else ""
  {
    hide OmissionNotice, SaysPatch, Listed;
    if w.omitted > 0 {
      AggregateIsSaid(commits, w);
    }
    if w.patch.Some? {
      PatchChunkFits(commits, w, limit);
    }
  }
}
