/**
 The execution marker of `src/host/execution.ts`: the strict read of its text and the
 canonical text it is written as. Path resolution is a parameter; the file itself is
 not part of this model.
 */
module ExecutionMarkers {
  import opened Wrappers
  import opened Decimals
  import opened Finite
  import opened StrictJson
  import opened JsonRoundTrip
  import opened Canonical
  import opened StrictParsers
  import Utf16

  datatype Marker =
    | Landlock(createdAt: int)
    | VmQemu(path: Text, sha256: Text, bytes: int, createdAt: int)

  /** The cell home and how a path resolves on this host. */
  datatype Host = Host(home: Text, resolve: Text -> Text)

  const V: Text := [0x76]
  const BACKEND: Text := [0x62, 0x61, 0x63, 0x6B, 0x65, 0x6E, 0x64]
  const CREATED_AT: Text := [0x63, 0x72, 0x65, 0x61, 0x74, 0x65, 0x64, 0x41, 0x74]
  const IMAGE: Text := [0x69, 0x6D, 0x61, 0x67, 0x65]
  const PATH: Text := [0x70, 0x61, 0x74, 0x68]
  const SHA256: Text := [0x73, 0x68, 0x61, 0x32, 0x35, 0x36]
  const BYTES: Text := [0x62, 0x79, 0x74, 0x65, 0x73]
  const LANDLOCK: Text := [0x6C, 0x61, 0x6E, 0x64, 0x6C, 0x6F, 0x63, 0x6B]
  const VM_QEMU: Text := [0x76, 0x6D, 0x2D, 0x71, 0x65, 0x6D, 0x75]

  /** `exactKeys`: no extra key, no missing key. */
  predicate ExactKeys(members: seq<Member>, keys: seq<Text>) {
    && (forall i :: 0 <= i < |members| ==> members[i].key in keys)
    && (forall i :: 0 <= i < |keys| ==> keys[i] in Keys(members))
  }

  /** `safeInteger` with the default maximum. */
  function SafeInteger(v: Option<Json>, min: int): Option<int> {
    if v.Some? && v.value.Number? && v.value.number.Integer? && min <= v.value.number.n <= MAX_SAFE_INTEGER
       && -MAX_SAFE_INTEGER <= v.value.number.n
    then Some(v.value.number.n)
    else None
  }

  /** `outsideHome`. */
  predicate OutsideHome(path: Text, host: Host) {
    var root, target := host.resolve(host.home), host.resolve(path);
    target != root && !(root + [SLASH] <= target)
  }

  predicate ImagePathOk(path: Text, host: Host) {
    Starts(path, SLASH) && OutsideHome(path, host)
  }

  function ParseImage(v: Option<Json>, host: Host, createdAt: Option<int>): Option<Marker> {
    if v.None? || !v.value.Object? || !ExactKeys(v.value.members, [PATH, SHA256, BYTES]) then None
    else
      var image := v.value.members;
      var path, sha, bytes := Get(image, PATH), Get(image, SHA256), SafeInteger(Get(image, BYTES), 1);
      if path.None? || !path.value.String? || !ImagePathOk(path.value.text, host) then None
      else if sha.None? || !sha.value.String? || !IsHash(sha.value.text) then None
      else if bytes.None? || createdAt.None? then None
      else Some(VmQemu(path.value.text, sha.value.text, bytes.value, createdAt.value))
  }

  /** `parseExecutionMarker`; every refusal carries the same code. */
  function ParseMarker(v: Json, host: Host): Option<Marker> {
    if !v.Object? || Get(v.members, V) != Some(Number(Integer(1))) then None
    else
      var backend, createdAt := Get(v.members, BACKEND), SafeInteger(Get(v.members, CREATED_AT), 0);
      if backend == Some(String(LANDLOCK)) then
        if !ExactKeys(v.members, [V, BACKEND, CREATED_AT]) || createdAt.None? then None
        else Some(Landlock(createdAt.value))
      else if backend == Some(String(VM_QEMU)) then
        if !ExactKeys(v.members, [V, BACKEND, IMAGE, CREATED_AT]) then None
        else ParseImage(Get(v.members, IMAGE), host, createdAt)
      else None
  }

  /** What `readExecutionMarker` makes of the file's text. */
  function ReadMarker(text: Text, read: Reading, host: Host): Option<Marker> {
    match Document(text, read)
    case None => None
    case Some(v) => ParseMarker(v, host)
  }

  /** The source's order: the strict parser, then the shape. */
  method ReadExecutionMarker(text: Text, read: Reading, host: Host) returns (r: Option<Marker>)
    ensures r == ReadMarker(text, read, host)
  {
    var value := ParseStrictJson(text, read);
    r := if value.None? then None else ParseMarker(value.value, host);
  }

  // --- the value a marker is written as ---------------------------------------------------------

  function Int(n: int): Json {
    Number(Integer(n))
  }

  function ImageMembers(m: Marker): seq<Member>
    requires m.VmQemu?
  {
    [Member(BYTES, Int(m.bytes)), Member(PATH, String(m.path)), Member(SHA256, String(m.sha256))]
  }

  /** The marker's members, in the key order the canonical form puts them in. */
  function MarkerMembers(m: Marker): seq<Member> {
    match m
    case Landlock(createdAt) =>
      [Member(BACKEND, String(LANDLOCK)), Member(CREATED_AT, Int(createdAt)), Member(V, Int(1))]
    case VmQemu(_, _, _, createdAt) =>
      [Member(BACKEND, String(VM_QEMU)), Member(CREATED_AT, Int(createdAt)),
       Member(IMAGE, Object(ImageMembers(m))), Member(V, Int(1))]
  }

  /** The text of a marker: its canonical form, as `MarkerTextIsCanonical` shows. */
  function MarkerText(m: Marker): Text {
    Write(Object(MarkerMembers(m)))
  }

  predicate ValidMarker(m: Marker, host: Host) {
    && 0 <= m.createdAt <= MAX_SAFE_INTEGER
    && (m.VmQemu? ==> ImagePathOk(m.path, host) && IsHash(m.sha256) && 1 <= m.bytes <= MAX_SAFE_INTEGER)
  }

  /** A path is inside the home when it resolves to it or to something under it. */
  ghost predicate InsideHome(path: Text, host: Host) {
    || host.resolve(path) == host.resolve(host.home)
    || exists more :: host.resolve(path) == host.resolve(host.home) + [0x2F] + more
  }

  /** 64 lower-case hexadecimal digits. */
  ghost predicate Sha256Text(s: Text) {
    |s| == 64 && forall i :: 0 <= i < 64 ==> 0x30 <= s[i] <= 0x39 || 0x61 <= s[i] <= 0x66
  }

  /** The markers there are: safe numbers, and an image at an absolute path outside the home. */
  lemma ValidMarkerIff(m: Marker, host: Host)
    ensures ValidMarker(m, host) <==>
              && 0 <= m.createdAt <= 0x1F_FFFF_FFFF_FFFF
              && (m.VmQemu? ==>
                    && m.path != [] && m.path[0] == 0x2F && !InsideHome(m.path, host)
                    && Sha256Text(m.sha256) && 1 <= m.bytes <= 0x1F_FFFF_FFFF_FFFF)
  {
    if m.VmQemu? {
      InsideIff(m.path, host);
      HashIff(m.sha256);
    }
  }

  lemma InsideIff(path: Text, host: Host)
    ensures OutsideHome(path, host) <==> !InsideHome(path, host)
  {
    var root, target := host.resolve(host.home), host.resolve(path);
    if root + [SLASH] <= target {
      assert target == root + [SLASH] + target[|root| + 1..];
    }
    if more :| target == root + [0x2F] + more {
      assert target[..|root| + 1] == root + [SLASH];
    }
  }

  lemma HashIff(s: Text)
    ensures IsHash(s) <==> Sha256Text(s)
  {
  }

  /** The members are written in canonical order. */
  lemma MarkerIsCanonical(m: Marker)
    ensures Ascending(MarkerMembers(m))
    ensures m.VmQemu? ==> Ascending(ImageMembers(m))
  {
    assert Less(BACKEND, CREATED_AT) && Less(CREATED_AT, IMAGE) && Less(CREATED_AT, V) && Less(IMAGE, V);
    assert Less(BACKEND, IMAGE) && Less(BACKEND, V);
    assert Less(BYTES, PATH) && Less(PATH, SHA256) && Less(BYTES, SHA256);
  }

  /** Where the marker has a canonical form, its text is that form. */
  lemma MarkerTextIsCanonical(m: Marker)
    requires WellFormed(Object(MarkerMembers(m)))
    ensures Canonicalize(Object(MarkerMembers(m))) == Some(MarkerText(m))
  {
    hide Write, WellFormed, Ascending;
    MarkerIsCanonical(m);
    if m.VmQemu? {
      SortedStays(ImageMembers(m));
    }
    SortedStays(MarkerMembers(m));
  }

  // --- reading back what was written ----------------------------------------------------------------

  lemma KeysDiffer()
    ensures BACKEND != CREATED_AT && BACKEND != IMAGE && BACKEND != V
    ensures CREATED_AT != IMAGE && CREATED_AT != V && IMAGE != V
    ensures BYTES != PATH && BYTES != SHA256 && PATH != SHA256 && LANDLOCK != VM_QEMU
  {
    assert BACKEND[0] == 0x62 && CREATED_AT[0] == 0x63 && IMAGE[0] == 0x69 && V[0] == 0x76;
    assert BYTES[0] == 0x62 && PATH[0] == 0x70 && SHA256[0] == 0x73 && LANDLOCK[0] == 0x6C && VM_QEMU[0] == 0x76;
  }

  lemma MembersAreDistinctKeys(m: Marker)
    ensures DistinctKeys(Object(MarkerMembers(m)))
    ensures NoRepeat(MarkerMembers(m)) && (m.VmQemu? ==> NoRepeat(ImageMembers(m)))
  {
    KeysDiffer();
    if m.VmQemu? {
      assert DistinctKeys(Object(ImageMembers(m)));
    }
  }

  lemma MembersAreIntegral(m: Marker, host: Host)
    requires ValidMarker(m, host)
    ensures Integral(Object(MarkerMembers(m)))
  {
    if m.VmQemu? {
      assert Integral(Object(ImageMembers(m)));
    }
  }

  lemma ImageParses(m: Marker, host: Host)
    requires m.VmQemu? && ValidMarker(m, host)
    ensures ParseImage(Some(Object(ImageMembers(m))), host, Some(m.createdAt)) == Some(m)
  {
    hide ImagePathOk, IsHash;
    MembersAreDistinctKeys(m);
    var image := ImageMembers(m);
    GetAt(image, 0);
    GetAt(image, 1);
    GetAt(image, 2);
    assert image[0].key == BYTES && image[1].key == PATH && image[2].key == SHA256;
    assert Keys(image) == [BYTES, PATH, SHA256];
  }

  /** Every valid marker's value parses to that marker. */
  lemma MarkerParses(m: Marker, host: Host)
    requires ValidMarker(m, host)
    ensures ParseMarker(Object(MarkerMembers(m)), host) == Some(m)
  {
    hide ImagePathOk, IsHash, ParseImage, Get, Keys, NoRepeat;
    MembersAreDistinctKeys(m);
    var members := MarkerMembers(m);
    KeysDiffer();
    GetAt(members, 0);
    GetAt(members, 1);
    GetAt(members, 2);
    if m.VmQemu? {
      GetAt(members, 3);
      ImageParses(m, host);
    }
    MarkerKeys(m);
  }

  lemma MarkerKeys(m: Marker)
    ensures Keys(MarkerMembers(m))
         == if m.Landlock? then [BACKEND, CREATED_AT, V] else [BACKEND, CREATED_AT, IMAGE, V]
  {
  }

  /** What `writeExecutionMarker` writes, `readExecutionMarker` returns; any byte after it is refused. */
  lemma MarkerRoundTrip(m: Marker, suffix: Text, read: Reading, host: Host)
    requires ValidMarker(m, host) && Lawful(read)
    ensures ReadMarker(MarkerText(m) + suffix, read, host) == if suffix == [] then Some(m) else None
  {
    hide ParseMarker, Document, Write, Integral, DistinctKeys, Lawful, ValidMarker, Faithful;
    MembersAreDistinctKeys(m);
    MembersAreIntegral(m, host);
    IntegralIsFaithful(Object(MarkerMembers(m)), read);
    MarkerParses(m, host);
    PrintedObjectIff(Object(MarkerMembers(m)), suffix, read);
  }

  // --- every accepted text --------------------------------------------------------------------------------

  /** With distinct keys, an exact key set is the right number of members and none missing. */
  lemma ExactKeysIff(members: seq<Member>, keys: seq<Text>)
    requires NoRepeat(members) && NoDuplicates(keys)
    ensures ExactKeys(members, keys) <==>
              |members| == |keys| && forall i :: 0 <= i < |keys| ==> Get(members, keys[i]).Some?
  {
    hide Get;
    var mine, theirs := Elements(Keys(members)), Elements(keys);
    ElementsSize(Keys(members));
    ElementsSize(keys);
    assert |mine| == |members| && |theirs| == |keys|;
    if ExactKeys(members, keys) {
      forall x | x in mine ensures x in theirs {
        var i :| 0 <= i < |members| && Keys(members)[i] == x;
      }
      assert mine == theirs;
    }
    if |members| == |keys| && forall i :: 0 <= i < |keys| ==> Get(members, keys[i]).Some? {
      assert theirs <= mine;
      SubsetOfSameSize(theirs, mine);
      forall i | 0 <= i < |members| ensures members[i].key in keys {
        assert Keys(members)[i] in mine;
      }
    }
  }

  lemma ImageAcceptedIff(v: Json, host: Host, createdAt: int, m: Marker)
    requires DistinctKeys(v) && m.VmQemu? && m.createdAt == createdAt && 0 <= createdAt <= MAX_SAFE_INTEGER
    ensures ParseImage(Some(v), host, Some(createdAt)) == Some(m)
       <==> ValidMarker(m, host) && Same(v, Object(ImageMembers(m)))
  {
    hide Get, ImagePathOk, IsHash, ExactKeys;
    KeysDiffer();
    if v.Object? {
      ExactKeysIff(v.members, [PATH, SHA256, BYTES]);
      assert [PATH, SHA256, BYTES][0] == PATH && [PATH, SHA256, BYTES][1] == SHA256
          && [PATH, SHA256, BYTES][2] == BYTES;
      SameImageIs(v.members, m);
    }
  }

  /** One member of `w` is found, as the same value. */
  ghost predicate Finds(members: seq<Member>, m: Member) {
    Get(members, m.key).Some? && Same(Get(members, m.key).value, m.value)
  }

  lemma SameObjectIs(members: seq<Member>, w: seq<Member>)
    ensures Same(Object(members), Object(w)) <==>
              |members| == |w| && forall i :: 0 <= i < |w| ==> Finds(members, w[i])
  {
    hide Get;
  }

  lemma FindsScalar(members: seq<Member>, key: Text, value: Json)
    requires value.String? || value.Number?
    ensures Finds(members, Member(key, value)) <==> Get(members, key) == Some(value)
  {
    hide Get;
  }

  lemma SameImageIs(members: seq<Member>, m: Marker)
    requires m.VmQemu?
    ensures Same(Object(members), Object(ImageMembers(m))) <==>
              && |members| == 3 && Get(members, BYTES) == Some(Int(m.bytes))
              && Get(members, PATH) == Some(String(m.path)) && Get(members, SHA256) == Some(String(m.sha256))
  {
    hide Get, Same, Finds;
    SameObjectIs(members, ImageMembers(m));
    FindsScalar(members, BYTES, Int(m.bytes));
    FindsScalar(members, PATH, String(m.path));
    FindsScalar(members, SHA256, String(m.sha256));
    Three(ImageMembers(m), x => Finds(members, x));
  }

  lemma Three(w: seq<Member>, p: Member -> bool)
    requires |w| == 3
    ensures (forall i :: 0 <= i < |w| ==> p(w[i])) <==> p(w[0]) && p(w[1]) && p(w[2])
  {
  }

  lemma FourthToo(w: seq<Member>, p: Member -> bool)
    requires |w| == 4
    ensures (forall i :: 0 <= i < |w| ==> p(w[i])) <==> (forall i :: 0 <= i < 3 ==> p(w[..3][i])) && p(w[3])
  {
    assert forall i :: 0 <= i < 3 ==> w[..3][i] == w[i];
  }

  lemma SameLandlockIs(members: seq<Member>, m: Marker)
    requires m.Landlock?
    ensures Same(Object(members), Object(MarkerMembers(m))) <==>
              && |members| == 3 && Get(members, BACKEND) == Some(String(LANDLOCK))
              && Get(members, CREATED_AT) == Some(Int(m.createdAt)) && Get(members, V) == Some(Int(1))
  {
    hide Get, Same, Finds;
    SameObjectIs(members, MarkerMembers(m));
    FindsScalar(members, BACKEND, String(LANDLOCK));
    FindsScalar(members, CREATED_AT, Int(m.createdAt));
    FindsScalar(members, V, Int(1));
    Three(MarkerMembers(m), x => Finds(members, x));
  }

  lemma SameVmIs(members: seq<Member>, m: Marker)
    requires m.VmQemu?
    ensures Same(Object(members), Object(MarkerMembers(m))) <==>
              && |members| == 4 && Get(members, BACKEND) == Some(String(VM_QEMU))
              && Get(members, CREATED_AT) == Some(Int(m.createdAt)) && Get(members, V) == Some(Int(1))
              && Get(members, IMAGE).Some? && Same(Get(members, IMAGE).value, Object(ImageMembers(m)))
  {
    hide Get, Same;
    var w := MarkerMembers(m);
    SameObjectIs(members, w);
    FindsScalar(members, BACKEND, String(VM_QEMU));
    FindsScalar(members, CREATED_AT, Int(m.createdAt));
    FindsScalar(members, V, Int(1));
    Three(w[..3], x => Finds(members, x));
    FourthToo(w, x => Finds(members, x));
  }

  lemma LandlockAcceptedIff(members: seq<Member>, host: Host, m: Marker)
    requires DistinctKeys(Object(members)) && m.Landlock?
    ensures ParseMarker(Object(members), host) == Some(m)
       <==> ValidMarker(m, host) && Same(Object(members), Object(MarkerMembers(m)))
  {
    hide Get, ExactKeys, ParseImage, Same, DistinctKeys;
    assert NoRepeat(members) by { ObjectKeysDiffer(members); }
    KeysDiffer();
    var keys := [V, BACKEND, CREATED_AT];
    ExactKeysIff(members, keys);
    assert keys[0] == V && keys[1] == BACKEND && keys[2] == CREATED_AT;
    SameLandlockIs(members, m);
    if ParseMarker(Object(members), host) == Some(m) && Get(members, BACKEND) == Some(String(VM_QEMU)) {
      ImageIsVm(Get(members, IMAGE), host, SafeInteger(Get(members, CREATED_AT), 0));
      assert false;
    }
  }

  lemma ObjectKeysDiffer(members: seq<Member>)
    requires DistinctKeys(Object(members))
    ensures NoRepeat(members)
  {
  }

  lemma ImageIsVm(v: Option<Json>, host: Host, createdAt: Option<int>)
    ensures var r := ParseImage(v, host, createdAt);
            r.Some? ==> r.value.VmQemu? && createdAt == Some(r.value.createdAt)
  {
    hide Get, ExactKeys, ImagePathOk, IsHash;
  }

  lemma VmAcceptedIff(members: seq<Member>, host: Host, m: Marker)
    requires DistinctKeys(Object(members)) && m.VmQemu?
    ensures ParseMarker(Object(members), host) == Some(m)
       <==> ValidMarker(m, host) && Same(Object(members), Object(MarkerMembers(m)))
  {
    hide Get, ExactKeys, ParseImage, Same, ImagePathOk, IsHash, DistinctKeys, Keys;
    assert NoRepeat(members) by { ObjectKeysDiffer(members); }
    KeysDiffer();
    var keys := [V, BACKEND, IMAGE, CREATED_AT];
    ExactKeysIff(members, keys);
    assert keys[0] == V && keys[1] == BACKEND && keys[2] == IMAGE && keys[3] == CREATED_AT;
    SameVmIs(members, m);
    var image, createdAt := Get(members, IMAGE), SafeInteger(Get(members, CREATED_AT), 0);
    ImageIsVm(image, host, createdAt);
    if image.Some? && createdAt == Some(m.createdAt) {
      ImageIsDistinct(members, image.value);
      ImageAcceptedIff(image.value, host, m.createdAt, m);
    }
  }

  lemma ImageIsDistinct(members: seq<Member>, image: Json)
    requires DistinctKeys(Object(members)) && Get(members, IMAGE) == Some(image)
    ensures DistinctKeys(image)
  {
    assert Member(IMAGE, image) in members;
  }

  /**
   A text is read as a marker exactly when it is one strict document for that marker's
   own value, members in any order, and the marker is valid on this host.
   */
  lemma ReadIff(text: Text, read: Reading, host: Host, m: Marker)
    ensures ReadMarker(text, read, host) == Some(m)
       <==> && Document(text, read).Some? && Same(Document(text, read).value, Object(MarkerMembers(m)))
            && ValidMarker(m, host)
  {
    hide Document, ParseMarker, ValidMarker, DistinctKeys, MarkerMembers;
    var document := Document(text, read);
    if document.Some? {
      AcceptedIsDistinct(text, read);
      var v := document.value;
      if v.Object? {
        if m.Landlock? {
          LandlockAcceptedIff(v.members, host, m);
        } else {
          VmAcceptedIff(v.members, host, m);
        }
      } else {
        OnlyObjects(v, host);
      }
    }
  }

  lemma OnlyObjects(v: Json, host: Host)
    requires !v.Object?
    ensures ParseMarker(v, host).None?
  {
  }

  // --- the file's size limit ----------------------------------------------------------------------------

  const MARKER_MAX_BYTES := 4096

  /** The number of UTF-8 bytes of a text. */
  function FileSize(text: Text): nat {
    |Utf16.Encode(text)|
  }

  /** The bounded read: the size is judged before the text. */
  function ReadFile(text: Text, read: Reading, host: Host): Option<Marker> {
    if 1 <= FileSize(text) <= MARKER_MAX_BYTES then ReadMarker(text, read, host) else None
  }

  /**
   `writeExecutionMarker` sets no limit where the read does: a written marker is read
   back exactly when its text fits the read's limit, and is refused otherwise.
   */
  lemma WrittenIsReadIff(m: Marker, read: Reading, host: Host)
    requires ValidMarker(m, host) && Lawful(read)
    ensures ReadFile(MarkerText(m), read, host)
         == if FileSize(MarkerText(m)) <= MARKER_MAX_BYTES then Some(m) else None
  {
    hide ReadMarker, Lawful, ValidMarker, Utf16.Encode;
    MarkerRoundTrip(m, [], read, host);
    Utf16.EncodedSize(MarkerText(m));
    assert MarkerText(m) + [] == MarkerText(m);
    assert MarkerText(m)[0] == OPEN_OBJECT;
  }

  lemma {:induction false} StringLength(s: Text)
    ensures |s| <= |WriteUnits(s)| <= 6 * |s|
  {
    if s != [] {
      StringLength(s[1..]);
    }
  }

  lemma SafeIntegersAreShort()
    ensures Power(16) > MAX_SAFE_INTEGER
  {
    assert Power(2) == 100;
    assert Power(4) == 10000;
    assert Power(6) == 1000000;
    assert Power(8) == 100000000;
    assert Power(10) == 10000000000;
    assert Power(12) == 1000000000000;
    assert Power(14) == 100000000000000;
    assert Power(16) == 10000000000000000;
  }

  lemma MemberLength(member: Member)
    ensures |WriteString(member.key) + [COLON] + Write(member.value)| <= 6 * |member.key| + 3 + |Write(member.value)|
    ensures |WriteString(member.key) + [COLON] + Write(member.value)| >= |Write(member.value)|
  {
    hide Write, WriteUnits;
    StringLength(member.key);
  }

  /** A Landlock marker always fits. */
  lemma LandlockIsReadBack(m: Marker, read: Reading, host: Host)
    requires m.Landlock? && ValidMarker(m, host) && Lawful(read)
    ensures ReadFile(MarkerText(m), read, host) == Some(m)
  {
    hide ReadFile, Lawful, Decimal, WriteUnits, WriteMembers, Utf16.Encode;
    Utf16.EncodedSize(MarkerText(m));
    SafeIntegersAreShort();
    DecimalLength(m.createdAt, 16);
    StringLength(LANDLOCK);
    var members := MarkerMembers(m);
    MemberLength(members[0]);
    MemberLength(members[1]);
    MemberLength(members[2]);
    ThreeMembers(members);
    WrittenIsReadIff(m, read, host);
  }

  lemma ThreeMembers(members: seq<Member>)
    requires |members| == 3
    ensures WriteMembers(members)
         == WriteString(members[0].key) + [COLON] + Write(members[0].value) + [COMMA]
            + (WriteString(members[1].key) + [COLON] + Write(members[1].value) + [COMMA]
               + (WriteString(members[2].key) + [COLON] + Write(members[2].value)))
  {
    hide Write, WriteString;
    var last := members[1..][1..];
    assert last == members[2..];
    assert WriteMembers(last) == WriteString(members[2].key) + [COLON] + Write(members[2].value);
    assert WriteMembers(members[1..])
        == WriteString(members[1].key) + [COLON] + Write(members[1].value) + [COMMA] + WriteMembers(last);
  }

  /** A path this long makes a valid marker the host writes and then refuses to read. */
  lemma LongPathIsRefused(path: Text, sha256: Text, read: Reading, host: Host)
    requires |path| >= MARKER_MAX_BYTES - 146 && ImagePathOk(path, host) && IsHash(sha256) && Lawful(read)
    ensures var m := VmQemu(path, sha256, 1, 0);
            ValidMarker(m, host) && ReadFile(MarkerText(m), read, host).None?
  {
    hide ReadMarker, ReadFile, Lawful, ImagePathOk, MarkerText, Utf16.Encode;
    assert |sha256| == 64;
    var m := VmQemu(path, sha256, 1, 0);
    ImageMarkerLength(m);
    Utf16.EncodedSize(MarkerText(m));
    WrittenIsReadIff(m, read, host);
  }

  /** The keys and marks of an image marker take 81 units, beside its path, its hash and its numbers. */
  lemma ImageMarkerLength(m: Marker)
    requires m.VmQemu? && m.bytes >= 0 && m.createdAt >= 0
    ensures |MarkerText(m)| >= 81 + |m.path| + |m.sha256| + DecimalWidth(m.bytes) + DecimalWidth(m.createdAt)
  {
    hide Write, WriteMembers, DecimalWidth;
    var image, members := ImageMembers(m), MarkerMembers(m);
    ValueLength(image[0].value);
    ValueLength(image[1].value);
    ValueLength(image[2].value);
    ThreeLength(image);
    ValueLength(members[0].value);
    ValueLength(members[1].value);
    ValueLength(members[2].value);
    ValueLength(members[3].value);
    ThreeLength(members[1..]);
    FirstMember(members);
    MemberAtLeast(members[0]);
    ValueLength(Object(members));
    assert DecimalWidth(1) > 0;
  }

  lemma ValueLength(v: Json)
    requires v.Number? ==> v.number.Integer? && v.number.n >= 0
    ensures v.Number? ==> |Write(v)| == DecimalWidth(v.number.n)
    ensures v.String? ==> |Write(v)| >= |v.text| + 2
    ensures v.Object? ==> |Write(v)| == |WriteMembers(v.members)| + 2
  {
    hide WriteUnits, WriteMembers, WriteItems, Decimal;
    if v.String? {
      StringLength(v.text);
    }
  }

  lemma MemberAtLeast(member: Member)
    ensures |WriteString(member.key) + [COLON] + Write(member.value)| >= |member.key| + 3 + |Write(member.value)|
  {
    hide Write, WriteUnits;
    StringLength(member.key);
  }

  lemma ThreeLength(members: seq<Member>)
    requires |members| == 3
    ensures |WriteMembers(members)| >= 11 + |members[0].key| + |members[1].key| + |members[2].key|
            + |Write(members[0].value)| + |Write(members[1].value)| + |Write(members[2].value)|
  {
    hide Write, WriteString, WriteMembers;
    ThreeMembers(members);
    MemberAtLeast(members[0]);
    MemberAtLeast(members[1]);
    MemberAtLeast(members[2]);
  }

  lemma FirstMember(members: seq<Member>)
    requires |members| > 1
    ensures WriteMembers(members) == WriteString(members[0].key) + [COLON] + Write(members[0].value) + [COMMA]
                                     + WriteMembers(members[1..])
  {
    hide Write, WriteString;
  }

  /** A path of 3950 units, of names no longer than 199: an operating system can hold such a file. */
  function LongPath(n: nat): (path: Text)
    ensures |path| == n
  {
    if n == 0 then [] else LongPath(n - 1) + [if (n - 1) % 200 == 0 then SLASH else 0x61]
  }

  lemma {:induction false} LongPathStarts(n: nat)
    requires n > 1
    ensures LongPath(n)[0] == SLASH && LongPath(n)[1] == 0x61
  {
    if n > 2 {
      LongPathStarts(n - 1);
    } else {
      assert LongPath(2) == LongPath(1) + [0x61] && LongPath(1) == LongPath(0) + [SLASH];
    }
  }

  /** Such a path exists, short enough to name a file: 146 bytes below the limit is too long. */
  lemma SomePathIsRefused(read: Reading)
    requires Lawful(read)
    ensures exists m, host :: ValidMarker(m, host) && m.VmQemu? && |m.path| == 3950
                              && ReadFile(MarkerText(m), read, host).None?
  {
    hide ReadFile, MarkerText, Lawful, LongPath;
    var host := Host([SLASH, 0x68], path => path);
    var path := LongPath(3950);
    var sha256: Text := seq(64, _ => 0x61);
    LongPathStarts(3950);
    assert !([SLASH, 0x68, SLASH] <= path) by { assert path[1] == 0x61; }
    LongPathIsRefused(path, sha256, read, host);
    assert ValidMarker(VmQemu(path, sha256, 1, 0), host);
  }
}
