/**
 The grammar of a strict JSON document (RFC 8259 sections 2 to 7) as syntax trees: how
 a tree is laid out as text and which value it spells. The strict parser of
 `src/host/execution.ts` is proved to accept exactly the texts some tree lays out, with
 nothing after the value, and to return the value that tree spells.
 */
module JsonGrammar {
  import opened Wrappers
  import opened StrictJson
  import opened JsonRoundTrip

  // --- strings --------------------------------------------------------------------------------

  /** One unit of a string: itself, a one-letter escape, or an escape with four hexadecimal digits. */
  datatype Piece = Raw(unit: Unit) | Short(letter: Unit) | Hex(a: Unit, b: Unit, c: Unit, d: Unit)

  /** What the one-letter escapes stand for. */
  const SHORTS: map<Unit, Unit> :=
    map[0x22 := 0x22, 0x5C := 0x5C, 0x2F := 0x2F, 0x62 := 0x08, 0x66 := 0x0C, 0x6E := 0x0A, 0x72 := 0x0D, 0x74 := 0x09]

  ghost predicate Hexadecimal(c: Unit) {
    0x30 <= c <= 0x39 || 0x41 <= c <= 0x46 || 0x61 <= c <= 0x66
  }

  ghost function HexValue(c: Unit): (v: nat)
    requires Hexadecimal(c)
    ensures v < 16
  {
    if c <= 0x39 then c - 0x30 else if c <= 0x46 then c - 0x41 + 10 else c - 0x61 + 10
  }

  ghost predicate PieceOk(p: Piece) {
    match p
    case Raw(c) => 0x20 <= c && c != 0x22 && c != 0x5C
    case Short(letter) => letter in SHORTS
    case Hex(a, b, c, d) => Hexadecimal(a) && Hexadecimal(b) && Hexadecimal(c) && Hexadecimal(d)
  }

  ghost function PieceText(p: Piece): Text {
    match p
    case Raw(c) => [c]
    case Short(letter) => [0x5C, letter]
    case Hex(a, b, c, d) => [0x5C, 0x75, a, b, c, d]
  }

  ghost function PieceUnit(p: Piece): Unit
    requires PieceOk(p)
  {
    match p
    case Raw(c) => c
    case Short(letter) => SHORTS[letter]
    case Hex(a, b, c, d) => ((HexValue(a) * 16 + HexValue(b)) * 16 + HexValue(c)) * 16 + HexValue(d)
  }

  ghost predicate PiecesOk(pieces: seq<Piece>) {
    forall i :: 0 <= i < |pieces| ==> PieceOk(pieces[i])
  }

  ghost function PiecesText(pieces: seq<Piece>): Text {
    if pieces == [] then [] else PieceText(pieces[0]) + PiecesText(pieces[1..])
  }

  ghost function Units(pieces: seq<Piece>): Text
    requires PiecesOk(pieces)
  {
    seq(|pieces|, i requires 0 <= i < |pieces| => PieceUnit(pieces[i]))
  }

  ghost function QuotedText(pieces: seq<Piece>): Text {
    [QUOTE] + PiecesText(pieces) + [QUOTE]
  }

  // --- numbers --------------------------------------------------------------------------------

  datatype Exponent = Exponent(mark: Unit, sign: Text, digits: Text)

  datatype Lexeme = Lexeme(minus: bool, whole: Text, fraction: Option<Text>, exponent: Option<Exponent>)

  ghost predicate DigitRun(s: Text) {
    s != [] && forall i :: 0 <= i < |s| ==> 0x30 <= s[i] <= 0x39
  }

  /** Section 6: no leading zero, and at least one digit in each part. */
  ghost predicate LexemeOk(n: Lexeme) {
    && DigitRun(n.whole) && (n.whole[0] == 0x30 ==> |n.whole| == 1)
    && (n.fraction.Some? ==> DigitRun(n.fraction.value))
    && (n.exponent.Some? ==> ExponentOk(n.exponent.value))
  }

  ghost predicate ExponentOk(e: Exponent) {
    (e.mark == 0x65 || e.mark == 0x45) && (e.sign == [] || e.sign == [0x2B] || e.sign == [0x2D]) && DigitRun(e.digits)
  }

  ghost function FractionText(fraction: Option<Text>): Text {
    if fraction.None? then [] else [0x2E] + fraction.value
  }

  ghost function ExponentText(exponent: Option<Exponent>): Text {
    if exponent.None? then [] else [exponent.value.mark] + exponent.value.sign + exponent.value.digits
  }

  ghost function LexemeText(n: Lexeme): Text {
    (if n.minus then [MINUS] else []) + n.whole + FractionText(n.fraction) + ExponentText(n.exponent)
  }

  // --- values ---------------------------------------------------------------------------------

  /** Insignificant whitespace (section 2). */
  ghost predicate Blank(s: Text) {
    forall i :: 0 <= i < |s| ==> s[i] in {0x20, 0x09, 0x0A, 0x0D}
  }

  /** `gap` is the whitespace of an empty array or object. */
  datatype Tree =
    | Word(word: Text)
    | Digits(lexeme: Lexeme)
    | Quote(pieces: seq<Piece>)
    | List(gap: Text, items: seq<Item>)
    | Table(gap: Text, fields: seq<Field>)

  /** A value with the whitespace around it. */
  datatype Item = Item(before: Text, tree: Tree, after: Text)

  datatype Field = Field(before: Text, key: seq<Piece>, after: Text, item: Item)

  ghost function Layout(t: Tree): Text {
    match t
    case Word(word) => word
    case Digits(lexeme) => LexemeText(lexeme)
    case Quote(pieces) => QuotedText(pieces)
    case List(gap, items) => [OPEN_ARRAY] + gap + ItemsText(items) + [CLOSE_ARRAY]
    case Table(gap, fields) => [OPEN_OBJECT] + gap + FieldsText(fields) + [CLOSE_OBJECT]
  }

  ghost function ItemText(item: Item): Text {
    item.before + Layout(item.tree) + item.after
  }

  ghost function FieldText(f: Field): Text {
    f.before + QuotedText(f.key) + f.after + [COLON] + ItemText(f.item)
  }

  ghost function ItemsText(items: seq<Item>): Text {
    if items == [] then []
    else ItemText(items[0]) + (if |items| == 1 then [] else [COMMA] + ItemsText(items[1..]))
  }

  ghost function FieldsText(fields: seq<Field>): Text {
    if fields == [] then []
    else FieldText(fields[0]) + (if |fields| == 1 then [] else [COMMA] + FieldsText(fields[1..]))
  }

  /** The tree is of the grammar and stands for `v`; an object's keys differ once unescaped. */
  ghost predicate Spells(t: Tree, v: Json, read: Reading) {
    match t
    case Word(word) =>
      (word == TRUE && v == Bool(true)) || (word == FALSE && v == Bool(false)) || (word == NULL && v == Null)
    case Digits(lexeme) => LexemeOk(lexeme) && v.Number? && read(LexemeText(lexeme)) == Some(v.number)
    case Quote(pieces) => PiecesOk(pieces) && v == String(Units(pieces))
    case List(gap, items) =>
      Blank(gap) && (items != [] ==> gap == []) && v.Array? && ItemsSpell(items, v.items, read)
    case Table(gap, fields) =>
      && Blank(gap) && (fields != [] ==> gap == []) && v.Object? && FieldsSpell(fields, v.members, read)
      && NoRepeat(v.members)
  }

  ghost predicate ItemSpells(item: Item, v: Json, read: Reading) {
    Blank(item.before) && Blank(item.after) && Spells(item.tree, v, read)
  }

  ghost predicate FieldSpells(f: Field, m: Member, read: Reading) {
    && Blank(f.before) && Blank(f.after) && PiecesOk(f.key) && m.key == Units(f.key)
    && ItemSpells(f.item, m.value, read)
  }

  ghost predicate ItemsSpell(items: seq<Item>, values: seq<Json>, read: Reading) {
    |items| == |values| && forall i :: 0 <= i < |items| ==> ItemSpells(items[i], values[i], read)
  }

  ghost predicate FieldsSpell(fields: seq<Field>, members: seq<Member>, read: Reading) {
    |fields| == |members| && forall i :: 0 <= i < |fields| ==> FieldSpells(fields[i], members[i], read)
  }

  // --- what the parser takes is laid out by a tree ------------------------------------------------

  lemma {:induction false} SkipIs(s: Text) returns (pad: Text)
    ensures Blank(pad) && s == pad + Skip(s)
    ensures Skip(s) != [] ==> Skip(s)[0] !in {0x20, 0x09, 0x0A, 0x0D}
  {
    pad := [];
    if s != [] && IsSpace(s[0]) {
      var more := SkipIs(s[1..]);
      pad := [s[0]] + more;
      assert s == [s[0]] + s[1..];
    }
  }

  lemma OneUnitIsPiece(s: Text) returns (p: Piece)
    requires OneUnit(s).Some?
    ensures PieceOk(p) && s == PieceText(p) + OneUnit(s).value.rest && PieceUnit(p) == OneUnit(s).value.value
  {
    if s[0] != BACKSLASH {
      p := Raw(s[0]);
    } else if s[1] == LOWER_U {
      p := Hex(s[2], s[3], s[4], s[5]);
      assert s[2..][0] == s[2] && s[2..][1] == s[3] && s[2..][2] == s[4] && s[2..][3] == s[5];
      assert s == s[..6] + s[6..] && s[..6] == PieceText(p);
    } else {
      p := Short(s[1]);
      assert s == s[..2] + s[2..] && s[..2] == PieceText(p);
    }
  }

  lemma {:induction false} BodyIsPieces(s: Text) returns (pieces: seq<Piece>)
    requires Body(s).Some?
    ensures PiecesOk(pieces) && s == PiecesText(pieces) + [QUOTE] + Body(s).value.rest
    ensures Units(pieces) == Body(s).value.value
    decreases |s|
  {
    hide OneUnit, PieceOk, PieceText, PieceUnit;
    if Starts(s, QUOTE) {
      pieces := [];
      assert s == [QUOTE] + s[1..];
    } else {
      var one := OneUnit(s).value;
      var first := OneUnitIsPiece(s);
      var more := BodyIsPieces(one.rest);
      pieces := [first] + more;
      assert pieces[1..] == more;
      assert Units(pieces) == [PieceUnit(first)] + Units(more);
    }
  }

  lemma QuotedIsPieces(s: Text) returns (pieces: seq<Piece>)
    requires Quoted(s).Some?
    ensures PiecesOk(pieces) && s == QuotedText(pieces) + Quoted(s).value.rest && Units(pieces) == Quoted(s).value.value
  {
    hide Body, PiecesOk, PiecesText, Units;
    pieces := BodyIsPieces(s[1..]);
    assert s == [QUOTE] + s[1..];
  }

  lemma {:induction false} DigitsAreRun(s: Text)
    ensures StrictJson.Digits(s) > 0 ==> DigitRun(s[..StrictJson.Digits(s)])
  {
    if s != [] && IsDigit(s[0]) {
      DigitsAreRun(s[1..]);
      var n := StrictJson.Digits(s[1..]);
      assert s[..n + 1] == [s[0]] + s[1..][..n];
    }
  }

  lemma WholeIsRun(s: Text)
    requires Whole(s) > 0
    ensures DigitRun(s[..Whole(s)]) && (s[0] == 0x30 ==> Whole(s) == 1)
  {
    DigitsAreRun(s);
  }

  lemma MarkedIsRun(s: Text, mark: nat)
    requires mark <= |s| && Marked(s, mark) > 0
    ensures Marked(s, mark) > mark && DigitRun(s[mark..Marked(s, mark)])
  {
    DigitsAreRun(s[mark..]);
    assert s[mark..Marked(s, mark)] == s[mark..][..Marked(s, mark) - mark];
  }

  lemma FractionIs(s: Text) returns (fraction: Option<Text>)
    ensures fraction.Some? ==> DigitRun(fraction.value)
    ensures FractionText(fraction) == s[..FractionLength(s)]
  {
    hide Marked, DigitRun;
    fraction := None;
    if FractionLength(s) > 0 {
      MarkedIsRun(s, 1);
      fraction := Some(s[1..FractionLength(s)]);
      assert s[..1] == [0x2E];
    }
  }

  lemma ExponentIs(s: Text) returns (exponent: Option<Exponent>)
    ensures exponent.Some? ==> ExponentOk(exponent.value)
    ensures ExponentText(exponent) == s[..ExponentLength(s)]
  {
    hide Marked, DigitRun;
    exponent := None;
    if ExponentLength(s) > 0 {
      var mark := if |s| > 1 && (s[1] == 0x2B || s[1] == MINUS) then 2 else 1;
      MarkedIsRun(s, mark);
      exponent := Some(Exponent(s[0], s[1..mark], s[mark..ExponentLength(s)]));
      assert s[1..mark] == if mark == 2 then [s[1]] else [];
      assert s[..ExponentLength(s)] == [s[0]] + s[1..mark] + s[mark..ExponentLength(s)];
    }
  }

  lemma NumberIsLexeme(s: Text) returns (n: Lexeme)
    requires NumberLength(s) > 0
    ensures LexemeOk(n) && LexemeText(n) == s[..NumberLength(s)]
  {
    hide Whole, FractionLength, ExponentLength, DigitRun, FractionText, ExponentText, ExponentOk;
    var sign := if Starts(s, MINUS) then 1 else 0;
    var whole := sign + Whole(s[sign..]);
    WholeIsRun(s[sign..]);
    var fraction := FractionIs(s[whole..]);
    var f := whole + FractionLength(s[whole..]);
    var exponent := ExponentIs(s[f..]);
    n := Lexeme(sign == 1, s[sign..][..Whole(s[sign..])], fraction, exponent);
    assert s[..sign] == if sign == 1 then [MINUS] else [];
    assert s[..NumberLength(s)] == s[..sign] + n.whole + s[whole..][..f - whole] + s[f..][..NumberLength(s) - f];
  }

  lemma ScalarIsTree(s: Text, read: Reading) returns (t: Tree)
    requires s != [] && Skip(s) == s && s[0] != OPEN_OBJECT && s[0] != OPEN_ARRAY && Value(s, read).Some?
    ensures Spells(t, Value(s, read).value.value, read) && s == Layout(t) + Value(s, read).value.rest
  {
    hide NumberLength, Quoted, LexemeOk, LexemeText, QuotedText, Units, PiecesOk;
    if s[0] == QUOTE {
      var pieces := QuotedIsPieces(s);
      t := Quote(pieces);
    } else if s[0] == TRUE[0] {
      t := Word(TRUE);
    } else if s[0] == FALSE[0] {
      t := Word(FALSE);
    } else if s[0] == NULL[0] {
      t := Word(NULL);
    } else {
      var lexeme := NumberIsLexeme(s);
      t := Digits(lexeme);
    }
  }

  /** What the parser takes is whitespace, a tree of the value it returns, and what it leaves. */
  lemma {:induction false} ValueIsTree(s: Text, read: Reading) returns (pad: Text, t: Tree)
    requires Value(s, read).Some?
    ensures var p := Value(s, read).value;
            Blank(pad) && Spells(t, p.value, read) && s == pad + Layout(t) + p.rest
    decreases |s|, 0
  {
    hide NumberLength, Quoted, Items, Members, ItemsSpell, FieldsSpell, ItemsText, FieldsText, Spells;
    pad := SkipIs(s);
    var u := Skip(s);
    assert Skip(u) == u && Value(u, read) == Value(s, read);
    if u[0] == OPEN_ARRAY {
      t := ArrayIsTree(u, read);
    } else if u[0] == OPEN_OBJECT {
      t := ObjectIsTree(u, read);
    } else {
      t := ScalarIsTree(u, read);
    }
  }

  lemma {:induction false} ArrayIsTree(s: Text, read: Reading) returns (t: Tree)
    requires Starts(s, OPEN_ARRAY) && Value(s, read).Some?
    ensures Spells(t, Value(s, read).value.value, read) && s == Layout(t) + Value(s, read).value.rest
    decreases |s|, 0, 0
  {
    hide Items, ItemsText, Blank, ItemsSpell;
    assert Skip(s) == s && s == [OPEN_ARRAY] + s[1..];
    var gap := SkipIs(s[1..]);
    var last, rest := Skip(s[1..]), Value(s, read).value.rest;
    if Starts(last, CLOSE_ARRAY) {
      t := List(gap, []);
      assert ItemsText([]) == [] && ItemsSpell([], [], read) by { NothingLaidOut(read); }
      assert last == [CLOSE_ARRAY] + last[1..];
      Enclosed(OPEN_ARRAY, gap, [], CLOSE_ARRAY, rest);
    } else {
      var items := ItemsAreTrees(s[1..], read);
      t := List([], items);
      NothingIsBlank();
      Enclosed(OPEN_ARRAY, [], ItemsText(items), CLOSE_ARRAY, rest);
    }
  }

  lemma NothingIsBlank()
    ensures Blank([])
  {
  }

  /** An opening mark, an inside and a closing mark, in front of a rest. */
  lemma Enclosed(open: Unit, gap: Text, inside: Text, close: Unit, rest: Text)
    requires gap == [] || inside == []
    ensures [open] + gap + inside + [close] + rest == [open] + ((if gap == [] then inside else gap) + [close] + rest)
    ensures (if gap == [] then inside else gap) + [close] + rest == (if gap == [] then inside else gap) + ([close] + rest)
  {
    assert [open] + gap + inside == [open] + (if gap == [] then inside else gap);
  }

  lemma NothingLaidOut(read: Reading)
    ensures ItemsText([]) == [] && FieldsText([]) == []
    ensures ItemsSpell([], [], read) && FieldsSpell([], [], read)
  {
  }

  lemma {:induction false} ItemsAreTrees(s: Text, read: Reading) returns (items: seq<Item>)
    requires Items(s, read).Some?
    ensures var p := Items(s, read).value;
            items != [] && ItemsSpell(items, p.value, read) && s == ItemsText(items) + [CLOSE_ARRAY] + p.rest
    decreases |s|, 1
  {
    hide Value, Spells, Layout, ItemsText, Blank, Skip;
    var first := Value(s, read).value;
    var pad, tree := ValueIsTree(s, read);
    var after := SkipIs(first.rest);
    var t, item := Skip(first.rest), Item(pad, tree, after);
    assert t == [t[0]] + t[1..];
    var rest := Items(s, read).value.rest;
    if Starts(t, COMMA) {
      var more := ItemsAreTrees(t[1..], read);
      items := [item] + more;
      assert items[1..] == more;
      Grouped(ItemsText(more), [CLOSE_ARRAY], rest);
    } else {
      items := [item];
    }
    ItemsGrouped(items, [CLOSE_ARRAY] + rest);
    Grouped(ItemsText(items), [CLOSE_ARRAY], rest);
  }

  lemma KeyIsPieces(s: Text) returns (before: Text, key: seq<Piece>, after: Text)
    requires Key(s).Some?
    ensures Blank(before) && Blank(after) && PiecesOk(key) && Units(key) == Key(s).value.value
    ensures s == before + QuotedText(key) + after + [COLON] + Key(s).value.rest
  {
    hide Quoted, PiecesOk, Units, QuotedText, Blank, Skip;
    before := SkipIs(s);
    key := QuotedIsPieces(Skip(s));
    var rest := Quoted(Skip(s)).value.rest;
    after := SkipIs(rest);
    var last := Skip(rest)[1..];
    assert Skip(rest) == [COLON] + last;
    Regroup(before, QuotedText(key), after, [COLON], last);
  }

  lemma Grouped(a: Text, b: Text, c: Text)
    ensures (a + b) + c == a + (b + c)
  {
  }

  lemma Regroup(a: Text, b: Text, c: Text, d: Text, e: Text)
    ensures a + (b + (c + (d + e))) == a + b + c + d + e
  {
  }

  /** The first of a list and what follows it: the closing text, or a comma and more. */
  lemma FirstThen(first: Text, more: Text, only: bool, rest: Text)
    ensures (first + (if only then [] else [COMMA] + more)) + rest
         == first + (if only then rest else [COMMA] + (more + rest))
  {
    if only {
      assert first + [] == first;
    } else {
      Grouped(first, [COMMA] + more, rest);
      Grouped([COMMA], more, rest);
    }
  }

  lemma ItemsGrouped(items: seq<Item>, rest: Text)
    requires items != []
    ensures var item, tail := items[0], if |items| == 1 then rest else [COMMA] + (ItemsText(items[1..]) + rest);
            ItemsText(items) + rest == (item.before + Layout(item.tree)) + (item.after + tail)
  {
    hide Layout;
    var item, more := items[0], ItemsText(items[1..]);
    var tail := if |items| == 1 then rest else [COMMA] + (more + rest);
    assert ItemsText(items) == ItemText(item) + (if |items| == 1 then [] else [COMMA] + more);
    FirstThen(ItemText(item), more, |items| == 1, rest);
    Grouped(item.before + Layout(item.tree), item.after, tail);
  }

  lemma FieldsGrouped(fields: seq<Field>, rest: Text)
    requires fields != []
    ensures var f, tail := fields[0], if |fields| == 1 then rest else [COMMA] + (FieldsText(fields[1..]) + rest);
            FieldsText(fields) + rest
            == f.before + QuotedText(f.key) + f.after + [COLON]
               + ((f.item.before + Layout(f.item.tree)) + (f.item.after + tail))
  {
    hide Layout, QuotedText;
    var f, more := fields[0], FieldsText(fields[1..]);
    var tail := if |fields| == 1 then rest else [COMMA] + (more + rest);
    var head, item := f.before + QuotedText(f.key) + f.after + [COLON], f.item.before + Layout(f.item.tree);
    assert FieldsText(fields) == FieldText(f) + (if |fields| == 1 then [] else [COMMA] + more);
    FirstThen(FieldText(f), more, |fields| == 1, rest);
    assert FieldText(f) == head + (item + f.item.after);
    Grouped(head, item + f.item.after, tail);
    Grouped(item, f.item.after, tail);
  }

  lemma {:induction false} ObjectIsTree(s: Text, read: Reading) returns (t: Tree)
    requires Starts(s, OPEN_OBJECT) && Value(s, read).Some?
    ensures Spells(t, Value(s, read).value.value, read) && s == Layout(t) + Value(s, read).value.rest
    decreases |s|, 0, 0
  {
    hide Members, FieldsText, Blank, FieldsSpell, DistinctKeys;
    assert Skip(s) == s && s == [OPEN_OBJECT] + s[1..];
    var gap := SkipIs(s[1..]);
    var last, rest := Skip(s[1..]), Value(s, read).value.rest;
    if Starts(last, CLOSE_OBJECT) {
      t := Table(gap, []);
      assert FieldsText([]) == [] && FieldsSpell([], [], read) by { NothingLaidOut(read); }
      assert last == [CLOSE_OBJECT] + last[1..];
      Enclosed(OPEN_OBJECT, gap, [], CLOSE_OBJECT, rest);
    } else {
      var fields := MembersAreTrees(s[1..], [], read);
      MembersAreDistinct(s[1..], [], read);
      t := Table([], fields);
      NothingIsBlank();
      Enclosed(OPEN_OBJECT, [], FieldsText(fields), CLOSE_OBJECT, rest);
    }
  }

  lemma {:induction false} MembersAreTrees(s: Text, taken: seq<Text>, read: Reading) returns (fields: seq<Field>)
    requires Members(s, taken, read).Some?
    ensures var p := Members(s, taken, read).value;
            fields != [] && FieldsSpell(fields, p.value, read) && s == FieldsText(fields) + [CLOSE_OBJECT] + p.rest
    decreases |s|, 1
  {
    hide Value, Key, Spells, Layout, QuotedText, Units, PiecesOk, FieldsText, Blank, Skip;
    var key := Key(s).value;
    var before, pieces, mid := KeyIsPieces(s);
    var value := Value(key.rest, read).value;
    var pad, tree := ValueIsTree(key.rest, read);
    var after := SkipIs(value.rest);
    var t, field := Skip(value.rest), Field(before, pieces, mid, Item(pad, tree, after));
    assert t == [t[0]] + t[1..];
    var rest := Members(s, taken, read).value.rest;
    if Starts(t, COMMA) {
      var more := MembersAreTrees(t[1..], taken + [key.value], read);
      fields := [field] + more;
      assert fields[1..] == more;
      Grouped(FieldsText(more), [CLOSE_OBJECT], rest);
    } else {
      fields := [field];
      NothingLaidOut(read);
    }
    var members := Members(s, taken, read).value.value;
    assert ItemSpells(field.item, members[0].value, read);
    MoreFields(fields, members, read);
    FieldsGrouped(fields, [CLOSE_OBJECT] + rest);
    Grouped(FieldsText(fields), [CLOSE_OBJECT], rest);
  }

  lemma MoreFields(fields: seq<Field>, members: seq<Member>, read: Reading)
    requires fields != [] && members != []
    requires FieldSpells(fields[0], members[0], read) && FieldsSpell(fields[1..], members[1..], read)
    ensures FieldsSpell(fields, members, read)
  {
    hide FieldSpells;
    forall i | 0 <= i < |fields| ensures FieldSpells(fields[i], members[i], read) {
      if i > 0 {
        assert fields[i] == fields[1..][i - 1] && members[i] == members[1..][i - 1];
      }
    }
  }

  // --- what a tree lays out, the parser takes ---------------------------------------------------------

  lemma {:induction false} SkipPad(pad: Text, rest: Text)
    requires Blank(pad)
    ensures Skip(pad + rest) == Skip(rest)
  {
    if pad == [] {
      assert pad + rest == rest;
    } else {
      assert (pad + rest)[1..] == pad[1..] + rest;
      SkipPad(pad[1..], rest);
    }
  }

  lemma PieceIsTaken(p: Piece, rest: Text)
    requires PieceOk(p)
    ensures OneUnit(PieceText(p) + rest) == Some(Parsed(PieceUnit(p), rest))
    ensures !Starts(PieceText(p) + rest, QUOTE)
  {
    hide HexUnit, Hexadecimal, HexValue;
    var s := PieceText(p) + rest;
    match p
    case Raw(c) => assert s[1..] == rest;
    case Short(letter) => assert s[2..] == rest;
    case Hex(a, b, c, d) =>
      assert s[2..] == [a, b, c, d] + rest;
      assert s[6..] == rest;
      HexIsTaken(a, b, c, d, rest);
  }

  lemma HexIsTaken(a: Unit, b: Unit, c: Unit, d: Unit, rest: Text)
    requires Hexadecimal(a) && Hexadecimal(b) && Hexadecimal(c) && Hexadecimal(d)
    ensures HexUnit([a, b, c, d] + rest) == Some(PieceUnit(Hex(a, b, c, d)))
  {
    hide Hexadecimal, HexValue, HexDigit;
    OneHex(a);
    OneHex(b);
    OneHex(c);
    OneHex(d);
  }

  lemma OneHex(c: Unit)
    requires Hexadecimal(c)
    ensures HexDigit(c) == Some(HexValue(c))
  {
  }

  lemma {:induction false} PiecesAreTaken(pieces: seq<Piece>, rest: Text)
    requires PiecesOk(pieces)
    ensures Body(PiecesText(pieces) + [QUOTE] + rest) == Some(Parsed(Units(pieces), rest))
  {
    hide OneUnit, PieceText, PieceUnit, PieceOk;
    var s := PiecesText(pieces) + [QUOTE] + rest;
    if pieces == [] {
      assert s[1..] == rest;
    } else {
      var after := PiecesText(pieces[1..]) + [QUOTE] + rest;
      assert s == PieceText(pieces[0]) + after;
      PieceIsTaken(pieces[0], after);
      PiecesAreTaken(pieces[1..], rest);
      assert Units(pieces) == [PieceUnit(pieces[0])] + Units(pieces[1..]);
    }
  }

  lemma QuotedIsTaken(pieces: seq<Piece>, rest: Text)
    requires PiecesOk(pieces)
    ensures Quoted(QuotedText(pieces) + rest) == Some(Parsed(Units(pieces), rest))
  {
    hide Body, PiecesText, PiecesOk, Units;
    var s := QuotedText(pieces) + rest;
    assert s[1..] == PiecesText(pieces) + [QUOTE] + rest;
    PiecesAreTaken(pieces, rest);
  }

  lemma MarkedTaken(mark: Text, digits: Text, rest: Text)
    requires DigitRun(digits) && (rest == [] || !IsDigit(rest[0]))
    ensures Marked(mark + digits + rest, |mark|) == |mark| + |digits|
  {
    assert (mark + digits + rest)[|mark|..] == digits + rest;
    DigitsOfRun(digits, rest);
  }

  lemma FractionTaken(fraction: Option<Text>, rest: Text)
    requires fraction.Some? ==> DigitRun(fraction.value)
    requires rest == [] || (!IsDigit(rest[0]) && rest[0] != DOT)
    ensures FractionLength(FractionText(fraction) + rest) == |FractionText(fraction)|
  {
    hide Marked, DigitRun;
    if fraction.Some? {
      MarkedTaken([0x2E], fraction.value, rest);
    } else {
      assert FractionText(fraction) + rest == rest;
    }
  }

  lemma ExponentTaken(exponent: Option<Exponent>, rest: Text)
    requires exponent.Some? ==> ExponentOk(exponent.value)
    requires Delimits(rest)
    ensures ExponentLength(ExponentText(exponent) + rest) == |ExponentText(exponent)|
  {
    hide Marked;
    if exponent.Some? {
      var e := exponent.value;
      var mark := [e.mark] + e.sign;
      assert ExponentText(exponent) + rest == mark + e.digits + rest;
      MarkedTaken(mark, e.digits, rest);
      assert e.sign == [] ==> (mark + e.digits + rest)[1] == e.digits[0];
    } else {
      assert ExponentText(exponent) + rest == rest;
    }
  }

  lemma WholeTaken(whole: Text, rest: Text)
    requires DigitRun(whole) && (whole[0] == 0x30 ==> |whole| == 1)
    requires rest == [] || !IsDigit(rest[0])
    ensures Whole(whole + rest) == |whole|
  {
    DigitsOfRun(whole, rest);
  }

  /** What may stand after the digits of the whole part, or of the fraction. */
  lemma PartsStart(n: Lexeme, rest: Text)
    requires LexemeOk(n) && Delimits(rest)
    ensures var c := ExponentText(n.exponent) + rest; c == [] || (!IsDigit(c[0]) && c[0] != DOT)
    ensures var b := FractionText(n.fraction) + (ExponentText(n.exponent) + rest); b == [] || !IsDigit(b[0])
  {
    hide DigitRun;
    var c := ExponentText(n.exponent) + rest;
    assert n.exponent.Some? ==> c[0] == n.exponent.value.mark;
    assert n.exponent.None? ==> c == rest;
    assert n.fraction.None? ==> FractionText(n.fraction) + c == c;
  }

  /** The four parts of a number in front of a rest, as the parser cuts them. */
  lemma LexemeParts(n: Lexeme, rest: Text)
    ensures var s, sign := LexemeText(n) + rest, if n.minus then 1 else 0;
            var c := ExponentText(n.exponent) + rest;
            var b := FractionText(n.fraction) + c;
            && sign + |n.whole| + |FractionText(n.fraction)| <= |s|
            && s[..sign] == (if n.minus then [MINUS] else []) && s[sign..] == n.whole + b
            && s[sign + |n.whole|..] == b && s[sign + |n.whole| + |FractionText(n.fraction)|..] == c
  {
    hide FractionText, ExponentText;
    var sign, c := if n.minus then [MINUS] else [], ExponentText(n.exponent) + rest;
    var b := FractionText(n.fraction) + c;
    Grouped(sign + n.whole + FractionText(n.fraction), ExponentText(n.exponent), rest);
    Grouped(sign + n.whole, FractionText(n.fraction), c);
    Grouped(sign, n.whole, b);
    Dropped(sign, n.whole + b);
    Dropped(sign + n.whole, b);
    Dropped(sign + n.whole + FractionText(n.fraction), c);
  }

  lemma LexemeIsTaken(n: Lexeme, rest: Text)
    requires LexemeOk(n) && Delimits(rest)
    ensures LexemeText(n) != [] && NumberLength(LexemeText(n) + rest) == |LexemeText(n)|
    ensures LexemeText(n)[0] == MINUS || IsDigit(LexemeText(n)[0])
  {
    hide Whole, FractionLength, ExponentLength, FractionText, ExponentText, ExponentOk, Delimits, DigitRun, LexemeText;
    var c := ExponentText(n.exponent) + rest;
    var b := FractionText(n.fraction) + c;
    LexemeParts(n, rest);
    PartsStart(n, rest);
    WholeTaken(n.whole, b);
    FractionTaken(n.fraction, c);
    ExponentTaken(n.exponent, rest);
    LexemeStarts(n, rest);
  }

  lemma LexemeStarts(n: Lexeme, rest: Text)
    requires LexemeOk(n)
    ensures LexemeText(n) != [] && (LexemeText(n) + rest)[0] == LexemeText(n)[0]
    ensures LexemeText(n)[0] == if n.minus then MINUS else n.whole[0]
    ensures n.whole != [] && IsDigit(n.whole[0])
    ensures |LexemeText(n)| == (if n.minus then 1 else 0) + |n.whole| + |FractionText(n.fraction)| + |ExponentText(n.exponent)|
  {
    hide FractionText, ExponentText, ExponentOk;
  }

  lemma Dropped(a: Text, b: Text)
    ensures (a + b)[|a|..] == b
  {
  }

  /** The first unit of a tree decides its case of the parser, and is neither blank nor closing. */
  lemma LayoutStarts(t: Tree, v: Json, read: Reading)
    requires Spells(t, v, read)
    ensures Layout(t) != [] && !IsSpace(Layout(t)[0]) && Layout(t)[0] != CLOSE_ARRAY
  {
    hide ItemsSpell, FieldsSpell, ItemsText, FieldsText, LexemeOk, LexemeText, PiecesText;
    if t.Digits? {
      LexemeIsTaken(t.lexeme, []);
    }
  }

  lemma ScalarIsTaken(t: Tree, v: Json, rest: Text, read: Reading)
    requires Spells(t, v, read) && !t.List? && !t.Table?
    requires t.Digits? ==> Delimits(rest)
    ensures Value(Layout(t) + rest, read) == Some(Parsed(v, rest))
  {
    hide NumberLength, Quoted, LexemeOk, LexemeText, Units, PiecesOk, Delimits;
    LayoutStarts(t, v, read);
    var s := Layout(t) + rest;
    assert Skip(s) == s && s[|Layout(t)|..] == rest && s[..|Layout(t)|] == Layout(t);
    if t.Digits? {
      LexemeIsTaken(t.lexeme, rest);
    } else if t.Quote? {
      QuotedIsTaken(t.pieces, rest);
    }
  }

  /** A tree laid out after whitespace parses to the value it spells, and leaves what follows. */
  lemma {:induction false} TreeIsTaken(pad: Text, t: Tree, v: Json, rest: Text, read: Reading)
    requires Blank(pad) && Spells(t, v, read)
    requires t.Digits? ==> Delimits(rest)
    ensures Value(pad + Layout(t) + rest, read) == Some(Parsed(v, rest))
    decreases t
  {
    hide Items, Members, Spells, Layout, Quoted, NumberLength;
    SkipPad(pad, Layout(t) + rest);
    assert pad + Layout(t) + rest == pad + (Layout(t) + rest);
    assert Value(pad + Layout(t) + rest, read) == Value(Layout(t) + rest, read) by {
      LayoutStarts(t, v, read);
      assert Skip(Layout(t) + rest) == Layout(t) + rest;
    }
    if t.List? {
      ListIsTaken(t, v, rest, read);
    } else if t.Table? {
      TableIsTaken(t, v, rest, read);
    } else {
      ScalarIsTaken(t, v, rest, read);
    }
  }

  lemma {:induction false} ListIsTaken(t: Tree, v: Json, rest: Text, read: Reading)
    requires Spells(t, v, read) && t.List?
    ensures Value(Layout(t) + rest, read) == Some(Parsed(v, rest))
    decreases t, 0
  {
    hide Items, ItemsText;
    var s := Layout(t) + rest;
    if t.items == [] {
      assert ItemsText([]) == [] by { NothingLaidOut(read); }
      assert s[1..] == t.gap + ([CLOSE_ARRAY] + rest);
      SkipPad(t.gap, [CLOSE_ARRAY] + rest);
      assert Skip([CLOSE_ARRAY] + rest) == [CLOSE_ARRAY] + rest && ([CLOSE_ARRAY] + rest)[1..] == rest;
    } else {
      var body := ItemsText(t.items) + [CLOSE_ARRAY] + rest;
      assert s[1..] == body;
      ItemsOpen(t.items, v.items, [CLOSE_ARRAY] + rest, read);
      assert body == ItemsText(t.items) + ([CLOSE_ARRAY] + rest);
      ItemsAreTaken(t.items, v.items, rest, read);
    }
  }

  /** A list with items does not close at once. */
  lemma ItemsOpen(items: seq<Item>, values: seq<Json>, rest: Text, read: Reading)
    requires items != [] && ItemsSpell(items, values, read)
    ensures !Starts(Skip(ItemsText(items) + rest), CLOSE_ARRAY)
  {
    hide Layout, Spells;
    var item := items[0];
    assert ItemSpells(item, values[0], read);
    LayoutStarts(item.tree, values[0], read);
    ItemsGrouped(items, rest);
    var tail := item.after + (if |items| == 1 then rest else [COMMA] + (ItemsText(items[1..]) + rest));
    assert item.before + Layout(item.tree) + tail == item.before + (Layout(item.tree) + tail);
    SkipPad(item.before, Layout(item.tree) + tail);
  }

  lemma AfterValue(after: Text, next: Unit, rest: Text)
    requires Blank(after) && next in {COMMA, CLOSE_ARRAY, CLOSE_OBJECT}
    ensures Delimits(after + ([next] + rest)) && Skip(after + ([next] + rest)) == [next] + rest && ([next] + rest)[1..] == rest
  {
    SkipPad(after, [next] + rest);
  }

  lemma {:induction false} ItemsAreTaken(items: seq<Item>, values: seq<Json>, rest: Text, read: Reading)
    requires items != [] && ItemsSpell(items, values, read)
    ensures Items(ItemsText(items) + [CLOSE_ARRAY] + rest, read) == Some(Parsed(values, rest))
    decreases items
  {
    hide Value, Spells, Layout, Delimits, ItemsText, Blank, Skip;
    var item := items[0];
    assert ItemSpells(item, values[0], read);
    ItemsGrouped(items, [CLOSE_ARRAY] + rest);
    Grouped(ItemsText(items), [CLOSE_ARRAY], rest);
    if |items| == 1 {
      AfterValue(item.after, CLOSE_ARRAY, rest);
      TreeIsTaken(item.before, item.tree, values[0], item.after + ([CLOSE_ARRAY] + rest), read);
      assert [values[0]] == values;
    } else {
      var more := ItemsText(items[1..]) + [CLOSE_ARRAY] + rest;
      Grouped(ItemsText(items[1..]), [CLOSE_ARRAY], rest);
      AfterValue(item.after, COMMA, more);
      TreeIsTaken(item.before, item.tree, values[0], item.after + ([COMMA] + more), read);
      assert ItemsSpell(items[1..], values[1..], read);
      ItemsAreTaken(items[1..], values[1..], rest, read);
      assert [values[0]] + values[1..] == values;
    }
  }

  lemma {:induction false} TableIsTaken(t: Tree, v: Json, rest: Text, read: Reading)
    requires Spells(t, v, read) && t.Table?
    ensures Value(Layout(t) + rest, read) == Some(Parsed(v, rest))
    decreases t, 0
  {
    hide Members, FieldsText;
    var s := Layout(t) + rest;
    if t.fields == [] {
      assert FieldsText([]) == [] by { NothingLaidOut(read); }
      assert s[1..] == t.gap + ([CLOSE_OBJECT] + rest);
      SkipPad(t.gap, [CLOSE_OBJECT] + rest);
      assert Skip([CLOSE_OBJECT] + rest) == [CLOSE_OBJECT] + rest && ([CLOSE_OBJECT] + rest)[1..] == rest;
    } else {
      var body := FieldsText(t.fields) + [CLOSE_OBJECT] + rest;
      assert s[1..] == body;
      FieldsOpen(t.fields, v.members, [CLOSE_OBJECT] + rest, read);
      assert body == FieldsText(t.fields) + ([CLOSE_OBJECT] + rest);
      FieldsAreTaken(t.fields, v.members, [], rest, read);
    }
  }

  lemma FieldsOpen(fields: seq<Field>, members: seq<Member>, rest: Text, read: Reading)
    requires fields != [] && FieldsSpell(fields, members, read)
    ensures !Starts(Skip(FieldsText(fields) + rest), CLOSE_OBJECT)
  {
    hide ItemText, ItemSpells, PiecesText, Units, PiecesOk, FieldsText, Layout;
    var f := fields[0];
    assert FieldSpells(f, members[0], read);
    FieldsGrouped(fields, rest);
    var last := if |fields| == 1 then rest else [COMMA] + (FieldsText(fields[1..]) + rest);
    var value := f.item.before + Layout(f.item.tree) + (f.item.after + last);
    var tail := QuotedText(f.key) + (f.after + ([COLON] + value));
    Regroup(f.before, QuotedText(f.key), f.after, [COLON], value);
    SkipPad(f.before, tail);
    assert tail[0] == QUOTE;
  }

  lemma KeyIsTaken(before: Text, key: seq<Piece>, after: Text, rest: Text)
    requires Blank(before) && Blank(after) && PiecesOk(key)
    ensures Key(before + QuotedText(key) + after + [COLON] + rest) == Some(Parsed(Units(key), rest))
  {
    hide Quoted, PiecesText, PiecesOk, Units;
    var tail := after + ([COLON] + rest);
    assert before + QuotedText(key) + after + [COLON] + rest == before + (QuotedText(key) + tail);
    SkipPad(before, QuotedText(key) + tail);
    QuotedIsTaken(key, tail);
    SkipPad(after, [COLON] + rest);
    assert ([COLON] + rest)[1..] == rest;
  }

  lemma {:induction false} FieldsAreTaken(
    fields: seq<Field>, members: seq<Member>, taken: seq<Text>, rest: Text, read: Reading)
    requires fields != [] && FieldsSpell(fields, members, read) && NoRepeat(members)
    requires forall i :: 0 <= i < |members| ==> members[i].key !in taken
    ensures Members(FieldsText(fields) + [CLOSE_OBJECT] + rest, taken, read) == Some(Parsed(members, rest))
    decreases fields
  {
    hide Value, Key, Spells, Layout, Delimits, QuotedText, Units, PiecesOk, FieldsText, Blank;
    var f, m := fields[0], members[0];
    assert FieldSpells(f, m, read) && ItemSpells(f.item, m.value, read);
    var value := f.item.before + Layout(f.item.tree);
    FieldsGrouped(fields, [CLOSE_OBJECT] + rest);
    Grouped(FieldsText(fields), [CLOSE_OBJECT], rest);
    if |fields| == 1 {
      var next := f.item.after + ([CLOSE_OBJECT] + rest);
      KeyIsTaken(f.before, f.key, f.after, value + next);
      AfterValue(f.item.after, CLOSE_OBJECT, rest);
      TreeIsTaken(f.item.before, f.item.tree, m.value, next, read);
      assert [Member(m.key, m.value)] == members;
    } else {
      var more := FieldsText(fields[1..]) + [CLOSE_OBJECT] + rest;
      Grouped(FieldsText(fields[1..]), [CLOSE_OBJECT], rest);
      var next := f.item.after + ([COMMA] + more);
      KeyIsTaken(f.before, f.key, f.after, value + next);
      AfterValue(f.item.after, COMMA, more);
      TreeIsTaken(f.item.before, f.item.tree, m.value, next, read);
      assert FieldsSpell(fields[1..], members[1..], read);
      FieldsAreTaken(fields[1..], members[1..], taken + [m.key], rest, read);
      assert [Member(m.key, m.value)] + members[1..] == members;
    }
  }

  // --- the canonical escape ---------------------------------------------------------------------------------

  ghost predicate UpperCase(c: Unit) {
    0x41 <= c <= 0x46
  }

  /** No upper-case hexadecimal digit. */
  ghost predicate LowerCase(p: Piece) {
    p.Hex? ==> !UpperCase(p.a) && !UpperCase(p.b) && !UpperCase(p.c) && !UpperCase(p.d)
  }

  lemma LowerDigit(c: Unit)
    requires Hexadecimal(c) && !UpperCase(c)
    ensures HexValue(c) < 16 && c == HexLetter(HexValue(c))
  {
  }

  /**
   The printer writes a unit as the shortest of its spellings (RFC 8785 section 3.2.2.2), and
   where only hexadecimal escapes are left, as the one in lower case.
   */
  lemma ShortestEscape(c: Unit, p: Piece)
    requires PieceOk(p) && PieceUnit(p) == c
    ensures |WriteUnit(c)| <= |PieceText(p)|
    ensures |WriteUnit(c)| == |PieceText(p)| && LowerCase(p) ==> WriteUnit(c) == PieceText(p)
  {
    if p.Hex? && LowerCase(p) && c < 0x20 {
      hide Hexadecimal, HexValue;
      LowerDigit(p.a);
      LowerDigit(p.b);
      LowerDigit(p.c);
      LowerDigit(p.d);
      assert HexValue(p.a) == 0 && HexValue(p.b) == 0 && HexValue(p.c) == c / 16 && HexValue(p.d) == c % 16;
    }
  }

  // --- documents ------------------------------------------------------------------------------------------

  /** The text is whitespace and one tree that spells the value, to its end. */
  ghost predicate LaidOut(text: Text, pad: Text, t: Tree, v: Json, read: Reading) {
    Blank(pad) && Spells(t, v, read) && text == pad + Layout(t)
  }

  /**
   A text is accepted as a value exactly when some tree of the grammar that spells the value
   lays it out, to its last unit: whitespace may stand before the value and between its
   tokens, and nothing may follow it.
   */
  lemma DocumentIff(text: Text, v: Json, read: Reading)
    ensures Document(text, read) == Some(v) <==> exists pad, t :: LaidOut(text, pad, t, v, read)
  {
    hide Value, Spells, Layout, Blank;
    if Document(text, read) == Some(v) {
      var pad, t := ValueIsTree(text, read);
      assert LaidOut(text, pad, t, v, read);
    }
    if pad, t :| LaidOut(text, pad, t, v, read) {
      TreeIsTaken(pad, t, v, [], read);
      assert text == pad + Layout(t) + [];
    }
  }

  /** The grammar is unambiguous: whatever trees lay a text out, they spell one value. */
  lemma OneMeaning(text: Text, p: Text, t: Tree, v: Json, q: Text, u: Tree, w: Json, read: Reading)
    requires LaidOut(text, p, t, v, read) && LaidOut(text, q, u, w, read)
    ensures v == w
  {
    hide LaidOut, Document;
    DocumentIff(text, v, read);
    DocumentIff(text, w, read);
  }
}
