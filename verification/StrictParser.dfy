/**
 The parser as the source runs it: closures over one shared index, which loops
 advance and which never moves back. Each method is proved to compute the grammar of
 `StrictJson` on what was left of the text, so everything proved there holds of it.
 A thrown refusal is `None`.
 */
module StrictParsers {
  import opened Wrappers
  import opened StrictJson

  /** A method's result and what it left of the text are what the grammar says. */
  ghost predicate Agrees<T>(spec: Option<Parsed<T>>, r: Option<T>, left: Text) {
    match spec
    case None => r.None?
    case Some(p) => r == Some(p.value) && left == p.rest
  }

  /** A loop that has gathered `out` still has to yield what the whole grammar yields. */
  ghost predicate Gathers<T>(whole: Option<Parsed<seq<T>>>, out: seq<T>, ahead: Option<Parsed<seq<T>>>) {
    match ahead
    case None => whole.None?
    case Some(p) => whole == Some(Parsed(out + p.value, p.rest))
  }

  lemma {:induction false} SkipTwice(s: Text)
    ensures Skip(Skip(s)) == Skip(s)
  {
    if s != [] && IsSpace(s[0]) {
      SkipTwice(s[1..]);
    }
  }

  /** Whitespace in front of a value or of a key is skipped again. */
  lemma SkippedFirst(s: Text, taken: seq<Text>, read: Reading)
    ensures Items(Skip(s), read) == Items(s, read)
    ensures Members(Skip(s), taken, read) == Members(s, taken, read)
  {
    hide Skip;
    SkipTwice(s);
    assert Value(Skip(s), read) == Value(s, read);
    assert Key(Skip(s)) == Key(s);
  }

  lemma GathersNothing<T>(spec: Option<Parsed<seq<T>>>)
    ensures Gathers(spec, [], spec)
  {
    if spec.Some? {
      assert [] + spec.value.value == spec.value.value;
    }
  }

  lemma GathersMore<T>(
    whole: Option<Parsed<seq<T>>>, out: seq<T>, ahead: Option<Parsed<seq<T>>>, one: T, next: Option<Parsed<seq<T>>>)
    requires Gathers(whole, out, ahead)
    requires ahead == match next case None => None case Some(p) => Some(Parsed([one] + p.value, p.rest))
    ensures Gathers(whole, out + [one], next)
  {
    if next.Some? {
      assert out + ([one] + next.value.value) == out + [one] + next.value.value;
    }
  }

  /** One round of the loop of `parseString`. */
  lemma BodyStep(whole: Option<Parsed<Text>>, out: Text, s: Text)
    requires Gathers(whole, out, Body(s))
    ensures Starts(s, QUOTE) ==> whole == Some(Parsed(out, s[1..]))
    ensures !Starts(s, QUOTE) && OneUnit(s).None? ==> whole.None?
    ensures !Starts(s, QUOTE) && OneUnit(s).Some? ==>
              Gathers(whole, out + [OneUnit(s).value.value], Body(OneUnit(s).value.rest))
  {
    hide OneUnit;
    if Starts(s, QUOTE) {
      assert out + [] == out;
    } else if OneUnit(s).Some? {
      var one := OneUnit(s).value;
      GathersMore(whole, out, Body(s), one.value, Body(one.rest));
    }
  }

  /** One round of the loop of `parseArray`: an item, then a comma or the closing bracket. */
  lemma ItemsStep(whole: Option<Parsed<seq<Json>>>, out: seq<Json>, s: Text, read: Reading)
    requires Gathers(whole, out, Items(s, read))
    ensures Value(s, read).None? ==> whole.None?
    ensures Value(s, read).Some? ==>
              var first := Value(s, read).value;
              var t := Skip(first.rest);
              && (Starts(t, COMMA) ==> Gathers(whole, out + [first.value], Items(t[1..], read)))
              && (Starts(t, CLOSE_ARRAY) ==> whole == Some(Parsed(out + [first.value], t[1..])))
              && (!Starts(t, COMMA) && !Starts(t, CLOSE_ARRAY) ==> whole.None?)
  {
    hide Value;
    if Value(s, read).Some? {
      var first := Value(s, read).value;
      var t := Skip(first.rest);
      if Starts(t, COMMA) {
        GathersMore(whole, out, Items(s, read), first.value, Items(t[1..], read));
      }
    }
  }

  /** One round of the loop of `parseObject`, from a key to the comma or the closing brace. */
  lemma MembersStep(whole: Option<Parsed<seq<Member>>>, out: seq<Member>, s: Text, read: Reading)
    requires Gathers(whole, out, Members(s, Keys(out), read))
    ensures Key(s).None? || Key(s).value.value in Keys(out) || Value(Key(s).value.rest, read).None? ==> whole.None?
    ensures Key(s).Some? && Key(s).value.value !in Keys(out) && Value(Key(s).value.rest, read).Some? ==>
              var value := Value(Key(s).value.rest, read).value;
              var t, member := Skip(value.rest), Member(Key(s).value.value, value.value);
              && (Starts(t, COMMA) ==> Gathers(whole, out + [member], Members(t[1..], Keys(out + [member]), read)))
              && (Starts(t, CLOSE_OBJECT) ==> whole == Some(Parsed(out + [member], t[1..])))
              && (!Starts(t, COMMA) && !Starts(t, CLOSE_OBJECT) ==> whole.None?)
  {
    hide Value, Key;
    if Key(s).Some? && Key(s).value.value !in Keys(out) && Value(Key(s).value.rest, read).Some? {
      var key := Key(s).value.value;
      var value := Value(Key(s).value.rest, read).value;
      var t, member := Skip(value.rest), Member(key, value.value);
      assert Keys(out + [member]) == Keys(out) + [key];
      if Starts(t, COMMA) {
        GathersMore(whole, out, Members(s, Keys(out), read), member, Members(t[1..], Keys(out + [member]), read));
      }
    }
  }

  lemma NoUnit(s: Text)
    requires s == []
    ensures OneUnit(s).None? && !Starts(s, QUOTE)
  {
  }

  lemma PlainUnit(s: Text)
    requires s != [] && s[0] != QUOTE && s[0] != BACKSLASH
    ensures OneUnit(s) == if s[0] < 0x20 then None else Some(Parsed(s[0], s[1..]))
  {
  }

  lemma KeyIs(s: Text)
    ensures Key(s) == match Quoted(Skip(s))
                      case None => None
                      case Some(key) =>
                        if Starts(Skip(key.rest), COLON) then Some(Parsed(key.value, Skip(key.rest)[1..])) else None
  {
    hide Quoted, Skip;
  }

  lemma NoKeys()
    ensures Keys([]) == []
  {
  }

  /** What the grammar makes of a bracket: nothing inside, or the loop. */
  lemma ArrayIs(s: Text, read: Reading)
    requires Starts(s, OPEN_ARRAY)
    ensures Value(s, read) ==
      if Starts(Skip(s[1..]), CLOSE_ARRAY) then Some(Parsed(Array([]), Skip(s[1..])[1..]))
      else match Items(s[1..], read)
        case None => None
        case Some(p) => Some(Parsed(Array(p.value), p.rest))
  {
    hide Items;
    assert Skip(s) == s;
  }

  lemma ObjectIs(s: Text, read: Reading)
    requires Starts(s, OPEN_OBJECT)
    ensures Value(s, read) ==
      if Starts(Skip(s[1..]), CLOSE_OBJECT) then Some(Parsed(Object([]), Skip(s[1..])[1..]))
      else match Members(s[1..], [], read)
        case None => None
        case Some(p) => Some(Parsed(Object(p.value), p.rest))
  {
    hide Members;
    assert Skip(s) == s;
  }

  class StrictParser {
    const text: Text
    const read: Reading
    var index: nat

    ghost predicate Valid()
      reads this
    {
      index <= |text|
    }

    ghost function Left(): Text
      requires Valid()
      reads this
    {
      text[index..]
    }

    constructor (text: Text, read: Reading)
      ensures Valid() && Left() == text && this.text == text && this.read == read
    {
      this.text := text;
      this.read := read;
      index := 0;
    }

    method SkipWhitespace()
      requires Valid()
      modifies this`index
      ensures Valid() && Left() == Skip(old(Left())) && index >= old(index)
    {
      while index < |text| && IsSpace(text[index])
        invariant Valid() && old(index) <= index && Skip(Left()) == Skip(old(Left()))
      {
        assert text[index..][1..] == text[index + 1..];
        index := index + 1;
      }
    }

    /** The unit at the index, if there is one. */
    function At(c: Unit): (r: bool)
      requires Valid()
      reads this
      ensures r <==> Starts(Left(), c)
    {
      index < |text| && text[index] == c
    }

    method Expect(word: Text, value: Json) returns (r: Option<Json>)
      requires Valid() && word != []
      modifies this`index
      ensures Valid() && Agrees(Word(old(Left()), word, value), r, Left())
    {
      if index + |word| > |text| || text[index..index + |word|] != word { return None; }
      assert text[index..][..|word|] == word && text[index..][|word|..] == text[index + |word|..];
      index := index + |word|;
      r := Some(value);
    }

    /** One escape, the index just after its backslash. */
    method ParseEscape() returns (r: Option<Unit>)
      requires Valid() && index > 0 && text[index - 1] == BACKSLASH
      modifies this`index
      ensures Valid() && Agrees(OneUnit(old(text[index - 1..])), r, Left())
    {
      ghost var s := text[index - 1..];
      if index >= |text| { return None; }
      var escape := text[index];
      assert s[1] == escape;
      index := index + 1;
      if escape == LOWER_U {
        assert s[2..] == text[index..];
        r := HexUnit(text[index..]);
        if r.Some? {
          assert s[6..] == text[index + 4..];
          index := index + 4;
        }
      } else {
        assert s[2..] == text[index..];
        r := Unescaped(escape);
      }
    }

    method ParseString() returns (r: Option<Text>)
      requires Valid()
      modifies this`index
      ensures Valid() && Agrees(Quoted(old(Left())), r, Left())
    {
      hide Body, OneUnit, Gathers;
      if !At(QUOTE) { return None; }
      assert text[index..][1..] == text[index + 1..];
      index := index + 1;
      ghost var whole := Body(Left());
      GathersNothing(whole);
      var out: Text := [];
      while true
        invariant Valid() && old(index) < index && whole == old(Body(text[index + 1..]))
        invariant Gathers(whole, out, Body(Left()))
        decreases |text| - index
      {
        ghost var s := Left();
        BodyStep(whole, out, s);
        if index >= |text| {
          NoUnit(s);
          return None;
        }
        var c := text[index];
        assert c == s[0] && s[1..] == text[index + 1..];
        index := index + 1;
        if c == QUOTE { return Some(out); }
        var unit: Option<Unit>;
        if c == BACKSLASH {
          unit := ParseEscape();
        } else {
          PlainUnit(s);
          unit := if c < 0x20 then None else Some(c);
        }
        if unit.None? { return None; }
        out := out + [unit.value];
      }
    }

    method ParseNumber() returns (r: Option<Json>)
      requires Valid()
      modifies this`index
      ensures Valid() && Agrees(Numeral(old(Left()), read), r, Left())
    {
      var n := NumberLength(text[index..]);
      if n == 0 { return None; }
      var number := read(text[index..][..n]);
      assert text[index..][n..] == text[index + n..];
      index := index + n;
      r := if number.None? then None else Some(Number(number.value));
    }

    method ParseArray() returns (r: Option<Json>)
      requires Valid() && At(OPEN_ARRAY)
      modifies this`index
      ensures Valid() && Agrees(Value(old(Left()), read), r, Left())
      decreases |text| - index, 1
    {
      hide Value, Items, Members, Skip;
      ArrayIs(Left(), read);
      assert text[index..][1..] == text[index + 1..];
      index := index + 1;
      SkippedFirst(Left(), [], read);
      SkipWhitespace();
      if At(CLOSE_ARRAY) {
        assert text[index..][1..] == text[index + 1..];
        index := index + 1;
        return Some(Array([]));
      }
      var items := ParseItems();
      r := if items.None? then None else Some(Array(items.value));
    }

    /** The loop of `parseArray`. */
    method ParseItems() returns (r: Option<seq<Json>>)
      requires Valid()
      modifies this`index
      ensures Valid() && Agrees(Items(old(Left()), read), r, Left())
      decreases |text| - index, 3
    {
      hide Value, Items, Members, Gathers, Skip;
      ghost var whole := Items(Left(), read);
      GathersNothing(whole);
      var out: seq<Json> := [];
      while true
        invariant Valid() && old(index) <= index
        invariant Gathers(whole, out, Items(Left(), read))
        decreases |text| - index
      {
        ItemsStep(whole, out, Left(), read);
        var value := ParseValue();
        if value.None? { return None; }
        SkipWhitespace();
        out := out + [value.value];
        assert index < |text| ==> text[index..][1..] == text[index + 1..];
        if At(COMMA) {
          index := index + 1;
        } else if At(CLOSE_ARRAY) {
          index := index + 1;
          return Some(out);
        } else {
          return None;
        }
      }
    }

    /** A key and its colon. */
    method ParseKey() returns (r: Option<Text>)
      requires Valid()
      modifies this`index
      ensures Valid() && Agrees(Key(old(Left())), r, Left())
    {
      hide Key, Quoted, Skip;
      KeyIs(Left());
      SkipWhitespace();
      r := ParseString();
      if r.None? { return None; }
      SkipWhitespace();
      if !At(COLON) { return None; }
      assert text[index..][1..] == text[index + 1..];
      index := index + 1;
    }

    method ParseObject() returns (r: Option<Json>)
      requires Valid() && At(OPEN_OBJECT)
      modifies this`index
      ensures Valid() && Agrees(Value(old(Left()), read), r, Left())
      decreases |text| - index, 1
    {
      hide Value, Items, Members, Skip;
      ObjectIs(Left(), read);
      assert text[index..][1..] == text[index + 1..];
      index := index + 1;
      SkippedFirst(Left(), [], read);
      SkipWhitespace();
      if At(CLOSE_OBJECT) {
        assert text[index..][1..] == text[index + 1..];
        index := index + 1;
        return Some(Object([]));
      }
      var members := ParseMembers();
      r := if members.None? then None else Some(Object(members.value));
    }

    /** The loop of `parseObject`. */
    method ParseMembers() returns (r: Option<seq<Member>>)
      requires Valid()
      modifies this`index
      ensures Valid() && Agrees(Members(old(Left()), [], read), r, Left())
      decreases |text| - index, 3
    {
      hide Value, Items, Members, Gathers, Skip, Key, Keys;
      ghost var whole := Members(Left(), [], read);
      GathersNothing(whole);
      NoKeys();
      var out: seq<Member> := [];
      while true
        invariant Valid() && old(index) <= index
        invariant Gathers(whole, out, Members(Left(), Keys(out), read))
        decreases |text| - index
      {
        MembersStep(whole, out, Left(), read);
        var key := ParseKey();
        if key.None? || key.value in Keys(out) { return None; }
        var value := ParseValue();
        if value.None? { return None; }
        SkipWhitespace();
        out := out + [Member(key.value, value.value)];
        assert index < |text| ==> text[index..][1..] == text[index + 1..];
        if At(COMMA) {
          index := index + 1;
        } else if At(CLOSE_OBJECT) {
          index := index + 1;
          return Some(out);
        } else {
          return None;
        }
      }
    }

    method ParseValue() returns (r: Option<Json>)
      requires Valid()
      modifies this`index
      ensures Valid() && Agrees(Value(old(Left()), read), r, Left())
      decreases |text| - index, 2
    {
      SkipTwice(Left());
      SkipWhitespace();
      if index >= |text| { return None; }
      var c := text[index];
      if c == OPEN_OBJECT {
        r := ParseObject();
      } else if c == OPEN_ARRAY {
        r := ParseArray();
      } else if c == QUOTE {
        var s := ParseString();
        r := if s.None? then None else Some(String(s.value));
      } else if c == TRUE[0] {
        r := Expect(TRUE, Bool(true));
      } else if c == FALSE[0] {
        r := Expect(FALSE, Bool(false));
      } else if c == NULL[0] {
        r := Expect(NULL, Null);
      } else if c == MINUS || IsDigit(c) {
        r := ParseNumber();
      } else {
        r := None;
      }
    }
  }

  /** `parseStrictJson`. */
  method ParseStrictJson(text: Text, read: Reading) returns (r: Option<Json>)
    ensures r == Document(text, read)
  {
    var parser := new StrictParser(text, read);
    r := parser.ParseValue();
    if parser.index != |text| { r := None; }
  }
}
