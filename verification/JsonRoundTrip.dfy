/**
 What the strict parser accepts: it undoes the printer on every value whose objects
 repeat no key, at any depth, and refuses every text that repeats one or goes on
 after its value.
 */
module JsonRoundTrip {
  import opened Wrappers
  import opened Decimals
  import opened StrictJson

  // --- meaning of a value ---------------------------------------------------------------------

  ghost predicate Safe(n: int) {
    -MAX_SAFE_INTEGER <= n <= MAX_SAFE_INTEGER
  }

  /** `Number` reads the decimal form of every safe integer as that integer. */
  ghost predicate Lawful(read: Reading) {
    forall n :: Safe(n) ==> read(WriteInteger(n)) == Some(Integer(n))
  }

  /** Every number of the value is a safe integer. */
  ghost predicate Integral(v: Json) {
    match v
    case Number(number) => number.Integer? && Safe(number.n)
    case Array(items) => forall i :: 0 <= i < |items| ==> Integral(items[i])
    case Object(members) => forall i :: 0 <= i < |members| ==> Integral(members[i].value)
    case _ => true
  }

  /** The number's own text is a number the reading takes back. */
  ghost predicate Read(number: Numeric, read: Reading) {
    && WriteNumber(number) != [] && NumberLength(WriteNumber(number)) == |WriteNumber(number)|
    && read(WriteNumber(number)) == Some(number)
  }

  /** Every number of the value reads back as itself. */
  ghost predicate Faithful(v: Json, read: Reading) {
    match v
    case Number(number) => Read(number, read)
    case Array(items) => forall i :: 0 <= i < |items| ==> Faithful(items[i], read)
    case Object(members) => forall i :: 0 <= i < |members| ==> Faithful(members[i].value, read)
    case _ => true
  }

  ghost predicate NoRepeat(members: seq<Member>) {
    forall i, j :: 0 <= i < j < |members| ==> members[i].key != members[j].key
  }

  /** No object of the value, at any depth, repeats a key. */
  ghost predicate DistinctKeys(v: Json) {
    match v
    case Array(items) => forall i :: 0 <= i < |items| ==> DistinctKeys(items[i])
    case Object(members) =>
      NoRepeat(members) && forall i :: 0 <= i < |members| ==> DistinctKeys(members[i].value)
    case _ => true
  }

  ghost predicate AllDistinct(items: seq<Json>) {
    forall i :: 0 <= i < |items| ==> DistinctKeys(items[i])
  }

  ghost predicate MembersDistinct(members: seq<Member>, taken: seq<Text>) {
    && NoRepeat(members)
    && (forall i :: 0 <= i < |members| ==> DistinctKeys(members[i].value))
    && (forall i :: 0 <= i < |members| ==> members[i].key !in taken)
  }

  // --- strings ----------------------------------------------------------------------------------

  lemma OneUnitOfWrite(c: Unit, rest: Text)
    ensures OneUnit(WriteUnit(c) + rest) == Some(Parsed(c, rest))
    ensures !Starts(WriteUnit(c) + rest, QUOTE)
  {
    var s := WriteUnit(c) + rest;
    if EscapeLetter(c).Some? {
      assert s[2..] == rest;
    } else if c < 0x20 {
      assert s[2..] == [ZERO, ZERO, HexLetter(c / 16), HexLetter(c % 16)] + rest;
      assert s[6..] == rest;
    } else {
      assert s[1..] == rest;
    }
  }

  lemma {:induction false} BodyOfWrite(s: Text, rest: Text)
    ensures Body(WriteUnits(s) + [QUOTE] + rest) == Some(Parsed(s, rest))
  {
    hide OneUnit, WriteUnit;
    var t := WriteUnits(s) + [QUOTE] + rest;
    if s == [] {
      assert t[1..] == rest;
    } else {
      var after := WriteUnits(s[1..]) + [QUOTE] + rest;
      assert t == WriteUnit(s[0]) + after;
      OneUnitOfWrite(s[0], after);
      BodyOfWrite(s[1..], rest);
      assert [s[0]] + s[1..] == s;
    }
  }

  lemma QuotedOfWrite(s: Text, rest: Text)
    ensures Quoted(WriteString(s) + rest) == Some(Parsed(s, rest))
  {
    hide Body, WriteUnits;
    var t := WriteString(s) + rest;
    assert t[1..] == WriteUnits(s) + [QUOTE] + rest;
    BodyOfWrite(s, rest);
  }

  // --- numbers -----------------------------------------------------------------------------------

  /** What may follow a number without becoming part of it. */
  ghost predicate Delimits(rest: Text) {
    rest == [] || !(IsDigit(rest[0]) || rest[0] == DOT || rest[0] == 0x65 || rest[0] == 0x45)
  }

  lemma {:induction false} DigitsOfRun(run: Text, rest: Text)
    requires forall i :: 0 <= i < |run| ==> IsDigit(run[i])
    requires rest == [] || !IsDigit(rest[0])
    ensures Digits(run + rest) == |run|
  {
    if run == [] {
      assert run + rest == rest;
    } else {
      assert (run + rest)[1..] == run[1..] + rest;
      DigitsOfRun(run[1..], rest);
    }
  }

  lemma {:induction false} DecimalShape(n: nat)
    ensures forall i :: 0 <= i < |Decimal(n)| ==> IsDigit(Decimal(n)[i])
    ensures Decimal(n)[0] == ZERO ==> n == 0
    ensures |Decimal(n)| == 1 <==> n < 10
  {
    if n >= 10 {
      DecimalShape(n / 10);
    }
  }

  lemma {:induction false} DigitsThen(s: Text, rest: Text)
    requires rest == [] || !IsDigit(rest[0])
    ensures Digits(s + rest) == Digits(s)
  {
    if s == [] {
      assert s + rest == rest;
    } else {
      assert (s + rest)[1..] == s[1..] + rest;
      DigitsThen(s[1..], rest);
    }
  }

  lemma MarkedThen(s: Text, mark: nat, rest: Text)
    requires mark <= |s| && Delimits(rest)
    ensures Marked(s + rest, mark) == Marked(s, mark)
  {
    assert (s + rest)[mark..] == s[mark..] + rest;
    DigitsThen(s[mark..], rest);
  }

  lemma FractionThen(s: Text, rest: Text)
    requires Delimits(rest)
    ensures FractionLength(s + rest) == FractionLength(s)
  {
    if Starts(s, DOT) {
      MarkedThen(s, 1, rest);
    }
  }

  /** The exponent of a text that is all exponent, or has none. */
  lemma ExponentThen(s: Text, rest: Text)
    requires Delimits(rest) && ExponentLength(s) == |s|
    ensures ExponentLength(s + rest) == |s|
  {
    hide Marked;
    if s != [] {
      var mark := if |s| > 1 && (s[1] == 0x2B || s[1] == MINUS) then 2 else 1;
      MarkedThen(s, mark, rest);
      MarkedBound(s, mark);
    }
  }

  lemma MarkedBound(s: Text, mark: nat)
    requires mark <= |s|
    ensures Marked(s, mark) > 0 ==> Marked(s, mark) > mark
  {
  }

  lemma WholeThen(s: Text, rest: Text)
    requires Delimits(rest)
    ensures Whole(s + rest) == Whole(s)
  {
    DigitsThen(s, rest);
    if s == [] {
      assert s + rest == rest;
    }
  }

  /** A text that is all number stays the longest number when a delimiter follows. */
  lemma NumberThen(s: Text, rest: Text)
    requires Delimits(rest) && s != [] && NumberLength(s) == |s|
    ensures NumberLength(s + rest) == |s|
    ensures Starts(s, MINUS) || IsDigit(s[0])
  {
    hide Whole, FractionLength, ExponentLength, Delimits;
    var t := s + rest;
    var sign := if Starts(s, MINUS) then 1 else 0;
    assert t[sign..] == s[sign..] + rest;
    WholeThen(s[sign..], rest);
    WholeStarts(s[sign..]);
    var whole := sign + Whole(s[sign..]);
    assert t[whole..] == s[whole..] + rest;
    FractionThen(s[whole..], rest);
    var fraction := whole + FractionLength(s[whole..]);
    assert t[fraction..] == s[fraction..] + rest;
    ExponentThen(s[fraction..], rest);
  }

  lemma WholeStarts(s: Text)
    ensures Whole(s) > 0 ==> IsDigit(s[0])
  {
  }

  lemma NumeralOfWrite(number: Numeric, rest: Text, read: Reading)
    requires Delimits(rest) && Read(number, read)
    ensures Numeral(WriteNumber(number) + rest, read) == Some(Parsed(Number(number), rest))
    ensures WriteNumber(number) != []
    ensures WriteNumber(number)[0] == MINUS || IsDigit(WriteNumber(number)[0])
  {
    hide NumberLength, WriteNumber;
    var s := WriteNumber(number) + rest;
    NumberThen(WriteNumber(number), rest);
    assert s[..|WriteNumber(number)|] == WriteNumber(number) && s[|WriteNumber(number)|..] == rest;
  }

  lemma WholeOfDecimal(n: nat)
    ensures Whole(Decimal(n)) == |Decimal(n)|
  {
    DecimalShape(n);
    assert Decimal(n) + [] == Decimal(n);
    DigitsOfRun(Decimal(n), []);
  }

  /** The decimal form of an integer is a number lexeme. */
  lemma IntegerShape(n: int)
    ensures WriteInteger(n) != [] && NumberLength(WriteInteger(n)) == |WriteInteger(n)|
  {
    hide Decimal, Whole;
    var s, magnitude := WriteInteger(n), if n < 0 then -n else n;
    var sign := if n < 0 then 1 else 0;
    DecimalShape(magnitude);
    WholeOfDecimal(magnitude);
    assert s[sign..] == Decimal(magnitude);
    assert s[|s|..] == [];
  }

  /** A safe integer reads back as itself. */
  lemma IntegerIsRead(n: int, read: Reading)
    requires Safe(n) && Lawful(read)
    ensures Read(Integer(n), read)
  {
    hide NumberLength, WriteInteger;
    IntegerShape(n);
  }

  lemma {:induction false} IntegralIsFaithful(v: Json, read: Reading)
    requires Integral(v) && Lawful(read)
    ensures Faithful(v, read)
  {
    hide Read, Lawful;
    match v
    case Number(number) => IntegerIsRead(number.n, read);
    case Array(items) =>
      forall i | 0 <= i < |items| ensures Faithful(items[i], read) {
        IntegralIsFaithful(items[i], read);
      }
    case Object(members) =>
      forall i | 0 <= i < |members| ensures Faithful(members[i].value, read) {
        IntegralIsFaithful(members[i].value, read);
      }
    case _ =>
  }

  // --- values -------------------------------------------------------------------------------------

  lemma FirstUnit(v: Json, read: Reading)
    requires Faithful(v, read)
    ensures Write(v) != [] && !IsSpace(Write(v)[0]) && Write(v)[0] != CLOSE_ARRAY
  {
    if v.Number? {
      NumberThen(WriteNumber(v.number), []);
    }
  }

  lemma ScalarOfWrite(v: Json, rest: Text, read: Reading)
    requires Faithful(v, read) && !v.Array? && !v.Object?
    requires v.Number? ==> Delimits(rest)
    ensures Value(Write(v) + rest, read) == Some(Parsed(v, rest))
  {
    hide Read, WriteUnits, Numeral, Quoted, WriteNumber, Delimits, NumberLength;
    var s := Write(v) + rest;
    FirstUnit(v, read);
    assert Skip(s) == s;
    match v
    case Null => assert s[..4] == NULL && s[4..] == rest;
    case Bool(flag) =>
      if flag {
        assert s[..4] == TRUE && s[4..] == rest;
      } else {
        assert s[..5] == FALSE && s[5..] == rest;
      }
    case Number(number) =>
      NumeralOfWrite(number, rest, read);
    case String(text) => QuotedOfWrite(text, rest);
  }

  /** Parsing what was printed gives the value back, and what follows it; a repeated key refuses. */
  lemma {:induction false} ValueOfWrite(v: Json, rest: Text, read: Reading)
    requires Faithful(v, read)
    requires v.Number? ==> Delimits(rest)
    ensures Value(Write(v) + rest, read) == if DistinctKeys(v) then Some(Parsed(v, rest)) else None
    decreases v
  {
    hide Read, WriteItems, WriteMembers, Items, Members;
    if v.Array? {
      ArrayOfWrite(v, rest, read);
    } else if v.Object? {
      ObjectOfWrite(v, rest, read);
    } else {
      ScalarOfWrite(v, rest, read);
    }
  }

  lemma {:induction false} ArrayOfWrite(v: Json, rest: Text, read: Reading)
    requires v.Array? && Faithful(v, read)
    ensures Value(Write(v) + rest, read) == if DistinctKeys(v) then Some(Parsed(v, rest)) else None
    decreases v, 0
  {
    hide Read, WriteItems, Items;
    var s, body := Write(v) + rest, WriteItems(v.items) + [CLOSE_ARRAY] + rest;
    assert s[1..] == body && s[0] == OPEN_ARRAY;
    if v.items == [] {
      assert body == [CLOSE_ARRAY] + rest by { NothingToWrite(); }
      assert body[1..] == rest;
    } else {
      ItemsStart(v.items, read);
      assert Skip(body) == body;
      ItemsOfWrite(v.items, rest, read);
    }
  }

  lemma NothingToWrite()
    ensures WriteItems([]) == [] && WriteMembers([]) == []
  {
  }

  lemma ItemsStart(items: seq<Json>, read: Reading)
    requires items != [] && Faithful(items[0], read)
    ensures WriteItems(items) != [] && !IsSpace(WriteItems(items)[0]) && WriteItems(items)[0] != CLOSE_ARRAY
  {
    hide Faithful, Write;
    FirstUnit(items[0], read);
  }

  lemma {:induction false} ItemsOfWrite(items: seq<Json>, rest: Text, read: Reading)
    requires items != [] && forall i :: 0 <= i < |items| ==> Faithful(items[i], read)
    ensures Items(WriteItems(items) + [CLOSE_ARRAY] + rest, read)
         == if AllDistinct(items) then Some(Parsed(items, rest)) else None
    decreases items
  {
    hide Read, Write, Value, Faithful, DistinctKeys;
    var s := WriteItems(items) + [CLOSE_ARRAY] + rest;
    if |items| == 1 {
      var after := [CLOSE_ARRAY] + rest;
      assert s == Write(items[0]) + after;
      ValueOfWrite(items[0], after, read);
      assert after[1..] == rest && [items[0]] == items;
    } else {
      var more := WriteItems(items[1..]) + [CLOSE_ARRAY] + rest;
      var after := [COMMA] + more;
      assert s == Write(items[0]) + after;
      ValueOfWrite(items[0], after, read);
      ItemsOfWrite(items[1..], rest, read);
      assert after[1..] == more && [items[0]] + items[1..] == items;
      assert AllDistinct(items) <==> DistinctKeys(items[0]) && AllDistinct(items[1..]);
    }
  }

  lemma {:induction false} ObjectOfWrite(v: Json, rest: Text, read: Reading)
    requires v.Object? && Faithful(v, read)
    ensures Value(Write(v) + rest, read) == if DistinctKeys(v) then Some(Parsed(v, rest)) else None
    decreases v, 0
  {
    hide Read, WriteMembers, Members;
    var s, body := Write(v) + rest, WriteMembers(v.members) + [CLOSE_OBJECT] + rest;
    assert s[1..] == body && s[0] == OPEN_OBJECT;
    if v.members == [] {
      assert body == [CLOSE_OBJECT] + rest by { NothingToWrite(); }
      assert body[1..] == rest;
    } else {
      MembersStart(v.members);
      assert Skip(body) == body;
      MembersOfWrite(v.members, [], rest, read);
    }
  }

  lemma MembersStart(members: seq<Member>)
    requires members != []
    ensures WriteMembers(members) != [] && WriteMembers(members)[0] == QUOTE
  {
    hide Write;
  }

  lemma KeyOfWrite(key: Text, rest: Text)
    ensures Key(WriteString(key) + [COLON] + rest) == Some(Parsed(key, rest))
  {
    hide Quoted, WriteUnits;
    var s := WriteString(key) + [COLON] + rest;
    assert Skip(s) == s;
    assert s == WriteString(key) + ([COLON] + rest);
    QuotedOfWrite(key, [COLON] + rest);
    assert ([COLON] + rest)[1..] == rest;
  }

  lemma {:induction false} MembersOfWrite(members: seq<Member>, taken: seq<Text>, rest: Text, read: Reading)
    requires members != [] && forall i :: 0 <= i < |members| ==> Faithful(members[i].value, read)
    ensures Members(WriteMembers(members) + [CLOSE_OBJECT] + rest, taken, read)
         == if MembersDistinct(members, taken) then Some(Parsed(members, rest)) else None
    decreases members
  {
    hide Read, Write, WriteString, Value, Key, Faithful, DistinctKeys, MembersDistinct;
    var s, first := WriteMembers(members) + [CLOSE_OBJECT] + rest, members[0];
    if |members| == 1 {
      var after := [CLOSE_OBJECT] + rest;
      assert s == WriteString(first.key) + [COLON] + (Write(first.value) + after);
      KeyOfWrite(first.key, Write(first.value) + after);
      ValueOfWrite(first.value, after, read);
      OneMember(members, taken);
      assert after[1..] == rest && [Member(first.key, first.value)] == members;
    } else {
      var more := WriteMembers(members[1..]) + [CLOSE_OBJECT] + rest;
      var after := [COMMA] + more;
      assert s == WriteString(first.key) + [COLON] + (Write(first.value) + after);
      KeyOfWrite(first.key, Write(first.value) + after);
      ValueOfWrite(first.value, after, read);
      MembersOfWrite(members[1..], taken + [first.key], rest, read);
      FirstMember(members, taken);
      assert after[1..] == more && [Member(first.key, first.value)] + members[1..] == members;
    }
  }

  lemma OneMember(members: seq<Member>, taken: seq<Text>)
    requires |members| == 1
    ensures MembersDistinct(members, taken) <==> DistinctKeys(members[0].value) && members[0].key !in taken
  {
    hide DistinctKeys;
  }

  lemma FirstMember(members: seq<Member>, taken: seq<Text>)
    requires members != []
    ensures MembersDistinct(members, taken) <==>
              && DistinctKeys(members[0].value) && members[0].key !in taken
              && MembersDistinct(members[1..], taken + [members[0].key])
  {
    hide DistinctKeys;
    var rest, key := members[1..], members[0].key;
    if MembersDistinct(members, taken) {
      forall i | 0 <= i < |rest| ensures rest[i].key !in taken + [key] && DistinctKeys(rest[i].value) {
        assert rest[i] == members[i + 1];
      }
    }
    if DistinctKeys(members[0].value) && key !in taken && MembersDistinct(rest, taken + [key]) {
      forall i | 0 < i < |members|
        ensures members[i].key !in taken && members[i].key != key && DistinctKeys(members[i].value)
      {
        assert members[i] == rest[i - 1];
        assert rest[i - 1].key !in taken + [key];
      }
      assert NoRepeat(members) by {
        forall i, j | 0 <= i < j < |members| ensures members[i].key != members[j].key {
          if i > 0 {
            assert rest[i - 1].key != rest[j - 1].key;
          }
        }
      }
    }
  }

  // --- documents -----------------------------------------------------------------------------------

  /**
   The printed form of an object is accepted, as that object, exactly when no object in
   it repeats a key and nothing follows it.
   */
  lemma PrintedObjectIff(v: Json, suffix: Text, read: Reading)
    requires v.Object? && Faithful(v, read)
    ensures Document(Write(v) + suffix, read) == if DistinctKeys(v) && suffix == [] then Some(v) else None
  {
    hide Write, Value, Faithful, DistinctKeys;
    ValueOfWrite(v, suffix, read);
  }

  /** Parsing the print of any value that repeats no key returns the value. */
  lemma RoundTrip(v: Json, read: Reading)
    requires Faithful(v, read) && DistinctKeys(v)
    ensures Document(Write(v), read) == Some(v)
  {
    hide Write, Value, Faithful, DistinctKeys;
    ValueOfWrite(v, [], read);
    assert Write(v) + [] == Write(v);
  }

  /** With integer numbers, that is all the printer and the reading have to agree on. */
  lemma IntegralRoundTrip(v: Json, read: Reading)
    requires Integral(v) && Lawful(read) && DistinctKeys(v)
    ensures Document(Write(v), read) == Some(v)
  {
    hide Write, Document, Faithful, DistinctKeys, Lawful, Integral;
    IntegralIsFaithful(v, read);
    RoundTrip(v, read);
  }

  /** The printer never gives two values one text. */
  lemma WriteIsInjective(v: Json, w: Json, read: Reading)
    requires Faithful(v, read) && Faithful(w, read) && DistinctKeys(v) && DistinctKeys(w)
    requires Write(v) == Write(w)
    ensures v == w
  {
    hide Write, Faithful, DistinctKeys;
    RoundTrip(v, read);
    RoundTrip(w, read);
  }

  // --- every accepted text -------------------------------------------------------------------------

  lemma {:induction false} ValueIsDistinct(s: Text, read: Reading)
    requires Value(s, read).Some?
    ensures DistinctKeys(Value(s, read).value.value)
    decreases |s|, 0
  {
    hide Items, Members, Quoted, NumberLength;
    var t := Skip(s);
    if t[0] == OPEN_OBJECT && !Starts(Skip(t[1..]), CLOSE_OBJECT) {
      MembersAreDistinct(t[1..], [], read);
    } else if t[0] == OPEN_ARRAY && !Starts(Skip(t[1..]), CLOSE_ARRAY) {
      ItemsAreDistinct(t[1..], read);
    }
  }

  lemma {:induction false} ItemsAreDistinct(s: Text, read: Reading)
    requires Items(s, read).Some?
    ensures AllDistinct(Items(s, read).value.value)
    decreases |s|, 1
  {
    hide Value, DistinctKeys;
    ValueIsDistinct(s, read);
    var t := Skip(Value(s, read).value.rest);
    if Starts(t, COMMA) {
      ItemsAreDistinct(t[1..], read);
    }
  }

  lemma {:induction false} MembersAreDistinct(s: Text, taken: seq<Text>, read: Reading)
    requires Members(s, taken, read).Some?
    ensures MembersDistinct(Members(s, taken, read).value.value, taken)
    decreases |s|, 1
  {
    hide Value, DistinctKeys, MembersDistinct, Key;
    var key := Key(s).value;
    var value := Value(key.rest, read).value;
    ValueIsDistinct(key.rest, read);
    var t, member := Skip(value.rest), Member(key.value, value.value);
    if Starts(t, COMMA) {
      var more := Members(t[1..], taken + [key.value], read).value;
      MembersAreDistinct(t[1..], taken + [key.value], read);
      FirstMember([member] + more.value, taken);
      assert ([member] + more.value)[1..] == more.value;
    } else {
      OneMember([member], taken);
    }
  }

  /** No accepted text repeats a key, whatever its layout. */
  lemma AcceptedIsDistinct(text: Text, read: Reading)
    requires Document(text, read).Some?
    ensures DistinctKeys(Document(text, read).value)
  {
    hide Value, DistinctKeys;
    ValueIsDistinct(text, read);
  }

  /** What a reading makes of any lexeme is a number it reads back. */
  ghost predicate Stable(read: Reading) {
    forall s :: read(s).Some? ==> Read(read(s).value, read)
  }

  lemma {:induction false} ValueIsFaithful(s: Text, read: Reading)
    requires Stable(read) && Value(s, read).Some?
    ensures Faithful(Value(s, read).value.value, read)
    decreases |s|, 0
  {
    hide Items, Members, Quoted, NumberLength, Read;
    var t := Skip(s);
    if t[0] == OPEN_OBJECT && !Starts(Skip(t[1..]), CLOSE_OBJECT) {
      MembersAreFaithful(t[1..], [], read);
    } else if t[0] == OPEN_ARRAY && !Starts(Skip(t[1..]), CLOSE_ARRAY) {
      ItemsAreFaithful(t[1..], read);
    }
  }

  lemma {:induction false} ItemsAreFaithful(s: Text, read: Reading)
    requires Stable(read) && Items(s, read).Some?
    ensures forall v :: v in Items(s, read).value.value ==> Faithful(v, read)
    decreases |s|, 1
  {
    hide Value, Faithful, Stable;
    ValueIsFaithful(s, read);
    var t := Skip(Value(s, read).value.rest);
    if Starts(t, COMMA) {
      ItemsAreFaithful(t[1..], read);
    }
  }

  lemma {:induction false} MembersAreFaithful(s: Text, taken: seq<Text>, read: Reading)
    requires Stable(read) && Members(s, taken, read).Some?
    ensures forall m :: m in Members(s, taken, read).value.value ==> Faithful(m.value, read)
    decreases |s|, 1
  {
    hide Value, Faithful, Key, Stable;
    var key := Key(s).value;
    ValueIsFaithful(key.rest, read);
    var t := Skip(Value(key.rest, read).value.rest);
    if Starts(t, COMMA) {
      MembersAreFaithful(t[1..], taken + [key.value], read);
    }
  }

  // --- a lawful reading ---------------------------------------------------------------------------------

  function DigitsValue(s: Text): nat
    requires forall i :: 0 <= i < |s| ==> IsDigit(s[i])
  {
    if s == [] then 0
    else
      assert IsDigit(s[|s| - 1]);
      DigitsValue(s[..|s| - 1]) * 10 + (s[|s| - 1] - ZERO)
  }

  /** Reads a plain decimal integer by its value and any other number by its text. */
  function ReadDecimal(s: Text): Option<Numeric> {
    var digits := if Starts(s, MINUS) then s[1..] else s;
    if s == [] || NumberLength(s) != |s| then None
    else if exists i :: 0 <= i < |digits| && !IsDigit(digits[i]) then Some(Fraction(s))
    else
      var n: int := DigitsValue(digits);
      Some(Integer(if Starts(s, MINUS) then -n else n))
  }

  lemma {:induction false} DigitsValueOfDecimal(n: nat)
    ensures forall i :: 0 <= i < |Decimal(n)| ==> IsDigit(Decimal(n)[i])
    ensures DigitsValue(Decimal(n)) == n
  {
    if n < 10 {
      assert [ZERO + n][..0] == [];
    } else {
      DigitsValueOfDecimal(n / 10);
      assert Decimal(n)[..|Decimal(n)| - 1] == Decimal(n / 10);
    }
  }

  lemma IntegerIsReadBack(n: int)
    ensures Read(Integer(n), ReadDecimal)
  {
    hide NumberLength;
    var magnitude := if n < 0 then -n else n;
    DigitsValueOfDecimal(magnitude);
    IntegerShape(n);
    if n < 0 {
      assert WriteInteger(n)[1..] == Decimal(magnitude);
    }
  }

  /** Both requirements on `Number` can be met at once, so nothing above is vacuous. */
  lemma ReadDecimalIsLawful()
    ensures Lawful(ReadDecimal) && Stable(ReadDecimal)
  {
    hide NumberLength, WriteInteger;
    forall n | Safe(n) ensures ReadDecimal(WriteInteger(n)) == Some(Integer(n)) {
      IntegerIsReadBack(n);
    }
    forall s | ReadDecimal(s).Some? ensures Read(ReadDecimal(s).value, ReadDecimal) {
      if ReadDecimal(s).value.Integer? {
        IntegerIsReadBack(ReadDecimal(s).value.n);
      }
    }
  }
}
