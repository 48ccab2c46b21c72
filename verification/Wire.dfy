/**
 The provider wire's message encoder (`encodeMessage` and `canonicalMessagesBytes` in
 `src/provider/wire.ts`): messages as JSON values, in canonical form, in UTF-8. The byte
 count every compaction decision rests on is the length of exactly that text.
 */
module Wires {
  import opened Wrappers
  import opened Contracts
  import opened StrictJson
  import opened Canonical
  import Utf8
  import Utf16

  // --- the encoder --------------------------------------------------------------------------

  function Key(s: string): Text {
    Utf16.Units(s)
  }

  function Str(s: string): Json {
    String(Utf16.Units(s))
  }

  function EncodeCall(call: FunctionCall): Json {
    Object([Member(Key("id"), Str(call.id)), Member(Key("type"), Str("function")),
            Member(Key("function"), Object([Member(Key("name"), Str(call.name)),
                                            Member(Key("arguments"), Str(call.arguments))]))])
  }

  function EncodeCalls(calls: seq<FunctionCall>): seq<Json> {
    if calls == [] then [] else [EncodeCall(calls[0])] + EncodeCalls(calls[1..])
  }

  /** `encodeMessage`: an assistant without calls has no member for them. */
  function EncodeMessage(message: ChatMessage): Json {
    match message
    case System(content) => Object([Member(Key("role"), Str("system")), Member(Key("content"), Str(content))])
    case User(content) => Object([Member(Key("role"), Str("user")), Member(Key("content"), Str(content))])
    case Tool(content, id) =>
      Object([Member(Key("role"), Str("tool")), Member(Key("content"), Str(content)), Member(Key("tool_call_id"), Str(id))])
    case Assistant(text, calls) =>
      var content := if text.None? then Null else Str(text.value);
      if calls == [] then Object([Member(Key("role"), Str("assistant")), Member(Key("content"), content)])
      else Object([Member(Key("role"), Str("assistant")), Member(Key("content"), content),
                   Member(Key("tool_calls"), Array(EncodeCalls(calls)))])
  }

  function EncodeMessages(messages: seq<ChatMessage>): seq<Json> {
    if messages == [] then [] else [EncodeMessage(messages[0])] + EncodeMessages(messages[1..])
  }

  /** `canonicalMessagesBytes`; a value without a canonical form has none. */
  function CanonicalMessages(messages: seq<ChatMessage>): Option<seq<Utf8.Byte>> {
    match Canonicalize(Array(EncodeMessages(messages)))
    case None => None
    case Some(text) => Some(Utf16.Encode(text))
  }

  // --- sizes --------------------------------------------------------------------------------

  /** A text without lone surrogates, of `n` bytes. */
  ghost predicate Sized(t: Text, n: nat) {
    WellFormedText(t) && |Utf16.Encode(t)| == n
  }

  lemma PairFirst(t: Text)
    requires |t| > 1 && Utf16.IsHigh(t[0]) && Utf16.IsLow(t[1])
    ensures Utf16.Scalars(t) == [Utf16.Paired(t[0], t[1])] + Utf16.Scalars(t[2..])
  {
  }

  lemma OneFirst(t: Text)
    requires t != [] && !Utf16.IsHigh(t[0]) && !Utf16.IsLow(t[0])
    ensures Utf16.Scalars(t) == [t[0] as char] + Utf16.Scalars(t[1..])
  {
  }

  lemma FormFirst(t: Text)
    requires t != [] && WellFormedText(t)
    ensures if Utf16.IsHigh(t[0]) then |t| > 1 && Utf16.IsLow(t[1]) && WellFormedText(t[2..])
            else !Utf16.IsLow(t[0]) && WellFormedText(t[1..])
  {
  }

  lemma {:induction false} ScalarsConcat(a: Text, b: Text)
    requires WellFormedText(a)
    ensures Utf16.Scalars(a + b) == Utf16.Scalars(a) + Utf16.Scalars(b)
    decreases |a|
  {
    hide Utf16.Scalars, WellFormedText, Utf16.Paired;
    if a == [] {
      assert a + b == b;
      assert Utf16.Scalars([]) == [] by { NothingScalar(); }
    } else {
      FormFirst(a);
      if Utf16.IsHigh(a[0]) {
        PairFirst(a);
        PairFirst(a + b);
        assert (a + b)[2..] == a[2..] + b;
        ScalarsConcat(a[2..], b);
      } else {
        OneFirst(a);
        OneFirst(a + b);
        assert (a + b)[1..] == a[1..] + b;
        ScalarsConcat(a[1..], b);
      }
    }
  }

  lemma NothingScalar()
    ensures Utf16.Scalars([]) == []
  {
  }

  lemma SizedConcat(a: Text, m: nat, b: Text, n: nat)
    requires Sized(a, m) && Sized(b, n)
    ensures Sized(a + b, m + n)
  {
    hide WellFormedText, Utf16.Scalars, Utf8.Encode;
    Utf16.WellFormedConcat(a, b);
    ScalarsConcat(a, b);
    Utf8.EncodeConcat(Utf16.Scalars(a), Utf16.Scalars(b));
  }

  lemma SizedNothing()
    ensures Sized([], 0)
  {
  }

  lemma SizedMark(c: Unit)
    requires c < 0x80
    ensures Sized([c], 1)
  {
    assert [c][1..] == [];
    assert Utf16.Scalars([c]) == [c as char] + Utf16.Scalars([c][1..]);
    assert Utf8.Encode([c as char]) == Utf8.EncodeChar(c as char) + Utf8.Encode([c as char][1..]);
  }

  lemma {:induction false} SizedAscii(t: Text)
    requires forall i :: 0 <= i < |t| ==> t[i] < 0x80
    ensures Sized(t, |t|)
  {
    if t == [] {
      SizedNothing();
    } else {
      SizedMark(t[0]);
      SizedAscii(t[1..]);
      SizedConcat([t[0]], 1, t[1..], |t| - 1);
      assert [t[0]] + t[1..] == t;
    }
  }

  /** One character inside a canonical string. */
  lemma SizedChar(c: char)
    ensures Sized(WriteUnits(Utf16.CharUnits(c)), EscapedBytes(c))
  {
    var units := Utf16.CharUnits(c);
    if |units| == 2 {
      assert units[1..] == [units[1]] && units[1..][1..] == [];
      assert WriteUnits(units[1..]) == WriteUnit(units[1]) + WriteUnits(units[1..][1..]);
      assert WriteUnits(units) == units;
      PairIsOne(c);
    } else {
      assert units[1..] == [];
      assert WriteUnits(units) == WriteUnit(units[0]);
      SizedUnit(c);
    }
  }

  lemma PairIsOne(c: char)
    requires c as int >= 0x10000
    ensures Sized(Utf16.CharUnits(c), |Utf8.EncodeChar(c)|)
  {
    var units := Utf16.CharUnits(c);
    assert units[2..] == [];
    assert Utf16.Scalars(units) == [Utf16.Paired(units[0], units[1])] + Utf16.Scalars(units[2..]);
    assert Utf16.Paired(units[0], units[1]) == c;
    assert Utf8.Encode([c]) == Utf8.EncodeChar(c) + Utf8.Encode([c][1..]);
  }

  lemma SizedUnit(c: char)
    requires (c as int) < 0x10000
    ensures Sized(WriteUnit(c as int), EscapedBytes(c))
  {
    var u: Unit := c as int;
    var w := WriteUnit(u);
    EscapeIff(c);
    if EscapeLetter(u).Some? || u < 0x20 {
      SizedAscii(w);
    } else {
      assert w == [u] && w[1..] == [];
      assert Utf16.Scalars(w) == [c] + Utf16.Scalars(w[1..]);
      assert Utf8.Encode([c]) == Utf8.EncodeChar(c) + Utf8.Encode([c][1..]);
    }
  }

  lemma EscapeIff(c: char)
    requires (c as int) < 0x10000
    ensures EscapeLetter(c as int).Some? <==> (c in "\"\\\n\r\t" || c as int == 8 || c as int == 12)
    ensures EscapeLetter(c as int).Some? ==> EscapeLetter(c as int).value < 0x80
  {
    assert "\"\\\n\r\t" == ['\"', '\\', '\n', '\r', '\t'];
  }

  lemma {:induction false} WriteUnitsConcat(a: Text, b: Text)
    ensures WriteUnits(a + b) == WriteUnits(a) + WriteUnits(b)
  {
    hide WriteUnit;
    if a == [] {
      assert a + b == b;
    } else {
      assert (a + b)[1..] == a[1..] + b;
      WriteUnitsConcat(a[1..], b);
    }
  }

  lemma {:induction false} SizedBody(s: string)
    ensures Sized(WriteUnits(Utf16.Units(s)), EscapedTextBytes(s))
  {
    hide Sized, EscapedBytes, Utf16.CharUnits;
    if s == "" {
      SizedNothing();
    } else {
      SizedChar(s[0]);
      SizedBody(s[1..]);
      WriteUnitsConcat(Utf16.CharUnits(s[0]), Utf16.Units(s[1..]));
      SizedConcat(WriteUnits(Utf16.CharUnits(s[0])), EscapedBytes(s[0]),
                  WriteUnits(Utf16.Units(s[1..])), EscapedTextBytes(s[1..]));
    }
  }

  lemma SizedString(s: string)
    ensures Sized(WriteString(Utf16.Units(s)), StringBytes(s))
  {
    hide Sized, WriteUnits, EscapedTextBytes;
    SizedMark(QUOTE);
    SizedBody(s);
    SizedConcat([QUOTE], 1, WriteUnits(Utf16.Units(s)), EscapedTextBytes(s));
    SizedConcat([QUOTE] + WriteUnits(Utf16.Units(s)), 1 + EscapedTextBytes(s), [QUOTE], 1);
  }

  // --- objects ------------------------------------------------------------------------------

  lemma SizedMember(key: string, v: Json, n: nat)
    requires Sized(Write(v), n)
    ensures Sized(WriteString(Key(key)) + [COLON] + Write(v), StringBytes(key) + 1 + n)
  {
    hide Sized, Write, WriteString;
    SizedString(key);
    SizedMark(COLON);
    SizedConcat(WriteString(Key(key)), StringBytes(key), [COLON], 1);
    SizedConcat(WriteString(Key(key)) + [COLON], StringBytes(key) + 1, Write(v), n);
  }

  lemma SizedEnclosed(open: Unit, inside: Text, n: nat, close: Unit)
    requires Sized(inside, n) && open < 0x80 && close < 0x80
    ensures Sized([open] + inside + [close], n + 2)
  {
    hide Sized;
    SizedMark(open);
    SizedMark(close);
    SizedConcat([open], 1, inside, n);
    SizedConcat([open] + inside, n + 1, [close], 1);
  }

  lemma SizedListed(first: Text, m: nat, rest: Text, n: nat)
    requires Sized(first, m) && Sized(rest, n)
    ensures Sized(first + [COMMA] + rest, m + 1 + n)
  {
    hide Sized;
    SizedMark(COMMA);
    SizedConcat(first, m, [COMMA], 1);
    SizedConcat(first + [COMMA], m + 1, rest, n);
  }

  lemma SizedTwo(k: string, v: Json, m: nat, l: string, w: Json, n: nat)
    requires Sized(Write(v), m) && Sized(Write(w), n)
    ensures Sized(Write(Object([Member(Key(k), v), Member(Key(l), w)])), StringBytes(k) + m + StringBytes(l) + n + 5)
  {
    hide Sized, WriteString, StringBytes, Utf16.Units;
    var members := [Member(Key(k), v), Member(Key(l), w)];
    var first, second := WriteString(Key(k)) + [COLON] + Write(v), WriteString(Key(l)) + [COLON] + Write(w);
    SizedMember(k, v, m);
    SizedMember(l, w, n);
    assert WriteMembers(members[1..]) == second;
    SizedListed(first, StringBytes(k) + 1 + m, second, StringBytes(l) + 1 + n);
    SizedEnclosed(OPEN_OBJECT, first + [COMMA] + second, StringBytes(k) + 1 + m + 1 + (StringBytes(l) + 1 + n), CLOSE_OBJECT);
  }

  lemma SizedThree(k: string, v: Json, m: nat, l: string, w: Json, n: nat, j: string, x: Json, p: nat)
    requires Sized(Write(v), m) && Sized(Write(w), n) && Sized(Write(x), p)
    ensures Sized(Write(Object([Member(Key(k), v), Member(Key(l), w), Member(Key(j), x)])),
                  StringBytes(k) + m + StringBytes(l) + n + StringBytes(j) + p + 7)
  {
    hide Sized, WriteString, StringBytes, Utf16.Units;
    var members := [Member(Key(k), v), Member(Key(l), w), Member(Key(j), x)];
    var first, second := WriteString(Key(k)) + [COLON] + Write(v), WriteString(Key(l)) + [COLON] + Write(w);
    var third := WriteString(Key(j)) + [COLON] + Write(x);
    SizedMember(k, v, m);
    SizedMember(l, w, n);
    SizedMember(j, x, p);
    assert members[1..][1..] == [members[2]] && members[1..][0] == members[1];
    assert WriteMembers([members[2]]) == third;
    assert WriteMembers(members[1..]) == second + [COMMA] + third;
    var b, c := StringBytes(l) + 1 + n, StringBytes(j) + 1 + p;
    SizedListed(second, b, third, c);
    SizedListed(first, StringBytes(k) + 1 + m, second + [COMMA] + third, b + 1 + c);
    SizedEnclosed(OPEN_OBJECT, first + [COMMA] + (second + [COMMA] + third),
                  StringBytes(k) + 1 + m + 1 + (b + 1 + c), CLOSE_OBJECT);
  }

  lemma {:induction false} SizedItems(items: seq<Json>, sizes: seq<nat>)
    requires |items| == |sizes| && forall i :: 0 <= i < |items| ==> Sized(Write(items[i]), sizes[i])
    ensures Sized(WriteItems(items), Sum(sizes) + (if sizes == [] then 0 else |sizes| - 1))
  {
    hide Sized, Write;
    if items == [] {
      SizedNothing();
    } else {
      SizedItems(items[1..], sizes[1..]);
      if |items| > 1 {
        SizedListed(Write(items[0]), sizes[0], WriteItems(items[1..]), Sum(sizes[1..]) + |sizes| - 2);
      }
    }
  }

  ghost function Sum(sizes: seq<nat>): nat {
    if sizes == [] then 0 else sizes[0] + Sum(sizes[1..])
  }

  // --- the order of the keys ----------------------------------------------------------------------

  lemma KeyLess(a: string, b: string)
    requires a != "" && b != "" && a[0] < b[0] && (b[0] as int) < 0x80
    ensures Less(Key(a), Key(b)) && !Less(Key(b), Key(a))
  {
  }

  /** Two members in the other order. */
  lemma SortTwo(k: string, v: Json, l: string, w: Json)
    requires k != "" && l != "" && k[0] < l[0] && (l[0] as int) < 0x80
    ensures SortMembers([Member(Key(l), w), Member(Key(k), v)])
         == [Member(Key(k), SortKeys(v)), Member(Key(l), SortKeys(w))]
  {
    hide SortKeys, Key, Less;
    KeyLess(k, l);
    var members, a, b := [Member(Key(l), w), Member(Key(k), v)], Member(Key(k), SortKeys(v)), Member(Key(l), SortKeys(w));
    assert members[1..] == [Member(Key(k), v)] && members[1..][1..] == [];
    assert SortMembers(members[1..]) == [a];
    assert [a][1..] == [];
    assert Insert(b, [a]) == [a] + Insert(b, []);
  }

  /** A third member behind them. */
  lemma SortThree(k: string, v: Json, l: string, w: Json, j: string, x: Json)
    requires k != "" && l != "" && j != "" && k[0] < l[0] < j[0] && (j[0] as int) < 0x80
    ensures SortMembers([Member(Key(l), w), Member(Key(k), v), Member(Key(j), x)])
         == [Member(Key(k), SortKeys(v)), Member(Key(l), SortKeys(w)), Member(Key(j), SortKeys(x))]
  {
    hide SortKeys, Key, Less;
    KeyLess(k, l);
    KeyLess(l, j);
    KeyLess(k, j);
    var a, b, c := Member(Key(k), SortKeys(v)), Member(Key(l), SortKeys(w)), Member(Key(j), SortKeys(x));
    var members := [Member(Key(l), w), Member(Key(k), v), Member(Key(j), x)];
    assert members[1..][1..] == [members[2]] && members[1..][0] == members[1] && members[1..][1..][1..] == [];
    assert SortMembers(members[1..][1..]) == [c];
    assert SortMembers(members[1..]) == [a, c];
    assert [a, c][1..] == [c];
    assert Insert(b, [a, c]) == [a] + Insert(b, [c]);
    assert Insert(b, [c]) == [b, c];
  }

  // --- messages ---------------------------------------------------------------------------------

  lemma SizedStr(s: string)
    ensures Sized(Write(SortKeys(Str(s))), StringBytes(s)) && WellFormed(Str(s))
  {
    SizedString(s);
    Utf16.UnitsAreWellFormed(s);
  }

  /** A text of plain characters is as long inside quotes as it is, and the quotes. */
  lemma {:induction false} PlainBytes(s: string)
    requires forall i :: 0 <= i < |s| ==> 'a' <= s[i] <= 'z' || s[i] == '_'
    ensures StringBytes(s) == |s| + 2
  {
    if s != "" {
      PlainBytes(s[1..]);
      assert EscapedBytes(s[0]) == 1;
    }
  }

  /** The sorted call: `function` with its arguments and name, then `id`, then `type`. */
  lemma CallIsSized(call: FunctionCall)
    ensures Sized(Write(SortKeys(EncodeCall(call))), CallBytes(call)) && WellFormed(EncodeCall(call))
  {
    hide Sized, StringBytes, Less, Utf16.Units, Write, WellFormedText;
    SizedStr(call.name);
    SizedStr(call.arguments);
    SizedStr(call.id);
    SizedStr("function");
    KeysAreWellFormed();
    var inner := [Member(Key("name"), Str(call.name)), Member(Key("arguments"), Str(call.arguments))];
    SortTwo("arguments", Str(call.arguments), "name", Str(call.name));
    var a, n := StringBytes(call.arguments), StringBytes(call.name);
    SizedTwo("arguments", SortKeys(Str(call.arguments)), a, "name", SortKeys(Str(call.name)), n);
    var size := StringBytes("arguments") + a + StringBytes("name") + n + 5;
    assert SortKeys(Object(inner)) == Object(SortMembers(inner));
    SortCall(Object(inner), Str(call.id), Str("function"));
    SizedThree("function", SortKeys(Object(inner)), size, "id", SortKeys(Str(call.id)), StringBytes(call.id),
               "type", SortKeys(Str("function")), StringBytes("function"));
    CallLengths();
  }

  /** `id`, `type`, `function` in canonical order. */
  lemma SortCall(f: Json, id: Json, kind: Json)
    ensures SortMembers([Member(Key("id"), id), Member(Key("type"), kind), Member(Key("function"), f)])
         == [Member(Key("function"), SortKeys(f)), Member(Key("id"), SortKeys(id)), Member(Key("type"), SortKeys(kind))]
  {
    hide SortKeys, Key, Less;
    KeyLess("function", "id");
    KeyLess("id", "type");
    KeyLess("function", "type");
    var a, b, c := Member(Key("function"), SortKeys(f)), Member(Key("id"), SortKeys(id)), Member(Key("type"), SortKeys(kind));
    var members := [Member(Key("id"), id), Member(Key("type"), kind), Member(Key("function"), f)];
    assert members[1..][1..] == [members[2]] && members[1..][0] == members[1] && members[1..][1..][1..] == [];
    assert SortMembers(members[1..][1..]) == [a];
    assert [a][1..] == [] && [a, c][1..] == [c];
    assert Insert(c, [a]) == [a] + Insert(c, []);
    assert SortMembers(members[1..]) == [a, c];
    assert Insert(b, [a, c]) == [a] + Insert(b, [c]);
    assert Insert(b, [c]) == [b, c];
  }

  lemma KeysAreWellFormed()
    ensures forall s: string :: WellFormedText(Key(s))
  {
    forall s: string ensures WellFormedText(Key(s)) {
      Utf16.UnitsAreWellFormed(s);
    }
  }

  lemma CallLengths()
    ensures StringBytes("arguments") == 11 && StringBytes("name") == 6 && StringBytes("function") == 10
    ensures StringBytes("id") == 4 && StringBytes("type") == 6
    ensures |"{\"function\":{\"arguments\":,\"name\":},\"id\":,\"type\":\"function\"}"| == 11 + 6 + 5 + 10 + 4 + 6 + 10 + 7
  {
    hide StringBytes;
    PlainBytes("arguments");
    PlainBytes("name");
    PlainBytes("function");
    PlainBytes("id");
    PlainBytes("type");
  }

  lemma MessageLengths()
    ensures StringBytes("content") == 9 && StringBytes("role") == 6 && StringBytes("tool_call_id") == 14
    ensures StringBytes("tool_calls") == 12 && StringBytes("system") == 8 && StringBytes("user") == 6
    ensures StringBytes("tool") == 6 && StringBytes("assistant") == 11
  {
    hide StringBytes;
    PlainBytes("content");
    PlainBytes("role");
    PlainBytes("tool_call_id");
    PlainBytes("tool_calls");
    PlainBytes("system");
    PlainBytes("user");
    PlainBytes("tool");
    PlainBytes("assistant");
  }

  lemma {:induction false} CallsAreSized(calls: seq<FunctionCall>) returns (sizes: seq<nat>)
    ensures |EncodeCalls(calls)| == |sizes| == |calls| && Sum(sizes) == CallListBytes(calls)
    ensures forall i :: 0 <= i < |calls| ==> Sized(Write(SortItems(EncodeCalls(calls))[i]), sizes[i])
    ensures forall i :: 0 <= i < |calls| ==> WellFormed(EncodeCalls(calls)[i])
  {
    hide Sized, Write, SortKeys, EncodeCall, CallBytes, WellFormed;
    if calls == [] {
      sizes := [];
    } else {
      CallIsSized(calls[0]);
      var more := CallsAreSized(calls[1..]);
      sizes := [CallBytes(calls[0])] + more;
      assert sizes[1..] == more;
      assert EncodeCalls(calls)[1..] == EncodeCalls(calls[1..]);
    }
  }

  lemma ArrayIsWritten(items: seq<Json>)
    ensures Write(SortKeys(Array(items))) == [OPEN_ARRAY] + WriteItems(SortItems(items)) + [CLOSE_ARRAY]
    ensures (forall i :: 0 <= i < |items| ==> WellFormed(items[i])) ==> WellFormed(Array(items))
  {
    hide WriteItems, WellFormedText;
  }

  lemma CallArrayIsSized(calls: seq<FunctionCall>)
    requires calls != []
    ensures Sized(Write(SortKeys(Array(EncodeCalls(calls)))), CallListBytes(calls) + |calls| + 1)
    ensures WellFormed(Array(EncodeCalls(calls)))
  {
    hide Sized, Write, WriteItems, SortKeys, WellFormed, CallListBytes, EncodeCalls, Sum;
    var sizes := CallsAreSized(calls);
    var items := SortItems(EncodeCalls(calls));
    SizedItems(items, sizes);
    SizedEnclosed(OPEN_ARRAY, WriteItems(items), Sum(sizes) + |sizes| - 1, CLOSE_ARRAY);
    ArrayIsWritten(EncodeCalls(calls));
  }

  lemma NullIsSized()
    ensures Sized(Write(SortKeys(Null)), 4)
  {
    SizedAscii(NULL);
  }

  /** `content` and `role`, in canonical order. */
  lemma LineIsSized(role: string, content: Json, n: nat)
    requires Sized(Write(SortKeys(content)), n) && WellFormed(content)
    ensures var v := Object([Member(Key("role"), Str(role)), Member(Key("content"), content)]);
            WellFormed(v) && Sized(Write(SortKeys(v)), 9 + n + 6 + StringBytes(role) + 5)
  {
    hide Sized, StringBytes, Less, Utf16.Units, Write, WellFormedText;
    MessageLengths();
    SizedStr(role);
    KeysAreWellFormed();
    SortTwo("content", content, "role", Str(role));
    SizedTwo("content", SortKeys(content), n, "role", SortKeys(Str(role)), StringBytes(role));
  }

  lemma LongLineIsSized(role: string, content: Json, n: nat, key: string, more: Json, p: nat)
    requires Sized(Write(SortKeys(content)), n) && WellFormed(content)
    requires Sized(Write(SortKeys(more)), p) && WellFormed(more) && key != "" && key[0] == 't'
    ensures var v := Object([Member(Key("role"), Str(role)), Member(Key("content"), content), Member(Key(key), more)]);
            WellFormed(v) && Sized(Write(SortKeys(v)), 9 + n + 6 + StringBytes(role) + StringBytes(key) + p + 7)
  {
    hide Sized, StringBytes, Less, Utf16.Units, Write, WellFormedText;
    MessageLengths();
    SizedStr(role);
    KeysAreWellFormed();
    SortThree("content", content, "role", Str(role), key, more);
    SizedThree("content", SortKeys(content), n, "role", SortKeys(Str(role)), StringBytes(role), key, SortKeys(more), p);
  }

  lemma MessageIsSized(message: ChatMessage)
    ensures Sized(Write(SortKeys(EncodeMessage(message))), MessageBytes(message)) && WellFormed(EncodeMessage(message))
  {
    hide Sized, StringBytes, SortKeys, Write, WellFormed, Key, Str, EncodeCalls, CallListBytes;
    MessageLengths();
    match message
    case System(content) =>
      SizedStr(content);
      LineIsSized("system", Str(content), StringBytes(content));
    case User(content) =>
      SizedStr(content);
      LineIsSized("user", Str(content), StringBytes(content));
    case Tool(content, id) =>
      SizedStr(content);
      SizedStr(id);
      LongLineIsSized("tool", Str(content), StringBytes(content), "tool_call_id", Str(id), StringBytes(id));
    case Assistant(text, calls) =>
      var content, n := if text.None? then Null else Str(text.value), if text.None? then 4 else StringBytes(text.value);
      ContentIsSized(text);
      if calls == [] {
        LineIsSized("assistant", content, n);
      } else {
        CallArrayIsSized(calls);
        LongLineIsSized("assistant", content, n, "tool_calls", Array(EncodeCalls(calls)), CallListBytes(calls) + |calls| + 1);
      }
  }

  lemma ContentIsSized(text: Option<string>)
    ensures var content := if text.None? then Null else Str(text.value);
            WellFormed(content)
            && Sized(Write(SortKeys(content)), if text.None? then 4 else StringBytes(text.value))
  {
    if text.None? {
      NullIsSized();
    } else {
      SizedStr(text.value);
    }
  }

  lemma {:induction false} MessagesAreSized(messages: seq<ChatMessage>) returns (sizes: seq<nat>)
    ensures |EncodeMessages(messages)| == |sizes| == |messages| && Sum(sizes) == MessageListBytes(messages)
    ensures forall i :: 0 <= i < |messages| ==> Sized(Write(SortItems(EncodeMessages(messages))[i]), sizes[i])
    ensures forall i :: 0 <= i < |messages| ==> WellFormed(EncodeMessages(messages)[i])
  {
    hide Sized, Write, SortKeys, EncodeMessage, MessageBytes, WellFormed;
    if messages == [] {
      sizes := [];
    } else {
      MessageIsSized(messages[0]);
      var more := MessagesAreSized(messages[1..]);
      sizes := [MessageBytes(messages[0])] + more;
      assert sizes[1..] == more;
      assert EncodeMessages(messages)[1..] == EncodeMessages(messages[1..]);
    }
  }

  /**
   The byte count is the length of the canonical UTF-8 text of the messages as the provider
   wire encodes them, for every list of messages; and every list has such a text.
   */
  lemma WireBytesAreEncoded(messages: seq<ChatMessage>)
    ensures CanonicalMessages(messages).Some? && |CanonicalMessages(messages).value| == WireBytes(messages)
  {
    hide Write, SortKeys, WellFormed, WriteItems, MessageListBytes, EncodeMessages, Sum, Utf16.Encode, WellFormedText;
    var sizes := MessagesAreSized(messages);
    var items := SortItems(EncodeMessages(messages));
    SizedItems(items, sizes);
    SizedEnclosed(OPEN_ARRAY, WriteItems(items), Sum(sizes) + (if sizes == [] then 0 else |sizes| - 1), CLOSE_ARRAY);
    ArrayIsWritten(EncodeMessages(messages));
  }
}
