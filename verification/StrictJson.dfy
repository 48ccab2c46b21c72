/**
 The strict JSON parser of `src/host/execution.ts` and the canonical printer it reads
 back (RFC 8785 section 3.2, RFC 8259 sections 2 to 7). A text is a list of UTF-16
 code units. The parser is given first as functions on what is left of the text; the
 class after it is the source's own parser, whose closures advance one index.
 */
module StrictJson {
  import opened Wrappers
  import opened Decimals

  type Unit = x: int | 0 <= x <= 0xFFFF
  type Text = seq<Unit>

  const QUOTE: Unit := 0x22
  const COMMA: Unit := 0x2C
  const MINUS: Unit := 0x2D
  const DOT: Unit := 0x2E
  const SLASH: Unit := 0x2F
  const ZERO: Unit := 0x30
  const COLON: Unit := 0x3A
  const OPEN_ARRAY: Unit := 0x5B
  const BACKSLASH: Unit := 0x5C
  const CLOSE_ARRAY: Unit := 0x5D
  const OPEN_OBJECT: Unit := 0x7B
  const CLOSE_OBJECT: Unit := 0x7D
  const LOWER_U: Unit := 0x75

  const TRUE: Text := [0x74, 0x72, 0x75, 0x65]
  const FALSE: Text := [0x66, 0x61, 0x6C, 0x73, 0x65]
  const NULL: Text := [0x6E, 0x75, 0x6C, 0x6C]

  /** A finite number: an integral one by its value, any other by its canonical text. */
  datatype Numeric = Integer(n: int) | Fraction(lexeme: Text)

  /**
   `Number` of a lexeme, `None` when it is not finite. It is a parameter: all that is
   used of it is that the decimal form of a safe integer reads as that integer.
   */
  type Reading = Text -> Option<Numeric>

  datatype Json =
    | Null
    | Bool(flag: bool)
    | Number(number: Numeric)
    | String(text: Text)
    | Array(items: seq<Json>)
    | Object(members: seq<Member>)

  /** Members keep the order of the text; the printer is given them in key order. */
  datatype Member = Member(key: Text, value: Json)

  function Keys(members: seq<Member>): seq<Text> {
    seq(|members|, i requires 0 <= i < |members| => members[i].key)
  }

  datatype Parsed<T> = Parsed(value: T, rest: Text)

  // --- the grammar, on what is left of the text --------------------------------------------

  predicate IsSpace(c: Unit) {
    c == 0x20 || c == 0x09 || c == 0x0A || c == 0x0D
  }

  predicate IsDigit(c: Unit) {
    ZERO <= c <= 0x39
  }

  function Skip(s: Text): (r: Text)
    ensures |r| <= |s|
  {
    if s != [] && IsSpace(s[0]) then Skip(s[1..]) else s
  }

  predicate Starts(s: Text, c: Unit) {
    s != [] && s[0] == c
  }

  function HexDigit(c: Unit): (r: Option<nat>)
    ensures r.Some? ==> r.value < 16
  {
    if IsDigit(c) then Some(c - ZERO)
    else if 0x61 <= c <= 0x66 then Some(c - 0x61 + 10)
    else if 0x41 <= c <= 0x46 then Some(c - 0x41 + 10)
    else None
  }

  /** The four hexadecimal digits of an escape. */
  function HexUnit(s: Text): Option<Unit> {
    if |s| < 4 then None
    else
      var a, b, c, d := HexDigit(s[0]), HexDigit(s[1]), HexDigit(s[2]), HexDigit(s[3]);
      if a.None? || b.None? || c.None? || d.None? then None
      else Some(a.value * 0x1000 + b.value * 0x100 + c.value * 0x10 + d.value)
  }

  /** The unit a one-letter escape stands for. */
  function Unescaped(c: Unit): Option<Unit> {
    if c == QUOTE || c == BACKSLASH || c == SLASH then Some(c)
    else if c == 0x62 then Some(0x08)
    else if c == 0x66 then Some(0x0C)
    else if c == 0x6E then Some(0x0A)
    else if c == 0x72 then Some(0x0D)
    else if c == 0x74 then Some(0x09)
    else None
  }

  /** One unit of a string body and what follows it; `None` where the body cannot go on. */
  function OneUnit(s: Text): (r: Option<Parsed<Unit>>)
    ensures r.Some? ==> |r.value.rest| < |s|
  {
    if s == [] || s[0] == QUOTE then None
    else if s[0] == BACKSLASH then
      if |s| < 2 then None
      else if s[1] == LOWER_U then
        match HexUnit(s[2..])
        case None => None
        case Some(u) => Some(Parsed(u, s[6..]))
      else
        match Unescaped(s[1])
        case None => None
        case Some(u) => Some(Parsed(u, s[2..]))
    else if s[0] < 0x20 then None
    else Some(Parsed(s[0], s[1..]))
  }

  /** A string body up to and with its closing quote. */
  function Body(s: Text): (r: Option<Parsed<Text>>)
    ensures r.Some? ==> |r.value.rest| < |s|
    decreases |s|
  {
    if Starts(s, QUOTE) then Some(Parsed([], s[1..]))
    else
      match OneUnit(s)
      case None => None
      case Some(one) =>
        match Body(one.rest)
        case None => None
        case Some(more) => Some(Parsed([one.value] + more.value, more.rest))
  }

  function Quoted(s: Text): (r: Option<Parsed<Text>>)
    ensures r.Some? ==> |r.value.rest| < |s|
  {
    if Starts(s, QUOTE) then Body(s[1..]) else None
  }

  function Digits(s: Text): (n: nat)
    ensures n <= |s|
  {
    if s != [] && IsDigit(s[0]) then 1 + Digits(s[1..]) else 0
  }

  /** The length of `0` or of a digit run without a leading zero; 0 when there is none. */
  function Whole(s: Text): (n: nat)
    ensures n <= |s|
  {
    if s == [] || !IsDigit(s[0]) then 0
    else if s[0] == ZERO then 1
    else Digits(s)
  }

  /** The length of an optional part: a mark and at least one digit after it. */
  function Marked(s: Text, mark: nat): (n: nat)
    requires mark <= |s|
    ensures n <= |s|
  {
    var digits := Digits(s[mark..]);
    if digits == 0 then 0 else mark + digits
  }

  function FractionLength(s: Text): (n: nat)
    ensures n <= |s|
  {
    if Starts(s, DOT) then Marked(s, 1) else 0
  }

  function ExponentLength(s: Text): (n: nat)
    ensures n <= |s|
  {
    if Starts(s, 0x65) || Starts(s, 0x45) then
      if |s| > 1 && (s[1] == 0x2B || s[1] == MINUS) then Marked(s, 2) else Marked(s, 1)
    else 0
  }

  /** The length of the longest number the text starts with; 0 when it starts with none. */
  function NumberLength(s: Text): (n: nat)
    ensures n <= |s|
  {
    var sign := if Starts(s, MINUS) then 1 else 0;
    var whole := Whole(s[sign..]);
    if whole == 0 then 0
    else
      var fraction := sign + whole + FractionLength(s[sign + whole..]);
      fraction + ExponentLength(s[fraction..])
  }

  function Numeral(s: Text, read: Reading): (r: Option<Parsed<Json>>)
    ensures r.Some? ==> |r.value.rest| < |s|
  {
    var n := NumberLength(s);
    if n == 0 then None
    else
      match read(s[..n])
      case None => None
      case Some(number) => Some(Parsed(Number(number), s[n..]))
  }

  function Word(s: Text, word: Text, value: Json): (r: Option<Parsed<Json>>)
    requires word != []
    ensures r.Some? ==> |r.value.rest| < |s|
  {
    if word <= s then Some(Parsed(value, s[|word|..])) else None
  }

  /** `parseValue`. */
  function Value(s: Text, read: Reading): (r: Option<Parsed<Json>>)
    ensures r.Some? ==> |r.value.rest| < |s|
    decreases |s|, 0
  {
    var t := Skip(s);
    if t == [] then None
    else if t[0] == OPEN_OBJECT then
      if Starts(Skip(t[1..]), CLOSE_OBJECT) then Some(Parsed(Object([]), Skip(t[1..])[1..]))
      else
        match Members(t[1..], [], read)
        case None => None
        case Some(p) => Some(Parsed(Object(p.value), p.rest))
    else if t[0] == OPEN_ARRAY then
      if Starts(Skip(t[1..]), CLOSE_ARRAY) then Some(Parsed(Array([]), Skip(t[1..])[1..]))
      else
        match Items(t[1..], read)
        case None => None
        case Some(p) => Some(Parsed(Array(p.value), p.rest))
    else if t[0] == QUOTE then
      match Quoted(t)
      case None => None
      case Some(p) => Some(Parsed(String(p.value), p.rest))
    else if t[0] == TRUE[0] then Word(t, TRUE, Bool(true))
    else if t[0] == FALSE[0] then Word(t, FALSE, Bool(false))
    else if t[0] == NULL[0] then Word(t, NULL, Null)
    else if t[0] == MINUS || IsDigit(t[0]) then Numeral(t, read)
    else None
  }

  /** The loop of `parseArray`: the items from here on, with the closing bracket. */
  function Items(s: Text, read: Reading): (r: Option<Parsed<seq<Json>>>)
    ensures r.Some? ==> |r.value.rest| < |s|
    decreases |s|, 1
  {
    match Value(s, read)
    case None => None
    case Some(first) =>
      var t := Skip(first.rest);
      if Starts(t, COMMA) then
        match Items(t[1..], read)
        case None => None
        case Some(more) => Some(Parsed([first.value] + more.value, more.rest))
      else if Starts(t, CLOSE_ARRAY) then Some(Parsed([first.value], t[1..]))
      else None
  }

  /** One key with its colon. */
  function Key(s: Text): (r: Option<Parsed<Text>>)
    ensures r.Some? ==> |r.value.rest| < |s|
  {
    match Quoted(Skip(s))
    case None => None
    case Some(key) =>
      var t := Skip(key.rest);
      if Starts(t, COLON) then Some(Parsed(key.value, t[1..])) else None
  }

  /** The loop of `parseObject`, given the keys it has taken; a repeated key refuses. */
  function Members(s: Text, taken: seq<Text>, read: Reading): (r: Option<Parsed<seq<Member>>>)
    ensures r.Some? ==> |r.value.rest| < |s|
    decreases |s|, 1
  {
    match Key(s)
    case None => None
    case Some(key) =>
      if key.value in taken then None
      else
        match Value(key.rest, read)
        case None => None
        case Some(value) =>
          var t, member := Skip(value.rest), Member(key.value, value.value);
          if Starts(t, COMMA) then
            match Members(t[1..], taken + [key.value], read)
            case None => None
            case Some(more) => Some(Parsed([member] + more.value, more.rest))
          else if Starts(t, CLOSE_OBJECT) then Some(Parsed([member], t[1..]))
          else None
  }

  /** `parseStrictJson`: one value, and nothing after it. */
  function Document(text: Text, read: Reading): Option<Json> {
    match Value(text, read)
    case None => None
    case Some(p) => if p.rest == [] then Some(p.value) else None
  }

  // --- the printer ---------------------------------------------------------------------------

  function Decimal(n: nat): (r: Text)
    ensures |r| == DecimalWidth(n)
  {
    if n < 10 then [ZERO + n] else Decimal(n / 10) + [ZERO + n % 10]
  }

  function WriteInteger(n: int): Text {
    if n < 0 then [MINUS] + Decimal(-n) else Decimal(n)
  }

  function HexLetter(n: nat): Unit
    requires n < 16
  {
    if n < 10 then ZERO + n else 0x61 + n - 10
  }

  function EscapeLetter(c: Unit): Option<Unit> {
    if c == QUOTE || c == BACKSLASH then Some(c)
    else if c == 0x08 then Some(0x62)
    else if c == 0x0C then Some(0x66)
    else if c == 0x0A then Some(0x6E)
    else if c == 0x0D then Some(0x72)
    else if c == 0x09 then Some(0x74)
    else None
  }

  function WriteUnit(c: Unit): Text {
    match EscapeLetter(c)
    case Some(letter) => [BACKSLASH, letter]
    case None =>
      if c < 0x20 then [BACKSLASH, LOWER_U, ZERO, ZERO, HexLetter(c / 16), HexLetter(c % 16)] else [c]
  }

  function WriteUnits(s: Text): Text {
    if s == [] then [] else WriteUnit(s[0]) + WriteUnits(s[1..])
  }

  function WriteString(s: Text): Text {
    [QUOTE] + WriteUnits(s) + [QUOTE]
  }

  function WriteNumber(number: Numeric): Text {
    match number
    case Integer(n) => WriteInteger(n)
    case Fraction(lexeme) => lexeme
  }

  function Write(v: Json): Text {
    match v
    case Null => NULL
    case Bool(flag) => if flag then TRUE else FALSE
    case Number(number) => WriteNumber(number)
    case String(text) => WriteString(text)
    case Array(items) => [OPEN_ARRAY] + WriteItems(items) + [CLOSE_ARRAY]
    case Object(members) => [OPEN_OBJECT] + WriteMembers(members) + [CLOSE_OBJECT]
  }

  function WriteItems(items: seq<Json>): Text {
    if items == [] then []
    else if |items| == 1 then Write(items[0])
    else Write(items[0]) + [COMMA] + WriteItems(items[1..])
  }

  function WriteMembers(members: seq<Member>): Text {
    if members == [] then []
    else
      var first := WriteString(members[0].key) + [COLON] + Write(members[0].value);
      if |members| == 1 then first else first + [COMMA] + WriteMembers(members[1..])
  }
}
