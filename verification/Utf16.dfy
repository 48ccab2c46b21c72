/**
 Journal lines as bytes: `Buffer.from(.., 'utf8')` and `toString('utf8')` over strings of
 UTF-16 code units. A surrogate pair is one scalar value; a lone surrogate has no encoding
 and becomes U+FFFD, so exactly the well-formed strings come back as they were.
 */
module Utf16 {
  import opened StrictJson
  import opened Canonical
  import Utf8

  predicate IsHigh(u: Unit) {
    0xD800 <= u <= 0xDBFF
  }

  predicate IsLow(u: Unit) {
    0xDC00 <= u <= 0xDFFF
  }

  function Paired(high: Unit, low: Unit): char
    requires IsHigh(high) && IsLow(low)
  {
    (0x10000 + (high - 0xD800) * 0x400 + low - 0xDC00) as char
  }

  /** The scalar values of a string of code units. */
  function Scalars(t: Text): string
    decreases |t|
  {
    if t == [] then ""
    else if IsHigh(t[0]) && |t| > 1 && IsLow(t[1]) then [Paired(t[0], t[1])] + Scalars(t[2..])
    else if IsHigh(t[0]) || IsLow(t[0]) then ['\U{FFFD}'] + Scalars(t[1..])
    else [t[0] as char] + Scalars(t[1..])
  }

  /** The code units of a scalar value. */
  function CharUnits(c: char): Text {
    var v := c as int;
    if v < 0x10000 then [v] else [0xD800 + (v - 0x10000) / 0x400, 0xDC00 + (v - 0x10000) % 0x400]
  }

  function Units(s: string): Text {
    if s == "" then [] else CharUnits(s[0]) + Units(s[1..])
  }

  function Encode(t: Text): seq<Utf8.Byte> {
    Utf8.Encode(Scalars(t))
  }

  function Decode(bytes: seq<Utf8.Byte>): Text {
    Units(Utf8.Decode(bytes))
  }

  // --- which strings come back ------------------------------------------------------------

  lemma PairedUnits(high: Unit, low: Unit)
    requires IsHigh(high) && IsLow(low)
    ensures CharUnits(Paired(high, low)) == [high, low]
  {
  }

  lemma {:induction false} UnitsOfScalars(t: Text)
    requires WellFormedText(t)
    ensures Units(Scalars(t)) == t
    decreases |t|
  {
    if t != [] {
      if IsHigh(t[0]) {
        PairedUnits(t[0], t[1]);
        UnitsOfScalars(t[2..]);
        assert t == [t[0], t[1]] + t[2..];
      } else {
        UnitsOfScalars(t[1..]);
      }
    }
  }

  lemma {:induction false} UnitsAreWellFormed(s: string)
    ensures WellFormedText(Units(s))
  {
    if s != "" {
      UnitsAreWellFormed(s[1..]);
      var first, rest := CharUnits(s[0]), Units(s[1..]);
      if |first| == 2 {
        assert (first + rest)[2..] == rest;
      } else {
        assert (first + rest)[1..] == rest;
      }
    }
  }

  /** A string comes back from its bytes if and only if it holds no lone surrogate. */
  lemma DecodeEncodeIff(t: Text)
    ensures Decode(Encode(t)) == t <==> WellFormedText(t)
  {
    Utf8.DecodeEncode(Scalars(t));
    UnitsAreWellFormed(Scalars(t));
    if WellFormedText(t) {
      UnitsOfScalars(t);
    }
  }

  /** Each unit takes one to three bytes. */
  lemma {:induction false} EncodedSize(t: Text)
    ensures |t| <= |Encode(t)| <= 3 * |t|
    decreases |t|
  {
    if t != [] {
      EncodedSize(if IsHigh(t[0]) && |t| > 1 && IsLow(t[1]) then t[2..] else t[1..]);
    }
  }

  // --- newlines ---------------------------------------------------------------------------------

  lemma {:induction false} NewlineByte(s: string)
    requires 0x0A in Utf8.Encode(s)
    ensures '\n' in s
  {
    if '\n' != s[0] {
      NewlineByte(s[1..]);
    }
  }

  lemma {:induction false} NewlineScalar(t: Text)
    requires '\n' in Scalars(t)
    ensures 0x0A in t
    decreases |t|
  {
    if t[0] != 0x0A {
      NewlineScalar(if IsHigh(t[0]) && |t| > 1 && IsLow(t[1]) then t[2..] else t[1..]);
    }
  }

  /** Only a newline encodes to the newline byte, so lines stay lines. */
  lemma NewlineIsNewline(t: Text)
    requires 0x0A in Encode(t)
    ensures 0x0A in t
  {
    NewlineByte(Scalars(t));
    NewlineScalar(t);
  }

  // --- a canonical text is well formed ----------------------------------------------------------

  /** Visible ASCII: such a text is one line and has no surrogate. */
  predicate Plain(s: Text) {
    forall i :: 0 <= i < |s| ==> 0x20 < s[i] < 0x80
  }

  lemma {:induction false} PlainIsWellFormed(s: Text)
    requires Plain(s)
    ensures WellFormedText(s) && 0x0A !in s
  {
    if s != [] {
      PlainIsWellFormed(s[1..]);
    }
  }

  lemma {:induction false} WellFormedConcat(a: Text, b: Text)
    requires WellFormedText(a) && WellFormedText(b)
    ensures WellFormedText(a + b)
    decreases |a|
  {
    if a == [] {
      assert a + b == b;
    } else {
      var n := if IsHigh(a[0]) then 2 else 1;
      WellFormedConcat(a[n..], b);
      assert (a + b)[n..] == a[n..] + b;
    }
  }

  lemma EscapedUnit(c: Unit)
    requires !IsHigh(c) && !IsLow(c)
    ensures WellFormedText(WriteUnit(c))
  {
    var w := WriteUnit(c);
    if |w| > 1 {
      PlainIsWellFormed(w);
    } else {
      assert w == [c] && w[1..] == [];
    }
  }

  /** Escaping keeps surrogate pairs together. */
  lemma {:induction false} WriteUnitsWellFormed(s: Text)
    requires WellFormedText(s)
    ensures WellFormedText(WriteUnits(s))
    decreases |s|
  {
    if s != [] {
      if IsHigh(s[0]) {
        WriteUnitsWellFormed(s[2..]);
        assert s[1..][0] == s[1] && s[1..][1..] == s[2..];
        assert WriteUnits(s) == [s[0]] + ([s[1]] + WriteUnits(s[2..]));
        assert WriteUnits(s)[2..] == WriteUnits(s[2..]);
      } else {
        EscapedUnit(s[0]);
        WriteUnitsWellFormed(s[1..]);
        WellFormedConcat(WriteUnit(s[0]), WriteUnits(s[1..]));
      }
    }
  }

  lemma WriteStringWellFormed(s: Text)
    requires WellFormedText(s)
    ensures WellFormedText(WriteString(s))
  {
    hide WriteUnits;
    WriteUnitsWellFormed(s);
    PlainIsWellFormed([QUOTE]);
    WellFormedConcat([QUOTE], WriteUnits(s));
    WellFormedConcat([QUOTE] + WriteUnits(s), [QUOTE]);
  }
}
