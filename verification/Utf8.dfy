/**
 The UTF-8 boundary of `src/text.ts`. Text is a sequence of Unicode scalar values
 (the source's precondition: no lone surrogate), bytes are numbers below 256, and
 the encoding is that of RFC 3629 section 3.
 */
module Utf8 {

  type Byte = b: int | 0 <= b < 256

  function EncodeChar(c: char): (bytes: seq<Byte>)
    ensures 1 <= |bytes| <= 4
    ensures !IsContinuation(bytes[0])
    ensures forall i :: 1 <= i < |bytes| ==> IsContinuation(bytes[i])
  {
    var v := c as int;
    if v < 0x80 then [v]
    else if v < 0x800 then [0xC0 + v / 64, 0x80 + v % 64]
    else if v < 0x10000 then [0xE0 + v / 4096, 0x80 + v / 64 % 64, 0x80 + v % 64]
    else [0xF0 + v / 262144, 0x80 + v / 4096 % 64, 0x80 + v / 64 % 64, 0x80 + v % 64]
  }

  function Encode(text: string): seq<Byte> {
    if text == "" then [] else EncodeChar(text[0]) + Encode(text[1..])
  }

  /** The bytes a text occupies, without building them. */
  function Length(text: string): nat {
    if text == "" then 0 else |EncodeChar(text[0])| + Length(text[1..])
  }

  /** A continuation byte is `10xxxxxx`. */
  predicate IsContinuation(b: Byte) {
    0x80 <= b < 0xC0
  }

  function ScalarOrReplacement(v: int): char {
    if 0 <= v < 0xD800 || 0xE000 <= v < 0x110000 then v as char else '\U{FFFD}'
  }

  /** How many bytes the character led by `lead` occupies. */
  function Width(lead: int): nat {
    if lead < 0x80 then 1 else if lead < 0xE0 then 2 else if lead < 0xF0 then 3 else 4
  }

  /** The character at the head of well-formed UTF-8; malformed bytes never reach it here. */
  function DecodeHead(bytes: seq<int>): char {
    var n := |bytes|;
    if n == 1 then ScalarOrReplacement(bytes[0])
    else if n == 2 then ScalarOrReplacement((bytes[0] - 0xC0) * 64 + bytes[1] - 0x80)
    else if n == 3 then
      ScalarOrReplacement((bytes[0] - 0xE0) * 4096 + (bytes[1] - 0x80) * 64 + bytes[2] - 0x80)
    else if n == 4 then
      ScalarOrReplacement((bytes[0] - 0xF0) * 262144 + (bytes[1] - 0x80) * 4096
                          + (bytes[2] - 0x80) * 64 + bytes[3] - 0x80)
    else '\U{FFFD}'
  }

  function Decode(bytes: seq<Byte>): string {
    if bytes == [] then ""
    else
      var width := Width(bytes[0]);
      if |bytes| < width then "\U{FFFD}"
      else [DecodeHead(bytes[..width])] + Decode(bytes[width..])
  }

  lemma DecodeTwo(v: nat)
    requires 0x80 <= v < 0x800
    ensures v / 64 * 64 + v % 64 == v && v / 64 < 32
  {
  }

  lemma DecodeThree(v: nat)
    requires 0x800 <= v < 0x10000
    ensures v / 4096 * 4096 + v / 64 % 64 * 64 + v % 64 == v && v / 4096 < 16
  {
    assert v / 4096 * 64 + v / 64 % 64 == v / 64;
  }

  lemma DecodeFour(v: nat)
    requires 0x10000 <= v < 0x110000
    ensures v / 262144 * 262144 + v / 4096 % 64 * 4096 + v / 64 % 64 * 64 + v % 64 == v && v / 262144 < 8
  {
    assert v / 262144 * 64 + v / 4096 % 64 == v / 4096;
    assert v / 4096 * 64 + v / 64 % 64 == v / 64;
  }

  lemma DecodeCharacter(c: char)
    ensures Width(EncodeChar(c)[0]) == |EncodeChar(c)|
    ensures DecodeHead(EncodeChar(c)) == c
  {
    var v := c as int;
    if 0x80 <= v < 0x800 {
      DecodeTwo(v);
    } else if 0x800 <= v < 0x10000 {
      DecodeThree(v);
    } else if 0x10000 <= v {
      DecodeFour(v);
    }
  }

  lemma DecodeFirst(c: char, rest: seq<Byte>)
    ensures Decode(EncodeChar(c) + rest) == [c] + Decode(rest)
  {
    var first := EncodeChar(c);
    var bytes := first + rest;
    DecodeCharacter(c);
    assert bytes[..|first|] == first && bytes[|first|..] == rest;
  }

  lemma {:induction false} DecodeEncode(text: string)
    ensures Decode(Encode(text)) == text
  {
    if text != "" {
      DecodeFirst(text[0], Encode(text[1..]));
      DecodeEncode(text[1..]);
    }
  }

  lemma {:induction false} EncodeConcat(a: string, b: string)
    ensures Encode(a + b) == Encode(a) + Encode(b)
  {
    if a == "" {
      assert a + b == b;
    } else {
      assert (a + b)[1..] == a[1..] + b;
      EncodeConcat(a[1..], b);
    }
  }

  lemma {:induction false} LengthIsEncoded(text: string)
    ensures Length(text) == |Encode(text)|
  {
    if text != "" {
      LengthIsEncoded(text[1..]);
    }
  }

  lemma {:induction false} LengthConcat(a: string, b: string)
    ensures Length(a + b) == Length(a) + Length(b)
  {
    EncodeConcat(a, b);
    LengthIsEncoded(a);
    LengthIsEncoded(b);
    LengthIsEncoded(a + b);
  }

  /** Text of ASCII characters only is as many bytes as characters. */
  lemma {:induction false} LengthAscii(text: string)
    requires forall i :: 0 <= i < |text| ==> text[i] as int < 0x80
    ensures Length(text) == |text|
  {
    if text != "" {
      LengthAscii(text[1..]);
    }
  }

  /** The byte offset of character `k`. */
  function Offset(text: string, k: nat): nat
    requires k <= |text|
  {
    |Encode(text[..k])|
  }

  lemma OffsetStep(text: string, k: nat)
    requires 1 <= k <= |text|
    ensures Offset(text, k) == |EncodeChar(text[0])| + Offset(text[1..], k - 1)
  {
    assert text[..k][0] == text[0];
    assert text[..k][1..] == text[1..][..k - 1];
  }

  lemma {:induction false} OffsetMonotone(text: string, j: nat, k: nat)
    requires j < k <= |text|
    ensures Offset(text, j) < Offset(text, k)
  {
    assert text[..k] == text[..j] + text[j..k];
    EncodeConcat(text[..j], text[j..k]);
    assert |Encode(text[j..k])| >= 1;
  }

  /** No character boundary falls on a continuation byte. */
  lemma {:induction false} BoundaryStartsCharacter(text: string, k: nat)
    requires k < |text|
    ensures Offset(text, k) < |Encode(text)|
    ensures !IsContinuation(Encode(text)[Offset(text, k)])
  {
    assert text == text[..k] + text[k..];
    EncodeConcat(text[..k], text[k..]);
  }

  /** Every byte that is not a continuation byte is a character boundary. */
  lemma {:induction false} CharacterStartIsBoundary(text: string, at: nat) returns (k: nat)
    requires at <= |Encode(text)|
    requires at < |Encode(text)| ==> !IsContinuation(Encode(text)[at])
    ensures k <= |text| && Offset(text, k) == at
  {
    if at == 0 {
      k := 0;
    } else {
      var first := EncodeChar(text[0]);
      assert forall j :: 1 <= j < |first| ==> IsContinuation(Encode(text)[j]);
      var rest := at - |first|;
      assert rest < |Encode(text[1..])| ==> Encode(text)[at] == Encode(text[1..])[rest];
      k := CharacterStartIsBoundary(text[1..], rest);
      k := k + 1;
      OffsetStep(text, k);
    }
  }

  /** `prefix` is the longest prefix of `text`, cut between characters, of at most `maxBytes` bytes. */
  ghost predicate IsLongestPrefix(prefix: string, text: string, maxBytes: nat) {
    && prefix <= text
    && Length(prefix) <= maxBytes
    && forall other: string :: other <= text && Length(other) <= maxBytes ==> other <= prefix
  }

  /** `utf8Prefix`: back the cut up over the character it would split. */
  method Prefix(text: string, maxBytes: nat) returns (prefix: string, bytes: nat)
    ensures IsLongestPrefix(prefix, text, maxBytes)
    ensures bytes == Length(prefix)
  {
    var encoded := Encode(text);
    LengthIsEncoded(text);
    if |encoded| <= maxBytes {
      return text, |encoded|;
    }
    var end := maxBytes;
    while end > 0 && IsContinuation(encoded[end])
      invariant 0 <= end <= maxBytes
      invariant forall j :: end < j <= maxBytes ==> IsContinuation(encoded[j])
    {
      end := end - 1;
    }
    ghost var k := CutBoundary(text, end);
    assert text == text[..k] + text[k..];
    EncodeConcat(text[..k], text[k..]);
    DecodeEncode(text[..k]);
    assert encoded[..end] == Encode(text[..k]);
    LengthIsEncoded(text[..k]);
    CutIsLongest(text, maxBytes, end, k);
    prefix, bytes := Decode(encoded[..end]), end;
  }

  lemma CutBoundary(text: string, end: nat) returns (k: nat)
    requires end < |Encode(text)|
    requires end == 0 || !IsContinuation(Encode(text)[end])
    ensures k <= |text| && Offset(text, k) == end
  {
    if end == 0 {
      k := 0;
    } else {
      k := CharacterStartIsBoundary(text, end);
    }
  }

  lemma CutIsLongest(text: string, maxBytes: nat, end: nat, k: nat)
    requires end <= maxBytes < |Encode(text)|
    requires forall j :: end < j <= maxBytes ==> IsContinuation(Encode(text)[j])
    requires k <= |text| && Offset(text, k) == end
    ensures IsLongestPrefix(text[..k], text, maxBytes)
  {
    LengthIsEncoded(text[..k]);
    forall other: string | other <= text && Length(other) <= maxBytes
      ensures other <= text[..k]
    {
      var n := |other|;
      assert other == text[..n];
      LengthIsEncoded(other);
      if n > k {
        OffsetMonotone(text, k, n);
        assert text[..|text|] == text;
        BoundaryStartsCharacter(text, n);
      }
    }
  }
}
