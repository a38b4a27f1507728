/** UTF-8, section 4 of RFC 3629. */
module Utf8 {
  import opened Bytes

  /** A Unicode scalar value: a code point that is not a surrogate. */
  type Scalar = n: nat | n < 0xD800 || 0xE000 <= n < 0x110000

  predicate Tail(b: Byte) { 0x80 <= b < 0xC0 }

  /** How many bytes the first character takes; 0 if what starts there is none. */
  function FirstLen(s: seq<Byte>): (n: nat)
    ensures n <= |s| && n <= 4
  {
    if s == [] then 0
    else if s[0] < 0x80 then 1
    else if |s| >= 2 && 0xC2 <= s[0] < 0xE0 && Tail(s[1]) then 2
    else if |s| >= 3 && 0xE0 <= s[0] < 0xF0 && Tail(s[1]) && Tail(s[2])
            && (s[0] == 0xE0 ==> s[1] >= 0xA0) && (s[0] == 0xED ==> s[1] < 0xA0) then 3
    else if |s| >= 4 && 0xF0 <= s[0] < 0xF5 && Tail(s[1]) && Tail(s[2]) && Tail(s[3])
            && (s[0] == 0xF0 ==> s[1] >= 0x90) && (s[0] == 0xF4 ==> s[1] < 0x90) then 4
    else 0
  }

  /** utf8.Valid. */
  predicate Valid(s: seq<Byte>)
    decreases |s|
  {
    s == [] || (FirstLen(s) > 0 && Valid(s[FirstLen(s)..]))
  }

  function Encode(c: Scalar): (r: seq<Byte>)
    ensures 1 <= |r| <= 4
  {
    if c < 0x80 then [c]
    else if c < 0x800 then [0xC0 + c / 64, 0x80 + c % 64]
    else if c < 0x10000 then [0xE0 + c / 4096, 0x80 + c / 64 % 64, 0x80 + c % 64]
    else [0xF0 + c / 262144, 0x80 + c / 4096 % 64, 0x80 + c / 64 % 64, 0x80 + c % 64]
  }

  function EncodeAll(cs: seq<Scalar>): seq<Byte> {
    if cs == [] then [] else Encode(cs[0]) + EncodeAll(cs[1..])
  }

  lemma EncodeIsFirst(c: Scalar, rest: seq<Byte>)
    ensures FirstLen(Encode(c) + rest) == |Encode(c)|
  {
  }

  lemma {:induction false} EncodedIsValid(cs: seq<Scalar>)
    ensures Valid(EncodeAll(cs))
  {
    if cs != [] {
      EncodeIsFirst(cs[0], EncodeAll(cs[1..]));
      EncodedIsValid(cs[1..]);
      assert (Encode(cs[0]) + EncodeAll(cs[1..]))[|Encode(cs[0])|..] == EncodeAll(cs[1..]);
    }
  }

  /** The scalar the first character stands for. */
  function FirstScalar(s: seq<Byte>): (c: Scalar)
    requires FirstLen(s) > 0
  {
    var b: seq<int> := s;
    match FirstLen(s)
    case 1 => b[0]
    case 2 => (b[0] - 0xC0) * 64 + (b[1] - 0x80)
    case 3 => (b[0] - 0xE0) * 4096 + (b[1] - 0x80) * 64 + (b[2] - 0x80)
    case _ => (b[0] - 0xF0) * 262144 + (b[1] - 0x80) * 4096 + (b[2] - 0x80) * 64 + (b[3] - 0x80)
  }

  lemma Digits(n: nat, a: nat, b: nat, c: nat)
    requires a < 64 && b < 64 && c < 64
    ensures var v := n * 262144 + a * 4096 + b * 64 + c;
            v % 64 == c && v / 64 % 64 == b && v / 4096 % 64 == a && v / 262144 == n
            && v / 64 == n * 4096 + a * 64 + b && v / 4096 == n * 64 + a
  {
  }

  lemma FirstEncodes(s: seq<Byte>)
    requires FirstLen(s) > 0
    ensures Encode(FirstScalar(s)) == s[..FirstLen(s)]
  {
    match FirstLen(s)
    case 1 =>
    case 2 => Digits(0, 0, s[0] - 0xC0, s[1] - 0x80);
    case 3 => Digits(0, s[0] - 0xE0, s[1] - 0x80, s[2] - 0x80);
    case _ => Digits(s[0] - 0xF0, s[1] - 0x80, s[2] - 0x80, s[3] - 0x80);
  }

  lemma EncodeAllCons(c: Scalar, cs: seq<Scalar>)
    ensures EncodeAll([c] + cs) == Encode(c) + EncodeAll(cs)
  {
    assert ([c] + cs)[1..] == cs;
  }

  lemma {:induction false} ValidIsEncoded(s: seq<Byte>) returns (cs: seq<Scalar>)
    requires Valid(s)
    ensures EncodeAll(cs) == s
    decreases |s|
  {
    cs := [];
    if s != [] {
      var c, n := FirstScalar(s), FirstLen(s);
      FirstEncodes(s);
      cs := ValidIsEncoded(s[n..]);
      EncodeAllCons(c, cs);
      cs := [c] + cs;
      SplitBack(s, n);
    }
  }

  lemma SplitBack(s: seq<Byte>, n: nat)
    requires n <= |s|
    ensures s[..n] + s[n..] == s
  {
  }

  /** The bytes that utf8.Valid accepts are exactly the encodings of sequences of scalar values. */
  lemma ValidIffEncodes(s: seq<Byte>)
    ensures Valid(s) <==> exists cs :: s == EncodeAll(cs)
  {
    if Valid(s) { var cs := ValidIsEncoded(s); }
    if cs :| s == EncodeAll(cs) { EncodedIsValid(cs); }
  }

  lemma {:induction false} AsciiIsValid(s: seq<Byte>)
    requires forall i :: 0 <= i < |s| ==> s[i] < 0x80
    ensures Valid(s)
    decreases |s|
  {
    if s != [] { AsciiIsValid(s[1..]); }
  }
}
