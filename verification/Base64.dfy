/** Standard base64, section 4 of RFC 4648, as Go encodes and decodes it: the decoder skips line breaks and does not
    look at the bits that padding leaves over. */
module Base64 {
  import opened Options
  import opened Bytes

  type Sextet = n: nat | n < 64

  const PAD: Byte := 61   // '='

  function Char(v: Sextet): (c: Byte)
    ensures c < 128 && c != PAD && !IsBreak(c) && Value(c) == Some(v)
  {
    if v < 26 then 65 + v else if v < 52 then 97 + (v - 26) else if v < 62 then 48 + (v - 52)
        else if v == 62 then 43 else 47
  }

  function Value(c: Byte): Option<Sextet> {
    if 65 <= c < 91 then Some(c - 65)
    else if 97 <= c < 123 then Some(c - 97 + 26)
    else if 48 <= c < 58 then Some(c - 48 + 52)
    else if c == 43 then Some(62)
    else if c == 47 then Some(63)
    else None
  }

  predicate IsBreak(c: Byte) { c == 10 || c == 13 }

  // The groups of four for one, two and three bytes.

  function Padded1(x: Byte): seq<Byte> { [Char(x / 4), Char(x % 4 * 16), PAD, PAD] }

  function Padded2(x: Byte, y: Byte): seq<Byte> { [Char(x / 4), Char(x % 4 * 16 + y / 16), Char(y % 16 * 4), PAD] }

  function Group(x: Byte, y: Byte, z: Byte): seq<Byte> {
    [Char(x / 4), Char(x % 4 * 16 + y / 16), Char(y % 16 * 4 + z / 64), Char(z % 64)]
  }

  function Encode(s: seq<Byte>): (r: seq<Byte>)
    ensures |r| == (|s| + 2) / 3 * 4
    ensures forall i :: 0 <= i < |r| ==> r[i] < 128 && !IsBreak(r[i])
  {
    if s == [] then []
    else if |s| == 1 then Padded1(s[0])
    else if |s| == 2 then Padded2(s[0], s[1])
    else
      Group(s[0], s[1], s[2]) + Encode(s[3..])
  }

  function WithoutBreaks(s: seq<Byte>): seq<Byte> {
    if s == [] then [] else (if IsBreak(s[0]) then [] else [s[0]]) + WithoutBreaks(s[1..])
  }

  /** One group of four; only the last may be padded. */
  function DecodeGroup(w: Byte, x: Byte, y: Byte, z: Byte, last: bool): Option<seq<Byte>> {
    if Value(w) == None || Value(x) == None then None
    else
      var a, b := Value(w).value, Value(x).value;
      var first: Byte := a * 4 + b / 16;
      if y == PAD then if last && z == PAD then Some([first]) else None
      else if Value(y) == None then None
      else
        var c := Value(y).value;
        var second: Byte := b % 16 * 16 + c / 4;
        if z == PAD then if last then Some([first, second]) else None
        else if Value(z) == None then None
        else Some([first, second, c % 4 * 64 + Value(z).value])
  }

  function DecodeGroups(s: seq<Byte>): Option<seq<Byte>> {
    if s == [] then Some([])
    else if |s| < 4 then None
    else
      match DecodeGroup(s[0], s[1], s[2], s[3], |s| == 4)
      case None => None
      case Some(group) =>
        match DecodeGroups(s[4..])
        case None => None
        case Some(rest) => Some(group + rest)
  }

  function Decode(s: seq<Byte>): Option<seq<Byte>> { DecodeGroups(WithoutBreaks(s)) }

  lemma {:induction false} NoBreaks(s: seq<Byte>)
    requires forall i :: 0 <= i < |s| ==> !IsBreak(s[i])
    ensures WithoutBreaks(s) == s
  {
    if s != [] { NoBreaks(s[1..]); }
  }

  lemma Regrouped(x: Byte, y: Byte, z: Byte)
    ensures x / 4 * 4 + (x % 4 * 16 + y / 16) / 16 == x
    ensures (x % 4 * 16 + y / 16) % 16 * 16 + (y % 16 * 4 + z / 64) / 4 == y
    ensures (y % 16 * 4 + z / 64) % 4 * 64 + z % 64 == z
  {
  }

  lemma OneByte(x: Byte)
    ensures DecodeGroups(Padded1(x)) == Some([x])
  {
    Regrouped(x, 0, 0);
    Last(Padded1(x), [x]);
  }

  lemma TwoBytes(x: Byte, y: Byte)
    ensures DecodeGroups(Padded2(x, y)) == Some([x, y])
  {
    Regrouped(x, y, 0);
    Last(Padded2(x, y), [x, y]);
  }

  lemma ThreeBytes(x: Byte, y: Byte, z: Byte, last: bool)
    ensures var g := Group(x, y, z); DecodeGroup(g[0], g[1], g[2], g[3], last) == Some([x, y, z])
  {
    Regrouped(x, y, z);
  }

  lemma Last(e: seq<Byte>, s: seq<Byte>)
    requires |e| == 4 && DecodeGroup(e[0], e[1], e[2], e[3], true) == Some(s)
    ensures DecodeGroups(e) == Some(s)
  {
    assert s + [] == s;
  }

  lemma FirstGroup(g: seq<Byte>, rest: seq<Byte>)
    requires |g| == 4 && DecodeGroup(g[0], g[1], g[2], g[3], rest == []).Some? && DecodeGroups(rest).Some?
    ensures DecodeGroups(g + rest)
            == Some(DecodeGroup(g[0], g[1], g[2], g[3], rest == []).value + DecodeGroups(rest).value)
  {
    assert (g + rest)[4..] == rest;
  }

  predicate ComesBack(s: seq<Byte>) { DecodeGroups(Encode(s)) == Some(s) }

  lemma {:induction false} GroupsRoundTrip(s: seq<Byte>)
    ensures ComesBack(s)
  {
    if |s| < 3 {
      LastComesBack(s);
    } else {
      GroupsRoundTrip(s[3..]);
      GroupAndRest(s[0], s[1], s[2], s[3..]);
      assert s == [s[0], s[1], s[2]] + s[3..];
    }
  }

  lemma LastComesBack(s: seq<Byte>)
    requires |s| < 3
    ensures ComesBack(s)
  {
    if |s| == 1 {
      OneByte(s[0]);
      assert s == [s[0]];
    } else if |s| == 2 {
      TwoBytes(s[0], s[1]);
      assert s == [s[0], s[1]];
    }
  }

  lemma GroupAndRest(x: Byte, y: Byte, z: Byte, rest: seq<Byte>)
    requires ComesBack(rest)
    ensures ComesBack([x, y, z] + rest)
  {
    ThreeBytes(x, y, z, Encode(rest) == []);
    FirstGroup(Group(x, y, z), Encode(rest));
    assert ([x, y, z] + rest)[3..] == rest;
  }

  /** What was encoded is decoded. */
  lemma RoundTrip(s: seq<Byte>)
    ensures Decode(Encode(s)) == Some(s)
  {
    NoBreaks(Encode(s));
    GroupsRoundTrip(s);
  }

  lemma {:induction false} WithoutBreaksAppend(a: seq<Byte>, b: seq<Byte>)
    ensures WithoutBreaks(a + b) == WithoutBreaks(a) + WithoutBreaks(b)
  {
    if a == [] {
      assert a + b == b;
    } else {
      WithoutBreaksAppend(a[1..], b);
      FirstAppend(a[0], a[1..], b);
      assert [a[0]] + a[1..] == a;
    }
  }

  lemma FirstAppend(c: Byte, a: seq<Byte>, b: seq<Byte>)
    requires WithoutBreaks(a + b) == WithoutBreaks(a) + WithoutBreaks(b)
    ensures WithoutBreaks([c] + a + b) == WithoutBreaks([c] + a) + WithoutBreaks(b)
  {
    var first := if IsBreak(c) then [] else [c];
    calc {
      WithoutBreaks([c] + a + b);
      { Reassociate([c], a, b); }
      WithoutBreaks([c] + (a + b));
      { WithoutBreaksFirst(c, a + b); }
      first + (WithoutBreaks(a) + WithoutBreaks(b));
      { Reassociate(first, WithoutBreaks(a), WithoutBreaks(b)); }
      first + WithoutBreaks(a) + WithoutBreaks(b);
      { WithoutBreaksFirst(c, a); }
      WithoutBreaks([c] + a) + WithoutBreaks(b);
    }
  }

  lemma Reassociate(a: seq<Byte>, b: seq<Byte>, c: seq<Byte>)
    ensures a + b + c == a + (b + c)
  {
  }

  lemma WithoutBreaksFirst(c: Byte, s: seq<Byte>)
    ensures WithoutBreaks([c] + s) == (if IsBreak(c) then [] else [c]) + WithoutBreaks(s)
  {
    assert ([c] + s)[1..] == s;
  }

  /** Wherever a line is broken, it is decoded as if it were not. */
  lemma BreaksDoNotMatter(a: seq<Byte>, b: seq<Byte>)
    ensures Decode(a + ['\n' as int] + b) == Decode(a + b) && Decode(a + ['\r' as int] + b) == Decode(a + b)
  {
    BreakDrops(a, 10, b);
    BreakDrops(a, 13, b);
  }

  lemma BreakDrops(a: seq<Byte>, c: Byte, b: seq<Byte>)
    requires c == 10 || c == 13
    ensures WithoutBreaks(a + [c] + b) == WithoutBreaks(a + b)
  {
    WithoutBreaksAppend(a + [c], b);
    WithoutBreaksAppend(a, [c]);
    WithoutBreaksAppend(a, b);
    assert [c][1..] == [];
    assert WithoutBreaks(a) + [] == WithoutBreaks(a);
  }

  predicate InAlphabet(c: Byte) {
    'A' <= c as char <= 'Z' || 'a' <= c as char <= 'z' || '0' <= c as char <= '9' || c as char == '+' || c as char == '/'
  }

  /** Groups of four of the alphabet; the last two characters, or the last, may be '='. */
  predicate WellFormed(s: seq<Byte>) {
    |s| % 4 == 0 && forall i :: 0 <= i < |s| ==> Placed(s, i)
  }

  predicate Placed(s: seq<Byte>, i: nat)
    requires i < |s|
  {
    InAlphabet(s[i]) || (s[i] as char == '=' && (i == |s| - 1 || (i == |s| - 2 && s[i + 1] as char == '=')))
  }

  /** What can be decoded, and what is refused. */
  lemma DecodableIff(s: seq<Byte>)
    requires forall i :: 0 <= i < |s| ==> s[i] as char != '\n' && s[i] as char != '\r'
    ensures Decode(s).Some? <==> WellFormed(s)
  {
    NoBreaks(s);
    GroupsDecodable(s);
  }

  lemma ValueIff(c: Byte)
    ensures Value(c).Some? <==> InAlphabet(c)
  {
  }

  lemma {:induction false} GroupsDecodable(s: seq<Byte>)
    ensures DecodeGroups(s).Some? <==> WellFormed(s)
  {
    if |s| >= 4 {
      GroupDecodable(s);
      if |s| > 4 {
        GroupsDecodable(s[4..]);
        WellFormedFrom4(s);
      }
    }
  }

  lemma GroupDecodable(s: seq<Byte>)
    requires |s| >= 4
    ensures DecodeGroup(s[0], s[1], s[2], s[3], |s| == 4).Some?
            <==> if |s| == 4 then WellFormed(s) else AllFour(s)
  {
    assert |s| == 4 ==> (WellFormed(s) <==> Placed(s, 0) && Placed(s, 1) && Placed(s, 2) && Placed(s, 3));
    ValueIff(s[0]);
    ValueIff(s[1]);
    ValueIff(s[2]);
    ValueIff(s[3]);
  }

  lemma WellFormedFrom4(s: seq<Byte>)
    requires |s| > 4
    ensures |s| % 4 == 0 ==> (WellFormed(s) <==> AllFour(s) && WellFormed(s[4..]))
  {
    if |s| % 4 == 0 {
      var t := s[4..];
      forall i | 0 <= i < |t| ensures Placed(t, i) <==> Placed(s, i + 4) { }
      if AllFour(s) && WellFormed(t) {
        forall i | 0 <= i < |s| ensures Placed(s, i) {
          if i >= 4 { assert Placed(t, i - 4); }
        }
      }
      if WellFormed(s) {
        assert Placed(s, 0) && Placed(s, 1) && Placed(s, 2) && Placed(s, 3);
        forall i | 0 <= i < |t| ensures Placed(t, i) { assert Placed(s, i + 4); }
      }
    }
  }

  predicate AllFour(s: seq<Byte>)
    requires |s| >= 4
  {
    InAlphabet(s[0]) && InAlphabet(s[1]) && InAlphabet(s[2]) && InAlphabet(s[3])
  }

  // ---------------------------------------------------------------------------------------------
  // What section 4 of RFC 4648 says of the encoding
  // ---------------------------------------------------------------------------------------------

  /** Table 1. */
  lemma AlphabetIsStandard(v: Sextet)
    ensures v < 26 ==> Char(v) as char == 'A' + v as char
    ensures 26 <= v < 52 ==> Char(v) as char == 'a' + (v - 26) as char
    ensures 52 <= v < 62 ==> Char(v) as char == '0' + (v - 52) as char
    ensures Char(62) as char == '+' && Char(63) as char == '/' && PAD as char == '='
  {
  }

  /** What a character stands for, as a digit to the base of 64; padding is no more than a zero. */
  function Digit(c: Byte): nat { if Value(c).Some? then Value(c).value else 0 }

  function Digits(w: Byte, x: Byte, y: Byte, z: Byte): nat {
    ((Digit(w) * 64 + Digit(x)) * 64 + Digit(y)) * 64 + Digit(z)
  }

  function Number(x: nat, y: nat, z: nat): nat { (x * 256 + y) * 256 + z }

  lemma GroupIsNumber(x: Byte, y: Byte, z: Byte)
    ensures var g := Group(x, y, z); Digits(g[0], g[1], g[2], g[3]) == Number(x, y, z)
    ensures var g := Padded2(x, y); Digits(g[0], g[1], g[2], g[3]) == Number(x, y, 0)
    ensures var g := Padded1(x); Digits(g[0], g[1], g[2], g[3]) == Number(x, 0, 0)
  {
    SixBits(x, y, z);
    SixBits(x, y, 0);
    SixBits(x, 0, 0);
  }

  lemma SixBits(x: Byte, y: Byte, z: Byte)
    ensures ((x / 4 * 64 + (x % 4 * 16 + y / 16)) * 64 + (y % 16 * 4 + z / 64)) * 64 + z % 64 == Number(x, y, z)
  {
  }

  /** Four characters stand for the first three of some bytes, as one number. Where one or two bytes are left at the end,
      the missing ones are zeros, and a '=' is put for each. */
  predicate StandsFor(g: seq<Byte>, s: seq<Byte>)
    requires |g| == 4 && s != []
  {
    && Digits(g[0], g[1], g[2], g[3]) == Number(s[0], if |s| > 1 then s[1] else 0, if |s| > 2 then s[2] else 0)
    && g[0] != PAD && g[1] != PAD && (g[2] == PAD <==> |s| == 1) && (g[3] == PAD <==> |s| <= 2)
  }

  lemma FirstStandsFor(s: seq<Byte>)
    requires s != []
    ensures |Encode(s)| >= 4 && StandsFor(Encode(s)[..4], s)
  {
    GroupIsNumber(s[0], if |s| > 1 then s[1] else 0, if |s| > 2 then s[2] else 0);
  }

  /** Group by group, the encoding is that number's digits. */
  lemma {:induction false} EncodesBits(s: seq<Byte>, i: nat)
    requires 3 * i < |s|
    ensures 4 * i + 4 <= |Encode(s)| && StandsFor(Encode(s)[4 * i..4 * i + 4], s[3 * i..])
  {
    if i == 0 {
      FirstStandsFor(s);
    } else {
      EncodesBits(s[3..], i - 1);
      Later(Group(s[0], s[1], s[2]), Encode(s[3..]), 4 * i - 4);
      assert s[3..][3 * (i - 1)..] == s[3 * i..];
    }
  }

  lemma Later(g: seq<Byte>, rest: seq<Byte>, i: nat)
    requires |g| == 4 && i + 4 <= |rest|
    ensures (g + rest)[i + 4..i + 8] == rest[i..i + 4]
  {
  }
}
