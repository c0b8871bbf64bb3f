/**
 Session tokens: sixteen random bytes masked into a version 4 UUID (RFC 4122, section
 4.4) and printed in lower-case hexadecimal, and the check the gateway applies.
 */
module Token {

  type Byte = bv8

  // ---- Hexadecimal ----

  function HexDigit(x: Byte): char {
    if x == 0 then '0' else if x == 1 then '1' else if x == 2 then '2' else if x == 3 then '3'
    else if x == 4 then '4' else if x == 5 then '5' else if x == 6 then '6' else if x == 7 then '7'
    else if x == 8 then '8' else if x == 9 then '9' else if x == 10 then 'a' else if x == 11 then 'b'
    else if x == 12 then 'c' else if x == 13 then 'd' else if x == 14 then 'e' else 'f'
  }

  function UnHex(c: char): Byte {
    if c == '0' then 0 else if c == '1' then 1 else if c == '2' then 2 else if c == '3' then 3
    else if c == '4' then 4 else if c == '5' then 5 else if c == '6' then 6 else if c == '7' then 7
    else if c == '8' then 8 else if c == '9' then 9 else if c == 'a' then 10 else if c == 'b' then 11
    else if c == 'c' then 12 else if c == 'd' then 13 else if c == 'e' then 14 else 15
  }

  predicate LowerHex(c: char) {
    '0' <= c <= '9' || 'a' <= c <= 'f'
  }

  lemma DigitRoundTrip(x: Byte)
    requires x <= 15
    ensures UnHex(HexDigit(x)) == x && LowerHex(HexDigit(x))
  {
  }

  lemma UnHexRoundTrip(c: char)
    requires LowerHex(c)
    ensures HexDigit(UnHex(c)) == c && UnHex(c) <= 15
  {
    hide HexDigit;
    assert c in "0123456789abcdef" by { AllLowerHex(c); }
    UnHexOf(c);
  }

  lemma AllLowerHex(c: char)
    requires LowerHex(c)
    ensures c in "0123456789abcdef"
  {
  }

  lemma UnHexOf(c: char)
    requires c in "0123456789abcdef"
    ensures HexDigit(UnHex(c)) == c && UnHex(c) <= 15
  {
  }

  /** The two digits of a byte. */
  function High(b: Byte): Byte { b >> 4 }

  function Low(b: Byte): Byte { b & 0x0f }

  function Join(high: Byte, low: Byte): Byte { (high << 4) | low }

  lemma Nibbles(b: Byte)
    ensures High(b) <= 15 && Low(b) <= 15 && Join(High(b), Low(b)) == b
  {
  }

  lemma JoinSplit(h: Byte, l: Byte)
    requires h <= 15 && l <= 15
    ensures High(Join(h, l)) == h && Low(Join(h, l)) == l
  {
  }

  // ---- The text of sixteen bytes ----

  function Hex(bytes: seq<Byte>): (s: string)
    ensures |s| == 2 * |bytes|
    ensures forall i :: 0 <= i < |bytes| ==> s[2 * i] == HexDigit(High(bytes[i])) && s[2 * i + 1] == HexDigit(Low(bytes[i]))
  {
    if bytes == [] then ""
    else Hex(bytes[..|bytes| - 1]) + [HexDigit(High(bytes[|bytes| - 1])), HexDigit(Low(bytes[|bytes| - 1]))]
  }

  /** The format of the snprintf call. */
  function Text(b: seq<Byte>): string
    requires |b| == 16
  {
    Hex(b[..4]) + "-" + Hex(b[4..6]) + "-" + Hex(b[6..8]) + "-" + Hex(b[8..10]) + "-" + Hex(b[10..])
  }

  predicate Dash(k: int) {
    k == 8 || k == 13 || k == 18 || k == 23
  }

  /** Where the first digit of byte i stands. */
  function Pos(i: nat): nat {
    2 * i + (if i < 4 then 0 else if i < 6 then 1 else if i < 8 then 2 else if i < 10 then 3 else 4)
  }

  lemma TextAt(b: seq<Byte>, i: nat)
    requires |b| == 16 && i < 16
    ensures |Text(b)| == 36
    ensures Text(b)[Pos(i)] == HexDigit(High(b[i])) && Text(b)[Pos(i) + 1] == HexDigit(Low(b[i]))
    ensures forall k :: 0 <= k < 36 && Dash(k) ==> Text(b)[k] == '-'
  {
    hide HexDigit, High, Low;
    var s1, s2, s3, s4, s5 := Hex(b[..4]), Hex(b[4..6]), Hex(b[6..8]), Hex(b[8..10]), Hex(b[10..]);
    hide Hex;
    Groups(s1, s2, s3, s4, s5);
    assert i < 4 ==> Text(b)[2 * i] == s1[2 * i] && Text(b)[2 * i + 1] == s1[2 * i + 1];
    assert 4 <= i < 6 ==> b[4..6][i - 4] == b[i];
    assert 6 <= i < 8 ==> b[6..8][i - 6] == b[i];
    assert 8 <= i < 10 ==> b[8..10][i - 8] == b[i];
    assert 10 <= i ==> b[10..][i - 10] == b[i];
  }

  /** Where the characters of the five groups stand. */
  lemma Groups(s1: string, s2: string, s3: string, s4: string, s5: string)
    requires |s1| == 8 && |s2| == |s3| == |s4| == 4 && |s5| == 12
    ensures var s := s1 + "-" + s2 + "-" + s3 + "-" + s4 + "-" + s5;
            && |s| == 36 && s[8] == s[13] == s[18] == s[23] == '-'
            && (forall k :: 0 <= k < 8 ==> s[k] == s1[k])
            && (forall k :: 9 <= k < 13 ==> s[k] == s2[k - 9])
            && (forall k :: 14 <= k < 18 ==> s[k] == s3[k - 14])
            && (forall k :: 19 <= k < 23 ==> s[k] == s4[k - 19])
            && (forall k :: 24 <= k < 36 ==> s[k] == s5[k - 24])
  {
  }

  /** Every place that is no dash is one of the two digits of a byte. */
  function ByteAt(k: nat): (i: nat)
    requires k < 36 && !Dash(k)
    ensures i < 16 && (k == Pos(i) || k == Pos(i) + 1)
  {
    if k < 8 then k / 2 else if k < 13 then (k - 1) / 2 else if k < 18 then (k - 2) / 2
    else if k < 23 then (k - 3) / 2 else (k - 4) / 2
  }

  function Decode(s: string): (b: seq<Byte>)
    requires |s| == 36
    ensures |b| == 16
  {
    seq(16, i requires 0 <= i < 16 => Join(UnHex(s[Pos(i)]), UnHex(s[Pos(i) + 1])))
  }

  lemma DecodeText(b: seq<Byte>)
    requires |b| == 16
    ensures |Text(b)| == 36 && Decode(Text(b)) == b
  {
    hide HexDigit, UnHex, High, Low, Join, Text;
    TextAt(b, 0);
    forall i | 0 <= i < 16 ensures Decode(Text(b))[i] == b[i] {
      TextAt(b, i);
      Nibbles(b[i]);
      DigitRoundTrip(High(b[i]));
      DigitRoundTrip(Low(b[i]));
    }
  }

  // ---- The check ----

  predicate HexChar(c: char) {
    '0' <= c <= '9' || 'a' <= c <= 'f' || 'A' <= c <= 'F'
  }

  predicate IsUuid(s: string) {
    |s| == 36 && forall k :: 0 <= k < 36 ==> if Dash(k) then s[k] == '-' else HexChar(s[k])
  }

  lemma HexCharExact(c: char)
    ensures HexChar(c) <==> c in "0123456789abcdefABCDEF"
  {
  }

  /** A UUID in the check's sense: dashes in four places, hexadecimal digits of either case
      elsewhere. */
  lemma UuidExact(s: string)
    ensures IsUuid(s) <==> |s| == 36 && forall k :: 0 <= k < 36 ==>
              if k in [8, 13, 18, 23] then s[k] == '-' else s[k] in "0123456789abcdefABCDEF"
  {
    hide HexChar;
    forall c ensures HexChar(c) <==> c in "0123456789abcdefABCDEF" {
      HexCharExact(c);
    }
  }

  method IsValidUuid(s: string) returns (ok: bool)
    ensures ok <==> IsUuid(s)
    ensures ok <==> |s| == 36 && forall k :: 0 <= k < 36 ==>
              if k in [8, 13, 18, 23] then s[k] == '-' else s[k] in "0123456789abcdefABCDEF"
  {
    UuidExact(s);
    if |s| != 36 {
      return false;
    }
    for i := 0 to 36
      invariant forall k :: 0 <= k < i ==> if Dash(k) then s[k] == '-' else HexChar(s[k])
    {
      if i == 8 || i == 13 || i == 18 || i == 23 {
        if s[i] != '-' {
          return false;
        }
      } else {
        var c := s[i];
        if !(('0' <= c <= '9') || ('a' <= c <= 'f') || ('A' <= c <= 'F')) {
          return false;
        }
      }
    }
    return true;
  }

  // ---- Generating ----

  function Version4(x: Byte): Byte { (x & 0x0f) | 0x40 }

  function Variant10(x: Byte): Byte { (x & 0x3f) | 0x80 }

  function Masked(b: seq<Byte>): (r: seq<Byte>)
    requires |b| == 16
    ensures |r| == 16
  {
    b[6 := Version4(b[6])][8 := Variant10(b[8])]
  }

  /** `random` is what one read of sixteen bytes returned. */
  method Generate(random: seq<Byte>) returns (token: string)
    ensures token == if |random| == 16 then Text(Masked(random)) else ""
  {
    hide Text;
    if |random| != 16 {
      return "";
    }
    var bytes := new Byte[16];
    forall i | 0 <= i < 16 {
      bytes[i] := random[i];
    }
    bytes[6] := (bytes[6] & 0x0f) | 0x40;
    bytes[8] := (bytes[8] & 0x3f) | 0x80;
    assert bytes[..] == Masked(random);
    return Text(bytes[..]);
  }

  // ---- What a token is ----

  /** Version 4, variant 10, lower-case. */
  predicate IsToken(s: string) {
    IsUuid(s) && (forall k :: 0 <= k < 36 && !Dash(k) ==> LowerHex(s[k]))
    && s[14] == '4' && (s[19] == '8' || s[19] == '9' || s[19] == 'a' || s[19] == 'b')
  }

  lemma MaskedDigits(b: seq<Byte>)
    requires |b| == 16
    ensures High(Masked(b)[6]) == 4 && 8 <= High(Masked(b)[8]) <= 11
  {
  }

  /** Every token passes the gateway's check and carries version 4 and variant 10. */
  lemma TokenShape(b: seq<Byte>)
    requires |b| == 16
    ensures IsToken(Text(Masked(b))) && Decode(Text(Masked(b))) == Masked(b)
  {
    var m := Masked(b);
    var s := Text(m);
    MaskedDigits(b);
    VersionDigits(m);
    DecodeText(m);
    hide Masked, Text, High, Low, HexDigit;
    forall k | 0 <= k < 36 ensures if Dash(k) then s[k] == '-' else LowerHex(s[k]) {
      if Dash(k) {
        TextAt(m, 0);
      } else {
        var i := ByteAt(k);
        TextAt(m, i);
        Nibbles(m[i]);
        DigitRoundTrip(High(m[i]));
        DigitRoundTrip(Low(m[i]));
      }
    }
  }

  lemma VersionDigits(m: seq<Byte>)
    requires |m| == 16 && High(m[6]) == 4 && 8 <= High(m[8]) <= 11
    ensures |Text(m)| == 36 && Text(m)[14] == '4'
    ensures Text(m)[19] == '8' || Text(m)[19] == '9' || Text(m)[19] == 'a' || Text(m)[19] == 'b'
  {
    hide Text;
    TextAt(m, 6);
    TextAt(m, 8);
  }

  /** The 122 bits that are left to chance. */
  predicate SameRandomBits(a: seq<Byte>, b: seq<Byte>)
    requires |a| == 16 && |b| == 16
  {
    (forall i :: 0 <= i < 16 && i != 6 && i != 8 ==> a[i] == b[i])
    && a[6] & 0x0f == b[6] & 0x0f && a[8] & 0x3f == b[8] & 0x3f
  }

  lemma MaskKeepsBits(x: Byte, y: Byte)
    ensures Version4(x) == Version4(y) <==> x & 0x0f == y & 0x0f
    ensures Variant10(x) == Variant10(y) <==> x & 0x3f == y & 0x3f
  {
  }

  lemma SameMasked(a: seq<Byte>, b: seq<Byte>)
    requires |a| == 16 && |b| == 16
    ensures Masked(a) == Masked(b) <==> SameRandomBits(a, b)
  {
    hide Version4, Variant10;
    MaskKeepsBits(a[6], b[6]);
    MaskKeepsBits(a[8], b[8]);
    if Masked(a) == Masked(b) {
      forall i | 0 <= i < 16 && i != 6 && i != 8 ensures a[i] == b[i] {
        assert Masked(a)[i] == Masked(b)[i];
      }
      assert Masked(a)[6] == Masked(b)[6] && Masked(a)[8] == Masked(b)[8];
    }
  }

  /** Two inputs give the same token exactly when they agree on those bits. */
  lemma SameToken(a: seq<Byte>, b: seq<Byte>)
    requires |a| == 16 && |b| == 16
    ensures Text(Masked(a)) == Text(Masked(b)) <==> SameRandomBits(a, b)
  {
    hide Text, Decode, Masked, SameRandomBits;
    SameMasked(a, b);
    DecodeText(Masked(a));
    DecodeText(Masked(b));
  }

  /** Every text of that shape is the token of some sixteen bytes. */
  lemma EveryShapeIsAToken(s: string)
    requires IsToken(s)
    ensures Text(Masked(Decode(s))) == s
  {
    var b := Decode(s);
    MaskedAlready(s);
    hide Text, Masked;
    TextAt(b, 0);
    forall k | 0 <= k < 36 ensures Text(b)[k] == s[k] {
      if !Dash(k) {
        var i := ByteAt(k);
        TextOfDecoded(s, i);
      }
    }
  }

  lemma TextOfDecoded(s: string, i: nat)
    requires IsToken(s) && i < 16
    ensures |Text(Decode(s))| == 36
    ensures Text(Decode(s))[Pos(i)] == s[Pos(i)] && Text(Decode(s))[Pos(i) + 1] == s[Pos(i) + 1]
  {
    hide HexDigit, UnHex, High, Low, Join, Text, LowerHex;
    TextAt(Decode(s), i);
    assert !Dash(Pos(i)) && !Dash(Pos(i) + 1);
    UnHexRoundTrip(s[Pos(i)]);
    UnHexRoundTrip(s[Pos(i) + 1]);
    JoinSplit(UnHex(s[Pos(i)]), UnHex(s[Pos(i) + 1]));
  }

  lemma MaskedAlready(s: string)
    requires IsToken(s)
    ensures Masked(Decode(s)) == Decode(s)
  {
    VersionUnHex(s[14], s[19]);
    hide LowerHex, HexChar, HexDigit, UnHex, Join, Version4, Variant10;
    var b := Decode(s);
    assert !Dash(15) && !Dash(20);
    UnHexRoundTrip(s[15]);
    UnHexRoundTrip(s[20]);
    assert Pos(6) == 14 && Pos(8) == 19;
    VersionMask(UnHex(s[15]));
    VariantMask(UnHex(s[19]), UnHex(s[20]));
    assert b[6] == Join(UnHex(s[14]), UnHex(s[15])) && b[8] == Join(UnHex(s[19]), UnHex(s[20]));
  }

  lemma VersionUnHex(v: char, w: char)
    requires v == '4' && (w == '8' || w == '9' || w == 'a' || w == 'b')
    ensures UnHex(v) == 4 && 8 <= UnHex(w) <= 11
  {
  }

  lemma VersionMask(l: Byte)
    requires l <= 15
    ensures Version4(Join(4, l)) == Join(4, l)
  {
  }

  lemma VariantMask(h: Byte, l: Byte)
    requires 8 <= h <= 11 && l <= 15
    ensures Variant10(Join(h, l)) == Join(h, l)
  {
  }
}
