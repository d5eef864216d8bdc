/** Hexadecimal and standard base64 (section 4 of RFC 4648, with padding), as Go decodes them. */
module Encodings {
  import opened Base
  import opened Text

  // --- hexadecimal ---

  function HexDigit(n: nat): Octet
    requires n < 16
  {
    if n < 10 then ('0' as int + n) as char else ('a' as int + n - 10) as char
  }

  /** The digits 0 to 9, then a to f. */
  lemma HexAlphabet(n: nat)
    ensures HexDigit(0) == '0' && HexDigit(10) == 'a'
    ensures n < 15 && n != 9 ==> HexDigit(n + 1) as int == HexDigit(n) as int + 1
  {
  }

  function HexValue(c: Octet): (v: Option<int>)
    ensures v.Some? ==> 0 <= v.value < 16
  {
    if '0' <= c <= '9' then Some(c as int - '0' as int)
    else if 'a' <= c <= 'f' then Some(c as int - 'a' as int + 10)
    else if 'A' <= c <= 'F' then Some(c as int - 'A' as int + 10)
    else None
  }

  function HexEncode(s: Bytes): (t: Bytes)
    ensures |t| == 2 * |s|
    ensures forall c <- t :: HexValue(c).Some?
  {
    if s == [] then []
    else [HexDigit(s[0] as int / 16), HexDigit(s[0] as int % 16)] + HexEncode(s[1..])
  }

  /** hex.DecodeString: an even number of hexadecimal digits of either case. */
  function HexDecode(t: Bytes): (r: Option<Bytes>)
    ensures r.Some? ==> |t| == 2 * |r.value|
    ensures r.Some? ==> forall c <- t :: HexValue(c).Some?
  {
    if t == [] then Some([])
    else if |t| == 1 then None
    else
      var hi, lo, rest := HexValue(t[0]), HexValue(t[1]), HexDecode(t[2..]);
      if hi.None? || lo.None? || rest.None? then None
      else
        assert t == [t[0], t[1]] + t[2..];
        Some([(16 * hi.value + lo.value) as char] + rest.value)
  }

  lemma HexOctet(c: Octet)
    ensures HexValue(HexDigit(c as int / 16)) == Some(c as int / 16)
    ensures HexValue(HexDigit(c as int % 16)) == Some(c as int % 16)
    ensures (16 * (c as int / 16) + c as int % 16) as char == c
  {
  }

  lemma {:induction false} HexRoundTrip(s: Bytes)
    ensures HexDecode(HexEncode(s)) == Some(s)
  {
    if s != [] {
      HexRoundTrip(s[1..]);
      HexOctet(s[0]);
      assert s == [s[0]] + s[1..];
      assert HexEncode(s)[2..] == HexEncode(s[1..]);
    }
  }

  lemma HexOctets(c: Octet)
    ensures HexValue(c).Some? <==> 48 <= c as int <= 57 || 65 <= c as int <= 70 || 97 <= c as int <= 102
    ensures HexValue(c).Some? ==> HexDigit(HexValue(c).value) == Lower(c)
  {
  }

  /** Exactly the texts of an even number of hexadecimal digits, of either case, decode. */
  lemma {:induction false} HexDecodesExactly(t: Bytes)
    ensures HexDecode(t).Some? <==>
              && |t| % 2 == 0
              && forall i :: 0 <= i < |t| ==>
                   48 <= t[i] as int <= 57 || 65 <= t[i] as int <= 70 || 97 <= t[i] as int <= 102
    decreases |t|
  {
    if |t| >= 2 {
      HexDecodesExactly(t[2..]);
      HexOctets(t[0]);
      HexOctets(t[1]);
      assert forall i :: 2 <= i < |t| ==> t[i] == t[2..][i - 2];
      assert forall i :: 0 <= i < |t[2..]| ==> t[2..][i] == t[i + 2];
    }
  }

  /** Encoding what was decoded gives the text back in lower case. */
  lemma {:induction false} HexLowers(t: Bytes)
    requires HexDecode(t).Some?
    ensures HexEncode(HexDecode(t).value) == ToLower(t)
    decreases |t|
  {
    if t != [] {
      var rest := t[2..];
      HexLowers(rest);
      HexOctets(t[0]);
      HexOctets(t[1]);
      var hi, lo := HexValue(t[0]).value, HexValue(t[1]).value;
      var s := HexDecode(t).value;
      assert s[0] as int / 16 == hi && s[0] as int % 16 == lo && s[1..] == HexDecode(rest).value;
      assert ToLower(t) == [Lower(t[0]), Lower(t[1])] + ToLower(rest);
    }
  }

  lemma HexInjective(a: Bytes, b: Bytes)
    requires HexEncode(a) == HexEncode(b)
    ensures a == b
  {
    HexRoundTrip(a);
    HexRoundTrip(b);
  }

  // --- base64 ---

  /** The pad character '=' has code PAD; every other character outside the alphabet has code BAD. */
  const PAD: Code := 64
  const BAD: nat := 65

  /** A six-bit value, or PAD. */
  type Code = n: int | 0 <= n <= 64

  /** An octet as a number. */
  type Byte = n: int | 0 <= n < 256

  function B64Char(n: Code): Octet {
    if n < 26 then ('A' as int + n) as char
    else if n < 52 then ('a' as int + n - 26) as char
    else if n < 62 then ('0' as int + n - 52) as char
    else if n == 62 then '+' else if n == 63 then '/' else '='
  }

  function B64Code(c: Octet): (v: nat)
    ensures v <= BAD
  {
    if 'A' <= c <= 'Z' then c as int - 'A' as int
    else if 'a' <= c <= 'z' then c as int - 'a' as int + 26
    else if '0' <= c <= '9' then c as int - '0' as int + 52
    else if c == '+' then 62 else if c == '/' then 63 else if c == '=' then PAD else BAD
  }

  /** The alphabet of section 4 of RFC 4648: A to Z, a to z, 0 to 9, plus, slash, and the padding. */
  lemma B64Alphabet(n: Code)
    ensures B64Char(0) == 'A' && B64Char(26) == 'a' && B64Char(52) == '0'
    ensures B64Char(62) == '+' && B64Char(63) == '/' && B64Char(64) == '='
    ensures n < 61 && n != 25 && n != 51 ==> B64Char(n + 1) as int == B64Char(n) as int + 1
  {
  }

  predicate IsB64Char(c: Octet) { B64Code(c) != BAD }

  lemma B64CodeOfChar(n: Code)
    ensures B64Code(B64Char(n)) == n
  {
  }

  /** Six bits each of three octets; missing octets at the end count as zero and are padded. */
  function B64Codes(s: seq<Byte>): (q: seq<Code>)
    ensures s != [] ==> q != []
  {
    if |s| == 0 then []
    else if |s| == 1 then [s[0] / 4, s[0] % 4 * 16, PAD, PAD]
    else if |s| == 2 then [s[0] / 4, s[0] % 4 * 16 + s[1] / 16, s[1] % 16 * 4, PAD]
    else [s[0] / 4, s[0] % 4 * 16 + s[1] / 16, s[1] % 16 * 4 + s[2] / 64, s[2] % 64] + B64Codes(s[3..])
  }

  function Numbers(s: Bytes): (q: seq<Byte>)
    ensures |q| == |s|
  {
    seq(|s|, i requires 0 <= i < |s| => s[i] as int)
  }

  function Chars(q: seq<Byte>): (s: Bytes)
    ensures |s| == |q|
  {
    seq(|q|, i requires 0 <= i < |q| => q[i] as char)
  }

  function Spell(q: seq<Code>): (t: Bytes)
    ensures |t| == |q| && forall c <- t :: IsB64Char(c)
  {
    if q == [] then []
    else
      B64CodeOfChar(q[0]);
      [B64Char(q[0])] + Spell(q[1..])
  }

  function B64Encode(s: Bytes): (t: Bytes)
    ensures forall c <- t :: IsB64Char(c)
    ensures s != [] ==> t != []
  {
    Spell(B64Codes(Numbers(s)))
  }

  predicate IsNewline(c: Octet) { c == '\r' || c == '\n' }

  function DropNewlines(t: Bytes): Bytes {
    if t == [] then []
    else if IsNewline(t[0]) then DropNewlines(t[1..])
    else [t[0]] + DropNewlines(t[1..])
  }

  /** Complete quantums of four; padding only in the last; spare bits of a padded quantum are ignored. */
  function B64Octets(q: seq<nat>): Option<seq<Byte>> {
    if q == [] then Some([])
    else if |q| < 4 || q[0] >= PAD || q[1] >= PAD then None
    else
      var x := q[0] * 4 + q[1] / 16;
      if q[2] == PAD then if q[3] == PAD && |q| == 4 then Some([x]) else None
      else if q[2] > PAD then None
      else
        var y := q[1] % 16 * 16 + q[2] / 4;
        if q[3] == PAD then if |q| == 4 then Some([x, y]) else None
        else if q[3] > PAD then None
        else
          match B64Octets(q[4..])
          case None => None
          case Some(rest) => Some([x, y, q[2] % 4 * 64 + q[3]] + rest)
  }

  /** Six-bit values, except that the last one or two may be padding. */
  predicate Quantums(q: seq<nat>) {
    && |q| % 4 == 0 && (forall i :: 0 <= i < |q| - 2 ==> q[i] < 64)
    && (q != [] ==> q[|q| - 1] <= 64 && (q[|q| - 2] < 64 || (q[|q| - 2] == 64 && q[|q| - 1] == 64)))
  }

  /** Exactly complete quantums decode. */
  lemma {:induction false} B64DecodesExactly(q: seq<nat>)
    ensures B64Octets(q).Some? <==> Quantums(q)
    decreases |q|
  {
    if |q| > 4 {
      var rest := q[4..];
      B64DecodesExactly(rest);
      assert forall i :: 0 <= i < |rest| ==> rest[i] == q[i + 4];
      assert forall i :: 4 <= i < |q| ==> q[i] == rest[i - 4];
    } else if |q| == 4 {
      assert q[4..] == [];
    }
  }

  /** Only carriage returns and line feeds are skipped. */
  lemma {:induction false} NewlinesExactly(a: Bytes, b: Bytes)
    ensures DropNewlines(a + b) == DropNewlines(a) + DropNewlines(b)
    ensures (forall i :: 0 <= i < |a| ==> a[i] as int == 10 || a[i] as int == 13) ==> DropNewlines(a) == []
    ensures (forall i :: 0 <= i < |a| ==> a[i] as int != 10 && a[i] as int != 13) ==> DropNewlines(a) == a
  {
    if a == [] {
      assert a + b == b;
    } else {
      assert (a + b)[1..] == a[1..] + b && (a + b)[0] == a[0];
      NewlinesExactly(a[1..], b);
      assert a == [a[0]] + a[1..];
      assert '\r' as int == 13 && '\n' as int == 10;
    }
  }

  function ReadCodes(t: Bytes): (q: seq<nat>)
    ensures |q| == |t|
  {
    if t == [] then [] else [B64Code(t[0])] + ReadCodes(t[1..])
  }

  /** base64.StdEncoding.DecodeString: carriage returns and line feeds are skipped anywhere. */
  function B64Decode(t: Bytes): Option<Bytes> {
    match B64Octets(ReadCodes(DropNewlines(t)))
    case None => None
    case Some(q) => Some(Chars(q))
  }

  /** The bit fields of one quantum reassemble to the three octets they came from. */
  lemma B64Bits(a: Byte, b: Byte, c: Byte)
    ensures (a / 4) * 4 + (a % 4 * 16 + b / 16) / 16 == a
    ensures (a % 4 * 16 + b / 16) % 16 * 16 + (b % 16 * 4 + c / 64) / 4 == b
    ensures (b % 16 * 4 + c / 64) % 4 * 64 + c % 64 == c
  {
  }

  lemma DecodeQuantum(w: nat, x: nat, y: nat, z: nat, q: seq<nat>)
    requires w < 64 && x < 64 && y < 64 && z < 64
    ensures B64Octets([w, x, PAD, PAD]) == Some([w * 4 + x / 16])
    ensures B64Octets([w, x, y, PAD]) == Some([w * 4 + x / 16, x % 16 * 16 + y / 4])
    ensures B64Octets(q).Some? ==>
      B64Octets([w, x, y, z] + q) == Some([w * 4 + x / 16, x % 16 * 16 + y / 4, y % 4 * 64 + z] + B64Octets(q).value)
  {
    assert ([w, x, y, z] + q)[4..] == q;
  }

  lemma B64TailOne(s: seq<Byte>, a: Byte)
    requires s == [a]
    ensures B64Octets(B64Codes(s)) == Some(s)
  {
    var w, x := a / 4, a % 4 * 16;
    assert w * 4 + x / 16 == a;
    assert B64Codes(s) == [w, x, PAD, PAD];
    DecodeQuantum(w, x, 0, 0, []);
  }

  lemma B64TailTwo(s: seq<Byte>, a: Byte, b: Byte)
    requires s == [a, b]
    ensures B64Octets(B64Codes(s)) == Some(s)
  {
    B64Bits(a, b, 0);
    var w, x, y := a / 4, a % 4 * 16 + b / 16, b % 16 * 4;
    assert B64Codes(s) == [w, x, y, PAD];
    DecodeQuantum(w, x, y, 0, []);
  }

  lemma B64CodesThree(s: seq<Byte>)
    requires |s| >= 3
    ensures B64Codes(s) ==
      [s[0] / 4, s[0] % 4 * 16 + s[1] / 16, s[1] % 16 * 4 + s[2] / 64, s[2] % 64] + B64Codes(s[3..])
  {
  }

  lemma B64Three(s: seq<Byte>, w: Code, x: Code, y: Code, z: Code, codes: seq<Code>)
    requires |s| >= 3 && B64Octets(codes) == Some(s[3..])
    requires w < 64 && x < 64 && y < 64 && z < 64
    requires w * 4 + x / 16 == s[0] && x % 16 * 16 + y / 4 == s[1] && y % 4 * 64 + z == s[2]
    ensures B64Octets([w, x, y, z] + codes) == Some(s)
  {
    DecodeQuantum(w, x, y, z, codes);
    assert s == [s[0], s[1], s[2]] + s[3..];
  }

  lemma {:induction false} B64CodesRoundTrip(s: seq<Byte>)
    ensures B64Octets(B64Codes(s)) == Some(s)
  {
    if |s| == 1 {
      B64TailOne(s, s[0]);
    } else if |s| == 2 {
      B64TailTwo(s, s[0], s[1]);
    } else if s != [] {
      B64CodesRoundTrip(s[3..]);
      var a, b, c := s[0], s[1], s[2];
      B64CodesThree(s);
      B64Bits(a, b, c);
      B64Three(s, a / 4, a % 4 * 16 + b / 16, b % 16 * 4 + c / 64, c % 64, B64Codes(s[3..]));
    }
  }

  lemma {:induction false} ReadSpelled(q: seq<Code>)
    ensures ReadCodes(Spell(q)) == q && DropNewlines(Spell(q)) == Spell(q)
  {
    if q != [] {
      B64CodeOfChar(q[0]);
      ReadSpelled(q[1..]);
      assert Spell(q)[1..] == Spell(q[1..]);
    }
  }

  lemma CharsOfNumbers(s: Bytes)
    ensures Chars(Numbers(s)) == s
  {
  }

  lemma B64RoundTrip(s: Bytes)
    ensures B64Decode(B64Encode(s)) == Some(s)
  {
    ReadSpelled(B64Codes(Numbers(s)));
    B64CodesRoundTrip(Numbers(s));
    CharsOfNumbers(s);
  }
}
