/** base58btc as the did:key encoder computes it (lib/offerreceipt.go). */
module Base58 {
  import opened Base
  import opened Encodings

  // --- positional numbers ---

  function Pow(b: nat, n: nat): (p: nat)
    ensures b > 0 ==> p > 0
  {
    if n == 0 then 1 else b * Pow(b, n - 1)
  }

  ghost predicate Digits(s: seq<nat>, b: nat) { forall i :: 0 <= i < |s| ==> s[i] < b }

  /** The number that digits s denote in base b, most significant digit first. */
  function ValueIn(s: seq<nat>, b: nat): nat {
    if s == [] then 0 else b * ValueIn(s[..|s| - 1], b) + s[|s| - 1]
  }

  /** The shortest digits of v; zero has none. */
  function ToBase(v: nat, b: nat): seq<nat>
    requires b >= 2
  {
    if v == 0 then [] else
      DivideShrinks(v, b);
      ToBase(v / b, b) + [v % b]
  }

  lemma DivideShrinks(v: nat, b: nat)
    requires v > 0 && b >= 2
    ensures 0 <= v / b < v && v == b * (v / b) + v % b
  {
    var q := v / b;
    assert v == b * q + v % b;
    Doubles(b, q);
  }

  lemma Doubles(b: nat, q: int)
    requires b >= 2
    ensures q >= 0 ==> b * q >= 2 * q
    ensures q < 0 ==> b * q <= 2 * q
  {
  }

  lemma MultipleBounds(b: nat, k: int)
    ensures k >= 1 ==> b * k >= b
    ensures k <= -1 ==> b * k <= 0 - b
  {
  }

  lemma DivideBack(x: nat, d: nat, b: nat)
    requires d < b
    ensures (b * x + d) / b == x && (b * x + d) % b == d
  {
    var a := b * x + d;
    var q, r := a / b, a % b;
    assert a == b * q + r;
    assert b * (q - x) == b * q - b * x;
    MultipleBounds(b, q - x);
  }

  lemma {:induction false} ToBaseValue(v: nat, b: nat)
    requires b >= 2
    ensures ValueIn(ToBase(v, b), b) == v && Digits(ToBase(v, b), b)
    ensures v != 0 ==> ToBase(v, b) != [] && ToBase(v, b)[0] != 0
  {
    if v != 0 {
      DivideShrinks(v, b);
      ToBaseValue(v / b, b);
      var s := ToBase(v, b);
      assert s[..|s| - 1] == ToBase(v / b, b);
      if v / b != 0 {
        assert s[0] == ToBase(v / b, b)[0];
      } else {
        assert s == [v % b] && b * (v / b) == 0;
      }
    }
  }

  /** Digits without a leading zero are the only ones of their value. */
  lemma {:induction false} ToBaseUnique(s: seq<nat>, b: nat)
    requires b >= 2 && Digits(s, b) && (s != [] ==> s[0] != 0)
    ensures ToBase(ValueIn(s, b), b) == s
    ensures s != [] ==> ValueIn(s, b) > 0
  {
    if s != [] {
      var init, d := s[..|s| - 1], s[|s| - 1];
      ToBaseUnique(init, b);
      DivideBack(ValueIn(init, b), d, b);
      assert init != [] ==> b * ValueIn(init, b) > 0;
    }
  }

  lemma Distribute(b: nat, d: nat, p: nat, v: nat)
    ensures b * (d * p + v) == d * (b * p) + b * v
  {
    assert b * (d * p) == d * (b * p);
  }

  lemma {:induction false} ValuePrepend(d: nat, s: seq<nat>, b: nat)
    ensures ValueIn([d] + s, b) == d * Pow(b, |s|) + ValueIn(s, b)
  {
    if s == [] {
      assert ([d] + s)[..0] == [];
    } else {
      var init := s[..|s| - 1];
      assert ([d] + s)[..|s|] == [d] + init;
      ValuePrepend(d, init, b);
      Distribute(b, d, Pow(b, |init|), ValueIn(init, b));
    }
  }

  lemma DigitBelow(b: nat, v: nat, d: nat, p: nat)
    requires v < p && d < b
    ensures b * v + d < b * p
  {
    MultipleBounds(b, p - v);
    assert b * (p - v) == b * p - b * v;
  }

  lemma {:induction false} ValueBelow(s: seq<nat>, b: nat)
    requires Digits(s, b)
    ensures ValueIn(s, b) < Pow(b, |s|)
  {
    if s != [] {
      var init, d := s[..|s| - 1], s[|s| - 1];
      ValueBelow(init, b);
      DigitBelow(b, ValueIn(init, b), d, Pow(b, |init|));
    }
  }

  ghost predicate Zeros(s: seq<nat>) { forall i :: 0 <= i < |s| ==> s[i] == 0 }

  lemma {:induction false} ValueOfZeros(s: seq<nat>, b: nat)
    requires Zeros(s)
    ensures ValueIn(s, b) == 0
  {
    if s != [] {
      ValueOfZeros(s[..|s| - 1], b);
    }
  }

  lemma {:induction false} SkipZeros(s: seq<nat>, k: nat, b: nat)
    requires k <= |s| && Zeros(s[..k])
    ensures ValueIn(s, b) == ValueIn(s[k..], b)
  {
    if k > 0 {
      assert s[..k][k - 1] == 0 && s[k - 1..] == [0] + s[k..];
      assert forall i :: 0 <= i < k - 1 ==> s[..k - 1][i] == s[..k][i];
      SkipZeros(s, k - 1, b);
      ValuePrepend(0, s[k..], b);
    } else {
      assert s[0..] == s;
    }
  }

  // --- the buffer bound ---

  /** The buffer length reserved for n octets. */
  function BufferSize(n: nat): nat { n * 138 / 100 + 1 }

  lemma MulAssociates(x: nat, y: nat, z: nat)
    ensures x * (y * z) == x * y * z
  {
  }

  lemma {:induction false} PowAdd(b: nat, m: nat, n: nat)
    ensures Pow(b, m + n) == Pow(b, m) * Pow(b, n)
  {
    if m > 0 {
      PowAdd(b, m - 1, n);
      MulAssociates(b, Pow(b, m - 1), Pow(b, n));
    }
  }

  lemma {:induction false} PowMonotone(b: nat, m: nat, n: nat)
    requires b > 0 && m <= n
    ensures Pow(b, m) <= Pow(b, n)
  {
    if m < n {
      PowMonotone(b, m, n - 1);
      assert b * Pow(b, n - 1) >= Pow(b, n - 1);
    }
  }

  lemma ProductBelow(a: nat, b: nat, c: nat, d: nat)
    requires a < b && c < d
    ensures a * c < b * d
  {
    assert a * c <= a * d && a * d < b * d;
  }

  lemma UpToFiveOctets()
    ensures Pow(256, 0) < Pow(58, 1) && Pow(256, 1) < Pow(58, 2) && Pow(256, 2) < Pow(58, 3)
    ensures Pow(256, 3) < Pow(58, 5) && Pow(256, 4) < Pow(58, 6) && Pow(256, 5) < Pow(58, 7)
  {
  }

  lemma SixOrSevenOctets()
    ensures Pow(256, 6) < Pow(58, 9) && Pow(256, 7) < Pow(58, 10)
  {
  }

  lemma EightOctets()
    ensures Pow(256, 8) < Pow(58, 11)
  {
  }

  lemma OctetsFit(n: nat, k: nat)
    requires (n == 0 && k == 1) || (n == 1 && k == 2) || (n == 2 && k == 3) || (n == 3 && k == 5)
      || (n == 4 && k == 6) || (n == 5 && k == 7) || (n == 6 && k == 9) || (n == 7 && k == 10)
    ensures Pow(256, n) < Pow(58, k)
  {
    UpToFiveOctets();
    SixOrSevenOctets();
  }

  lemma FewOctets(n: nat)
    requires n < 8
    ensures Pow(256, n) < Pow(58, BufferSize(n))
  {
    OctetsFit(n, BufferSize(n));
  }

  lemma MoreOctets(n: nat, m: nat, k: nat)
    requires Pow(256, n) < Pow(58, BufferSize(n))
    requires Pow(256, m) < Pow(58, k) && k + BufferSize(n) <= BufferSize(m + n)
    ensures Pow(256, m + n) < Pow(58, BufferSize(m + n))
  {
    PowAdd(256, m, n);
    PowAdd(58, k, BufferSize(n));
    ProductBelow(Pow(256, m), Pow(58, k), Pow(256, n), Pow(58, BufferSize(n)));
    PowMonotone(58, k + BufferSize(n), BufferSize(m + n));
  }

  /** Every number of n octets fits the reserved base-58 digits. */
  lemma {:induction false} BufferSuffices(n: nat)
    ensures Pow(256, n) < Pow(58, BufferSize(n))
  {
    if n < 8 {
      FewOctets(n);
    } else {
      BufferSuffices(n - 8);
      EightOctets();
      MoreOctets(n - 8, 8, 11);
    }
  }

  // --- one octet into the buffer ---

  lemma CarryStep(c: nat, d: nat, v: nat, p: nat, low: nat)
    ensures (c + 256 * (58 * v + d)) * p + low
         == ((c + 256 * d) / 58 + 256 * v) * (58 * p) + ((c + 256 * d) % 58 * p + low)
  {
    var q, r := (c + 256 * d) / 58, (c + 256 * d) % 58;
    assert c + 256 * (58 * v + d) == 58 * (q + 256 * v) + r;
    assert (58 * (q + 256 * v) + r) * p == (q + 256 * v) * (58 * p) + r * p;
  }

  lemma CarryFits(carry: nat, p: nat, low: nat)
    requires carry * p + low < p
    ensures carry == 0
  {
    if carry >= 1 {
      MultipleBounds(p, carry);
    }
  }

  /** What the digits below position j + 1 and the carry still stand for, plus the digits already written. */
  ghost function Balance(was: seq<nat>, now: seq<nat>, j: int, carry: nat): nat
    requires |was| == |now| && -1 <= j < |was|
  {
    (carry + 256 * ValueIn(was[..j + 1], 58)) * Pow(58, |was| - 1 - j) + ValueIn(now[j + 1..], 58)
  }

  lemma BalanceStep(was: seq<nat>, now: seq<nat>, j: nat, carry: nat)
    requires |was| == |now| && j < |was|
    ensures var c := carry + 256 * was[j];
            Balance(was, now[j := c % 58], j - 1, c / 58) == Balance(was, now, j, carry)
  {
    var c := carry + 256 * was[j];
    var next := now[j := c % 58];
    assert was[..j + 1][..j] == was[..j];
    assert next[j..] == [c % 58] + now[j + 1..];
    ValuePrepend(c % 58, now[j + 1..], 58);
    CarryStep(carry, was[j], ValueIn(was[..j], 58), Pow(58, |was| - 1 - j), ValueIn(now[j + 1..], 58));
  }

  lemma DigitStep(was: seq<nat>, now: seq<nat>, j: nat, c: nat)
    requires |was| == |now| && j < |was| && Digits(now, 58) && forall k :: 0 <= k <= j ==> now[k] == was[k]
    ensures Digits(now[j := c % 58], 58) && forall k :: 0 <= k < j ==> now[j := c % 58][k] == was[k]
  {
  }

  lemma BalanceDone(was: seq<nat>, now: seq<nat>, j: int)
    requires |was| == |now| && -1 <= j < |was| && forall k :: 0 <= k <= j ==> was[k] == now[k] == 0
    ensures Balance(was, now, j, 0) == ValueIn(now, 58)
  {
    ValueOfZeros(was[..j + 1], 58);
    SkipZeros(now, j + 1, 58);
  }

  lemma BalanceStart(was: seq<nat>, octet: nat)
    requires was != []
    ensures Balance(was, was, |was| - 1, octet) == 256 * ValueIn(was, 58) + octet
  {
    assert was[..|was|] == was && was[|was|..] == [];
  }

  lemma BalanceOverflow(was: seq<nat>, now: seq<nat>, carry: nat)
    requires |was| == |now| > 0 && Balance(was, now, -1, carry) < Pow(58, |was|)
    ensures carry == 0
  {
    CarryFits(carry, Pow(58, |was|), ValueIn(now, 58));
  }

  /** s holds v in base 58, and nothing but zeros up to position high. */
  ghost predicate Holds(s: seq<nat>, high: int, v: nat) {
    && -1 <= high < |s|
    && Digits(s, 58)
    && (forall k :: 0 <= k <= high ==> s[k] == 0)
    && ValueIn(s, 58) == v
  }

  /** The inner loop: multiply the number in buf by 256 and add one octet; no index leaves the buffer. */
  method AddOctet(buf: array<nat>, high: int, octet: Byte, ghost v: nat) returns (top: int)
    requires buf.Length > 0 && Holds(buf[..], high, v)
    requires 256 * v + octet < Pow(58, buf.Length)
    modifies buf
    ensures Holds(buf[..], top, 256 * v + octet)
  {
    ghost var was := buf[..];
    var carry: nat := octet;
    top := buf.Length - 1;
    BalanceStart(was, octet);
    while top > high || carry != 0
      invariant -1 <= top < buf.Length && carry <= 255
      invariant Digits(buf[..], 58) && forall k :: 0 <= k <= top ==> buf[k] == was[k]
      invariant Balance(was, buf[..], top, carry) == 256 * v + octet
      decreases top + 1
    {
      if top == -1 {
        BalanceOverflow(was, buf[..], carry);
      }
      BalanceStep(was, buf[..], top, carry);
      DigitStep(was, buf[..], top, carry + 256 * was[top]);
      ghost var before := buf[..];
      carry := carry + 256 * buf[top];
      var digit: nat := carry % 58;
      buf[top] := digit;
      assert buf[..] == before[top := digit];
      carry := carry / 58;
      top := top - 1;
    }
    BalanceDone(was, buf[..], top);
  }

  // --- the whole encoding ---

  function Leading(s: seq<nat>): (z: nat)
    ensures z <= |s| && Zeros(s[..z]) && (z < |s| ==> s[z] != 0)
  {
    if s == [] || s[0] != 0 then 0
    else
      var z := 1 + Leading(s[1..]);
      assert s[..z] == [0] + s[1..][..z - 1];
      z
  }

  function Repeat(d: nat, n: nat): (s: seq<nat>)
    ensures |s| == n && forall i :: 0 <= i < n ==> s[i] == d
  {
    if n == 0 then [] else [d] + Repeat(d, n - 1)
  }

  /** The same number in another base, with as many leading zeros. */
  function Convert(s: seq<nat>, from: nat, to: nat): seq<nat>
    requires to >= 2
  {
    Repeat(0, Leading(s)) + ToBase(ValueIn(s, from), to)
  }

  lemma {:induction false} LeadingIs(s: seq<nat>, z: nat)
    requires z <= |s| && (forall k :: 0 <= k < z ==> s[k] == 0) && (z < |s| ==> s[z] != 0)
    ensures Leading(s) == z
  {
    if z > 0 {
      LeadingIs(s[1..], z - 1);
    }
  }

  lemma ZerosThen(z: nat, t: seq<nat>, b: nat)
    requires t != [] ==> t[0] != 0
    ensures Leading(Repeat(0, z) + t) == z && ValueIn(Repeat(0, z) + t, b) == ValueIn(t, b)
  {
    var s := Repeat(0, z) + t;
    assert s[z..] == t && s[..z] == Repeat(0, z);
    SkipZeros(s, z, b);
    LeadingIs(s, z);
  }

  lemma ZerosRepeat(s: seq<nat>)
    requires Zeros(s)
    ensures s == Repeat(0, |s|)
  {
  }

  lemma AfterZeros(s: seq<nat>, b: nat)
    requires b >= 2 && Digits(s, b)
    ensures s == Repeat(0, Leading(s)) + ToBase(ValueIn(s, b), b)
  {
    var z := Leading(s);
    ZerosRepeat(s[..z]);
    assert ToBase(ValueIn(s, b), b) == s[z..] by {
      SkipZeros(s, z, b);
      ToBaseUnique(s[z..], b);
    }
    assert s == s[..z] + s[z..];
  }

  /** Converting there and back changes nothing. */
  lemma ConvertBack(s: seq<nat>, from: nat, to: nat)
    requires from >= 2 && to >= 2 && Digits(s, from)
    ensures Convert(Convert(s, from, to), to, from) == s
    ensures Digits(Convert(s, from, to), to) && Leading(Convert(s, from, to)) == Leading(s)
    ensures ValueIn(Convert(s, from, to), to) == ValueIn(s, from)
  {
    var v := ValueIn(s, from);
    ToBaseValue(v, to);
    ZerosThen(Leading(s), ToBase(v, to), to);
    AfterZeros(s, from);
  }

  /** The d-th symbol of 1-9, A-Z without I and O, a-z without l. */
  function Symbol(d: nat): Octet {
    if d < 9 then ('1' as int + d) as char
    else if d < 17 then ('A' as int + d - 9) as char
    else if d < 22 then ('J' as int + d - 17) as char
    else if d < 33 then ('P' as int + d - 22) as char
    else if d < 44 then ('a' as int + d - 33) as char
    else if d < 58 then ('m' as int + d - 44) as char
    else '?'
  }

  /** The runs of the alphabet: it leaves out 0, I, O and l. */
  lemma Alphabet(d: nat)
    ensures Symbol(0) == '1' && Symbol(9) == 'A' && Symbol(17) == 'J' && Symbol(22) == 'P'
    ensures Symbol(33) == 'a' && Symbol(44) == 'm' && Symbol(57) == 'z'
    ensures d < 57 && d != 8 && d != 16 && d != 21 && d != 32 && d != 43 ==>
              Symbol(d + 1) as int == Symbol(d) as int + 1
  {
  }

  /** The digit a symbol stands for; 58 for any other octet. */
  function SymbolValue(c: Octet): nat {
    if '1' <= c <= '9' then c as int - '1' as int
    else if 'A' <= c <= 'H' then c as int - 'A' as int + 9
    else if 'J' <= c <= 'N' then c as int - 'J' as int + 17
    else if 'P' <= c <= 'Z' then c as int - 'P' as int + 22
    else if 'a' <= c <= 'k' then c as int - 'a' as int + 33
    else if 'm' <= c <= 'z' then c as int - 'm' as int + 44
    else 58
  }

  lemma SymbolRoundTrip(d: nat, c: Octet)
    ensures d < 58 ==> SymbolValue(Symbol(d)) == d
    ensures SymbolValue(c) < 58 ==> Symbol(SymbolValue(c)) == c
  {
  }

  function Encoded(input: seq<Byte>): Bytes { Map(Symbol, Convert(input, 256, 58)) }

  function Decoded(text: Bytes): Option<seq<nat>> {
    var digits := Map(SymbolValue, text);
    if 58 in digits then None else Some(Convert(digits, 58, 256))
  }

  lemma ReadSymbols(digits: seq<nat>)
    requires Digits(digits, 58)
    ensures Map(SymbolValue, Map(Symbol, digits)) == digits
  {
    forall i | 0 <= i < |digits| ensures SymbolValue(Symbol(digits[i])) == digits[i] {
      SymbolRoundTrip(digits[i], '1');
    }
  }

  lemma WriteSymbols(text: Bytes)
    requires 58 !in Map(SymbolValue, text)
    ensures Map(Symbol, Map(SymbolValue, text)) == text && Digits(Map(SymbolValue, text), 58)
  {
    var digits := Map(SymbolValue, text);
    forall i | 0 <= i < |text| ensures digits[i] < 58 && Symbol(digits[i]) == text[i] {
      assert digits[i] in digits && digits[i] == SymbolValue(text[i]);
      SymbolRoundTrip(0, text[i]);
    }
  }

  /** A decoder undoes the encoder on every octet string. */
  lemma DecodesEncoded(input: seq<Byte>)
    ensures Decoded(Encoded(input)) == Some(input)
  {
    ConvertBack(input, 256, 58);
    ReadSymbols(Convert(input, 256, 58));
  }

  lemma OutsideAlphabet(text: Bytes)
    ensures 58 in Map(SymbolValue, text) <==> exists c <- text :: SymbolValue(c) >= 58
  {
    var digits := Map(SymbolValue, text);
    forall i | 0 <= i < |text| ensures digits[i] == SymbolValue(text[i]) <= 58 {
    }
    if 58 in digits {
      var i :| 0 <= i < |text| && digits[i] == 58;
      assert text[i] in text;
    }
  }

  /** Every text in the alphabet is the encoding of what it decodes to; no other text decodes. */
  lemma EncodesDecoded(text: Bytes)
    ensures Decoded(text).Some? <==> forall c <- text :: SymbolValue(c) < 58
    ensures Decoded(text).Some? ==>
              Digits(Decoded(text).value, 256) && Map(Symbol, Convert(Decoded(text).value, 256, 58)) == text
  {
    OutsideAlphabet(text);
    if Decoded(text).Some? {
      WriteSymbols(text);
      ConvertBack(Map(SymbolValue, text), 58, 256);
    }
  }

  lemma EncodingInjective(a: seq<Byte>, b: seq<Byte>)
    requires Encoded(a) == Encoded(b)
    ensures a == b
  {
    DecodesEncoded(a);
    DecodesEncoded(b);
  }

  lemma PrefixFits(octets: seq<nat>, i: nat)
    requires Digits(octets, 256) && i <= |octets|
    ensures ValueIn(octets[..i], 256) < Pow(58, BufferSize(|octets|))
  {
    ValueBelow(octets[..i], 256);
    PowMonotone(256, i, |octets|);
    BufferSuffices(|octets|);
  }

  lemma PrefixValue(octets: seq<nat>, i: nat)
    requires i < |octets|
    ensures ValueIn(octets[..i + 1], 256) == 256 * ValueIn(octets[..i], 256) + octets[i]
  {
    assert octets[..i + 1][..i] == octets[..i];
  }

  lemma EmptyBuffer(s: seq<nat>)
    requires s != [] && Zeros(s)
    ensures Holds(s, |s| - 1, 0)
  {
    ValueOfZeros(s, 58);
  }

  /** The base-58 digits of the significant octets, right-aligned in the reserved buffer. */
  method FillBuffer(octets: seq<Byte>) returns (buf: array<nat>)
    ensures fresh(buf) && buf.Length == BufferSize(|octets|) && Digits(buf[..], 58)
    ensures ValueIn(buf[..], 58) == ValueIn(octets, 256)
  {
    var size := |octets| * 138 / 100 + 1;
    buf := new nat[size](_ => 0);
    EmptyBuffer(buf[..]);
    var high := size - 1;
    for i := 0 to |octets|
      invariant Holds(buf[..], high, ValueIn(octets[..i], 256))
    {
      PrefixValue(octets, i);
      PrefixFits(octets, i + 1);
      high := AddOctet(buf, high, octets[i], ValueIn(octets[..i], 256));
    }
    assert octets[..|octets|] == octets;
  }

  lemma Assembled(input: seq<Byte>, zeros: nat, buf: seq<nat>, j: nat)
    requires zeros <= |input| && (forall k :: 0 <= k < zeros ==> input[k] == 0)
             && (zeros < |input| ==> input[zeros] != 0)
    requires j <= |buf| && (forall k :: 0 <= k < j ==> buf[k] == 0) && (j < |buf| ==> buf[j] != 0)
    requires Digits(buf, 58) && ValueIn(buf, 58) == ValueIn(input[zeros..], 256)
    ensures Convert(input, 256, 58) == Repeat(0, zeros) + buf[j..]
  {
    LeadingIs(input, zeros);
    SkipZeros(input, zeros, 256);
    assert ToBase(ValueIn(buf, 58), 58) == buf[j..] by {
      SkipZeros(buf, j, 58);
      ToBaseUnique(buf[j..], 58);
    }
  }

  method Encode(input: seq<Byte>) returns (out: Bytes)
    ensures out == Encoded(input)
  {
    var zeros := 0;
    while zeros < |input| && input[zeros] == 0
      invariant zeros <= |input| && forall k :: 0 <= k < zeros ==> input[k] == 0
    {
      zeros := zeros + 1;
    }
    var buf := FillBuffer(input[zeros..]);
    var j := 0;
    while j < buf.Length && buf[j] == 0
      invariant j <= buf.Length && forall k :: 0 <= k < j ==> buf[k] == 0
    {
      j := j + 1;
    }
    Assembled(input, zeros, buf[..], j);
    out := Render(zeros, buf[j..]);
  }

  lemma MapSnoc(s: seq<nat>, d: nat)
    ensures Map(Symbol, s + [d]) == Map(Symbol, s) + [Symbol(d)]
  {
  }

  method Render(zeros: nat, digits: seq<nat>) returns (out: Bytes)
    ensures out == Map(Symbol, Repeat(0, zeros) + digits)
  {
    out := [];
    for i := 0 to zeros
      invariant out == Map(Symbol, Repeat(0, i))
    {
      MapSnoc(Repeat(0, i), 0);
      assert Repeat(0, i + 1) == Repeat(0, i) + [0];
      out := out + ['1'];
    }
    assert digits[..0] == [] && Repeat(0, zeros) + [] == Repeat(0, zeros);
    for i := 0 to |digits|
      invariant out == Map(Symbol, Repeat(0, zeros) + digits[..i])
    {
      MapSnoc(Repeat(0, zeros) + digits[..i], digits[i]);
      assert Repeat(0, zeros) + digits[..i + 1] == Repeat(0, zeros) + digits[..i] + [digits[i]];
      out := out + [Symbol(digits[i])];
    }
    assert digits[..|digits|] == digits;
  }
}
