/** Decimal text of integers, as strconv.FormatInt and strconv.ParseInt(s, 10, 64) treat it. */
module Numbers {
  import opened Base
  import opened Text

  predicate IsDigit(c: Octet) { '0' <= c <= '9' }

  predicate AllDigits(s: Bytes) { forall c <- s :: IsDigit(c) }

  function Digit(n: nat): (c: Octet)
    requires n < 10
    ensures IsDigit(c)
  {
    ('0' as int + n) as char
  }

  /** The number a string of decimal digits denotes. */
  function DecimalValue(s: Bytes): nat
    requires AllDigits(s)
  {
    if s == [] then 0 else
      assert s[|s| - 1] in s;
      10 * DecimalValue(s[..|s| - 1]) + (s[|s| - 1] as int - '0' as int)
  }

  function FormatNat(n: nat): (s: Bytes)
    ensures s != [] && AllDigits(s)
  {
    if n < 10 then [Digit(n)] else FormatNat(n / 10) + [Digit(n % 10)]
  }

  function FormatInt(n: int): (s: Bytes)
    ensures s != [] && NoSpace(s)
    ensures forall c <- s :: IsDigit(c) || c == '-'
  {
    if n < 0 then "-" + FormatNat(-n) else FormatNat(n)
  }

  lemma {:induction false} FormatNatValue(n: nat)
    ensures DecimalValue(FormatNat(n)) == n
  {
    if n >= 10 {
      FormatNatValue(n / 10);
      assert FormatNat(n)[..|FormatNat(n)| - 1] == FormatNat(n / 10);
    }
  }

  /** Optional sign, at least one digit, nothing else, and the value must fit 64 bits. */
  function ParseInt64(s: Bytes): (r: Option<int>)
    ensures r.Some? ==> InInt64(r.value)
  {
    var signed := s != [] && (s[0] == '-' || s[0] == '+');
    var digits := if signed then s[1..] else s;
    if digits == [] || !AllDigits(digits) then None
    else
      var v: int := if signed && s[0] == '-' then 0 - DecimalValue(digits) else DecimalValue(digits);
      if InInt64(v) then Some(v) else None
  }

  lemma ParseFormat(n: int)
    requires InInt64(n)
    ensures ParseInt64(FormatInt(n)) == Some(n)
  {
    if n < 0 {
      FormatNatValue(-n);
      assert FormatInt(n)[1..] == FormatNat(-n);
    } else {
      FormatNatValue(n);
      ParseDigits(FormatNat(n));
    }
  }

  lemma FormatTrimmed(n: int)
    ensures TrimSpace(FormatInt(n)) == FormatInt(n)
  {
    var s := FormatInt(n);
    assert s[0] in s && s[|s| - 1] in s;
  }

  /** Unsigned digits parse to their value whenever it fits. */
  lemma ParseDigits(s: Bytes)
    requires s != [] && AllDigits(s)
    ensures ParseInt64(s) == if DecimalValue(s) <= MAX_INT64 then Some(DecimalValue(s)) else None
  {
    assert s[0] in s;
  }
}
