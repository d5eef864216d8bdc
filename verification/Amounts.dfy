/** The three exact decimal parsers of DCR amounts (gateway/config.go, agent/policy/policy.go, bazaar/onchain.go). */
module Amounts {
  import opened Base
  import opened Text
  import opened Numbers

  /** Largest whole part the guarded parsers accept. */
  const MAX_WHOLE := 92_233_720_367

  datatype AmountError = Empty | Invalid | TooManyDecimals | OutOfRange | MustBePositive

  function Zeros(n: nat): (s: Bytes)
    ensures |s| == n && AllDigits(s)
  {
    if n == 0 then [] else "0" + Zeros(n - 1)
  }

  function DefZero(s: Bytes): Bytes { if s == [] then "0" else s }

  /** Whole and fractional text around the first point. */
  function Halves(s: Bytes): (Bytes, Option<Bytes>) {
    match Cut(s, '.')
    case None => (s, None)
    case Some((whole, frac)) => (whole, Some(frac))
  }

  /** The part ParseDCR and ParseAmount share, on trimmed non-empty text. */
  function Guarded(s: Bytes): Result<int, AmountError> {
    var (whole, frac) := Halves(s);
    var w := ParseInt64(DefZero(whole));
    if w.None? || w.value < 0 then Err(Invalid)
    else if frac.Some? && (frac.value == [] || |frac.value| > 8) then Err(TooManyDecimals)
    else
      var f := if frac.None? then Some(0) else ParseInt64(Padded(frac.value));
      if f.None? || f.value < 0 then Err(Invalid)
      else if w.value > MAX_WHOLE then Err(OutOfRange)
      else Ok(w.value * 100_000_000 + f.value)
  }

  function ParseDCR(text: Bytes): Result<int, AmountError> {
    var s := TrimSpace(text);
    if s == [] then Err(Empty)
    else
      var atoms :- Guarded(s);
      if atoms <= 0 then Err(MustBePositive) else Ok(atoms)
  }

  function TrimSuffix(s: Bytes, p: Bytes): Bytes { if HasSuffix(s, p) then s[..|s| - |p|] else s }

  function ParseAmount(text: Bytes): Result<int, AmountError> {
    var s := TrimSpace(TrimSuffix(TrimSpace(text), DCR));
    if s == [] then Ok(0) else Guarded(s)
  }

  function Padded(digits: Bytes): Bytes
    requires |digits| <= 8
  {
    digits + Zeros(8 - |digits|)
  }

  /** No range guard: the sum wraps, and a minus sign negates it. */
  function Combine(neg: bool, w: Option<int>, f: Option<int>): Result<int, AmountError> {
    if w.None? || f.None? then Err(Invalid)
    else
      var atoms := Wrap64(w.value * 100_000_000 + f.value);
      Ok(if neg then Wrap64(0 - atoms) else atoms)
  }

  function Unguarded(text: Bytes): Result<int, AmountError> {
    var neg := HasPrefix(text, "-");
    var (whole, frac) := Halves(if neg then text[1..] else text);
    var digits := if frac.None? then [] else frac.value;
    if |digits| > 8 then Err(TooManyDecimals)
    else Combine(neg, ParseInt64(DefZero(whole)), ParseInt64(DefZero(Padded(digits))))
  }

  lemma {:induction false} ZerosSnoc(n: nat)
    ensures Zeros(n) + "0" == Zeros(n + 1)
  {
    if n > 0 {
      ZerosSnoc(n - 1);
      assert Zeros(n) + "0" == "0" + (Zeros(n - 1) + "0");
    }
  }

  method Pad(digits: Bytes) returns (out: Bytes)
    requires |digits| <= 8
    ensures out == Padded(digits)
  {
    out := digits;
    assert digits + [] == digits;
    while |out| < 8
      invariant |digits| <= |out| <= 8 && out == digits + Zeros(|out| - |digits|)
    {
      ZerosSnoc(|out| - |digits|);
      assert out + "0" == digits + (Zeros(|out| - |digits|) + "0");
      out := out + "0";
    }
  }

  method DcrToAtoms(text: Bytes) returns (r: Result<int, AmountError>)
    ensures r == Unguarded(text)
  {
    var neg := HasPrefix(text, "-");
    var (intPart, fracPart) := Halves(if neg then text[1..] else text);
    var digits := if fracPart.None? then [] else fracPart.value;
    if |digits| > 8 {
      return Err(TooManyDecimals);
    }
    var padded := Pad(digits);
    r := Combine(neg, ParseInt64(DefZero(intPart)), ParseInt64(DefZero(padded)));
  }

  // --- what an unsigned decimal denotes ---

  /** An unsigned decimal as written: digits, and after a point one to eight more. */
  datatype Decimal = Decimal(whole: Bytes, frac: Option<Bytes>)

  predicate Proper(d: Decimal) {
    && AllDigits(d.whole)
    && (d.frac.Some? ==> 1 <= |d.frac.value| <= 8 && AllDigits(d.frac.value))
    && (d.frac.None? ==> d.whole != [])
  }

  function Spelled(d: Decimal): Bytes {
    if d.frac.None? then d.whole else d.whole + ['.'] + d.frac.value
  }

  function Pow10(n: nat): (p: nat)
    ensures p > 0
  {
    if n == 0 then 1 else 10 * Pow10(n - 1)
  }

  function Digits(d: Decimal): Bytes { if d.frac.None? then [] else d.frac.value }

  lemma PaddedDigits(digits: Bytes)
    requires |digits| <= 8 && AllDigits(digits)
    ensures AllDigits(Padded(digits)) && |Padded(digits)| == 8
  {
  }

  function AtomsOf(d: Decimal): nat
    requires Proper(d)
  {
    PaddedDigits(Digits(d));
    DecimalValue(d.whole) * 100_000_000 + DecimalValue(Padded(Digits(d)))
  }

  lemma ValueStep(v: nat, p: nat, w: nat, d: nat)
    ensures 10 * (v * p + w) + d == v * (10 * p) + (10 * w + d)
  {
  }

  lemma {:induction false} ValueAppend(a: Bytes, b: Bytes)
    requires AllDigits(a) && AllDigits(b)
    ensures AllDigits(a + b) && DecimalValue(a + b) == DecimalValue(a) * Pow10(|b|) + DecimalValue(b)
  {
    if b == [] {
      assert a + b == a;
    } else {
      var init, last := b[..|b| - 1], b[|b| - 1];
      assert AllDigits(init) by { assert forall c <- init :: c in b; }
      ValueAppend(a, init);
      assert last in b && (a + b)[..|a + b| - 1] == a + init;
      ValueStep(DecimalValue(a), Pow10(|init|), DecimalValue(init), last as int - '0' as int);
    }
  }

  lemma {:induction false} ValueOfZeros(n: nat)
    ensures DecimalValue(Zeros(n)) == 0
  {
    if n > 0 {
      ValueOfZeros(n - 1);
      ZerosSnoc(n - 1);
      assert Zeros(n)[..n - 1] == Zeros(n - 1) && Zeros(n)[n - 1] == '0';
    }
  }

  lemma {:induction false} ValueBelow(s: Bytes)
    requires AllDigits(s)
    ensures DecimalValue(s) < Pow10(|s|)
  {
    if s != [] {
      assert s[|s| - 1] in s && forall c <- s[..|s| - 1] :: c in s;
      ValueBelow(s[..|s| - 1]);
    }
  }

  lemma {:induction false} PowersAdd(m: nat, n: nat)
    ensures Pow10(m + n) == Pow10(m) * Pow10(n)
  {
    if m > 0 {
      PowersAdd(m - 1, n);
      assert 10 * (Pow10(m - 1) * Pow10(n)) == 10 * Pow10(m - 1) * Pow10(n);
    }
  }

  lemma Scaled(w: nat, f: nat, p: nat, q: nat)
    requires p * q == 100_000_000
    ensures (w * 100_000_000 + f * p) * q == 100_000_000 * (w * q + f)
  {
    assert f * p * q == f * (p * q);
    assert w * 100_000_000 * q == 100_000_000 * (w * q);
  }

  /** The atoms are the denoted number times ten to the eighth, with nothing rounded. */
  lemma AtomsAreExact(d: Decimal)
    requires Proper(d)
    ensures AllDigits(d.whole + Digits(d))
    ensures AtomsOf(d) * Pow10(|Digits(d)|) == 100_000_000 * DecimalValue(d.whole + Digits(d))
  {
    var f := Digits(d);
    ValueAppend(d.whole, f);
    ValueAppend(f, Zeros(8 - |f|));
    ValueOfZeros(8 - |f|);
    PowersAdd(8 - |f|, |f|);
    assert Pow10(8) == 100_000_000;
    Scaled(DecimalValue(d.whole), DecimalValue(f), Pow10(8 - |f|), Pow10(|f|));
  }

  // --- the parsers on unsigned decimals ---

  lemma HalvesOf(d: Decimal)
    requires Proper(d)
    ensures Halves(Spelled(d)) == (d.whole, d.frac)
  {
    assert '.' !in d.whole;
    if d.frac.Some? {
      CutSeparator(d.whole, '.', d.frac.value);
    } else {
      FindAbsent(d.whole, '.');
    }
  }

  lemma ParseWhole(whole: Bytes)
    requires AllDigits(whole)
    ensures ParseInt64(DefZero(whole)) == if DecimalValue(whole) <= MAX_INT64 then Some(DecimalValue(whole)) else None
  {
    if whole == [] {
      assert DecimalValue("0") == 0 by { assert "0"[..0] == []; }
      ParseDigits("0");
    } else {
      ParseDigits(whole);
    }
  }

  lemma ParseFraction(digits: Bytes)
    requires |digits| <= 8 && AllDigits(digits)
    ensures AllDigits(Padded(digits)) && DecimalValue(Padded(digits)) < 100_000_000
    ensures ParseInt64(Padded(digits)) == Some(DecimalValue(Padded(digits)))
  {
    PaddedDigits(digits);
    ValueBelow(Padded(digits));
    assert Pow10(8) == 100_000_000;
    ParseDigits(Padded(digits));
  }

  lemma PlainTrim(s: Bytes)
    requires s != [] && !IsSpace(s[0]) && !IsSpace(s[|s| - 1])
    ensures TrimSpace(s) == s
  {
  }

  lemma AmountOf(text: Bytes, s: Bytes)
    requires TrimSpace(TrimSuffix(TrimSpace(text), DCR)) == s && s != []
    ensures ParseAmount(text) == Guarded(s)
  {
  }

  lemma UnguardedParts(s: Bytes, whole: Bytes, frac: Option<Bytes>)
    requires !HasPrefix(s, "-") && Halves(s) == (whole, frac) && (frac.Some? ==> |frac.value| <= 8)
    ensures Unguarded(s) == Combine(false, ParseInt64(DefZero(whole)),
                                    ParseInt64(Padded(if frac.None? then [] else frac.value)))
  {
  }

  lemma CombineInRange(w: nat, f: nat)
    requires w <= MAX_WHOLE && f < 100_000_000
    ensures Combine(false, Some(w), Some(f)) == Ok(w * 100_000_000 + f)
  {
  }

  // --- which texts are accepted, and what they denote ---

  predicate Negative(s: Bytes) { s != [] && s[0] == '-' }

  predicate Signed(s: Bytes) { Negative(s) || (s != [] && s[0] == '+') }

  function Body(s: Bytes): Bytes { if Signed(s) then s[1..] else s }

  /** A text without a non-zero digit. */
  predicate Zero(s: Bytes) { forall c <- s :: !('1' <= c <= '9') }

  /** A sign in front of the fraction takes up its first place, as the digit 0 would. */
  function AsZero(frac: Bytes): Bytes { if Signed(frac) then "0" + frac[1..] else frac }

  /** The unsigned decimal an accepted text is read as. */
  function Reading(s: Bytes): Decimal {
    var (whole, frac) := Halves(s);
    Decimal(Body(whole), if frac.None? then None else Some(AsZero(frac.value)))
  }

  /** A sign may stand before digits of the whole part and before the fraction; a minus only before zeros. */
  predicate Accepted(s: Bytes) {
    var (whole, frac) := Halves(s);
    && Proper(Reading(s)) && DecimalValue(Body(whole)) <= MAX_WHOLE
    && (Signed(whole) ==> Body(whole) != [])
    && (Negative(whole) ==> Zero(whole))
    && (frac.Some? && Negative(frac.value) ==> Zero(frac.value))
  }

  lemma ZeroConcat(a: Bytes, b: Bytes)
    ensures Zero(a + b) <==> Zero(a) && Zero(b)
  {
    assert forall c :: c in a + b <==> c in a || c in b;
  }

  lemma {:induction false} ValueZero(s: Bytes)
    requires AllDigits(s)
    ensures DecimalValue(s) == 0 <==> Zero(s)
  {
    if s != [] {
      var init, last := s[..|s| - 1], s[|s| - 1];
      assert s == init + [last];
      assert AllDigits(init) by { assert forall c <- init :: c in s; }
      ValueZero(init);
      assert last in s;
      ZeroConcat(init, [last]);
      assert Zero([last]) <==> last == '0' by { assert last in [last]; }
    }
  }

  lemma ZeroBody(s: Bytes)
    ensures Zero(Body(s)) <==> Zero(s)
  {
    if Signed(s) {
      assert s == [s[0]] + s[1..];
      ZeroConcat([s[0]], s[1..]);
    }
  }

  predicate Natural(r: Option<int>) { r.Some? && r.value >= 0 }

  lemma ParseBody(s: Bytes)
    ensures ParseInt64(s).Some? ==> Body(s) != [] && AllDigits(Body(s))
    ensures ParseInt64(s).Some? ==>
              ParseInt64(s) == Some(if Negative(s) then 0 - DecimalValue(Body(s)) else DecimalValue(Body(s)))
    ensures Body(s) != [] && AllDigits(Body(s)) && DecimalValue(Body(s)) <= MAX_INT64 ==> ParseInt64(s).Some?
  {
  }

  lemma ParseNatural(s: Bytes)
    ensures Natural(ParseInt64(s)) <==>
              && Body(s) != [] && AllDigits(Body(s)) && DecimalValue(Body(s)) <= MAX_INT64
              && (Negative(s) ==> Zero(s))
    ensures Natural(ParseInt64(s)) ==> ParseInt64(s) == Some(DecimalValue(Body(s)))
  {
    ParseBody(s);
    ZeroBody(s);
    if AllDigits(Body(s)) {
      ValueZero(Body(s));
    }
  }

  lemma PaddedBody(frac: Bytes)
    requires Signed(frac) && |frac| <= 8
    ensures Body(Padded(frac)) == frac[1..] + Zeros(8 - |frac|)
    ensures Padded(AsZero(frac)) == "0" + Body(Padded(frac))
  {
    SignedConcat(frac, Zeros(8 - |frac|));
  }

  lemma SignedConcat(a: Bytes, b: Bytes)
    requires Signed(a)
    ensures Body(a + b) == a[1..] + b
    ensures "0" + a[1..] + b == "0" + (a[1..] + b)
  {
    assert (a + b)[0] == a[0];
  }

  lemma PaddedZero(frac: Bytes)
    requires |frac| <= 8
    ensures Zero(Padded(frac)) <==> Zero(frac)
    ensures AllDigits(Padded(frac)) <==> AllDigits(frac)
  {
    var zeros := Zeros(8 - |frac|);
    ValueOfZeros(8 - |frac|);
    ValueZero(zeros);
    assert forall c :: c in Padded(frac) <==> c in frac || c in zeros;
  }

  lemma LeadingZero(s: Bytes)
    ensures AllDigits("0" + s) <==> AllDigits(s)
    ensures AllDigits(s) ==> DecimalValue("0" + s) == DecimalValue(s)
  {
    assert forall c :: c in "0" + s <==> c == '0' || c in s;
    if AllDigits(s) {
      var zero: Bytes := "0";
      assert DecimalValue(zero) == 0 by { assert zero[..0] == []; }
      ValueAppend(zero, s);
    }
  }

  lemma FractionBody(frac: Bytes)
    requires |frac| <= 8
    ensures AllDigits(Body(Padded(frac))) <==> AllDigits(AsZero(frac))
    ensures AllDigits(AsZero(frac)) ==> AllDigits(Padded(AsZero(frac)))
    ensures AllDigits(AsZero(frac)) ==> DecimalValue(Body(Padded(frac))) == DecimalValue(Padded(AsZero(frac)))
  {
    PaddedZero(AsZero(frac));
    if Signed(frac) {
      PaddedBody(frac);
      LeadingZero(Body(Padded(frac)));
    } else {
      UnsignedPadded(frac);
    }
  }

  lemma UnsignedPadded(frac: Bytes)
    requires |frac| <= 8 && !Signed(frac)
    ensures Body(Padded(frac)) == Padded(frac)
  {
    var c := (Padded(frac) + "0")[0];
    assert c == if frac == [] then '0' else frac[0];
  }

  lemma SignedFraction(frac: Bytes)
    requires 1 <= |frac| <= 8
    ensures Natural(ParseInt64(Padded(frac))) <==> AllDigits(AsZero(frac)) && (Negative(frac) ==> Zero(frac))
    ensures Natural(ParseInt64(Padded(frac))) ==>
              && AllDigits(Padded(AsZero(frac)))
              && ParseInt64(Padded(frac)) == Some(DecimalValue(Padded(AsZero(frac))))
  {
    ParseNatural(Padded(frac));
    PaddedZero(frac);
    FractionBody(frac);
    assert Padded(frac)[0] == frac[0];
    if AllDigits(AsZero(frac)) {
      ParseFraction(AsZero(frac));
    }
    assert |Body(Padded(frac))| >= 7;
  }

  lemma SignedWhole(whole: Bytes)
    ensures Natural(ParseInt64(DefZero(whole))) <==>
              && AllDigits(Body(whole)) && DecimalValue(Body(whole)) <= MAX_INT64
              && (Signed(whole) ==> Body(whole) != []) && (Negative(whole) ==> Zero(whole))
    ensures Natural(ParseInt64(DefZero(whole))) ==> ParseInt64(DefZero(whole)) == Some(DecimalValue(Body(whole)))
  {
    if whole == [] {
      ParseWhole(whole);
    } else {
      ParseNatural(whole);
    }
  }

  function FractionOf(frac: Option<Bytes>): Bytes { if frac.None? then [] else frac.value }

  lemma NoFraction()
    ensures DecimalValue(Padded([])) == 0 && ParseInt64(Padded([])) == Some(0)
  {
    assert Padded([]) == Zeros(8);
    ValueOfZeros(8);
    ParseFraction([]);
  }

  lemma GuardedCases(s: Bytes, whole: Bytes, frac: Bytes, w: Option<int>)
    requires Halves(s) == (whole, Some(frac)) && w == ParseInt64(DefZero(whole))
    ensures Guarded(s).Ok? <==>
              && Natural(w) && w.value <= MAX_WHOLE
              && 1 <= |frac| <= 8 && Natural(ParseInt64(Padded(frac)))
    ensures Guarded(s).Ok? ==> Guarded(s).value == w.value * 100_000_000 + ParseInt64(Padded(frac)).value
  {
  }

  lemma GuardedFraction(s: Bytes, whole: Bytes, frac: Bytes)
    requires Halves(s) == (whole, Some(frac))
    ensures Guarded(s).Ok? <==> Accepted(s)
    ensures Accepted(s) ==> Guarded(s) == Ok(AtomsOf(Reading(s)))
  {
    GuardedCases(s, whole, frac, ParseInt64(DefZero(whole)));
    SignedWhole(whole);
    if 1 <= |frac| <= 8 {
      SignedFraction(frac);
    }
  }

  lemma GuardedInteger(s: Bytes, whole: Bytes)
    requires Halves(s) == (whole, None)
    ensures Guarded(s).Ok? <==>
              Natural(ParseInt64(DefZero(whole))) && ParseInt64(DefZero(whole)).value <= MAX_WHOLE
    ensures Guarded(s).Ok? ==> Guarded(s).value == ParseInt64(DefZero(whole)).value * 100_000_000
  {
  }

  lemma GuardedWhole(s: Bytes, whole: Bytes)
    requires s != [] && Halves(s) == (whole, None)
    ensures Guarded(s).Ok? <==> Accepted(s)
    ensures Accepted(s) ==> Guarded(s) == Ok(AtomsOf(Reading(s)))
  {
    GuardedInteger(s, whole);
    SignedWhole(whole);
    if Accepted(s) {
      WholeAtoms(Reading(s));
    }
  }

  lemma WholeAtoms(d: Decimal)
    requires Proper(d) && d.frac.None?
    ensures AtomsOf(d) == DecimalValue(d.whole) * 100_000_000
  {
    NoFraction();
  }

  /** The guarded parsers accept exactly these texts, signs included, and read each as an unsigned decimal. */
  lemma GuardedExactly(s: Bytes)
    requires s != []
    ensures Guarded(s).Ok? <==> Accepted(s)
    ensures Accepted(s) ==> Guarded(s) == Ok(AtomsOf(Reading(s)))
  {
    match Halves(s)
    case (whole, None) => GuardedWhole(s, whole);
    case (whole, Some(frac)) => GuardedFraction(s, whole, frac);
  }

  lemma ZeroHalves(s: Bytes, whole: Bytes, frac: Option<Bytes>)
    requires Halves(s) == (whole, frac)
    ensures Zero(s) <==> Zero(whole) && Zero(FractionOf(frac))
  {
    if frac.Some? {
      assert s == whole + ['.'] + frac.value;
      ZeroConcat(whole + ['.'], frac.value);
      ZeroConcat(whole, ['.']);
    }
  }

  lemma ZeroAsZero(frac: Bytes)
    ensures Zero(AsZero(frac)) <==> Zero(frac)
  {
    if Signed(frac) {
      ZeroBody(frac);
      ZeroConcat("0", frac[1..]);
    }
  }

  lemma ZeroAtoms(d: Decimal)
    requires Proper(d)
    ensures AtomsOf(d) == 0 <==> Zero(d.whole) && Zero(Digits(d))
  {
    ValueZero(d.whole);
    PaddedDigits(Digits(d));
    ValueZero(Padded(Digits(d)));
    PaddedZero(Digits(d));
  }

  lemma AtomsZero(s: Bytes)
    requires Accepted(s)
    ensures AtomsOf(Reading(s)) == 0 <==> Zero(s)
  {
    var (whole, frac) := Halves(s);
    ZeroAtoms(Reading(s));
    ZeroBody(whole);
    ZeroAsZero(FractionOf(frac));
    ZeroHalves(s, whole, frac);
  }

  // --- when the parsers agree ---

  lemma NegatedCombine(f: nat)
    requires f < 100_000_000
    ensures Combine(true, Some(0), Some(f)) == Ok(0 - f)
  {
  }

  lemma NegativeParts(s: Bytes, whole: Bytes, frac: Option<Bytes>)
    requires Negative(s) && Halves(s) == (whole, frac) && Signed(whole) && |FractionOf(frac)| <= 8
    ensures Unguarded(s) == Combine(true, ParseInt64(DefZero(Body(whole))), ParseInt64(Padded(FractionOf(frac))))
  {
    NegativeHalves(s, whole, frac);
    assert s[..1] == "-";
  }

  lemma NegativeHalves(s: Bytes, whole: Bytes, frac: Option<Bytes>)
    requires Negative(s) && Halves(s) == (whole, frac) && Signed(whole)
    ensures Halves(s[1..]) == (Body(whole), frac)
  {
    if frac.Some? {
      assert s == whole + ['.'] + frac.value;
      assert s[1..] == Body(whole) + ['.'] + frac.value;
      CutSeparator(Body(whole), '.', frac.value);
    } else {
      FindAbsent(s, '.');
      FindAbsent(s[1..], '.');
    }
  }

  lemma NegativeWhole(s: Bytes, whole: Bytes, frac: Option<Bytes>)
    requires s != [] && Accepted(s) && Halves(s) == (whole, frac)
    ensures Negative(s) <==> Negative(whole)
  {
    if frac.Some? {
      assert s == whole + ['.'] + frac.value;
    }
  }

  lemma ReadFraction(s: Bytes, whole: Bytes, frac: Option<Bytes>)
    requires Accepted(s) && Halves(s) == (whole, frac)
    ensures |FractionOf(frac)| <= 8 && AllDigits(Padded(Digits(Reading(s))))
    ensures DecimalValue(Padded(Digits(Reading(s)))) < 100_000_000
    ensures ParseInt64(Padded(FractionOf(frac))) == Some(DecimalValue(Padded(Digits(Reading(s)))))
  {
    ParseFraction(Digits(Reading(s)));
    if frac.Some? {
      SignedFraction(frac.value);
    }
  }

  /** The pieces of an accepted text, as numbers. */
  predicate ReadAs(s: Bytes, whole: Bytes, frac: Option<Bytes>, w: nat, f: nat) {
    && Halves(s) == (whole, frac) && w <= MAX_WHOLE && f < 100_000_000
    && ParseInt64(DefZero(whole)) == Some(w)
    && |FractionOf(frac)| <= 8 && ParseInt64(Padded(FractionOf(frac))) == Some(f)
    && (Negative(s) ==> Signed(whole) && ParseInt64(DefZero(Body(whole))) == Some(0) && w == 0)
  }

  lemma ZeroParses(whole: Bytes)
    requires Negative(whole) && Body(whole) != [] && AllDigits(Body(whole)) && Zero(whole)
    ensures DecimalValue(Body(whole)) == 0 && ParseInt64(DefZero(Body(whole))) == Some(0)
  {
    ZeroBody(whole);
    ValueZero(Body(whole));
    ParseWhole(Body(whole));
  }

  lemma ReadWhole(s: Bytes, whole: Bytes, frac: Option<Bytes>)
    requires s != [] && Accepted(s) && Halves(s) == (whole, frac)
    ensures AllDigits(Body(whole)) && DecimalValue(Body(whole)) <= MAX_WHOLE
    ensures ParseInt64(DefZero(whole)) == Some(DecimalValue(Body(whole)))
    ensures Negative(s) ==>
              Signed(whole) && ParseInt64(DefZero(Body(whole))) == Some(0) && DecimalValue(Body(whole)) == 0
  {
    NegativeWhole(s, whole, frac);
    SignedWhole(whole);
    if Negative(s) {
      ZeroParses(whole);
    }
  }

  lemma AtomsParts(d: Decimal) returns (w: nat, f: nat)
    requires Proper(d)
    ensures AllDigits(Padded(Digits(d)))
    ensures w == DecimalValue(d.whole) && f == DecimalValue(Padded(Digits(d)))
    ensures AtomsOf(d) == w * 100_000_000 + f
  {
    PaddedDigits(Digits(d));
    w, f := DecimalValue(d.whole), DecimalValue(Padded(Digits(d)));
  }

  lemma ReadParts(s: Bytes) returns (whole: Bytes, frac: Option<Bytes>, w: nat, f: nat)
    requires s != [] && Accepted(s)
    ensures ReadAs(s, whole, frac, w, f) && AtomsOf(Reading(s)) == w * 100_000_000 + f
  {
    whole, frac := Halves(s).0, Halves(s).1;
    w, f := AtomsParts(Reading(s));
    ReadFraction(s, whole, frac);
    ReadWhole(s, whole, frac);
  }

  /** Both parsers' sums, once the pieces are numbers. */
  lemma Summed(u: Result<int, AmountError>, neg: bool, w: nat, f: nat, atoms: nat)
    requires u == Combine(neg, Some(w), Some(f)) && (neg ==> w == 0)
    requires w <= MAX_WHOLE && f < 100_000_000 && atoms == w * 100_000_000 + f
    ensures u == Ok(if neg then 0 - atoms else atoms)
  {
    if neg {
      NegatedCombine(f);
    } else {
      CombineInRange(w, f);
    }
  }

  lemma UnguardedSum(s: Bytes, whole: Bytes, frac: Option<Bytes>, w: nat, f: nat)
    requires ReadAs(s, whole, frac, w, f)
    ensures Unguarded(s) == Combine(Negative(s), Some(w), Some(f))
  {
    if Negative(s) {
      NegativeParts(s, whole, frac);
    } else {
      assert !HasPrefix(s, "-") by { assert s != [] ==> s[..1][0] == s[0]; }
      UnguardedParts(s, whole, frac);
    }
  }

  /** The on-chain parser reads the same decimal but lets a leading minus negate it. */
  lemma UnguardedReads(s: Bytes)
    requires s != [] && Accepted(s)
    ensures Unguarded(s) == Ok(if Negative(s) then 0 - AtomsOf(Reading(s)) else AtomsOf(Reading(s)))
  {
    var whole, frac, w, f := ReadParts(s);
    UnguardedSum(s, whole, frac, w, f);
    Summed(Unguarded(s), Negative(s), w, f, AtomsOf(Reading(s)));
  }

  /** Text that the trimming and unit rules leave alone. */
  predicate Bare(text: Bytes) { TrimSpace(TrimSuffix(TrimSpace(text), DCR)) == text }

  predicate Numeral(c: Octet) { IsDigit(c) || c == '-' || c == '+' || c == '.' }

  lemma NumeralHalves(s: Bytes, whole: Bytes, frac: Option<Bytes>)
    requires Halves(s) == (whole, frac)
    requires (forall c <- whole :: Numeral(c)) && forall c <- FractionOf(frac) :: Numeral(c)
    ensures forall c <- s :: Numeral(c)
  {
    if frac.Some? {
      assert s == whole + ['.'] + frac.value;
    }
  }

  /** Whatever the on-chain parser reads consists of digits, signs and points. */
  lemma ReadNumerals(s: Bytes)
    requires Unguarded(s).Ok?
    ensures forall c <- s :: Numeral(c)
  {
    var neg := HasPrefix(s, "-");
    var rest := if neg then s[1..] else s;
    var (whole, frac) := Halves(rest);
    ParsedNumerals(DefZero(whole));
    ParsedNumerals(DefZero(Padded(FractionOf(frac))));
    PaddedNumerals(FractionOf(frac));
    NumeralHalves(rest, whole, frac);
    if neg {
      assert s == "-" + rest;
    }
  }

  lemma PaddedNumerals(frac: Bytes)
    requires |frac| <= 8 && forall c <- DefZero(Padded(frac)) :: Numeral(c)
    ensures forall c <- frac :: Numeral(c)
  {
    assert forall c <- frac :: c in Padded(frac);
  }

  lemma ParsedNumerals(s: Bytes)
    requires ParseInt64(s).Some?
    ensures forall c <- s :: Numeral(c)
  {
    if Signed(s) {
      assert s == [s[0]] + s[1..];
    }
  }

  lemma ReadBare(s: Bytes)
    requires s != [] && Unguarded(s).Ok?
    ensures TrimSpace(s) == s && TrimSuffix(s, DCR) == s && Bare(s)
  {
    ReadNumerals(s);
    assert Numeral(s[0]) && Numeral(s[|s| - 1]);
    NoUnit(s);
  }

  lemma NoUnit(s: Bytes)
    requires s != [] && Numeral(s[0]) && Numeral(s[|s| - 1])
    ensures TrimSpace(s) == s && TrimSuffix(s, DCR) == s && Bare(s)
  {
    PlainTrim(s);
    assert DCR[2] == 'R';
    assert |s| >= 3 ==> s[|s| - 3..][2] == s[|s| - 1];
  }

  lemma AcceptedBare(s: Bytes)
    requires s != [] && Accepted(s)
    ensures TrimSpace(s) == s && TrimSuffix(s, DCR) == s && Bare(s)
  {
    UnguardedReads(s);
    ReadBare(s);
  }

  lemma TrimAgain(text: Bytes)
    ensures TrimSpace(TrimSpace(text)) == TrimSpace(text)
  {
    if TrimSpace(text) != [] {
      PlainTrim(TrimSpace(text));
    }
  }

  lemma DcrIs(text: Bytes, s: Bytes)
    requires TrimSpace(text) == s
    ensures ParseDCR(text).Ok? <==> s != [] && Guarded(s).Ok? && Guarded(s).value > 0
    ensures ParseDCR(text).Ok? ==> ParseDCR(text) == Guarded(s)
  {
  }

  /** What ParseDCR accepts is what ParseAmount reads as the same positive amount with no unit written. */
  lemma GuardedParsersAgree(text: Bytes, atoms: int)
    ensures ParseDCR(text) == Ok(atoms) <==>
              ParseAmount(text) == Ok(atoms) && atoms > 0 && TrimSuffix(TrimSpace(text), DCR) == TrimSpace(text)
  {
    var s := TrimSpace(text);
    DcrIs(text, s);
    TrimAgain(text);
    if s != [] {
      GuardedExactly(s);
      if Accepted(s) {
        AcceptedBare(s);
      }
      if TrimSuffix(s, DCR) == s {
        AmountOf(text, s);
      }
    }
  }

  /** The three parsers on a text the guarded ones accept as it stands. */
  lemma ParsersRead(s: Bytes)
    requires s != [] && Accepted(s)
    ensures ParseDCR(s) == if Zero(s) then Err(MustBePositive) else Ok(AtomsOf(Reading(s)))
    ensures ParseAmount(s) == Ok(AtomsOf(Reading(s)))
    ensures Unguarded(s) == Ok(if Negative(s) then 0 - AtomsOf(Reading(s)) else AtomsOf(Reading(s)))
  {
    GuardedExactly(s);
    AcceptedBare(s);
    AmountOf(s, s);
    AtomsZero(s);
    UnguardedReads(s);
  }

  lemma BareAmount(text: Bytes)
    requires text != [] && Bare(text)
    ensures ParseAmount(text).Ok? <==> Accepted(text)
  {
    AmountOf(text, text);
    GuardedExactly(text);
  }

  /** On what ParseAmount accepts, the on-chain parser agrees exactly on bare text that does not negate an amount. */
  lemma AmountAgreesExactly(text: Bytes)
    requires ParseAmount(text).Ok?
    ensures Unguarded(text) == ParseAmount(text) <==> Bare(text) && (Negative(text) ==> Zero(text))
  {
    if text == [] {
      EmptyText(text);
    } else if Bare(text) {
      BareAmount(text);
      ParsersRead(text);
      AtomsZero(text);
    } else if Unguarded(text).Ok? {
      ReadBare(text);
    }
  }

  lemma EmptyText(text: Bytes)
    requires text == []
    ensures Unguarded(text) == Ok(0) && ParseAmount(text) == Ok(0) && Bare(text)
  {
    UnguardedParts(text, [], None);
    NoFraction();
    ParseWhole([]);
  }

  lemma DcrAccepted(text: Bytes)
    requires ParseDCR(text).Ok?
    ensures TrimSpace(text) != [] && Accepted(TrimSpace(text)) && !Zero(TrimSpace(text))
  {
    var s := TrimSpace(text);
    DcrIs(text, s);
    GuardedExactly(s);
    AtomsZero(s);
  }

  /** On what ParseDCR accepts, the on-chain parser agrees exactly on trimmed text without a leading minus. */
  lemma DcrAgreesExactly(text: Bytes)
    requires ParseDCR(text).Ok?
    ensures Unguarded(text) == ParseDCR(text) <==> TrimSpace(text) == text && !Negative(text)
  {
    DcrAccepted(text);
    if TrimSpace(text) == text {
      ParsersRead(text);
      AtomsZero(text);
    } else if text != [] && Unguarded(text).Ok? {
      ReadBare(text);
    }
  }

  lemma SpelledAccepted(d: Decimal)
    requires Proper(d) && DecimalValue(d.whole) <= MAX_WHOLE
    ensures Spelled(d) != [] && !Signed(Spelled(d)) && Accepted(Spelled(d)) && Reading(Spelled(d)) == d
  {
    HalvesOf(d);
    assert d.whole != [] ==> d.whole[0] in d.whole && Spelled(d)[0] == d.whole[0];
    assert Digits(d) != [] ==> Digits(d)[0] in Digits(d);
  }

  /** On every unsigned decimal up to the range guard the three parsers agree on the exact atoms. */
  lemma ParsersAgree(d: Decimal)
    requires Proper(d) && DecimalValue(d.whole) <= MAX_WHOLE
    ensures InInt64(AtomsOf(d))
    ensures ParseDCR(Spelled(d)) == if AtomsOf(d) > 0 then Ok(AtomsOf(d)) else Err(MustBePositive)
    ensures ParseAmount(Spelled(d)) == Ok(AtomsOf(d))
    ensures Unguarded(Spelled(d)) == Ok(AtomsOf(d))
  {
    SpelledAccepted(d);
    ParsersReadAs(Spelled(d), AtomsOf(d));
    ParseFraction(Digits(d));
  }

  lemma ParsersReadAs(s: Bytes, atoms: nat)
    requires s != [] && Accepted(s) && !Negative(s) && atoms == AtomsOf(Reading(s))
    ensures ParseDCR(s) == if atoms > 0 then Ok(atoms) else Err(MustBePositive)
    ensures ParseAmount(s) == Ok(atoms)
    ensures Unguarded(s) == Ok(atoms)
  {
    ParsersRead(s);
    AtomsZero(s);
  }

  function WithUnit(s: Bytes): Bytes { s + " " + DCR }

  lemma KeepLeft(t: Bytes)
    requires t != [] && !IsSpace(t[0])
    ensures TrimLeft(t, IsSpace) == t
  {
  }

  lemma DropRight(t: Bytes, s: Bytes)
    requires s != [] && !IsSpace(s[|s| - 1]) && |t| == |s| + 1 && t[|s|] == ' ' && t[..|s|] == s
    ensures TrimRight(t, IsSpace) == s
  {
    assert TrimRight(s, IsSpace) == s;
  }

  lemma Trailing(s: Bytes, t: Bytes)
    requires s != [] && t == s + " "
    ensures |t| == |s| + 1 && t[0] == s[0] && t[|s|] == ' ' && t[..|s|] == s
  {
  }

  lemma TrimTrailing(s: Bytes, t: Bytes)
    requires s != [] && Numeral(s[0]) && Numeral(s[|s| - 1]) && t == s + " "
    ensures TrimSpace(t) == s
  {
    Trailing(s, t);
    KeepLeft(t);
    DropRight(t, s);
  }

  lemma UnitDrops(s: Bytes)
    requires s != [] && Numeral(s[0])
    ensures TrimSuffix(TrimSpace(WithUnit(s)), DCR) == s + " "
  {
    var t := WithUnit(s);
    UnitEnds(s + " ", DCR, t);
    assert t[0] == s[0] && t[|t| - 1] == 'R';
    PlainTrim(t);
  }

  lemma UnitEnds(s: Bytes, unit: Bytes, t: Bytes)
    requires unit != [] && t == s + unit
    ensures t[|t| - 1] == unit[|unit| - 1] && TrimSuffix(t, unit) == s
  {
    assert t[|t| - |unit|..] == unit && t[..|t| - |unit|] == s;
  }

  /** The unit suffix of a policy amount changes nothing. */
  lemma UnitSuffix(s: Bytes)
    requires s != [] && Accepted(s)
    ensures ParseAmount(WithUnit(s)) == ParseAmount(s)
  {
    UnguardedReads(s);
    ReadNumerals(s);
    assert Numeral(s[0]) && Numeral(s[|s| - 1]);
    assert TrimSpace(TrimSuffix(TrimSpace(WithUnit(s)), DCR)) == s by {
      UnitDrops(s);
      TrimTrailing(s, s + " ");
    }
    AmountOf(WithUnit(s), s);
    ParsersRead(s);
    GuardedExactly(s);
  }

  lemma DigitValues()
    ensures DecimalValue("0") == 0 && DecimalValue("1") == 1 && DecimalValue("5") == 5 && DecimalValue("05") == 5
  {
    var zero: Bytes, one: Bytes, five: Bytes := "0", "1", "5";
    assert zero[..0] == [] && one[..0] == [] && five[..0] == [];
    LeadingZero(five);
    assert "05" == "0" + five;
  }

  lemma PaddedValue(frac: Bytes)
    requires AllDigits(frac) && |frac| <= 8
    ensures AllDigits(Padded(frac)) && DecimalValue(Padded(frac)) == DecimalValue(frac) * Pow10(8 - |frac|)
  {
    var zeros := Zeros(8 - |frac|);
    ValueOfZeros(8 - |frac|);
    AppendZeros(frac, zeros, Padded(frac));
  }

  lemma AppendZeros(digits: Bytes, zeros: Bytes, s: Bytes)
    requires AllDigits(digits) && AllDigits(zeros) && DecimalValue(zeros) == 0 && s == digits + zeros
    ensures AllDigits(s) && DecimalValue(s) == DecimalValue(digits) * Pow10(|zeros|)
  {
    ValueAppend(digits, zeros);
  }

  lemma MinusHalf(s: Bytes)
    requires s == "-0.5"
    ensures Accepted(s) && Negative(s) && !Zero(s) && Reading(s) == Decimal("0", Some("5"))
  {
    assert s == "-0" + ['.'] + "5" && s[3] in s;
    CutSeparator("-0", '.', "5");
    assert "-0"[1..] == "0";
    DigitValues();
  }

  lemma PlusInFraction(s: Bytes)
    requires s == "1.+5"
    ensures Accepted(s) && !Negative(s) && !Zero(s) && Reading(s) == Decimal("1", Some("05"))
  {
    assert s == "1" + ['.'] + "+5" && s[0] in s;
    CutSeparator("1", '.', "+5");
    assert "+5"[1..] == "5" && "0" + "5" == "05";
    DigitValues();
  }

  /** One text, two amounts: half a DCR as a price or in a policy, minus half a DCR on chain. */
  lemma SignedTextDisagrees()
    ensures ParseDCR("-0.5") == Ok(50_000_000) && ParseAmount("-0.5") == Ok(50_000_000)
    ensures Unguarded("-0.5") == Ok(-50_000_000)
  {
    MinusHalf("-0.5");
    DigitValues();
    PaddedValue("5");
    assert Pow10(7) == 10_000_000;
    ParsersRead("-0.5");
  }

  /** A sign in front of the fraction takes up a place: every parser reads this text as 1.05 DCR. */
  lemma SignInFraction()
    ensures ParseDCR("1.+5") == Ok(105_000_000) && ParseAmount("1.+5") == Ok(105_000_000)
    ensures Unguarded("1.+5") == Ok(105_000_000)
  {
    PlusInFraction("1.+5");
    DigitValues();
    PaddedValue("05");
    assert Pow10(6) == 1_000_000;
    ParsersRead("1.+5");
  }

  // --- the eight-decimal printer ---

  /** The k lowest decimal digits of n, with leading zeros. */
  function Fixed(n: nat, k: nat): (s: Bytes)
    ensures |s| == k && AllDigits(s)
  {
    if k == 0 then [] else Fixed(n / 10, k - 1) + [Digit(n % 10)]
  }

  lemma {:induction false} FixedValue(n: nat, k: nat)
    requires n < Pow10(k)
    ensures DecimalValue(Fixed(n, k)) == n
  {
    if k > 0 {
      FixedValue(n / 10, k - 1);
      assert Fixed(n, k)[..k - 1] == Fixed(n / 10, k - 1);
    }
  }

  function Printed(atoms: nat): Decimal { Decimal(FormatNat(atoms / 100_000_000), Some(Fixed(atoms % 100_000_000, 8))) }

  lemma PrintedAtoms(atoms: nat)
    ensures Proper(Printed(atoms)) && AtomsOf(Printed(atoms)) == atoms
  {
    FormatNatValue(atoms / 100_000_000);
    assert Pow10(8) == 100_000_000;
    FixedValue(atoms % 100_000_000, 8);
    var f := Fixed(atoms % 100_000_000, 8);
    assert Padded(f) == f;
  }

  /** Each parser undoes the eight-decimal printer on every positive amount up to the range guard. */
  lemma ParsersUndoPrinting(atoms: nat)
    requires 0 < atoms < (MAX_WHOLE + 1) * 100_000_000
    ensures ParseDCR(Spelled(Printed(atoms))) == Ok(atoms)
    ensures ParseAmount(Spelled(Printed(atoms))) == Ok(atoms)
    ensures Unguarded(Spelled(Printed(atoms))) == Ok(atoms)
  {
    PrintedAtoms(atoms);
    FormatNatValue(atoms / 100_000_000);
    ParsersAgree(Printed(atoms));
  }
}
