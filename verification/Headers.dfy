/** The Authorization and WWW-Authenticate grammar (lib/l402/l402.go, HTTP headers). */
module Headers {
  import opened Base
  import opened Text
  import opened Encodings
  import opened Macaroons

  const L402: Bytes := "L402"
  const LSAT: Bytes := "LSAT"

  predicate IsScheme(s: Bytes) { s == L402 || s == LSAT }

  datatype HeaderError =
    | NotCredentialShaped | PreimageNotHex | NotBase64 | BadMacaroon(error: ParseError)
    | MalformedParameter | MissingParameter

  function DecodeMac(b64: Bytes): Result<Mac, HeaderError> {
    match B64Decode(b64)
    case None => Err(NotBase64)
    case Some(raw) =>
      match FromWire(raw)
      case Err(e) => Err(BadMacaroon(e))
      case Ok(m) => Ok(m)
  }

  function MacB64(m: Mac): (b64: Bytes)
    ensures b64 != [] && forall c <- b64 :: IsB64Char(c)
  {
    B64Encode(Wire(m))
  }

  lemma DecodeMacRoundTrip(m: Mac)
    requires m.Sized()
    ensures DecodeMac(MacB64(m)) == Ok(m)
  {
    B64RoundTrip(Wire(m));
    WireRoundTrip(m);
  }

  // --- Authorization ---

  function CredentialText(b64: Bytes, preimageHex: Bytes): Bytes { b64 + [':'] + preimageHex }

  function Authorization(b64: Bytes, preimageHex: Bytes): Bytes { L402 + " " + CredentialText(b64, preimageHex) }

  function AuthorizationValue(m: Mac, preimageHex: Bytes): Bytes { Authorization(MacB64(m), preimageHex) }

  /** NotL402: the header is no L402 credential at all; Bad: a malformed one. */
  datatype AuthResult = NotL402 | Bad(error: HeaderError) | Credential(macs: seq<Mac>, preimageHex: Bytes)

  function DecodeMacs(parts: seq<Bytes>): Result<seq<Mac>, HeaderError> {
    if parts == [] then Ok([])
    else
      var m :- DecodeMac(parts[0]);
      var ms :- DecodeMacs(parts[1..]);
      Ok([m] + ms)
  }

  function CredentialOf(credential: Bytes): AuthResult {
    match Cut(credential, ':')
    case None => Bad(NotCredentialShaped)
    case Some((macPart, preimage)) =>
      if macPart == [] || preimage == [] then Bad(NotCredentialShaped)
      else if HexDecode(preimage).None? then Bad(PreimageNotHex)
      else
        match DecodeMacs(Split(macPart, ','))
        case Err(e) => Bad(e)
        case Ok(ms) => Credential(ms, preimage)
  }

  function Authorized(value: Bytes): AuthResult {
    var fields := Fields(TrimSpace(value));
    if |fields| != 2 || !IsScheme(ToUpper(fields[0])) then NotL402 else CredentialOf(fields[1])
  }

  method DecodeStack(parts: seq<Bytes>) returns (r: Result<seq<Mac>, HeaderError>)
    ensures r == DecodeMacs(parts)
  {
    var macs: seq<Mac> := [];
    assert parts[0..] == parts;
    assert forall ms: seq<Mac> :: macs + ms == ms;
    for i := 0 to |parts|
      invariant DecodeMacs(parts) ==
        match DecodeMacs(parts[i..])
        case Err(e) => Err(e)
        case Ok(ms) => Ok(macs + ms)
    {
      assert parts[i..][1..] == parts[i + 1..];
      var m := DecodeMac(parts[i]);
      if m.Err? {
        return Err(m.error);
      }
      assert forall ms :: macs + ([m.value] + ms) == macs + [m.value] + ms;
      macs := macs + [m.value];
    }
    assert macs + [] == macs;
    r := Ok(macs);
  }

  method ParseAuthorization(value: Bytes) returns (r: AuthResult)
    ensures r == Authorized(value)
  {
    var fields := Fields(TrimSpace(value));
    if |fields| != 2 || !IsScheme(ToUpper(fields[0])) {
      return NotL402;
    }
    var cut := Cut(fields[1], ':');
    if cut.None? || cut.value.0 == [] || cut.value.1 == [] {
      return Bad(NotCredentialShaped);
    }
    if HexDecode(cut.value.1).None? {
      return Bad(PreimageNotHex);
    }
    var macs := DecodeStack(Split(cut.value.0, ','));
    r := if macs.Err? then Bad(macs.error) else Credential(macs.value, cut.value.1);
  }

  lemma HexIsPlain(t: Bytes)
    requires forall c <- t :: HexValue(c).Some?
    ensures NoSpace(t)
  {
  }

  lemma B64IsPlain(t: Bytes)
    requires forall c <- t :: IsB64Char(c)
    ensures NoSpace(t) && ':' !in t && ',' !in t && '\"' !in t
  {
  }

  lemma SchemesAreUpper()
    ensures ToUpper(L402) == L402 && ToUpper(LSAT) == LSAT
  {
  }

  predicate PlainKey(key: Bytes) {
    key != [] && !IsSpace(key[0]) && '=' !in key && ToLower(key) == key
  }

  lemma KeysArePlain()
    ensures PlainKey(MACAROON) && PlainKey(INVOICE)
  {
  }

  lemma DecodeOne(b64: Bytes, m: Mac)
    requires DecodeMac(b64) == Ok(m)
    ensures DecodeMacs([b64]) == Ok([m])
  {
    var parts := [b64];
    assert DecodeMacs(parts[1..]) == Ok([]);
    assert [m] + [] == [m];
  }

  lemma CredentialRoundTrip(b64: Bytes, macs: seq<Mac>, preimageHex: Bytes)
    requires b64 != [] && ':' !in b64 && ',' !in b64 && DecodeMacs([b64]) == Ok(macs)
    requires preimageHex != [] && HexDecode(preimageHex).Some?
    ensures CredentialOf(CredentialText(b64, preimageHex)) == Credential(macs, preimageHex)
  {
    CutSeparator(b64, ':', preimageHex);
    SplitOne(b64, ',');
  }

  lemma AuthorizedFields(value: Bytes, scheme: Bytes, cred: Bytes)
    requires Fields(TrimSpace(value)) == [scheme, cred] && IsScheme(ToUpper(scheme))
    ensures Authorized(value) == CredentialOf(cred)
  {
  }

  lemma Trimmed(s: Bytes, last: Octet)
    requires s != [] && !IsSpace(s[0]) && s[|s| - 1] == last && !IsSpace(last)
    ensures TrimSpace(s) == s
  {
  }

  lemma AuthorizationFields(b64: Bytes, preimageHex: Bytes)
    requires b64 != [] && (forall c <- b64 :: IsB64Char(c))
    requires preimageHex != [] && HexDecode(preimageHex).Some?
    ensures Fields(TrimSpace(Authorization(b64, preimageHex))) == [L402, CredentialText(b64, preimageHex)]
  {
    CredentialPlain(b64, preimageHex);
    SchemePlain();
    TwoWords(Authorization(b64, preimageHex), L402, CredentialText(b64, preimageHex));
  }

  lemma SchemePlain()
    ensures L402 != [] && NoSpace(L402)
  {
  }

  lemma TwoWords(value: Bytes, a: Bytes, b: Bytes)
    requires a != [] && b != [] && NoSpace(a) && NoSpace(b) && value == a + " " + b
    ensures Fields(TrimSpace(value)) == [a, b]
  {
    assert a[0] in a && b[|b| - 1] in b;
    assert value[0] == a[0] && value[|value| - 1] == b[|b| - 1];
    Trimmed(value, b[|b| - 1]);
    FieldsTwo(a, b);
  }

  lemma CredentialPlain(b64: Bytes, preimageHex: Bytes)
    requires b64 != [] && (forall c <- b64 :: IsB64Char(c))
    requires preimageHex != [] && HexDecode(preimageHex).Some?
    ensures var cred := CredentialText(b64, preimageHex);
            cred != [] && NoSpace(cred)
  {
    HexIsPlain(preimageHex);
    B64IsPlain(b64);
  }

  lemma AuthorizedDecodes(b64: Bytes, m: Mac, preimageHex: Bytes)
    requires b64 != [] && (forall c <- b64 :: IsB64Char(c)) && DecodeMac(b64) == Ok(m)
    requires preimageHex != [] && HexDecode(preimageHex).Some?
    ensures Authorized(Authorization(b64, preimageHex)) == Credential([m], preimageHex)
  {
    AuthorizationFields(b64, preimageHex);
    SchemesAreUpper();
    B64IsPlain(b64);
    AuthorizedFields(Authorization(b64, preimageHex), L402, CredentialText(b64, preimageHex));
    DecodeOne(b64, m);
    CredentialRoundTrip(b64, [m], preimageHex);
  }

  lemma PreimageOfCredential(cred: Bytes)
    ensures CredentialOf(cred).Credential? ==>
      CredentialOf(cred).preimageHex != [] && HexDecode(CredentialOf(cred).preimageHex).Some?
  {
  }

  lemma AuthorizedFrom(value: Bytes)
    requires Authorized(value).Credential?
    ensures exists cred :: Authorized(value) == CredentialOf(cred)
  {
  }

  lemma CredentialPreimage(value: Bytes)
    ensures Authorized(value).Credential? ==>
      Authorized(value).preimageHex != [] && HexDecode(Authorized(value).preimageHex).Some?
  {
    if Authorized(value).Credential? {
      AuthorizedFrom(value);
      var cred :| Authorized(value) == CredentialOf(cred);
      PreimageOfCredential(cred);
    }
  }

  /** Parsing undoes rendering exactly on non-empty hexadecimal preimages. */
  lemma AuthorizationRoundTrip(m: Mac, preimageHex: Bytes)
    requires m.Sized()
    ensures Authorized(AuthorizationValue(m, preimageHex)) == Credential([m], preimageHex)
            <==> preimageHex != [] && HexDecode(preimageHex).Some?
  {
    CredentialPreimage(AuthorizationValue(m, preimageHex));
    if preimageHex != [] && HexDecode(preimageHex).Some? {
      DecodeMacRoundTrip(m);
      AuthorizedDecodes(MacB64(m), m, preimageHex);
    }
  }

  // --- WWW-Authenticate ---

  datatype Challenge = Challenge(scheme: Bytes, macaroonB64: Bytes, macaroon: Mac, invoice: Bytes)

  datatype ChallengeResult = NotChallenge | BadChallenge(error: HeaderError) | Found(challenge: Challenge)

  const MACAROON: Bytes := "macaroon"
  const INVOICE: Bytes := "invoice"

  function Quoted(s: Bytes): Bytes { "\"" + s + "\"" }

  function Parameter(key: Bytes, val: Bytes): Bytes { key + ['='] + Quoted(val) }

  function Spaced(s: Bytes): Bytes { " " + s }

  function Parameters(b64: Bytes, invoice: Bytes): Bytes {
    Parameter(MACAROON, b64) + [','] + Spaced(Parameter(INVOICE, invoice))
  }

  function ChallengeValue(scheme: Bytes, m: Mac, invoice: Bytes): Bytes {
    scheme + [' '] + Parameters(MacB64(m), invoice)
  }

  /** The two headers, LSAT first. */
  function WriteChallenge(m: Mac, invoice: Bytes): seq<Bytes> {
    [ChallengeValue(LSAT, m, invoice), ChallengeValue(L402, m, invoice)]
  }

  /** The two headers as text. */
  lemma ChallengeTexts(m: Mac, invoice: Bytes)
    ensures WriteChallenge(m, invoice) ==
              ["LSAT macaroon=\"" + MacB64(m) + "\", invoice=\"" + invoice + "\"",
               "L402 macaroon=\"" + MacB64(m) + "\", invoice=\"" + invoice + "\""]
  {
    ChallengeText(LSAT, MacB64(m), invoice);
    ChallengeText(L402, MacB64(m), invoice);
    assert LSAT + " macaroon=\"" == "LSAT macaroon=\"" && L402 + " macaroon=\"" == "L402 macaroon=\"";
  }

  lemma Assembled(scheme: Bytes, m: Bytes, b64: Bytes, i: Bytes, invoice: Bytes, q: Bytes)
    ensures scheme + [' '] + (m + ['='] + (q + b64 + q) + [','] + (" " + (i + ['='] + (q + invoice + q))))
         == scheme + ([' '] + m + ['='] + q) + b64 + (q + [','] + " " + i + ['='] + q) + invoice + q
  {
  }

  lemma ChallengeText(scheme: Bytes, b64: Bytes, invoice: Bytes)
    ensures scheme + [' '] + Parameters(b64, invoice)
         == scheme + " macaroon=\"" + b64 + "\", invoice=\"" + invoice + "\""
  {
    Assembled(scheme, MACAROON, b64, INVOICE, invoice, "\"");
    Frames();
  }

  lemma Frames()
    ensures [' '] + MACAROON + ['='] + "\"" == " macaroon=\""
    ensures "\"" + [','] + " " + INVOICE + ['='] + "\"" == "\", invoice=\""
  {
  }

  /** The credential as text. */
  lemma AuthorizationText(b64: Bytes, preimageHex: Bytes)
    ensures Authorization(b64, preimageHex) == "L402 " + b64 + ":" + preimageHex
  {
    var text: Bytes := "L402" + " ";
    assert text == "L402 ";
    assert Authorization(b64, preimageHex) == text + b64 + [':'] + preimageHex;
  }

  /** macaroon and invoice parameters seen so far; the last one of a name wins. */
  datatype Params = Params(macaroon: Bytes, invoice: Bytes)

  /** One parameter: its lower-case key and unquoted value, or None when it has no '='. */
  function ReadParam(part: Bytes): Option<(Bytes, Bytes)> {
    match Cut(TrimSpace(part), '=')
    case None => None
    case Some((key, val)) => Some((ToLower(key), Trim(val, IsQuote)))
  }

  /** Unknown parameters are ignored. */
  function SetParam(p: Params, key: Bytes, v: Bytes): (q: Params)
    ensures q.invoice == p.invoice || q.invoice == v
  {
    if key == MACAROON then p.(macaroon := v) else if key == INVOICE then p.(invoice := v) else p
  }

  function SetParams(p: Params, read: seq<Option<(Bytes, Bytes)>>): Result<Params, HeaderError>
    decreases read
  {
    if read == [] then Ok(p)
    else if read[0].None? then Err(MalformedParameter)
    else SetParams(SetParam(p, read[0].value.0, read[0].value.1), read[1..])
  }

  function ParamsOf(parts: seq<Bytes>): Result<Params, HeaderError> {
    SetParams(Params([], []), Map(ReadParam, parts))
  }

  function FinishChallenge(scheme: Bytes, params: Result<Params, HeaderError>): ChallengeResult {
    match params
    case Err(e) => BadChallenge(e)
    case Ok(p) =>
      if p.macaroon == [] || p.invoice == [] then BadChallenge(MissingParameter)
      else
        match DecodeMac(p.macaroon)
        case Err(e) => BadChallenge(e)
        case Ok(m) => Found(Challenge(scheme, p.macaroon, m, p.invoice))
  }

  function ChallengeOf(value: Bytes): ChallengeResult {
    match Cut(TrimSpace(value), ' ')
    case None => NotChallenge
    case Some((scheme, params)) =>
      if !IsScheme(ToUpper(scheme)) then NotChallenge
      else FinishChallenge(ToUpper(scheme), ParamsOf(Split(params, ',')))
  }

  method ReadParameters(parts: seq<Bytes>) returns (r: Result<Params, HeaderError>)
    ensures r == ParamsOf(parts)
  {
    var p := Params([], []);
    ghost var read := Map(ReadParam, parts);
    for i := 0 to |parts|
      invariant SetParams(p, read[i..]) == SetParams(Params([], []), read)
    {
      assert read[i..][1..] == read[i + 1..];
      var kv := ReadParam(parts[i]);
      if kv.None? {
        return Err(MalformedParameter);
      }
      p := SetParam(p, kv.value.0, kv.value.1);
    }
    r := Ok(p);
  }

  method ParseChallenge(value: Bytes) returns (r: ChallengeResult)
    ensures r == ChallengeOf(value)
  {
    var cut := Cut(TrimSpace(value), ' ');
    if cut.None? || !IsScheme(ToUpper(cut.value.0)) {
      return NotChallenge;
    }
    var params := ReadParameters(Split(cut.value.1, ','));
    r := FinishChallenge(ToUpper(cut.value.0), params);
  }

  /** The first well-formed challenge; failing that, firstErr or the first error; failing that, nothing. */
  function ScanChallenges(results: seq<ChallengeResult>, firstErr: Option<HeaderError>)
    : Result<Option<Challenge>, HeaderError>
    decreases results
  {
    if results == [] then if firstErr.None? then Ok(None) else Err(firstErr.value)
    else
      match results[0]
      case NotChallenge => ScanChallenges(results[1..], firstErr)
      case Found(ch) => Ok(Some(ch))
      case BadChallenge(e) => ScanChallenges(results[1..], if firstErr.None? then Some(e) else firstErr)
  }

  function FirstChallenge(values: seq<Bytes>): Result<Option<Challenge>, HeaderError> {
    ScanChallenges(Map(ChallengeOf, values), None)
  }

  /** With no well-formed challenge among them, the first malformed one is reported, and nothing if there is none. */
  lemma {:induction false} ScanReports(results: seq<ChallengeResult>, firstErr: Option<HeaderError>)
    requires forall r <- results :: !r.Found?
    ensures firstErr.Some? ==> ScanChallenges(results, firstErr) == Err(firstErr.value)
    ensures firstErr.None? && (forall r <- results :: r.NotChallenge?) ==> ScanChallenges(results, firstErr) == Ok(None)
    ensures forall i :: 0 <= i < |results| && results[i].BadChallenge? && firstErr.None?
                        && (forall j :: 0 <= j < i ==> results[j].NotChallenge?)
                        ==> ScanChallenges(results, firstErr) == Err(results[i].error)
    decreases results
  {
    if results != [] {
      var e := if results[0].BadChallenge? && firstErr.None? then Some(results[0].error) else firstErr;
      assert forall r <- results[1..] :: r in results;
      ScanReports(results[1..], e);
    }
  }

  lemma ScanStep(results: seq<ChallengeResult>, firstErr: Option<HeaderError>, i: nat)
    requires i < |results|
    ensures ScanChallenges(results[i..], firstErr) ==
              match results[i]
              case NotChallenge => ScanChallenges(results[i + 1..], firstErr)
              case Found(ch) => Ok(Some(ch))
              case BadChallenge(e) =>
                ScanChallenges(results[i + 1..], if firstErr.None? then Some(e) else firstErr)
  {
    assert results[i..][0] == results[i] && results[i..][1..] == results[i + 1..];
  }

  method FindChallenge(values: seq<Bytes>) returns (r: Result<Option<Challenge>, HeaderError>)
    ensures r == FirstChallenge(values)
  {
    var firstErr: Option<HeaderError> := None;
    ghost var results := Map(ChallengeOf, values);
    for i := 0 to |values|
      invariant ScanChallenges(results, None) == ScanChallenges(results[i..], firstErr)
    {
      ScanStep(results, firstErr, i);
      var ch := ParseChallenge(values[i]);
      match ch {
        case NotChallenge =>
        case BadChallenge(e) =>
          if firstErr.None? {
            firstErr := Some(e);
          }
        case Found(c) =>
          return Ok(Some(c));
      }
    }
    r := if firstErr.None? then Ok(None) else Err(firstErr.value);
  }

  /** A text that survives being written between quotes in a comma-separated list. */
  predicate Quotable(s: Bytes) {
    s != [] && ',' !in s && !IsQuote(s[0]) && !IsQuote(s[|s| - 1])
  }

  lemma TrimQuoted(s: Bytes)
    requires Quotable(s)
    ensures Trim(Quoted(s), IsQuote) == s
  {
    var q := Quoted(s);
    assert q[0] == '\"' && q[1..] == s + "\"";
    assert q[1..][0] == s[0];
    assert TrimLeft(q, IsQuote) == s + "\"";
    assert (s + "\"")[..|s|] == s;
    assert TrimRight(s + "\"", IsQuote) == TrimRight(s, IsQuote) == s;
  }

  lemma ParameterTrimmed(key: Bytes, val: Bytes)
    requires PlainKey(key)
    ensures TrimSpace(Parameter(key, val)) == Parameter(key, val)
    ensures TrimSpace(Spaced(Parameter(key, val))) == Parameter(key, val)
  {
    var p := Parameter(key, val);
    assert p[0] == key[0] && p[|p| - 1] == '\"';
    SpacedTrims(p);
  }

  lemma SpacedTrims(p: Bytes)
    requires p != [] && !IsSpace(p[0]) && !IsSpace(p[|p| - 1])
    ensures TrimSpace(p) == p && TrimSpace(Spaced(p)) == p
  {
    assert Spaced(p)[0] == ' ' && Spaced(p)[1..] == p;
    assert TrimLeft(Spaced(p), IsSpace) == TrimLeft(p, IsSpace) == p;
  }

  lemma ReadTrimmed(part: Bytes, key: Bytes, val: Bytes)
    requires PlainKey(key) && Quotable(val) && TrimSpace(part) == Parameter(key, val)
    ensures ReadParam(part) == Some((key, val))
  {
    CutSeparator(key, '=', Quoted(val));
    TrimQuoted(val);
  }

  lemma NoComma(key: Bytes, val: Bytes)
    requires ',' !in key && ',' !in val
    ensures ',' !in Parameter(key, val) && ',' !in Spaced(Parameter(key, val))
  {
  }

  lemma ParametersSplit(b64: Bytes, invoice: Bytes)
    requires ',' !in b64 && ',' !in invoice
    ensures Split(Parameters(b64, invoice), ',') == [Parameter(MACAROON, b64), Spaced(Parameter(INVOICE, invoice))]
  {
    NoComma(MACAROON, b64);
    NoComma(INVOICE, invoice);
    SplitSeparator(Parameter(MACAROON, b64), ',', Spaced(Parameter(INVOICE, invoice)));
    SplitOne(Spaced(Parameter(INVOICE, invoice)), ',');
  }

  lemma SetTwo(b64: Bytes, invoice: Bytes)
    ensures SetParams(Params([], []), [Some((MACAROON, b64)), Some((INVOICE, invoice))]) == Ok(Params(b64, invoice))
  {
    assert MACAROON != INVOICE by { assert |MACAROON| != |INVOICE|; }
    var read: seq<Option<(Bytes, Bytes)>> := [Some((MACAROON, b64)), Some((INVOICE, invoice))];
    assert read[1..] == [Some((INVOICE, invoice))] && read[1..][1..] == [];
    assert SetParams(Params(b64, []), read[1..]) == SetParams(Params(b64, invoice), read[1..][1..]);
  }

  lemma ReadMacaroon(b64: Bytes)
    requires Quotable(b64)
    ensures ReadParam(Parameter(MACAROON, b64)) == Some((MACAROON, b64))
  {
    KeysArePlain();
    ParameterTrimmed(MACAROON, b64);
    ReadTrimmed(Parameter(MACAROON, b64), MACAROON, b64);
  }

  lemma ReadInvoice(invoice: Bytes)
    requires Quotable(invoice)
    ensures ReadParam(Spaced(Parameter(INVOICE, invoice))) == Some((INVOICE, invoice))
  {
    KeysArePlain();
    ParameterTrimmed(INVOICE, invoice);
    ReadTrimmed(Spaced(Parameter(INVOICE, invoice)), INVOICE, invoice);
  }

  lemma MapTwo<A, B>(f: A -> B, a: A, b: A)
    ensures Map(f, [a, b]) == [f(a)] + [f(b)]
  {
  }

  lemma ParametersDecode(b64: Bytes, invoice: Bytes)
    requires Quotable(b64) && Quotable(invoice)
    ensures ParamsOf(Split(Parameters(b64, invoice), ',')) == Ok(Params(b64, invoice))
  {
    var a, b := Parameter(MACAROON, b64), Spaced(Parameter(INVOICE, invoice));
    assert ReadParam(a) == Some((MACAROON, b64)) by { ReadMacaroon(b64); }
    assert ReadParam(b) == Some((INVOICE, invoice)) by { ReadInvoice(invoice); }
    assert Split(Parameters(b64, invoice), ',') == [a, b] by { ParametersSplit(b64, invoice); }
    MapTwo(ReadParam, a, b);
    SetTwo(b64, invoice);
  }

  lemma ReadIsClean(part: Bytes)
    requires ',' !in part && ReadParam(part).Some?
    ensures ReadParam(part).value.1 == [] || Quotable(ReadParam(part).value.1)
  {
    var val := Cut(TrimSpace(part), '=').value.1;
    assert forall c <- Trim(val, IsQuote) :: c in val && c in TrimSpace(part) && c in part;
  }

  /** Whatever invoice a parse reports is Quotable, or none was seen. */
  lemma {:induction false} ParsedInvoice(p: Params, read: seq<Option<(Bytes, Bytes)>>)
    requires p.invoice == [] || Quotable(p.invoice)
    requires forall kv <- read :: kv.Some? ==> kv.value.1 == [] || Quotable(kv.value.1)
    requires SetParams(p, read).Ok?
    ensures SetParams(p, read).value.invoice == [] || Quotable(SetParams(p, read).value.invoice)
    decreases read
  {
    if read != [] {
      assert read[0] in read;
      ParsedInvoice(SetParam(p, read[0].value.0, read[0].value.1), read[1..]);
    }
  }

  lemma MacB64Quotable(m: Mac)
    ensures Quotable(MacB64(m))
  {
    var b := MacB64(m);
    B64IsPlain(b);
    assert b[0] in b && b[|b| - 1] in b;
  }

  lemma SchemeSplits(scheme: Bytes, m: Mac, invoice: Bytes)
    requires IsScheme(scheme)
    ensures Cut(TrimSpace(ChallengeValue(scheme, m, invoice)), ' ') == Some((scheme, Parameters(MacB64(m), invoice)))
    ensures ToUpper(scheme) == scheme
  {
    SchemesAreUpper();
    var value := ChallengeValue(scheme, m, invoice);
    assert value[0] == scheme[0] && value[|value| - 1] == '\"';
    assert TrimSpace(value) == value;
    CutSeparator(scheme, ' ', Parameters(MacB64(m), invoice));
  }

  lemma FinishFound(scheme: Bytes, b64: Bytes, m: Mac, invoice: Bytes)
    requires DecodeMac(b64) == Ok(m) && b64 != [] && invoice != []
    ensures FinishChallenge(scheme, Ok(Params(b64, invoice))) == Found(Challenge(scheme, b64, m, invoice))
  {
  }

  lemma ReadsAreClean(parts: seq<Bytes>)
    requires forall part <- parts :: ',' !in part
    ensures forall kv <- Map(ReadParam, parts) :: kv.Some? ==> kv.value.1 == [] || Quotable(kv.value.1)
  {
    forall i | 0 <= i < |parts| && ReadParam(parts[i]).Some?
      ensures ReadParam(parts[i]).value.1 == [] || Quotable(ReadParam(parts[i]).value.1)
    {
      ReadIsClean(parts[i]);
    }
  }

  lemma FoundFinished(scheme: Bytes, params: Result<Params, HeaderError>)
    requires FinishChallenge(scheme, params).Found?
    ensures params.Ok? && FinishChallenge(scheme, params).challenge.invoice == params.value.invoice
    ensures params.value.invoice != []
  {
  }

  lemma FoundInvoice(scheme: Bytes, parts: seq<Bytes>)
    requires forall part <- parts :: ',' !in part
    requires FinishChallenge(scheme, ParamsOf(parts)).Found?
    ensures Quotable(FinishChallenge(scheme, ParamsOf(parts)).challenge.invoice)
  {
    FoundFinished(scheme, ParamsOf(parts));
    ReadsAreClean(parts);
    ParsedInvoice(Params([], []), Map(ReadParam, parts));
  }

  lemma ChallengeSplit(value: Bytes, scheme: Bytes, params: Bytes)
    requires Cut(TrimSpace(value), ' ') == Some((scheme, params)) && IsScheme(ToUpper(scheme))
    ensures ChallengeOf(value) == FinishChallenge(ToUpper(scheme), ParamsOf(Split(params, ',')))
  {
  }

  /** Parsing a written challenge gives back macaroon and invoice exactly on Quotable invoices. */
  lemma ChallengeRoundTrip(scheme: Bytes, m: Mac, invoice: Bytes)
    requires IsScheme(scheme) && m.Sized()
    ensures ChallengeOf(ChallengeValue(scheme, m, invoice)) == Found(Challenge(scheme, MacB64(m), m, invoice))
            <==> Quotable(invoice)
  {
    var value, params := ChallengeValue(scheme, m, invoice), Parameters(MacB64(m), invoice);
    SchemeSplits(scheme, m, invoice);
    ChallengeSplit(value, scheme, params);
    if FinishChallenge(scheme, ParamsOf(Split(params, ','))).Found? {
      FoundInvoice(scheme, Split(params, ','));
    }
    if Quotable(invoice) {
      MacB64Quotable(m);
      ParametersDecode(MacB64(m), invoice);
      DecodeMacRoundTrip(m);
      FinishFound(scheme, MacB64(m), m, invoice);
    }
  }

  lemma {:induction false} ScanSkips(results: seq<ChallengeResult>, ch: Challenge, rest: seq<ChallengeResult>,
                                     firstErr: Option<HeaderError>)
    requires forall r <- results :: !r.Found?
    ensures ScanChallenges(results + ([Found(ch)] + rest), firstErr) == Ok(Some(ch))
    decreases results
  {
    var all := results + ([Found(ch)] + rest);
    if results == [] {
      assert all[0] == Found(ch);
    } else {
      assert all[0] == results[0] && all[1..] == results[1..] + ([Found(ch)] + rest);
      var e := if results[0].BadChallenge? && firstErr.None? then Some(results[0].error) else firstErr;
      ScanSkips(results[1..], ch, rest, e);
    }
  }

  /** The client finds the LSAT challenge behind any headers that are no well-formed L402 challenge. */
  lemma FindsWritten(others: seq<Bytes>, m: Mac, invoice: Bytes)
    requires m.Sized() && Quotable(invoice)
    requires forall v <- others :: !ChallengeOf(v).Found?
    ensures FirstChallenge(others + WriteChallenge(m, invoice)) == Ok(Some(Challenge(LSAT, MacB64(m), m, invoice)))
  {
    ChallengeRoundTrip(LSAT, m, invoice);
    var ch := Challenge(LSAT, MacB64(m), m, invoice);
    var second := ChallengeOf(ChallengeValue(L402, m, invoice));
    ScanSkips(Map(ChallengeOf, others), ch, [second], None);
    MapAppend(ChallengeOf, others, WriteChallenge(m, invoice));
    MapTwo(ChallengeOf, ChallengeValue(LSAT, m, invoice), ChallengeValue(L402, m, invoice));
  }
}
