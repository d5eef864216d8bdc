/** The paid-HTTP client against an arbitrary server (agent/payclient/payclient.go, agent/rails/ln/ln.go). */
module PayClient {
  import opened Base
  import opened Text
  import opened Numbers
  import opened Encodings
  import opened JsonValue
  import opened Seller
  import Credentials
  import Headers
  import Macaroons
  import Policy

  // --- invoices as the buyer reads them ---

  /** Milli-atoms truncated to 64 bits, and whole atoms; an absent amount reads as zero. */
  datatype LnInvoice = LnInvoice(mAtoms: int, atoms: int, destination: Bytes, paymentHash: Bytes)

  /** Division as Go does it, toward zero. */
  function Quotient(a: int, b: int): int
    requires b > 0
  {
    if a >= 0 then a / b else -((-a) / b)
  }

  function DecodeInvoice(w: World, invoice: Bytes): Option<LnInvoice> {
    match w.invoice(invoice)
    case None => None
    case Some(inv) =>
      var m := if inv.milliAtoms.None? then 0 else Wrap64(inv.milliAtoms.value);
      Some(LnInvoice(m, Quotient(m, 1000), if inv.destination.None? then [] else inv.destination.value,
                     if inv.paymentHash.None? then [] else HexEncode(inv.paymentHash.value)))
  }

  // --- server replies ---

  datatype PaymentRequired = PaymentRequired(version: int, accepts: seq<Requirements>)

  /** A response: status, the Payment-Required header if any and what it decodes to, and the WWW-Authenticate values. */
  datatype Reply = Reply(status: int, required: Option<Option<PaymentRequired>>, challenges: seq<Bytes>,
                         delivered: Option<Credentials.Delivered>)

  datatype FetchError =
    | BadUrl | Transport | BadStatus(status: int) | BadChallenge | AboveGuard | GateRefused | PayFailed

  datatype Rail = X402 | L402

  /** A challenge free of its envelope; macB64 is for the legacy retry. */
  datatype Challenge = Challenge(rail: Rail, invoice: Bytes, amount: int, macB64: Bytes)

  function ParseEntry(w: World, net: Network, entry: Requirements): Option<Challenge> {
    if entry.network != net.caip2 then None
    else
      match LightningExtraOf(w, entry.extra)
      case None => None
      case Some(extra) =>
        match DecodeInvoice(w, extra.invoice)
        case None => None
        case Some(inv) =>
          var amount := ParseInt64(entry.amount);
          if amount.None? || amount.value <= 0 then None
          else if !EqualFold(inv.paymentHash, extra.paymentHash) || !EqualFold(inv.destination, entry.payTo) then None
          else if inv.mAtoms != Wrap64(amount.value * 1000) then None
          else Some(Challenge.Challenge(X402, extra.invoice, amount.value, []))
  }

  /** The first entry that pays over lightning. */
  function FirstLightning(w: World, entries: seq<Requirements>): Option<Requirements> {
    if entries == [] then None
    else if TransferMethod(w, entries[0].extra) == LIGHTNING then Some(entries[0])
    else FirstLightning(w, entries[1..])
  }

  /** The entry that decides is the first that pays over lightning, and there is none exactly when no entry does. */
  lemma {:induction false} FirstLightningExactly(w: World, entries: seq<Requirements>)
    ensures FirstLightning(w, entries).None? <==>
              forall i :: 0 <= i < |entries| ==> TransferMethod(w, entries[i].extra) != "lightning"
    ensures forall i :: 0 <= i < |entries| && TransferMethod(w, entries[i].extra) == "lightning"
                        && (forall j :: 0 <= j < i ==> TransferMethod(w, entries[j].extra) != "lightning")
                        ==> FirstLightning(w, entries) == Some(entries[i])
    decreases entries
  {
    if entries != [] {
      FirstLightningExactly(w, entries[1..]);
    }
  }

  function X402Challenge(w: World, net: Network, header: Option<PaymentRequired>): Option<Challenge> {
    if header.None? || header.value.version != 2 then None
    else
      match FirstLightning(w, header.value.accepts)
      case None => None
      case Some(entry) => ParseEntry(w, net, entry)
  }

  method ParseX402(w: World, net: Network, header: Option<PaymentRequired>) returns (r: Option<Challenge>)
    ensures r == X402Challenge(w, net, header)
  {
    if header.None? || header.value.version != 2 {
      return None;
    }
    var accepts := header.value.accepts;
    for i := 0 to |accepts|
      invariant FirstLightning(w, accepts) == FirstLightning(w, accepts[i..])
    {
      assert accepts[i..][0] == accepts[i] && accepts[i..][1..] == accepts[i + 1..];
      if TransferMethod(w, accepts[i].extra) != LIGHTNING {
        continue;
      }
      return ParseEntry(w, net, accepts[i]);
    }
    r := None;
  }

  function LegacyChallenge(w: World, challenges: seq<Bytes>): Option<Challenge> {
    match Headers.FirstChallenge(challenges)
    case Err(_) => None
    case Ok(None) => None
    case Ok(Some(ch)) =>
      match DecodeInvoice(w, ch.invoice)
      case None => None
      case Some(inv) =>
        if inv.atoms <= 0 then None else Some(Challenge.Challenge(L402, ch.invoice, inv.atoms, ch.macaroonB64))
  }

  /** x402 is preferred unless the caller asks for the legacy envelope. */
  function ChallengeIn(w: World, net: Network, reply: Reply, forceLegacy: bool): Option<Challenge> {
    if !forceLegacy && reply.required.Some? then X402Challenge(w, net, reply.required.value)
    else LegacyChallenge(w, reply.challenges)
  }

  method ParseChallenge(w: World, net: Network, reply: Reply, forceLegacy: bool) returns (r: Option<Challenge>)
    ensures r == ChallengeIn(w, net, reply, forceLegacy)
  {
    if !forceLegacy && reply.required.Some? {
      r := ParseX402(w, net, reply.required.value);
      return;
    }
    var found := Headers.FindChallenge(reply.challenges);
    if found.Err? || found.value.None? {
      return None;
    }
    var inv := DecodeInvoice(w, found.value.value.invoice);
    if inv.None? || inv.value.atoms <= 0 {
      return None;
    }
    r := Some(Challenge.Challenge(L402, found.value.value.invoice, inv.value.atoms, found.value.value.macaroonB64));
  }

  // --- what policy is asked about is what the invoice takes ---

  /** What the invoice takes, in milli-atoms. */
  function MilliAtoms(w: World, invoice: Bytes): uint64 {
    match w.invoice(invoice)
    case None => 0
    case Some(inv) => if inv.milliAtoms.None? then 0 else inv.milliAtoms.value
  }

  /**
   * The amount shown to policy against the invoice: over x402 a thousandth of it in 64-bit arithmetic, which is exact
   * below 2^64 milli-atoms; over legacy L402 rounded down to whole atoms.
   */
  predicate Priced(w: World, ch: Challenge) {
    && 0 < ch.amount <= MAX_INT64 && w.invoice(ch.invoice).Some?
    && match ch.rail
       case X402 => Wrap64(MilliAtoms(w, ch.invoice)) == Wrap64(ch.amount * 1000)
       case L402 => ch.amount * 1000 <= MilliAtoms(w, ch.invoice) < ch.amount * 1000 + 1000
  }

  /** When the amount shown to policy is exactly what the invoice takes. */
  lemma ExactPrice(w: World, ch: Challenge)
    requires Priced(w, ch)
    ensures MilliAtoms(w, ch.invoice) == ch.amount * 1000 <==>
              match ch.rail
              case X402 => ch.amount * 1000 < 0x1_0000_0000_0000_0000
              case L402 => MilliAtoms(w, ch.invoice) % 1000 == 0
  {
    match ch.rail {
      case X402 => ThousandfoldExactly(ch.amount, MilliAtoms(w, ch.invoice));
      case L402 => Remainder(MilliAtoms(w, ch.invoice), ch.amount);
    }
  }

  lemma Remainder(m: nat, amount: nat)
    requires amount * 1000 <= m < amount * 1000 + 1000
    ensures m == amount * 1000 <==> m % 1000 == 0
  {
  }

  lemma ShownAs(w: World, invoice: Bytes, inv: Invoice)
    requires w.invoice(invoice) == Some(inv) && inv.milliAtoms == Some(1500)
    ensures MilliAtoms(w, invoice) == 1500
    ensures DecodeInvoice(w, invoice).Some? && DecodeInvoice(w, invoice).value.atoms == 1
  {
  }

  /** An invoice of one and a half atoms behind written legacy headers: policy is asked about one atom. */
  lemma HalfAtomUnseen(w: World, net: Network, m: Macaroons.Mac, invoice: Bytes, inv: Invoice)
    requires w.invoice(invoice) == Some(inv) && inv.milliAtoms == Some(1500) && m.Sized() && Headers.Quotable(invoice)
    ensures var reply := Reply(402, None, Headers.WriteChallenge(m, invoice), None);
            ChallengeIn(w, net, reply, false) == Some(Challenge.Challenge(L402, invoice, 1, Headers.MacB64(m)))
    ensures MilliAtoms(w, invoice) == 1500
  {
    ShownAs(w, invoice, inv);
    Headers.FindsWritten([], m, invoice);
    assert [] + Headers.WriteChallenge(m, invoice) == Headers.WriteChallenge(m, invoice);
  }

  /** An entry is accepted exactly when it agrees with its own invoice on network, payee, payment hash and amount. */
  lemma EntryExactly(w: World, net: Network, entry: Requirements)
    ensures ParseEntry(w, net, entry).Some? <==>
              && entry.network == net.caip2
              && var extra := LightningExtraOf(w, entry.extra);
                 && extra.Some? && w.invoice(extra.value.invoice).Some?
                 && var inv := w.invoice(extra.value.invoice).value;
                    && EqualFold(if inv.destination.None? then [] else inv.destination.value, entry.payTo)
                    && EqualFold(if inv.paymentHash.None? then [] else HexEncode(inv.paymentHash.value),
                                 extra.value.paymentHash)
                    && ParseInt64(entry.amount).Some? && ParseInt64(entry.amount).value > 0
                    && Wrap64(MilliAtoms(w, extra.value.invoice)) == Wrap64(ParseInt64(entry.amount).value * 1000)
    ensures ParseEntry(w, net, entry).Some? ==>
              var invoice, amount := LightningExtraOf(w, entry.extra).value.invoice, ParseInt64(entry.amount).value;
              ParseEntry(w, net, entry) == Some(Challenge.Challenge(X402, invoice, amount, []))
  {
  }

  lemma EntryPriced(w: World, net: Network, entry: Requirements)
    requires ParseEntry(w, net, entry).Some?
    ensures Priced(w, ParseEntry(w, net, entry).value)
  {
  }

  lemma Rounding(m: uint64)
    ensures var atoms := Quotient(Wrap64(m), 1000);
            atoms > 0 ==> atoms * 1000 <= m < atoms * 1000 + 1000 && atoms <= MAX_INT64
  {
  }

  lemma LegacyPriced(w: World, challenges: seq<Bytes>)
    requires LegacyChallenge(w, challenges).Some?
    ensures Priced(w, LegacyChallenge(w, challenges).value)
  {
    Rounding(MilliAtoms(w, LegacyChallenge(w, challenges).value.invoice));
  }

  lemma ChallengePriced(w: World, net: Network, reply: Reply, forceLegacy: bool)
    requires ChallengeIn(w, net, reply, forceLegacy).Some?
    ensures Priced(w, ChallengeIn(w, net, reply, forceLegacy).value)
  {
    if !forceLegacy && reply.required.Some? {
      EntryPriced(w, net, FirstLightning(w, reply.required.value.value.accepts).value);
    } else {
      LegacyPriced(w, reply.challenges);
    }
  }

  // --- the fetch ---

  datatype Options = Options(memo: Bytes, maxAmount: int, forceLegacy: bool)

  /** Calls the fetch makes to policy and to the rail, in order. */
  datatype Event = Asked(a: Policy.Attempt, answer: Option<nat>) | Pay(invoice: Bytes, ok: bool)

  /** served: the paid retry succeeded. */
  datatype Fetched =
    | Unpaid
    | Failed(error: FetchError)
    | PaidFor(rail: Rail, amount: int, attempt: nat, invoice: Bytes, served: bool)

  datatype Token = Token(authorization: Bytes, validUntil: int, paidAtoms: int)

  function AttemptFor(host: Bytes, opt: Options, amount: int): Policy.Attempt {
    Policy.Attempt(Policy.Domain, host, amount, opt.memo)
  }

  /** The server's three answers: to whatever Authorization is sent, bare again, and to the proof. None: no answer. */
  datatype Server = Server(first: Bytes -> Option<Reply>, bare: Option<Reply>, retry: Option<Reply>)

  predicate Usable(tokens: map<Bytes, Token>, host: Bytes, now: int) {
    && host in tokens && tokens[host].authorization != []
    && (tokens[host].validUntil == 0 || now / 1_000_000_000 < tokens[host].validUntil)
  }

  /** The Authorization of the first request: a usable cached credential, or none. */
  function Sent(tokens: map<Bytes, Token>, host: Bytes, now: int): Bytes {
    if Usable(tokens, host, now) then tokens[host].authorization else []
  }

  /** A cached credential was sent and refused. */
  predicate RefusedCached(tokens: map<Bytes, Token>, host: Bytes, now: int, server: Server) {
    && Usable(tokens, host, now)
    && var first := server.first(Sent(tokens, host, now));
       first.Some? && (first.value.status == 401 || first.value.status == 402)
  }

  /** The reply that decides: the first one, or the bare one when a cached credential was refused. */
  function Decisive(tokens: map<Bytes, Token>, host: Bytes, now: int, server: Server): Option<Reply> {
    if RefusedCached(tokens, host, now, server) then server.bare else server.first(Sent(tokens, host, now))
  }

  /** A refused credential is dropped, whatever happens next. */
  function Kept(tokens: map<Bytes, Token>, host: Bytes, now: int, server: Server): map<Bytes, Token> {
    if RefusedCached(tokens, host, now, server) then tokens - {host} else tokens
  }

  /** A credential is dropped exactly when it was fit to send and answered with 401 or 402. */
  lemma KeptExactly(tokens: map<Bytes, Token>, host: Bytes, now: int, server: Server)
    ensures Kept(tokens, host, now, server) ==
              if host in tokens && tokens[host].authorization != []
                 && (tokens[host].validUntil == 0 || now / 1_000_000_000 < tokens[host].validUntil)
                 && server.first(tokens[host].authorization).Some?
                 && server.first(tokens[host].authorization).value.status in {401, 402}
              then tokens - {host} else tokens
  {
  }

  /** The challenge a fetch would pay: parsed from a decisive 402 and within the caller's own guard. */
  function Quoted(w: World, net: Network, tokens: map<Bytes, Token>, host: Option<Bytes>, opt: Options, now: int,
                  server: Server): Option<Challenge>
  {
    if host.None? then None
    else
      match Decisive(tokens, host.value, now, server)
      case None => None
      case Some(reply) =>
        if reply.status != 402 then None
        else
          match ChallengeIn(w, net, reply, opt.forceLegacy)
          case None => None
          case Some(ch) => if opt.maxAmount > 0 && ch.amount > opt.maxAmount then None else Some(ch)
  }

  lemma QuotedExactly(w: World, net: Network, tokens: map<Bytes, Token>, host: Bytes, opt: Options, now: int,
                      server: Server, ch: Challenge)
    ensures Quoted(w, net, tokens, Some(host), opt, now, server) == Some(ch) <==>
              && Decisive(tokens, host, now, server).Some?
              && Decisive(tokens, host, now, server).value.status == 402
              && ChallengeIn(w, net, Decisive(tokens, host, now, server).value, opt.forceLegacy) == Some(ch)
              && !(0 < opt.maxAmount < ch.amount)
  {
  }

  predicate Served(retry: Option<Reply>) { retry.Some? && retry.value.status < 300 }

  /** The credential cache after a paid retry: a served request leaves its credential under the host. */
  function Cached(tokens: map<Bytes, Token>, host: Bytes, ch: Challenge, preimage: Bytes, retry: Option<Reply>)
    : map<Bytes, Token>
  {
    if !Served(retry) then tokens
    else
      match ch.rail
      case L402 => tokens[host := Token(Headers.Authorization(ch.macB64, preimage), 0, ch.amount)]
      case X402 =>
        var d := retry.value.delivered;
        if d.None? || d.value.authorization == [] then tokens
        else tokens[host := Token(d.value.authorization, d.value.validUntil, ch.amount)]
  }

  /** Only a served retry changes the cache, only for its host, and then the host holds what was delivered. */
  lemma CachedExactly(tokens: map<Bytes, Token>, host: Bytes, ch: Challenge, preimage: Bytes, retry: Option<Reply>)
    ensures var after := Cached(tokens, host, ch, preimage, retry);
            && after - {host} == tokens - {host}
            && (!(retry.Some? && retry.value.status < 300) ==> after == tokens)
            && (retry.Some? && retry.value.status < 300 && ch.rail.L402? ==>
                 after == tokens[host := Token("L402 " + ch.macB64 + ":" + preimage, 0, ch.amount)])
            && (retry.Some? && retry.value.status < 300 && ch.rail.X402? ==>
                 match retry.value.delivered
                 case Some(d) =>
                   after == if d.authorization == [] then tokens
                            else tokens[host := Token(d.authorization, d.validUntil, ch.amount)]
                 case None => after == tokens)
  {
    Headers.AuthorizationText(ch.macB64, preimage);
  }

  class Client {
    var tokens: map<Bytes, Token>

    constructor ()
      ensures tokens == map[]
    {
      tokens := map[];
    }

    /** The free part: use a cached credential, drop it when it is refused, stop at the first reply that is no 402. */
    method Probe(host: Bytes, now: int, server: Server) returns (r: Result<Reply, Fetched>)
      modifies this
      ensures var d := Decisive(old(tokens), host, now, server);
              && (d.Some? && d.value.status == 402 ==> r == Ok(d.value))
              && (!(d.Some? && d.value.status == 402) ==> r.Err? && !r.error.PaidFor?)
              && (r == Err(Unpaid) <==> d.Some? && d.value.status < 300)
      ensures tokens == Kept(old(tokens), host, now, server)
    {
      var auth: Bytes := [];
      if Usable(tokens, host, now) {
        auth := tokens[host].authorization;
      }
      var reply := server.first(auth);
      if reply.None? {
        return Err(Failed(Transport));
      }
      if reply.value.status < 300 {
        return Err(Unpaid);
      }
      if auth != [] && (reply.value.status == 401 || reply.value.status == 402) {
        tokens := tokens - {host};
        reply := server.bare;
        if reply.None? {
          return Err(Failed(Transport));
        }
        if reply.value.status < 300 {
          return Err(Unpaid);
        }
      }
      if reply.value.status != 402 {
        return Err(Failed(BadStatus(reply.value.status)));
      }
      r := Ok(reply.value);
    }

    /** After the payment: present the proof and cache the credential of a served request. */
    method Redeem(host: Bytes, ch: Challenge, preimage: Bytes, retry: Option<Reply>) returns (served: bool)
      modifies this
      ensures served <==> retry.Some? && retry.value.status < 300
      ensures tokens == Cached(old(tokens), host, ch, preimage, retry)
    {
      if retry.None? || retry.value.status >= 300 {
        return false;
      }
      match ch.rail {
        case X402 =>
          match retry.value.delivered {
            case None =>
            case Some(d) =>
              if d.authorization != [] {
                tokens := tokens[host := Token(d.authorization, d.validUntil, ch.amount)];
              }
          }
        case L402 =>
          tokens := tokens[host := Token(Headers.Authorization(ch.macB64, preimage), 0, ch.amount)];
      }
      return true;
    }

    /** Up to the policy gate: everything that costs nothing. */
    method Quote(w: World, net: Network, host: Option<Bytes>, opt: Options, now: int, server: Server)
      returns (r: Result<Challenge, Fetched>)
      modifies this
      ensures match Quoted(w, net, old(tokens), host, opt, now, server)
              case None => r.Err? && !r.error.PaidFor?
              case Some(ch) => r == Ok(ch) && Priced(w, ch) && (opt.maxAmount > 0 ==> ch.amount <= opt.maxAmount)
      ensures host.None? ==> tokens == old(tokens) && r == Err(Failed(BadUrl))
      ensures host.Some? ==>
        && tokens == Kept(old(tokens), host.value, now, server)
        && var d := Decisive(old(tokens), host.value, now, server);
           d.Some? && d.value.status < 300 ==> r == Err(Unpaid)
    {
      if host.None? {
        return Err(Failed(BadUrl));
      }
      var probed := Probe(host.value, now, server);
      if probed.Err? {
        return Err(probed.error);
      }
      var parsed := ParseChallenge(w, net, probed.value, opt.forceLegacy);
      if parsed.None? {
        return Err(Failed(BadChallenge));
      }
      ChallengePriced(w, net, probed.value, opt.forceLegacy);
      if opt.maxAmount > 0 && parsed.value.amount > opt.maxAmount {
        return Err(Failed(AboveGuard));
      }
      r := Ok(parsed.value);
    }

    /** After the policy gate: the result reports the payment even when the paid request then fails. */
    method Settle(host: Bytes, ch: Challenge, attempt: nat, preimage: Option<Bytes>, retry: Option<Reply>)
      returns (r: Fetched)
      modifies this
      ensures r == if preimage.None? then Failed(PayFailed)
                   else PaidFor(ch.rail, ch.amount, attempt, ch.invoice, Served(retry))
      ensures tokens == if preimage.None? then old(tokens) else Cached(old(tokens), host, ch, preimage.value, retry)
    {
      if preimage.None? {
        return Failed(PayFailed);
      }
      var served := Redeem(host, ch, preimage.value, retry);
      r := PaidFor(ch.rail, ch.amount, attempt, ch.invoice, served);
    }

    /**
     * Whatever the server answers, Pay is called at most once, only after policy admitted this host and amount, for an
     * invoice that takes that amount, and the result reports the payment even when the paid request then fails.
     */
    method FetchPaid(w: World, net: Network, host: Option<Bytes>, opt: Options, now: int, server: Server,
                     gate: Policy.Attempt -> Option<nat>, pay: Bytes -> Option<Bytes>)
      returns (r: Fetched, trace: seq<Event>)
      modifies this
      ensures |trace| <= 2
      ensures |trace| >= 1 ==>
        && host.Some? && trace[0].Asked? && trace[0].a == AttemptFor(host.value, opt, trace[0].a.amount)
        && trace[0].answer == gate(trace[0].a)
        && (opt.maxAmount > 0 ==> trace[0].a.amount <= opt.maxAmount)
      ensures |trace| == 2 ==>
        && trace[0].answer.Some? && trace[1].Pay? && (trace[1].ok <==> pay(trace[1].invoice).Some?)
        && exists ch :: Priced(w, ch) && ch.invoice == trace[1].invoice && ch.amount == trace[0].a.amount
      ensures |trace| == 2 <==>
        && Quoted(w, net, old(tokens), host, opt, now, server).Some?
        && gate(AttemptFor(host.value, opt, Quoted(w, net, old(tokens), host, opt, now, server).value.amount)).Some?
      ensures r.PaidFor? <==> |trace| == 2 && trace[1].ok
      ensures r.PaidFor? ==>
        r.amount == trace[0].a.amount && Some(r.attempt) == trace[0].answer && r.invoice == trace[1].invoice
      ensures r.PaidFor? ==> r.rail == Quoted(w, net, old(tokens), host, opt, now, server).value.rail
      ensures r.PaidFor? ==> (r.served <==> Served(server.retry))
      ensures host.None? ==> tokens == old(tokens)
      ensures host.Some? ==>
        var kept := Kept(old(tokens), host.value, now, server);
        tokens == if !r.PaidFor? then kept
                  else Cached(kept, host.value, Quoted(w, net, old(tokens), host, opt, now, server).value,
                              pay(r.invoice).value, server.retry)
      ensures host.Some? ==>
        var d := Decisive(old(tokens), host.value, now, server);
        d.Some? && d.value.status < 300 ==> r == Unpaid && trace == []
    {
      trace := [];
      var quote := Quote(w, net, host, opt, now, server);
      if quote.Err? {
        return quote.error, trace;
      }
      var ch := quote.value;
      var a := AttemptFor(host.value, opt, ch.amount);
      var admitted := gate(a);
      trace := [Asked(a, admitted)];
      if admitted.None? {
        return Failed(GateRefused), trace;
      }
      var paid := pay(ch.invoice);
      trace := [Asked(a, admitted), Pay(ch.invoice, paid.Some?)];
      r := Settle(host.value, ch, admitted.value, paid, server.retry);
    }
  }

  /** The credential that a served purchase leaves with the client. */
  predicate Holds(tokens: map<Bytes, Token>, host: Bytes, authorization: Bytes, until: int) {
    host in tokens && tokens[host].authorization == authorization != [] && tokens[host].validUntil == until
  }

  lemma PurchaseHolds(tokens: map<Bytes, Token>, host: Bytes, ch: Challenge, preimage: Bytes, retry: Option<Reply>)
    requires retry.Some? && retry.value.status < 300
    ensures ch.rail.L402? ==>
              Holds(Cached(tokens, host, ch, preimage, retry), host, "L402 " + ch.macB64 + ":" + preimage, 0)
    ensures ch.rail.X402? && retry.value.delivered.Some? && retry.value.delivered.value.authorization != [] ==>
              Holds(Cached(tokens, host, ch, preimage, retry), host, retry.value.delivered.value.authorization,
                    retry.value.delivered.value.validUntil)
  {
    CachedExactly(tokens, host, ch, preimage, retry);
  }

  /** A held credential that has not expired is what the next request carries; served for it, that reply decides. */
  lemma HeldIsSent(tokens: map<Bytes, Token>, host: Bytes, authorization: Bytes, until: int, later: int, again: Server)
    requires Holds(tokens, host, authorization, until) && (until == 0 || later < until * 1_000_000_000)
    requires again.first(authorization).Some? && again.first(authorization).value.status < 300
    ensures Sent(tokens, host, later) == authorization
    ensures Decisive(tokens, host, later, again) == again.first(authorization)
  {
  }

  /** A fetch by a client that holds a credential which the server still honours costs and asks nothing. */
  method FetchHeld(client: Client, w: World, net: Network, host: Bytes, opt: Options, later: int, again: Server,
                   gate: Policy.Attempt -> Option<nat>, pay: Bytes -> Option<Bytes>, authorization: Bytes, until: int)
    returns (r: Fetched, trace: seq<Event>)
    requires Holds(client.tokens, host, authorization, until) && (until == 0 || later < until * 1_000_000_000)
    requires again.first(authorization).Some? && again.first(authorization).value.status < 300
    modifies client
    ensures r == Unpaid && trace == []
  {
    HeldIsSent(client.tokens, host, authorization, until, later, again);
    r, trace := client.FetchPaid(w, net, Some(host), opt, later, again, gate, pay);
  }

  /** A fetch leaves the credential of a served purchase with the client. */
  method FetchHolds(client: Client, w: World, net: Network, host: Bytes, opt: Options, now: int, server: Server,
                    gate: Policy.Attempt -> Option<nat>, pay: Bytes -> Option<Bytes>)
    returns (r: Fetched, held: Option<Token>)
    modifies client
    ensures held.Some? ==> Holds(client.tokens, host, held.value.authorization, held.value.validUntil)
    ensures r.PaidFor? && r.served && r.rail.L402? ==> held.Some? && held.value.validUntil == 0
    ensures r.PaidFor? && r.served && r.rail.X402? && server.retry.Some? && server.retry.value.delivered.Some?
            && server.retry.value.delivered.value.authorization != [] ==>
              && held.Some? && held.value.authorization == server.retry.value.delivered.value.authorization
              && held.value.validUntil == server.retry.value.delivered.value.validUntil
  {
    ghost var before := client.tokens;
    var trace;
    r, trace := client.FetchPaid(w, net, Some(host), opt, now, server, gate, pay);
    held := None;
    if r.PaidFor? && r.served {
      ghost var ch := Quoted(w, net, before, Some(host), opt, now, server).value;
      PurchaseHolds(Kept(before, host, now, server), host, ch, pay(r.invoice).value, server.retry);
      if host in client.tokens && client.tokens[host].authorization != [] {
        held := Some(client.tokens[host]);
      }
    }
  }

  /**
   * Bought once, read again: after a served purchase a second fetch of the host, before the credential's reported
   * expiry and served for it, pays nothing and asks nothing.
   */
  method FetchTwice(client: Client, w: World, net: Network, host: Bytes, opt: Options, now: int, server: Server,
                    gate: Policy.Attempt -> Option<nat>, pay: Bytes -> Option<Bytes>, d: Credentials.Delivered,
                    later: int, again: Server)
    returns (first: Fetched, second: Fetched, trace: seq<Event>)
    requires server.retry.Some? && server.retry.value.delivered == Some(d) && d.authorization != []
    requires d.validUntil == 0 || later < d.validUntil * 1_000_000_000
    requires forall auth :: auth != [] ==> again.first(auth).Some? && again.first(auth).value.status < 300
    modifies client
    ensures first.PaidFor? && first.served ==> second == Unpaid && trace == []
  {
    var held;
    first, held := FetchHolds(client, w, net, host, opt, now, server, gate, pay);
    if held.Some? && first.PaidFor? && first.served {
      second, trace := FetchHeld(client, w, net, host, opt, later, again, gate, pay, held.value.authorization,
                                 held.value.validUntil);
    } else {
      second, trace := client.FetchPaid(w, net, Some(host), opt, later, again, gate, pay);
    }
  }
}
