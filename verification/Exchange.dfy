/** A buyer's client and a seller's gate put together (agent/payclient/payclient.go against lib/gate.go). */
module Exchange {
  import opened Base
  import opened Text
  import opened Numbers
  import opened Encodings
  import opened JsonValue
  import opened Headers
  import opened Credentials
  import opened Seller
  import opened SellerRules
  import opened GateServer
  import Caveats
  import Ledger
  import PayClient
  import Settlement

  // --- what the gate offers is what the client reads ---

  /** A 402 as the gate writes it: the entry in the payment header, and the legacy challenge beside it. */
  function Offered(entry: Requirements, m: Macaroons.Mac, invoice: Bytes): PayClient.Reply {
    PayClient.Reply(402, Some(Some(PayClient.PaymentRequired(2, [entry]))), WriteChallenge(m, invoice), None)
  }

  /** The invoice of an offer takes the offered amount for its payment hash, and the offer renders. */
  predicate Payable(w: World, g: Gate, hash: Hash32, li: LightningIssue) {
    && 0 < li.issue.amount <= MAX_INT64 && li.invoice != []
    && InvoicePays(w, g, li.invoice, hash, li.issue.amount)
    && Renders(w, LightningJson(li.invoice, hash))
  }

  lemma SameFold(a: Bytes)
    ensures EqualFold(a, a)
  {
  }

  lemma InvoiceRead(w: World, g: Gate, hash: Hash32, li: LightningIssue)
    requires Payable(w, g, hash, li)
    ensures var inv := PayClient.DecodeInvoice(w, li.invoice);
            && inv.Some? && inv.value.paymentHash == HexEncode(hash)
            && EqualFold(inv.value.destination, g.payTo) && inv.value.mAtoms == Wrap64(li.issue.amount * 1000)
  {
  }

  lemma EntryRead(w: World, g: Gate, hash: Hash32, li: LightningIssue)
    requires Payable(w, g, hash, li)
    ensures var entry := LightningOffer(w, g, hash, li);
            && TransferMethod(w, entry.extra) == LIGHTNING
            && LightningExtraOf(w, entry.extra) == Some(LightningExtra(li.invoice, HexEncode(hash)))
  {
    OfferEchoes(w, g, li.issue.amount, g.payTo, LightningJson(li.invoice, hash));
    LightningMethod(w, li.invoice, hash, LightningOffer(w, g, hash, li).extra);
  }

  lemma EntryParses(w: World, g: Gate, hash: Hash32, li: LightningIssue)
    requires Payable(w, g, hash, li)
    ensures PayClient.ParseEntry(w, g.network, LightningOffer(w, g, hash, li))
         == Some(PayClient.Challenge.Challenge(PayClient.X402, li.invoice, li.issue.amount, []))
  {
    EntryRead(w, g, hash, li);
    InvoiceRead(w, g, hash, li);
    SameFold(HexEncode(hash));
    ParseFormat(li.issue.amount);
  }

  /** Over x402 the client reads the issued invoice and the issued amount. */
  lemma OfferIsQuoted(w: World, g: Gate, hash: Hash32, li: LightningIssue, m: Macaroons.Mac)
    requires Payable(w, g, hash, li)
    ensures PayClient.ChallengeIn(w, g.network, Offered(LightningOffer(w, g, hash, li), m, li.invoice), false)
         == Some(PayClient.Challenge.Challenge(PayClient.X402, li.invoice, li.issue.amount, []))
  {
    EntryParses(w, g, hash, li);
    EntryRead(w, g, hash, li);
  }

  /** Over legacy L402 it reads the same invoice, and the same amount while the thousandfold fits 63 bits. */
  lemma OfferIsQuotedLegacy(w: World, g: Gate, hash: Hash32, li: LightningIssue, m: Macaroons.Mac)
    requires Payable(w, g, hash, li) && m.Sized() && Quotable(li.invoice) && li.issue.amount * 1000 <= MAX_INT64
    ensures PayClient.ChallengeIn(w, g.network, Offered(LightningOffer(w, g, hash, li), m, li.invoice), true)
         == Some(PayClient.Challenge.Challenge(PayClient.L402, li.invoice, li.issue.amount, MacB64(m)))
  {
    InvoiceRead(w, g, hash, li);
    WholeAtoms(li.issue.amount);
    FindsWritten([], m, li.invoice);
    assert [] + WriteChallenge(m, li.invoice) == WriteChallenge(m, li.invoice);
  }

  lemma WholeAtoms(amount: nat)
    requires amount * 1000 <= MAX_INT64
    ensures PayClient.Quotient(Wrap64(amount * 1000), 1000) == amount
  {
  }

  // --- the client's retry settles ---

  function ProofJson(preimageHex: Bytes, hash: Hash32): Json {
    Object(map[PREIMAGE_FIELD := Text(preimageHex), HASH_FIELD := Text(HexEncode(hash))])
  }

  /** The payload of the paid retry: the entry echoed, with the preimage and the payment hash. */
  function Retry(w: World, entry: Requirements, preimageHex: Bytes, hash: Hash32): Payload {
    Payload(2, entry, w.render(ProofJson(preimageHex, hash)))
  }

  lemma RetryDecodes(w: World, preimageHex: Bytes, hash: Hash32)
    requires Renders(w, ProofJson(preimageHex, hash))
    ensures LightningPayloadOf(w, w.render(ProofJson(preimageHex, hash)))
         == Some(LightningPayload(preimageHex, HexEncode(hash)))
  {
    assert |PREIMAGE_FIELD| == 8 && |HASH_FIELD| == 11;
  }

  lemma RetryIsHonest(w: World, g: Gate, hash: Hash32, li: LightningIssue, preimageHex: Bytes)
    requires Payable(w, g, hash, li) && PreimageOf(w.crypto, preimageHex, hash)
    requires Renders(w, ProofJson(preimageHex, hash))
    ensures HonestLightning(w, g, hash, li, preimageHex, Retry(w, LightningOffer(w, g, hash, li), preimageHex, hash))
  {
    RetryDecodes(w, preimageHex, hash);
  }

  /** In every state a gate can reach, the retry of a live offer that was paid verifies. */
  lemma RetryVerifies(w: World, g: Gate, st: Settlement.State, env: Env, hash: Hash32, li: LightningIssue,
                      preimageHex: Bytes)
    requires Settlement.Inv(w, g, st) && hash in st.iss.lightning && st.iss.lightning[hash] == li
    requires Payable(w, g, hash, li) && PreimageOf(w.crypto, preimageHex, hash)
    requires Renders(w, ProofJson(preimageHex, hash))
    requires env.now <= li.issue.now + g.challengeTTL && env.settled(hash) == Some(true)
    ensures Prepare(w, g, st.rec, env, Retry(w, LightningOffer(w, g, hash, li), preimageHex, hash), li.issue.amount)
         == Ok(LightningOutcome(w, g, env, hash, li, preimageHex))
  {
    RetryIsHonest(w, g, hash, li, preimageHex);
    HonestPayerSettles(w, g, st.rec, st.iss, env, hash, preimageHex,
                       Retry(w, LightningOffer(w, g, hash, li), preimageHex, hash), li.issue.amount);
  }

  // --- what the client caches opens the gate ---

  function DeliveredWith(w: World, g: Gate, hash: Hash32, i: Issue, preimageHex: Bytes): Option<Delivered> {
    DeliveredFor(MacB64(MacOf(w, g, hash, i)), preimageHex, g.service.name)
  }

  /** The delivered credential is accepted exactly before its reported expiry. */
  lemma DeliveredAccepted(w: World, g: Gate, rec: Records, hash: Hash32, i: Issue, preimageHex: Bytes, t: int)
    requires Grammatical(g.service.name) && Issuable(w, g, hash, i) && PreimageOf(w.crypto, preimageHex, hash)
    requires RootKeyMinted(w, hash, i, rec.rootKeys)
    ensures var d := DeliveredWith(w, g, hash, i, preimageHex);
            && d.Some? && d.value.validUntil == ValidUntilOf(g.service, i.now) && d.value.authorization != []
            && (Presents(w, g, rec, t, d.value.authorization) <==> t < Caveats.Seconds(d.value.validUntil))
  {
    DeliveryParses(w.crypto, i.rootKey, g.service, IdOf(hash, i), i.now, preimageHex);
    var d := DeliveredWith(w, g, hash, i, preimageHex).value;
    MintedAuthorizes(w.crypto, rec.rootKeys, g.service, IdOf(hash, i), i.now, preimageHex, t);
    CredentialAccepted(w, g, rec, t, d.authorization, MacOf(w, g, hash, i), preimageHex);
    NonEmpty(d.authorization);
  }

  lemma CredentialAccepted(w: World, g: Gate, rec: Records, t: int, text: Bytes, m: Macaroons.Mac, preimageHex: Bytes)
    requires Authorized(text) == Credential([m], preimageHex)
    ensures Presents(w, g, rec, t, text)
       <==> AuthorizeToken(w.crypto, rec.rootKeys, g.service, t, [m], preimageHex).Ok?
  {
    PresentsExactly(w, g, rec, t, text);
  }

  lemma NonEmpty(text: Bytes)
    requires Authorized(text).Credential?
    ensures text != []
  {
  }

  /** The client presents its cached credential exactly while the gate accepts it; a zero expiry reads as none. */
  lemma UsableWhileAccepted(tokens: map<Bytes, PayClient.Token>, host: Bytes, t: int, until: int)
    requires host in tokens && tokens[host].authorization != [] && tokens[host].validUntil == until
    ensures PayClient.Usable(tokens, host, t) <==> until == 0 || t < Caveats.Seconds(until)
  {
  }

  // --- one purchase, from the bare request to the credential ---

  /** What both sides meet: the node's invoice, the clocks and backends at both requests, and the rail's preimage. */
  datatype Deal = Deal(f: Fresh, price: int, asked: Env, paid: Env, preimageHex: Bytes)

  function IssueOf(d: Deal): LightningIssue { LightningIssue(d.f.invoice, Priced(d.f, d.price)) }

  ghost predicate Fair(w: World, g: Gate, st: Settlement.State, d: Deal) {
    && Settlement.Canonical(d.asked) && Settlement.Canonical(d.paid)
    && Settlement.Enabled(w, g, st, IssueStep(d.f, d.price)) && d.f.hash !in st.rec.settlements
    && Payable(w, g, d.f.hash, IssueOf(d))
    && PreimageOf(w.crypto, d.preimageHex, d.f.hash) && Renders(w, ProofJson(d.preimageHex, d.f.hash))
    && d.paid.now <= d.f.issue.now + g.challengeTTL && d.paid.settled(d.f.hash) == Some(true)
  }

  lemma NoHeader(w: World, g: Gate, rec: Records, now: int)
    ensures Authorized([]).NotL402? && !Presents(w, g, rec, now, [])
  {
  }

  /** A bare request is refused. */
  lemma BareIsRefused(w: World, g: Gate, rec: Records, env: Env, price: int)
    ensures VerdictOn(w, g, rec, env, [], None, price) == Refusing(PaymentRequired)
  {
    NoHeader(w, g, rec, env.now);
  }

  lemma ProofCounts(w: World, g: Gate, rec: Records, env: Env, pp: Payload, price: int, o: Outcome)
    requires Prepare(w, g, rec, env, pp, price) == Ok(o)
    ensures VerdictOn(w, g, rec, env, [], Some(Some(pp)), price) == Proven(pp, o)
  {
    NoHeader(w, g, rec, env.now);
    PreparedProof(w, g, rec, env, pp, price);
  }

  /** After the refusal the offer is on record and its root key is stored. */
  lemma OfferIsIssued(w: World, g: Gate, st: Settlement.State, d: Deal)
    ensures var st' := Settlement.Apply(w, g, Ledger.ByText, st, IssueStep(d.f, d.price));
            && d.f.hash in st'.iss.lightning && st'.iss.lightning[d.f.hash] == IssueOf(d)
            && st'.rec.settlements == st.rec.settlements
            && RootKeyMinted(w, d.f.hash, Priced(d.f, d.price), st'.rec.rootKeys)
  {
  }

  lemma ProofIsRecorded(w: World, g: Gate, st: Settlement.State, env: Env, pp: Payload, price: int, o: Outcome)
    requires Prepare(w, g, st.rec, env, pp, price) == Ok(o)
    ensures AfterProof(w, g, st, env, pp, price, o).rec == Seller.Recorded(st.rec, o.key, o.response)
  {
  }

  /** The settlement that a paid retry of the deal makes. */
  function Settled(w: World, g: Gate, d: Deal): Outcome {
    LightningOutcome(w, g, d.paid, d.f.hash, IssueOf(d), d.preimageHex)
  }

  function Proof(w: World, g: Gate, d: Deal): Payload {
    Retry(w, OfferOf(w, g, d.f, d.price).0, d.preimageHex, d.f.hash)
  }

  lemma OfferIs(w: World, g: Gate, d: Deal)
    ensures OfferOf(w, g, d.f, d.price).0 == LightningOffer(w, g, d.f.hash, IssueOf(d))
  {
  }

  /** The gate accepts this credential exactly before the time, in seconds. */
  ghost predicate AcceptedUntil(w: World, g: Gate, rec: Records, authorization: Bytes, until: int) {
    forall t :: Presents(w, g, rec, t, authorization) <==> t < Caveats.Seconds(until)
  }

  /** The credential of the deal's settlement is there, reports its expiry, and opens the gate until then. */
  ghost predicate Opened(w: World, g: Gate, rec: Records, d: Deal) {
    var c := Settled(w, g, d).response.delivered;
    && c.Some? && c.value.validUntil == ValidUntilOf(g.service, d.f.issue.now) && c.value.authorization != []
    && AcceptedUntil(w, g, rec, c.value.authorization, c.value.validUntil)
  }

  lemma SettledOpens(w: World, g: Gate, st: Settlement.State, rec: Records, d: Deal)
    requires Fair(w, g, st, d) && Grammatical(g.service.name)
    requires RootKeyMinted(w, d.f.hash, Priced(d.f, d.price), rec.rootKeys)
    ensures Opened(w, g, rec, d)
  {
    var i := Priced(d.f, d.price);
    var c := DeliveredWith(w, g, d.f.hash, i, d.preimageHex);
    DeliveredAccepted(w, g, rec, d.f.hash, i, d.preimageHex, 0);
    forall t ensures Presents(w, g, rec, t, c.value.authorization) <==> t < Caveats.Seconds(c.value.validUntil) {
      DeliveredAccepted(w, g, rec, d.f.hash, i, d.preimageHex, t);
    }
  }

  /** The offer of the deal is on record, unsettled, with its root key. */
  ghost predicate Outstanding(w: World, g: Gate, st: Settlement.State, d: Deal) {
    && d.f.hash in st.iss.lightning && st.iss.lightning[d.f.hash] == IssueOf(d)
    && d.f.hash !in st.rec.settlements && RootKeyMinted(w, d.f.hash, Priced(d.f, d.price), st.rec.rootKeys)
  }

  lemma AskDone(w: World, g: Gate, st: Settlement.State, d: Deal, v: Verdict)
    requires d.price > 0 && d.f.hash !in st.rec.settlements && v == Refusing(PaymentRequired)
    ensures AnswerTo(w, g, st.rec, v, d.price, Some(d.f))
         == TurnedAway(PaymentRequired, Some(OfferOf(w, g, d.f, d.price)))
    ensures Outstanding(w, g, StateAfter(w, g, st, d.asked, v, d.price, Some(d.f)), d)
  {
    OfferIsIssued(w, g, st, d);
  }

  /** The gate's side of a bare request: refused with the offer. */
  method Ask(server: Server, d: Deal) returns (r: Served)
    requires server.Valid() && Fair(server.w, server.g, server.st, d)
    modifies server, server.store
    ensures server.Valid() && Outstanding(server.w, server.g, server.st, d)
    ensures r == TurnedAway(PaymentRequired, Some(OfferOf(server.w, server.g, d.f, d.price)))
  {
    BareIsRefused(server.w, server.g, server.st.rec, d.asked, d.price);
    AskDone(server.w, server.g, server.st, d, Refusing(PaymentRequired));
    r := server.Handle(d.asked, [], None, d.price, Some(d.f));
  }

  lemma RetryCounts(w: World, g: Gate, st: Settlement.State, d: Deal)
    requires Settlement.Inv(w, g, st) && Outstanding(w, g, st, d) && Payable(w, g, d.f.hash, IssueOf(d))
    requires PreimageOf(w.crypto, d.preimageHex, d.f.hash) && Renders(w, ProofJson(d.preimageHex, d.f.hash))
    requires d.paid.now <= d.f.issue.now + g.challengeTTL && d.paid.settled(d.f.hash) == Some(true)
    ensures VerdictOn(w, g, st.rec, d.paid, [], Some(Some(Proof(w, g, d))), d.price)
         == Proven(Proof(w, g, d), Settled(w, g, d))
    ensures Prepare(w, g, st.rec, d.paid, Proof(w, g, d), d.price) == Ok(Settled(w, g, d))
  {
    OfferIs(w, g, d);
    RetryVerifies(w, g, st, d.paid, d.f.hash, IssueOf(d), d.preimageHex);
    ProofCounts(w, g, st.rec, d.paid, Proof(w, g, d), d.price, Settled(w, g, d));
  }

  lemma RetryRecorded(w: World, g: Gate, st: Settlement.State, d: Deal)
    requires Outstanding(w, g, st, d) && Prepare(w, g, st.rec, d.paid, Proof(w, g, d), d.price) == Ok(Settled(w, g, d))
    ensures Recorded(w, g, AfterProof(w, g, st, d.paid, Proof(w, g, d), d.price, Settled(w, g, d)).rec, d)
  {
    ProofIsRecorded(w, g, st, d.paid, Proof(w, g, d), d.price, Settled(w, g, d));
  }

  /** The deal is settled with its response, and its root key is still stored. */
  ghost predicate Recorded(w: World, g: Gate, rec: Records, d: Deal) {
    && d.f.hash in rec.settlements && rec.settlements[d.f.hash] == Settled(w, g, d).response
    && RootKeyMinted(w, d.f.hash, Priced(d.f, d.price), rec.rootKeys)
  }

  lemma RetryDone(w: World, g: Gate, st: Settlement.State, d: Deal, v: Verdict)
    requires Settlement.Inv(w, g, st) && Outstanding(w, g, st, d) && Payable(w, g, d.f.hash, IssueOf(d))
    requires PreimageOf(w.crypto, d.preimageHex, d.f.hash) && Renders(w, ProofJson(d.preimageHex, d.f.hash))
    requires d.paid.now <= d.f.issue.now + g.challengeTTL && d.paid.settled(d.f.hash) == Some(true)
    requires v == VerdictOn(w, g, st.rec, d.paid, [], Some(Some(Proof(w, g, d))), d.price)
    ensures AnswerTo(w, g, st.rec, v, d.price, None) == Ran
    ensures Recorded(w, g, StateAfter(w, g, st, d.paid, v, d.price, None).rec, d)
  {
    RetryCounts(w, g, st, d);
    RetryRecorded(w, g, st, d);
  }

  /** The gate's side of the paid retry: settled and served. */
  method Redeem(server: Server, d: Deal) returns (r: Served)
    requires server.Valid() && Outstanding(server.w, server.g, server.st, d)
    requires Payable(server.w, server.g, d.f.hash, IssueOf(d)) && Settlement.Canonical(d.paid)
    requires PreimageOf(server.w.crypto, d.preimageHex, d.f.hash)
    requires Renders(server.w, ProofJson(d.preimageHex, d.f.hash))
    requires d.paid.now <= d.f.issue.now + server.g.challengeTTL && d.paid.settled(d.f.hash) == Some(true)
    modifies server, server.store
    ensures server.Valid() && r == Ran && Recorded(server.w, server.g, server.st.rec, d)
  {
    Settlement.RunKeeps(server.w, server.g, Ledger.ByText, server.steps);
    var pp := Proof(server.w, server.g, d);
    RetryDone(server.w, server.g, server.st, d,
              VerdictOn(server.w, server.g, server.st.rec, d.paid, [], Some(Some(pp)), d.price));
    r := server.Handle(d.paid, [], Some(Some(pp)), d.price, None);
  }

  /** What the gate delivered with its recorded response opens it. */
  method Deliver(server: Server, d: Deal) returns (first: Served, second: Served, delivered: Delivered)
    requires server.Valid() && Fair(server.w, server.g, server.st, d) && Grammatical(server.g.service.name)
    modifies server, server.store
    ensures server.Valid()
    ensures first == TurnedAway(PaymentRequired, Some(OfferOf(server.w, server.g, d.f, d.price))) && second == Ran
    ensures delivered.authorization != [] && delivered.validUntil == ValidUntilOf(server.g.service, d.f.issue.now)
    ensures AcceptedUntil(server.w, server.g, server.store.Rec(), delivered.authorization, delivered.validUntil)
  {
    ghost var before := server.st;
    first := Ask(server, d);
    second := Redeem(server, d);
    SettledOpens(server.w, server.g, before, server.store.Rec(), d);
    delivered := server.store.settlements[d.f.hash].delivered.value;
  }

  /** The buyer's side: the offer is read at its price, paid, and the delivered credential cached. */
  method Buy(client: PayClient.Client, w: World, g: Gate, d: Deal, host: Bytes, opt: PayClient.Options, now: int,
             delivered: Delivered)
    returns (quote: Result<PayClient.Challenge, PayClient.Fetched>)
    requires Payable(w, g, d.f.hash, IssueOf(d)) && !opt.forceLegacy && (opt.maxAmount > 0 ==> d.price <= opt.maxAmount)
    requires delivered.authorization != []
    modifies client
    ensures quote == Ok(PayClient.Challenge.Challenge(PayClient.X402, d.f.invoice, d.price, []))
    ensures host in client.tokens
    ensures client.tokens[host] == PayClient.Token(delivered.authorization, delivered.validUntil, d.price)
  {
    var offer := OfferOf(w, g, d.f, d.price);
    OfferIs(w, g, d);
    OfferIsQuoted(w, g, d.f.hash, IssueOf(d), offer.1);
    var reply := Offered(offer.0, offer.1, d.f.invoice);
    quote := client.Quote(w, g.network, Some(host), opt, now, PayClient.Server(_ => Some(reply), Some(reply), None));
    var done := PayClient.Reply(200, None, [], Some(delivered));
    var _ := client.Redeem(host, quote.value, d.preimageHex, Some(done));
  }

  /**
   * One purchase: a bare request is refused with an offer, the client reads the issued invoice and price, its paid
   * retry runs the handler, and from then on the gate accepts the cached credential exactly before its expiry.
   */
  method Purchase(server: Server, client: PayClient.Client, d: Deal, host: Bytes, opt: PayClient.Options, now: int)
    returns (first: Served, quote: Result<PayClient.Challenge, PayClient.Fetched>, second: Served)
    requires server.Valid() && Fair(server.w, server.g, server.st, d) && Grammatical(server.g.service.name)
    requires !opt.forceLegacy && (opt.maxAmount > 0 ==> d.price <= opt.maxAmount)
    modifies server, server.store, client
    ensures server.Valid()
    ensures first == TurnedAway(PaymentRequired, Some(OfferOf(server.w, server.g, d.f, d.price))) && second == Ran
    ensures quote == Ok(PayClient.Challenge.Challenge(PayClient.X402, d.f.invoice, d.price, []))
    ensures host in client.tokens && client.tokens[host].paidAtoms == d.price
    ensures client.tokens[host].validUntil == ValidUntilOf(server.g.service, d.f.issue.now)
    ensures AcceptedUntil(server.w, server.g, server.store.Rec(), client.tokens[host].authorization,
                          client.tokens[host].validUntil)
  {
    var delivered;
    first, second, delivered := Deliver(server, d);
    quote := Buy(client, server.w, server.g, d, host, opt, now, delivered);
  }
}
