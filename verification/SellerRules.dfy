/** What a successful verification guarantees about the issued challenge (lib/verify.go, verification rules 1 to 12). */
module SellerRules {
  import opened Base
  import opened Text
  import opened Numbers
  import opened Encodings
  import opened Macaroons
  import opened Headers
  import opened JsonValue
  import opened Credentials
  import opened Seller
  import opened Registry

  /** Everything fixed when a lightning entry was issued under a payment hash. */
  datatype LightningIssue = LightningIssue(invoice: Bytes, issue: Issue)

  /** Everything fixed when an on-chain entry was issued under a deposit address. */
  datatype OnchainIssue = OnchainIssue(confirmations: int, preimage: Hash32, issue: Issue)

  datatype Issued = Issued(lightning: map<Hash32, LightningIssue>, onchain: map<Bytes, OnchainIssue>,
                           minted: map<Hash32, Hash32>)

  /** The hash an on-chain credential is minted over. */
  function CredentialHash(w: World, oi: OnchainIssue): Hash32 { w.crypto.sha256(oi.preimage) }

  /** Go lengths and integers fit 64 bits. */
  predicate Issuable(w: World, g: Gate, hash: Hash32, i: Issue) {
    MacOf(w, g, hash, i).Sized() && InInt64(ValidUntilOf(g.service, i.now)) && InInt64(i.amount)
  }

  predicate RootKeyMinted(w: World, hash: Hash32, i: Issue, minted: map<Hash32, Hash32>) {
    var key := StorageKey(w.crypto, IdOf(hash, i));
    key in minted && minted[key] == i.rootKey
  }

  function LightningMaker(w: World, g: Gate): (Hash32, LightningIssue) -> Seller.Challenge {
    (h: Hash32, li: LightningIssue) => LightningRecord(w, g, h, li.invoice, li.issue)
  }

  function LightningFine(w: World, g: Gate): (Hash32, LightningIssue) -> bool {
    (h: Hash32, li: LightningIssue) => Issuable(w, g, h, li.issue)
  }

  function LightningSlot(w: World): (Hash32, LightningIssue) -> Hash32 {
    (h: Hash32, li: LightningIssue) => StorageKey(w.crypto, IdOf(h, li.issue))
  }

  function LightningSecret(): LightningIssue -> Hash32 { (li: LightningIssue) => li.issue.rootKey }

  function OnchainMaker(w: World, g: Gate): (Bytes, OnchainIssue) -> OnchainChallenge {
    (a: Bytes, oi: OnchainIssue) => OnchainRecord(w, g, a, oi.confirmations, oi.preimage, oi.issue)
  }

  function OnchainFine(w: World, g: Gate): (Bytes, OnchainIssue) -> bool {
    (a: Bytes, oi: OnchainIssue) => Issuable(w, g, CredentialHash(w, oi), oi.issue)
  }

  function OnchainSlot(w: World): (Bytes, OnchainIssue) -> Hash32 {
    (a: Bytes, oi: OnchainIssue) => StorageKey(w.crypto, IdOf(CredentialHash(w, oi), oi.issue))
  }

  function OnchainSecret(): OnchainIssue -> Hash32 { (oi: OnchainIssue) => oi.issue.rootKey }

  ghost predicate LightningKept(w: World, g: Gate, challenges: map<Hash32, Seller.Challenge>, iss: Issued) {
    && Made(challenges, iss.lightning, LightningMaker(w, g))
    && Every(iss.lightning, LightningFine(w, g))
    && Slotted(iss.lightning, LightningSlot(w), LightningSecret(), iss.minted)
  }

  ghost predicate OnchainKept(w: World, g: Gate, onchain: map<Bytes, OnchainChallenge>, iss: Issued) {
    && Made(onchain, iss.onchain, OnchainMaker(w, g))
    && Every(iss.onchain, OnchainFine(w, g))
    && Slotted(iss.onchain, OnchainSlot(w), OnchainSecret(), iss.minted)
  }

  /** The store holds exactly the issued challenges, and only root keys it minted. */
  ghost predicate RecordsKept(w: World, g: Gate, rec: Records, iss: Issued) {
    && LightningKept(w, g, rec.challenges, iss) && OnchainKept(w, g, rec.onchain, iss)
    && Within(rec.rootKeys, iss.minted)
  }

  lemma LightningAt(w: World, g: Gate, rec: Records, iss: Issued, h: Hash32)
    requires LightningKept(w, g, rec.challenges, iss)
    ensures h in rec.challenges <==> h in iss.lightning
    ensures h in iss.lightning ==>
      && rec.challenges[h] == LightningRecord(w, g, h, iss.lightning[h].invoice, iss.lightning[h].issue)
      && Issuable(w, g, h, iss.lightning[h].issue) && RootKeyMinted(w, h, iss.lightning[h].issue, iss.minted)
  {
    if h in iss.lightning {
      var li := iss.lightning[h];
      assert LightningFine(w, g)(h, li) && LightningMaker(w, g)(h, li) == rec.challenges[h];
      assert LightningSlot(w)(h, li) in iss.minted;
    }
  }

  lemma OnchainAt(w: World, g: Gate, rec: Records, iss: Issued, a: Bytes)
    requires OnchainKept(w, g, rec.onchain, iss)
    ensures a in rec.onchain <==> a in iss.onchain
    ensures a in iss.onchain ==>
      var oi := iss.onchain[a];
      && rec.onchain[a] == OnchainRecord(w, g, a, oi.confirmations, oi.preimage, oi.issue)
      && Issuable(w, g, CredentialHash(w, oi), oi.issue)
      && RootKeyMinted(w, CredentialHash(w, oi), oi.issue, iss.minted)
  {
    if a in iss.onchain {
      var oi := iss.onchain[a];
      assert OnchainFine(w, g)(a, oi) && OnchainMaker(w, g)(a, oi) == rec.onchain[a];
      assert OnchainSlot(w)(a, oi) in iss.minted;
    }
  }

  // --- issuing keeps the records ---

  /** A fresh lightning entry. */
  lemma LightningIssues(w: World, g: Gate, rec: Records, iss: Issued, hash: Hash32, li: LightningIssue,
                        ch: Seller.Challenge, key: Hash32)
    requires RecordsKept(w, g, rec, iss) && key !in iss.minted
    requires LightningFine(w, g)(hash, li) && key == LightningSlot(w)(hash, li) && ch == LightningMaker(w, g)(hash, li)
    ensures RecordsKept(w, g, rec.(challenges := rec.challenges[hash := ch],
                                   rootKeys := rec.rootKeys[key := LightningSecret()(li)]),
                        Issued(iss.lightning[hash := li], iss.onchain, iss.minted[key := LightningSecret()(li)]))
  {
    MadeAdd(rec.challenges, iss.lightning, LightningMaker(w, g), hash, li);
    EveryAdd(iss.lightning, LightningFine(w, g), hash, li);
    SlottedAdd(iss.lightning, LightningSlot(w), LightningSecret(), iss.minted, hash, li);
    SlottedGrow(iss.onchain, OnchainSlot(w), OnchainSecret(), iss.minted, key, LightningSecret()(li));
    WithinAdd(rec.rootKeys, iss.minted, key, LightningSecret()(li));
  }

  /** A fresh on-chain entry. */
  lemma OnchainIssues(w: World, g: Gate, rec: Records, iss: Issued, address: Bytes, oi: OnchainIssue,
                      oc: OnchainChallenge, key: Hash32)
    requires RecordsKept(w, g, rec, iss) && key !in iss.minted
    requires OnchainFine(w, g)(address, oi) && key == OnchainSlot(w)(address, oi)
             && oc == OnchainMaker(w, g)(address, oi)
    ensures RecordsKept(w, g, rec.(onchain := rec.onchain[address := oc],
                                   rootKeys := rec.rootKeys[key := OnchainSecret()(oi)]),
                        Issued(iss.lightning, iss.onchain[address := oi], iss.minted[key := OnchainSecret()(oi)]))
  {
    MadeAdd(rec.onchain, iss.onchain, OnchainMaker(w, g), address, oi);
    EveryAdd(iss.onchain, OnchainFine(w, g), address, oi);
    SlottedAdd(iss.onchain, OnchainSlot(w), OnchainSecret(), iss.minted, address, oi);
    SlottedGrow(iss.lightning, LightningSlot(w), LightningSecret(), iss.minted, key, OnchainSecret()(oi));
    WithinAdd(rec.rootKeys, iss.minted, key, OnchainSecret()(oi));
  }

  // --- accepted equals offered ---

  lemma LightningFields(invoice: Bytes, hash: Hash32)
    ensures TextField(LightningJson(invoice, hash), INVOICE_FIELD) == Some(invoice)
    ensures TextField(LightningJson(invoice, hash), HASH_FIELD) == Some(HexEncode(hash))
  {
    assert |METHOD| == 19 && |INVOICE_FIELD| == 7 && |HASH_FIELD| == 11;
  }

  /** An echoed entry has the offered fields, and its extra decodes to the offered JSON if that was rendered well. */
  lemma EchoedEntry(w: World, g: Gate, acc: Requirements, amount: int, payTo: Bytes, extra: Json)
    requires EqualSemantic(w.parse, acc, Entry(w, g, amount, payTo, extra))
    ensures acc.payTo == payTo && acc.amount == FormatInt(amount)
    ensures Renders(w, extra) ==> Decode(w, acc.extra) == Some(extra)
  {
    EqualSemanticExactly(w.parse, acc, Entry(w, g, amount, payTo, extra));
  }

  // --- lightning ---

  predicate InvoicePays(w: World, g: Gate, invoice: Bytes, hash: Hash32, amount: int) {
    && HasPrefix(invoice, g.network.hrp)
    && w.invoice(invoice).Some?
    && var inv := w.invoice(invoice).value;
       && inv.paymentHash == Some(hash)
       && inv.destination.Some? && EqualFold(inv.destination.value, g.payTo)
       && inv.milliAtoms.Some? && Wrap64(inv.milliAtoms.value) == Wrap64(amount * 1000)
  }

  /** Beyond that a free invoice passes the amount rule. */
  lemma ThousandfoldWraps()
    ensures CheckAmount(FormatInt(0x2000_0000_0000_0000), Some(0)).None?
  {
    ParseFormat(0x2000_0000_0000_0000);
  }

  /** The entry that was offered for a payment hash. */
  function LightningOffer(w: World, g: Gate, hash: Hash32, li: LightningIssue): Requirements {
    Entry(w, g, li.issue.amount, g.payTo, LightningJson(li.invoice, hash))
  }

  /** The entry that was offered for a deposit address; its extra carries the credential only the client was sent. */
  function OnchainOffer(w: World, g: Gate, address: Bytes, oi: OnchainIssue): Requirements {
    Entry(w, g, oi.issue.amount, address,
          OnchainJson(oi.confirmations, MacB64(MacOf(w, g, CredentialHash(w, oi), oi.issue))))
  }

  /** The preimage text a lightning payload carries. */
  function PreimageText(w: World, pp: Payload): Bytes {
    match LightningPayloadOf(w, pp.payload) case None => [] case Some(pay) => pay.preimage
  }

  function LightningOutcome(w: World, g: Gate, env: Env, hash: Hash32, li: LightningIssue, preimageHex: Bytes)
    : Outcome
  {
    Outcome(Lightning, hash, HexEncode(li.issue.tokenId), LightningRef(hash), li.issue.amount,
            ResponseTo(g, env, HexEncode(hash), li.issue.amount, MacB64(MacOf(w, g, hash, li.issue)), preimageHex))
  }

  /** The invoice in the entry that was echoed. */
  function EchoedInvoice(w: World, pp: Payload): Bytes {
    match LightningExtraOf(w, pp.accepted.extra) case None => [] case Some(extra) => extra.invoice
  }

  /** A lightning settlement: issued, live, settled at the node, preimage known, and the invoice pays the seller. */
  ghost predicate LightningFacts(w: World, g: Gate, iss: Issued, env: Env, pp: Payload, o: Outcome) {
    && o.key in iss.lightning
    && var li := iss.lightning[o.key];
       && env.now <= li.issue.now + g.challengeTTL
       && env.settled(o.key) == Some(true)
       && PreimageOf(w.crypto, PreimageText(w, pp), o.key)
       && li.issue.amount > 0 && InvoicePays(w, g, EchoedInvoice(w, pp), o.key, li.issue.amount)
       && (Renders(w, LightningJson(li.invoice, o.key)) ==> EchoedInvoice(w, pp) == li.invoice)
       && EqualSemantic(w.parse, pp.accepted, LightningOffer(w, g, o.key, li))
       && o == LightningOutcome(w, g, env, o.key, li, PreimageText(w, pp))
  }

  lemma AccountOf(w: World, g: Gate, hash: Hash32, i: Issue)
    requires Issuable(w, g, hash, i)
    ensures AccountFromMacaroon(MacB64(MacOf(w, g, hash, i))) == Some(HexEncode(i.tokenId))
  {
    DecodeMacRoundTrip(MacOf(w, g, hash, i));
    IdentifierRoundTrip(IdOf(hash, i), []);
  }

  lemma AmountChecked(amount: int, milliAtoms: Option<uint64>)
    requires InInt64(amount) && CheckAmount(FormatInt(amount), milliAtoms).None?
    ensures amount > 0 && milliAtoms.Some? && Wrap64(milliAtoms.value) == Wrap64(amount * 1000)
  {
    ParseFormat(amount);
  }

  /** The hash a lightning payload claims to pay. */
  function ClaimedHash(w: World, pp: Payload): Option<Hash32> {
    match LightningExtraOf(w, pp.accepted.extra) case None => None case Some(extra) => Hash32Of(extra.paymentHash)
  }

  lemma ProofChecked(w: World, pp: Payload, offered: Requirements, net: Network, hash: Hash32)
    requires VerifyLightningProof(w, pp, offered, net, None).Ok? && ClaimedHash(w, pp) == Some(hash)
    ensures EqualSemantic(w.parse, pp.accepted, offered) && PreimageOf(w.crypto, PreimageText(w, pp), hash)
    ensures CheckInvoice(w, net, EchoedInvoice(w, pp), pp.accepted, hash, None).None?
  {
  }

  lemma InvoiceChecked(w: World, g: Gate, invoice: Bytes, acc: Requirements, hash: Hash32, amount: int)
    requires CheckInvoice(w, g.network, invoice, acc, hash, None).None? && InInt64(amount)
    requires acc.payTo == g.payTo && acc.amount == FormatInt(amount)
    ensures amount > 0 && InvoicePays(w, g, invoice, hash, amount)
  {
    AmountChecked(amount, w.invoice(invoice).value.milliAtoms);
  }

  lemma EchoedIssue(w: World, g: Gate, pp: Payload, hash: Hash32, li: LightningIssue)
    requires EqualSemantic(w.parse, pp.accepted, LightningOffer(w, g, hash, li))
    requires Renders(w, LightningJson(li.invoice, hash))
    ensures LightningExtraOf(w, pp.accepted.extra).Some? ==> EchoedInvoice(w, pp) == li.invoice
  {
    EchoedEntry(w, g, pp.accepted, li.issue.amount, g.payTo, LightningJson(li.invoice, hash));
    LightningFields(li.invoice, hash);
  }

  /** The proof checks against an issued entry. */
  lemma ProofHolds(w: World, g: Gate, pp: Payload, hash: Hash32, li: LightningIssue)
    requires InInt64(li.issue.amount) && ClaimedHash(w, pp) == Some(hash)
    requires VerifyLightningProof(w, pp, LightningOffer(w, g, hash, li), g.network, None).Ok?
    ensures EqualSemantic(w.parse, pp.accepted, LightningOffer(w, g, hash, li))
    ensures PreimageOf(w.crypto, PreimageText(w, pp), hash)
    ensures li.issue.amount > 0 && InvoicePays(w, g, EchoedInvoice(w, pp), hash, li.issue.amount)
    ensures Renders(w, LightningJson(li.invoice, hash)) ==> EchoedInvoice(w, pp) == li.invoice
  {
    ProofChecked(w, pp, LightningOffer(w, g, hash, li), g.network, hash);
    EchoedEntry(w, g, pp.accepted, li.issue.amount, g.payTo, LightningJson(li.invoice, hash));
    InvoiceChecked(w, g, EchoedInvoice(w, pp), pp.accepted, hash, li.issue.amount);
    if Renders(w, LightningJson(li.invoice, hash)) {
      EchoedIssue(w, g, pp, hash, li);
    }
  }

  /** With a clock the invoice must also be live by its own expiry, its last instant included. */
  lemma InvoiceClock(w: World, net: Network, invoice: Bytes, acc: Requirements, claimed: Hash32, now: int)
    ensures CheckInvoice(w, net, invoice, acc, claimed, Some(now)).None? <==>
              && CheckInvoice(w, net, invoice, acc, claimed, None).None?
              && now <= w.invoice(invoice).value.timestamp + w.invoice(invoice).value.expiry
  {
  }

  /** Why a lightning presentation is refused before its proof is looked at, and when the node has not settled it. */
  lemma LightningReasons(w: World, g: Gate, rec: Records, env: Env, pp: Payload)
    ensures var hash, r := ClaimedHash(w, pp), VerifyLightning(w, g, rec, env, pp);
            && (hash.None? ==> r == Err(InvalidPayload))
            && (hash.Some? && hash.value !in rec.challenges ==> r == Err(UnknownPaymentHash))
            && (hash.Some? && hash.value in rec.challenges && rec.challenges[hash.value].expiresAt < env.now ==>
                 r == Err(if hash.value in rec.settlements then PaymentHashReused else InvoiceExpired))
            && (hash.Some? && hash.value in rec.challenges && env.now <= rec.challenges[hash.value].expiresAt ==>
                 match VerifyLightningProof(w, pp, rec.challenges[hash.value].requirements, g.network, None)
                 case Err(e) => r == Err(e)
                 case Ok(pay) =>
                   r == if env.settled(hash.value) == Some(true) then Ok((rec.challenges[hash.value], pay))
                        else Err(UnexpectedVerify))
  {
  }

  /** What verification of the lightning method looked at. */
  lemma LightningVerified(w: World, g: Gate, rec: Records, env: Env, pp: Payload)
    requires VerifyLightning(w, g, rec, env, pp).Ok?
    ensures var hash := ClaimedHash(w, pp);
            && hash.Some? && hash.value in rec.challenges
            && var ch := rec.challenges[hash.value];
               && VerifyLightning(w, g, rec, env, pp).value.0 == ch
               && VerifyLightningProof(w, pp, ch.requirements, g.network, None) ==
                     Ok(VerifyLightning(w, g, rec, env, pp).value.1)
               && env.now <= ch.expiresAt && env.settled(hash.value) == Some(true)
  {
  }

  lemma ProofPayload(w: World, pp: Payload, offered: Requirements, net: Network)
    requires VerifyLightningProof(w, pp, offered, net, None).Ok?
    ensures VerifyLightningProof(w, pp, offered, net, None).value.preimage == PreimageText(w, pp)
  {
  }

  lemma LightningPrepared(w: World, g: Gate, rec: Records, env: Env, pp: Payload, o: Outcome)
    requires PrepareLightning(w, g, rec, env, pp) == Ok(o)
    ensures VerifyLightning(w, g, rec, env, pp).Ok?
    ensures var (ch, pay) := VerifyLightning(w, g, rec, env, pp).value;
            && AccountFromMacaroon(ch.macB64).Some?
            && o == PaidOutcome(g, env, ch, pay.preimage, AccountFromMacaroon(ch.macB64).value)
  {
  }

  function PaidOutcome(g: Gate, env: Env, ch: Seller.Challenge, preimageHex: Bytes, account: Bytes): Outcome {
    Outcome(Lightning, ch.paymentHash, account, LightningRef(ch.paymentHash), ch.amount,
            ResponseTo(g, env, HexEncode(ch.paymentHash), ch.amount, ch.macB64, preimageHex))
  }

  lemma LightningRecordOutcome(w: World, g: Gate, env: Env, hash: Hash32, li: LightningIssue, preimageHex: Bytes)
    requires Issuable(w, g, hash, li.issue)
    ensures var ch := LightningRecord(w, g, hash, li.invoice, li.issue);
            && AccountFromMacaroon(ch.macB64) == Some(HexEncode(li.issue.tokenId))
            && PaidOutcome(g, env, ch, preimageHex, HexEncode(li.issue.tokenId)) ==
                  LightningOutcome(w, g, env, hash, li, preimageHex)
  {
    AccountOf(w, g, hash, li.issue);
  }

  lemma LightningSound(w: World, g: Gate, rec: Records, iss: Issued, env: Env, pp: Payload, o: Outcome)
    requires LightningKept(w, g, rec.challenges, iss) && PrepareLightning(w, g, rec, env, pp) == Ok(o)
    ensures LightningFacts(w, g, iss, env, pp, o)
  {
    LightningPrepared(w, g, rec, env, pp, o);
    LightningVerified(w, g, rec, env, pp);
    var hash := ClaimedHash(w, pp).value;
    LightningAt(w, g, rec, iss, hash);
    var li := iss.lightning[hash];
    ProofHolds(w, g, pp, hash, li);
    ProofPayload(w, pp, rec.challenges[hash].requirements, g.network);
    LightningRecordOutcome(w, g, env, hash, li, PreimageText(w, pp));
  }

  // --- on chain ---

  function OnchainOutcome(w: World, g: Gate, env: Env, address: Bytes, oi: OnchainIssue, txid: Bytes): Outcome {
    Outcome(Onchain, OnchainKey(w, txid, address), HexEncode(oi.issue.tokenId), OnchainRef(txid, address),
            oi.issue.amount,
            ResponseTo(g, env, txid, oi.issue.amount, MacB64(MacOf(w, g, CredentialHash(w, oi), oi.issue)),
                       HexEncode(oi.preimage)))
  }

  /** The transaction id an on-chain payload names. */
  function TxidText(w: World, pp: Payload): Bytes {
    match TxidOf(w, pp.payload) case None => [] case Some(txid) => txid
  }

  /** An on-chain settlement: issued, and a deposit of exactly the amount at the required depth. */
  ghost predicate OnchainFacts(w: World, g: Gate, iss: Issued, env: Env, pp: Payload, o: Outcome) {
    && pp.accepted.payTo in iss.onchain
    && Hash32Of(TxidText(w, pp)).Some?
    && var address, oi := pp.accepted.payTo, iss.onchain[pp.accepted.payTo];
       && DepositMatches(env.deposit(TxidText(w, pp), address), oi.issue.amount, oi.confirmations)
       && EqualSemantic(w.parse, pp.accepted, OnchainOffer(w, g, address, oi))
       && o == OnchainOutcome(w, g, env, address, oi, TxidText(w, pp))
  }

  /** The deposit is there, is not empty, is exact and is deep enough. */
  predicate DepositMatches(deposit: Option<Deposit>, amount: int, confirmations: int) {
    && deposit.Some? && deposit.value.Found?
    && deposit.value.amount == amount && amount != 0
    && deposit.value.confirmations >= confirmations
  }

  lemma DepositChecked(oc: OnchainChallenge, deposit: Option<Deposit>, now: int)
    requires CheckDeposit(oc, deposit, now).None?
    ensures DepositMatches(deposit, oc.amount, oc.confirmations)
  {
  }

  /** Each reason stands for one finding of the backend; only a missing or shallow deposit is to be presented again. */
  lemma DepositReasons(oc: OnchainChallenge, deposit: Option<Deposit>, now: int)
    ensures var r := CheckDeposit(oc, deposit, now);
            && (r == None <==> DepositMatches(deposit, oc.amount, oc.confirmations))
            && (r == Some(UnexpectedVerify) <==> deposit.None?)
            && (r == Some(InvoiceExpired) <==> deposit == Some(Missing) && oc.expiresAt < now)
            && (r == Some(AddressMismatch) <==> deposit.Some? && deposit.value.Found? && deposit.value.amount == 0)
            && (r == Some(AmountMismatch) <==>
                 deposit.Some? && deposit.value.Found?
                 && deposit.value.amount != 0 && deposit.value.amount != oc.amount)
            && (r == Some(InsufficientConfs) <==>
                 || (deposit == Some(Missing) && now <= oc.expiresAt)
                 || (deposit.Some? && deposit.value.Found? && deposit.value.amount == oc.amount != 0
                     && deposit.value.confirmations < oc.confirmations))
  {
  }

  lemma OnchainVerified(w: World, g: Gate, rec: Records, env: Env, pp: Payload, oc: OnchainChallenge, txid: Bytes)
    requires VerifyOnchain(w, g, rec, env, pp) == Ok((oc, txid))
    ensures pp.accepted.payTo in rec.onchain && rec.onchain[pp.accepted.payTo] == oc
    ensures txid == TxidText(w, pp) && Hash32Of(txid).Some?
    ensures DepositMatches(env.deposit(txid, oc.address), oc.amount, oc.confirmations)
    ensures EqualSemantic(w.parse, pp.accepted, oc.requirements)
  {
    DepositChecked(oc, env.deposit(txid, oc.address), env.now);
  }

  lemma OnchainPrepared(w: World, g: Gate, rec: Records, env: Env, pp: Payload, o: Outcome)
    requires PrepareOnchain(w, g, rec, env, pp) == Ok(o)
    ensures VerifyOnchain(w, g, rec, env, pp).Ok?
    ensures var (oc, txid) := VerifyOnchain(w, g, rec, env, pp).value;
            && AccountFromMacaroon(oc.macB64).Some?
            && o == OutcomeOf(w, g, env, oc, txid, AccountFromMacaroon(oc.macB64).value)
  {
  }

  function OutcomeOf(w: World, g: Gate, env: Env, oc: OnchainChallenge, txid: Bytes, account: Bytes): Outcome {
    Outcome(Onchain, OnchainKey(w, txid, oc.address), account, OnchainRef(txid, oc.address), oc.amount,
            ResponseTo(g, env, txid, oc.amount, oc.macB64, oc.credentialPreimage))
  }

  lemma OnchainRecordOutcome(w: World, g: Gate, env: Env, address: Bytes, oi: OnchainIssue, txid: Bytes)
    requires Issuable(w, g, CredentialHash(w, oi), oi.issue)
    ensures var oc := OnchainRecord(w, g, address, oi.confirmations, oi.preimage, oi.issue);
            && AccountFromMacaroon(oc.macB64) == Some(HexEncode(oi.issue.tokenId))
            && OutcomeOf(w, g, env, oc, txid, HexEncode(oi.issue.tokenId)) ==
                  OnchainOutcome(w, g, env, address, oi, txid)
  {
    AccountOf(w, g, CredentialHash(w, oi), oi.issue);
  }

  lemma OnchainSound(w: World, g: Gate, rec: Records, iss: Issued, env: Env, pp: Payload, o: Outcome)
    requires OnchainKept(w, g, rec.onchain, iss) && PrepareOnchain(w, g, rec, env, pp) == Ok(o)
    ensures OnchainFacts(w, g, iss, env, pp, o)
  {
    OnchainPrepared(w, g, rec, env, pp, o);
    var (oc, txid) := VerifyOnchain(w, g, rec, env, pp).value;
    OnchainVerified(w, g, rec, env, pp, oc, txid);
    var address := pp.accepted.payTo;
    OnchainAt(w, g, rec, iss, address);
    OnchainRecordOutcome(w, g, env, address, iss.onchain[address], txid);
  }

  // --- either rail ---

  ghost predicate Facts(w: World, g: Gate, iss: Issued, env: Env, pp: Payload, required: int, o: Outcome) {
    && (required > 0 ==> o.amount >= required)
    && pp.version == 2 && pp.accepted.scheme == EXACT && pp.accepted.network == g.network.caip2
    && match o.rail
       case Lightning => LightningFacts(w, g, iss, env, pp, o)
       case Onchain => OnchainFacts(w, g, iss, env, pp, o)
  }

  lemma PreparedRail(w: World, g: Gate, rec: Records, env: Env, pp: Payload, required: int, o: Outcome)
    requires Prepare(w, g, rec, env, pp, required) == Ok(o)
    ensures PrepareLightning(w, g, rec, env, pp) == Ok(o) || PrepareOnchain(w, g, rec, env, pp) == Ok(o)
    ensures required > 0 ==> o.amount >= required
    ensures pp.version == 2 && pp.accepted.scheme == EXACT && pp.accepted.network == g.network.caip2
  {
  }

  lemma LightningMeets(w: World, g: Gate, rec: Records, iss: Issued, env: Env, pp: Payload, required: int, o: Outcome)
    requires LightningKept(w, g, rec.challenges, iss) && (required > 0 ==> o.amount >= required)
    requires pp.version == 2 && pp.accepted.scheme == EXACT && pp.accepted.network == g.network.caip2
    requires PrepareLightning(w, g, rec, env, pp) == Ok(o)
    ensures Facts(w, g, iss, env, pp, required, o)
  {
    LightningSound(w, g, rec, iss, env, pp, o);
  }

  lemma OnchainMeets(w: World, g: Gate, rec: Records, iss: Issued, env: Env, pp: Payload, required: int, o: Outcome)
    requires OnchainKept(w, g, rec.onchain, iss) && (required > 0 ==> o.amount >= required)
    requires pp.version == 2 && pp.accepted.scheme == EXACT && pp.accepted.network == g.network.caip2
    requires PrepareOnchain(w, g, rec, env, pp) == Ok(o)
    ensures Facts(w, g, iss, env, pp, required, o)
  {
    OnchainSound(w, g, rec, iss, env, pp, o);
  }

  /** Every successful verification matches an issued challenge by every rule, and meets the price. */
  lemma PreparedSound(w: World, g: Gate, rec: Records, iss: Issued, env: Env, pp: Payload, required: int, o: Outcome)
    requires RecordsKept(w, g, rec, iss) && Prepare(w, g, rec, env, pp, required) == Ok(o)
    ensures Facts(w, g, iss, env, pp, required, o)
  {
    PreparedRail(w, g, rec, env, pp, required, o);
    if PrepareLightning(w, g, rec, env, pp) == Ok(o) {
      LightningMeets(w, g, rec, iss, env, pp, required, o);
    } else {
      OnchainMeets(w, g, rec, iss, env, pp, required, o);
    }
  }

  // --- and an honest payer is never turned away ---

  lemma OfferEchoes(w: World, g: Gate, amount: int, payTo: Bytes, extra: Json)
    requires Renders(w, extra)
    ensures EqualSemantic(w.parse, Entry(w, g, amount, payTo, extra), Entry(w, g, amount, payTo, extra))
    ensures Decode(w, Entry(w, g, amount, payTo, extra).extra) == Some(extra)
  {
    EqualSemanticExactly(w.parse, Entry(w, g, amount, payTo, extra), Entry(w, g, amount, payTo, extra));
  }

  lemma LightningMethod(w: World, invoice: Bytes, hash: Hash32, raw: Bytes)
    requires Decode(w, raw) == Some(LightningJson(invoice, hash))
    ensures TransferMethod(w, raw) == LIGHTNING
            && LightningExtraOf(w, raw) == Some(LightningExtra(invoice, HexEncode(hash)))
  {
    LightningFields(invoice, hash);
    assert |METHOD| == 19 && |INVOICE_FIELD| == 7 && |HASH_FIELD| == 11;
  }

  lemma HashText(hash: Hash32)
    ensures Hash32Of(HexEncode(hash)) == Some(hash) && HexEncode(hash) != []
  {
    HexRoundTrip(hash);
  }

  lemma AmountPasses(amount: int, milliAtoms: Option<uint64>)
    requires 0 < amount <= MAX_INT64 && milliAtoms.Some? && Wrap64(milliAtoms.value) == Wrap64(amount * 1000)
    ensures CheckAmount(FormatInt(amount), milliAtoms).None?
  {
    ParseFormat(amount);
  }

  /** The payload an honest payer sends: the offered entry echoed, with the preimage and its hash. */
  predicate HonestLightning(w: World, g: Gate, hash: Hash32, li: LightningIssue, preimageHex: Bytes, pp: Payload) {
    && pp.version == 2 && pp.accepted == LightningOffer(w, g, hash, li)
    && Renders(w, LightningJson(li.invoice, hash))
    && LightningPayloadOf(w, pp.payload) == Some(LightningPayload(preimageHex, HexEncode(hash)))
    && PreimageOf(w.crypto, preimageHex, hash)
  }

  lemma HonestProof(w: World, g: Gate, hash: Hash32, li: LightningIssue, preimageHex: Bytes, pp: Payload)
    requires InInt64(li.issue.amount) && li.issue.amount > 0 && li.invoice != []
    requires InvoicePays(w, g, li.invoice, hash, li.issue.amount) && HonestLightning(w, g, hash, li, preimageHex, pp)
    ensures VerifyLightningProof(w, pp, LightningOffer(w, g, hash, li), g.network, None)
         == Ok(LightningPayload(preimageHex, HexEncode(hash)))
  {
    var extra := LightningJson(li.invoice, hash);
    OfferEchoes(w, g, li.issue.amount, g.payTo, extra);
    LightningMethod(w, li.invoice, hash, pp.accepted.extra);
    HashText(hash);
    AmountPasses(li.issue.amount, w.invoice(li.invoice).value.milliAtoms);
  }

  lemma VerifiedFrom(w: World, g: Gate, rec: Records, env: Env, pp: Payload, hash: Hash32, pay: LightningPayload)
    requires ClaimedHash(w, pp) == Some(hash) && hash in rec.challenges
    requires env.now <= rec.challenges[hash].expiresAt && env.settled(hash) == Some(true)
    requires VerifyLightningProof(w, pp, rec.challenges[hash].requirements, g.network, None) == Ok(pay)
    ensures VerifyLightning(w, g, rec, env, pp) == Ok((rec.challenges[hash], pay))
  {
  }

  lemma HonestClaim(w: World, g: Gate, hash: Hash32, li: LightningIssue, pp: Payload)
    requires pp.accepted == LightningOffer(w, g, hash, li) && Renders(w, LightningJson(li.invoice, hash))
    ensures ClaimedHash(w, pp) == Some(hash) && TransferMethod(w, pp.accepted.extra) == LIGHTNING
  {
    OfferEchoes(w, g, li.issue.amount, g.payTo, LightningJson(li.invoice, hash));
    LightningMethod(w, li.invoice, hash, pp.accepted.extra);
    HashText(hash);
  }

  lemma HonestVerified(w: World, g: Gate, rec: Records, iss: Issued, env: Env, hash: Hash32, preimageHex: Bytes,
                       pp: Payload)
    requires LightningKept(w, g, rec.challenges, iss) && hash in iss.lightning
    requires var li := iss.lightning[hash];
             && li.issue.amount > 0 && li.invoice != [] && InvoicePays(w, g, li.invoice, hash, li.issue.amount)
             && HonestLightning(w, g, hash, li, preimageHex, pp)
             && env.now <= li.issue.now + g.challengeTTL && env.settled(hash) == Some(true)
    ensures hash in rec.challenges
    ensures VerifyLightning(w, g, rec, env, pp) ==
              Ok((rec.challenges[hash], LightningPayload(preimageHex, HexEncode(hash))))
  {
    var li := iss.lightning[hash];
    LightningAt(w, g, rec, iss, hash);
    HonestProof(w, g, hash, li, preimageHex, pp);
    HonestClaim(w, g, hash, li, pp);
    VerifiedFrom(w, g, rec, env, pp, hash, LightningPayload(preimageHex, HexEncode(hash)));
  }

  /** Whoever pays a live invoice and presents its preimage settles, at any price up to the amount. */
  lemma HonestPayerSettles(w: World, g: Gate, rec: Records, iss: Issued, env: Env, hash: Hash32, preimageHex: Bytes,
                           pp: Payload, required: int)
    requires LightningKept(w, g, rec.challenges, iss) && hash in iss.lightning
    requires var li := iss.lightning[hash];
             && li.issue.amount > 0 && li.invoice != [] && InvoicePays(w, g, li.invoice, hash, li.issue.amount)
             && HonestLightning(w, g, hash, li, preimageHex, pp) && required <= li.issue.amount
             && env.now <= li.issue.now + g.challengeTTL && env.settled(hash) == Some(true)
    ensures Prepare(w, g, rec, env, pp, required) ==
              Ok(LightningOutcome(w, g, env, hash, iss.lightning[hash], preimageHex))
  {
    var li := iss.lightning[hash];
    HonestVerified(w, g, rec, iss, env, hash, preimageHex, pp);
    LightningAt(w, g, rec, iss, hash);
    LightningRecordOutcome(w, g, env, hash, li, preimageHex);
    HonestPrepared(w, g, rec, env, pp, LightningOutcome(w, g, env, hash, li, preimageHex));
    HonestClaim(w, g, hash, li, pp);
    PreparedByLightning(w, g, rec, env, pp, required);
  }

  lemma HonestPrepared(w: World, g: Gate, rec: Records, env: Env, pp: Payload, o: Outcome)
    requires VerifyLightning(w, g, rec, env, pp).Ok?
    requires var (ch, pay) := VerifyLightning(w, g, rec, env, pp).value;
             && AccountFromMacaroon(ch.macB64).Some?
             && o == PaidOutcome(g, env, ch, pay.preimage, AccountFromMacaroon(ch.macB64).value)
    ensures PrepareLightning(w, g, rec, env, pp) == Ok(o)
  {
  }

  lemma PreparedByLightning(w: World, g: Gate, rec: Records, env: Env, pp: Payload, required: int)
    requires pp.version == 2 && pp.accepted.scheme == EXACT && pp.accepted.network == g.network.caip2
    requires TransferMethod(w, pp.accepted.extra) == LIGHTNING && PrepareLightning(w, g, rec, env, pp).Ok?
    requires required <= PrepareLightning(w, g, rec, env, pp).value.amount
    ensures Prepare(w, g, rec, env, pp, required) == PrepareLightning(w, g, rec, env, pp)
  {
  }

  lemma OnchainMethod(w: World, confirmations: int, credential: Bytes, raw: Bytes)
    requires Decode(w, raw) == Some(OnchainJson(confirmations, credential))
    ensures TransferMethod(w, raw) == ONCHAIN && OnchainExtraDecodes(w, raw)
  {
    assert |METHOD| == 19 && |CREDENTIAL_FIELD| == 10 && |CONFIRMATIONS_FIELD| == 13;
    assert (confirmations as real).Floor as real == confirmations as real;
  }

  /** The payload an honest depositor sends: the offered entry echoed, with the transaction id. */
  predicate HonestDeposit(w: World, g: Gate, address: Bytes, oi: OnchainIssue, txid: Bytes, pp: Payload) {
    && pp.version == 2 && pp.accepted == OnchainOffer(w, g, address, oi)
    && Renders(w, OnchainJson(oi.confirmations, MacB64(MacOf(w, g, CredentialHash(w, oi), oi.issue))))
    && TxidOf(w, pp.payload) == Some(txid) && Hash32Of(txid).Some?
  }

  lemma DepositPasses(oc: OnchainChallenge, deposit: Option<Deposit>, now: int)
    requires DepositMatches(deposit, oc.amount, oc.confirmations)
    ensures CheckDeposit(oc, deposit, now).None?
  {
  }

  lemma DepositVerified(w: World, g: Gate, rec: Records, env: Env, pp: Payload, oc: OnchainChallenge, txid: Bytes)
    requires g.onchain && OnchainExtraDecodes(w, pp.accepted.extra) && TxidOf(w, pp.payload) == Some(txid)
             && Hash32Of(txid).Some?
    requires pp.accepted.payTo in rec.onchain && rec.onchain[pp.accepted.payTo] == oc
    requires EqualSemantic(w.parse, pp.accepted, oc.requirements)
             && CheckDeposit(oc, env.deposit(txid, oc.address), env.now).None?
    ensures VerifyOnchain(w, g, rec, env, pp) == Ok((oc, txid))
  {
  }

  lemma DepositPrepared(w: World, g: Gate, rec: Records, env: Env, pp: Payload, required: int, oc: OnchainChallenge,
                        txid: Bytes, o: Outcome)
    requires pp.version == 2 && pp.accepted.scheme == EXACT && pp.accepted.network == g.network.caip2
    requires TransferMethod(w, pp.accepted.extra) == ONCHAIN && VerifyOnchain(w, g, rec, env, pp) == Ok((oc, txid))
    requires AccountFromMacaroon(oc.macB64).Some?
             && o == OutcomeOf(w, g, env, oc, txid, AccountFromMacaroon(oc.macB64).value)
    requires required <= o.amount
    ensures Prepare(w, g, rec, env, pp, required) == Ok(o)
  {
    assert ONCHAIN != LIGHTNING by { assert |ONCHAIN| != |LIGHTNING|; }
  }

  /** Whoever deposits the exact amount and waits for the depth settles, however long it took. */
  lemma HonestDepositSettles(w: World, g: Gate, rec: Records, iss: Issued, env: Env, address: Bytes, txid: Bytes,
                             pp: Payload, required: int)
    requires g.onchain && OnchainKept(w, g, rec.onchain, iss) && address in iss.onchain
    requires var oi := iss.onchain[address];
             && HonestDeposit(w, g, address, oi, txid, pp) && required <= oi.issue.amount
             && DepositMatches(env.deposit(txid, address), oi.issue.amount, oi.confirmations)
    ensures Prepare(w, g, rec, env, pp, required) == Ok(OnchainOutcome(w, g, env, address, iss.onchain[address], txid))
  {
    var oi := iss.onchain[address];
    var credential := MacB64(MacOf(w, g, CredentialHash(w, oi), oi.issue));
    OnchainAt(w, g, rec, iss, address);
    var oc := rec.onchain[address];
    OfferEchoes(w, g, oi.issue.amount, address, OnchainJson(oi.confirmations, credential));
    OnchainMethod(w, oi.confirmations, credential, pp.accepted.extra);
    DepositPasses(oc, env.deposit(txid, address), env.now);
    DepositVerified(w, g, rec, env, pp, oc, txid);
    OnchainRecordOutcome(w, g, env, address, oi, txid);
    DepositPrepared(w, g, rec, env, pp, required, oc, txid, OnchainOutcome(w, g, env, address, oi, txid));
  }
}
