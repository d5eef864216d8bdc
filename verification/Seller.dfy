/** Challenges, verification and settlement at a gate (lib/challenge.go, lib/topup.go, lib/verify.go, lib/store). */
module Seller {
  import opened Base
  import opened Text
  import opened Numbers
  import opened Encodings
  import opened Macaroons
  import opened Headers
  import opened JsonValue
  import opened Credentials

  // --- the world outside the gate ---

  /** A decoded invoice; the destination is the payee key in hexadecimal, the amount an unsigned 64-bit number. */
  datatype Invoice = Invoice(paymentHash: Option<Hash32>, destination: Option<Bytes>, milliAtoms: Option<uint64>,
                             timestamp: int, expiry: int)

  type uint64 = x: int | 0 <= x < 0x1_0000_0000_0000_0000

  /** Hashes, the JSON decoder and encoder, and the invoice decoder. */
  datatype World = World(crypto: Crypto, parse: Bytes -> Option<Json>, render: Json -> Bytes,
                         invoice: Bytes -> Option<Invoice>)

  datatype Deposit = Missing | Found(confirmations: int, amount: int)

  /** What clock and backends answer during one presentation; None is a failed call. */
  datatype Env = Env(now: int, settled: Hash32 -> Option<bool>, deposit: (Bytes, Bytes) -> Option<Deposit>,
                     receipt: Option<Bytes>)

  datatype Network = Network(caip2: Bytes, hrp: Bytes)

  datatype Gate = Gate(service: Service, network: Network, payTo: Bytes, challengeTTL: int, onchain: bool)

  // --- wire values ---

  const LIGHTNING: Bytes := "lightning"
  const ONCHAIN: Bytes := "onchain"
  const METHOD: Bytes := "assetTransferMethod"
  const INVOICE_FIELD: Bytes := "invoice"
  const HASH_FIELD: Bytes := "paymentHash"
  const PREIMAGE_FIELD: Bytes := "preimage"
  const CONFIRMATIONS_FIELD: Bytes := "confirmations"
  const CREDENTIAL_FIELD: Bytes := "credential"
  const TXID_FIELD: Bytes := "txid"
  const EXACT: Bytes := "exact"

  datatype Payload = Payload(version: int, accepted: Requirements, payload: Bytes)

  datatype LightningExtra = LightningExtra(invoice: Bytes, paymentHash: Bytes)
  datatype LightningPayload = LightningPayload(preimage: Bytes, paymentHash: Bytes)

  function Decode(w: World, raw: Bytes): Option<Json> { if raw == [] then None else w.parse(raw) }

  /** A string field of a decoded struct: absent or null means empty, another type is an error. */
  function TextField(j: Json, name: Bytes): Option<Bytes> {
    match j
    case Null => Some([])
    case Object(fields) =>
      if name !in fields || fields[name].Null? then Some([])
      else if fields[name].Text? then Some(fields[name].text)
      else None
    case _ => None
  }

  predicate IntegerField(j: Json, name: Bytes) {
    match j
    case Null => true
    case Object(fields) =>
      name !in fields || fields[name].Null?
      || (fields[name].Number? && fields[name].value == fields[name].value.Floor as real)
    case _ => false
  }

  /** Decoding a field: missing and null are empty, a text is itself, anything else is an error, as is no object. */
  lemma FieldsExactly(j: Json, name: Bytes, text: Bytes)
    ensures TextField(j, name) == Some(text) <==>
              || (text == [] && (j.Null? || (j.Object? && (name !in j.fields || j.fields[name].Null?))))
              || (j.Object? && name in j.fields && j.fields[name] == Text(text))
    ensures IntegerField(j, name) <==>
              || j.Null? || (j.Object? && (name !in j.fields || j.fields[name].Null?))
              || (j.Object? && name in j.fields && j.fields[name].Number?
                  && j.fields[name].value == j.fields[name].value.Floor as real)
  {
  }

  /** An on-chain extra decodes exactly when method and credential are texts and confirmations is an integer. */
  lemma OnchainExtraExactly(w: World, raw: Bytes)
    ensures OnchainExtraDecodes(w, raw) <==>
              && Decode(w, raw).Some?
              && TextField(Decode(w, raw).value, "assetTransferMethod").Some?
              && TextField(Decode(w, raw).value, "credential").Some?
              && IntegerField(Decode(w, raw).value, "confirmations")
  {
  }

  function LightningExtraOf(w: World, raw: Bytes): Option<LightningExtra> {
    match Decode(w, raw)
    case None => None
    case Some(j) =>
      var m, i, h := TextField(j, METHOD), TextField(j, INVOICE_FIELD), TextField(j, HASH_FIELD);
      if m.None? || i.None? || h.None? then None else Some(LightningExtra(i.value, h.value))
  }

  function LightningPayloadOf(w: World, raw: Bytes): Option<LightningPayload> {
    match Decode(w, raw)
    case None => None
    case Some(j) =>
      var p, h := TextField(j, PREIMAGE_FIELD), TextField(j, HASH_FIELD);
      if p.None? || h.None? then None else Some(LightningPayload(p.value, h.value))
  }

  predicate OnchainExtraDecodes(w: World, raw: Bytes) {
    var j := Decode(w, raw);
    && j.Some? && TextField(j.value, METHOD).Some? && TextField(j.value, CREDENTIAL_FIELD).Some?
    && IntegerField(j.value, CONFIRMATIONS_FIELD)
  }

  function TxidOf(w: World, raw: Bytes): Option<Bytes> {
    match Decode(w, raw) case None => None case Some(j) => TextField(j, TXID_FIELD)
  }

  function TransferMethod(w: World, raw: Bytes): Bytes {
    match Decode(w, raw)
    case None => []
    case Some(j) => if TextField(j, METHOD).None? then [] else TextField(j, METHOD).value
  }

  // --- stored records ---

  datatype Challenge = Challenge(paymentHash: Hash32, invoice: Bytes, macB64: Bytes, rootKeyId: Hash32,
                                 requirements: Requirements, resource: Bytes, amount: int, createdAt: int,
                                 expiresAt: int)

  datatype OnchainChallenge = OnchainChallenge(address: Bytes, requirements: Requirements, resource: Bytes, amount: int,
                                               confirmations: int, macB64: Bytes, rootKeyId: Hash32,
                                               credentialPreimage: Bytes, createdAt: int, expiresAt: int)

  datatype Response = Response(transaction: Bytes, network: Bytes, amount: Bytes, delivered: Option<Delivered>,
                               receipt: Option<Bytes>)

  datatype Records = Records(challenges: map<Hash32, Challenge>, onchain: map<Bytes, OnchainChallenge>,
                             settlements: map<Hash32, Response>, rootKeys: map<Hash32, Hash32>)

  // --- issuing ---

  /** What is fresh about one issued credential: its token id, its root key, and when and for how much it was issued. */
  datatype Issue = Issue(tokenId: Hash32, rootKey: Hash32, now: int, amount: int, resource: Bytes)

  function IdOf(hash: Hash32, i: Issue): Identifier { Identifier(IDENTIFIER_VERSION, hash, i.tokenId) }

  function MacOf(w: World, g: Gate, hash: Hash32, i: Issue): Mac {
    MintCredential(w.crypto, i.rootKey, g.service, IdOf(hash, i), i.now)
  }

  function LightningJson(invoice: Bytes, hash: Hash32): Json {
    Object(map[METHOD := Text(LIGHTNING), INVOICE_FIELD := Text(invoice), HASH_FIELD := Text(HexEncode(hash))])
  }

  /** The encoder writes this value as non-empty text that parses back. */
  predicate Renders(w: World, j: Json) { w.render(j) != [] && w.parse(w.render(j)) == Some(j) }

  /** The confirmations field is omitted when zero. */
  function OnchainJson(confirmations: int, credential: Bytes): Json {
    var base := map[METHOD := Text(ONCHAIN), CREDENTIAL_FIELD := Text(credential)];
    Object(if confirmations == 0 then base else base[CONFIRMATIONS_FIELD := Number(confirmations as real)])
  }

  /** The extra objects and the proofs' fields, by their wire names. */
  lemma WireNames(invoice: Bytes, hash: Hash32, confirmations: int, credential: Bytes)
    ensures LightningJson(invoice, hash) ==
              Object(map["assetTransferMethod" := Text("lightning"), "invoice" := Text(invoice),
                         "paymentHash" := Text(HexEncode(hash))])
    ensures confirmations != 0 ==>
              OnchainJson(confirmations, credential) ==
                Object(map["assetTransferMethod" := Text("onchain"), "credential" := Text(credential),
                           "confirmations" := Number(confirmations as real)])
    ensures OnchainJson(0, credential) ==
              Object(map["assetTransferMethod" := Text("onchain"), "credential" := Text(credential)])
    ensures PREIMAGE_FIELD == "preimage" && TXID_FIELD == "txid" && EXACT == "exact" && DCR == "DCR"
  {
  }

  function Entry(w: World, g: Gate, amount: int, payTo: Bytes, extra: Json): Requirements {
    Requirements(EXACT, g.network.caip2, FormatInt(amount), DCR, payTo, g.challengeTTL / 1_000_000_000, w.render(extra))
  }

  function LightningRecordWith(w: World, g: Gate, hash: Hash32, invoice: Bytes, i: Issue, id: Bytes, macB64: Bytes)
    : Challenge
  {
    Challenge.Challenge(hash, invoice, macB64, w.crypto.sha256(id),
                        Entry(w, g, i.amount, g.payTo, LightningJson(invoice, hash)),
                        i.resource, i.amount, i.now, i.now + g.challengeTTL)
  }

  function LightningRecord(w: World, g: Gate, hash: Hash32, invoice: Bytes, i: Issue): Challenge {
    var m := MacOf(w, g, hash, i);
    LightningRecordWith(w, g, hash, invoice, i, m.id, MacB64(m))
  }

  function OnchainRecordWith(w: World, g: Gate, address: Bytes, confirmations: int, preimage: Hash32, i: Issue,
                             id: Bytes, macB64: Bytes): OnchainChallenge {
    OnchainChallenge(address, Entry(w, g, i.amount, address, OnchainJson(confirmations, macB64)),
                     i.resource, i.amount, confirmations, macB64, w.crypto.sha256(id),
                     HexEncode(preimage), i.now, i.now + g.challengeTTL)
  }

  /** The credential is minted over a server-made preimage. */
  function OnchainRecord(w: World, g: Gate, address: Bytes, confirmations: int, preimage: Hash32, i: Issue)
    : OnchainChallenge
  {
    var m := MacOf(w, g, w.crypto.sha256(preimage), i);
    OnchainRecordWith(w, g, address, confirmations, preimage, i, m.id, MacB64(m))
  }

  /** What both kinds of record and the entry they offer carry. */
  lemma RecordsExactly(w: World, g: Gate, hash: Hash32, invoice: Bytes, address: Bytes, confirmations: int,
                       preimage: Hash32, i: Issue)
    ensures var ch := LightningRecord(w, g, hash, invoice, i);
            && ch.paymentHash == hash && ch.invoice == invoice && ch.amount == i.amount && ch.resource == i.resource
            && ch.createdAt == i.now && ch.expiresAt == i.now + g.challengeTTL
            && ch.requirements.payTo == g.payTo && ch.requirements.amount == FormatInt(i.amount)
            && ch.requirements.scheme == "exact" && ch.requirements.network == g.network.caip2
            && ch.requirements.asset == "DCR"
            && ch.requirements.maxTimeoutSeconds == g.challengeTTL / 1_000_000_000
    ensures var oc := OnchainRecord(w, g, address, confirmations, preimage, i);
            && oc.address == address && oc.confirmations == confirmations && oc.amount == i.amount
            && oc.resource == i.resource && oc.credentialPreimage == HexEncode(preimage)
            && oc.createdAt == i.now && oc.expiresAt == i.now + g.challengeTTL
            && oc.requirements.payTo == address && oc.requirements.amount == FormatInt(i.amount)
  {
  }

  function AddLightning(w: World, g: Gate, rec: Records, hash: Hash32, invoice: Bytes, i: Issue): Records {
    rec.(rootKeys := rec.rootKeys[StorageKey(w.crypto, IdOf(hash, i)) := i.rootKey],
         challenges := rec.challenges[hash := LightningRecord(w, g, hash, invoice, i)])
  }

  function AddOnchain(w: World, g: Gate, rec: Records, address: Bytes, confirmations: int, preimage: Hash32, i: Issue)
    : Records
  {
    rec.(rootKeys := rec.rootKeys[StorageKey(w.crypto, IdOf(w.crypto.sha256(preimage), i)) := i.rootKey],
         onchain := rec.onchain[address := OnchainRecord(w, g, address, confirmations, preimage, i)])
  }

  // --- verification ---

  datatype Reason =
    | InvalidVersion | InvalidScheme | InvalidNetwork | InvalidRequirements | InvalidPayload
    | PreimageMismatch
    | InvoiceDecode | InvoiceNetwork | InvoiceHash | InvoiceDestination | InvoiceAmount | InvoiceExpired
    | UnknownPaymentHash | PaymentHashReused | AddressMismatch | AmountMismatch | InsufficientConfs
    | UnexpectedVerify | UnexpectedSettle

  function CheckEnvelope(pp: Payload, net: Network): Option<Reason> {
    if pp.version != 2 then Some(InvalidVersion)
    else if pp.accepted.scheme != EXACT then Some(InvalidScheme)
    else if pp.accepted.network != net.caip2 then Some(InvalidNetwork)
    else None
  }

  function Hash32Of(hexText: Bytes): Option<Hash32> {
    match HexDecode(hexText)
    case None => None
    case Some(raw) => if |raw| == 32 then Some(raw) else None
  }

  /** Rule 3: the preimage hashes to the claimed payment hash. */
  function CheckPreimage(w: World, extra: LightningExtra, pay: LightningPayload, claimed: Hash32): Option<Reason> {
    match Hash32Of(pay.preimage)
    case None => Some(InvalidPayload)
    case Some(preimage) =>
      if !EqualFold(pay.paymentHash, extra.paymentHash) || w.crypto.sha256(preimage) != claimed
      then Some(PreimageMismatch)
      else None
  }

  /** Rule 6: the invoice carries a thousand times the amount, in 64-bit arithmetic. */
  function CheckAmount(amount: Bytes, milliAtoms: Option<uint64>): Option<Reason> {
    var atoms := ParseInt64(amount);
    if atoms.None? || atoms.value <= 0 then Some(InvalidRequirements)
    else if milliAtoms.None? || Wrap64(milliAtoms.value) != Wrap64(atoms.value * 1000) then Some(InvoiceAmount)
    else None
  }

  /** The accepted invoice amount is the true thousandfold exactly when that fits an unsigned 64-bit number. */
  lemma ThousandfoldExactly(amount: int, milliAtoms: uint64)
    requires 0 < amount <= MAX_INT64 && Wrap64(milliAtoms) == Wrap64(amount * 1000)
    ensures milliAtoms == amount * 1000 <==> amount * 1000 < 0x1_0000_0000_0000_0000
  {
  }

  /** Rules 4 to 7: network, hash, destination, amount and, given a clock, the invoice's own expiry. */
  function CheckInvoice(w: World, net: Network, invoice: Bytes, acc: Requirements, claimed: Hash32, now: Option<int>)
    : Option<Reason>
  {
    if !HasPrefix(invoice, net.hrp) then Some(InvoiceNetwork)
    else
      match w.invoice(invoice)
      case None => Some(InvoiceDecode)
      case Some(inv) =>
        if inv.paymentHash != Some(claimed) then Some(InvoiceHash)
        else if inv.destination.None? || !EqualFold(inv.destination.value, acc.payTo) then Some(InvoiceDestination)
        else if CheckAmount(acc.amount, inv.milliAtoms).Some? then CheckAmount(acc.amount, inv.milliAtoms)
        else if now.Some? && now.value > inv.timestamp + inv.expiry then Some(InvoiceExpired)
        else None
  }

  function VerifyLightningProof(w: World, pp: Payload, offered: Requirements, net: Network, now: Option<int>)
    : Result<LightningPayload, Reason>
  {
    match (LightningExtraOf(w, pp.accepted.extra), LightningPayloadOf(w, pp.payload))
    case (Some(extra), Some(pay)) =>
      if extra.invoice == [] || extra.paymentHash == [] || pay.preimage == [] || pay.paymentHash == []
      then Err(InvalidPayload)
      else (
        match Hash32Of(extra.paymentHash)
        case None => Err(InvalidPayload)
        case Some(claimed) =>
          var preimage := CheckPreimage(w, extra, pay, claimed);
          if preimage.Some? then Err(preimage.value)
          else if !EqualSemantic(w.parse, pp.accepted, offered) then Err(InvalidRequirements)
          else
            var invoice := CheckInvoice(w, net, extra.invoice, pp.accepted, claimed, now);
            if invoice.Some? then Err(invoice.value) else Ok(pay))
    case _ => Err(InvalidPayload)
  }

  function VerifyLightning(w: World, g: Gate, rec: Records, env: Env, pp: Payload)
    : Result<(Challenge, LightningPayload), Reason>
  {
    match LightningExtraOf(w, pp.accepted.extra)
    case None => Err(InvalidPayload)
    case Some(extra) =>
      match Hash32Of(extra.paymentHash)
      case None => Err(InvalidPayload)
      case Some(hash) =>
        if hash !in rec.challenges then Err(UnknownPaymentHash)
        else
          var ch := rec.challenges[hash];
          if env.now > ch.expiresAt then Err(if hash in rec.settlements then PaymentHashReused else InvoiceExpired)
          else
            var pay :- VerifyLightningProof(w, pp, ch.requirements, g.network, None);
            if env.settled(hash) != Some(true) then Err(UnexpectedVerify) else Ok((ch, pay))
  }

  /** Rules 9 to 11 on what the backend found; the challenge's lifetime only matters while nothing is found. */
  function CheckDeposit(oc: OnchainChallenge, deposit: Option<Deposit>, now: int): Option<Reason> {
    match deposit
    case None => Some(UnexpectedVerify)
    case Some(Missing) => Some(if now > oc.expiresAt then InvoiceExpired else InsufficientConfs)
    case Some(Found(confirmations, amount)) =>
      if amount == 0 then Some(AddressMismatch)
      else if amount != oc.amount then Some(AmountMismatch)
      else if confirmations < oc.confirmations then Some(InsufficientConfs)
      else None
  }

  function VerifyOnchain(w: World, g: Gate, rec: Records, env: Env, pp: Payload)
    : Result<(OnchainChallenge, Bytes), Reason>
  {
    if !OnchainExtraDecodes(w, pp.accepted.extra) then Err(InvalidPayload)
    else
      match TxidOf(w, pp.payload)
      case None => Err(InvalidPayload)
      case Some(txid) =>
        if txid == [] || Hash32Of(txid).None? then Err(InvalidPayload)
        else if pp.accepted.payTo !in rec.onchain then Err(InvalidRequirements)
        else
          var oc := rec.onchain[pp.accepted.payTo];
          if !EqualSemantic(w.parse, pp.accepted, oc.requirements) then Err(InvalidRequirements)
          else if !g.onchain then Err(UnexpectedVerify)
          else
            var deposit := CheckDeposit(oc, env.deposit(txid, oc.address), env.now);
            if deposit.Some? then Err(deposit.value) else Ok((oc, txid))
  }

  // --- settlement ---

  datatype Rail = Lightning | Onchain

  /** One verified presentation, ready to be recorded under key. */
  datatype Outcome = Outcome(rail: Rail, key: Hash32, account: Bytes, ref: Bytes, amount: int, response: Response)

  function LightningRef(hash: Hash32): Bytes { "ln:" + HexEncode(hash) }

  function OnchainRef(txid: Bytes, address: Bytes): Bytes { "onchain:" + txid + [':'] + address }

  function OnchainKey(w: World, txid: Bytes, address: Bytes): Hash32 {
    w.crypto.sha256("dcr402/onchain/" + txid + ['/'] + address)
  }

  /** References and settlement keys, as text. */
  lemma RefTexts(w: World, hash: Hash32, txid: Bytes, address: Bytes)
    ensures LightningRef(hash) == "ln:" + HexEncode(hash)
    ensures OnchainRef(txid, address) == "onchain:" + txid + ":" + address
    ensures OnchainKey(w, txid, address) == w.crypto.sha256("dcr402/onchain/" + txid + "/" + address)
  {
    assert "onchain:" + txid + [':'] + address == "onchain:" + txid + ":" + address;
    assert "dcr402/onchain/" + txid + ['/'] + address == "dcr402/onchain/" + txid + "/" + address;
  }

  function ResponseTo(g: Gate, env: Env, transaction: Bytes, amount: int, macB64: Bytes, preimageHex: Bytes): Response {
    Response(transaction, g.network.caip2, FormatInt(amount), DeliveredFor(macB64, preimageHex, g.service.name),
             env.receipt)
  }

  function PrepareLightning(w: World, g: Gate, rec: Records, env: Env, pp: Payload): Result<Outcome, Reason> {
    var (ch, pay) :- VerifyLightning(w, g, rec, env, pp);
    match AccountFromMacaroon(ch.macB64)
    case None => Err(UnexpectedSettle)
    case Some(account) =>
      Ok(Outcome(Lightning, ch.paymentHash, account, LightningRef(ch.paymentHash), ch.amount,
                 ResponseTo(g, env, HexEncode(ch.paymentHash), ch.amount, ch.macB64, pay.preimage)))
  }

  function PrepareOnchain(w: World, g: Gate, rec: Records, env: Env, pp: Payload): Result<Outcome, Reason> {
    var (oc, txid) :- VerifyOnchain(w, g, rec, env, pp);
    match AccountFromMacaroon(oc.macB64)
    case None => Err(UnexpectedSettle)
    case Some(account) =>
      Ok(Outcome(Onchain, OnchainKey(w, txid, oc.address), account, OnchainRef(txid, oc.address), oc.amount,
                 ResponseTo(g, env, txid, oc.amount, oc.macB64, oc.credentialPreimage)))
  }

  /** Everything settleFull does before it records the settlement. */
  function Prepare(w: World, g: Gate, rec: Records, env: Env, pp: Payload, required: int): Result<Outcome, Reason> {
    var envelope := CheckEnvelope(pp, g.network);
    if envelope.Some? then Err(envelope.value)
    else
      var how := TransferMethod(w, pp.accepted.extra);
      var o :- if how == LIGHTNING then PrepareLightning(w, g, rec, env, pp)
               else if how == ONCHAIN then PrepareOnchain(w, g, rec, env, pp)
               else Err(InvalidPayload);
      if required > 0 && o.amount < required then Err(InvalidRequirements) else Ok(o)
  }

  /** The first settlement of a key is kept; later ones change nothing. */
  function Recorded(rec: Records, key: Hash32, response: Response): Records {
    if key in rec.settlements then rec else rec.(settlements := rec.settlements[key := response])
  }
}
