/** The gate's handlers over its store and ledger (lib/store/store.go, lib/challenge.go, lib/topup.go, lib/gate.go). */
module GateServer {
  import opened Base
  import opened Encodings
  import opened Macaroons
  import opened Headers
  import opened JsonValue
  import opened Credentials
  import opened Seller
  import opened SellerRules
  import Settlement
  import Caveats
  import Ledger

  class Store {
    var challenges: map<Hash32, Seller.Challenge>
    var onchain: map<Bytes, OnchainChallenge>
    var settlements: map<Hash32, Response>
    var rootKeys: map<Hash32, Hash32>

    function Rec(): Records
      reads this
    {
      Records(challenges, onchain, settlements, rootKeys)
    }

    constructor ()
      ensures Rec() == Records(map[], map[], map[], map[])
    {
      challenges, onchain, settlements, rootKeys := map[], map[], map[], map[];
    }

    method PutChallenge(ch: Seller.Challenge)
      modifies this
      ensures Rec() == old(Rec()).(challenges := old(challenges)[ch.paymentHash := ch])
    {
      challenges := challenges[ch.paymentHash := ch];
    }

    method PutOnchainChallenge(oc: OnchainChallenge)
      modifies this
      ensures Rec() == old(Rec()).(onchain := old(onchain)[oc.address := oc])
    {
      onchain := onchain[oc.address := oc];
    }

    method PutRootKey(key: Hash32, rootKey: Hash32)
      modifies this
      ensures Rec() == old(Rec()).(rootKeys := old(rootKeys)[key := rootKey])
    {
      rootKeys := rootKeys[key := rootKey];
    }

    method DeleteRootKey(key: Hash32)
      modifies this
      ensures Rec() == old(Rec()).(rootKeys := old(rootKeys) - {key})
    {
      rootKeys := rootKeys - {key};
    }

    /** The first response recorded for a key is the one every later call gets. */
    method Settle(key: Hash32, response: Response) returns (stored: Response, already: bool)
      modifies this
      ensures Rec() == Recorded(old(Rec()), key, response)
      ensures key in settlements && stored == settlements[key]
      ensures already == (key in old(settlements))
    {
      if key in settlements {
        return settlements[key], true;
      }
      settlements := settlements[key := response];
      return response, false;
    }
  }

  method BuildCaveats(s: Service, now: int) returns (caveats: seq<Bytes>)
    ensures caveats == MintCaveats(s, now)
  {
    caveats := [Caveats.ServicesCaveat(s.name, s.tier)];
    if |s.capabilities| > 0 {
      caveats := caveats + [Caveats.CapabilitiesCaveat(s.name, s.capabilities)];
    }
    caveats := caveats + [Caveats.ValidUntilCaveat(s.name, now + s.tokenTTL)];
  }

  /** Mints over the hash and stores the root key under the hash of the identifier. */
  method Mint(store: Store, w: World, g: Gate, hash: Hash32, i: Issue) returns (m: Mac, macB64: Bytes)
    modifies store
    ensures m == MacOf(w, g, hash, i) && macB64 == MacB64(m)
    ensures var key := StorageKey(w.crypto, IdOf(hash, i));
            store.Rec() == old(store.Rec()).(rootKeys := old(store.rootKeys)[key := i.rootKey])
  {
    var id := IdOf(hash, i);
    var caveats := BuildCaveats(g.service, i.now);
    m := Macaroons.Mint(w.crypto, i.rootKey, id, caveats);
    store.PutRootKey(StorageKey(w.crypto, id), i.rootKey);
    macB64 := B64Encode(Wire(m));
  }

  /** The lightning half of both challenges. */
  method PutLightning(store: Store, w: World, g: Gate, hash: Hash32, invoice: Bytes, i: Issue)
    returns (entry: Requirements, m: Mac)
    modifies store
    ensures entry == LightningRecord(w, g, hash, invoice, i).requirements && m == MacOf(w, g, hash, i)
    ensures store.Rec() == AddLightning(w, g, old(store.Rec()), hash, invoice, i)
  {
    var macB64;
    m, macB64 := Mint(store, w, g, hash, i);
    var ch := LightningRecordWith(w, g, hash, invoice, i, m.id, macB64);
    store.PutChallenge(ch);
    entry := ch.requirements;
  }

  method PutOnchain(store: Store, w: World, g: Gate, address: Bytes, confirmations: int, preimage: Hash32, i: Issue)
    returns (entry: Requirements)
    modifies store
    ensures entry == OnchainRecord(w, g, address, confirmations, preimage, i).requirements
    ensures store.Rec() == AddOnchain(w, g, old(store.Rec()), address, confirmations, preimage, i)
  {
    var m, macB64 := Mint(store, w, g, w.crypto.sha256(preimage), i);
    var oc := OnchainRecordWith(w, g, address, confirmations, preimage, i, m.id, macB64);
    store.PutOnchainChallenge(oc);
    entry := oc.requirements;
  }

  /** A per-call challenge; the invoice and its hash come from the node. */
  method BuildChallenge(store: Store, w: World, g: Gate, hash: Hash32, invoice: Bytes, i: Issue)
    returns (r: Option<(Requirements, Mac)>)
    modifies store
    ensures r.Some? <==> i.amount > 0
    ensures r.None? ==> store.Rec() == old(store.Rec())
    ensures r.Some? ==> store.Rec() == AddLightning(w, g, old(store.Rec()), hash, invoice, i)
    ensures r.Some? ==> r.value == (LightningRecord(w, g, hash, invoice, i).requirements, MacOf(w, g, hash, i))
  {
    if i.amount <= 0 {
      return None;
    }
    var entry, m := PutLightning(store, w, g, hash, invoice, i);
    r := Some((entry, m));
  }

  /** A top-up challenge: with an on-chain backend, two entries over one token id. */
  method BuildTopupChallenge(store: Store, w: World, g: Gate, hash: Hash32, invoice: Bytes, i: Issue,
                             address: Bytes, confirmations: int, preimage: Hash32, rootKey: Hash32)
    returns (accepts: seq<Requirements>, m: Mac)
    modifies store
    ensures m == MacOf(w, g, hash, i)
    ensures var one := AddLightning(w, g, old(store.Rec()), hash, invoice, i);
            store.Rec() == if g.onchain
                           then AddOnchain(w, g, one, address, confirmations, preimage, i.(rootKey := rootKey))
                           else one
    ensures |accepts| == if g.onchain then 2 else 1
    ensures accepts[0] == LightningRecord(w, g, hash, invoice, i).requirements
    ensures g.onchain ==>
              accepts[1] == OnchainRecord(w, g, address, confirmations, preimage, i.(rootKey := rootKey)).requirements
  {
    var entry;
    entry, m := PutLightning(store, w, g, hash, invoice, i);
    accepts := [entry];
    if g.onchain {
      var onchain := PutOnchain(store, w, g, address, confirmations, preimage, i.(rootKey := rootKey));
      accepts := accepts + [onchain];
    }
  }

  /** Verify, then record once; a failure leaves the store alone. */
  method SettleFull(store: Store, w: World, g: Gate, env: Env, pp: Payload, required: int)
    returns (r: Result<(Outcome, Response, bool), Reason>)
    modifies store
    ensures match Prepare(w, g, old(store.Rec()), env, pp, required)
            case Err(e) => r == Err(e) && store.Rec() == old(store.Rec())
            case Ok(o) =>
              && store.Rec() == Recorded(old(store.Rec()), o.key, o.response)
              && o.key in store.settlements
              && r == Ok((o, store.settlements[o.key], o.key in old(store.settlements)))
  {
    var prepared := Prepare(w, g, store.Rec(), env, pp, required);
    if prepared.Err? {
      return Err(prepared.error);
    }
    var o := prepared.value;
    var stored, already := store.Settle(o.key, o.response);
    r := Ok((o, stored, already));
  }

  /** The node's answer to a request for an invoice, and what is drawn at random and read off the clock with it. */
  datatype Fresh = Fresh(hash: Hash32, invoice: Bytes, issue: Issue)

  datatype Refusal = Unauthorized | PaymentRequired | Failed(reason: Reason)

  datatype Served =
    | Ran
    | AlreadySettled(response: Response)
    | TurnedAway(why: Refusal, offer: Option<(Requirements, Mac)>)

  /** A refusal comes with a new challenge at this price, except that a shallow deposit is to be presented again. */
  predicate Offers(why: Refusal, required: int, node: Option<Fresh>) {
    why != Failed(InsufficientConfs) && required > 0 && node.Some?
  }

  function Priced(f: Fresh, required: int): Issue { f.issue.(amount := required) }

  function AfterRefusal(w: World, g: Gate, rec: Records, why: Refusal, required: int, node: Option<Fresh>): Records {
    if !Offers(why, required, node) then rec
    else AddLightning(w, g, rec, node.value.hash, node.value.invoice, Priced(node.value, required))
  }

  function OfferOf(w: World, g: Gate, f: Fresh, required: int): (Requirements, Mac) {
    (LightningRecord(w, g, f.hash, f.invoice, Priced(f, required)).requirements,
     MacOf(w, g, f.hash, Priced(f, required)))
  }

  /** node is None when the node gives no invoice. */
  method Refuse(store: Store, w: World, g: Gate, why: Refusal, required: int, node: Option<Fresh>) returns (r: Served)
    modifies store
    ensures store.Rec() == AfterRefusal(w, g, old(store.Rec()), why, required, node)
    ensures var offer := if Offers(why, required, node) then Some(OfferOf(w, g, node.value, required)) else None;
            r == TurnedAway(why, offer)
    ensures why == Failed(InsufficientConfs) || required <= 0 || node.None? ==>
              store.Rec() == old(store.Rec()) && r == TurnedAway(why, None)
    ensures why != Failed(InsufficientConfs) && required > 0 && node.Some? ==>
              var f := node.value;
              && store.Rec() == AddLightning(w, g, old(store.Rec()), f.hash, f.invoice, f.issue.(amount := required))
              && r.offer.Some? && r.offer.value.0 == store.challenges[f.hash].requirements
              && r.offer.value.1 == MacOf(w, g, f.hash, f.issue.(amount := required))
  {
    if why == Failed(InsufficientConfs) || node.None? {
      return TurnedAway(why, None);
    }
    var f := node.value;
    var offer := BuildChallenge(store, w, g, f.hash, f.invoice, Priced(f, required));
    r := TurnedAway(why, offer);
  }

  /** The Authorization text is a well-formed credential of a paid customer of this gate, now. */
  predicate Presents(w: World, g: Gate, rec: Records, now: int, authorization: Bytes) {
    var a := Authorized(authorization);
    a.Credential? && Admits(w.crypto, rec.rootKeys, g.service, now, a.macs, a.preimageHex)
  }

  /** The account of the identifier in such a credential. */
  function PresentedAccount(w: World, g: Gate, rec: Records, now: int, authorization: Bytes): Bytes
    requires Presents(w, g, rec, now, authorization)
  {
    HexEncode(DecodeIdentifier(Authorized(authorization).macs[0].id).value.tokenId)
  }

  /** The gate's check of the header, as the code makes it. */
  lemma PresentsExactly(w: World, g: Gate, rec: Records, now: int, authorization: Bytes)
    ensures var a := Authorized(authorization);
            && (Presents(w, g, rec, now, authorization) <==>
                 a.Credential?
                 && AuthorizeToken(w.crypto, rec.rootKeys, g.service, now, a.macs, a.preimageHex).Ok?)
            && (Presents(w, g, rec, now, authorization) ==>
                 AuthorizeToken(w.crypto, rec.rootKeys, g.service, now, a.macs, a.preimageHex)
                   == Ok(PresentedAccount(w, g, rec, now, authorization)))
  {
    var a := Authorized(authorization);
    if a.Credential? {
      AuthorizedExactly(w.crypto, rec.rootKeys, g.service, now, a.macs, a.preimageHex);
    }
  }

  /** What a gate makes of a request: open by token, refused, or a proof that verifies. */
  datatype Verdict = Opened | Refusing(why: Refusal) | Proven(pp: Payload, outcome: Outcome)

  /** Without a token: no proof, an undecodable one, or one that was prepared. */
  function ProofVerdict(l402: bool, sig: Option<Option<Payload>>, prepared: Result<Outcome, Reason>): Verdict {
    match sig
    case None => Refusing(if l402 then Unauthorized else PaymentRequired)
    case Some(None) => Refusing(Failed(InvalidPayload))
    case Some(Some(pp)) => match prepared case Err(e) => Refusing(Failed(e)) case Ok(o) => Proven(pp, o)
  }

  /** What the proof in the header verifies to. */
  function Prepared(w: World, g: Gate, rec: Records, env: Env, sig: Option<Option<Payload>>, required: int)
    : Result<Outcome, Reason>
  {
    match sig case Some(Some(pp)) => Prepare(w, g, rec, env, pp, required) case _ => Err(InvalidPayload)
  }

  /** sig is the proof header, if any, and what it decodes to. */
  function VerdictOn(w: World, g: Gate, rec: Records, env: Env, authorization: Bytes, sig: Option<Option<Payload>>,
                     required: int): Verdict
  {
    if Presents(w, g, rec, env.now, authorization) then Opened
    else ProofVerdict(!Authorized(authorization).NotL402?, sig, Prepared(w, g, rec, env, sig, required))
  }

  lemma VerdictProven(l402: bool, sig: Option<Option<Payload>>, prepared: Result<Outcome, Reason>)
    ensures var v := ProofVerdict(l402, sig, prepared);
            v.Proven? ==> sig == Some(Some(v.pp)) && prepared == Ok(v.outcome)
  {
  }

  lemma VerdictHolds(w: World, g: Gate, rec: Records, env: Env, authorization: Bytes, sig: Option<Option<Payload>>,
                     required: int)
    ensures var v := VerdictOn(w, g, rec, env, authorization, sig, required);
            v.Proven? ==> sig == Some(Some(v.pp)) && Prepared(w, g, rec, env, sig, required) == Ok(v.outcome)
  {
    VerdictProven(!Authorized(authorization).NotL402?, sig, Prepared(w, g, rec, env, sig, required));
  }

  lemma PreparedProof(w: World, g: Gate, rec: Records, env: Env, pp: Payload, required: int)
    ensures Prepared(w, g, rec, env, Some(Some(pp)), required) == Prepare(w, g, rec, env, pp, required)
  {
  }

  /** What the request is answered. */
  function AnswerTo(w: World, g: Gate, rec: Records, v: Verdict, required: int, node: Option<Fresh>): Served {
    match v
    case Opened => Ran
    case Refusing(why) =>
      TurnedAway(why, if Offers(why, required, node) then Some(OfferOf(w, g, node.value, required)) else None)
    case Proven(_, o) => if o.key in rec.settlements then AlreadySettled(rec.settlements[o.key]) else Ran
  }

  /** What the request leaves in the store. */
  function RecordsAfter(w: World, g: Gate, rec: Records, v: Verdict, required: int, node: Option<Fresh>): Records {
    match v
    case Opened => rec
    case Refusing(why) => AfterRefusal(w, g, rec, why, required, node)
    case Proven(_, o) => Recorded(rec, o.key, o.response)
  }

  /** A request that no token opens. */
  method ServeProof(store: Store, w: World, g: Gate, env: Env, l402: bool, sig: Option<Option<Payload>>,
                    required: int, node: Option<Fresh>)
    returns (r: Served)
    modifies store
    ensures var rec := old(store.Rec());
            var v := ProofVerdict(l402, sig, Prepared(w, g, rec, env, sig, required));
            r == AnswerTo(w, g, rec, v, required, node) && store.Rec() == RecordsAfter(w, g, rec, v, required, node)
  {
    if sig.None? {
      r := Refuse(store, w, g, if l402 then Unauthorized else PaymentRequired, required, node);
      return;
    }
    if sig.value.None? {
      r := Refuse(store, w, g, Failed(InvalidPayload), required, node);
      return;
    }
    PreparedProof(w, g, store.Rec(), env, sig.value.value, required);
    var settled := SettleFull(store, w, g, env, sig.value.value, required);
    if settled.Err? {
      r := Refuse(store, w, g, Failed(settled.error), required, node);
      return;
    }
    var (o, response, already) := settled.value;
    r := if already then AlreadySettled(response) else Ran;
  }

  /**
   * A gated request. A valid token wins and consumes nothing; a proof is settled once and runs the handler only the
   * first time; everything else is refused, with a challenge.
   */
  method Serve(store: Store, w: World, g: Gate, env: Env, authorization: Bytes, sig: Option<Option<Payload>>,
               required: int, node: Option<Fresh>)
    returns (r: Served)
    modifies store
    ensures var rec := old(store.Rec());
            var v := VerdictOn(w, g, rec, env, authorization, sig, required);
            r == AnswerTo(w, g, rec, v, required, node) && store.Rec() == RecordsAfter(w, g, rec, v, required, node)
  {
    PresentsExactly(w, g, store.Rec(), env.now, authorization);
    var parsed := ParseAuthorization(authorization);
    if parsed.Credential? {
      var account := AuthorizeToken(w.crypto, store.rootKeys, g.service, env.now, parsed.macs, parsed.preimageHex);
      if account.Ok? {
        return Ran;
      }
    }
    r := ServeProof(store, w, g, env, !parsed.NotL402?, sig, required, node);
  }

  /** A top-up proof: settle, then grant under the settlement's reference. */
  method ServeTopup(store: Store, ledger: Ledger.Memory, w: World, g: Gate, env: Env, pp: Payload)
    returns (r: Result<(Outcome, Ledger.Answer), Reason>)
    requires ledger.Valid()
    modifies store, ledger
    ensures ledger.Valid()
    ensures match Prepare(w, g, old(store.Rec()), env, pp, 0)
            case Err(e) => r == Err(e) && store.Rec() == old(store.Rec()) && ledger.log == old(ledger.log)
            case Ok(o) =>
              var op := Ledger.GrantOp(o.account, o.amount, o.ref);
              && store.Rec() == Recorded(old(store.Rec()), o.key, o.response)
              && ledger.log == Ledger.Next(Ledger.ByText, old(ledger.log), op)
              && r == Ok((o, Ledger.Reply(Ledger.ByText, old(ledger.log), op)))
  {
    var settled := SettleFull(store, w, g, env, pp, 0);
    if settled.Err? {
      return Err(settled.error);
    }
    var (o, _, _) := settled.value;
    var answer := ledger.Grant(o.account, o.amount, o.ref);
    r := Ok((o, answer));
  }

  /** The account of the Authorization text, if it is a credential of a paid customer. */
  method CredentialAccount(store: Store, w: World, g: Gate, now: int, authorization: Bytes)
    returns (account: Option<Bytes>)
    ensures account.Some? <==> Presents(w, g, store.Rec(), now, authorization)
    ensures account.Some? ==> account.value == PresentedAccount(w, g, store.Rec(), now, authorization)
  {
    PresentsExactly(w, g, store.Rec(), now, authorization);
    var parsed := ParseAuthorization(authorization);
    if !parsed.Credential? {
      return None;
    }
    var r := AuthorizeToken(w.crypto, store.rootKeys, g.service, now, parsed.macs, parsed.preimageHex);
    account := if r.Ok? then Some(r.value) else None;
  }

  /** Charging a credential burns credits of the account its token id names, and only if the gate accepts it. */
  method ChargeCredential(store: Store, ledger: Ledger.Memory, w: World, g: Gate, now: int, authorization: Bytes,
                          amount: int, key: Bytes)
    returns (r: Option<Ledger.Answer>)
    requires ledger.Valid()
    modifies ledger
    ensures ledger.Valid()
    ensures r.Some? <==> Presents(w, g, store.Rec(), now, authorization)
    ensures r.None? ==> ledger.log == old(ledger.log)
    ensures r.Some? ==>
      var op := Ledger.ChargeOp(PresentedAccount(w, g, store.Rec(), now, authorization), amount, key);
      && ledger.log == Ledger.Next(Ledger.ByText, old(ledger.log), op)
      && r.value == Ledger.Reply(Ledger.ByText, old(ledger.log), op)
  {
    var account := CredentialAccount(store, w, g, now, authorization);
    if account.None? {
      return None;
    }
    var answer := ledger.Charge(account.value, amount, key);
    r := Some(answer);
  }

  // --- the handlers as steps of the gate's machine ---

  /** A gate in operation: store and ledger are the state that a run of the settlement machine reaches. */
  class Server {
    const w: World
    const g: Gate
    const store: Store
    const ledger: Ledger.Memory
    ghost var steps: seq<Settlement.Step>
    ghost var st: Settlement.State

    ghost predicate Valid()
      reads this, store, ledger
    {
      && Settlement.IsRun(w, g, Ledger.ByText, steps) && st == Settlement.After(w, g, Ledger.ByText, steps)
      && store.Rec() == st.rec && ledger.Valid() && ledger.log == st.log
    }

    constructor (w: World, g: Gate)
      ensures Valid() && st == Settlement.START && this.w == w && this.g == g && fresh(store) && fresh(ledger)
    {
      this.w, this.g := w, g;
      store := new Store();
      ledger := new Ledger.Memory();
      steps, st := [], Settlement.START;
    }

    ghost function Then(step: Settlement.Step): Settlement.State
      reads this
    {
      Settlement.Apply(w, g, Ledger.ByText, st, step)
    }

    ghost method Advance(step: Settlement.Step)
      requires Settlement.IsRun(w, g, Ledger.ByText, steps) && st == Settlement.After(w, g, Ledger.ByText, steps)
      requires Settlement.Enabled(w, g, st, step)
      modifies this
      ensures Settlement.IsRun(w, g, Ledger.ByText, steps) && st == Settlement.After(w, g, Ledger.ByText, steps)
      ensures st == old(Then(step)) && steps == old(steps) + [step]
    {
      Settlement.RunAdd(w, g, Ledger.ByText, steps, step);
      steps := steps + [step];
      st := Settlement.After(w, g, Ledger.ByText, steps);
    }

    /** A verified presentation is recorded. */
    ghost method AdvanceProof(env: Env, pp: Payload, required: int, o: Outcome)
      requires Settlement.IsRun(w, g, Ledger.ByText, steps) && st == Settlement.After(w, g, Ledger.ByText, steps)
      requires Settlement.Canonical(env) && Prepare(w, g, st.rec, env, pp, required) == Ok(o)
      modifies this
      ensures Settlement.IsRun(w, g, Ledger.ByText, steps) && st == Settlement.After(w, g, Ledger.ByText, steps)
      ensures st == AfterProof(w, g, old(st), env, pp, required, o)
      ensures Settlement.WasSettled(st.history, o)
      ensures st.rec == Recorded(old(st).rec, o.key, o.response) && st.log == old(st).log
    {
      Settlement.VerifyStep(w, g, Ledger.ByText, st, env, pp, required, o);
      Advance(Settlement.Verify(env, pp, required));
      Settlement.CommitStep(w, g, Ledger.ByText, st, o);
      Advance(Settlement.Commit(o));
    }

    /** A verified top-up is recorded and granted. */
    ghost method AdvanceTopup(env: Env, pp: Payload, o: Outcome)
      requires Settlement.IsRun(w, g, Ledger.ByText, steps) && st == Settlement.After(w, g, Ledger.ByText, steps)
      requires Settlement.Canonical(env) && Prepare(w, g, st.rec, env, pp, 0) == Ok(o)
      modifies this
      ensures Settlement.IsRun(w, g, Ledger.ByText, steps) && st == Settlement.After(w, g, Ledger.ByText, steps)
      ensures st == AfterTopup(w, g, old(st), env, pp, o)
      ensures st.rec == Recorded(old(st).rec, o.key, o.response)
      ensures st.log == Ledger.Next(Ledger.ByText, old(st).log, Settlement.GrantOpOf(o))
    {
      AdvanceProof(env, pp, 0, o);
      Advance(Settlement.Grant(o));
    }

    /** The steps that a verdict stands for. */
    ghost method AdvanceBy(env: Env, v: Verdict, required: int, node: Option<Fresh>)
      requires Settlement.IsRun(w, g, Ledger.ByText, steps) && st == Settlement.After(w, g, Ledger.ByText, steps)
      requires v.Proven? ==> Settlement.Canonical(env) && Prepare(w, g, st.rec, env, v.pp, required) == Ok(v.outcome)
      requires v.Refusing? && Offers(v.why, required, node) ==>
        Settlement.Enabled(w, g, st, IssueStep(node.value, required))
      modifies this
      ensures Settlement.IsRun(w, g, Ledger.ByText, steps) && st == Settlement.After(w, g, Ledger.ByText, steps)
      ensures st == StateAfter(w, g, old(st), env, v, required, node)
      ensures st.rec == RecordsAfter(w, g, old(st).rec, v, required, node) && st.log == old(st).log
    {
      match v {
        case Opened =>
        case Refusing(why) =>
          if Offers(why, required, node) {
            Advance(IssueStep(node.value, required));
          }
        case Proven(pp, o) => AdvanceProof(env, pp, required, o);
      }
    }

    /** One gated request is no step, an issued challenge, or a verification and its commit. */
    method Handle(env: Env, authorization: Bytes, sig: Option<Option<Payload>>, required: int, node: Option<Fresh>)
      returns (r: Served)
      requires Valid() && Settlement.Canonical(env)
      requires node.Some? && required > 0 ==> Settlement.Enabled(w, g, st, IssueStep(node.value, required))
      modifies this, store
      ensures Valid()
      ensures var v := VerdictOn(w, g, old(st).rec, env, authorization, sig, required);
              && r == AnswerTo(w, g, old(st).rec, v, required, node)
              && st == StateAfter(w, g, old(st), env, v, required, node)
    {
      ghost var v := VerdictOn(w, g, store.Rec(), env, authorization, sig, required);
      VerdictHolds(w, g, store.Rec(), env, authorization, sig, required);
      if v.Proven? {
        PreparedProof(w, g, store.Rec(), env, v.pp, required);
      }
      r := Serve(store, w, g, env, authorization, sig, required, node);
      AdvanceBy(env, v, required, node);
    }

    /** One top-up challenge is one issued entry or two. */
    method OfferTopup(f: Fresh, address: Bytes, oi: OnchainIssue) returns (accepts: seq<Requirements>, m: Mac)
      requires Valid() && Settlement.Enabled(w, g, st, IssueStep(f, f.issue.amount))
      requires oi.issue == f.issue.(rootKey := oi.issue.rootKey)
      requires g.onchain ==>
        Settlement.Enabled(w, g, Then(IssueStep(f, f.issue.amount)), Settlement.IssueOnchain(address, oi))
      modifies this, store
      ensures Valid()
      ensures var one := old(Then(IssueStep(f, f.issue.amount)));
              st == if g.onchain
                    then Settlement.Apply(w, g, Ledger.ByText, one, Settlement.IssueOnchain(address, oi)) else one
    {
      accepts, m := BuildTopupChallenge(store, w, g, f.hash, f.invoice, f.issue, address, oi.confirmations, oi.preimage,
                                        oi.issue.rootKey);
      Advance(IssueStep(f, f.issue.amount));
      if g.onchain {
        Advance(Settlement.IssueOnchain(address, oi));
      }
    }

    /** One top-up proof is no step, or a verification, its commit and its grant. */
    method HandleTopup(env: Env, pp: Payload) returns (r: Result<(Outcome, Ledger.Answer), Reason>)
      requires Valid() && Settlement.Canonical(env)
      modifies this, store, ledger
      ensures Valid()
      ensures match Prepare(w, g, old(st).rec, env, pp, 0)
              case Err(e) => r == Err(e) && st == old(st)
              case Ok(o) =>
                && r.Ok? && r.value.0 == o
                && st == AfterTopup(w, g, old(st), env, pp, o)
    {
      r := ServeTopup(store, ledger, w, g, env, pp);
      if r.Ok? {
        AdvanceTopup(env, pp, r.value.0);
      }
    }

    /** One charge is no step or a ledger operation. */
    method HandleCharge(now: int, authorization: Bytes, amount: int, key: Bytes) returns (r: Option<Ledger.Answer>)
      requires Valid()
      modifies this, ledger
      ensures Valid()
      ensures r.Some? <==> Presents(w, g, old(st).rec, now, authorization)
      ensures r.None? ==> st == old(st)
      ensures r.Some? ==>
        var op := Ledger.ChargeOp(PresentedAccount(w, g, old(st).rec, now, authorization), amount, key);
        st == old(Then(Settlement.Account(op))) && r.value == Ledger.Reply(Ledger.ByText, old(st).log, op)
    {
      r := ChargeCredential(store, ledger, w, g, now, authorization, amount, key);
      if r.Some? {
        var account := PresentedAccount(w, g, store.Rec(), now, authorization);
        Advance(Settlement.Account(Ledger.ChargeOp(account, amount, key)));
      }
    }

    method Revoke(key: Hash32)
      requires Valid()
      modifies this, store
      ensures Valid() && st == old(Then(Settlement.Revoke(key)))
    {
      store.DeleteRootKey(key);
      Advance(Settlement.Revoke(key));
    }
  }

  function IssueStep(f: Fresh, required: int): Settlement.Step {
    Settlement.IssueLightning(f.hash, LightningIssue(f.invoice, Priced(f, required)))
  }

  ghost function AfterProof(w: World, g: Gate, st: Settlement.State, env: Env, pp: Payload, required: int, o: Outcome)
    : Settlement.State
  {
    Settlement.Apply(w, g, Ledger.ByText,
                     Settlement.Apply(w, g, Ledger.ByText, st, Settlement.Verify(env, pp, required)),
                     Settlement.Commit(o))
  }

  /** No step, an issued challenge, or a verification and its commit. */
  ghost function StateAfter(w: World, g: Gate, st: Settlement.State, env: Env, v: Verdict, required: int,
                            node: Option<Fresh>): Settlement.State
  {
    match v
    case Opened => st
    case Refusing(why) =>
      if Offers(why, required, node)
      then Settlement.Apply(w, g, Ledger.ByText, st, IssueStep(node.value, required)) else st
    case Proven(pp, o) => AfterProof(w, g, st, env, pp, required, o)
  }

  ghost function AfterTopup(w: World, g: Gate, st: Settlement.State, env: Env, pp: Payload, o: Outcome)
    : Settlement.State
  {
    Settlement.Apply(w, g, Ledger.ByText, AfterProof(w, g, st, env, pp, 0, o), Settlement.Grant(o))
  }

  /** Whatever requests a gate has answered, a payment is credited nothing or its amount, and a key ran at most once. */
  lemma ServerKeeps(s: Server, p: Settlement.Payment, key: Hash32)
    requires s.Valid()
    ensures Settlement.CreditedFor(s.ledger.log, p) == 0
         || (Settlement.Known(s.st.iss, p)
             && Settlement.CreditedFor(s.ledger.log, p) == Settlement.IssueOf(s.st.iss, p).amount)
    ensures Settlement.Runs(s.st.history, key) == if key in s.store.settlements then 1 else 0
  {
    Settlement.CreditedNothingOrAmount(s.w, s.g, Ledger.ByText, s.steps, p);
    Settlement.RunKeeps(s.w, s.g, Ledger.ByText, s.steps);
  }
}
