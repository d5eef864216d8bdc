/**
 * Whole runs of a gate: challenges are issued, proofs are presented any number of times and in any interleaving,
 * a presentation may stop after any of its steps, and top-ups credit the ledger.
 */
module Settlement {
  import opened Base
  import opened Text
  import opened Encodings
  import opened Macaroons
  import opened Headers
  import opened Credentials
  import opened Seller
  import opened SellerRules
  import opened Registry
  import Caveats
  import Ledger

  datatype Event =
    | Verified(env: Env, pp: Payload, required: int, outcome: Outcome)
    | Settled(outcome: Outcome, response: Response, already: bool)
    | Granted(outcome: Outcome)

  datatype State = State(rec: Records, iss: Issued, log: Ledger.Log, history: seq<Event>)

  /** The steps of a presentation are Verify, Commit and, for a top-up, Grant; any later step may never come. */
  datatype Step =
    | IssueLightning(hash: Hash32, lightning: LightningIssue)
    | IssueOnchain(address: Bytes, deposit: OnchainIssue)
    | Verify(env: Env, pp: Payload, required: int)
    | Commit(outcome: Outcome)
    | Grant(outcome: Outcome)
    | Account(op: Ledger.Op)
    | Revoke(key: Hash32)

  /** The backend finds a transaction only under its lower-case id and never reports a negative amount. */
  ghost predicate Canonical(env: Env) {
    forall txid, address ::
      var d := env.deposit(txid, address);
      d.Some? && d.value.Found? ==>
        d.value.amount >= 0 && HexDecode(txid).Some? && HexEncode(HexDecode(txid).value) == txid
  }

  /** A reference no settlement of this gate uses. */
  predicate Foreign(ref: Bytes) { !HasPrefix(ref, "ln:") && !HasPrefix(ref, "onchain:") }

  ghost predicate WasVerified(history: seq<Event>, o: Outcome) { exists e <- history :: e.Verified? && e.outcome == o }

  ghost predicate WasSettled(history: seq<Event>, o: Outcome) { exists e <- history :: e.Settled? && e.outcome == o }

  /** Payment hashes, deposit addresses and root-key slots are fresh when they are issued. */
  ghost predicate Enabled(w: World, g: Gate, st: State, step: Step) {
    match step
    case IssueLightning(hash, li) =>
      && hash !in st.iss.lightning && StorageKey(w.crypto, IdOf(hash, li.issue)) !in st.iss.minted
      && Issuable(w, g, hash, li.issue)
    case IssueOnchain(address, oi) =>
      && address !in st.iss.onchain && StorageKey(w.crypto, IdOf(CredentialHash(w, oi), oi.issue)) !in st.iss.minted
      && Issuable(w, g, CredentialHash(w, oi), oi.issue)
    case Verify(env, _, _) => Canonical(env)
    case Commit(o) => WasVerified(st.history, o)
    case Grant(o) => WasSettled(st.history, o)
    case Account(op) => op.GrantOp? ==> Foreign(op.ref)
    case Revoke(_) => true
  }

  function Minted(w: World, iss: Issued, hash: Hash32, i: Issue): map<Hash32, Hash32> {
    iss.minted[StorageKey(w.crypto, IdOf(hash, i)) := i.rootKey]
  }

  function GrantOpOf(o: Outcome): Ledger.Op { Ledger.GrantOp(o.account, o.amount, o.ref) }

  function Apply(w: World, g: Gate, mode: Ledger.Keying, st: State, step: Step): State {
    match step
    case IssueLightning(hash, li) =>
      st.(rec := AddLightning(w, g, st.rec, hash, li.invoice, li.issue),
          iss := st.iss.(lightning := st.iss.lightning[hash := li], minted := Minted(w, st.iss, hash, li.issue)))
    case IssueOnchain(address, oi) =>
      st.(rec := AddOnchain(w, g, st.rec, address, oi.confirmations, oi.preimage, oi.issue),
          iss := st.iss.(onchain := st.iss.onchain[address := oi],
                         minted := Minted(w, st.iss, CredentialHash(w, oi), oi.issue)))
    case Verify(env, pp, required) => (
      match Prepare(w, g, st.rec, env, pp, required)
      case Err(_) => st
      case Ok(o) => st.(history := st.history + [Verified(env, pp, required, o)]))
    case Commit(o) =>
      var rec := Recorded(st.rec, o.key, o.response);
      st.(rec := rec, history := st.history + [Settled(o, rec.settlements[o.key], o.key in st.rec.settlements)])
    case Grant(o) =>
      st.(log := Ledger.Next(mode, st.log, GrantOpOf(o)), history := st.history + [Granted(o)])
    case Account(op) => st.(log := Ledger.Next(mode, st.log, op))
    case Revoke(key) => st.(rec := st.rec.(rootKeys := st.rec.rootKeys - {key}))
  }

  const START := State(Records(map[], map[], map[], map[]), Issued(map[], map[], map[]), [], [])

  function After(w: World, g: Gate, mode: Ledger.Keying, steps: seq<Step>): State {
    if steps == [] then START else Apply(w, g, mode, After(w, g, mode, steps[..|steps| - 1]), steps[|steps| - 1])
  }

  ghost predicate IsRun(w: World, g: Gate, mode: Ledger.Keying, steps: seq<Step>) {
    steps == [] || (IsRun(w, g, mode, steps[..|steps| - 1])
                    && Enabled(w, g, After(w, g, mode, steps[..|steps| - 1]), steps[|steps| - 1]))
  }

  // --- what every step keeps ---

  ghost predicate VerifiedKept(w: World, g: Gate, st: State) {
    forall e <- st.history :: e.Verified? ==>
      Facts(w, g, st.iss, e.env, e.pp, e.required, e.outcome) && Canonical(e.env)
  }

  /** Commits that recorded a first settlement of the key, and so ran the paid operation. */
  function Runs(history: seq<Event>, key: Hash32): nat {
    if history == [] then 0
    else
      var e := history[|history| - 1];
      Runs(history[..|history| - 1], key) + if e.Settled? && e.outcome.key == key && !e.already then 1 else 0
  }

  ghost predicate RunsKept(settlements: map<Hash32, Response>, history: seq<Event>) {
    forall key :: Runs(history, key) == if key in settlements then 1 else 0
  }

  ghost predicate ResponsesKept(settlements: map<Hash32, Response>, history: seq<Event>) {
    && (forall e <- history :: e.Settled? ==>
          e.outcome.key in settlements && e.response == settlements[e.outcome.key] && WasVerified(history, e.outcome))
    && (forall key <- settlements :: exists e <- history ::
          e.Verified? && e.outcome.key == key && e.outcome.response == settlements[key])
  }

  ghost predicate GrantsKept(log: Ledger.Log, history: seq<Event>) {
    && Ledger.Kept(log)
    && (forall e <- log :: e.Grant? ==>
          Foreign(e.ref) || FromVerified(history, e))
    && (forall e <- history :: e.Granted? ==>
          WasSettled(history, e.outcome) && Ledger.GrantOf(log, e.outcome.ref).Some?)
  }

  ghost predicate Inv(w: World, g: Gate, st: State) {
    && RecordsKept(w, g, st.rec, st.iss)
    && VerifiedKept(w, g, st)
    && RunsKept(st.rec.settlements, st.history)
    && ResponsesKept(st.rec.settlements, st.history)
    && GrantsKept(st.log, st.history)
  }

  /** Nothing issued is ever forgotten or changed. */
  ghost predicate Extends(a: Issued, b: Issued) {
    Within(a.lightning, b.lightning) && Within(a.onchain, b.onchain)
  }

  lemma FactsGrow(w: World, g: Gate, a: Issued, b: Issued, env: Env, pp: Payload, required: int, o: Outcome)
    requires Extends(a, b) && Facts(w, g, a, env, pp, required, o)
    ensures Facts(w, g, b, env, pp, required, o)
  {
    if o.rail.Lightning? {
      assert LightningFacts(w, g, a, env, pp, o) && b.lightning[o.key] == a.lightning[o.key];
    } else {
      assert OnchainFacts(w, g, a, env, pp, o) && b.onchain[pp.accepted.payTo] == a.onchain[pp.accepted.payTo];
    }
  }

  lemma VerifiedGrow(w: World, g: Gate, st: State, st': State)
    requires VerifiedKept(w, g, st) && Extends(st.iss, st'.iss) && st'.history == st.history
    ensures VerifiedKept(w, g, st')
  {
    forall e | e in st.history && e.Verified? ensures Facts(w, g, st'.iss, e.env, e.pp, e.required, e.outcome) {
      FactsGrow(w, g, st.iss, st'.iss, e.env, e.pp, e.required, e.outcome);
    }
  }

  lemma LightningApplied(w: World, g: Gate, mode: Ledger.Keying, st: State, hash: Hash32, li: LightningIssue)
    ensures var st' := Apply(w, g, mode, st, IssueLightning(hash, li));
            var key, root := LightningSlot(w)(hash, li), LightningSecret()(li);
            && st'.rec == st.rec.(challenges := st.rec.challenges[hash := LightningMaker(w, g)(hash, li)],
                                  rootKeys := st.rec.rootKeys[key := root])
            && st'.iss == Issued(st.iss.lightning[hash := li], st.iss.onchain, st.iss.minted[key := root])
  {
  }

  lemma IssueLightningKeeps(w: World, g: Gate, mode: Ledger.Keying, st: State, hash: Hash32, li: LightningIssue)
    requires RecordsKept(w, g, st.rec, st.iss) && hash !in st.iss.lightning
    requires LightningFine(w, g)(hash, li) && LightningSlot(w)(hash, li) !in st.iss.minted
    ensures var st' := Apply(w, g, mode, st, IssueLightning(hash, li));
            RecordsKept(w, g, st'.rec, st'.iss) && Extends(st.iss, st'.iss)
  {
    LightningApplied(w, g, mode, st, hash, li);
    WithinGrow(st.iss.lightning, hash, li);
    LightningIssues(w, g, st.rec, st.iss, hash, li, LightningMaker(w, g)(hash, li), LightningSlot(w)(hash, li));
  }

  lemma OnchainApplied(w: World, g: Gate, mode: Ledger.Keying, st: State, address: Bytes, oi: OnchainIssue)
    ensures var st' := Apply(w, g, mode, st, IssueOnchain(address, oi));
            var key, root := OnchainSlot(w)(address, oi), OnchainSecret()(oi);
            && st'.rec == st.rec.(onchain := st.rec.onchain[address := OnchainMaker(w, g)(address, oi)],
                                  rootKeys := st.rec.rootKeys[key := root])
            && st'.iss == Issued(st.iss.lightning, st.iss.onchain[address := oi], st.iss.minted[key := root])
  {
  }

  lemma IssueOnchainKeeps(w: World, g: Gate, mode: Ledger.Keying, st: State, address: Bytes, oi: OnchainIssue)
    requires RecordsKept(w, g, st.rec, st.iss) && address !in st.iss.onchain
    requires OnchainFine(w, g)(address, oi) && OnchainSlot(w)(address, oi) !in st.iss.minted
    ensures var st' := Apply(w, g, mode, st, IssueOnchain(address, oi));
            RecordsKept(w, g, st'.rec, st'.iss) && Extends(st.iss, st'.iss)
  {
    OnchainApplied(w, g, mode, st, address, oi);
    WithinGrow(st.iss.onchain, address, oi);
    OnchainIssues(w, g, st.rec, st.iss, address, oi, OnchainMaker(w, g)(address, oi), OnchainSlot(w)(address, oi));
  }

  lemma {:induction false} RunsAppend(history: seq<Event>, e: Event, key: Hash32)
    ensures Runs(history + [e], key) ==
              Runs(history, key) + if e.Settled? && e.outcome.key == key && !e.already then 1 else 0
  {
    assert (history + [e])[..|history|] == history;
  }

  lemma RunsUnchanged(settlements: map<Hash32, Response>, history: seq<Event>, e: Event)
    requires RunsKept(settlements, history) && !e.Settled?
    ensures RunsKept(settlements, history + [e])
  {
    forall key ensures Runs(history + [e], key) == Runs(history, key) { RunsAppend(history, e, key); }
  }

  lemma ResponsesUnchanged(settlements: map<Hash32, Response>, history: seq<Event>, e: Event)
    requires ResponsesKept(settlements, history) && !e.Settled?
    ensures ResponsesKept(settlements, history + [e])
  {
    forall d | d in history && d.Settled? ensures WasVerified(history + [e], d.outcome) {
      StillVerified(history, e, d.outcome);
    }
    forall key | key in settlements
      ensures exists d <- history + [e] :: d.Verified? && d.outcome.key == key && d.outcome.response == settlements[key]
    {
      var d :| d in history && d.Verified? && d.outcome.key == key && d.outcome.response == settlements[key];
      assert d in history + [e];
    }
  }

  lemma StillVerified(history: seq<Event>, e: Event, o: Outcome)
    requires WasVerified(history, o)
    ensures WasVerified(history + [e], o)
  {
    var d :| d in history && d.Verified? && d.outcome == o;
    assert d in history + [e];
  }

  lemma StillSettled(history: seq<Event>, e: Event, o: Outcome)
    requires WasSettled(history, o)
    ensures WasSettled(history + [e], o)
  {
    var d :| d in history && d.Settled? && d.outcome == o;
    assert d in history + [e];
  }

  lemma GrantsUnchanged(log: Ledger.Log, history: seq<Event>, e: Event)
    requires GrantsKept(log, history) && !e.Granted?
    ensures GrantsKept(log, history + [e])
  {
    forall x | x in log && x.Grant? && !Foreign(x.ref)
      ensures exists v <- history + [e] :: v.Verified? && Ledger.EntryOf(GrantOpOf(v.outcome)) == x
    {
      var v :| v in history && v.Verified? && Ledger.EntryOf(GrantOpOf(v.outcome)) == x;
      assert v in history + [e];
    }
    forall d | d in history && d.Granted? ensures WasSettled(history + [e], d.outcome) {
      StillSettled(history, e, d.outcome);
    }
  }

  lemma CommitKeeps(settlements: map<Hash32, Response>, history: seq<Event>, o: Outcome, after: map<Hash32, Response>,
                    e: Event)
    requires RunsKept(settlements, history) && ResponsesKept(settlements, history) && WasVerified(history, o)
    requires after == if o.key in settlements then settlements else settlements[o.key := o.response]
    requires e == Settled(o, after[o.key], o.key in settlements)
    ensures RunsKept(after, history + [e]) && ResponsesKept(after, history + [e])
  {
    forall key ensures Runs(history + [e], key) == if key in after then 1 else 0 { RunsAppend(history, e, key); }
    forall d | d in history + [e] && d.Settled?
      ensures d.outcome.key in after && d.response == after[d.outcome.key] && WasVerified(history + [e], d.outcome)
    {
      StillVerified(history, e, d.outcome);
    }
    forall key | key in after
      ensures exists d <- history + [e] :: d.Verified? && d.outcome.key == key && d.outcome.response == after[key]
    {
      if key in settlements {
        var d :| d in history && d.Verified? && d.outcome.key == key && d.outcome.response == settlements[key];
        assert d in history + [e];
      } else {
        var d :| d in history && d.Verified? && d.outcome == o;
        assert d in history + [e];
      }
    }
  }

  // --- references name payments ---

  /** What an outcome's reference, account and amount are, read off the challenge it settled. */
  ghost predicate Traced(w: World, iss: Issued, pp: Payload, o: Outcome) {
    && o.amount > 0
    && match o.rail
       case Lightning =>
         && o.key in iss.lightning && o.ref == LightningRef(o.key)
         && o.account == HexEncode(iss.lightning[o.key].issue.tokenId) && o.amount == iss.lightning[o.key].issue.amount
       case Onchain =>
         var a, txid := pp.accepted.payTo, TxidText(w, pp);
         && a in iss.onchain && o.ref == OnchainRef(txid, a) && o.key == OnchainKey(w, txid, a)
         && o.account == HexEncode(iss.onchain[a].issue.tokenId) && o.amount == iss.onchain[a].issue.amount
         && IsTxid(txid)
  }

  /** A lower-case 32-octet transaction id. */
  predicate IsTxid(txid: Bytes) {
    Hash32Of(txid).Some? && HexEncode(Hash32Of(txid).value) == txid
  }

  lemma CanonicalTxid(env: Env, txid: Bytes, address: Bytes, amount: int, confirmations: int)
    requires Canonical(env) && DepositMatches(env.deposit(txid, address), amount, confirmations) && Hash32Of(txid).Some?
    ensures amount > 0 && IsTxid(txid)
  {
    var d := env.deposit(txid, address);
    assert d.value.amount >= 0 && HexEncode(HexDecode(txid).value) == txid;
  }

  lemma FactsTraced(w: World, g: Gate, iss: Issued, env: Env, pp: Payload, required: int, o: Outcome)
    requires Facts(w, g, iss, env, pp, required, o) && Canonical(env)
    ensures Traced(w, iss, pp, o)
  {
    if o.rail.Onchain? {
      var a, txid := pp.accepted.payTo, TxidText(w, pp);
      assert OnchainFacts(w, g, iss, env, pp, o);
      CanonicalTxid(env, txid, a, iss.onchain[a].issue.amount, iss.onchain[a].confirmations);
    }
  }

  lemma RefShapes(hash: Hash32, txid: Bytes, address: Bytes)
    ensures LightningRef(hash)[..3] == "ln:" && OnchainRef(txid, address)[..8] == "onchain:"
    ensures LightningRef(hash) != OnchainRef(txid, address)
    ensures !Foreign(LightningRef(hash)) && !Foreign(OnchainRef(txid, address))
  {
    assert LightningRef(hash)[0] == 'l' && OnchainRef(txid, address)[0] == 'o';
  }

  lemma LightningRefInjective(a: Hash32, b: Hash32)
    requires LightningRef(a) == LightningRef(b)
    ensures a == b
  {
    assert HexEncode(a) == LightningRef(a)[3..] && HexEncode(b) == LightningRef(b)[3..];
    HexInjective(a, b);
  }

  lemma OnchainRefInjective(txid: Bytes, a: Bytes, txid': Bytes, a': Bytes)
    requires OnchainRef(txid, a) == OnchainRef(txid', a') && |txid| == |txid'|
    ensures txid == txid' && a == a'
  {
    var r := OnchainRef(txid, a);
    assert txid == r[8..8 + |txid|] && txid' == r[8..8 + |txid|];
    assert a == r[9 + |txid|..] && a' == r[9 + |txid|..];
  }

  /** One reference is one payment: the same account, amount and settlement key. */
  lemma SameRef(w: World, iss: Issued, pp: Payload, o: Outcome, pp': Payload, o': Outcome)
    requires Traced(w, iss, pp, o) && Traced(w, iss, pp', o') && o.ref == o'.ref
    ensures o.rail == o'.rail && o.account == o'.account && o.amount == o'.amount && o.key == o'.key
    ensures o.rail.Onchain? ==> pp.accepted.payTo == pp'.accepted.payTo
  {
    RefShapes(o.key, TxidText(w, pp), pp.accepted.payTo);
    RefShapes(o'.key, TxidText(w, pp'), pp'.accepted.payTo);
    RefShapes(o.key, TxidText(w, pp'), pp'.accepted.payTo);
    RefShapes(o'.key, TxidText(w, pp), pp.accepted.payTo);
    if o.rail.Lightning? && o'.rail.Lightning? {
      LightningRefInjective(o.key, o'.key);
    } else if o.rail.Onchain? && o'.rail.Onchain? {
      OnchainRefInjective(TxidText(w, pp), pp.accepted.payTo, TxidText(w, pp'), pp'.accepted.payTo);
    }
  }

  // --- the ledger steps ---

  ghost predicate FromVerified(history: seq<Event>, e: Ledger.Entry) {
    exists v <- history :: v.Verified? && Ledger.EntryOf(GrantOpOf(v.outcome)) == e
  }

  lemma EntriesAdd(log: Ledger.Log, history: seq<Event>, e: Ledger.Entry)
    requires forall x <- log :: x.Grant? ==> Foreign(x.ref) || FromVerified(history, x)
    requires e.Grant? ==> Foreign(e.ref) || FromVerified(history, e)
    ensures forall x <- log + [e] :: x.Grant? ==> Foreign(x.ref) || FromVerified(history, x)
  {
  }

  /** A ledger operation that is foreign or comes from a verified outcome. */
  lemma LedgerStepKeeps(mode: Ledger.Keying, log: Ledger.Log, history: seq<Event>, op: Ledger.Op)
    requires GrantsKept(log, history)
    requires op.GrantOp? ==> Foreign(op.ref) || FromVerified(history, Ledger.EntryOf(op))
    ensures GrantsKept(Ledger.Next(mode, log, op), history)
  {
    Ledger.StepKeeps(mode, log, op);
    if Ledger.Accepts(mode, log, op) {
      var e := Ledger.EntryOf(op);
      Ledger.Appended(log, e);
      EntriesAdd(log, history, e);
    }
  }

  lemma GrantTakes(mode: Ledger.Keying, log: Ledger.Log, op: Ledger.Op)
    requires op.GrantOp? && op.amount > 0 && op.ref != []
    ensures Ledger.GrantOf(Ledger.Next(mode, log, op), op.ref).Some?
  {
    if Ledger.Accepts(mode, log, op) {
      Ledger.Appended(log, Ledger.EntryOf(op));
    }
  }

  lemma GrantKeeps(mode: Ledger.Keying, log: Ledger.Log, history: seq<Event>, o: Outcome)
    requires GrantsKept(log, history) && WasSettled(history, o) && WasVerified(history, o)
    requires o.amount > 0 && o.ref != []
    ensures GrantsKept(Ledger.Next(mode, log, GrantOpOf(o)), history + [Granted(o)])
  {
    var op, e := GrantOpOf(o), Granted(o);
    var log' := Ledger.Next(mode, log, op);
    assert FromVerified(history, Ledger.EntryOf(op));
    LedgerStepKeeps(mode, log, history, op);
    GrantTakes(mode, log, op);
    forall x | x in log' && x.Grant? && !Foreign(x.ref) ensures FromVerified(history + [e], x) {
      var v :| v in history && v.Verified? && Ledger.EntryOf(GrantOpOf(v.outcome)) == x;
      assert v in history + [e];
    }
    forall d | d in history + [e] && d.Granted?
      ensures WasSettled(history + [e], d.outcome) && Ledger.GrantOf(log', d.outcome.ref).Some?
    {
      StillSettled(history, e, d.outcome);
    }
  }

  // --- the invariant over every run ---

  lemma VerifiedAdd(w: World, g: Gate, st: State, e: Event)
    requires VerifiedKept(w, g, st) && e.Verified? && Canonical(e.env)
    requires Facts(w, g, st.iss, e.env, e.pp, e.required, e.outcome)
    ensures VerifiedKept(w, g, st.(history := st.history + [e]))
  {
  }

  lemma AddVerified(w: World, g: Gate, st: State, e: Event)
    requires Inv(w, g, st) && e.Verified? && Canonical(e.env)
    requires Facts(w, g, st.iss, e.env, e.pp, e.required, e.outcome)
    ensures Inv(w, g, st.(history := st.history + [e]))
  {
    VerifiedAdd(w, g, st, e);
    RunsUnchanged(st.rec.settlements, st.history, e);
    ResponsesUnchanged(st.rec.settlements, st.history, e);
    GrantsUnchanged(st.log, st.history, e);
  }

  lemma VerifyKeeps(w: World, g: Gate, st: State, env: Env, pp: Payload, required: int, o: Outcome)
    requires Inv(w, g, st) && Canonical(env) && Prepare(w, g, st.rec, env, pp, required) == Ok(o)
    ensures Inv(w, g, st.(history := st.history + [Verified(env, pp, required, o)]))
  {
    PreparedSound(w, g, st.rec, st.iss, env, pp, required, o);
    AddVerified(w, g, st, Verified(env, pp, required, o));
  }

  lemma SettleVerified(w: World, g: Gate, st: State, e: Event, st': State)
    requires VerifiedKept(w, g, st) && !e.Verified? && st'.iss == st.iss && st'.history == st.history + [e]
    ensures VerifiedKept(w, g, st')
  {
  }

  lemma SettleRecords(w: World, g: Gate, rec: Records, iss: Issued, key: Hash32, response: Response)
    requires RecordsKept(w, g, rec, iss)
    ensures RecordsKept(w, g, Recorded(rec, key, response), iss)
  {
  }

  lemma SettleKeeps(w: World, g: Gate, st: State, o: Outcome, rec: Records, e: Event)
    requires Inv(w, g, st) && WasVerified(st.history, o) && rec == Recorded(st.rec, o.key, o.response)
    requires e == Settled(o, rec.settlements[o.key], o.key in st.rec.settlements)
    ensures Inv(w, g, st.(rec := rec, history := st.history + [e]))
  {
    SettleRecords(w, g, st.rec, st.iss, o.key, o.response);
    SettleVerified(w, g, st, e, st.(rec := rec, history := st.history + [e]));
    CommitKeeps(st.rec.settlements, st.history, o, rec.settlements, e);
    GrantsUnchanged(st.log, st.history, e);
  }

  lemma OutcomeTraced(w: World, g: Gate, st: State, o: Outcome) returns (pp: Payload)
    requires VerifiedKept(w, g, st) && WasVerified(st.history, o)
    ensures Traced(w, st.iss, pp, o)
    ensures exists e <- st.history :: e.Verified? && e.outcome == o && e.pp == pp
  {
    var e :| e in st.history && e.Verified? && e.outcome == o;
    pp := e.pp;
    FactsTraced(w, g, st.iss, e.env, pp, e.required, o);
  }

  lemma TracedRef(w: World, iss: Issued, pp: Payload, o: Outcome)
    requires Traced(w, iss, pp, o)
    ensures !Foreign(o.ref) && o.ref != []
  {
    RefShapes(o.key, TxidText(w, pp), pp.accepted.payTo);
  }

  lemma SettledWasVerified(settlements: map<Hash32, Response>, history: seq<Event>, o: Outcome)
    requires ResponsesKept(settlements, history) && WasSettled(history, o)
    ensures WasVerified(history, o)
  {
    var e :| e in history && e.Settled? && e.outcome == o;
  }

  lemma CreditKeeps(w: World, g: Gate, mode: Ledger.Keying, st: State, o: Outcome)
    requires Inv(w, g, st) && WasSettled(st.history, o)
    ensures Inv(w, g, st.(log := Ledger.Next(mode, st.log, GrantOpOf(o)), history := st.history + [Granted(o)]))
  {
    SettledWasVerified(st.rec.settlements, st.history, o);
    var pp := OutcomeTraced(w, g, st, o);
    TracedRef(w, st.iss, pp, o);
    GrantKeeps(mode, st.log, st.history, o);
    RunsUnchanged(st.rec.settlements, st.history, Granted(o));
    ResponsesUnchanged(st.rec.settlements, st.history, Granted(o));
  }

  lemma IssueKeeps(w: World, g: Gate, st: State, st': State)
    requires Inv(w, g, st) && RecordsKept(w, g, st'.rec, st'.iss) && Extends(st.iss, st'.iss)
    requires st'.rec.settlements == st.rec.settlements && st'.log == st.log && st'.history == st.history
    ensures Inv(w, g, st')
  {
    VerifiedGrow(w, g, st, st');
  }

  lemma RevokeKeeps(w: World, g: Gate, st: State, key: Hash32)
    requires Inv(w, g, st)
    ensures Inv(w, g, st.(rec := st.rec.(rootKeys := st.rec.rootKeys - {key})))
  {
    WithinRemove(st.rec.rootKeys, st.iss.minted, key);
  }

  lemma IssuesFresh(w: World, g: Gate, st: State, step: Step)
    requires Enabled(w, g, st, step)
    ensures step.IssueLightning? ==> LightningFine(w, g)(step.hash, step.lightning)
                                     && LightningSlot(w)(step.hash, step.lightning) !in st.iss.minted
    ensures step.IssueOnchain? ==> OnchainFine(w, g)(step.address, step.deposit)
                                   && OnchainSlot(w)(step.address, step.deposit) !in st.iss.minted
  {
  }

  lemma StepKeeps(w: World, g: Gate, mode: Ledger.Keying, st: State, step: Step)
    requires Inv(w, g, st) && Enabled(w, g, st, step)
    ensures Inv(w, g, Apply(w, g, mode, st, step))
  {
    match step {
      case IssueLightning(hash, li) =>
        IssuesFresh(w, g, st, step);
        IssueLightningKeeps(w, g, mode, st, hash, li);
        IssueKeeps(w, g, st, Apply(w, g, mode, st, step));
      case IssueOnchain(address, oi) =>
        IssuesFresh(w, g, st, step);
        IssueOnchainKeeps(w, g, mode, st, address, oi);
        IssueKeeps(w, g, st, Apply(w, g, mode, st, step));
      case Verify(env, pp, required) =>
        if Prepare(w, g, st.rec, env, pp, required).Ok? {
          VerifyKeeps(w, g, st, env, pp, required, Prepare(w, g, st.rec, env, pp, required).value);
        }
      case Commit(o) =>
        var rec := Recorded(st.rec, o.key, o.response);
        SettleKeeps(w, g, st, o, rec, Settled(o, rec.settlements[o.key], o.key in st.rec.settlements));
      case Grant(o) => CreditKeeps(w, g, mode, st, o);
      case Account(op) => LedgerStepKeeps(mode, st.log, st.history, op);
      case Revoke(key) => RevokeKeeps(w, g, st, key);
    }
  }

  lemma {:induction false} RunKeeps(w: World, g: Gate, mode: Ledger.Keying, steps: seq<Step>)
    requires IsRun(w, g, mode, steps)
    ensures Inv(w, g, After(w, g, mode, steps))
  {
    if steps != [] {
      var init := steps[..|steps| - 1];
      RunKeeps(w, g, mode, init);
      StepKeeps(w, g, mode, After(w, g, mode, init), steps[|steps| - 1]);
    }
  }

  // --- settlements ---

  /** In every run a key's paid operation runs at most once, exactly once if the key was ever settled. */
  lemma SettledOnce(w: World, g: Gate, mode: Ledger.Keying, steps: seq<Step>, key: Hash32)
    requires IsRun(w, g, mode, steps)
    ensures var st := After(w, g, mode, steps);
            && Runs(st.history, key) <= 1
            && (Runs(st.history, key) == 1 <==> exists e <- st.history :: e.Settled? && e.outcome.key == key)
  {
    RunKeeps(w, g, mode, steps);
    var st := After(w, g, mode, steps);
    RunsWitness(st.history, key);
  }

  lemma {:induction false} RunsWitness(history: seq<Event>, key: Hash32)
    ensures Runs(history, key) > 0 ==> exists e <- history :: e.Settled? && e.outcome.key == key
  {
    if history != [] {
      var init, e := history[..|history| - 1], history[|history| - 1];
      RunsWitness(init, key);
      assert e in history && forall d <- init :: d in history;
    }
  }

  /** In every run all successes of a key carry one response. */
  lemma SameResponse(w: World, g: Gate, mode: Ledger.Keying, steps: seq<Step>, a: Event, b: Event)
    requires IsRun(w, g, mode, steps)
    requires a in After(w, g, mode, steps).history && b in After(w, g, mode, steps).history
    requires a.Settled? && b.Settled? && a.outcome.key == b.outcome.key
    ensures a.response == b.response
  {
    RunKeeps(w, g, mode, steps);
  }

  /** Every settlement in a run was verified by every rule against a challenge this gate issued. */
  lemma SettledWasPaid(w: World, g: Gate, mode: Ledger.Keying, steps: seq<Step>, e: Event) returns (v: Event)
    requires IsRun(w, g, mode, steps) && e in After(w, g, mode, steps).history && e.Settled?
    ensures v in After(w, g, mode, steps).history && v.Verified? && v.outcome == e.outcome
    ensures Facts(w, g, After(w, g, mode, steps).iss, v.env, v.pp, v.required, v.outcome)
  {
    RunKeeps(w, g, mode, steps);
    var st := After(w, g, mode, steps);
    assert WasVerified(st.history, e.outcome);
    v :| v in st.history && v.Verified? && v.outcome == e.outcome;
  }

  /** Only a commit changes what is settled: a failed presentation, a revocation or a credit does not. */
  lemma OnlyCommitsSettle(w: World, g: Gate, mode: Ledger.Keying, st: State, step: Step)
    ensures !step.Commit? ==> Apply(w, g, mode, st, step).rec.settlements == st.rec.settlements
    ensures step.Verify? && Prepare(w, g, st.rec, step.env, step.pp, step.required).Err?
            ==> Apply(w, g, mode, st, step) == st
  {
  }

  /** The first commit of a key among the steps. */
  function FirstCommit(steps: seq<Step>, key: Hash32): Option<Outcome> {
    if steps == [] then None
    else
      var before, last := FirstCommit(steps[..|steps| - 1], key), steps[|steps| - 1];
      if before.None? && last.Commit? && last.outcome.key == key then Some(last.outcome) else before
  }

  /** After any steps a key is settled exactly when one of them committed it, with the first such response. */
  lemma {:induction false} FirstCommitSettles(w: World, g: Gate, mode: Ledger.Keying, steps: seq<Step>, key: Hash32)
    ensures var settlements := After(w, g, mode, steps).rec.settlements;
            && (key in settlements <==> FirstCommit(steps, key).Some?)
            && (key in settlements ==> settlements[key] == FirstCommit(steps, key).value.response)
  {
    if steps != [] {
      var init := steps[..|steps| - 1];
      FirstCommitSettles(w, g, mode, init, key);
      OnlyCommitsSettle(w, g, mode, After(w, g, mode, init), steps[|steps| - 1]);
    }
  }

  // --- credits ---

  /** A payment a top-up can be funded with: a lightning hash, or a transaction to a deposit address. */
  datatype Payment = ByHash(hash: Hash32) | ByDeposit(tx: Hash32, address: Bytes)

  predicate Known(iss: Issued, p: Payment) {
    match p case ByHash(hash) => hash in iss.lightning case ByDeposit(_, address) => address in iss.onchain
  }

  function IssueOf(iss: Issued, p: Payment): Issue
    requires Known(iss, p)
  {
    match p case ByHash(hash) => iss.lightning[hash].issue case ByDeposit(_, address) => iss.onchain[address].issue
  }

  /** The ledger reference funds p, in whatever case its transaction id is spelled. */
  ghost predicate FundedBy(ref: Bytes, p: Payment) {
    match p
    case ByHash(hash) => ref == LightningRef(hash)
    case ByDeposit(tx, address) => exists txid :: ref == OnchainRef(txid, address) && HexDecode(txid) == Some(tx)
  }

  /** The one reference that p is credited under. */
  function RefOf(p: Payment): Bytes {
    match p case ByHash(hash) => LightningRef(hash) case ByDeposit(tx, address) => OnchainRef(HexEncode(tx), address)
  }

  ghost function CreditedFor(log: Ledger.Log, p: Payment): int {
    if log == [] then 0
    else
      var e := log[|log| - 1];
      CreditedFor(log[..|log| - 1], p) + if e.Grant? && FundedBy(e.ref, p) then e.amount else 0
  }

  lemma RefFunds(p: Payment)
    ensures FundedBy(RefOf(p), p) && !Foreign(RefOf(p))
  {
    match p {
      case ByHash(hash) => RefShapes(hash, [], []);
      case ByDeposit(tx, address) =>
        HexRoundTrip(tx);
        RefShapes(tx, HexEncode(tx), address);
    }
  }

  /** An outcome that funds p is credited under p's one reference, with the amount and account of p's challenge. */
  lemma FundsExactly(w: World, iss: Issued, pp: Payload, o: Outcome, p: Payment)
    requires Traced(w, iss, pp, o) && FundedBy(o.ref, p)
    ensures o.ref == RefOf(p) && Known(iss, p)
    ensures o.amount == IssueOf(iss, p).amount && o.account == HexEncode(IssueOf(iss, p).tokenId)
  {
    var a, txid := pp.accepted.payTo, TxidText(w, pp);
    match p {
      case ByHash(hash) =>
        RefShapes(hash, txid, a);
        LightningRefInjective(hash, o.key);
      case ByDeposit(tx, address) =>
        var other :| o.ref == OnchainRef(other, address) && HexDecode(other) == Some(tx);
        RefShapes(o.key, other, address);
        OnchainRefInjective(txid, a, other, address);
    }
  }

  lemma {:induction false} CreditedUnderOneRef(log: Ledger.Log, p: Payment)
    requires forall e <- log :: e.Grant? && FundedBy(e.ref, p) ==> e.ref == RefOf(p)
    ensures CreditedFor(log, p) == Ledger.Credited(log, RefOf(p))
  {
    RefFunds(p);
    if log != [] {
      var init, e := log[..|log| - 1], log[|log| - 1];
      assert e in log && forall x <- init :: x in log;
      CreditedUnderOneRef(init, p);
    }
  }

  /** A ledger entry that funds p carries the account and the amount of p's challenge. */
  ghost predicate CreditOf(iss: Issued, e: Ledger.Entry, p: Payment) {
    && e.Grant? && e.ref == RefOf(p) && Known(iss, p)
    && e.account == HexEncode(IssueOf(iss, p).tokenId) && e.amount == IssueOf(iss, p).amount
  }

  lemma EntryCredits(w: World, g: Gate, st: State, e: Ledger.Entry, p: Payment)
    requires Inv(w, g, st) && e in st.log && e.Grant? && FundedBy(e.ref, p)
    ensures CreditOf(st.iss, e, p)
  {
    assert !Foreign(e.ref) by { FundedNotForeign(e.ref, p); }
    var v :| v in st.history && v.Verified? && Ledger.EntryOf(GrantOpOf(v.outcome)) == e;
    FactsTraced(w, g, st.iss, v.env, v.pp, v.required, v.outcome);
    FundsExactly(w, st.iss, v.pp, v.outcome, p);
  }

  lemma FundedNotForeign(ref: Bytes, p: Payment)
    requires FundedBy(ref, p)
    ensures !Foreign(ref)
  {
    match p {
      case ByHash(hash) => RefShapes(hash, [], []);
      case ByDeposit(tx, address) =>
        var txid :| ref == OnchainRef(txid, address) && HexDecode(txid) == Some(tx);
        RefShapes(tx, txid, address);
    }
  }

  lemma {:induction false} GrantOfIsEntry(log: Ledger.Log, ref: Bytes)
    ensures Ledger.GrantOf(log, ref).Some? ==>
      && Ledger.GrantOf(log, ref).value in log && Ledger.GrantOf(log, ref).value.Grant?
      && Ledger.GrantOf(log, ref).value.ref == ref
  {
    if log != [] {
      GrantOfIsEntry(log[..|log| - 1], ref);
    }
  }

  lemma CreditsOf(w: World, g: Gate, st: State, p: Payment)
    requires Inv(w, g, st)
    ensures forall e <- st.log :: e.Grant? && FundedBy(e.ref, p) ==> CreditOf(st.iss, e, p)
    ensures match Ledger.GrantOf(st.log, RefOf(p))
            case None => CreditedFor(st.log, p) == 0
            case Some(e) => CreditOf(st.iss, e, p) && CreditedFor(st.log, p) == e.amount
  {
    forall e | e in st.log && e.Grant? && FundedBy(e.ref, p) ensures CreditOf(st.iss, e, p) {
      EntryCredits(w, g, st, e, p);
    }
    CreditedUnderOneRef(st.log, p);
    Ledger.CreditedOnce(st.log, RefOf(p));
    GrantOfIsEntry(st.log, RefOf(p));
    RefFunds(p);
  }

  /** In every run a payment is credited nothing or exactly its challenge's amount, only to its challenge's account. */
  lemma CreditedNothingOrAmount(w: World, g: Gate, mode: Ledger.Keying, steps: seq<Step>, p: Payment)
    requires IsRun(w, g, mode, steps)
    ensures var st := After(w, g, mode, steps);
            && (forall e <- st.log :: e.Grant? && FundedBy(e.ref, p) ==> CreditOf(st.iss, e, p))
            && (CreditedFor(st.log, p) == 0
                || (Known(st.iss, p) && CreditedFor(st.log, p) == IssueOf(st.iss, p).amount))
  {
    RunKeeps(w, g, mode, steps);
    CreditsOf(w, g, After(w, g, mode, steps), p);
  }

  lemma PaymentOf(w: World, iss: Issued, pp: Payload, o: Outcome) returns (p: Payment)
    requires Traced(w, iss, pp, o)
    ensures RefOf(p) == o.ref && FundedBy(o.ref, p) && Known(iss, p)
    ensures o.amount == IssueOf(iss, p).amount && o.account == HexEncode(IssueOf(iss, p).tokenId)
  {
    p := if o.rail.Lightning? then ByHash(o.key) else ByDeposit(Hash32Of(TxidText(w, pp)).value, pp.accepted.payTo);
    RefFunds(p);
  }

  lemma CompletedIn(w: World, g: Gate, st: State, o: Outcome) returns (p: Payment)
    requires Inv(w, g, st) && Granted(o) in st.history
    ensures RefOf(p) == o.ref && FundedBy(o.ref, p) && Known(st.iss, p) && o.amount > 0
    ensures CreditedFor(st.log, p) == o.amount == IssueOf(st.iss, p).amount
    ensures Ledger.GrantOf(st.log, o.ref) == Some(Ledger.Grant(o.account, o.amount, o.ref))
  {
    SettledWasVerified(st.rec.settlements, st.history, o);
    var pp := OutcomeTraced(w, g, st, o);
    p := PaymentOf(w, st.iss, pp, o);
    CreditsOf(w, g, st, p);
  }

  /** In every run a presentation that got as far as its grant leaves its payment credited exactly once. */
  lemma CompletedIsCredited(w: World, g: Gate, mode: Ledger.Keying, steps: seq<Step>, o: Outcome) returns (p: Payment)
    requires IsRun(w, g, mode, steps) && Granted(o) in After(w, g, mode, steps).history
    ensures var st := After(w, g, mode, steps);
            && FundedBy(o.ref, p) && Known(st.iss, p) && o.amount > 0
            && CreditedFor(st.log, p) == o.amount == IssueOf(st.iss, p).amount
            && Ledger.GrantOf(st.log, o.ref) == Some(Ledger.Grant(o.account, o.amount, o.ref))
  {
    RunKeeps(w, g, mode, steps);
    p := CompletedIn(w, g, After(w, g, mode, steps), o);
  }

  // --- credentials ---

  /** No two payments of the run share a settlement key: their hashes do not collide. */
  ghost predicate KeysSeparate(history: seq<Event>) {
    forall a, b :: a in history && b in history && a.Verified? && b.Verified? && a.outcome.key == b.outcome.key
                   ==> a.outcome.ref == b.outcome.ref
  }

  /** The text is a credential of the account: accepted exactly before until as long as its root key is stored. */
  ghost predicate Opens(w: World, g: Gate, rootKeys: map<Hash32, Hash32>, d: Delivered, account: Bytes) {
    var a := Authorized(d.authorization);
    && a.Credential? && |a.macs| == 1 && DecodeIdentifier(a.macs[0].id).Ok?
    && var key := StorageKey(w.crypto, DecodeIdentifier(a.macs[0].id).value);
       forall t :: var r := AuthorizeToken(w.crypto, rootKeys, g.service, t, a.macs, a.preimageHex);
                   && (r.Ok? <==> key in rootKeys && t < Caveats.Seconds(d.validUntil))
                   && (r.Ok? ==> r.value == account)
  }

  lemma MintedOpens(w: World, g: Gate, rootKeys: map<Hash32, Hash32>, minted: map<Hash32, Hash32>, hash: Hash32,
                    i: Issue, preimageHex: Bytes)
    requires Grammatical(g.service.name) && Issuable(w, g, hash, i) && PreimageOf(w.crypto, preimageHex, hash)
    requires Within(rootKeys, minted) && RootKeyMinted(w, hash, i, minted)
    ensures var d := DeliveredFor(MacB64(MacOf(w, g, hash, i)), preimageHex, g.service.name);
            d.Some? && Opens(w, g, rootKeys, d.value, HexEncode(i.tokenId))
  {
    var m, id := MacOf(w, g, hash, i), IdOf(hash, i);
    var key := StorageKey(w.crypto, id);
    DeliveryParses(w.crypto, i.rootKey, g.service, id, i.now, preimageHex);
    IdentifierRoundTrip(id, []);
    var d := DeliveredFor(MacB64(m), preimageHex, g.service.name).value;
    forall t ensures var r := AuthorizeToken(w.crypto, rootKeys, g.service, t, [m], preimageHex);
                     && (r.Ok? <==> key in rootKeys && t < Caveats.Seconds(d.validUntil))
                     && (r.Ok? ==> r.value == HexEncode(i.tokenId))
    {
      if key in rootKeys {
        assert rootKeys[key] == i.rootKey;
        MintedAuthorizes(w.crypto, rootKeys, g.service, id, i.now, preimageHex, t);
      }
    }
  }

  lemma LightningOpens(w: World, g: Gate, rec: Records, iss: Issued, env: Env, pp: Payload, o: Outcome)
    requires Grammatical(g.service.name) && RecordsKept(w, g, rec, iss) && LightningFacts(w, g, iss, env, pp, o)
    ensures o.response.delivered.Some? && Opens(w, g, rec.rootKeys, o.response.delivered.value, o.account)
  {
    LightningAt(w, g, rec, iss, o.key);
    MintedOpens(w, g, rec.rootKeys, iss.minted, o.key, iss.lightning[o.key].issue, PreimageText(w, pp));
  }

  lemma OnchainOpens(w: World, g: Gate, rec: Records, iss: Issued, env: Env, pp: Payload, o: Outcome)
    requires Grammatical(g.service.name) && RecordsKept(w, g, rec, iss) && OnchainFacts(w, g, iss, env, pp, o)
    ensures o.response.delivered.Some? && Opens(w, g, rec.rootKeys, o.response.delivered.value, o.account)
  {
    var a := pp.accepted.payTo;
    OnchainAt(w, g, rec, iss, a);
    HexRoundTrip(iss.onchain[a].preimage);
    MintedOpens(w, g, rec.rootKeys, iss.minted, CredentialHash(w, iss.onchain[a]), iss.onchain[a].issue,
                HexEncode(iss.onchain[a].preimage));
  }

  lemma VerifiedOpens(w: World, g: Gate, st: State, v: Event)
    requires Grammatical(g.service.name) && Inv(w, g, st) && v in st.history && v.Verified?
    ensures v.outcome.response.delivered.Some?
    ensures Opens(w, g, st.rec.rootKeys, v.outcome.response.delivered.value, v.outcome.account)
  {
    assert Facts(w, g, st.iss, v.env, v.pp, v.required, v.outcome);
    if v.outcome.rail.Lightning? {
      LightningOpens(w, g, st.rec, st.iss, v.env, v.pp, v.outcome);
    } else {
      OnchainOpens(w, g, st.rec, st.iss, v.env, v.pp, v.outcome);
    }
  }

  lemma SameAccount(w: World, g: Gate, st: State, a: Event, b: Event)
    requires VerifiedKept(w, g, st) && a in st.history && b in st.history && a.Verified? && b.Verified?
    requires a.outcome.ref == b.outcome.ref
    ensures a.outcome.account == b.outcome.account
  {
    FactsTraced(w, g, st.iss, a.env, a.pp, a.required, a.outcome);
    FactsTraced(w, g, st.iss, b.env, b.pp, b.required, b.outcome);
    SameRef(w, st.iss, a.pp, a.outcome, b.pp, b.outcome);
  }

  lemma SettledOpens(w: World, g: Gate, st: State, e: Event)
    requires Grammatical(g.service.name) && Inv(w, g, st) && KeysSeparate(st.history) && e in st.history && e.Settled?
    ensures e.response.delivered.Some? && Opens(w, g, st.rec.rootKeys, e.response.delivered.value, e.outcome.account)
  {
    var key := e.outcome.key;
    var first :| first in st.history && first.Verified? && first.outcome.key == key
        && first.outcome.response == st.rec.settlements[key];
    assert WasVerified(st.history, e.outcome);
    var own :| own in st.history && own.Verified? && own.outcome == e.outcome;
    VerifiedOpens(w, g, st, first);
    SameAccount(w, g, st, first, own);
  }

  /**
   * In every run the credential delivered by any settlement, first or repeated, on either rail, parses back and is
   * accepted exactly before its reported expiry while its root key is stored, for the account the settlement reported.
   */
  lemma DeliveredCredentialOpens(w: World, g: Gate, mode: Ledger.Keying, steps: seq<Step>, e: Event)
    requires IsRun(w, g, mode, steps) && Grammatical(g.service.name)
    requires KeysSeparate(After(w, g, mode, steps).history)
    requires e in After(w, g, mode, steps).history && e.Settled?
    ensures e.response.delivered.Some?
    ensures Opens(w, g, After(w, g, mode, steps).rec.rootKeys, e.response.delivered.value, e.outcome.account)
  {
    RunKeeps(w, g, mode, steps);
    SettledOpens(w, g, After(w, g, mode, steps), e);
  }

  // --- an honest top-up goes all the way ---

  lemma RunAdd(w: World, g: Gate, mode: Ledger.Keying, steps: seq<Step>, step: Step)
    requires IsRun(w, g, mode, steps) && Enabled(w, g, After(w, g, mode, steps), step)
    ensures IsRun(w, g, mode, steps + [step])
    ensures After(w, g, mode, steps + [step]) == Apply(w, g, mode, After(w, g, mode, steps), step)
  {
    assert (steps + [step])[..|steps|] == steps;
  }

  lemma VerifyStep(w: World, g: Gate, mode: Ledger.Keying, st: State, env: Env, pp: Payload, required: int, o: Outcome)
    requires Prepare(w, g, st.rec, env, pp, required) == Ok(o)
    ensures var st' := Apply(w, g, mode, st, Verify(env, pp, required));
            st' == st.(history := st.history + [Verified(env, pp, required, o)]) && WasVerified(st'.history, o)
  {
    assert Verified(env, pp, required, o) in st.history + [Verified(env, pp, required, o)];
  }

  lemma CommitStep(w: World, g: Gate, mode: Ledger.Keying, st: State, o: Outcome)
    ensures WasSettled(Apply(w, g, mode, st, Commit(o)).history, o)
  {
    var h := Apply(w, g, mode, st, Commit(o)).history;
    assert h[|h| - 1] in h && h[|h| - 1].Settled? && h[|h| - 1].outcome == o;
  }

  lemma IssueStep(w: World, g: Gate, mode: Ledger.Keying, hash: Hash32, li: LightningIssue)
    requires Issuable(w, g, hash, li.issue)
    ensures Enabled(w, g, START, IssueLightning(hash, li))
    ensures Apply(w, g, mode, START, IssueLightning(hash, li)).iss.lightning == map[hash := li]
  {
  }

  lemma RefOfInjective(p: Payment, q: Payment)
    requires RefOf(p) == RefOf(q)
    ensures p == q
  {
    match (p, q) {
      case (ByHash(a), ByHash(b)) => LightningRefInjective(a, b);
      case (ByDeposit(tx, a), ByDeposit(tx', a')) =>
        HexRoundTrip(tx);
        HexRoundTrip(tx');
        OnchainRefInjective(HexEncode(tx), a, HexEncode(tx'), a');
      case (ByHash(h), ByDeposit(tx, a)) => RefShapes(h, HexEncode(tx), a);
      case (ByDeposit(tx, a), ByHash(h)) => RefShapes(h, HexEncode(tx), a);
    }
  }

  lemma GrantedIsCredited(w: World, g: Gate, mode: Ledger.Keying, steps: seq<Step>, o: Outcome) returns (p: Payment)
    requires IsRun(w, g, mode, steps) && steps != [] && steps[|steps| - 1] == Grant(o)
    ensures RefOf(p) == o.ref && CreditedFor(After(w, g, mode, steps).log, p) == o.amount
  {
    GrantedLast(w, g, mode, steps, o);
    RunKeeps(w, g, mode, steps);
    p := CompletedIn(w, g, After(w, g, mode, steps), o);
  }

  lemma GrantedLast(w: World, g: Gate, mode: Ledger.Keying, steps: seq<Step>, o: Outcome)
    requires steps != [] && steps[|steps| - 1] == Grant(o)
    ensures Granted(o) in After(w, g, mode, steps).history
  {
    var h := After(w, g, mode, steps[..|steps| - 1]).history;
    assert (h + [Granted(o)])[|h|] == Granted(o);
  }

  /** From any reachable state, a presentation that verifies on either rail can be recorded and credited in full. */
  lemma PresentationCompletes(w: World, g: Gate, mode: Ledger.Keying, steps: seq<Step>, env: Env, pp: Payload,
                              o: Outcome)
    returns (p: Payment)
    requires IsRun(w, g, mode, steps) && Canonical(env)
    requires Prepare(w, g, After(w, g, mode, steps).rec, env, pp, 0) == Ok(o)
    ensures var all := steps + [Verify(env, pp, 0)] + [Commit(o)] + [Grant(o)];
            IsRun(w, g, mode, all) && RefOf(p) == o.ref && CreditedFor(After(w, g, mode, all).log, p) == o.amount
  {
    var two := steps + [Verify(env, pp, 0)];
    VerifyStep(w, g, mode, After(w, g, mode, steps), env, pp, 0, o);
    RunAdd(w, g, mode, steps, Verify(env, pp, 0));
    RunAdd(w, g, mode, two, Commit(o));
    CommitStep(w, g, mode, After(w, g, mode, two), o);
    RunAdd(w, g, mode, two + [Commit(o)], Grant(o));
    p := GrantedIsCredited(w, g, mode, two + [Commit(o)] + [Grant(o)], o);
  }

  /** From an empty gate: a challenge is issued, paid, presented, recorded and credited in full. */
  lemma HonestTopupCompletes(w: World, g: Gate, mode: Ledger.Keying, hash: Hash32, li: LightningIssue, env: Env,
                             preimageHex: Bytes, pp: Payload)
    returns (steps: seq<Step>)
    requires Canonical(env) && Issuable(w, g, hash, li.issue) && li.issue.amount > 0 && li.invoice != []
    requires InvoicePays(w, g, li.invoice, hash, li.issue.amount) && HonestLightning(w, g, hash, li, preimageHex, pp)
    requires env.now <= li.issue.now + g.challengeTTL && env.settled(hash) == Some(true)
    ensures IsRun(w, g, mode, steps)
    ensures CreditedFor(After(w, g, mode, steps).log, ByHash(hash)) == li.issue.amount
  {
    var issue := IssueLightning(hash, li);
    var o := LightningOutcome(w, g, env, hash, li, preimageHex);
    var one: seq<Step> := [] + [issue];
    IssueStep(w, g, mode, hash, li);
    RunAdd(w, g, mode, [], issue);
    RunKeeps(w, g, mode, one);
    var st1 := After(w, g, mode, one);
    HonestPayerSettles(w, g, st1.rec, st1.iss, env, hash, preimageHex, pp, 0);
    var p := PresentationCompletes(w, g, mode, one, env, pp, o);
    RefOfInjective(p, ByHash(hash));
    steps := one + [Verify(env, pp, 0)] + [Commit(o)] + [Grant(o)];
  }

  lemma DepositIssueStep(w: World, g: Gate, mode: Ledger.Keying, address: Bytes, oi: OnchainIssue)
    requires Issuable(w, g, CredentialHash(w, oi), oi.issue)
    ensures Enabled(w, g, START, IssueOnchain(address, oi))
    ensures Apply(w, g, mode, START, IssueOnchain(address, oi)).iss.onchain == map[address := oi]
  {
  }

  lemma DepositCredited(w: World, g: Gate, env: Env, address: Bytes, oi: OnchainIssue, txid: Bytes, p: Payment)
    requires Canonical(env) && Hash32Of(txid).Some?
    requires DepositMatches(env.deposit(txid, address), oi.issue.amount, oi.confirmations)
    requires RefOf(p) == OnchainOutcome(w, g, env, address, oi, txid).ref
    ensures p == ByDeposit(Hash32Of(txid).value, address)
  {
    CanonicalTxid(env, txid, address, oi.issue.amount, oi.confirmations);
    RefOfInjective(p, ByDeposit(Hash32Of(txid).value, address));
  }

  /** The same on chain: an address is issued, the exact amount deposited, and the payment credited in full. */
  lemma HonestDepositCompletes(w: World, g: Gate, mode: Ledger.Keying, address: Bytes, oi: OnchainIssue, env: Env,
                               txid: Bytes, pp: Payload)
    returns (steps: seq<Step>)
    requires g.onchain && Canonical(env) && Issuable(w, g, CredentialHash(w, oi), oi.issue)
    requires HonestDeposit(w, g, address, oi, txid, pp)
    requires DepositMatches(env.deposit(txid, address), oi.issue.amount, oi.confirmations)
    ensures IsRun(w, g, mode, steps)
    ensures CreditedFor(After(w, g, mode, steps).log, ByDeposit(Hash32Of(txid).value, address)) == oi.issue.amount
  {
    var issue := IssueOnchain(address, oi);
    var o := OnchainOutcome(w, g, env, address, oi, txid);
    var one: seq<Step> := [] + [issue];
    DepositIssueStep(w, g, mode, address, oi);
    RunAdd(w, g, mode, [], issue);
    RunKeeps(w, g, mode, one);
    var st1 := After(w, g, mode, one);
    HonestDepositSettles(w, g, st1.rec, st1.iss, env, address, txid, pp, 0);
    var p := PresentationCompletes(w, g, mode, one, env, pp, o);
    DepositCredited(w, g, env, address, oi, txid, p);
    steps := one + [Verify(env, pp, 0)] + [Commit(o)] + [Grant(o)];
  }
}
