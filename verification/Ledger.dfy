/** The credit ledger (lib/ledger): one log that both the map ledger and the SQL-table ledger refine. */
module Ledger {
  import opened Base
  import opened Text

  /** A grant or charge that took effect; an empty key means no idempotency key was given. */
  datatype Entry =
    | Grant(account: Bytes, amount: int, ref: Bytes)
    | Charge(account: Bytes, amount: int, key: Bytes)

  type Log = seq<Entry>

  datatype Op =
    | GrantOp(account: Bytes, amount: int, ref: Bytes)
    | ChargeOp(account: Bytes, amount: int, key: Bytes)
    | BalanceOp(account: Bytes)

  datatype Answer =
    | Granted(balance: int, already: bool)
    | Balance(balance: int)
    | NotPositive | NoRef
    | Insufficient(balance: int, required: int)

  // --- the log ---

  function GrantedTo(log: Log, account: Bytes): int {
    if log == [] then 0
    else
      var e := log[|log| - 1];
      GrantedTo(log[..|log| - 1], account) + if e.Grant? && e.account == account then e.amount else 0
  }

  function SpentBy(log: Log, account: Bytes): int {
    if log == [] then 0
    else
      var e := log[|log| - 1];
      SpentBy(log[..|log| - 1], account) + if e.Charge? && e.account == account then e.amount else 0
  }

  function Total(log: Log, account: Bytes): int { GrantedTo(log, account) - SpentBy(log, account) }

  /** The grant made under an external reference. */
  function GrantOf(log: Log, ref: Bytes): Option<Entry> {
    if log == [] then None
    else
      var e := log[|log| - 1];
      if e.Grant? && e.ref == ref then Some(e) else GrantOf(log[..|log| - 1], ref)
  }

  /** How a ledger tells idempotency keys apart: by account and key, or by their NUL-joined text. */
  datatype Keying = ByPair | ByText

  function KeyText(account: Bytes, key: Bytes): Bytes { account + ['\0'] + key }

  predicate SameKey(mode: Keying, account: Bytes, key: Bytes, account': Bytes, key': Bytes) {
    match mode
    case ByPair => account == account' && key == key'
    case ByText => KeyText(account, key) == KeyText(account', key')
  }

  predicate Charged(mode: Keying, log: Log, account: Bytes, key: Bytes) {
    exists e <- log :: e.Charge? && e.key != [] && SameKey(mode, e.account, e.key, account, key)
  }

  /** Does the operation add an entry? */
  predicate Accepts(mode: Keying, log: Log, op: Op) {
    match op
    case GrantOp(_, amount, ref) => amount > 0 && ref != [] && GrantOf(log, ref).None?
    case ChargeOp(account, amount, key) =>
      amount > 0 && !(key != [] && Charged(mode, log, account, key)) && amount <= Total(log, account)
    case BalanceOp(_) => false
  }

  function EntryOf(op: Op): Entry
    requires !op.BalanceOp?
  {
    match op
    case GrantOp(account, amount, ref) => Grant(account, amount, ref)
    case ChargeOp(account, amount, key) => Charge(account, amount, key)
  }

  function Next(mode: Keying, log: Log, op: Op): Log {
    if Accepts(mode, log, op) then log + [EntryOf(op)] else log
  }

  function Reply(mode: Keying, log: Log, op: Op): Answer {
    match op
    case GrantOp(account, amount, ref) =>
      if amount <= 0 then NotPositive
      else if ref == [] then NoRef
      else (
        match GrantOf(log, ref)
        case Some(e) => Granted(Total(log, e.account), true)
        case None => Granted(Total(log, account) + amount, false))
    case ChargeOp(account, amount, key) =>
      if amount <= 0 then NotPositive
      else if key != [] && Charged(mode, log, account, key) then Balance(Total(log, account))
      else if Total(log, account) < amount then Insufficient(Total(log, account), amount)
      else Balance(Total(log, account) - amount)
    case BalanceOp(account) => Balance(Total(log, account))
  }

  /** A grant is refused for one of two causes, else it tells the balance of the log that it leaves. */
  lemma GrantFollows(mode: Keying, log: Log, account: Bytes, amount: int, ref: Bytes)
    ensures var op := GrantOp(account, amount, ref);
            var r, after := Reply(mode, log, op), Next(mode, log, op);
            && (r == NotPositive <==> amount <= 0) && (r == NoRef <==> amount > 0 && ref == [])
            && (amount > 0 && ref != [] && GrantOf(log, ref).None? ==>
                 after == log + [Grant(account, amount, ref)] && r == Granted(Total(after, account), false))
            && (amount > 0 && ref != [] && GrantOf(log, ref).Some? ==>
                 after == log && r == Granted(Total(log, GrantOf(log, ref).value.account), true))
            && (amount <= 0 || ref == [] ==> after == log)
  {
    Appended(log, Grant(account, amount, ref));
  }

  /** A charge replays, or fails for want of credit, or tells the balance of the log that it leaves. */
  lemma ChargeFollows(mode: Keying, log: Log, account: Bytes, amount: int, key: Bytes)
    ensures var op := ChargeOp(account, amount, key);
            var r, after := Reply(mode, log, op), Next(mode, log, op);
            var replay := key != [] && Charged(mode, log, account, key);
            && (r == NotPositive <==> amount <= 0)
            && (amount > 0 && replay ==> after == log && r == Balance(Total(log, account)))
            && (amount > 0 && !replay && amount <= Total(log, account) ==>
                 after == log + [Charge(account, amount, key)] && r == Balance(Total(after, account)))
            && (amount > 0 && !replay && Total(log, account) < amount ==>
                 after == log && r == Insufficient(Total(log, account), amount))
            && (amount <= 0 ==> after == log)
  {
    Appended(log, Charge(account, amount, key));
  }

  function Run(mode: Keying, log: Log, ops: seq<Op>): Log
    decreases ops
  {
    if ops == [] then log else Run(mode, Next(mode, log, ops[0]), ops[1..])
  }

  function Answers(mode: Keying, log: Log, ops: seq<Op>): seq<Answer>
    decreases ops
  {
    if ops == [] then [] else [Reply(mode, log, ops[0])] + Answers(mode, Next(mode, log, ops[0]), ops[1..])
  }

  lemma Appended(log: Log, e: Entry)
    ensures (log + [e])[..|log|] == log
    ensures forall a ::
              GrantedTo(log + [e], a) == GrantedTo(log, a) + if e.Grant? && e.account == a then e.amount else 0
    ensures forall a :: SpentBy(log + [e], a) == SpentBy(log, a) + if e.Charge? && e.account == a then e.amount else 0
    ensures forall r :: GrantOf(log + [e], r) == if e.Grant? && e.ref == r then Some(e) else GrantOf(log, r)
  {
    assert (log + [e])[..|log|] == log;
  }

  // --- what every run keeps ---

  ghost predicate RefsOnce(log: Log) {
    forall i, j :: 0 <= i < j < |log| && log[i].Grant? && log[j].Grant? ==> log[i].ref != log[j].ref
  }

  ghost predicate KeysOnce(log: Log) {
    forall i, j :: 0 <= i < j < |log| && log[i].Charge? && log[j].Charge? && log[i].key != []
                   ==> !(log[i].account == log[j].account && log[i].key == log[j].key)
  }

  /** Every balance, at every moment of the log, is at least zero; every amount is positive. */
  ghost predicate NeverNegative(log: Log) {
    && (forall i, a :: 0 <= i <= |log| ==> Total(log[..i], a) >= 0)
    && (forall e <- log :: e.amount > 0)
  }

  ghost predicate Kept(log: Log) { RefsOnce(log) && KeysOnce(log) && NeverNegative(log) }

  lemma {:induction false} GrantOfExact(log: Log, ref: Bytes)
    ensures GrantOf(log, ref).Some? <==> exists e <- log :: e.Grant? && e.ref == ref
  {
    if log != [] {
      GrantOfExact(log[..|log| - 1], ref);
      var e := log[|log| - 1];
      assert log == log[..|log| - 1] + [e];
    }
  }

  lemma TotalsKept(log: Log, e: Entry)
    requires NeverNegative(log) && e.amount > 0 && (e.Charge? ==> e.amount <= Total(log, e.account))
    ensures NeverNegative(log + [e])
  {
    Appended(log, e);
    assert log[..|log|] == log;
    forall i, a | 0 <= i <= |log + [e]| ensures Total((log + [e])[..i], a) >= 0 {
      if i <= |log| {
        assert (log + [e])[..i] == log[..i];
      } else {
        assert (log + [e])[..i] == log + [e] && Total(log[..|log|], a) >= 0;
      }
    }
  }

  lemma StepKeeps(mode: Keying, log: Log, op: Op)
    requires Kept(log)
    ensures Kept(Next(mode, log, op))
  {
    if Accepts(mode, log, op) {
      var e := EntryOf(op);
      TotalsKept(log, e);
      if op.GrantOp? {
        GrantOfExact(log, op.ref);
      }
    }
  }

  /** In every run, references and keyed charges take effect at most once and no balance is ever negative. */
  lemma {:induction false} RunKeeps(mode: Keying, log: Log, ops: seq<Op>)
    requires Kept(log)
    ensures Kept(Run(mode, log, ops))
    decreases ops
  {
    if ops != [] {
      StepKeeps(mode, log, ops[0]);
      RunKeeps(mode, Next(mode, log, ops[0]), ops[1..]);
    }
  }

  // --- when the two keyings agree ---

  ghost predicate Uses(ops: seq<Op>, accounts: iset<Bytes>) {
    forall op <- ops :: op.account in accounts
  }

  ghost predicate LogUses(log: Log, accounts: iset<Bytes>) {
    forall e <- log :: e.account in accounts
  }

  /** No account is another one continued after a NUL octet. */
  ghost predicate NulSeparable(accounts: iset<Bytes>) {
    forall a, b :: a in accounts && b in accounts ==> !HasPrefix(b, a + ['\0'])
  }

  lemma SplitAtNul(a: Bytes, k: Bytes, b: Bytes, j: Bytes)
    requires KeyText(a, k) == KeyText(b, j)
    ensures (a == b && k == j) || HasPrefix(b, a + ['\0']) || HasPrefix(a, b + ['\0'])
  {
    var t := KeyText(a, k);
    if |a| == |b| {
      assert a == t[..|a|] == b && k == t[|a| + 1..] == j;
    } else if |a| < |b| {
      assert b[..|a| + 1] == t[..|a| + 1] == a + ['\0'];
    } else {
      assert a[..|b| + 1] == t[..|b| + 1] == b + ['\0'];
    }
  }

  lemma ChargedAgree(log: Log, account: Bytes, key: Bytes, accounts: iset<Bytes>)
    requires NulSeparable(accounts) && LogUses(log, accounts) && account in accounts
    ensures Charged(ByText, log, account, key) == Charged(ByPair, log, account, key)
  {
    if Charged(ByText, log, account, key) {
      var e :| e in log && e.Charge? && e.key != [] && SameKey(ByText, e.account, e.key, account, key);
      SplitAtNul(e.account, e.key, account, key);
      assert SameKey(ByPair, e.account, e.key, account, key);
    }
    if Charged(ByPair, log, account, key) {
      var e :| e in log && e.Charge? && e.key != [] && SameKey(ByPair, e.account, e.key, account, key);
      assert SameKey(ByText, e.account, e.key, account, key);
    }
  }

  lemma StepsAgree(log: Log, op: Op, accounts: iset<Bytes>)
    requires NulSeparable(accounts) && LogUses(log, accounts) && op.account in accounts
    ensures Next(ByText, log, op) == Next(ByPair, log, op) && Reply(ByText, log, op) == Reply(ByPair, log, op)
    ensures LogUses(Next(ByPair, log, op), accounts)
  {
    if op.ChargeOp? {
      ChargedAgree(log, op.account, op.key, accounts);
    }
  }

  lemma {:induction false} RunsAgree(log: Log, ops: seq<Op>, accounts: iset<Bytes>)
    requires NulSeparable(accounts) && LogUses(log, accounts) && Uses(ops, accounts)
    ensures Answers(ByText, log, ops) == Answers(ByPair, log, ops) && Run(ByText, log, ops) == Run(ByPair, log, ops)
    decreases ops
  {
    if ops != [] {
      StepsAgree(log, ops[0], accounts);
      RunsAgree(Next(ByPair, log, ops[0]), ops[1..], accounts);
    }
  }

  lemma {:induction false} RunsAppend(mode: Keying, log: Log, ops: seq<Op>, op: Op)
    ensures Run(mode, log, ops + [op]) == Next(mode, Run(mode, log, ops), op)
    ensures Answers(mode, log, ops + [op]) == Answers(mode, log, ops) + [Reply(mode, Run(mode, log, ops), op)]
    decreases ops
  {
    if ops == [] {
      assert ops + [op] == [op] && [op][1..] == [];
    } else {
      assert (ops + [op])[0] == ops[0] && (ops + [op])[1..] == ops[1..] + [op];
      RunsAppend(mode, Next(mode, log, ops[0]), ops[1..], op);
    }
  }

  /** Fund two accounts, then charge the longer one under "k". */
  function Setup(a: Bytes, b: Bytes): seq<Op> {
    [GrantOp(b, 1, "r"), GrantOp(a, 1, "s")] + [ChargeOp(b, 1, "k")]
  }

  function SetupLog(a: Bytes, b: Bytes): Log {
    Both(a, b) + [Charge(b, 1, "k")]
  }

  lemma {:induction false} Unrolls(mode: Keying, log: Log, op: Op, next: Log, rest: seq<Op>)
    requires Next(mode, log, op) == next
    ensures Run(mode, log, [op] + rest) == Run(mode, next, rest)
  {
    assert ([op] + rest)[1..] == rest;
  }

  lemma GrantAccepted(mode: Keying, log: Log, op: Op)
    requires op.GrantOp? && op.amount > 0 && op.ref != [] && GrantOf(log, op.ref).None?
    ensures Next(mode, log, op) == log + [EntryOf(op)]
  {
  }

  lemma ChargeAccepted(mode: Keying, log: Log, op: Op)
    requires op.ChargeOp? && 0 < op.amount <= Total(log, op.account) && !Charged(mode, log, op.account, op.key)
    ensures Next(mode, log, op) == log + [EntryOf(op)]
  {
  }

  lemma BothTotals(a: Bytes, b: Bytes)
    requires a != b
    ensures Total(Both(a, b), a) == 1 && Total(Both(a, b), b) == 1
  {
    var none, one: Log := [], [Grant(b, 1, "r")];
    assert none + [Grant(b, 1, "r")] == one;
    Appended(none, Grant(b, 1, "r"));
    assert Both(a, b) == one + [Grant(a, 1, "s")];
    Appended(one, Grant(a, 1, "s"));
  }

  lemma FirstGrant(mode: Keying, b: Bytes, rest: seq<Op>)
    ensures Run(mode, [], [GrantOp(b, 1, "r")] + rest) == Run(mode, [Grant(b, 1, "r")], rest)
  {
    var g := GrantOp(b, 1, "r");
    GrantAccepted(mode, [], g);
    assert [] + [EntryOf(g)] == [EntryOf(g)];
    Unrolls(mode, [], g, [EntryOf(g)], rest);
  }

  lemma SecondGrant(mode: Keying, a: Bytes, b: Bytes, rest: seq<Op>)
    ensures Run(mode, [Grant(b, 1, "r")], [GrantOp(a, 1, "s")] + rest) == Run(mode, Both(a, b), rest)
  {
    var one: Log, h := [Grant(b, 1, "r")], GrantOp(a, 1, "s");
    assert one[..0] == [];
    GrantAccepted(mode, one, h);
    assert Both(a, b) == one + [EntryOf(h)];
    Unrolls(mode, one, h, Both(a, b), rest);
  }

  /** The two grants of the setup. */
  lemma Funded(mode: Keying, a: Bytes, b: Bytes, rest: seq<Op>)
    requires a != b
    ensures Run(mode, [], [GrantOp(b, 1, "r"), GrantOp(a, 1, "s")] + rest) == Run(mode, Both(a, b), rest)
    ensures Total(Both(a, b), a) == 1 && Total(Both(a, b), b) == 1
  {
    var g, h := GrantOp(b, 1, "r"), GrantOp(a, 1, "s");
    BothTotals(a, b);
    FirstGrant(mode, b, [h] + rest);
    SecondGrant(mode, a, b, rest);
    assert [g, h] + rest == [g] + ([h] + rest);
  }

  function Both(a: Bytes, b: Bytes): Log { [Grant(b, 1, "r"), Grant(a, 1, "s")] }

  lemma SetupRuns(mode: Keying, a: Bytes, b: Bytes)
    requires a != b
    ensures Run(mode, [], Setup(a, b)) == SetupLog(a, b)
    ensures Total(SetupLog(a, b), a) == 1
  {
    var c := ChargeOp(b, 1, "k");
    Funded(mode, a, b, [c]);
    SetupCharge(mode, a, b, c);
    Appended(Both(a, b), EntryOf(c));
  }

  lemma SetupCharge(mode: Keying, a: Bytes, b: Bytes, c: Op)
    requires a != b && c == ChargeOp(b, 1, "k") && Total(Both(a, b), b) == 1
    ensures Run(mode, Both(a, b), [c]) == SetupLog(a, b)
  {
    ChargeAccepted(mode, Both(a, b), c);
    Unrolls(mode, Both(a, b), c, SetupLog(a, b), []);
    assert [c] + [] == [c];
  }

  lemma Collides(a: Bytes, x: Bytes)
    ensures var b := a + ['\0'] + x;
            KeyText(b, "k") == KeyText(a, x + ['\0'] + "k") && a != b
  {
    var b := a + ['\0'] + x;
    assert |b| > |a|;
  }

  lemma LastCharge(a: Bytes, b: Bytes, key: Bytes)
    requires a != b && KeyText(b, "k") == KeyText(a, key) && key != []
    ensures Reply(ByText, SetupLog(a, b), ChargeOp(a, 1, key)) == Balance(1)
    ensures Reply(ByPair, SetupLog(a, b), ChargeOp(a, 1, key)) == Balance(0)
  {
    var log := SetupLog(a, b);
    SetupRuns(ByText, a, b);
    assert log[2] in log && log[2] == Charge(b, 1, "k");
    assert Charged(ByText, log, a, key);
    assert !Charged(ByPair, log, a, key);
  }

  lemma LastDiffers(a: seq<Answer>, b: seq<Answer>, x: Answer, y: Answer)
    requires x != y
    ensures a + [x] != b + [y]
  {
    assert (a + [x])[|a|] == x && (b + [y])[|b|] == y;
  }

  /** With b continuing a after a NUL, a charge of a replays a charge of b in the map ledger only. */
  lemma Disagree(a: Bytes, b: Bytes, key: Bytes)
    requires a != b && KeyText(b, "k") == KeyText(a, key) && key != []
    ensures var ops := Setup(a, b) + [ChargeOp(a, 1, key)];
            Answers(ByText, [], ops) != Answers(ByPair, [], ops)
  {
    var op := ChargeOp(a, 1, key);
    assert Reply(ByText, SetupLog(a, b), op) != Reply(ByPair, SetupLog(a, b), op) by { LastCharge(a, b, key); }
    SetupRuns(ByText, a, b);
    SetupRuns(ByPair, a, b);
    RunsAppend(ByText, [], Setup(a, b), op);
    RunsAppend(ByPair, [], Setup(a, b), op);
    LastDiffers(Answers(ByText, [], Setup(a, b)), Answers(ByPair, [], Setup(a, b)),
                Reply(ByText, SetupLog(a, b), op), Reply(ByPair, SetupLog(a, b), op));
  }

  /** The two ledgers answer every sequence over a set of accounts alike exactly when NULs separate them. */
  lemma AgreeExactlyWhen(accounts: iset<Bytes>)
    ensures NulSeparable(accounts) <==>
              forall ops :: Uses(ops, accounts) ==> Answers(ByText, [], ops) == Answers(ByPair, [], ops)
  {
    if NulSeparable(accounts) {
      forall ops | Uses(ops, accounts) ensures Answers(ByText, [], ops) == Answers(ByPair, [], ops) {
        RunsAgree([], ops, accounts);
      }
    } else {
      var a, b :| a in accounts && b in accounts && HasPrefix(b, a + ['\0']);
      var ops := NulDisagrees(accounts, a, b);
    }
  }

  lemma NulDisagrees(accounts: iset<Bytes>, a: Bytes, b: Bytes) returns (ops: seq<Op>)
    requires a in accounts && b in accounts && HasPrefix(b, a + ['\0'])
    ensures Uses(ops, accounts) && Answers(ByText, [], ops) != Answers(ByPair, [], ops)
  {
    var x := b[|a| + 1..];
    assert b == a + ['\0'] + x;
    Collides(a, x);
    Disagree(a, b, x + ['\0'] + "k");
    ops := Setup(a, b) + [ChargeOp(a, 1, x + ['\0'] + "k")];
    assert Uses(ops, accounts);
  }

  lemma PrefixOctets(s: Bytes, p: Bytes, c: Octet)
    requires c in p && c !in s
    ensures !HasPrefix(s, p)
  {
    var i :| 0 <= i < |p| && p[i] == c;
    if |p| <= |s| {
      assert s[i] in s && s[..|p|][i] == s[i];
    }
  }

  lemma NulFreeSeparable(accounts: iset<Bytes>)
    requires forall a :: a in accounts ==> '\0' !in a
    ensures NulSeparable(accounts)
  {
    forall a, b | a in accounts && b in accounts ensures !HasPrefix(b, a + ['\0']) {
      assert '\0' in a + ['\0'];
      PrefixOctets(b, a + ['\0'], '\0');
    }
  }

  // --- one reference, one credit ---

  /** Everything credited under one external reference. */
  function Credited(log: Log, ref: Bytes): int {
    if log == [] then 0
    else
      var e := log[|log| - 1];
      Credited(log[..|log| - 1], ref) + if e.Grant? && e.ref == ref then e.amount else 0
  }

  lemma {:induction false} CreditedOnce(log: Log, ref: Bytes)
    requires RefsOnce(log)
    ensures Credited(log, ref) == match GrantOf(log, ref) case None => 0 case Some(e) => e.amount
  {
    if log != [] {
      var init, e := log[..|log| - 1], log[|log| - 1];
      CreditedOnce(init, ref);
      if e.Grant? && e.ref == ref {
        GrantOfExact(init, ref);
        assert GrantOf(init, ref).None?;
      }
    }
  }

  /** The first grant under a reference stays the only one in every continuation. */
  lemma {:induction false} GrantsLast(mode: Keying, log: Log, ops: seq<Op>, ref: Bytes)
    requires GrantOf(log, ref).Some?
    ensures GrantOf(Run(mode, log, ops), ref) == GrantOf(log, ref)
    decreases ops
  {
    if ops != [] {
      if Accepts(mode, log, ops[0]) {
        Appended(log, EntryOf(ops[0]));
      }
      GrantsLast(mode, Next(mode, log, ops[0]), ops[1..], ref);
    }
  }

  // --- the map ledger ---

  function Lookup(m: map<Bytes, int>, account: Bytes): int { if account in m then m[account] else 0 }

  ghost predicate GrantsRefine(grants: map<Bytes, (Bytes, int)>, log: Log) {
    && (forall r :: r in grants <==> GrantOf(log, r).Some?)
    && (forall r :: r in grants ==> grants[r] == (GrantOf(log, r).value.account, GrantOf(log, r).value.amount))
  }

  ghost predicate BalancesRefine(balances: map<Bytes, int>, log: Log) {
    forall a :: Lookup(balances, a) == Total(log, a)
  }

  ghost predicate KeysRefine(charged: set<Bytes>, log: Log) {
    forall a, k :: KeyText(a, k) in charged <==> Charged(ByText, log, a, k)
  }

  /** Recording an entry changes one balance by its amount. */
  lemma BalanceRefines(balances: map<Bytes, int>, log: Log, e: Entry)
    requires BalancesRefine(balances, log)
    ensures BalancesRefine(
              balances[e.account := Lookup(balances, e.account) + if e.Grant? then e.amount else -e.amount], log + [e])
  {
    Appended(log, e);
    forall a ensures
      Lookup(balances[e.account := Lookup(balances, e.account) + if e.Grant? then e.amount else -e.amount], a)
        == Total(log + [e], a)
    {
      assert Lookup(balances, a) == Total(log, a);
    }
  }

  lemma GrantRefines(grants: map<Bytes, (Bytes, int)>, log: Log, e: Entry)
    requires GrantsRefine(grants, log) && (e.Grant? ==> e.ref !in grants)
    ensures GrantsRefine(if e.Grant? then grants[e.ref := (e.account, e.amount)] else grants, log + [e])
  {
    Appended(log, e);
  }

  lemma ChargedAppend(mode: Keying, log: Log, e: Entry, a: Bytes, k: Bytes)
    ensures Charged(mode, log + [e], a, k) <==>
              Charged(mode, log, a, k) || (e.Charge? && e.key != [] && SameKey(mode, e.account, e.key, a, k))
  {
    if Charged(mode, log + [e], a, k) {
      var d :| d in log + [e] && d.Charge? && d.key != [] && SameKey(mode, d.account, d.key, a, k);
      assert d in log || d == e;
    }
    if Charged(mode, log, a, k) {
      var d :| d in log && d.Charge? && d.key != [] && SameKey(mode, d.account, d.key, a, k);
      assert d in log + [e];
    }
    assert e in log + [e];
  }

  lemma KeyRefines(charged: set<Bytes>, log: Log, e: Entry)
    requires KeysRefine(charged, log)
    ensures KeysRefine(if e.Charge? && e.key != [] then charged + {KeyText(e.account, e.key)} else charged, log + [e])
  {
    var after := if e.Charge? && e.key != [] then charged + {KeyText(e.account, e.key)} else charged;
    forall a, k ensures KeyText(a, k) in after <==> Charged(ByText, log + [e], a, k) {
      ChargedAppend(ByText, log, e, a, k);
    }
  }

  ghost predicate Maps(balances: map<Bytes, int>, grants: map<Bytes, (Bytes, int)>, charged: set<Bytes>, log: Log) {
    BalancesRefine(balances, log) && GrantsRefine(grants, log) && KeysRefine(charged, log)
  }

  lemma MapsRecord(balances: map<Bytes, int>, grants: map<Bytes, (Bytes, int)>, charged: set<Bytes>, log: Log, e: Entry)
    requires Maps(balances, grants, charged, log) && (e.Grant? ==> e.ref !in grants)
    ensures Maps(balances[e.account := Lookup(balances, e.account) + if e.Grant? then e.amount else -e.amount],
                 if e.Grant? then grants[e.ref := (e.account, e.amount)] else grants,
                 if e.Charge? && e.key != [] then charged + {KeyText(e.account, e.key)} else charged,
                 log + [e])
  {
    BalanceRefines(balances, log, e);
    GrantRefines(grants, log, e);
    KeyRefines(charged, log, e);
  }

  lemma MapsCharge(balances: map<Bytes, int>, grants: map<Bytes, (Bytes, int)>, charged: set<Bytes>, log: Log,
                   account: Bytes, amount: int, key: Bytes)
    requires Maps(balances, grants, charged, log)
    ensures Maps(balances[account := Lookup(balances, account) - amount], grants,
                 charged + if key != [] then {KeyText(account, key)} else {}, log + [Charge(account, amount, key)])
  {
    MapsRecord(balances, grants, charged, log, Charge(account, amount, key));
    assert charged + {} == charged;
  }

  /** What a charge does to the log and answers, read off the maps. */
  lemma ChargeOnMaps(balances: map<Bytes, int>, charged: set<Bytes>, log: Log, account: Bytes, amount: int, key: Bytes)
    requires BalancesRefine(balances, log) && KeysRefine(charged, log) && amount > 0
    ensures var op, balance := ChargeOp(account, amount, key), Lookup(balances, account);
            if key != [] && KeyText(account, key) in charged
            then Next(ByText, log, op) == log && Reply(ByText, log, op) == Balance(balance)
            else if balance < amount
            then Next(ByText, log, op) == log && Reply(ByText, log, op) == Insufficient(balance, amount)
            else && Next(ByText, log, op) == log + [Charge(account, amount, key)]
                 && Reply(ByText, log, op) == Balance(balance - amount)
  {
    assert Lookup(balances, account) == Total(log, account);
    assert KeyText(account, key) in charged <==> Charged(ByText, log, account, key);
  }

  class Memory {
    var balances: map<Bytes, int>
    var grants: map<Bytes, (Bytes, int)>
    var charged: set<Bytes>
    ghost var log: Log

    ghost predicate Valid()
      reads this
    {
      Maps(balances, grants, charged, log)
    }

    constructor ()
      ensures Valid() && log == []
    {
      balances, grants, charged, log := map[], map[], {}, [];
    }

    method Grant(account: Bytes, amount: int, ref: Bytes) returns (r: Answer)
      requires Valid()
      modifies this
      ensures Valid()
      ensures log == Next(ByText, old(log), GrantOp(account, amount, ref))
      ensures r == Reply(ByText, old(log), GrantOp(account, amount, ref))
    {
      if amount <= 0 {
        return NotPositive;
      }
      if ref == [] {
        return NoRef;
      }
      if ref in grants {
        return Granted(Lookup(balances, grants[ref].0), true);
      }
      MapsRecord(balances, grants, charged, log, Entry.Grant(account, amount, ref));
      grants := grants[ref := (account, amount)];
      balances := balances[account := Lookup(balances, account) + amount];
      log := log + [Entry.Grant(account, amount, ref)];
      r := Granted(Lookup(balances, account), false);
    }

    method Charge(account: Bytes, amount: int, key: Bytes) returns (r: Answer)
      requires Valid()
      modifies this
      ensures Valid()
      ensures log == Next(ByText, old(log), ChargeOp(account, amount, key))
      ensures r == Reply(ByText, old(log), ChargeOp(account, amount, key))
    {
      if amount <= 0 {
        return NotPositive;
      }
      ChargeOnMaps(balances, charged, log, account, amount, key);
      if key != [] && KeyText(account, key) in charged {
        return Answer.Balance(Lookup(balances, account));
      }
      var balance := Lookup(balances, account);
      if balance < amount {
        return Insufficient(balance, amount);
      }
      MapsCharge(balances, grants, charged, log, account, amount, key);
      balances := balances[account := balance - amount];
      charged := charged + if key != [] then {KeyText(account, key)} else {};
      log := log + [Entry.Charge(account, amount, key)];
      r := Answer.Balance(balances[account]);
    }

    method Balance(account: Bytes) returns (r: Answer)
      requires Valid()
      ensures r == Reply(ByText, log, BalanceOp(account))
    {
      r := Answer.Balance(Lookup(balances, account));
    }
  }

  // --- the SQL-table ledger ---

  /** A charges row; the idempotency key column is NULL when no key was given. */
  datatype ChargeRow = ChargeRow(account: Bytes, amount: int, key: Option<Bytes>)

  function RowKey(key: Bytes): Option<Bytes> { if key == [] then None else Some(key) }

  /** The unique index on (account, key): NULL keys never conflict. */
  predicate Conflicts(rows: seq<ChargeRow>, account: Bytes, key: Option<Bytes>) {
    key.Some? && exists row <- rows :: row.account == account && row.key == key
  }

  /** The charges of a log, in order, as rows. */
  ghost function Rows(log: Log): seq<ChargeRow> {
    if log == [] then []
    else
      var e := log[|log| - 1];
      Rows(log[..|log| - 1]) + if e.Charge? then [ChargeRow(e.account, e.amount, RowKey(e.key))] else []
  }

  lemma {:induction false} ConflictIsCharged(log: Log, account: Bytes, key: Bytes)
    ensures Conflicts(Rows(log), account, RowKey(key)) <==> key != [] && Charged(ByPair, log, account, key)
  {
    if log != [] {
      var init, e := log[..|log| - 1], log[|log| - 1];
      ConflictIsCharged(init, account, key);
      assert log == init + [e];
      ChargedAppend(ByPair, init, e, account, key);
      var last: seq<ChargeRow> := if e.Charge? then [ChargeRow(e.account, e.amount, RowKey(e.key))] else [];
      assert forall row :: row in Rows(log) <==> row in Rows(init) || row in last;
    }
  }

  ghost predicate OwnersExist(accounts: map<Bytes, int>, grants: map<Bytes, (Bytes, int)>) {
    forall r :: r in grants ==> grants[r].0 in accounts
  }

  lemma RowsAppend(log: Log, e: Entry)
    ensures Rows(log + [e]) ==
              if e.Charge? then Rows(log) + [ChargeRow(e.account, e.amount, RowKey(e.key))] else Rows(log)
  {
    assert (log + [e])[..|log|] == log;
  }

  ghost predicate Tables(accounts: map<Bytes, int>, grants: map<Bytes, (Bytes, int)>, charges: seq<ChargeRow>,
                         log: Log) {
    BalancesRefine(accounts, log) && GrantsRefine(grants, log) && OwnersExist(accounts, grants) && charges == Rows(log)
  }

  lemma TablesRecord(accounts: map<Bytes, int>, grants: map<Bytes, (Bytes, int)>, charges: seq<ChargeRow>, log: Log,
                     e: Entry)
    requires Tables(accounts, grants, charges, log) && (e.Grant? ==> e.ref !in grants)
    ensures Tables(accounts[e.account := Lookup(accounts, e.account) + if e.Grant? then e.amount else -e.amount],
                   if e.Grant? then grants[e.ref := (e.account, e.amount)] else grants,
                   if e.Charge? then charges + [ChargeRow(e.account, e.amount, RowKey(e.key))] else charges,
                   log + [e])
  {
    BalanceRefines(accounts, log, e);
    GrantRefines(grants, log, e);
    RowsAppend(log, e);
  }

  lemma TablesGrant(accounts: map<Bytes, int>, grants: map<Bytes, (Bytes, int)>, charges: seq<ChargeRow>, log: Log,
                    account: Bytes, amount: int, ref: Bytes)
    requires Tables(accounts, grants, charges, log) && ref !in grants
    ensures Tables(accounts[account := Lookup(accounts, account) + amount], grants[ref := (account, amount)], charges,
                   log + [Grant(account, amount, ref)])
  {
    TablesRecord(accounts, grants, charges, log, Grant(account, amount, ref));
  }

  /** What a grant does to the log and answers, read off the tables. */
  lemma GrantOnTables(accounts: map<Bytes, int>, grants: map<Bytes, (Bytes, int)>, log: Log,
                      account: Bytes, amount: int, ref: Bytes)
    requires BalancesRefine(accounts, log) && GrantsRefine(grants, log) && amount > 0 && ref != []
    ensures var op := GrantOp(account, amount, ref);
            if ref in grants
            then && Next(ByPair, log, op) == log
                 && Reply(ByPair, log, op) == Granted(Lookup(accounts, grants[ref].0), true)
            else && Next(ByPair, log, op) == log + [Grant(account, amount, ref)]
                 && Reply(ByPair, log, op) == Granted(Lookup(accounts, account) + amount, false)
  {
    assert Lookup(accounts, account) == Total(log, account);
    if ref in grants {
      assert Lookup(accounts, grants[ref].0) == Total(log, grants[ref].0);
    }
  }

  class SQLite {
    var accounts: map<Bytes, int>
    var grants: map<Bytes, (Bytes, int)>
    var charges: seq<ChargeRow>
    ghost var log: Log

    ghost predicate Valid()
      reads this
    {
      Tables(accounts, grants, charges, log)
    }

    constructor ()
      ensures Valid() && log == []
    {
      accounts, grants, charges, log := map[], map[], [], [];
    }

    method Grant(account: Bytes, amount: int, ref: Bytes) returns (r: Answer)
      requires Valid()
      modifies this
      ensures Valid()
      ensures log == Next(ByPair, old(log), GrantOp(account, amount, ref))
      ensures r == Reply(ByPair, old(log), GrantOp(account, amount, ref))
    {
      if amount <= 0 {
        return NotPositive;
      }
      if ref == [] {
        return NoRef;
      }
      // In the transaction: insert unless the reference is taken, then credit or look up the owner.
      GrantOnTables(accounts, grants, log, account, amount, ref);
      var accountsTx, grantsTx := accounts, grants;
      var inserted, owner := ref !in grantsTx, account;
      if inserted {
        TablesGrant(accounts, grants, charges, log, account, amount, ref);
        grantsTx := grantsTx[ref := (account, amount)];
        accountsTx := accountsTx[account := Lookup(accountsTx, account) + amount];
        log := log + [Entry.Grant(account, amount, ref)];
      } else {
        owner := grantsTx[ref].0;
      }
      var balance := accountsTx[owner];
      accounts, grants := accountsTx, grantsTx;
      r := Granted(balance, !inserted);
    }

    method Charge(account: Bytes, amount: int, key: Bytes) returns (r: Answer)
      requires Valid()
      modifies this
      ensures Valid()
      ensures log == Next(ByPair, old(log), ChargeOp(account, amount, key))
      ensures r == Reply(ByPair, old(log), ChargeOp(account, amount, key))
    {
      if amount <= 0 {
        return NotPositive;
      }
      ConflictIsCharged(log, account, key);
      assert Lookup(accounts, account) == Total(log, account);
      // In the transaction: insert the row first, debit second; a failed debit drops both.
      var accountsTx, chargesTx := accounts, charges;
      if Conflicts(chargesTx, account, RowKey(key)) {
        return Answer.Balance(Lookup(accountsTx, account));
      }
      chargesTx := chargesTx + [ChargeRow(account, amount, RowKey(key))];
      if !(account in accountsTx && accountsTx[account] >= amount) {
        return Insufficient(Lookup(accountsTx, account), amount);
      }
      TablesRecord(accounts, grants, charges, log, Entry.Charge(account, amount, key));
      accountsTx := accountsTx[account := accountsTx[account] - amount];
      accounts, charges := accountsTx, chargesTx;
      log := log + [Entry.Charge(account, amount, key)];
      r := Answer.Balance(accountsTx[account]);
    }

    method Balance(account: Bytes) returns (r: Answer)
      requires Valid()
      ensures r == Reply(ByPair, log, BalanceOp(account))
    {
      r := Answer.Balance(Lookup(accounts, account));
    }
  }
}
