/**
 * Whole runs of the paying agent (agent/service.go): tool calls and approved continuations take turns in one critical
 * section, time passes at every point, owners and expiry sweeps decide approvals, and the daemon may restart.
 */
module Buyer {
  import opened Base
  import opened Policy
  import opened Budgets
  import Approvals

  /** Why a payment may go ahead: policy allowed it, or the owner approved its fetch, or approved it directly. */
  datatype Mode = Allowed | PreApproved | OwnerDirect

  /** The approval a repeated fetch continues, and the amount the owner saw. */
  datatype Ceiling = Ceiling(id: Approvals.Id, amount: int)

  /** Who holds the critical section and how far that payment got. */
  datatype Holder =
    | Idle
    | Fetching(ceiling: Option<Ceiling>)
    | Admitted(attempt: nat, amount: int, checkedAt: int, mode: Mode)
    | Paid(attempt: nat, amount: int, checkedAt: int, mode: Mode)

  /** What an approval's continuation will do. */
  datatype Plan = DirectPlan(attempt: nat, amount: int) | FetchPlan(amount: int)

  datatype Record = Record(a: Attempt, outcome: Outcome, at: int)

  /** A payment that succeeded on a rail. */
  datatype RailPayment = RailPayment(attempt: nat, amount: int)

  /** spent: the attempt each approval was used for; refused: the attempts paid to a service that then failed. */
  datatype State = State(now: int, attempts: seq<Record>, payments: seq<Payment>, rail: seq<RailPayment>,
                         holder: Holder, ap: Approvals.State, plans: map<Approvals.Id, Plan>,
                         resumed: set<Approvals.Id>, spent: map<Approvals.Id, nat>, refused: set<nat>)

  const START := State(0, [], [], [], Idle, Approvals.START, map[], {}, map[], {})

  datatype Step =
    | Tick(t: int)
    | PayDirect(a: Attempt, id: Approvals.Id, expiresAt: int)
    | BeginFetch
    | GateFetch(a: Attempt, id: Approvals.Id, expiresAt: int)
    | EndFetch
    | PayOk
    | PayFail
    | Answer(served: bool)
    | RecordPayment
    | Decide(step: Approvals.Step)
    | Resume(id: Approvals.Id)
    | Restart

  /** The continuation of id was started with the owner's approval. */
  ghost predicate OwnerApproved(st: State, id: Approvals.Id) { Approvals.Ran(id, true) in st.ap.history }

  /** Store writes succeed, so the daemon does not stop between a rail payment and its record. */
  ghost predicate Enabled(st: State, step: Step) {
    match step
    case Tick(t) => t >= st.now
    case PayDirect(a, id, _) => st.holder.Idle? && a.amount > 0 && id !in st.ap.approvals
    case BeginFetch => st.holder.Idle?
    case GateFetch(a, id, _) => st.holder.Fetching? && a.amount > 0 && id !in st.ap.approvals
    case EndFetch => st.holder.Fetching?
    case PayOk => st.holder.Admitted?
    case PayFail => st.holder.Admitted?
    case Answer(_) => st.holder.Paid?
    case RecordPayment => st.holder.Paid?
    case Decide(s) => !s.Create? && !s.Restart? && Approvals.Enabled(st.ap, s)
    case Resume(id) => st.holder.Idle? && id in st.plans && id !in st.resumed && OwnerApproved(st, id)
    case Restart => !st.holder.Paid?
  }

  function Verdict(l: Limits, st: State, a: Attempt): Outcome { Decided(l, a, UsageAt(Spends(st.payments), st.now)) }

  /** Evaluate against the ledger as it is now, and record the attempt before anything is paid. */
  function Attempted(l: Limits, st: State, a: Attempt): State {
    st.(attempts := st.attempts + [Record(a, Verdict(l, st, a), st.now)])
  }

  function Escalated(st: State, id: Approvals.Id, attempt: nat, expiresAt: int, plan: Plan): State {
    st.(ap := Approvals.Apply(st.ap, Approvals.Create(id, attempt, expiresAt)), plans := st.plans[id := plan])
  }

  function Apply(l: Limits, st: State, step: Step): State {
    match step
    case Tick(t) => st.(now := t)
    case PayDirect(a, id, expiresAt) => (
      var n, after := |st.attempts|, Attempted(l, st, a);
      match Verdict(l, st, a)
      case Allow => after.(holder := Admitted(n, a.amount, st.now, Allowed))
      case Deny => after
      case Escalate => Escalated(after, id, n, expiresAt, DirectPlan(n, a.amount)))
    case BeginFetch => st.(holder := Fetching(None))
    case GateFetch(a, id, expiresAt) => (
      var n, after := |st.attempts|, Attempted(l, st, a).(holder := Idle);
      match Verdict(l, st, a)
      case Allow => after.(holder := Admitted(n, a.amount, st.now, Allowed))
      case Deny => after
      case Escalate =>
        if st.holder.Fetching? && st.holder.ceiling.Some?
        then if a.amount > st.holder.ceiling.value.amount then after
             else after.(holder := Admitted(n, a.amount, st.now, PreApproved),
                         spent := st.spent[st.holder.ceiling.value.id := n])
        else Escalated(after, id, n, expiresAt, FetchPlan(a.amount)))
    case EndFetch => st.(holder := Idle)
    case PayOk =>
      if st.holder.Admitted?
      then st.(holder := Paid(st.holder.attempt, st.holder.amount, st.holder.checkedAt, st.holder.mode),
               rail := st.rail + [RailPayment(st.holder.attempt, st.holder.amount)])
      else st
    case PayFail => st.(holder := Idle)
    case Answer(served) =>
      if st.holder.Paid? && !served then st.(refused := st.refused + {st.holder.attempt}) else st
    case RecordPayment =>
      if st.holder.Paid?
      then st.(holder := Idle,
               payments := st.payments + [Payment(st.holder.attempt, st.holder.amount, st.holder.checkedAt, st.now,
                                                  st.holder.mode.OwnerDirect?)])
      else st
    case Decide(s) => st.(ap := Approvals.Apply(st.ap, s))
    case Resume(id) => (
      var after := st.(resumed := st.resumed + {id});
      if id !in st.plans then after
      else match st.plans[id]
           case DirectPlan(attempt, amount) =>
             after.(holder := Admitted(attempt, amount, st.now, OwnerDirect), spent := st.spent[id := attempt])
           case FetchPlan(amount) => after.(holder := Fetching(Some(Ceiling(id, amount)))))
    case Restart =>
      st.(holder := Idle, ap := Approvals.Apply(st.ap, Approvals.Restart), resumed := st.resumed + st.plans.Keys)
  }

  function After(l: Limits, steps: seq<Step>): State {
    if steps == [] then START else Apply(l, After(l, steps[..|steps| - 1]), steps[|steps| - 1])
  }

  ghost predicate IsRun(l: Limits, steps: seq<Step>) {
    steps == [] || (IsRun(l, steps[..|steps| - 1]) && Enabled(After(l, steps[..|steps| - 1]), steps[|steps| - 1]))
  }

  lemma RunAdd(l: Limits, steps: seq<Step>, step: Step)
    requires IsRun(l, steps) && Enabled(After(l, steps), step)
    ensures IsRun(l, steps + [step]) && After(l, steps + [step]) == Apply(l, After(l, steps), step)
  {
    assert (steps + [step])[..|steps|] == steps;
  }

  // --- what every step keeps ---

  predicate Busy(h: Holder) { h.Admitted? || h.Paid? }

  /** An approval spent on this attempt, won from an owner for at least this amount. */
  ghost predicate Covered(st: State, attempt: nat, amount: int) {
    exists id <- st.spent :: SpentOn(st, id, attempt, amount)
  }

  ghost predicate SpentOn(st: State, id: Approvals.Id, attempt: nat, amount: int) {
    && id in st.spent && st.spent[id] == attempt
    && id in st.plans && OwnerApproved(st, id) && Covers(st.plans[id], attempt, amount)
  }

  predicate Covers(plan: Plan, attempt: nat, amount: int) {
    match plan case DirectPlan(n, m) => n == attempt && m == amount case FetchPlan(m) => amount <= m
  }

  /** The attempt was recorded for this amount and was allowed, or escalated and owner-approved for at least it. */
  ghost predicate Backed(st: State, attempt: nat, amount: int, latest: int) {
    && attempt < |st.attempts| && st.attempts[attempt].a.amount == amount && st.attempts[attempt].at <= latest
    && (st.attempts[attempt].outcome == Allow
        || (st.attempts[attempt].outcome == Escalate && Covered(st, attempt, amount)))
  }

  ghost predicate LedgerKept(l: Limits, st: State) {
    && Governed(l, st.payments) && AllBy(st.payments, st.now)
    && (forall i :: 0 <= i < |st.payments| ==>
          Backed(st, st.payments[i].attempt, st.payments[i].amount, st.payments[i].at))
  }

  /** A resumed fetch whose approval has not been used yet. */
  ghost predicate Unspent(st: State, c: Ceiling) {
    && c.id in st.resumed && c.id !in st.spent
    && c.id in st.plans && OwnerApproved(st, c.id) && st.plans[c.id] == FetchPlan(c.amount)
  }

  ghost predicate HolderKept(l: Limits, st: State) {
    match st.holder
    case Idle => true
    case Fetching(ceiling) => ceiling.Some? ==> Unspent(st, ceiling.value)
    case _ =>
      var h := st.holder;
      && h.amount > 0 && h.checkedAt <= st.now && AllBy(st.payments, h.checkedAt)
      && (!h.mode.OwnerDirect? ==> WithinLimits(l, st.payments, h.amount, h.checkedAt))
      && Backed(st, h.attempt, h.amount, h.checkedAt)
  }

  function RailOf(p: Payment): RailPayment { RailPayment(p.attempt, p.amount) }

  predicate RailKept(st: State) {
    st.rail ==
      Map(RailOf, st.payments) + if st.holder.Paid? then [RailPayment(st.holder.attempt, st.holder.amount)] else []
  }

  predicate PlanKept(st: State, plan: Plan) {
    match plan
    case DirectPlan(n, m) =>
      n < |st.attempts| && st.attempts[n].a.amount == m && m > 0 && st.attempts[n].outcome == Escalate
    case FetchPlan(m) => true
  }

  ghost predicate PlansKept(st: State) {
    && (forall id <- st.plans :: PlanKept(st, st.plans[id]))
    && (forall i :: 0 <= i < |st.attempts| ==> st.attempts[i].at <= st.now)
    && st.plans.Keys <= st.ap.approvals.Keys && st.spent.Keys <= st.resumed
  }

  predicate Listed(st: State, attempt: nat) { exists i :: 0 <= i < |st.payments| && st.payments[i].attempt == attempt }

  /** Whoever was paid and then failed to serve is in the ledger, or about to be. */
  predicate RefusedKept(st: State) {
    forall n <- st.refused :: Listed(st, n) || (st.holder.Paid? && st.holder.attempt == n)
  }

  ghost predicate Inv(l: Limits, st: State) {
    LedgerKept(l, st) && HolderKept(l, st) && RailKept(st) && PlansKept(st) && RefusedKept(st)
  }

  /** Attempts, plans, resumptions, uses and approval events are only ever added. */
  ghost predicate Grows(st: State, st': State) {
    && st.attempts <= st'.attempts && st.now <= st'.now
    && (forall id <- st.plans :: id in st'.plans && st'.plans[id] == st.plans[id])
    && st.resumed <= st'.resumed
    && (forall id <- st.spent :: id in st'.spent && st'.spent[id] == st.spent[id])
    && (forall id :: OwnerApproved(st, id) ==> OwnerApproved(st', id))
  }

  lemma BackedGrows(st: State, st': State, attempt: nat, amount: int, latest: int)
    requires Grows(st, st') && Backed(st, attempt, amount, latest)
    ensures Backed(st', attempt, amount, latest)
  {
    assert st'.attempts[attempt] == st.attempts[attempt];
    if st.attempts[attempt].outcome == Escalate {
      var id :| id in st.spent && SpentOn(st, id, attempt, amount);
      assert SpentOn(st', id, attempt, amount);
    }
  }

  lemma LedgerGrows(l: Limits, st: State, st': State)
    requires LedgerKept(l, st) && Grows(st, st') && st'.payments == st.payments
    ensures LedgerKept(l, st')
  {
    forall i | 0 <= i < |st.payments|
      ensures Backed(st', st.payments[i].attempt, st.payments[i].amount, st.payments[i].at)
    {
      BackedGrows(st, st', st.payments[i].attempt, st.payments[i].amount, st.payments[i].at);
    }
  }

  /** The holder is unchanged while others make progress. */
  lemma HolderGrows(l: Limits, st: State, st': State)
    requires HolderKept(l, st) && Grows(st, st') && st'.payments == st.payments && st'.holder == st.holder
    requires st'.spent == st.spent
    ensures HolderKept(l, st')
  {
    if Busy(st.holder) {
      BackedGrows(st, st', st.holder.attempt, st.holder.amount, st.holder.checkedAt);
    }
  }

  /** A step that records no payment. */
  lemma KeptWith(l: Limits, st: State, st': State)
    requires Inv(l, st) && Grows(st, st') && st'.payments == st.payments && st'.rail == st.rail
    requires !st.holder.Paid? && !st'.holder.Paid? && PlansKept(st') && HolderKept(l, st')
    requires st'.refused == st.refused
    ensures Inv(l, st')
  {
    LedgerGrows(l, st, st');
  }

  lemma DecideGrows(st: State, s: Approvals.Step)
    requires PlansKept(st)
    ensures var st' := st.(ap := Approvals.Apply(st.ap, s));
            Grows(st, st') && PlansKept(st')
  {
    var st' := st.(ap := Approvals.Apply(st.ap, s));
    forall id | id in st.plans ensures PlanKept(st', st.plans[id]) {
      assert PlanKept(st, st.plans[id]);
    }
  }

  /** What evaluation against the current ledger establishes. */
  lemma PermittedLimits(l: Limits, st: State, a: Attempt)
    requires Verdict(l, st, a) != Deny
    ensures WithinLimits(l, st.payments, a.amount, st.now)
  {
  }

  lemma AttemptedGrows(l: Limits, st: State, a: Attempt)
    requires PlansKept(st)
    ensures Grows(st, Attempted(l, st, a)) && PlansKept(Attempted(l, st, a))
  {
    var st' := Attempted(l, st, a);
    forall id | id in st.plans ensures PlanKept(st', st.plans[id]) {
      assert PlanKept(st, st.plans[id]);
    }
  }

  /** Policy admitted the attempt just recorded. */
  lemma AdmittedKept(l: Limits, st: State, a: Attempt, st': State)
    requires LedgerKept(l, st) && a.amount > 0 && Verdict(l, st, a) != Deny
    requires st'.attempts == Attempted(l, st, a).attempts && st'.payments == st.payments && st'.now == st.now
    requires st'.holder.Admitted? && st'.holder.attempt == |st.attempts| && st'.holder.amount == a.amount
    requires st'.holder.checkedAt == st.now
    requires Verdict(l, st, a) == Escalate ==> Covered(st', |st.attempts|, a.amount)
    ensures HolderKept(l, st')
  {
    PermittedLimits(l, st, a);
  }

  lemma EscalatedKept(l: Limits, st: State, id: Approvals.Id, attempt: nat, expiresAt: int, plan: Plan)
    requires PlansKept(st) && PlanKept(st, plan) && id !in st.plans
    ensures Grows(st, Escalated(st, id, attempt, expiresAt, plan))
            && PlansKept(Escalated(st, id, attempt, expiresAt, plan))
  {
    var st' := Escalated(st, id, attempt, expiresAt, plan);
    forall x | x in st'.plans ensures PlanKept(st', st'.plans[x]) {
      assert x in st.plans ==> PlanKept(st, st.plans[x]);
    }
  }

  lemma GrowsTwice(a: State, b: State, c: State)
    requires Grows(a, b) && Grows(b, c)
    ensures Grows(a, c)
  {
  }

  lemma PayDirectKeeps(l: Limits, st: State, a: Attempt, id: Approvals.Id, expiresAt: int)
    requires Inv(l, st) && Enabled(st, PayDirect(a, id, expiresAt))
    ensures Inv(l, Apply(l, st, PayDirect(a, id, expiresAt)))
  {
    var after, st' := Attempted(l, st, a), Apply(l, st, PayDirect(a, id, expiresAt));
    AttemptedGrows(l, st, a);
    match Verdict(l, st, a) {
      case Allow =>
        AdmittedKept(l, st, a, st');
        PlansOnly(after, st');
      case Deny =>
      case Escalate =>
        EscalatedKept(l, after, id, |st.attempts|, expiresAt, DirectPlan(|st.attempts|, a.amount));
        GrowsTwice(st, after, st');
    }
    KeptWith(l, st, st');
  }

  /** Only the holder differs. */
  lemma PlansOnly(st: State, st': State)
    requires PlansKept(st) && st' == st.(holder := st'.holder)
    ensures PlansKept(st') && Grows(st, st')
  {
    forall id | id in st.plans ensures PlanKept(st', st.plans[id]) {
      assert PlanKept(st, st.plans[id]);
    }
  }

  lemma CeilingCovers(st: State, c: Ceiling, n: nat, amount: int, st': State)
    requires Unspent(st, c) && amount <= c.amount && Grows(st, st') && c.id in st'.spent && st'.spent[c.id] == n
    ensures Covered(st', n, amount)
  {
    assert SpentOn(st', c.id, n, amount);
  }

  lemma GateIdles(l: Limits, st: State, a: Attempt)
    requires PlansKept(st)
    ensures var idle := Attempted(l, st, a).(holder := Idle);
            Grows(st, idle) && PlansKept(idle)
  {
    AttemptedGrows(l, st, a);
    PlansOnly(Attempted(l, st, a), Attempted(l, st, a).(holder := Idle));
    GrowsTwice(st, Attempted(l, st, a), Attempted(l, st, a).(holder := Idle));
  }

  lemma GateAllows(l: Limits, st: State, a: Attempt)
    requires Inv(l, st) && st.holder.Fetching? && a.amount > 0 && Verdict(l, st, a) == Allow
    ensures Inv(l, Attempted(l, st, a).(holder := Admitted(|st.attempts|, a.amount, st.now, Allowed)))
  {
    var idle := Attempted(l, st, a).(holder := Idle);
    var st' := idle.(holder := Admitted(|st.attempts|, a.amount, st.now, Allowed));
    GateIdles(l, st, a);
    PlansOnly(idle, st');
    GrowsTwice(st, idle, st');
    AdmittedKept(l, st, a, st');
    KeptWith(l, st, st');
  }

  lemma GatePreApproves(l: Limits, st: State, a: Attempt, c: Ceiling)
    requires Inv(l, st) && st.holder == Fetching(Some(c)) && a.amount > 0 && a.amount <= c.amount
    requires Verdict(l, st, a) == Escalate
    ensures Inv(l, Attempted(l, st, a).(holder := Admitted(|st.attempts|, a.amount, st.now, PreApproved),
                                        spent := st.spent[c.id := |st.attempts|]))
  {
    var idle := Attempted(l, st, a).(holder := Idle);
    var st' := idle.(holder := Admitted(|st.attempts|, a.amount, st.now, PreApproved),
                     spent := st.spent[c.id := |st.attempts|]);
    GateIdles(l, st, a);
    SpendGrows(idle, c.id, |st.attempts|, st');
    GrowsTwice(st, idle, st');
    CeilingCovers(st, c, |st.attempts|, a.amount, st');
    AdmittedKept(l, st, a, st');
    KeptWith(l, st, st');
  }

  lemma SpendGrows(st: State, id: Approvals.Id, n: nat, st': State)
    requires PlansKept(st) && id in st.resumed && id !in st.spent
    requires st' == st.(holder := st'.holder, spent := st.spent[id := n])
    ensures Grows(st, st') && PlansKept(st')
  {
    forall x | x in st.plans ensures PlanKept(st', st.plans[x]) {
      assert PlanKept(st, st.plans[x]);
    }
  }

  lemma GateEscalates(l: Limits, st: State, a: Attempt, id: Approvals.Id, expiresAt: int)
    requires Inv(l, st) && st.holder.Fetching? && id !in st.plans
    ensures Inv(l, Escalated(Attempted(l, st, a).(holder := Idle), id, |st.attempts|, expiresAt, FetchPlan(a.amount)))
  {
    var idle := Attempted(l, st, a).(holder := Idle);
    var st' := Escalated(idle, id, |st.attempts|, expiresAt, FetchPlan(a.amount));
    GateIdles(l, st, a);
    EscalatedKept(l, idle, id, |st.attempts|, expiresAt, FetchPlan(a.amount));
    GrowsTwice(st, idle, st');
    KeptWith(l, st, st');
  }

  lemma GateFetchKeeps(l: Limits, st: State, a: Attempt, id: Approvals.Id, expiresAt: int)
    requires Inv(l, st) && Enabled(st, GateFetch(a, id, expiresAt))
    ensures Inv(l, Apply(l, st, GateFetch(a, id, expiresAt)))
  {
    var idle := Attempted(l, st, a).(holder := Idle);
    var covered := st.holder.ceiling.Some? && a.amount <= st.holder.ceiling.value.amount;
    if Verdict(l, st, a) == Allow {
      GateAllows(l, st, a);
    } else if Verdict(l, st, a) == Escalate && covered {
      GatePreApproves(l, st, a, st.holder.ceiling.value);
    } else if Verdict(l, st, a) == Escalate && st.holder.ceiling.None? {
      GateEscalates(l, st, a, id, expiresAt);
    } else {
      GateIdles(l, st, a);
      KeptWith(l, st, idle);
    }
  }

  lemma ResumeKeeps(l: Limits, st: State, id: Approvals.Id)
    requires Inv(l, st) && Enabled(st, Resume(id))
    ensures Inv(l, Apply(l, st, Resume(id)))
  {
    var mid, st' := st.(resumed := st.resumed + {id}), Apply(l, st, Resume(id));
    assert id !in st.spent;
    PlansKeptSame(st, mid);
    if st.plans[id].DirectPlan? {
      SpendGrows(mid, id, st.plans[id].attempt, st');
      assert PlanKept(st, st.plans[id]) && Covers(st.plans[id], st.plans[id].attempt, st.plans[id].amount);
      assert SpentOn(st', id, st.plans[id].attempt, st.plans[id].amount);
      assert Backed(st', st.plans[id].attempt, st.plans[id].amount, st.now);
    } else {
      PlansOnly(mid, st');
    }
    GrowsTwice(st, mid, st');
    KeptWith(l, st, st');
  }

  lemma RestartKeeps(l: Limits, st: State)
    requires Inv(l, st) && Enabled(st, Restart)
    ensures Inv(l, Apply(l, st, Restart))
  {
    var st' := Apply(l, st, Restart);
    forall x | x in st.plans ensures PlanKept(st', st.plans[x]) {
      assert PlanKept(st, st.plans[x]);
    }
    KeptWith(l, st, st');
  }

  /** Time or approvals move on; the holder and the ledger stay. */
  lemma BackgroundKeeps(l: Limits, st: State, st': State)
    requires Inv(l, st) && Grows(st, st') && st'.payments == st.payments && st'.rail == st.rail
    requires st'.holder == st.holder && st'.spent == st.spent && st'.refused == st.refused
    requires PlansKept(st')
    ensures Inv(l, st')
  {
    LedgerGrows(l, st, st');
    HolderGrows(l, st, st');
  }

  lemma PayOkKeeps(l: Limits, st: State)
    requires Inv(l, st) && st.holder.Admitted?
    ensures Inv(l, Apply(l, st, PayOk))
  {
    var st' := Apply(l, st, PayOk);
    PlansKeptSame(st, st');
    LedgerGrows(l, st, st');
    BackedGrows(st, st', st.holder.attempt, st.holder.amount, st.holder.checkedAt);
  }

  lemma GovernedAppend(l: Limits, ps: seq<Payment>, p: Payment)
    requires Governed(l, ps) && p.amount > 0 && p.checkedAt <= p.at && AllBy(ps, p.checkedAt)
    requires !p.aside ==> WithinLimits(l, ps, p.amount, p.checkedAt)
    ensures Governed(l, ps + [p])
  {
    assert (ps + [p])[..|ps|] == ps;
  }

  lemma RecordLedger(l: Limits, st: State, st': State, p: Payment)
    requires LedgerKept(l, st) && Grows(st, st') && st'.payments == st.payments + [p] && st'.now == st.now
    requires p.amount > 0 && p.checkedAt <= p.at == st.now && AllBy(st.payments, p.checkedAt)
    requires !p.aside ==> WithinLimits(l, st.payments, p.amount, p.checkedAt)
    requires Backed(st, p.attempt, p.amount, p.checkedAt)
    ensures LedgerKept(l, st')
  {
    GovernedAppend(l, st.payments, p);
    forall i | 0 <= i < |st'.payments|
      ensures Backed(st', st'.payments[i].attempt, st'.payments[i].amount, st'.payments[i].at)
    {
      if i < |st.payments| {
        BackedGrows(st, st', st.payments[i].attempt, st.payments[i].amount, st.payments[i].at);
      } else {
        BackedGrows(st, st', p.attempt, p.amount, p.checkedAt);
      }
    }
  }

  lemma RecordRail(st: State, p: Payment)
    requires RailKept(st) && st.holder.Paid? && p.attempt == st.holder.attempt && p.amount == st.holder.amount
    ensures st.rail == Map(RailOf, st.payments + [p]) + []
  {
    MapAppend(RailOf, st.payments, [p]);
    assert Map(RailOf, [p]) == [RailOf(p)];
  }

  lemma RecordKeeps(l: Limits, st: State)
    requires Inv(l, st) && st.holder.Paid?
    ensures Inv(l, Apply(l, st, RecordPayment))
  {
    var h := st.holder;
    var p := Payment(h.attempt, h.amount, h.checkedAt, st.now, h.mode.OwnerDirect?);
    RecordIs(l, st, p);
    RecordedKept(l, st, st.(holder := Idle, payments := st.payments + [p]), p);
  }

  lemma RecordIs(l: Limits, st: State, p: Payment)
    requires st.holder.Paid?
    requires var h := st.holder; p == Payment(h.attempt, h.amount, h.checkedAt, st.now, h.mode.OwnerDirect?)
    ensures Apply(l, st, RecordPayment) == st.(holder := Idle, payments := st.payments + [p])
  {
  }

  lemma RecordedKept(l: Limits, st: State, st': State, p: Payment)
    requires Inv(l, st) && st.holder.Paid? && st' == st.(holder := Idle, payments := st.payments + [p])
    requires var h := st.holder; p == Payment(h.attempt, h.amount, h.checkedAt, st.now, h.mode.OwnerDirect?)
    ensures Inv(l, st')
  {
    PlansKeptSame(st, st');
    RecordLedger(l, st, st', p);
    RecordRail(st, p);
    RecordRefused(st, st', p);
  }

  lemma RecordRefused(st: State, st': State, p: Payment)
    requires RefusedKept(st) && st.holder.Paid? && p.attempt == st.holder.attempt
    requires st'.payments == st.payments + [p] && st'.refused == st.refused
    ensures RefusedKept(st')
  {
    assert st'.payments[|st.payments|] == p;
    forall n | n in st.refused ensures Listed(st', n) {
      if Listed(st, n) {
        var i :| 0 <= i < |st.payments| && st.payments[i].attempt == n;
        assert st'.payments[i] == st.payments[i];
      }
    }
  }

  lemma AnswerKeeps(l: Limits, st: State, served: bool)
    requires Inv(l, st) && st.holder.Paid?
    ensures Inv(l, Apply(l, st, Answer(served)))
  {
    var st' := Apply(l, st, Answer(served));
    assert st' == st.(refused := st'.refused);
    PlansKeptSame(st, st');
    LedgerGrows(l, st, st');
    HolderGrows(l, st, st');
    AnswerRefused(st, st');
  }

  lemma AnswerRefused(st: State, st': State)
    requires RefusedKept(st) && st.holder.Paid? && st' == st.(refused := st'.refused)
    requires st'.refused <= st.refused + {st.holder.attempt}
    ensures RefusedKept(st')
  {
    assert forall n :: Listed(st, n) ==> Listed(st', n);
  }

  /** Attempts, plans and approvals are the same. */
  lemma PlansKeptSame(st: State, st': State)
    requires PlansKept(st) && st'.attempts == st.attempts && st'.plans == st.plans && st'.ap == st.ap
    requires st'.now >= st.now && st'.resumed >= st.resumed && st'.spent == st.spent
    ensures PlansKept(st') && Grows(st, st')
  {
    forall id | id in st.plans ensures PlanKept(st', st.plans[id]) {
      assert PlanKept(st, st.plans[id]);
    }
  }

  lemma StepKeeps(l: Limits, st: State, step: Step)
    requires Inv(l, st) && Enabled(st, step)
    ensures Inv(l, Apply(l, st, step))
  {
    match step {
      case Tick(t) =>
        var st' := st.(now := t);
        PlansKeptSame(st, st');
        BackgroundKeeps(l, st, st');
      case Decide(s) =>
        DecideGrows(st, s);
        BackgroundKeeps(l, st, st.(ap := Approvals.Apply(st.ap, s)));
      case PayDirect(a, id, expiresAt) => PayDirectKeeps(l, st, a, id, expiresAt);
      case GateFetch(a, id, expiresAt) => GateFetchKeeps(l, st, a, id, expiresAt);
      case PayOk => PayOkKeeps(l, st);
      case Answer(served) => AnswerKeeps(l, st, served);
      case RecordPayment => RecordKeeps(l, st);
      case Resume(id) => ResumeKeeps(l, st, id);
      case Restart => RestartKeeps(l, st);
      case _ =>
        PlansOnly(st, Apply(l, st, step));
        KeptWith(l, st, Apply(l, st, step));
    }
  }

  lemma {:induction false} RunKeeps(l: Limits, steps: seq<Step>)
    requires IsRun(l, steps)
    ensures Inv(l, After(l, steps))
  {
    if steps != [] {
      RunKeeps(l, steps[..|steps| - 1]);
      StepKeeps(l, After(l, steps[..|steps| - 1]), steps[|steps| - 1]);
    }
  }

  // --- what the invariant says about runs ---

  lemma PlansHaveApprovals(l: Limits, steps: seq<Step>)
    requires IsRun(l, steps)
    ensures After(l, steps).plans.Keys <= After(l, steps).ap.approvals.Keys
  {
    RunKeeps(l, steps);
  }

  /** In every run each UTC day, week and hour is within its limit, owner-approved direct payments set aside. */
  lemma BudgetsHold(l: Limits, steps: seq<Step>, t: int)
    requires IsRun(l, steps)
    ensures var ps := After(l, steps).payments;
            && (l.daily > 0 ==> PeriodSum(ps, DayStart, DayStart(t)) <= l.daily)
            && (l.weekly > 0 ==> PeriodSum(ps, WeekStart, WeekStart(t)) <= l.weekly)
            && (l.perHour > 0 ==> WindowCount(ps, t) <= l.perHour)
  {
    RunKeeps(l, steps);
    LimitsHold(l, After(l, steps).payments, t);
  }

  /** In every run the ledger lists the successful rail payments one by one; only the one in progress may be missing. */
  lemma LedgerMatchesRail(l: Limits, steps: seq<Step>)
    requires IsRun(l, steps)
    ensures var st := After(l, steps);
            && Map(RailOf, st.payments) <= st.rail
            && |st.rail| == |st.payments| + if st.holder.Paid? then 1 else 0
  {
    RunKeeps(l, steps);
  }

  lemma {:induction false} RunApprovals(l: Limits, steps: seq<Step>)
    requires IsRun(l, steps)
    ensures Approvals.Inv(After(l, steps).ap)
  {
    if steps != [] {
      var st, step := After(l, steps[..|steps| - 1]), steps[|steps| - 1];
      RunApprovals(l, steps[..|steps| - 1]);
      ApprovalStep(l, st, step);
    }
  }

  lemma ApprovalStep(l: Limits, st: State, step: Step)
    requires Approvals.Inv(st.ap) && Enabled(st, step)
    ensures Approvals.Inv(Apply(l, st, step).ap)
  {
    match step {
      case PayDirect(a, id, expiresAt) => Approvals.StepKeeps(st.ap, Approvals.Create(id, |st.attempts|, expiresAt));
      case GateFetch(a, id, expiresAt) => Approvals.StepKeeps(st.ap, Approvals.Create(id, |st.attempts|, expiresAt));
      case Decide(s) => Approvals.StepKeeps(st.ap, s);
      case Restart => Approvals.StepKeeps(st.ap, Approvals.Restart);
      case _ =>
    }
  }

  /** Some resolver won the approved verdict for id no later than its expiry. */
  ghost predicate WonInTime(ap: Approvals.State, id: Approvals.Id) {
    id in ap.approvals && exists e <- ap.history ::
      e.Left? && e.id == id && e.status == Approvals.Approved && e.at <= ap.approvals[id].expiresAt
  }

  lemma RanWasWon(ap: Approvals.State, id: Approvals.Id)
    requires Approvals.Inv(ap) && Approvals.Ran(id, true) in ap.history
    ensures WonInTime(ap, id)
  {
    var i :| 0 <= i < |ap.history| && ap.history[i] == Approvals.Ran(id, true);
    Approvals.RunFollows(ap.history, i);
    var j :| 0 <= j < i && ap.history[j].Left? && ap.history[j].id == id && ap.history[j].status == Approvals.Approved;
    assert ap.history[j] in ap.history;
  }

  /** An owner's approval, won in time, that was spent on this entry and is for at least its amount. */
  ghost predicate Backs(st: State, id: Approvals.Id, p: Payment) {
    && id in st.spent && st.spent[id] == p.attempt
    && id in st.plans && Covers(st.plans[id], p.attempt, p.amount) && WonInTime(st.ap, id)
  }

  lemma SpentBacks(st: State, p: Payment)
    requires Approvals.Inv(st.ap) && Covered(st, p.attempt, p.amount)
    ensures exists id <- st.spent :: Backs(st, id, p)
  {
    var id :| id in st.spent && SpentOn(st, id, p.attempt, p.amount);
    RanWasWon(st.ap, id);
    assert Backs(st, id, p);
  }

  /**
   * In every run each ledger entry names an attempt recorded earlier for exactly its amount, which policy allowed or
   * which it escalated and an owner approved, in time, for at least that amount.
   */
  lemma PaymentsAreBacked(l: Limits, steps: seq<Step>, i: nat)
    requires IsRun(l, steps) && i < |After(l, steps).payments|
    ensures var st := After(l, steps);
            var p := st.payments[i];
            && p.attempt < |st.attempts|
            && var r := st.attempts[p.attempt];
               && r.a.amount == p.amount && r.at <= p.at
               && (r.outcome == Allow || (r.outcome == Escalate && exists id <- st.spent :: Backs(st, id, p)))
  {
    RunKeeps(l, steps);
    RunApprovals(l, steps);
    var st := After(l, steps);
    LedgerBacked(st, st.payments[i]);
  }

  lemma LedgerBacked(st: State, p: Payment)
    requires Approvals.Inv(st.ap) && Backed(st, p.attempt, p.amount, p.at)
    ensures st.attempts[p.attempt].outcome != Allow ==> exists id <- st.spent :: Backs(st, id, p)
  {
    if st.attempts[p.attempt].outcome != Allow {
      SpentBacks(st, p);
    }
  }

  // --- the threshold and the cap ---

  /** Each recorded attempt was judged by the rules on its own amount. */
  predicate Vetted(l: Limits, attempts: seq<Record>) {
    forall i :: 0 <= i < |attempts| ==>
      var r := attempts[i];
      && (r.outcome == Allow ==> !(0 < l.threshold <= r.a.amount))
      && (r.outcome != Deny ==> !(0 < l.maxPerPayment < r.a.amount))
  }

  lemma AttemptVets(l: Limits, st: State, a: Attempt)
    requires Vetted(l, st.attempts)
    ensures Vetted(l, Attempted(l, st, a).attempts)
  {
    DecidedExactly(l, a, UsageAt(Spends(st.payments), st.now));
  }

  lemma StepVets(l: Limits, st: State, step: Step)
    requires Vetted(l, st.attempts)
    ensures Vetted(l, Apply(l, st, step).attempts)
  {
    match step {
      case PayDirect(a, _, _) => AttemptVets(l, st, a);
      case GateFetch(a, _, _) => AttemptVets(l, st, a);
      case _ =>
    }
  }

  lemma {:induction false} RunVets(l: Limits, steps: seq<Step>)
    ensures Vetted(l, After(l, steps).attempts)
  {
    if steps != [] {
      RunVets(l, steps[..|steps| - 1]);
      StepVets(l, After(l, steps[..|steps| - 1]), steps[|steps| - 1]);
    }
  }

  /**
   * In every run no ledger entry exceeds a set cap, and each of at least a set threshold has an approval, won from an
   * owner in time for at least its amount, that was spent on it.
   */
  lemma LargeAreApproved(l: Limits, steps: seq<Step>, i: nat)
    requires IsRun(l, steps) && i < |After(l, steps).payments|
    ensures var st := After(l, steps);
            var p := st.payments[i];
            && (l.maxPerPayment > 0 ==> p.amount <= l.maxPerPayment)
            && (l.threshold > 0 && p.amount >= l.threshold ==> exists id <- st.spent :: Backs(st, id, p))
  {
    RunVets(l, steps);
    PaymentsAreBacked(l, steps, i);
  }

  // --- a restart fails closed ---

  /** The approval exists, and whatever was planned under it can no longer be resumed. */
  predicate Abandoned(st: State, id: Approvals.Id) { id in st.resumed && Approvals.Forgotten(st.ap, id) }

  lemma StillAbandoned(l: Limits, st: State, step: Step, id: Approvals.Id)
    requires Abandoned(st, id) && Enabled(st, step)
    ensures Abandoned(Apply(l, st, step), id)
  {
    match step {
      case Decide(s) => Approvals.StillForgotten(st.ap, s, id);
      case Restart => Approvals.StillForgotten(st.ap, Approvals.Restart, id);
      case PayDirect(a, x, expiresAt) =>
        Approvals.StillForgotten(st.ap, Approvals.Create(x, |st.attempts|, expiresAt), id);
      case GateFetch(a, x, expiresAt) =>
        Approvals.StillForgotten(st.ap, Approvals.Create(x, |st.attempts|, expiresAt), id);
      case _ =>
    }
  }

  lemma RestartAbandons(l: Limits, st: State, id: Approvals.Id)
    requires Inv(l, st) && id in st.plans
    ensures Abandoned(Apply(l, st, Restart), id)
  {
  }

  /** A restart fails closed: nothing that waited for an owner before it is ever resumed after it. */
  lemma {:induction false} RestartFailsClosed(l: Limits, before: seq<Step>, after: seq<Step>, id: Approvals.Id)
    requires IsRun(l, before + [Restart] + after) && id in After(l, before).plans
    ensures Abandoned(After(l, before + [Restart] + after), id)
    ensures !Enabled(After(l, before + [Restart] + after), Resume(id))
  {
    var all := before + [Restart] + after;
    if after == [] {
      assert all == before + [Restart] && all[..|all| - 1] == before;
      RunKeeps(l, before);
      RestartAbandons(l, After(l, before), id);
    } else {
      assert all[..|all| - 1] == before + [Restart] + after[..|after| - 1];
      RestartFailsClosed(l, before, after[..|after| - 1], id);
      StillAbandoned(l, After(l, all[..|all| - 1]), all[|all| - 1], id);
    }
  }

  /** A paid attempt is listed as refused exactly when its service failed to serve. */
  lemma AnswerExactly(l: Limits, st: State, served: bool)
    requires st.holder.Paid?
    ensures Apply(l, st, Answer(served)) ==
              if served then st else st.(refused := st.refused + {st.holder.attempt})
  {
  }

  // --- one attempt, one payment ---

  ghost predicate Unpaid(st: State, attempt: nat) {
    && (forall i :: 0 <= i < |st.payments| ==> st.payments[i].attempt != attempt)
    && (Busy(st.holder) ==> st.holder.attempt != attempt)
  }

  ghost predicate PaidOnce(st: State) {
    && (forall i, j :: 0 <= i < j < |st.payments| ==> st.payments[i].attempt != st.payments[j].attempt)
    && (Busy(st.holder) ==> forall i :: 0 <= i < |st.payments| ==> st.payments[i].attempt != st.holder.attempt)
  }

  /** A parked direct payment has not been paid, and no other plan is for the same attempt. */
  ghost predicate PlansUnpaid(st: State) {
    && (forall id <- st.plans :: st.plans[id].DirectPlan? && id !in st.resumed ==> Unpaid(st, st.plans[id].attempt))
    && (forall a, b :: a in st.plans && b in st.plans && a != b && st.plans[a].DirectPlan? && st.plans[b].DirectPlan?
                       ==> st.plans[a].attempt != st.plans[b].attempt)
  }

  lemma NewAttempt(l: Limits, st: State)
    requires Inv(l, st)
    ensures Unpaid(st, |st.attempts|)
    ensures forall id <- st.plans :: st.plans[id].DirectPlan? ==> st.plans[id].attempt < |st.attempts|
  {
    forall i | 0 <= i < |st.payments| ensures st.payments[i].attempt < |st.attempts| {
      assert Backed(st, st.payments[i].attempt, st.payments[i].amount, st.payments[i].at);
    }
    forall id | id in st.plans && st.plans[id].DirectPlan? ensures st.plans[id].attempt < |st.attempts| {
      assert PlanKept(st, st.plans[id]);
    }
  }

  ghost predicate Distinct(st: State) { PaidOnce(st) && PlansUnpaid(st) }

  /** Nothing new is paid or being paid; plans may gain fetches and lose nothing. */
  lemma QuietStep(st: State, st': State)
    requires Distinct(st) && st'.payments == st.payments && st.resumed <= st'.resumed
    requires !Busy(st'.holder) || (Busy(st.holder) && st'.holder.attempt == st.holder.attempt)
    requires forall id <- st'.plans :: st'.plans[id].DirectPlan? ==> id in st.plans && st'.plans[id] == st.plans[id]
    ensures Distinct(st')
  {
  }

  /** An attempt nobody paid or planned for takes the critical section. */
  lemma AdmitStep(st: State, st': State, n: nat)
    requires Distinct(st) && Unpaid(st, n) && st'.payments == st.payments && st'.plans == st.plans
             && st.resumed <= st'.resumed
    requires Busy(st'.holder) && st'.holder.attempt == n
    requires forall id <- st.plans :: st.plans[id].DirectPlan? && id !in st'.resumed ==> st.plans[id].attempt != n
    ensures Distinct(st')
  {
  }

  lemma PlanStep(st: State, st': State, id: Approvals.Id, n: nat, plan: Plan)
    requires Distinct(st) && Unpaid(st, n) && st'.payments == st.payments && st'.holder == st.holder
             && st'.resumed == st.resumed
    requires id !in st.plans && st'.plans == st.plans[id := plan] && plan.DirectPlan? && plan.attempt == n
    requires forall x <- st.plans :: st.plans[x].DirectPlan? ==> st.plans[x].attempt < n
    ensures Distinct(st')
  {
  }

  lemma PaidStep(st: State, st': State, p: Payment)
    requires Distinct(st) && Busy(st.holder) && p.attempt == st.holder.attempt
    requires st'.payments == st.payments + [p] && st'.holder.Idle? && st'.plans == st.plans && st'.resumed == st.resumed
    ensures Distinct(st')
  {
  }

  lemma DirectDistinct(l: Limits, st: State, a: Attempt, id: Approvals.Id, expiresAt: int)
    requires Inv(l, st) && Distinct(st) && Enabled(st, PayDirect(a, id, expiresAt))
    ensures Distinct(Apply(l, st, PayDirect(a, id, expiresAt)))
  {
    var st', n := Apply(l, st, PayDirect(a, id, expiresAt)), |st.attempts|;
    NewAttempt(l, st);
    match Verdict(l, st, a) {
      case Allow => AdmitStep(st, st', n);
      case Deny => QuietStep(st, st');
      case Escalate => PlanStep(st, st', id, n, DirectPlan(n, a.amount));
    }
  }

  /** A gate decision pays nothing; it parks a fetch or takes the critical section for the new attempt. */
  lemma FetchSame(l: Limits, st: State, a: Attempt, id: Approvals.Id, expiresAt: int)
    requires Enabled(st, GateFetch(a, id, expiresAt)) && PlansKept(st)
    ensures var st' := Apply(l, st, GateFetch(a, id, expiresAt));
            && st'.payments == st.payments && st'.resumed == st.resumed && !st'.holder.Paid?
            && (st'.holder.Admitted? ==> st'.holder.attempt == |st.attempts| && st'.plans == st.plans)
            && forall x <- st'.plans :: st'.plans[x].DirectPlan? ==> x in st.plans && st'.plans[x] == st.plans[x]
  {
  }

  lemma FetchDistinct(l: Limits, st: State, a: Attempt, id: Approvals.Id, expiresAt: int)
    requires Inv(l, st) && Distinct(st) && Enabled(st, GateFetch(a, id, expiresAt))
    ensures Distinct(Apply(l, st, GateFetch(a, id, expiresAt)))
  {
    var st', n := Apply(l, st, GateFetch(a, id, expiresAt)), |st.attempts|;
    NewAttempt(l, st);
    FetchSame(l, st, a, id, expiresAt);
    if st'.holder.Admitted? {
      AdmitStep(st, st', n);
    } else {
      QuietStep(st, st');
    }
  }

  lemma ResumeDistinct(l: Limits, st: State, id: Approvals.Id)
    requires Distinct(st) && Enabled(st, Resume(id))
    ensures Distinct(Apply(l, st, Resume(id)))
  {
    var st' := Apply(l, st, Resume(id));
    if st.plans[id].DirectPlan? {
      AdmitStep(st, st', st.plans[id].attempt);
    } else {
      QuietStep(st, st');
    }
  }

  lemma DistinctStep(l: Limits, st: State, step: Step)
    requires Inv(l, st) && Distinct(st) && Enabled(st, step)
    ensures Distinct(Apply(l, st, step))
  {
    match step {
      case PayDirect(a, id, expiresAt) => DirectDistinct(l, st, a, id, expiresAt);
      case GateFetch(a, id, expiresAt) => FetchDistinct(l, st, a, id, expiresAt);
      case Resume(id) => ResumeDistinct(l, st, id);
      case RecordPayment =>
        var h := st.holder;
        PaidStep(st, Apply(l, st, step), Payment(h.attempt, h.amount, h.checkedAt, st.now, h.mode.OwnerDirect?));
      case _ => QuietStep(st, Apply(l, st, step));
    }
  }

  /** In every run no attempt is paid twice. */
  lemma {:induction false} NoAttemptPaidTwice(l: Limits, steps: seq<Step>)
    requires IsRun(l, steps)
    ensures Distinct(After(l, steps))
  {
    if steps != [] {
      RunKeeps(l, steps[..|steps| - 1]);
      NoAttemptPaidTwice(l, steps[..|steps| - 1]);
      DistinctStep(l, After(l, steps[..|steps| - 1]), steps[|steps| - 1]);
    }
  }

  /** In every run an approval backs at most one ledger entry. */
  lemma ApprovalBacksOne(l: Limits, steps: seq<Step>, id: Approvals.Id, i: nat, j: nat)
    requires IsRun(l, steps) && i < |After(l, steps).payments| && j < |After(l, steps).payments|
    requires var st := After(l, steps); Backs(st, id, st.payments[i]) && Backs(st, id, st.payments[j])
    ensures i == j
  {
    NoAttemptPaidTwice(l, steps);
  }

  /** In every run a service that took the money and then failed is in the ledger once, unless its record is next. */
  lemma RefusedAreListed(l: Limits, steps: seq<Step>, n: nat)
    requires IsRun(l, steps) && n in After(l, steps).refused
    ensures var st := After(l, steps);
            if st.holder.Paid? && st.holder.attempt == n then !Listed(st, n) else ListedOnce(st, n)
  {
    RunKeeps(l, steps);
    NoAttemptPaidTwice(l, steps);
  }

  ghost predicate ListedOnce(st: State, attempt: nat) {
    exists i :: 0 <= i < |st.payments| && st.payments[i].attempt == attempt
                && forall j :: 0 <= j < |st.payments| && st.payments[j].attempt == attempt ==> j == i
  }
}
