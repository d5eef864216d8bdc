/** The agent's payment service as it runs under its lock (agent/service.go), step by step with the run model. */
module Agent {
  import opened Base
  import opened Policy
  import opened Budgets
  import opened Buyer
  import Approvals
  import PayClient
  import Seller

  datatype DirectResult =
    | NotPayable | PolicyDenied | PendingApproval | Unreachable
    | RailFailed(failedAttempt: nat) | Done(attempt: nat)

  /** A fetch ends in the client's result, is refused by policy, or waits for the owner if some channel was reached. */
  datatype FetchResult = Replied(result: PayClient.Fetched) | Refused | AwaitingOwner(attempt: nat) | NoChannel

  /**
   * What one fetch meets: its request, the clock at its start, policy check and record, all answers it gets, and
   * whether an approval it needs would reach some channel.
   */
  datatype Fetch = Fetch(w: Seller.World, net: Seller.Network, host: Option<Bytes>, opt: PayClient.Options,
                         start: int, now: int, later: int, server: PayClient.Server, pay: Bytes -> Option<Bytes>,
                         id: Approvals.Id, expiresAt: int, reached: bool)

  function QuoteOf(f: Fetch, tokens: map<Bytes, PayClient.Token>): Option<PayClient.Challenge> {
    PayClient.Quoted(f.w, f.net, tokens, f.host, f.opt, f.start, f.server)
  }

  class Service {
    const limits: Limits
    const client: PayClient.Client
    var attempts: seq<Record>
    var payments: seq<Payment>
    ghost var steps: seq<Step>
    ghost var st: State

    /** The audit store is what a run of the agent's machine says it is. */
    ghost predicate Valid()
      reads this
    {
      IsRun(limits, steps) && st == After(limits, steps) && attempts == st.attempts && payments == st.payments
    }

    constructor (limits: Limits)
      ensures Valid() && st == START && this.limits == limits && fresh(client)
    {
      this.limits := limits;
      client := new PayClient.Client();
      attempts, payments, steps, st := [], [], [], START;
    }

    ghost method Advance(step: Step)
      requires IsRun(limits, steps) && st == After(limits, steps) && Enabled(st, step)
      modifies this`steps, this`st
      ensures IsRun(limits, steps) && st == After(limits, steps)
      ensures st == Apply(limits, old(st), step) && steps == old(steps) + [step]
    {
      RunAdd(limits, steps, step);
      steps := steps + [step];
      st := After(limits, steps);
    }

    /** Evaluate against usage derived from the ledger, and record the attempt with its decision. */
    method EvaluateAndRecord(a: Attempt, now: int) returns (attempt: nat, outcome: Outcome)
      modifies this`attempts
      ensures attempt == |old(attempts)| && outcome == Decided(limits, a, UsageAt(Spends(payments), now))
      ensures attempts == old(attempts) + [Record(a, outcome, now)]
    {
      var usage := ComputeUsage(Spends(payments), now);
      var decision := Evaluate(limits, a, usage);
      attempt, outcome := |attempts|, decision.outcome;
      attempts := attempts + [Record(a, outcome, now)];
    }

    /** Enter what a rail has paid into the ledger, after the service's answer if one was asked. */
    method RecordPaid(attempt: nat, amount: int, checkedAt: int, aside: bool, answer: Option<bool>, later: int)
      requires Valid() && PaidFor(st.holder, attempt, amount, checkedAt, aside) && st.now <= later
      modifies this`payments, this`steps, this`st
      ensures Valid() && st == Recorded(limits, old(st), answer, later)
      ensures payments == old(payments) + [Payment(attempt, amount, checkedAt, later, aside)]
    {
      if answer.Some? {
        Advance(Answer(answer.value));
      }
      Advance(Tick(later));
      Advance(RecordPayment);
      payments := payments + [Payment(attempt, amount, checkedAt, later, aside)];
    }

    /** Pay over the rail and record it; later is the time of the record. */
    method Exec(attempt: nat, amount: int, checkedAt: int, mode: Mode, railOk: bool, later: int)
      requires Valid() && st.holder == Admitted(attempt, amount, checkedAt, mode) && st.now <= later
      modifies this
      ensures Valid() && st.holder.Idle? && st == Executed(limits, old(st), railOk, None, later)
    {
      if railOk {
        Advance(PayOk);
        RecordPaid(attempt, amount, checkedAt, mode.OwnerDirect?, None, later);
      } else {
        Advance(PayFail);
      }
    }

    /** The rest of an escalation: the continuation is parked, and dropped and denied when no channel was reached. */
    ghost method Escalates(id: Approvals.Id, reached: bool, now: int)
      requires IsRun(limits, steps) && st == After(limits, steps) && id in st.ap.opening
      modifies this`steps, this`st
      ensures IsRun(limits, steps) && st == After(limits, steps) && st == Parked(limits, old(st), id, reached, now)
      ensures st.holder == old(st).holder && st.attempts == old(st).attempts && st.payments == old(st).payments
      ensures reached && IsPending(old(st), id) ==> Awaits(st, id)
      ensures !reached && IsPending(old(st), id) && now <= old(st).ap.approvals[id].expiresAt ==> Dropped(st, id)
    {
      Advance(Decide(Approvals.Park(id)));
      if !reached {
        Advance(Decide(Approvals.Withdraw(id)));
        Advance(Decide(Approvals.Decide(id, false, now, true)));
      }
    }

    /** A direct payment: executed at once, denied, or parked until the owner decides. */
    method ExecuteOrEscalate(a: Attempt, now: int, railOk: bool, later: int, id: Approvals.Id, expiresAt: int,
                             reached: bool)
      returns (r: DirectResult)
      requires Valid() && st.holder.Idle? && st.now <= now <= later && id !in st.ap.approvals
      modifies this
      ensures Valid() && st.holder.Idle?
      ensures a.amount <= 0 ==> r == NotPayable && st == old(st)
      ensures a.amount > 0 ==>
        var started := Apply(limits, Apply(limits, old(st), Tick(now)), PayDirect(a, id, expiresAt));
        match Decided(limits, a, UsageAt(Spends(old(payments)), now))
        case Allow =>
          && st == Executed(limits, started, railOk, None, later)
          && r == if railOk then Done(|old(attempts)|) else RailFailed(|old(attempts)|)
        case Deny => st == started && r == PolicyDenied
        case Escalate =>
          && st == Parked(limits, started, id, reached, now)
          && r == if reached then PendingApproval else Unreachable
      ensures r == PendingApproval ==> Awaits(st, id)
      ensures r == Unreachable && now <= expiresAt ==> Dropped(st, id)
    {
      if a.amount <= 0 {
        return NotPayable;
      }
      var attempt, outcome := EvaluateAndRecord(a, now);
      Advance(Tick(now));
      Advance(PayDirect(a, id, expiresAt));
      match outcome {
        case Allow =>
          Exec(attempt, a.amount, now, Allowed, railOk, later);
          r := if railOk then Done(attempt) else RailFailed(attempt);
        case Deny => r := PolicyDenied;
        case Escalate =>
          Escalates(id, reached, now);
          r := if reached then PendingApproval else Unreachable;
      }
    }

    /** The continuation of an approved direct payment: executed without a new evaluation. */
    method RunApproved(id: Approvals.Id, attempt: nat, amount: int, now: int, railOk: bool, later: int)
      requires Valid() && st.now <= now <= later
      requires Enabled(st, Resume(id)) && st.plans[id] == DirectPlan(attempt, amount)
      modifies this
      ensures Valid() && st.holder.Idle?
      ensures st == Executed(limits, Apply(limits, Apply(limits, old(st), Tick(now)), Resume(id)), railOk, None, later)
    {
      Advance(Tick(now));
      Advance(Resume(id));
      Exec(attempt, amount, now, OwnerDirect, railOk, later);
    }

    /** The policy hook of a fetch; the ceiling is what the owner approved, if this fetch is a continuation. */
    method GateHook(a: Attempt, ceiling: Option<Ceiling>, now: int, id: Approvals.Id, expiresAt: int)
      returns (attempt: nat, admitted: bool, parked: bool)
      requires Valid() && st.holder == Fetching(ceiling) && st.now <= now && a.amount > 0 && id !in st.ap.approvals
      modifies this`attempts, this`steps, this`st
      ensures Valid() && st == Apply(limits, Apply(limits, old(st), Tick(now)), GateFetch(a, id, expiresAt))
      ensures attempt == |old(attempts)| && (admitted <==> st.holder.Admitted?) && (!admitted ==> st.holder.Idle?)
      ensures admitted ==> AdmittedFor(st.holder, attempt, a.amount, now)
      ensures match Decided(limits, a, UsageAt(Spends(old(payments)), now))
              case Allow => admitted && !parked
              case Deny => !admitted && !parked
              case Escalate =>
                if ceiling.None? then !admitted && parked
                else !parked && (admitted <==> a.amount <= ceiling.value.amount)
      ensures parked <==> id in st.plans
      ensures parked ==> !admitted && id in st.ap.opening && IsPending(st, id)
      ensures parked ==> st.ap.approvals[id].expiresAt == expiresAt
      ensures st.now == now
    {
      var outcome;
      attempt, outcome := EvaluateAndRecord(a, now);
      PlansHaveApprovals(limits, steps);
      Advance(Tick(now));
      Advance(GateFetch(a, id, expiresAt));
      parked := outcome == Escalate && ceiling.None?;
      admitted := match outcome
                  case Allow => true
                  case Deny => false
                  case Escalate => ceiling.Some? && !(a.amount > ceiling.value.amount);
    }

    /** An admitted fetch pays, presents its proof, and is recorded before the service's failure is reported. */
    method PayAndRecord(f: Fetch, ch: PayClient.Challenge, attempt: nat) returns (r: FetchResult)
      requires Valid() && f.host.Some? && st.now <= f.later
      requires AdmittedFor(st.holder, attempt, ch.amount, f.now)
      modifies this, client
      ensures Valid() && st.holder.Idle?
      ensures st == Executed(limits, old(st), f.pay(ch.invoice).Some?, Some(PayClient.Served(f.server.retry)), f.later)
      ensures r.Replied? && (Paying(r) <==> f.pay(ch.invoice).Some?)
      ensures payments == old(payments) +
                (if Paying(r) then [Payment(attempt, ch.amount, f.now, f.later, false)] else [])
      ensures Paying(r) ==> r.result == Report(f, ch, attempt)
      ensures client.tokens == Bought(f, ch, old(client.tokens), Paying(r))
    {
      var preimage := f.pay(ch.invoice);
      if preimage.None? {
        Advance(PayFail);
        return Replied(PayClient.Failed(PayClient.PayFailed));
      }
      Advance(PayOk);
      var result := client.Settle(f.host.value, ch, attempt, preimage, f.server.retry);
      RecordPaid(result.attempt, result.amount, f.now, false, Some(result.served), f.later);
      r := Replied(result);
    }

    /** A quoted fetch: policy first, then the payment if policy admits it. */
    method GateAndPay(f: Fetch, ch: PayClient.Challenge, ceiling: Option<Ceiling>) returns (r: FetchResult)
      requires Valid() && st.holder == Fetching(ceiling) && st.now <= f.now <= f.later && f.id !in st.ap.approvals
      requires f.host.Some? && ch.amount > 0
      modifies this, client
      ensures Valid() && st.holder.Idle?
      ensures var gated := Gated(limits, old(st), f, ch);
              && st == GatedThen(limits, gated, f, ch)
              && (Paying(r) <==> gated.holder.Admitted? && f.pay(ch.invoice).Some?)
      ensures payments == old(payments) +
                (if Paying(r) then [Payment(|old(attempts)|, ch.amount, f.now, f.later, false)] else [])
      ensures Paying(r) ==> r.result == Report(f, ch, |old(attempts)|)
      ensures r.AwaitingOwner? ==> Awaits(st, f.id)
      ensures r.NoChannel? && f.now <= f.expiresAt ==> Dropped(st, f.id)
      ensures client.tokens == Bought(f, ch, old(client.tokens), Paying(r))
    {
      var attempt, admitted, parked := GateHook(AttemptOf(f, ch), ceiling, f.now, f.id, f.expiresAt);
      if parked {
        Escalates(f.id, f.reached, f.now);
        return if f.reached then AwaitingOwner(attempt) else NoChannel;
      }
      if !admitted {
        return Refused;
      }
      r := PayAndRecord(f, ch, attempt);
    }

    /**
     * The paid-HTTP flow under the lock. For every server and every rail answer the machine goes through the policy
     * check and the payment, and the ledger grows by one entry exactly when the rail paid, whatever the service then
     * answers; a payment the service did not honour is recorded like any other.
     */
    method RunFetch(f: Fetch, ceiling: Option<Ceiling>) returns (r: FetchResult)
      requires Valid() && st.holder == Fetching(ceiling) && st.now <= f.now <= f.later && f.id !in st.ap.approvals
      modifies this, client
      ensures Valid() && st.holder.Idle?
      ensures st == Fetched(limits, old(st), f, QuoteOf(f, old(client.tokens)))
      ensures Paying(r) <==> Pays(limits, old(st), f, QuoteOf(f, old(client.tokens)))
      ensures !Paying(r) ==> payments == old(payments)
      ensures Paying(r) ==>
        var ch := QuoteOf(f, old(client.tokens)).value;
        && payments == old(payments) + [Payment(|old(attempts)|, ch.amount, f.now, f.later, false)]
        && r.result == Report(f, ch, |old(attempts)|)
      ensures client.tokens == TokensAfter(f, old(client.tokens), Paying(r))
    {
      var quote := client.Quote(f.w, f.net, f.host, f.opt, f.start, f.server);
      if quote.Err? {
        Advance(EndFetch);
        return Replied(quote.error);
      }
      r := GateAndPay(f, quote.value, ceiling);
    }

    /** A fetch as the caller asks for it. */
    method FetchPaid(f: Fetch) returns (r: FetchResult)
      requires Valid() && st.holder.Idle? && st.now <= f.now <= f.later && f.id !in st.ap.approvals
      modifies this, client
      ensures Valid() && st.holder.Idle?
      ensures st == Fetched(limits, Apply(limits, old(st), BeginFetch), f, QuoteOf(f, old(client.tokens)))
      ensures Paying(r) <==> Pays(limits, Apply(limits, old(st), BeginFetch), f, QuoteOf(f, old(client.tokens)))
      ensures !Paying(r) ==> payments == old(payments)
      ensures Paying(r) ==>
        var ch := QuoteOf(f, old(client.tokens)).value;
        && payments == old(payments) + [Payment(|old(attempts)|, ch.amount, f.now, f.later, false)]
        && r.result == Report(f, ch, |old(attempts)|)
      ensures client.tokens == TokensAfter(f, old(client.tokens), Paying(r))
    {
      Advance(BeginFetch);
      r := RunFetch(f, None);
    }

    /** The continuation of an approved fetch: the same flow, with the approved amount as a ceiling. */
    method ResumeFetch(f: Fetch, id: Approvals.Id, amount: int) returns (r: FetchResult)
      requires Valid() && st.now <= f.now <= f.later && f.id !in st.ap.approvals
      requires Enabled(st, Resume(id)) && st.plans[id] == FetchPlan(amount)
      modifies this, client
      ensures Valid() && st.holder.Idle?
      ensures st == Fetched(limits, Apply(limits, old(st), Resume(id)), f, QuoteOf(f, old(client.tokens)))
      ensures Paying(r) <==> Pays(limits, Apply(limits, old(st), Resume(id)), f, QuoteOf(f, old(client.tokens)))
      ensures !Paying(r) ==> payments == old(payments)
      ensures Paying(r) ==>
        var ch := QuoteOf(f, old(client.tokens)).value;
        && payments == old(payments) + [Payment(|old(attempts)|, ch.amount, f.now, f.later, false)]
        && r.result == Report(f, ch, |old(attempts)|)
      ensures client.tokens == TokensAfter(f, old(client.tokens), Paying(r))
    {
      Advance(Resume(id));
      r := RunFetch(f, Some(Ceiling(id, amount)));
    }
  }

  /** Whatever the service did so far, its ledger is within every limit and, between payments, equals the rail's. */
  lemma ServiceKeeps(s: Service, t: int)
    requires s.Valid()
    ensures s.limits.daily > 0 ==> PeriodSum(s.payments, DayStart, DayStart(t)) <= s.limits.daily
    ensures s.limits.weekly > 0 ==> PeriodSum(s.payments, WeekStart, WeekStart(t)) <= s.limits.weekly
    ensures s.limits.perHour > 0 ==> WindowCount(s.payments, t) <= s.limits.perHour
    ensures s.st.holder.Idle? ==> Map(RailOf, s.payments) == s.st.rail
  {
    BudgetsHold(s.limits, s.steps, t);
    LedgerMatchesRail(s.limits, s.steps);
  }

  function AttemptOf(f: Fetch, ch: PayClient.Challenge): Attempt
    requires f.host.Some?
  {
    PayClient.AttemptFor(f.host.value, f.opt, ch.amount)
  }

  /** Policy let this attempt go ahead. */
  ghost predicate AdmittedFor(h: Holder, attempt: nat, amount: int, checkedAt: int) {
    h.Admitted? && h.attempt == attempt && h.amount == amount && h.checkedAt == checkedAt && !h.mode.OwnerDirect?
  }

  ghost predicate PaidFor(h: Holder, attempt: nat, amount: int, checkedAt: int, aside: bool) {
    && h.Paid? && h.attempt == attempt && h.amount == amount && h.checkedAt == checkedAt
    && (aside <==> h.mode.OwnerDirect?)
  }

  /** The rail paid. */
  predicate Paying(r: FetchResult) { r.Replied? && r.result.PaidFor? }

  /** The rail answers at once or fails, then the service answers if one was asked; the record comes later. */
  ghost function Executed(l: Limits, st: State, railOk: bool, answer: Option<bool>, later: int): State {
    if !railOk then Apply(l, st, PayFail)
    else Recorded(l, Apply(l, st, PayOk), answer, later)
  }

  ghost function Recorded(l: Limits, paid: State, answer: Option<bool>, later: int): State {
    var answered := if answer.None? then paid else Apply(l, paid, Answer(answer.value));
    Apply(l, Apply(l, answered, Tick(later)), RecordPayment)
  }

  predicate IsPending(st: State, id: Approvals.Id) {
    id in st.ap.approvals && st.ap.approvals[id].status == Approvals.Pending
  }

  /** The payment waits for the owner. */
  predicate Awaits(st: State, id: Approvals.Id) { IsPending(st, id) && id in st.ap.waiting }

  /** The payment was denied, and nothing is left to run. */
  predicate Dropped(st: State, id: Approvals.Id) {
    id in st.ap.approvals && st.ap.approvals[id].status == Approvals.Denied && id !in st.ap.waiting
  }

  /** What an escalation does after its approval was created. */
  ghost function Parked(l: Limits, st: State, id: Approvals.Id, reached: bool, now: int): State {
    var parked := Apply(l, st, Decide(Approvals.Park(id)));
    if reached then parked
    else Apply(l, Apply(l, parked, Decide(Approvals.Withdraw(id))), Decide(Approvals.Decide(id, false, now, true)))
  }

  /** The policy check of a fetch that was quoted this challenge. */
  ghost function Gated(l: Limits, st: State, f: Fetch, ch: PayClient.Challenge): State {
    if f.host.None? then st
    else Apply(l, Apply(l, st, Tick(f.now)), GateFetch(AttemptOf(f, ch), f.id, f.expiresAt))
  }

  /** The steps of one fetch from the moment it holds the lock. */
  ghost function Fetched(l: Limits, st: State, f: Fetch, quote: Option<PayClient.Challenge>): State {
    match quote
    case None => Apply(l, st, EndFetch)
    case Some(ch) => GatedThen(l, Gated(l, st, f, ch), f, ch)
  }

  /** The rail is paid: there is a challenge, policy admits it, and the rail succeeds; the retry plays no part. */
  ghost predicate Pays(l: Limits, st: State, f: Fetch, quote: Option<PayClient.Challenge>) {
    && quote.Some? && Gated(l, st, f, quote.value).holder.Admitted?
    && f.pay(quote.value.invoice).Some?
  }

  ghost function GatedThen(l: Limits, gated: State, f: Fetch, ch: PayClient.Challenge): State {
    if f.id in gated.plans then Parked(l, gated, f.id, f.reached, f.now)
    else if !gated.holder.Admitted? then gated
    else Executed(l, gated, f.pay(ch.invoice).Some?, Some(PayClient.Served(f.server.retry)), f.later)
  }

  /** The credential cache after the payment of a quoted challenge, if there was one. */
  function Bought(f: Fetch, ch: PayClient.Challenge, tokens: map<Bytes, PayClient.Token>, paid: bool)
    : map<Bytes, PayClient.Token>
  {
    if paid && f.host.Some? && f.pay(ch.invoice).Some?
    then PayClient.Cached(tokens, f.host.value, ch, f.pay(ch.invoice).value, f.server.retry) else tokens
  }

  /** The cache after a whole fetch: a refused credential is gone, and what was bought is there. */
  function TokensAfter(f: Fetch, tokens: map<Bytes, PayClient.Token>, paid: bool): map<Bytes, PayClient.Token> {
    if f.host.None? then tokens
    else
      var kept := PayClient.Kept(tokens, f.host.value, f.start, f.server);
      if QuoteOf(f, tokens).None? then kept else Bought(f, QuoteOf(f, tokens).value, kept, paid)
  }

  /** What the client reports of a payment, served or not. */
  function Report(f: Fetch, ch: PayClient.Challenge, attempt: nat): PayClient.Fetched {
    PayClient.PaidFor(ch.rail, ch.amount, attempt, ch.invoice, PayClient.Served(f.server.retry))
  }
}
