/** The spending policy and the usage it is evaluated against (agent/policy/policy.go, agent/store/store.go). */
module Policy {
  import opened Base
  import opened Text

  // --- calendar ---

  /** Times are nanoseconds since the Unix epoch. */
  function Days(n: int): int { n * 86_400_000_000_000 }

  const HOUR := 3_600_000_000_000

  /** Nanoseconds, from seconds up. */
  lemma ClockUnits()
    ensures HOUR == 60 * 60 * 1_000_000_000 && Days(1) == 24 * HOUR
  {
  }

  function DayStart(t: int): int { t - t % 86_400_000_000_000 }

  /** Day of the week, Sunday 0; the epoch was a Thursday. */
  function Weekday(d: int): (w: int)
    ensures 0 <= w < 7
  {
    (d / 86_400_000_000_000 + 4) % 7
  }

  function WeekStart(t: int): int {
    var d := DayStart(t);
    var wd := if Weekday(d) == 0 then 7 else Weekday(d);
    d - Days(wd - 1)
  }

  /** DayStart is the last midnight: the only multiple of a day within the day before t. */
  lemma DayStartIs(t: int, d: int)
    ensures DayStart(t) <= t < DayStart(t) + Days(1)
    ensures d % 86_400_000_000_000 == 0 && d <= t < d + Days(1) <==> d == DayStart(t)
  {
  }

  /** WeekStart is the last Monday midnight. */
  lemma WeekStartIs(t: int)
    ensures WeekStart(t) <= t < WeekStart(t) + Days(7)
    ensures WeekStart(t) % 86_400_000_000_000 == 0 && Weekday(WeekStart(t)) == 1
  {
    var q := t / 86_400_000_000_000;
    assert DayStart(t) == Days(q);
    assert DayStart(t) / 86_400_000_000_000 == q;
    var wd := if Weekday(DayStart(t)) == 0 then 7 else Weekday(DayStart(t));
    assert WeekStart(t) == Days(q - (wd - 1));
    assert WeekStart(t) / 86_400_000_000_000 == q - (wd - 1);
  }

  lemma DayStartMonotone(s: int, t: int)
    requires s <= t
    ensures DayStart(s) <= DayStart(t)
    ensures s >= DayStart(t) ==> DayStart(s) == DayStart(t)
  {
    DayStartIs(s, DayStart(t));
    DayStartIs(t, DayStart(t));
  }

  /** The week index whose Monday WeekStart names. */
  function Week(t: int): int { (t / 86_400_000_000_000 + 3) / 7 }

  lemma WeekIndex(t: int)
    ensures WeekStart(t) == Days(7 * Week(t) - 3)
  {
    var q := t / 86_400_000_000_000;
    assert DayStart(t) == Days(q);
    assert DayStart(t) / 86_400_000_000_000 == q;
  }

  lemma WeekStartMonotone(s: int, t: int)
    requires s <= t
    ensures WeekStart(s) <= WeekStart(t)
    ensures s >= WeekStart(t) ==> WeekStart(s) == WeekStart(t)
  {
    WeekIndex(s);
    WeekIndex(t);
    assert s / 86_400_000_000_000 <= t / 86_400_000_000_000;
    assert Week(s) <= Week(t);
    if s >= WeekStart(t) {
      assert s / 86_400_000_000_000 >= 7 * Week(t) - 3;
    }
  }

  // --- usage ---

  /** What the audit store keeps of a payment for budgets. */
  datatype Spend = Spend(amount: int, at: int)

  datatype Usage = Usage(dayAtoms: int, weekAtoms: int, hourCount: int)

  function SumFrom(payments: seq<Spend>, start: int): int {
    if payments == [] then 0
    else
      var p := payments[|payments| - 1];
      SumFrom(payments[..|payments| - 1], start) + if p.at >= start then p.amount else 0
  }

  function CountAfter(payments: seq<Spend>, start: int): nat {
    if payments == [] then 0
    else CountAfter(payments[..|payments| - 1], start) + if payments[|payments| - 1].at > start then 1 else 0
  }

  function UsageAt(payments: seq<Spend>, now: int): Usage {
    Usage(SumFrom(payments, DayStart(now)), SumFrom(payments, WeekStart(now)), CountAfter(payments, now - HOUR))
  }

  method ComputeUsage(payments: seq<Spend>, now: int) returns (u: Usage)
    ensures u == UsageAt(payments, now)
  {
    var day, week, hourAgo := DayStart(now), WeekStart(now), now - HOUR;
    u := Usage(0, 0, 0);
    for i := 0 to |payments|
      invariant u == Usage(SumFrom(payments[..i], day), SumFrom(payments[..i], week),
                           CountAfter(payments[..i], hourAgo))
    {
      assert payments[..i + 1][..i] == payments[..i];
      var p := payments[i];
      if !(p.at < day) {
        u := u.(dayAtoms := u.dayAtoms + p.amount);
      }
      if !(p.at < week) {
        u := u.(weekAtoms := u.weekAtoms + p.amount);
      }
      if p.at > hourAgo {
        u := u.(hourCount := u.hourCount + 1);
      }
    }
    assert payments[..|payments|] == payments;
  }

  // --- destinations ---

  datatype DestKind = Domain | LNNode | DCRAddress | OtherKind

  datatype Attempt = Attempt(kind: DestKind, dest: Bytes, amount: int, memo: Bytes)

  /** Amounts and counts of zero or less mean no limit. */
  datatype Limits = Limits(defaultDeny: bool, maxPerPayment: int, daily: int, weekly: int, perHour: int, threshold: int,
                           allowDomains: seq<Bytes>, denyDomains: seq<Bytes>, allowNodes: set<Bytes>,
                           allowAddresses: set<Bytes>, memoRequired: bool)

  predicate MatchDomain(pattern: Bytes, host: Bytes) {
    var h := ToLower(host);
    if HasPrefix(pattern, "*.") then HasSuffix(h, ['.'] + pattern[2..]) || h == pattern[2..] else h == pattern
  }

  /** A wildcard matches the domain itself and every host below it, in any case; any other pattern only itself. */
  lemma MatchesExactly(pattern: Bytes, host: Bytes)
    ensures "*." <= pattern ==>
      (MatchDomain(pattern, host) <==>
        ToLower(host) == pattern[2..] || exists sub: Bytes :: ToLower(host) == sub + "." + pattern[2..])
    ensures !("*." <= pattern) ==> (MatchDomain(pattern, host) <==> ToLower(host) == pattern)
  {
    var h := ToLower(host);
    if "*." <= pattern {
      assert pattern[..2] == "*.";
      var rest := pattern[2..];
      if HasSuffix(h, ['.'] + rest) {
        var sub := h[..|h| - |rest| - 1];
        assert h == sub + (['.'] + rest) && sub + (['.'] + rest) == sub + "." + rest;
      }
      forall sub: Bytes | h == sub + "." + rest ensures HasSuffix(h, ['.'] + rest) {
        assert sub + "." + rest == sub + (['.'] + rest);
        assert h[|h| - |rest| - 1..] == ['.'] + rest;
      }
    } else if |pattern| >= 2 {
      assert pattern[..2] != "*.";
    }
  }

  predicate Listed(patterns: seq<Bytes>, host: Bytes) { exists p <- patterns :: MatchDomain(p, host) }

  /** The first pattern that matches. */
  method MatchAny(patterns: seq<Bytes>, host: Bytes) returns (hit: Option<Bytes>)
    ensures hit.Some? <==> Listed(patterns, host)
    ensures hit.Some? ==> exists i :: 0 <= i < |patterns| && patterns[i] == hit.value && MatchDomain(patterns[i], host)
                                      && forall j :: 0 <= j < i ==> !MatchDomain(patterns[j], host)
  {
    for i := 0 to |patterns|
      invariant forall j :: 0 <= j < i ==> !MatchDomain(patterns[j], host)
    {
      if MatchDomain(patterns[i], host) {
        return Some(patterns[i]);
      }
    }
    hit := None;
  }

  // --- evaluation ---

  datatype Rule = MemoRequired | DenyDomain | AllowDomain | AllowNode | AllowAddress | Destination
                | MaxPerPayment | PerHour | DailyBudget | WeeklyBudget | Threshold

  datatype RuleResult = RuleResult(rule: Rule, pass: bool)

  datatype Outcome = Allow | Deny | Escalate

  datatype Decision = Decision(outcome: Outcome, trace: seq<RuleResult>, remainingDay: int, remainingWeek: int)

  predicate DestinationOk(p: Limits, a: Attempt) {
    match a.kind
    case Domain =>
      !Listed(p.denyDomains, ToLower(a.dest)) && (p.defaultDeny ==> Listed(p.allowDomains, ToLower(a.dest)))
    case LNNode => p.defaultDeny ==> ToLower(a.dest) in p.allowNodes
    case DCRAddress => p.defaultDeny ==> a.dest in p.allowAddresses
    case OtherKind => false
  }

  predicate MemoOk(p: Limits, a: Attempt) { p.memoRequired ==> TrimSpace(a.memo) != [] }

  predicate CapOk(p: Limits, a: Attempt) { p.maxPerPayment > 0 ==> a.amount <= p.maxPerPayment }

  predicate RateOk(p: Limits, u: Usage) { p.perHour > 0 ==> u.hourCount < p.perHour }

  predicate DayOk(p: Limits, a: Attempt, u: Usage) { p.daily > 0 ==> u.dayAtoms + a.amount <= p.daily }

  predicate WeekOk(p: Limits, a: Attempt, u: Usage) { p.weekly > 0 ==> u.weekAtoms + a.amount <= p.weekly }

  /** Every rule short of the approval threshold holds. */
  predicate Permitted(p: Limits, a: Attempt, u: Usage) {
    MemoOk(p, a) && DestinationOk(p, a) && CapOk(p, a) && RateOk(p, u) && DayOk(p, a, u) && WeekOk(p, a, u)
  }

  predicate Large(p: Limits, a: Attempt) { p.threshold > 0 && a.amount >= p.threshold }

  function Decided(p: Limits, a: Attempt, u: Usage): Outcome {
    if !Permitted(p, a, u) then Deny else if Large(p, a) then Escalate else Allow
  }

  function Max(a: int, b: int): int { if a > b then a else b }

  /** The outcome, by the numbers: denied over any limit, escalated from the threshold on, else allowed. */
  lemma DecidedExactly(p: Limits, a: Attempt, u: Usage)
    ensures Decided(p, a, u) == Deny <==>
      || (p.memoRequired && TrimSpace(a.memo) == []) || !DestinationOk(p, a)
      || 0 < p.maxPerPayment < a.amount || 0 < p.perHour <= u.hourCount
      || 0 < p.daily < u.dayAtoms + a.amount || 0 < p.weekly < u.weekAtoms + a.amount
    ensures Decided(p, a, u) == Escalate <==> Decided(p, a, u) != Deny && 0 < p.threshold <= a.amount
  {
  }

  /** Only the last rule of a trace can have failed. */
  predicate WellTraced(trace: seq<RuleResult>, denied: bool) {
    && (forall i :: 0 <= i < |trace| - 1 ==> trace[i].pass)
    && (denied ==> trace != [] && !trace[|trace| - 1].pass)
    && (!denied && trace != [] ==> trace[|trace| - 1].pass)
  }

  /** The rule fails, by the numbers. */
  predicate Broken(rule: Rule, p: Limits, a: Attempt, u: Usage) {
    match rule
    case MemoRequired => p.memoRequired && TrimSpace(a.memo) == []
    case DenyDomain => a.kind.Domain? && Listed(p.denyDomains, ToLower(a.dest))
    case AllowDomain => a.kind.Domain? && p.defaultDeny && !Listed(p.allowDomains, ToLower(a.dest))
    case AllowNode => a.kind.LNNode? && p.defaultDeny && ToLower(a.dest) !in p.allowNodes
    case AllowAddress => a.kind.DCRAddress? && p.defaultDeny && a.dest !in p.allowAddresses
    case Destination => a.kind.OtherKind?
    case MaxPerPayment => 0 < p.maxPerPayment < a.amount
    case PerHour => 0 < p.perHour <= u.hourCount
    case DailyBudget => 0 < p.daily < u.dayAtoms + a.amount
    case WeeklyBudget => 0 < p.weekly < u.weekAtoms + a.amount
    case Threshold => false
  }

  /** The last rule of a trace, if it failed, is one that is broken. */
  predicate Blames(trace: seq<RuleResult>, p: Limits, a: Attempt, u: Usage) {
    trace != [] && !trace[|trace| - 1].pass ==> Broken(trace[|trace| - 1].rule, p, a, u)
  }

  method CheckDestination(p: Limits, a: Attempt) returns (r: RuleResult)
    ensures r.pass <==> DestinationOk(p, a)
    ensures a.kind.Domain? ==>
      (!r.pass <==> || (exists x <- p.denyDomains :: MatchDomain(x, ToLower(a.dest)))
                    || (p.defaultDeny && forall x <- p.allowDomains :: !MatchDomain(x, ToLower(a.dest))))
    ensures a.kind.LNNode? ==> (!r.pass <==> p.defaultDeny && ToLower(a.dest) !in p.allowNodes)
    ensures a.kind.DCRAddress? ==> (!r.pass <==> p.defaultDeny && a.dest !in p.allowAddresses)
    ensures a.kind.OtherKind? ==> !r.pass
    ensures !r.pass ==> forall u :: Broken(r.rule, p, a, u)
  {
    match a.kind {
      case Domain =>
        var host := ToLower(a.dest);
        var denied := MatchAny(p.denyDomains, host);
        if denied.Some? {
          return RuleResult(DenyDomain, false);
        }
        if p.defaultDeny {
          var allowed := MatchAny(p.allowDomains, host);
          return RuleResult(AllowDomain, allowed.Some?);
        }
        r := RuleResult(AllowDomain, true);
      case LNNode =>
        r := RuleResult(AllowNode, p.defaultDeny ==> ToLower(a.dest) in p.allowNodes);
      case DCRAddress =>
        r := RuleResult(AllowAddress, p.defaultDeny ==> a.dest in p.allowAddresses);
      case OtherKind =>
        r := RuleResult(Destination, false);
    }
  }

  lemma TraceAdd(trace: seq<RuleResult>, r: RuleResult)
    requires WellTraced(trace, false)
    ensures WellTraced(trace + [r], !r.pass)
  {
  }

  /** Memo and destination rules. */
  method CheckWho(p: Limits, a: Attempt) returns (trace: seq<RuleResult>, ok: bool)
    ensures ok <==> MemoOk(p, a) && DestinationOk(p, a)
    ensures WellTraced(trace, !ok)
    ensures forall u :: Blames(trace, p, a, u)
  {
    trace := [];
    if p.memoRequired {
      ok := TrimSpace(a.memo) != [];
      trace := [RuleResult(MemoRequired, ok)];
      if !ok {
        return;
      }
    }
    var dest := CheckDestination(p, a);
    TraceAdd(trace, dest);
    trace, ok := trace + [dest], dest.pass;
  }

  /** One limit rule, skipped when the limit is not set. */
  method CheckLimit(limited: bool, rule: Rule, holds: bool, before: seq<RuleResult>)
    returns (trace: seq<RuleResult>, ok: bool)
    requires WellTraced(before, false)
    ensures ok <==> (limited ==> holds)
    ensures WellTraced(trace, !ok)
    ensures trace == before + if limited then [RuleResult(rule, holds)] else []
  {
    if !limited {
      assert before + [] == before;
      return before, true;
    }
    TraceAdd(before, RuleResult(rule, holds));
    trace, ok := before + [RuleResult(rule, holds)], holds;
  }

  /** Cap, velocity and budget rules, after those in before. */
  method CheckLimits(p: Limits, a: Attempt, u: Usage, before: seq<RuleResult>)
    returns (trace: seq<RuleResult>, ok: bool)
    requires WellTraced(before, false)
    ensures ok <==> CapOk(p, a) && RateOk(p, u) && DayOk(p, a, u) && WeekOk(p, a, u)
    ensures WellTraced(trace, !ok) && Blames(trace, p, a, u)
  {
    trace, ok := CheckLimit(p.maxPerPayment > 0, MaxPerPayment, a.amount <= p.maxPerPayment, before);
    if ok {
      trace, ok := CheckLimit(p.perHour > 0, PerHour, u.hourCount < p.perHour, trace);
    }
    if ok {
      trace, ok := CheckLimit(p.daily > 0, DailyBudget, u.dayAtoms + a.amount <= p.daily, trace);
    }
    if ok {
      trace, ok := CheckLimit(p.weekly > 0, WeeklyBudget, u.weekAtoms + a.amount <= p.weekly, trace);
    }
  }

  /** The pipeline: memo, destination, cap, velocity, day, week, threshold; the first failure ends it. */
  method Evaluate(p: Limits, a: Attempt, u: Usage) returns (d: Decision)
    ensures d.outcome == Decided(p, a, u)
    ensures p.threshold > 0 && a.amount >= p.threshold ==> !d.outcome.Allow?
    ensures p.threshold <= 0 || a.amount < p.threshold ==> !d.outcome.Escalate?
    ensures d.outcome.Deny? <==>
      || (p.memoRequired && TrimSpace(a.memo) == []) || !DestinationOk(p, a)
      || 0 < p.maxPerPayment < a.amount || 0 < p.perHour <= u.hourCount
      || 0 < p.daily < u.dayAtoms + a.amount || 0 < p.weekly < u.weekAtoms + a.amount
    ensures WellTraced(d.trace, d.outcome.Deny?) && Blames(d.trace, p, a, u)
    ensures var spent := if d.outcome.Deny? then 0 else a.amount;
            && d.remainingDay >= 0 && d.remainingDay >= p.daily - u.dayAtoms - spent
            && (d.remainingDay == 0 || d.remainingDay == p.daily - u.dayAtoms - spent)
            && d.remainingWeek >= 0 && d.remainingWeek >= p.weekly - u.weekAtoms - spent
            && (d.remainingWeek == 0 || d.remainingWeek == p.weekly - u.weekAtoms - spent)
  {
    var trace, ok := CheckWho(p, a);
    if ok {
      trace, ok := CheckLimits(p, a, u, trace);
    }
    if !ok {
      return Decision(Deny, trace, Max(0, p.daily - u.dayAtoms), Max(0, p.weekly - u.weekAtoms));
    }
    var dayLeft, weekLeft := Max(0, p.daily - u.dayAtoms - a.amount), Max(0, p.weekly - u.weekAtoms - a.amount);
    if p.threshold > 0 {
      TraceAdd(trace, RuleResult(Threshold, true));
      trace := trace + [RuleResult(Threshold, true)];
    }
    d := Decision(if p.threshold > 0 && a.amount >= p.threshold then Escalate else Allow, trace, dayLeft, weekLeft);
  }
}
