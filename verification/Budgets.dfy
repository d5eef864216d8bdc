/** Day, week and hour limits over a whole payment ledger (agent/service.go, agent/store/store.go). */
module Budgets {
  import opened Base
  import opened Policy

  /**
   * A recorded payment: when policy last looked at it, when it was recorded, and whether it is set aside because
   * the owner approved it as a direct payment, which is not evaluated again.
   */
  datatype Payment = Payment(attempt: nat, amount: int, checkedAt: int, at: int, aside: bool)

  function SpendOf(p: Payment): Spend { Spend(p.amount, p.at) }

  function Spends(ps: seq<Payment>): seq<Spend> { Map(SpendOf, ps) }

  ghost predicate AllBy(ps: seq<Payment>, t: int) { forall i :: 0 <= i < |ps| ==> ps[i].at <= t }

  /** The limits held when the payment was checked against the ledger before it. */
  predicate WithinLimits(l: Limits, before: seq<Payment>, amount: int, t: int) {
    var u := UsageAt(Spends(before), t);
    && (l.perHour > 0 ==> u.hourCount < l.perHour)
    && (l.daily > 0 ==> u.dayAtoms + amount <= l.daily)
    && (l.weekly > 0 ==> u.weekAtoms + amount <= l.weekly)
  }

  /** Payments are checked and recorded one at a time, each after all before it. */
  ghost predicate Governed(l: Limits, ps: seq<Payment>) {
    ps == [] ||
    var init, p := ps[..|ps| - 1], ps[|ps| - 1];
    && Governed(l, init)
    && p.amount > 0 && p.checkedAt <= p.at && AllBy(init, p.checkedAt)
    && (!p.aside ==> WithinLimits(l, init, p.amount, p.checkedAt))
  }

  lemma SpendsPrefix(ps: seq<Payment>)
    requires ps != []
    ensures |Spends(ps)| == |ps| && Spends(ps)[..|ps| - 1] == Spends(ps[..|ps| - 1])
            && Spends(ps)[|ps| - 1] == SpendOf(ps[|ps| - 1])
  {
  }

  // --- calendar periods ---

  /** start gives the beginning of the period a time lies in. */
  ghost predicate Period(start: int -> int) {
    && (forall t :: start(t) <= t)
    && (forall s, t :: s <= t ==> start(s) <= start(t))
    && (forall s, t :: start(t) <= s <= t ==> start(s) == start(t))
  }

  lemma DaysArePeriods()
    ensures Period(DayStart)
  {
    forall t ensures DayStart(t) <= t { DayStartIs(t, 0); }
    forall s, t | s <= t ensures DayStart(s) <= DayStart(t) && (DayStart(t) <= s ==> DayStart(s) == DayStart(t)) {
      DayStartMonotone(s, t);
    }
  }

  lemma WeeksArePeriods()
    ensures Period(WeekStart)
  {
    forall t ensures WeekStart(t) <= t { WeekStartIs(t); }
    forall s, t | s <= t ensures WeekStart(s) <= WeekStart(t) && (WeekStart(t) <= s ==> WeekStart(s) == WeekStart(t)) {
      WeekStartMonotone(s, t);
    }
  }

  /** What the period beginning at d holds, payments set aside not counted. */
  function PeriodSum(ps: seq<Payment>, start: int -> int, d: int): int {
    if ps == [] then 0
    else
      var p := ps[|ps| - 1];
      PeriodSum(ps[..|ps| - 1], start, d) + if !p.aside && start(p.at) == d then p.amount else 0
  }

  ghost predicate GovernedBy(ps: seq<Payment>, start: int -> int, budget: int) {
    ps == [] ||
    var init, p := ps[..|ps| - 1], ps[|ps| - 1];
    && GovernedBy(init, start, budget)
    && p.amount > 0 && p.checkedAt <= p.at && AllBy(init, p.checkedAt)
    && (!p.aside ==> SumFrom(Spends(init), start(p.checkedAt)) + p.amount <= budget)
  }

  lemma {:induction false} SumBounds(ps: seq<Payment>, start: int -> int, budget: int, d: int)
    requires Period(start) && GovernedBy(ps, start, budget)
    ensures 0 <= PeriodSum(ps, start, d) <= SumFrom(Spends(ps), d)
  {
    if ps != [] {
      SumBounds(ps[..|ps| - 1], start, budget, d);
      SpendsPrefix(ps);
      assert start(ps[|ps| - 1].at) <= ps[|ps| - 1].at;
    }
  }

  lemma {:induction false} NothingYet(ps: seq<Payment>, start: int -> int, d: int, t: int)
    requires Period(start) && AllBy(ps, t) && start(t) < d
    ensures PeriodSum(ps, start, d) == 0
  {
    if ps != [] {
      assert start(ps[|ps| - 1].at) <= start(t);
      NothingYet(ps[..|ps| - 1], start, d, t);
    }
  }

  /** Even when check and record straddle a boundary, no period exceeds its budget. */
  lemma {:induction false} PeriodBudget(ps: seq<Payment>, start: int -> int, budget: int, d: int)
    requires Period(start) && GovernedBy(ps, start, budget) && budget > 0
    ensures PeriodSum(ps, start, d) <= budget
  {
    if ps != [] {
      var init, p := ps[..|ps| - 1], ps[|ps| - 1];
      PeriodBudget(init, start, budget, d);
      if !p.aside && start(p.at) == d {
        var s := start(p.checkedAt);
        SumBounds(init, start, budget, s);
        assert s <= d;
        if s < d {
          NothingYet(init, start, d, p.checkedAt);
        }
      }
    }
  }

  // --- the rolling hour ---

  /** Payments recorded in (x, x + 1h], payments set aside not counted. */
  function WindowCount(ps: seq<Payment>, x: int): nat {
    if ps == [] then 0
    else
      var p := ps[|ps| - 1];
      WindowCount(ps[..|ps| - 1], x) + if !p.aside && x < p.at <= x + HOUR then 1 else 0
  }

  lemma {:induction false} WindowBelow(ps: seq<Payment>, x: int, y: int)
    requires y <= x
    ensures WindowCount(ps, x) <= CountAfter(Spends(ps), y)
  {
    if ps != [] {
      WindowBelow(ps[..|ps| - 1], x, y);
      SpendsPrefix(ps);
    }
  }

  lemma {:induction false} HourlyLimit(l: Limits, ps: seq<Payment>, x: int)
    requires Governed(l, ps) && l.perHour > 0
    ensures WindowCount(ps, x) <= l.perHour
  {
    if ps != [] {
      var init, p := ps[..|ps| - 1], ps[|ps| - 1];
      HourlyLimit(l, init, x);
      if !p.aside && x < p.at <= x + HOUR {
        WindowBelow(init, x, p.checkedAt - HOUR);
      }
    }
  }

  lemma {:induction false} GovernedParts(l: Limits, ps: seq<Payment>)
    requires Governed(l, ps)
    ensures l.daily > 0 ==> GovernedBy(ps, DayStart, l.daily)
    ensures l.weekly > 0 ==> GovernedBy(ps, WeekStart, l.weekly)
  {
    if ps != [] {
      GovernedParts(l, ps[..|ps| - 1]);
    }
  }

  /** Every UTC day, every Monday-start week and every hour of a governed ledger is within its limit. */
  lemma LimitsHold(l: Limits, ps: seq<Payment>, t: int)
    requires Governed(l, ps)
    ensures l.daily > 0 ==> PeriodSum(ps, DayStart, DayStart(t)) <= l.daily
    ensures l.weekly > 0 ==> PeriodSum(ps, WeekStart, WeekStart(t)) <= l.weekly
    ensures l.perHour > 0 ==> WindowCount(ps, t) <= l.perHour
  {
    GovernedParts(l, ps);
    DaysArePeriods();
    WeeksArePeriods();
    if l.daily > 0 {
      PeriodBudget(ps, DayStart, l.daily, DayStart(t));
    }
    if l.weekly > 0 {
      PeriodBudget(ps, WeekStart, l.weekly, WeekStart(t));
    }
    if l.perHour > 0 {
      HourlyLimit(l, ps, t);
    }
  }

  // --- the usage that policy sees is the usage that the laws are about ---

  lemma {:induction false} DayIsPeriod(ps: seq<Payment>, start: int -> int, now: int)
    requires Period(start) && AllBy(ps, now) && forall i :: 0 <= i < |ps| ==> !ps[i].aside
    ensures SumFrom(Spends(ps), start(now)) == PeriodSum(ps, start, start(now))
  {
    if ps != [] {
      var init, p := ps[..|ps| - 1], ps[|ps| - 1];
      assert forall i :: 0 <= i < |init| ==> init[i] == ps[i];
      DayIsPeriod(init, start, now);
      SpendsPrefix(ps);
      assert p.at <= now;
      assert p.at >= start(now) <==> start(p.at) == start(now);
    }
  }

  lemma {:induction false} HourIsWindow(ps: seq<Payment>, now: int)
    requires AllBy(ps, now) && forall i :: 0 <= i < |ps| ==> !ps[i].aside
    ensures CountAfter(Spends(ps), now - 3_600_000_000_000) == WindowCount(ps, now - 3_600_000_000_000)
  {
    if ps != [] {
      var init, p := ps[..|ps| - 1], ps[|ps| - 1];
      assert forall i :: 0 <= i < |init| ==> init[i] == ps[i];
      HourIsWindow(init, now);
      SpendsPrefix(ps);
    }
  }

  /**
   * Policy refuses for a limit only what would break it: on a ledger with nothing set aside the usage it sees is what
   * the current day and week hold and what the last sixty minutes saw.
   */
  lemma UsageExactly(ps: seq<Payment>, now: int)
    requires AllBy(ps, now) && forall i :: 0 <= i < |ps| ==> !ps[i].aside
    ensures UsageAt(Spends(ps), now).dayAtoms == PeriodSum(ps, DayStart, DayStart(now))
    ensures UsageAt(Spends(ps), now).weekAtoms == PeriodSum(ps, WeekStart, WeekStart(now))
    ensures UsageAt(Spends(ps), now).hourCount == WindowCount(ps, now - 3_600_000_000_000)
  {
    DaysArePeriods();
    WeeksArePeriods();
    DayIsPeriod(ps, DayStart, now);
    DayIsPeriod(ps, WeekStart, now);
    HourIsWindow(ps, now);
  }

  predicate InWindow(p: Payment, x: int) { !p.aside && x < p.at <= x + 3_600_000_000_000 }

  function Window(ps: seq<Payment>, x: int): set<nat> { set i: nat | i < |ps| && InWindow(ps[i], x) }

  lemma WindowStep(init: seq<Payment>, p: Payment, x: int)
    ensures Window(init + [p], x) == Window(init, x) + if InWindow(p, x) then {|init|} else {}
    ensures |init| !in Window(init, x)
  {
  }

  /** The payments of a window, counted one by one. */
  lemma {:induction false} WindowIsCount(ps: seq<Payment>, x: int)
    ensures WindowCount(ps, x) == |Window(ps, x)|
  {
    if ps != [] {
      var init, p := ps[..|ps| - 1], ps[|ps| - 1];
      assert ps == init + [p];
      WindowIsCount(init, x);
      WindowStep(init, p, x);
    } else {
      assert Window(ps, x) == {};
    }
  }

  lemma PeriodSumLaws(ps: seq<Payment>, p: Payment, start: int -> int, d: int)
    ensures PeriodSum([], start, d) == 0
    ensures PeriodSum(ps + [p], start, d) ==
              PeriodSum(ps, start, d) + if !p.aside && start(p.at) == d then p.amount else 0
  {
    assert (ps + [p])[..|ps|] == ps;
  }
}
