/** Owner approvals raced by resolvers, expiry sweeps and restarts (agent/approve/approve.go, agent/store/store.go). */
module Approvals {
  import opened Base

  type Id = Bytes

  datatype Status = Pending | Approved | Denied | Expired

  datatype Approval = Approval(attempt: nat, status: Status, expiresAt: int)

  /** An approval left the pending state, or its continuation was started. */
  datatype Event = Left(id: Id, status: Status, at: int) | Ran(id: Id, approved: bool)

  /** A verdict whose continuation has not been looked up yet. */
  datatype Pickup = Pickup(id: Id, approved: bool)

  datatype State = State(approvals: map<Id, Approval>, opening: set<Id>, waiting: set<Id>, pickups: set<Pickup>,
                         history: seq<Event>)

  const START := State(map[], {}, {}, {}, [])

  /**
   * Escalate is Create, Park and, when no channel was reached, Withdraw and a silent Decide; Resolve is Decide and,
   * if it won, Collect; a sweep is an Expire for every overdue approval and a Collect for each of them.
   */
  datatype Step =
    | Create(id: Id, attempt: nat, expiresAt: int)
    | Park(id: Id)
    | Withdraw(id: Id)
    | Decide(id: Id, approved: bool, at: int, silent: bool)
    | Expire(id: Id, at: int)
    | Collect(pickup: Pickup)
    | Restart

  /** Approval ids are fresh 64-bit random numbers. */
  predicate Enabled(st: State, step: Step) {
    match step
    case Create(id, _, _) => id !in st.approvals
    case Park(id) => id in st.opening
    case Collect(p) => p in st.pickups
    case _ => true
  }

  /** The store flips only a pending approval that has not expired. */
  predicate Resolvable(st: State, id: Id, at: int) {
    id in st.approvals && st.approvals[id].status == Pending && at <= st.approvals[id].expiresAt
  }

  predicate Overdue(st: State, id: Id, at: int) {
    id in st.approvals && st.approvals[id].status == Pending && at > st.approvals[id].expiresAt
  }

  function Leave(st: State, id: Id, status: Status, at: int): State
    requires id in st.approvals
  {
    st.(approvals := st.approvals[id := st.approvals[id].(status := status)],
        history := st.history + [Left(id, status, at)])
  }

  function Apply(st: State, step: Step): State {
    match step
    case Create(id, attempt, expiresAt) =>
      st.(approvals := st.approvals[id := Approval(attempt, Pending, expiresAt)], opening := st.opening + {id})
    case Park(id) => st.(opening := st.opening - {id}, waiting := st.waiting + {id})
    case Withdraw(id) => st.(waiting := st.waiting - {id})
    case Decide(id, approved, at, silent) =>
      if !Resolvable(st, id, at) then st
      else
        var left := Leave(st, id, if approved then Approved else Denied, at);
        if silent then left else left.(pickups := st.pickups + {Pickup(id, approved)})
    case Expire(id, at) =>
      if !Overdue(st, id, at) then st else Leave(st, id, Expired, at).(pickups := st.pickups + {Pickup(id, false)})
    case Collect(p) =>
      var rest := st.(pickups := st.pickups - {p}, waiting := st.waiting - {p.id});
      if p.id in st.waiting then rest.(history := st.history + [Ran(p.id, p.approved)]) else rest
    case Restart => st.(opening := {}, waiting := {}, pickups := {})
  }

  // --- counting ---

  function Leaves(history: seq<Event>, id: Id): nat {
    if history == [] then 0
    else
      var e := history[|history| - 1];
      Leaves(history[..|history| - 1], id) + if e.Left? && e.id == id then 1 else 0
  }

  function Runs(history: seq<Event>, id: Id): nat {
    if history == [] then 0
    else
      var e := history[|history| - 1];
      Runs(history[..|history| - 1], id) + if e.Ran? && e.id == id then 1 else 0
  }

  lemma CountsAppend(history: seq<Event>, e: Event, id: Id)
    ensures Leaves(history + [e], id) == Leaves(history, id) + if e.Left? && e.id == id then 1 else 0
    ensures Runs(history + [e], id) == Runs(history, id) + if e.Ran? && e.id == id then 1 else 0
  {
    assert (history + [e])[..|history|] == history;
  }

  predicate Decided(approvals: map<Id, Approval>, id: Id) { id in approvals && approvals[id].status != Pending }

  ghost predicate CountsKept(st: State) {
    && (forall id :: Leaves(st.history, id) == if Decided(st.approvals, id) then 1 else 0)
    && (forall id :: Runs(st.history, id) <= if Decided(st.approvals, id) then 1 else 0)
    && (forall p <- st.pickups :: Runs(st.history, p.id) == 0)
  }

  /** The verdict in effect is the one that left pending, and an approval won it before it expired. */
  ghost predicate LeftKept(st: State) {
    forall e <- st.history :: e.Left? ==>
      && e.id in st.approvals && st.approvals[e.id].status == e.status && e.status != Pending
      && (e.status == Approved || e.status == Denied ==> e.at <= st.approvals[e.id].expiresAt)
      && (e.status == Expired ==> e.at > st.approvals[e.id].expiresAt)
  }

  ghost predicate WasLeft(history: seq<Event>, id: Id, approved: bool) {
    exists e <- history :: e.Left? && e.id == id && (approved <==> e.status == Approved)
  }

  ghost predicate PickupsKept(st: State) {
    forall p <- st.pickups :: Decided(st.approvals, p.id) && WasLeft(st.history, p.id, p.approved)
                              && (p.approved <==> st.approvals[p.id].status == Approved)
  }

  /** Each start of a continuation comes after the verdict it carries. */
  ghost predicate RunsFollow(history: seq<Event>) {
    history == [] ||
    var init, e := history[..|history| - 1], history[|history| - 1];
    RunsFollow(init) && (e.Ran? ==> WasLeft(init, e.id, e.approved))
  }

  ghost predicate Inv(st: State) { CountsKept(st) && LeftKept(st) && PickupsKept(st) && RunsFollow(st.history) }

  lemma StillLeft(history: seq<Event>, e: Event, id: Id, approved: bool)
    requires WasLeft(history, id, approved)
    ensures WasLeft(history + [e], id, approved)
  {
    var d :| d in history && d.Left? && d.id == id && (approved <==> d.status == Approved);
    assert d in history + [e];
  }

  lemma FollowAppend(history: seq<Event>, e: Event)
    requires RunsFollow(history) && (e.Ran? ==> WasLeft(history, e.id, e.approved))
    ensures RunsFollow(history + [e])
  {
    assert (history + [e])[..|history|] == history;
  }

  lemma LeaveCounts(st: State, id: Id, status: Status, at: int, pickups: set<Pickup>)
    requires CountsKept(st) && id in st.approvals && st.approvals[id].status == Pending && status != Pending
    requires forall p <- pickups :: p in st.pickups || p.id == id
    ensures CountsKept(Leave(st, id, status, at).(pickups := pickups))
  {
    var st' := Leave(st, id, status, at).(pickups := pickups);
    forall x ensures Leaves(st'.history, x) == (if Decided(st'.approvals, x) then 1 else 0)
                  && Runs(st'.history, x) == Runs(st.history, x) {
      CountsAppend(st.history, Left(id, status, at), x);
    }
  }

  lemma LeaveLeft(st: State, id: Id, status: Status, at: int)
    requires CountsKept(st) && LeftKept(st) && id in st.approvals && st.approvals[id].status == Pending
             && status != Pending
    requires status == Expired <==> at > st.approvals[id].expiresAt
    ensures LeftKept(Leave(st, id, status, at))
  {
    assert Leaves(st.history, id) == 0;
    forall d | d in st.history && d.Left? ensures d.id != id { LeftCounts(st.history, d); }
  }

  lemma LeavePickups(st: State, id: Id, status: Status, at: int, pickups: set<Pickup>)
    requires PickupsKept(st) && id in st.approvals && st.approvals[id].status == Pending && status != Pending
    requires pickups == st.pickups || pickups == st.pickups + {Pickup(id, status == Approved)}
    ensures PickupsKept(Leave(st, id, status, at).(pickups := pickups))
  {
    var e := Left(id, status, at);
    assert e in st.history + [e];
    forall p | p in pickups ensures WasLeft(st.history + [e], p.id, p.approved) {
      if p in st.pickups {
        StillLeft(st.history, e, p.id, p.approved);
      }
    }
  }

  lemma PendingNotPicked(st: State, id: Id, status: Status, pickups: set<Pickup>)
    requires pickups == st.pickups || pickups == st.pickups + {Pickup(id, status == Approved)}
    ensures forall p <- pickups :: p in st.pickups || p.id == id
  {
  }

  lemma LeftIgnoresPickups(st: State, pickups: set<Pickup>)
    requires LeftKept(st)
    ensures LeftKept(st.(pickups := pickups))
  {
  }

  lemma LeaveRuns(st: State, id: Id, status: Status, at: int)
    requires RunsFollow(st.history) && id in st.approvals
    ensures RunsFollow(Leave(st, id, status, at).history)
  {
    FollowAppend(st.history, Left(id, status, at));
  }

  lemma InvParts(st: State)
    requires CountsKept(st) && LeftKept(st) && PickupsKept(st) && RunsFollow(st.history)
    ensures Inv(st)
  {
  }

  /** Leaving pending, with or without a pickup. */
  lemma LeaveKeeps(st: State, id: Id, status: Status, at: int, pickups: set<Pickup>)
    requires Inv(st) && id in st.approvals && st.approvals[id].status == Pending && status != Pending
    requires status == Expired <==> at > st.approvals[id].expiresAt
    requires pickups == st.pickups || pickups == st.pickups + {Pickup(id, status == Approved)}
    ensures Inv(Leave(st, id, status, at).(pickups := pickups))
  {
    PendingNotPicked(st, id, status, pickups);
    LeaveCounts(st, id, status, at, pickups);
    LeaveLeft(st, id, status, at);
    LeftIgnoresPickups(Leave(st, id, status, at), pickups);
    LeavePickups(st, id, status, at, pickups);
    LeaveRuns(st, id, status, at);
    InvParts(Leave(st, id, status, at).(pickups := pickups));
  }

  lemma {:induction false} LeftCounts(history: seq<Event>, e: Event)
    requires e in history && e.Left?
    ensures Leaves(history, e.id) > 0
  {
    var init, last := history[..|history| - 1], history[|history| - 1];
    assert history == init + [last];
    if last != e {
      LeftCounts(init, e);
    }
  }

  lemma CollectKeeps(st: State, p: Pickup)
    requires Inv(st) && p in st.pickups
    ensures Inv(Apply(st, Collect(p)))
  {
    var st' := Apply(st, Collect(p));
    if p.id in st.waiting {
      var e := Ran(p.id, p.approved);
      forall x ensures Leaves(st'.history, x) == Leaves(st.history, x)
                    && Runs(st'.history, x) == Runs(st.history, x) + if x == p.id then 1 else 0 {
        CountsAppend(st.history, e, x);
      }
      FollowAppend(st.history, e);
      forall q | q in st'.pickups ensures WasLeft(st'.history, q.id, q.approved) && q.id != p.id {
        StillLeft(st.history, e, q.id, q.approved);
      }
    }
  }

  lemma StepKeeps(st: State, step: Step)
    requires Inv(st) && Enabled(st, step)
    ensures Inv(Apply(st, step))
  {
    match step {
      case Decide(id, approved, at, silent) =>
        if Resolvable(st, id, at) {
          var status := if approved then Approved else Denied;
          LeaveKeeps(st, id, status, at, if silent then st.pickups else st.pickups + {Pickup(id, approved)});
        }
      case Expire(id, at) =>
        if Overdue(st, id, at) {
          LeaveKeeps(st, id, Expired, at, st.pickups + {Pickup(id, false)});
        }
      case Collect(p) => CollectKeeps(st, p);
      case Create(id, attempt, expiresAt) => CreateKeeps(st, id, attempt, expiresAt);
      case _ =>
    }
  }

  lemma CreateKeeps(st: State, id: Id, attempt: nat, expiresAt: int)
    requires Inv(st) && id !in st.approvals
    ensures Inv(Apply(st, Create(id, attempt, expiresAt)))
  {
    var st' := Apply(st, Create(id, attempt, expiresAt));
    assert forall x :: Decided(st'.approvals, x) == Decided(st.approvals, x);
  }

  // --- whole runs ---

  function After(steps: seq<Step>): State {
    if steps == [] then START else Apply(After(steps[..|steps| - 1]), steps[|steps| - 1])
  }

  predicate IsRun(steps: seq<Step>) {
    steps == [] || (IsRun(steps[..|steps| - 1]) && Enabled(After(steps[..|steps| - 1]), steps[|steps| - 1]))
  }

  lemma {:induction false} RunKeeps(steps: seq<Step>)
    requires IsRun(steps)
    ensures Inv(After(steps))
  {
    if steps != [] {
      RunKeeps(steps[..|steps| - 1]);
      StepKeeps(After(steps[..|steps| - 1]), steps[|steps| - 1]);
    }
  }

  lemma RunAdd(steps: seq<Step>, step: Step)
    requires IsRun(steps) && Enabled(After(steps), step)
    ensures IsRun(steps + [step]) && After(steps + [step]) == Apply(After(steps), step)
  {
    assert (steps + [step])[..|steps|] == steps;
  }

  lemma {:induction false} RunFollows(history: seq<Event>, i: nat)
    requires RunsFollow(history) && i < |history| && history[i].Ran?
    ensures exists j :: 0 <= j < i && history[j].Left? && history[j].id == history[i].id
                        && (history[i].approved <==> history[j].status == Approved)
  {
    var init := history[..|history| - 1];
    if i == |init| {
      var e :| e in init && e.Left? && e.id == history[i].id && (history[i].approved <==> e.status == Approved);
      var j :| 0 <= j < |init| && init[j] == e;
      assert history[j] == e;
    } else {
      RunFollows(init, i);
      var j :| 0 <= j < i && init[j].Left? && init[j].id == init[i].id
          && (init[i].approved <==> init[j].status == Approved);
      assert history[j] == init[j];
    }
  }

  /**
   * In every run an approval leaves pending at most once and its continuation starts at most once; it starts with
   * approved only after some resolver won the approved verdict no later than the expiry.
   */
  lemma OneVerdictOneRun(steps: seq<Step>, id: Id)
    requires IsRun(steps)
    ensures var st := After(steps);
            && Leaves(st.history, id) <= 1 && Runs(st.history, id) <= Leaves(st.history, id)
            && forall i :: 0 <= i < |st.history| && st.history[i] == Ran(id, true) ==>
                 id in st.approvals
                 && exists j :: 0 <= j < i && st.history[j].Left? && st.history[j].id == id
                                && st.history[j].status == Approved && st.history[j].at <= st.approvals[id].expiresAt
  {
    RunKeeps(steps);
    var st := After(steps);
    forall i | 0 <= i < |st.history| && st.history[i] == Ran(id, true)
      ensures id in st.approvals
      ensures exists j :: 0 <= j < i && st.history[j].Left? && st.history[j].id == id
                          && st.history[j].status == Approved && st.history[j].at <= st.approvals[id].expiresAt
    {
      RunFollows(st.history, i);
      var j :| 0 <= j < i && st.history[j].Left? && st.history[j].id == id && st.history[j].status == Approved;
      assert st.history[j] in st.history;
    }
  }

  // --- a restart fails closed ---

  /** The approval is known and its continuation is gone. */
  predicate Forgotten(st: State, id: Id) {
    id in st.approvals && id !in st.opening && id !in st.waiting
  }

  lemma StillForgotten(st: State, step: Step, id: Id)
    requires Forgotten(st, id) && Enabled(st, step)
    ensures Forgotten(Apply(st, step), id) && Runs(Apply(st, step).history, id) == Runs(st.history, id)
  {
    match step {
      case Decide(x, approved, at, _) =>
        CountsAppend(st.history, Left(x, if approved then Approved else Denied, at), id);
      case Expire(x, at) => CountsAppend(st.history, Left(x, Expired, at), id);
      case Collect(p) => CountsAppend(st.history, Ran(p.id, p.approved), id);
      case _ =>
    }
  }

  /**
   * A restart fails closed: no continuation of an approval that existed before it ever starts after it, and no verdict
   * that was waiting to be picked up survives.
   */
  lemma {:induction false} RestartFailsClosed(before: seq<Step>, after: seq<Step>, id: Id)
    requires IsRun(before + [Restart] + after) && id in After(before).approvals
    ensures var st := After(before + [Restart] + after);
            Forgotten(st, id) && Runs(st.history, id) == Runs(After(before).history, id)
    ensures After(before + [Restart]).pickups == {}
  {
    var all := before + [Restart] + after;
    assert (before + [Restart])[..|before|] == before;
    if after == [] {
      assert all == before + [Restart];
    } else {
      assert all[..|all| - 1] == before + [Restart] + after[..|after| - 1];
      RestartFailsClosed(before, after[..|after| - 1], id);
      StillForgotten(After(all[..|all| - 1]), all[|all| - 1], id);
    }
  }

  // --- the registry ---

  /** An approver channel: its name, and whether its notification succeeds now. */
  datatype Channel = Channel(name: Bytes, reachable: bool)

  function Asked(channel: Bytes, c: Channel): bool { channel == "both" || c.name == channel }

  /** Continuations are values of any type; a restart makes a new registry over the same approvals. */
  class Registry<C> {
    var approvals: map<Id, Approval>
    var waiting: map<Id, C>
    ghost var steps: seq<Step>
    ghost var st: State

    /** The fields are the state that a run of the approvals machine reaches. */
    ghost predicate Valid()
      reads this
    {
      IsRun(steps) && st == After(steps) && approvals == st.approvals && waiting.Keys == st.waiting
    }

    constructor ()
      ensures Valid() && st == START
    {
      approvals, waiting, steps, st := map[], map[], [], START;
    }

    ghost method Advance(step: Step)
      requires IsRun(steps) && st == After(steps) && Enabled(st, step)
      modifies this`steps, this`st
      ensures IsRun(steps) && st == After(steps) && st == Apply(old(st), step) && steps == old(steps) + [step]
    {
      RunAdd(steps, step);
      steps := steps + [step];
      st := After(steps);
    }

    /** The store's conditional flip. */
    method ResolveApproval(id: Id, approved: bool, at: int, silent: bool) returns (won: bool)
      requires Valid()
      modifies this
      ensures Valid() && waiting == old(waiting)
      ensures won <==> Resolvable(old(st), id, at)
      ensures st == Apply(old(st), Decide(id, approved, at, silent))
    {
      won := id in approvals && approvals[id].status == Pending && !(at > approvals[id].expiresAt);
      Advance(Decide(id, approved, at, silent));
      if won {
        approvals := approvals[id := approvals[id].(status := if approved then Approved else Denied)];
      }
    }

    /** Takes the continuation of a decided approval, if this process still has it. */
    method Take(p: Pickup) returns (run: Option<C>)
      requires Valid() && p in st.pickups
      modifies this
      ensures Valid() && st == Apply(old(st), Collect(p))
      ensures approvals == old(approvals) && waiting == old(waiting) - {p.id}
      ensures run == if p.id in old(waiting) then Some(old(waiting)[p.id]) else None
    {
      Advance(Collect(p));
      run := if p.id in waiting then Some(waiting[p.id]) else None;
      waiting := waiting - {p.id};
    }

    /** The approval is stored first and its continuation second. */
    method Open(id: Id, attempt: nat, expiresAt: int, cont: C)
      requires Valid() && id !in st.approvals
      modifies this
      ensures Valid() && waiting == old(waiting)[id := cont]
      ensures st == Apply(Apply(old(st), Create(id, attempt, expiresAt)), Park(id))
    {
      Advance(Create(id, attempt, expiresAt));
      approvals := approvals[id := Approval(attempt, Pending, expiresAt)];
      Advance(Park(id));
      waiting := waiting[id := cont];
    }

    /** Nobody heard about it, so nobody can approve it: the continuation goes and the approval is denied. */
    method Drop(id: Id, now: int)
      requires Valid() && id in approvals
      modifies this
      ensures Valid() && waiting == old(waiting) - {id}
      ensures st == Apply(Apply(old(st), Withdraw(id)), Decide(id, false, now, true))
      ensures old(approvals)[id].status == Pending && now <= old(approvals)[id].expiresAt ==>
        approvals == old(approvals)[id := old(approvals)[id].(status := Denied)]
    {
      Advance(Withdraw(id));
      waiting := waiting - {id};
      var _ := ResolveApproval(id, false, now, true);
    }

    /** Park a continuation and notify; when no channel hears, deny at once and keep nothing. */
    method Escalate(id: Id, attempt: nat, channel: Bytes, now: int, ttl: int, approvers: seq<Channel>, cont: C)
      returns (reached: bool)
      requires Valid() && id !in st.approvals
      modifies this
      ensures Valid()
      ensures reached <==> exists c <- approvers :: (channel == "both" || c.name == channel) && c.reachable
      ensures var parked := Apply(Apply(old(st), Create(id, attempt, now + ttl)), Park(id));
              st == if reached then parked else Apply(Apply(parked, Withdraw(id)), Decide(id, false, now, true))
      ensures waiting == if reached then old(waiting)[id := cont] else old(waiting) - {id}
      ensures reached ==> approvals == old(approvals)[id := Approval(attempt, Pending, now + ttl)]
      ensures !reached && ttl >= 0 ==> approvals == old(approvals)[id := Approval(attempt, Denied, now + ttl)]
    {
      Open(id, attempt, now + ttl, cont);
      var notified := Notify(channel, approvers);
      if notified == 0 {
        Drop(id, now);
        return false;
      }
      return true;
    }

    method ExpireOne(id: Id, at: int) returns (hit: bool)
      requires Valid() && id in approvals
      modifies this
      ensures Valid() && waiting == old(waiting)
      ensures hit <==> old(approvals)[id].status == Pending && at > old(approvals)[id].expiresAt
      ensures approvals == old(approvals)[id := Swept(old(approvals)[id], at)]
      ensures st.pickups == old(st).pickups + if hit then {Pickup(id, false)} else {}
    {
      Advance(Expire(id, at));
      hit := approvals[id].status == Pending && at > approvals[id].expiresAt;
      if hit {
        approvals := approvals[id := approvals[id].(status := Expired)];
      }
    }

    /** Marks every overdue approval expired, each once. */
    method ExpireApprovals(at: int) returns (expired: seq<Id>)
      requires Valid()
      modifies this
      ensures Valid() && waiting == old(waiting)
      ensures approvals == map id | id in old(approvals) :: Swept(old(approvals)[id], at)
      ensures forall id :: id in expired <==> id in old(approvals) && IsOverdue(old(approvals)[id], at)
      ensures forall i, j :: 0 <= i < j < |expired| ==> expired[i] != expired[j]
      ensures forall id <- expired :: Pickup(id, false) in st.pickups
    {
      expired := [];
      ghost var was := approvals;
      var keys := approvals.Keys;
      while keys != {}
        invariant Valid() && waiting == old(waiting) && keys <= was.Keys
        invariant approvals == map id | id in was :: if id in keys then was[id] else Swept(was[id], at)
        invariant forall id :: id in expired <==> id in was && id !in keys && IsOverdue(was[id], at)
        invariant forall i, j :: 0 <= i < j < |expired| ==> expired[i] != expired[j]
        invariant forall id <- expired :: Pickup(id, false) in st.pickups
        decreases keys
      {
        var id :| id in keys;
        keys := keys - {id};
        var hit := ExpireOne(id, at);
        if hit {
          expired := expired + [id];
        }
      }
    }

    /** One sweep: every overdue approval expires and gives up its continuation, to be run once as not approved. */
    method ExpireNow(at: int) returns (runs: seq<(Id, C)>)
      requires Valid()
      modifies this
      ensures Valid()
      ensures approvals == map id | id in old(approvals) :: Swept(old(approvals)[id], at)
      ensures waiting == old(waiting) - set id | id in old(approvals) && IsOverdue(old(approvals)[id], at)
      ensures ListsOnce(runs, Only(old(waiting), set id | id in old(approvals) && IsOverdue(old(approvals)[id], at)))
    {
      runs := [];
      var expired := ExpireApprovals(at);
      ghost var before, was, gone := approvals, waiting, {};
      for i := 0 to |expired|
        invariant Valid() && approvals == before
        invariant forall j :: i <= j < |expired| ==> Pickup(expired[j], false) in st.pickups
        invariant (forall id :: id in gone <==> id in expired[..i]) && waiting == was - gone
        invariant ListsOnce(runs, Only(was, gone))
      {
        var id := expired[i];
        OnlyAdd(was, gone, id);
        var run := Take(Pickup(id, false));
        if run.Some? {
          ListsAdd(runs, Only(was, gone), id, run.value);
          runs := runs + [(id, run.value)];
        }
        gone := gone + {id};
      }
      assert gone == set id | id in old(approvals) && IsOverdue(old(approvals)[id], at);
    }

    /** Exactly one resolver wins; the winner starts the continuation if this process has it. */
    method Resolve(id: Id, approved: bool, at: int) returns (won: bool, run: Option<C>)
      requires Valid()
      modifies this
      ensures Valid()
      ensures won <==> Resolvable(old(st), id, at)
      ensures !won ==> st == old(st) && waiting == old(waiting) && run.None?
      ensures won ==> st == Apply(Apply(old(st), Decide(id, approved, at, false)), Collect(Pickup(id, approved)))
      ensures won ==> run == if id in old(waiting) then Some(old(waiting)[id]) else None
      ensures won ==> waiting == old(waiting) - {id}
    {
      run := None;
      won := ResolveApproval(id, approved, at, false);
      if won {
        run := Take(Pickup(id, approved));
      }
    }
  }

  /** The pairs are the entries of the map, each listed once. */
  ghost predicate ListsOnce<C>(runs: seq<(Id, C)>, conts: map<Id, C>) {
    && (forall r <- runs :: r.0 in conts && conts[r.0] == r.1)
    && (forall id <- conts :: (id, conts[id]) in runs)
    && forall i, j :: 0 <= i < j < |runs| ==> runs[i].0 != runs[j].0
  }

  function Only<C>(conts: map<Id, C>, ids: set<Id>): map<Id, C> { map id | id in conts && id in ids :: conts[id] }

  lemma OnlyAdd<C>(conts: map<Id, C>, ids: set<Id>, id: Id)
    requires id !in ids
    ensures conts - (ids + {id}) == conts - ids - {id}
    ensures id in conts - ids <==> id in conts
    ensures Only(conts, ids + {id}) == if id in conts then Only(conts, ids)[id := conts[id]] else Only(conts, ids)
  {
  }

  lemma ListsAdd<C>(runs: seq<(Id, C)>, conts: map<Id, C>, id: Id, cont: C)
    requires ListsOnce(runs, conts) && id !in conts
    ensures ListsOnce(runs + [(id, cont)], conts[id := cont])
  {
    assert (runs + [(id, cont)])[|runs|] == (id, cont);
  }

  predicate IsOverdue(a: Approval, at: int) { a.status == Pending && at > a.expiresAt }

  function Swept(a: Approval, at: int): Approval {
    if IsOverdue(a, at) then a.(status := Expired) else a
  }

  method Notify(channel: Bytes, approvers: seq<Channel>) returns (notified: nat)
    ensures notified > 0 <==> exists c <- approvers :: (channel == "both" || c.name == channel) && c.reachable
  {
    notified := 0;
    for i := 0 to |approvers|
      invariant notified > 0 <==> exists c <- approvers[..i] :: Asked(channel, c) && c.reachable
    {
      assert approvers[..i + 1] == approvers[..i] + [approvers[i]];
      if Asked(channel, approvers[i]) && approvers[i].reachable {
        assert approvers[i] in approvers[..i + 1];
        notified := notified + 1;
      }
    }
    assert approvers[..|approvers|] == approvers;
  }
}
