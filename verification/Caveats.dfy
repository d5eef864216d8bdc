/** Caveat evaluation and attenuation (lib/l402/l402.go, caveats and VerifyToken). */
module Caveats {
  import opened Base
  import opened Text
  import opened Numbers
  import opened Encodings
  import opened Ordering
  import opened Macaroons

  const SERVICES: Bytes := "services"
  const VALID_UNTIL: Bytes := "_valid_until"
  const CAPABILITIES: Bytes := "_capabilities"

  /** Seconds as nanoseconds. */
  function Seconds(s: int): int { s * 1_000_000_000 }

  function CaveatText(cond: Bytes, val: Bytes): Bytes { cond + ['='] + val }

  function ServicesCaveat(service: Bytes, tier: int): Bytes {
    CaveatText(SERVICES, service + [':'] + FormatInt(tier))
  }

  /** t is a time in nanoseconds since the Unix epoch; the caveat carries whole seconds. */
  function ValidUntilCaveat(service: Bytes, t: int): Bytes {
    CaveatText(service + VALID_UNTIL, FormatInt(t / 1_000_000_000))
  }

  function CapabilitiesCaveat(service: Bytes, caps: seq<Bytes>): Bytes {
    CaveatText(service + CAPABILITIES, Join(caps, ','))
  }

  /** The three caveats a gate mints, as text. */
  lemma CaveatTexts(service: Bytes, tier: int, t: int, caps: seq<Bytes>)
    ensures ServicesCaveat(service, tier) == "services=" + service + ":" + FormatInt(tier)
    ensures ValidUntilCaveat(service, t) == service + "_valid_until=" + FormatInt(t / 1_000_000_000)
    ensures CapabilitiesCaveat(service, caps) == service + "_capabilities=" + Join(caps, ',')
  {
    var a: Bytes, b: Bytes, d: Bytes := "services=", "_valid_until=", "_capabilities=";
    assert a == SERVICES + ['='] && b == VALID_UNTIL + ['='] && d == CAPABILITIES + ['='];
    assert ServicesCaveat(service, tier) == a + service + [':'] + FormatInt(tier);
    assert ValidUntilCaveat(service, t) == service + b + FormatInt(t / 1_000_000_000);
    assert CapabilitiesCaveat(service, caps) == service + d + Join(caps, ',');
  }

  /** now is in nanoseconds; an empty capability skips the capability check. */
  datatype Options = Options(service: Bytes, capability: Bytes, now: int)

  datatype CaveatError =
    | Malformed(caveat: Bytes) | ListWidened(cond: Bytes) | WrongService | CapabilityNotPermitted
    | BadTimestamp(cond: Bytes) | UntilLoosened(cond: Bytes) | Expired(cond: Bytes)
    | NoServices | NoCapabilities

  // --- name:tier lists ---

  /** One list item: name and tier; None for an item that is only white space. */
  function ListItem(item: Bytes): Option<(Bytes, Bytes)> {
    var t := TrimSpace(item);
    if t == [] then None
    else
      match Cut(t, ':')
      case None => Some((t, []))
      case Some((name, tier)) => Some((name, tier))
  }

  /** A later entry of the same name replaces an earlier one. */
  function AddEntries(entries: seq<Option<(Bytes, Bytes)>>): map<Bytes, Bytes> {
    if entries == [] then map[]
    else
      var prev, last := AddEntries(entries[..|entries| - 1]), entries[|entries| - 1];
      if last.None? then prev else prev[last.value.0 := last.value.1]
  }

  function List(val: Bytes): map<Bytes, Bytes> { AddEntries(Map(ListItem, Split(val, ','))) }

  lemma AddEntriesStep(entries: seq<Option<(Bytes, Bytes)>>, i: nat)
    requires i < |entries|
    ensures AddEntries(entries[..i + 1]) ==
      if entries[i].None? then AddEntries(entries[..i])
      else AddEntries(entries[..i])[entries[i].value.0 := entries[i].value.1]
  {
    assert entries[..i + 1][..i] == entries[..i];
  }

  method ParseList(val: Bytes) returns (out: map<Bytes, Bytes>)
    ensures out == List(val)
  {
    out := map[];
    var items := Split(val, ',');
    ghost var entries := Map(ListItem, items);
    for i := 0 to |items|
      invariant out == AddEntries(entries[..i])
    {
      AddEntriesStep(entries, i);
      var item := ListItem(items[i]);
      if item.Some? {
        out := out[item.value.0 := item.value.1];
      }
    }
    assert entries[..|items|] == entries;
  }

  // --- chains that may only shrink ---

  /** The names left after each set restricts the previous one; None when a set adds a name. */
  function Narrow(prev: set<Bytes>, sets: seq<set<Bytes>>): Option<set<Bytes>>
    decreases sets
  {
    if sets == [] then Some(prev)
    else if sets[0] <= prev then Narrow(sets[0], sets[1..])
    else None
  }

  function Names(val: Bytes): set<Bytes> { List(val).Keys }

  function NarrowSets(sets: seq<set<Bytes>>): Option<set<Bytes>>
    requires sets != []
  {
    Narrow(sets[0], sets[1..])
  }

  function NarrowAll(vals: seq<Bytes>): Option<set<Bytes>>
    requires vals != []
  {
    NarrowSets(Map(Names, vals))
  }

  lemma {:induction false} NarrowPrefix(prev: set<Bytes>, a: seq<set<Bytes>>, b: seq<set<Bytes>>)
    requires Narrow(prev, a + b).Some?
    ensures Narrow(prev, a).Some? && Narrow(prev, a + b).value <= Narrow(prev, a).value
    decreases |a| + |b|
  {
    if a != [] {
      assert (a + b)[1..] == a[1..] + b;
      NarrowPrefix(a[0], a[1..], b);
    } else if b != [] {
      assert a + b == b && [] + b[1..] == b[1..];
      NarrowPrefix(b[0], [], b[1..]);
    }
  }

  /** Each set is contained in the one before it. */
  ghost predicate Shrinks(sets: seq<set<Bytes>>) {
    forall i, j :: 0 <= i && j == i + 1 < |sets| ==> sets[j] <= sets[i]
  }

  lemma ShrinksStep(prev: set<Bytes>, sets: seq<set<Bytes>>)
    requires sets != []
    ensures Shrinks([prev] + sets) <==> sets[0] <= prev && Shrinks(sets)
  {
    var all := [prev] + sets;
    assert all[0] == prev && forall i :: 0 <= i < |sets| ==> all[i + 1] == sets[i];
    if Shrinks(all) {
      assert all[1] <= all[0];
      forall i, j | 0 <= i && j == i + 1 < |sets| ensures sets[j] <= sets[i] {
        assert all[j + 1] <= all[i + 1];
      }
    }
    if sets[0] <= prev && Shrinks(sets) {
      forall i, j | 0 <= i && j == i + 1 < |all| ensures all[j] <= all[i] {
        assert i > 0 ==> sets[j - 1] <= sets[i - 1];
      }
    }
  }

  /** A chain is accepted exactly when it shrinks, and then its last set is left. */
  lemma {:induction false} NarrowIsShrinking(sets: seq<set<Bytes>>)
    requires sets != []
    ensures NarrowSets(sets) == if Shrinks(sets) then Some(sets[|sets| - 1]) else None
    decreases |sets|
  {
    if |sets| > 1 {
      NarrowIsShrinking(sets[1..]);
      assert sets == [sets[0]] + sets[1..];
      ShrinksStep(sets[0], sets[1..]);
    }
  }

  method NarrowLists(vals: seq<Bytes>) returns (names: Option<set<Bytes>>)
    requires vals != []
    ensures names == NarrowAll(vals)
  {
    var first := ParseList(vals[0]);
    var prev := first.Keys;
    ghost var sets := Map(Names, vals);
    for i := 1 to |vals|
      invariant Narrow(prev, sets[i..]) == NarrowSets(sets)
    {
      assert sets[i..][1..] == sets[i + 1..] && sets[i] == Names(vals[i]);
      var cur := ParseList(vals[i]);
      if !(cur.Keys <= prev) {
        return None;
      }
      prev := cur.Keys;
    }
    names := Some(prev);
  }

  datatype UntilFault = Unparsable | Loosened

  /** The last expiry of a chain that never moves later; prev is the one before stamps. */
  function Until(prev: Option<int>, stamps: seq<Option<int>>): Result<Option<int>, UntilFault>
    decreases stamps
  {
    if stamps == [] then Ok(prev)
    else if stamps[0].None? then Err(Unparsable)
    else if prev.Some? && stamps[0].value > prev.value then Err(Loosened)
    else Until(stamps[0], stamps[1..])
  }

  function Stamp(val: Bytes): Option<int> { ParseInt64(TrimSpace(val)) }

  function UntilError(cond: Bytes, stamps: seq<Option<int>>, now: int): Option<CaveatError> {
    match Until(None, stamps)
    case Err(Unparsable) => Some(BadTimestamp(cond))
    case Err(Loosened) => Some(UntilLoosened(cond))
    case Ok(last) => if last.Some? && !(now < Seconds(last.value)) then Some(Expired(cond)) else None
  }

  lemma UntilStep(prev: Option<int>, stamps: seq<Option<int>>, i: nat)
    requires i < |stamps|
    ensures Until(prev, stamps[i..]) ==
              if stamps[i].None? then Err(Unparsable)
              else if prev.Some? && stamps[i].value > prev.value then Err(Loosened)
              else Until(stamps[i], stamps[i + 1..])
  {
    assert stamps[i..][0] == stamps[i] && stamps[i..][1..] == stamps[i + 1..];
  }

  /** The last expiry of the chain, or what is wrong with it. */
  method ReadUntil(vals: seq<Bytes>) returns (r: Result<Option<int>, UntilFault>)
    ensures r == Until(None, Map(Stamp, vals))
    ensures r.Ok? && vals != [] ==> r.value.Some?
  {
    var prev: Option<int> := None;
    ghost var stamps := Map(Stamp, vals);
    assert stamps[0..] == stamps;
    for i := 0 to |vals|
      invariant Until(prev, stamps[i..]) == Until(None, stamps)
      invariant prev.None? <==> i == 0
    {
      UntilStep(prev, stamps, i);
      var ts := Stamp(vals[i]);
      if ts.None? {
        return Err(Unparsable);
      }
      if i > 0 && ts.value > prev.value {
        return Err(Loosened);
      }
      prev := ts;
    }
    r := Ok(prev);
  }

  method VerifyValidUntilChain(cond: Bytes, vals: seq<Bytes>, now: int) returns (err: Option<CaveatError>)
    requires vals != []
    ensures err == UntilError(cond, Map(Stamp, vals), now)
  {
    var last := ReadUntil(vals);
    match last {
      case Err(Unparsable) => err := Some(BadTimestamp(cond));
      case Err(Loosened) => err := Some(UntilLoosened(cond));
      case Ok(until) => err := if !(now < Seconds(until.value)) then Some(Expired(cond)) else None;
    }
  }

  lemma {:induction false} UntilPrefix(prev: Option<int>, a: seq<Option<int>>, b: seq<Option<int>>)
    requires Until(prev, a + b).Ok? && (a != [] || prev.Some?)
    ensures Until(prev, a).Ok? && Until(prev, a).value.Some? && Until(prev, a + b).value.Some?
    ensures Until(prev, a + b).value.value <= Until(prev, a).value.value
    decreases |a| + |b|
  {
    if a != [] {
      assert (a + b)[1..] == a[1..] + b;
      UntilPrefix(a[0], a[1..], b);
    } else if b != [] {
      assert a + b == b && [] + b[1..] == b[1..];
      UntilPrefix(b[0], [], b[1..]);
    }
  }

  // --- one condition's group of values ---

  /** mine: the capabilities caveat is about the service asked for. */
  datatype Kind = Services | ValidUntil | Capabilities(mine: bool) | Unknown

  function KindOf(cond: Bytes, service: Bytes): Kind {
    if cond == SERVICES then Services
    else if HasSuffix(cond, VALID_UNTIL) then ValidUntil
    else if HasSuffix(cond, CAPABILITIES) then Capabilities(cond[..|cond| - |CAPABILITIES|] == service)
    else Unknown
  }

  /** A condition that no caveat names imposes nothing, and unknown conditions are skipped. */
  function KindError(kind: Kind, cond: Bytes, vals: seq<Bytes>, opts: Options): Option<CaveatError> {
    if vals == [] then None
    else
      match kind
      case Services => (
        match NarrowAll(vals)
        case None => Some(ListWidened(cond))
        case Some(names) => if opts.service in names then None else Some(WrongService))
      case ValidUntil => UntilError(cond, Map(Stamp, vals), opts.now)
      case Capabilities(mine) => (
        match NarrowAll(vals)
        case None => Some(ListWidened(cond))
        case Some(names) =>
          if opts.capability != [] && mine && opts.capability !in names then Some(CapabilityNotPermitted) else None)
      case Unknown => None
  }

  /** A chain of expiries is in order exactly when every one parses and none is later than the one before. */
  lemma {:induction false} UntilExactly(prev: Option<int>, stamps: seq<Option<int>>)
    ensures Until(prev, stamps).Ok? <==>
              && (forall i :: 0 <= i < |stamps| ==> stamps[i].Some?)
              && (forall i :: 0 <= i < |stamps| - 1 ==> stamps[i + 1].value <= stamps[i].value)
              && (stamps != [] && prev.Some? ==> stamps[0].value <= prev.value)
    ensures Until(prev, stamps).Ok? ==>
              Until(prev, stamps).value == if stamps == [] then prev else stamps[|stamps| - 1]
    decreases stamps
  {
    if stamps != [] && stamps[0].Some? && (prev.Some? ==> stamps[0].value <= prev.value) {
      var rest := stamps[1..];
      UntilExactly(stamps[0], rest);
      assert forall i :: 0 <= i < |rest| ==> rest[i] == stamps[i + 1];
      assert forall i :: 0 < i < |stamps| ==> stamps[i] == rest[i - 1];
    }
  }

  lemma NarrowAllExactly(vals: seq<Bytes>)
    requires vals != []
    ensures NarrowAll(vals) == if Shrinks(Map(Names, vals)) then Some(Names(vals[|vals| - 1])) else None
  {
    NarrowIsShrinking(Map(Names, vals));
  }

  /** Values of the services condition hold exactly when their lists shrink and the last names the service. */
  lemma ServicesExactly(cond: Bytes, vals: seq<Bytes>, opts: Options, narrowed: Option<set<Bytes>>)
    requires vals != [] && narrowed == NarrowAll(vals)
    ensures KindError(Services, cond, vals, opts).None? <==> narrowed.Some? && opts.service in narrowed.value
  {
  }

  /** Values of a capabilities condition: the same, for a capability that is asked of this service. */
  lemma CapabilitiesExactly(mine: bool, cond: Bytes, vals: seq<Bytes>, opts: Options, narrowed: Option<set<Bytes>>)
    requires vals != [] && narrowed == NarrowAll(vals)
    ensures KindError(Capabilities(mine), cond, vals, opts).None? <==>
              narrowed.Some? && (mine && opts.capability != [] ==> opts.capability in narrowed.value)
  {
  }

  /** Values of an expiry condition: each parses, none is later than the one before, and the last has not passed. */
  lemma ExpiryExactly(cond: Bytes, stamps: seq<Option<int>>, now: int)
    requires stamps != []
    ensures UntilError(cond, stamps, now).None? <==>
              && (forall i :: 0 <= i < |stamps| ==> stamps[i].Some?)
              && (forall i :: 0 <= i < |stamps| - 1 ==> stamps[i + 1].value <= stamps[i].value)
              && now < stamps[|stamps| - 1].value * 1_000_000_000
  {
    UntilExactly(None, stamps);
  }

  function GroupError(cond: Bytes, vals: seq<Bytes>, opts: Options): Option<CaveatError> {
    KindError(KindOf(cond, opts.service), cond, vals, opts)
  }

  method VerifyGroup(kind: Kind, cond: Bytes, vals: seq<Bytes>, opts: Options) returns (err: Option<CaveatError>)
    requires vals != []
    ensures err == KindError(kind, cond, vals, opts)
  {
    match kind {
      case Services =>
        var names := NarrowLists(vals);
        err := match names
               case None => Some(ListWidened(cond))
               case Some(ns) => if opts.service in ns then None else Some(WrongService);
      case ValidUntil =>
        err := VerifyValidUntilChain(cond, vals, opts.now);
      case Capabilities(mine) =>
        var names := NarrowLists(vals);
        err := match names
               case None => Some(ListWidened(cond))
               case Some(ns) =>
                 if opts.capability != [] && mine && opts.capability !in ns
                 then Some(CapabilityNotPermitted) else None;
      case Unknown =>
        err := None;
    }
  }

  lemma NarrowSetsPrefix(a: seq<set<Bytes>>, b: seq<set<Bytes>>)
    requires a != [] && NarrowSets(a + b).Some?
    ensures NarrowSets(a).Some? && NarrowSets(a + b).value <= NarrowSets(a).value
  {
    assert (a + b)[1..] == a[1..] + b;
    NarrowPrefix(a[0], a[1..], b);
  }

  lemma NarrowAllPrefix(a: seq<Bytes>, b: seq<Bytes>)
    requires a != [] && NarrowAll(a + b).Some?
    ensures NarrowAll(a).Some? && NarrowAll(a + b).value <= NarrowAll(a).value
  {
    MapAppend(Names, a, b);
    NarrowSetsPrefix(Map(Names, a), Map(Names, b));
  }

  lemma UntilErrorPrefix(cond: Bytes, a: seq<Option<int>>, b: seq<Option<int>>, now: int, earlier: int)
    requires a != [] && earlier <= now && UntilError(cond, a + b, now).None?
    ensures UntilError(cond, a, earlier).None?
  {
    UntilPrefix(None, a, b);
  }

  /** A group that holds keeps holding when later values are dropped and at every earlier time. */
  lemma KindPrefix(kind: Kind, cond: Bytes, a: seq<Bytes>, b: seq<Bytes>, opts: Options, earlier: int)
    requires a != [] && earlier <= opts.now && KindError(kind, cond, a + b, opts).None?
    ensures KindError(kind, cond, a, opts.(now := earlier)).None?
  {
    match kind {
      case Services => NarrowAllPrefix(a, b);
      case ValidUntil =>
        MapAppend(Stamp, a, b);
        UntilErrorPrefix(cond, Map(Stamp, a), Map(Stamp, b), opts.now, earlier);
      case Capabilities(_) => NarrowAllPrefix(a, b);
      case Unknown =>
    }
  }

  // --- grouping ---

  function Condition(cav: Bytes): (cond: Bytes)
    ensures '=' !in cond
  {
    cav[..Find(cav, '=')]
  }

  function Value(cav: Bytes): Bytes {
    if Find(cav, '=') == |cav| then [] else cav[Find(cav, '=') + 1..]
  }

  predicate WellFormed(caveats: seq<Bytes>) { forall cav <- caveats :: '=' in cav }

  /** The values given for one condition, in order. */
  function Values(caveats: seq<Bytes>, cond: Bytes): seq<Bytes> {
    if caveats == [] then []
    else
      var last := caveats[|caveats| - 1];
      Values(caveats[..|caveats| - 1], cond) + if Condition(last) == cond then [Value(last)] else []
  }

  lemma {:induction false} ValuesAppend(a: seq<Bytes>, b: seq<Bytes>, cond: Bytes)
    ensures Values(a + b, cond) == Values(a, cond) + Values(b, cond)
    decreases b
  {
    if b == [] {
      assert a + b == a;
    } else {
      var init := b[..|b| - 1];
      assert (a + b)[..|a + b| - 1] == a + init;
      ValuesAppend(a, init, cond);
    }
  }

  /** The distinct conditions in order of first appearance. */
  function Conditions(caveats: seq<Bytes>): seq<Bytes> {
    if caveats == [] then []
    else
      var prev, cond := Conditions(caveats[..|caveats| - 1]), Condition(caveats[|caveats| - 1]);
      if cond in prev then prev else prev + [cond]
  }

  lemma {:induction false} ConditionsAreNamed(caveats: seq<Bytes>, cond: Bytes)
    ensures cond in Conditions(caveats) <==> Values(caveats, cond) != []
  {
    if caveats != [] {
      ConditionsAreNamed(caveats[..|caveats| - 1], cond);
    }
  }

  // --- the verdict ---

  function FirstMalformed(caveats: seq<Bytes>): (r: Option<CaveatError>)
    ensures r.None? <==> WellFormed(caveats)
  {
    if caveats == [] then None
    else if '=' !in caveats[0] then Some(Malformed(caveats[0]))
    else FirstMalformed(caveats[1..])
  }

  /** The error of the first condition that has one. */
  function FirstError(order: seq<Bytes>, check: Bytes -> Option<CaveatError>): (r: Option<CaveatError>)
    ensures r.None? <==> forall cond <- order :: check(cond).None?
  {
    if order == [] then None
    else if check(order[0]).Some? then check(order[0])
    else FirstError(order[1..], check)
  }

  lemma FirstErrorStep(order: seq<Bytes>, check: Bytes -> Option<CaveatError>)
    requires order != []
    ensures FirstError(order, check) == if check(order[0]).Some? then check(order[0]) else FirstError(order[1..], check)
  {
  }

  function Check(caveats: seq<Bytes>, opts: Options): Bytes -> Option<CaveatError> {
    cond => GroupError(cond, Values(caveats, cond), opts)
  }

  predicate SawServices(caveats: seq<Bytes>) { Values(caveats, SERVICES) != [] }

  predicate SawCapabilities(caveats: seq<Bytes>, service: Bytes) { Values(caveats, service + CAPABILITIES) != [] }

  /** A required check with no matching caveat must not pass. */
  function MissingError(caveats: seq<Bytes>, opts: Options): Option<CaveatError> {
    if opts.service != [] && !SawServices(caveats) then Some(NoServices)
    else if opts.capability != [] && !SawCapabilities(caveats, opts.service) then Some(NoCapabilities)
    else None
  }

  function CaveatsError(caveats: seq<Bytes>, opts: Options): Option<CaveatError> {
    if FirstMalformed(caveats).Some? then FirstMalformed(caveats)
    else
      var e := FirstError(Sort(Conditions(caveats), LessEq), Check(caveats, opts));
      if e.Some? then e else MissingError(caveats, opts)
  }

  ghost predicate GroupsOk(caveats: seq<Bytes>, opts: Options) {
    forall cond :: GroupError(cond, Values(caveats, cond), opts).None?
  }

  /** Acceptance, free of grouping, sorting and evaluation order. */
  lemma AcceptedExactlyWhen(caveats: seq<Bytes>, opts: Options)
    ensures CaveatsError(caveats, opts).None? <==>
              WellFormed(caveats) && GroupsOk(caveats, opts) && MissingError(caveats, opts).None?
  {
    var order := Sort(Conditions(caveats), LessEq);
    SameElements(order, Conditions(caveats));
    if FirstError(order, Check(caveats, opts)).None? {
      forall cond ensures GroupError(cond, Values(caveats, cond), opts).None? {
        ConditionsAreNamed(caveats, cond);
        assert cond in order ==> Check(caveats, opts)(cond).None?;
      }
    }
  }

  ghost predicate Grouped(groups: map<Bytes, seq<Bytes>>, order: seq<Bytes>, caveats: seq<Bytes>) {
    && order == Conditions(caveats)
    && (forall cond :: cond in groups <==> cond in order)
    && (forall cond :: cond in groups ==> groups[cond] == Values(caveats, cond))
  }

  lemma GroupedStep(groups: map<Bytes, seq<Bytes>>, order: seq<Bytes>, caveats: seq<Bytes>, cav: Bytes)
    requires Grouped(groups, order, caveats)
    ensures var cond := Condition(cav);
            Grouped(groups[cond := (if cond in groups then groups[cond] else []) + [Value(cav)]],
                    if cond in groups then order else order + [cond],
                    caveats + [cav])
  {
    assert (caveats + [cav])[..|caveats|] == caveats;
    ConditionsAreNamed(caveats, Condition(cav));
  }

  method GroupCaveats(caveats: seq<Bytes>)
    returns (err: Option<CaveatError>, groups: map<Bytes, seq<Bytes>>, order: seq<Bytes>)
    ensures err == FirstMalformed(caveats)
    ensures err.None? ==> Grouped(groups, order, caveats)
  {
    groups, order := map[], [];
    for i := 0 to |caveats|
      invariant FirstMalformed(caveats) == FirstMalformed(caveats[i..])
      invariant Grouped(groups, order, caveats[..i])
    {
      assert caveats[i..][1..] == caveats[i + 1..] && caveats[..i + 1] == caveats[..i] + [caveats[i]];
      FindAbsent(caveats[i], '=');
      match Cut(caveats[i], '=') {
        case None =>
          return Some(Malformed(caveats[i])), groups, order;
        case Some((cond, val)) =>
          GroupedStep(groups, order, caveats[..i], caveats[i]);
          if cond !in groups {
            order := order + [cond];
          }
          groups := groups[cond := (if cond in groups then groups[cond] else []) + [val]];
      }
    }
    assert caveats[..|caveats|] == caveats;
    err := None;
  }

  lemma PrefixHas(order: seq<Bytes>, i: nat, x: Bytes)
    requires i < |order|
    ensures x in order[..i + 1] <==> x in order[..i] || order[i] == x
  {
    assert order[..i + 1] == order[..i] + [order[i]];
  }

  method VerifyGroups(order: seq<Bytes>, groups: map<Bytes, seq<Bytes>>, opts: Options,
                      ghost check: Bytes -> Option<CaveatError>)
    returns (err: Option<CaveatError>, sawServices: bool, sawCaps: bool)
    requires forall cond <- order :: cond in groups && groups[cond] != []
    requires forall cond <- order ::
      check(cond) == KindError(KindOf(cond, opts.service), cond, groups[cond], opts)
    ensures err == FirstError(order, check)
    ensures err.None? ==> (sawServices <==> SERVICES in order)
    ensures err.None? ==> (sawCaps <==> opts.service + CAPABILITIES in order)
  {
    sawServices, sawCaps := false, false;
    var caps := opts.service + CAPABILITIES;
    for i := 0 to |order|
      invariant FirstError(order, check) == FirstError(order[i..], check)
      invariant sawServices <==> SERVICES in order[..i]
      invariant sawCaps <==> caps in order[..i]
    {
      var cond := order[i];
      FirstErrorStep(order[i..], check);
      assert order[i..][1..] == order[i + 1..];
      err := VerifyGroup(KindOf(cond, opts.service), cond, groups[cond], opts);
      if err.Some? {
        return;
      }
      PrefixHas(order, i, SERVICES);
      PrefixHas(order, i, caps);
      sawServices, sawCaps := sawServices || cond == SERVICES, sawCaps || cond == caps;
    }
    assert order[..|order|] == order;
    err := None;
  }

  lemma VerdictParts(caveats: seq<Bytes>, opts: Options, order: seq<Bytes>)
    requires WellFormed(caveats) && order == Sort(Conditions(caveats), LessEq)
    ensures forall cond <- order :: Values(caveats, cond) != []
    ensures SERVICES in order <==> SawServices(caveats)
    ensures opts.service + CAPABILITIES in order <==> SawCapabilities(caveats, opts.service)
    ensures CaveatsError(caveats, opts) ==
      var e := FirstError(order, Check(caveats, opts)); if e.Some? then e else MissingError(caveats, opts)
  {
    SameElements(order, Conditions(caveats));
    forall cond ensures cond in order <==> Values(caveats, cond) != [] { ConditionsAreNamed(caveats, cond); }
  }

  method VerifyCaveats(caveats: seq<Bytes>, opts: Options) returns (err: Option<CaveatError>)
    ensures err == CaveatsError(caveats, opts)
  {
    var groups, conds;
    err, groups, conds := GroupCaveats(caveats);
    if err.Some? {
      return;
    }
    var order := Sort(conds, LessEq);
    VerdictParts(caveats, opts, order);
    SameElements(order, conds);
    var sawServices, sawCaps;
    err, sawServices, sawCaps := VerifyGroups(order, groups, opts, Check(caveats, opts));
    if err.Some? {
      return;
    }
    if opts.service != [] && !sawServices {
      return Some(NoServices);
    }
    if opts.capability != [] && !sawCaps {
      return Some(NoCapabilities);
    }
    err := None;
  }

  // --- attenuation only narrows ---

  /** The token already carries the caveats that the requested checks look for. */
  predicate Bound(caveats: seq<Bytes>, opts: Options) { MissingError(caveats, opts).None? }

  /** What an accepted chain says of its beginning, now and earlier. */
  lemma AppendedHolds(caveats: seq<Bytes>, more: seq<Bytes>, opts: Options, earlier: int)
    requires earlier <= opts.now && CaveatsError(caveats + more, opts).None?
    ensures WellFormed(caveats) && GroupsOk(caveats, opts.(now := earlier))
  {
    var before := opts.(now := earlier);
    AcceptedExactlyWhen(caveats + more, opts);
    assert forall cav <- caveats :: cav in caveats + more;
    forall cond ensures GroupError(cond, Values(caveats, cond), before).None? {
      if Values(caveats, cond) != [] {
        ValuesAppend(caveats, more, cond);
        KindPrefix(KindOf(cond, opts.service), cond, Values(caveats, cond), Values(more, cond), opts, earlier);
      }
    }
  }

  lemma CaveatsNarrow(caveats: seq<Bytes>, more: seq<Bytes>, opts: Options, earlier: int)
    requires Bound(caveats, opts) && earlier <= opts.now
    requires CaveatsError(caveats + more, opts).None?
    ensures CaveatsError(caveats, opts.(now := earlier)).None?
  {
    AppendedHolds(caveats, more, opts, earlier);
    AcceptedExactlyWhen(caveats, opts.(now := earlier));
  }

  // --- names the list grammar can spell ---

  predicate Listable(name: Bytes) { name != [] && ',' !in name && ':' !in name && !IsSpace(name[0]) }

  lemma ItemName(item: Bytes)
    requires ',' !in item && ListItem(item).Some?
    ensures var name := ListItem(item).value.0; name == [] || Listable(name)
  {
    var t := TrimSpace(item);
    assert forall x <- t :: x in item;
    FindAbsent(t, ':');
    var name := ListItem(item).value.0;
    if name != [] {
      assert name[0] == t[0];
    }
  }

  lemma {:induction false} EntryNames(entries: seq<Option<(Bytes, Bytes)>>)
    requires forall e <- entries :: e.Some? ==> e.value.0 == [] || Listable(e.value.0)
    ensures forall name <- AddEntries(entries) :: name == [] || Listable(name)
  {
    if entries != [] {
      var init, last := entries[..|entries| - 1], entries[|entries| - 1];
      assert last in entries && forall e <- init :: e in entries;
      EntryNames(init);
    }
  }

  /** Whatever a list names is either empty or listable, so an unlistable service is never found. */
  lemma OnlyListableNames(val: Bytes, name: Bytes)
    requires name in Names(val) && name != []
    ensures Listable(name)
  {
    var items := Split(val, ',');
    var entries := Map(ListItem, items);
    forall e | e in entries && e.Some? ensures e.value.0 == [] || Listable(e.value.0) {
      var i :| 0 <= i < |entries| && entries[i] == e;
      assert items[i] in items;
      ItemName(items[i]);
    }
    EntryNames(entries);
  }

  lemma {:induction false} NarrowedNames(prev: set<Bytes>, sets: seq<set<Bytes>>)
    requires Narrow(prev, sets).Some?
    ensures Narrow(prev, sets).value <= prev
    decreases sets
  {
    if sets != [] {
      NarrowedNames(sets[0], sets[1..]);
    }
  }

  /** A service that the list grammar cannot spell is never authorized. */
  lemma UnlistableNeverHolds(vals: seq<Bytes>, opts: Options)
    requires vals != [] && opts.service != [] && !Listable(opts.service)
    ensures KindError(Kind.Services, SERVICES, vals, opts).Some?
  {
    var names := NarrowAll(vals);
    if names.Some? {
      var sets := Map(Names, vals);
      NarrowedNames(sets[0], sets[1..]);
      if opts.service in names.value {
        OnlyListableNames(vals[0], opts.service);
      }
    }
  }

  lemma UnlistableRejected(caveats: seq<Bytes>, opts: Options)
    requires opts.service != [] && !Listable(opts.service)
    ensures CaveatsError(caveats, opts).Some?
  {
    AcceptedExactlyWhen(caveats, opts);
    if SawServices(caveats) {
      UnlistableNeverHolds(Values(caveats, SERVICES), opts);
      assert KindOf(SERVICES, opts.service) == Kind.Services;
      assert GroupError(SERVICES, Values(caveats, SERVICES), opts).Some?;
    }
  }

  lemma AddOneEntry(entry: Option<(Bytes, Bytes)>)
    ensures AddEntries([entry]) == if entry.None? then map[] else map[entry.value.0 := entry.value.1]
  {
    var entries := [entry];
    assert entries[..0] == [];
  }

  lemma OneItem(val: Bytes, name: Bytes, tier: Bytes)
    requires ',' !in val && ListItem(val) == Some((name, tier))
    ensures Names(val) == {name}
  {
    SplitOne(val, ',');
    AddOneEntry(Some((name, tier)));
    assert Map(ListItem, [val]) == [ListItem(val)];
  }

  /** A list of exactly this name, with an empty tier. */
  function Listed(name: Bytes): Bytes { name + [':'] }

  lemma ListedNames(name: Bytes)
    requires Listable(name)
    ensures Names(Listed(name)) == {name}
  {
    var val := Listed(name);
    assert val[0] == name[0] && val[|val| - 1] == ':';
    ListedCut(name, [], val);
    CutItem(name, [], val);
    OneItem(val, name, []);
  }

  lemma ListedCut(name: Bytes, tier: Bytes, val: Bytes)
    requires ':' !in name && val == name + [':'] + tier
    ensures Cut(val, ':') == Some((name, tier))
  {
    CutSeparator(name, ':', tier);
  }

  lemma CutItem(name: Bytes, tier: Bytes, val: Bytes)
    requires val != [] && !IsSpace(val[0]) && !IsSpace(val[|val| - 1]) && Cut(val, ':') == Some((name, tier))
    ensures ListItem(val) == Some((name, tier))
  {
    assert TrimSpace(val) == val;
  }

  lemma SingleCaveat(cond: Bytes, val: Bytes, c: Bytes)
    requires '=' !in cond
    ensures Condition(CaveatText(cond, val)) == cond && Value(CaveatText(cond, val)) == val
    ensures Values([CaveatText(cond, val)], c) == if c == cond then [val] else []
    ensures WellFormed([CaveatText(cond, val)])
  {
    FindSeparator(cond, '=', val);
    var cav := CaveatText(cond, val);
    assert cav[|cond|] == '=';
    var one: seq<Bytes> := [cav];
    assert one[..0] == [];
  }

  function ForgedServices(caveats: seq<Bytes>, opts: Options): seq<Bytes> {
    if opts.service != [] && !SawServices(caveats) then [CaveatText(SERVICES, Listed(opts.service))] else []
  }

  function ForgedCapabilities(caveats: seq<Bytes>, opts: Options): seq<Bytes> {
    if opts.capability != [] && !SawCapabilities(caveats, opts.service)
    then [CaveatText(opts.service + CAPABILITIES, Listed(opts.capability))] else []
  }

  /** The caveats a holder appends to satisfy a check that the token never bound. */
  function Forged(caveats: seq<Bytes>, opts: Options): seq<Bytes> {
    ForgedServices(caveats, opts) + ForgedCapabilities(caveats, opts)
  }

  /** The three conditions a gate mints are told apart. */
  lemma ServiceConditions(service: Bytes)
    ensures KindOf(SERVICES, service) == Services
    ensures KindOf(service + VALID_UNTIL, service) == ValidUntil
    ensures KindOf(service + CAPABILITIES, service) == Capabilities(true)
    ensures '=' !in SERVICES && '=' !in VALID_UNTIL && '=' !in CAPABILITIES
    ensures service + CAPABILITIES != SERVICES && service + VALID_UNTIL != SERVICES
    ensures service + CAPABILITIES != service + VALID_UNTIL
  {
    var caps, until := service + CAPABILITIES, service + VALID_UNTIL;
    assert |SERVICES| == 8 && |CAPABILITIES| == 13 && |VALID_UNTIL| == 12;
    assert caps[|caps| - 1] == 's' && until[|until| - 1] == 'l' && VALID_UNTIL[11] == 'l';
    assert caps[|caps| - 12..][11] == 's';
    assert caps[|caps| - 13..] == CAPABILITIES && until[|until| - 12..] == VALID_UNTIL;
    assert caps[..|caps| - 13] == service;
  }

  lemma NarrowSingle(val: Bytes)
    ensures NarrowAll([val]) == Some(Names(val))
  {
    assert Map(Names, [val]) == [Names(val)];
  }

  lemma ForgedService(opts: Options)
    requires Listable(opts.service)
    ensures KindError(Services, SERVICES, [Listed(opts.service)], opts).None?
  {
    NarrowSingle(Listed(opts.service));
    ListedNames(opts.service);
  }

  lemma CapabilityHeld(cond: Bytes, vals: seq<Bytes>, names: set<Bytes>, opts: Options)
    requires vals != [] && NarrowAll(vals) == Some(names) && opts.capability in names
    ensures KindError(Capabilities(true), cond, vals, opts).None?
  {
  }

  lemma ForgedCapability(cond: Bytes, opts: Options)
    requires Listable(opts.capability)
    ensures KindError(Capabilities(true), cond, [Listed(opts.capability)], opts).None?
  {
    NarrowSingle(Listed(opts.capability));
    ListedNames(opts.capability);
    CapabilityHeld(cond, [Listed(opts.capability)], {opts.capability}, opts);
  }

  lemma ForgedServicesValues(caveats: seq<Bytes>, opts: Options, cond: Bytes)
    ensures Values(ForgedServices(caveats, opts), cond) ==
              if cond == SERVICES && opts.service != [] && !SawServices(caveats) then [Listed(opts.service)] else []
    ensures WellFormed(ForgedServices(caveats, opts))
  {
    assert '=' !in SERVICES by { ServiceConditions(opts.service); }
    SingleCaveat(SERVICES, Listed(opts.service), cond);
  }

  /** The names the request asks for can be written into caveats at all. */
  predicate Spellable(opts: Options) {
    && (opts.service != [] ==> Listable(opts.service))
    && (opts.capability != [] ==> Listable(opts.capability) && '=' !in opts.service)
  }

  lemma ForgedCapabilitiesValues(caveats: seq<Bytes>, opts: Options, cond: Bytes)
    requires Spellable(opts)
    ensures Values(ForgedCapabilities(caveats, opts), cond) ==
              if cond == opts.service + CAPABILITIES && opts.capability != []
                 && !SawCapabilities(caveats, opts.service) then [Listed(opts.capability)] else []
    ensures WellFormed(ForgedCapabilities(caveats, opts))
  {
    if opts.capability != [] {
      assert '=' !in opts.service + CAPABILITIES by { ServiceConditions(opts.service); }
      SingleCaveat(opts.service + CAPABILITIES, Listed(opts.capability), cond);
    }
  }

  lemma ForgedValues(caveats: seq<Bytes>, opts: Options, cond: Bytes)
    requires Spellable(opts)
    ensures Values(caveats + Forged(caveats, opts), cond) ==
              if cond == SERVICES && opts.service != [] && !SawServices(caveats) then [Listed(opts.service)]
              else if cond == opts.service + CAPABILITIES && opts.capability != []
                      && !SawCapabilities(caveats, opts.service)
              then [Listed(opts.capability)]
              else Values(caveats, cond)
  {
    var s, k := ForgedServices(caveats, opts), ForgedCapabilities(caveats, opts);
    assert opts.service + CAPABILITIES != SERVICES by { ServiceConditions(opts.service); }
    ForgedServicesValues(caveats, opts, cond);
    ForgedCapabilitiesValues(caveats, opts, cond);
    ValuesAppend(s, k, cond);
    ValuesAppend(caveats, s + k, cond);
  }

  lemma ForgedGroup(caveats: seq<Bytes>, opts: Options, cond: Bytes)
    requires GroupError(cond, Values(caveats, cond), opts).None? && Spellable(opts)
    ensures GroupError(cond, Values(caveats + Forged(caveats, opts), cond), opts).None?
  {
    ServiceConditions(opts.service);
    ForgedValues(caveats, opts, cond);
    if opts.service != [] {
      ForgedService(opts);
    }
    if opts.capability != [] {
      ForgedCapability(opts.service + CAPABILITIES, opts);
    }
  }

  lemma ForgedBinds(caveats: seq<Bytes>, opts: Options)
    requires Spellable(opts)
    ensures Bound(caveats + Forged(caveats, opts), opts)
  {
    assert SERVICES != opts.service + CAPABILITIES by { ServiceConditions(opts.service); }
    ForgedValues(caveats, opts, SERVICES);
    ForgedValues(caveats, opts, opts.service + CAPABILITIES);
  }

  lemma ForgedWellFormed(caveats: seq<Bytes>, opts: Options)
    requires WellFormed(caveats) && Spellable(opts)
    ensures WellFormed(caveats + Forged(caveats, opts))
  {
    ForgedServicesValues(caveats, opts, []);
    ForgedCapabilitiesValues(caveats, opts, []);
  }

  lemma ForgedIsAccepted(caveats: seq<Bytes>, opts: Options)
    requires WellFormed(caveats) && GroupsOk(caveats, opts) && Spellable(opts)
    ensures CaveatsError(caveats + Forged(caveats, opts), opts).None?
  {
    var all := caveats + Forged(caveats, opts);
    AcceptedExactlyWhen(all, opts);
    forall cond ensures GroupError(cond, Values(all, cond), opts).None? {
      ForgedGroup(caveats, opts, cond);
    }
    ForgedBinds(caveats, opts);
    ForgedWellFormed(caveats, opts);
  }

  lemma {:induction false} NamedCondition(caveats: seq<Bytes>, cond: Bytes)
    requires Values(caveats, cond) != []
    ensures '=' !in cond
  {
    if Values(caveats[..|caveats| - 1], cond) != [] {
      NamedCondition(caveats[..|caveats| - 1], cond);
    }
  }

  lemma HeldCapability(vals: seq<Bytes>, cond: Bytes, opts: Options)
    requires vals != [] && opts.capability != [] && KindError(Capabilities(true), cond, vals, opts).None?
    ensures Listable(opts.capability)
  {
    var sets := Map(Names, vals);
    NarrowedNames(sets[0], sets[1..]);
    OnlyListableNames(vals[0], opts.capability);
  }

  lemma CapabilityListable(caveats: seq<Bytes>, opts: Options, cond: Bytes)
    requires cond == opts.service + CAPABILITIES && opts.capability != []
    requires Values(caveats, cond) != [] && GroupError(cond, Values(caveats, cond), opts).None?
    ensures Listable(opts.capability) && '=' !in opts.service
  {
    NamedCondition(caveats, cond);
    assert KindOf(cond, opts.service) == Capabilities(true) by { ServiceConditions(opts.service); }
    HeldCapability(Values(caveats, cond), cond, opts);
  }

  /** Whatever is accepted was asked for by spellable names. */
  lemma AcceptedSpellable(caveats: seq<Bytes>, opts: Options)
    requires CaveatsError(caveats, opts).None?
    ensures Spellable(opts)
  {
    if opts.service != [] && !Listable(opts.service) {
      UnlistableRejected(caveats, opts);
    }
    if opts.capability != [] {
      AcceptedExactlyWhen(caveats, opts);
      CapabilityListable(caveats, opts, opts.service + CAPABILITIES);
    }
  }

  /** Appending only narrows exactly when the token is bound, or nothing appended to it is accepted at all. */
  lemma NarrowsExactlyWhenBound(caveats: seq<Bytes>, opts: Options)
    ensures (forall more :: CaveatsError(caveats + more, opts).None? ==> CaveatsError(caveats, opts).None?)
            <==> Bound(caveats, opts) || !WellFormed(caveats) || !GroupsOk(caveats, opts) || !Spellable(opts)
  {
    AcceptedExactlyWhen(caveats, opts);
    if WellFormed(caveats) && GroupsOk(caveats, opts) && Spellable(opts) {
      ForgedIsAccepted(caveats, opts);
    }
    forall more | CaveatsError(caveats + more, opts).None?
      ensures WellFormed(caveats) && GroupsOk(caveats, opts) && Spellable(opts)
    {
      AppendedHolds(caveats, more, opts, opts.now);
      AcceptedSpellable(caveats + more, opts);
    }
  }

  // --- the full token check ---

  datatype TokenError =
    | SignatureMismatch | BadIdentifier(idError: IdentifierError) | BadPreimage | PreimageMismatch
    | BadCaveats(error: CaveatError)

  function VerifyToken(c: Crypto, rootKey: Hash32, m: Mac, preimageHex: Bytes, opts: Options): Option<TokenError> {
    if !SignatureValid(c, rootKey, m) then Some(SignatureMismatch)
    else
      match DecodeIdentifier(m.id)
      case Err(e) => Some(BadIdentifier(e))
      case Ok(id) =>
        match HexDecode(preimageHex)
        case None => Some(BadPreimage)
        case Some(preimage) =>
          if |preimage| != 32 then Some(BadPreimage)
          else if c.sha256(preimage) != id.paymentHash then Some(PreimageMismatch)
          else
            match CaveatsError(m.caveats, opts)
            case None => None
            case Some(e) => Some(BadCaveats(e))
  }

  /** The preimage is 32 bytes in hexadecimal and hashes to the payment hash of the identifier. */
  predicate PreimageFits(c: Crypto, id: Bytes, preimageHex: Bytes) {
    && DecodeIdentifier(id).Ok? && HexDecode(preimageHex).Some? && |HexDecode(preimageHex).value| == 32
    && c.sha256(HexDecode(preimageHex).value) == DecodeIdentifier(id).value.paymentHash
  }

  /** A token is accepted exactly when signature, preimage and caveats are. */
  lemma TokenAccepted(c: Crypto, rootKey: Hash32, m: Mac, preimageHex: Bytes, opts: Options)
    ensures VerifyToken(c, rootKey, m, preimageHex, opts).None? <==>
              && SignatureValid(c, rootKey, m) && PreimageFits(c, m.id, preimageHex)
              && CaveatsError(m.caveats, opts).None?
  {
  }

  lemma OriginalSigned(c: Crypto, rootKey: Hash32, m: Mac, more: seq<Bytes>)
    requires SignatureValid(c, rootKey, m) || HmacKeyInjective(c)
    requires SignatureValid(c, rootKey, Attenuated(c, m, more))
    ensures SignatureValid(c, rootKey, m)
  {
    if !SignatureValid(c, rootKey, m) {
      OriginalSignature(c, rootKey, m, more);
    }
  }

  /** If any sequence of appended caveats is accepted at some time, the original was accepted then and before. */
  lemma AttenuationNarrows(c: Crypto, rootKey: Hash32, m: Mac, more: seq<Bytes>, preimageHex: Bytes,
                           opts: Options, earlier: int)
    requires SignatureValid(c, rootKey, m) || HmacKeyInjective(c)
    requires Bound(m.caveats, opts) && earlier <= opts.now
    requires VerifyToken(c, rootKey, Attenuated(c, m, more), preimageHex, opts).None?
    ensures VerifyToken(c, rootKey, m, preimageHex, opts.(now := earlier)).None?
  {
    var before := opts.(now := earlier);
    TokenAccepted(c, rootKey, Attenuated(c, m, more), preimageHex, opts);
    TokenAccepted(c, rootKey, m, preimageHex, before);
    OriginalSigned(c, rootKey, m, more);
    CaveatsNarrow(m.caveats, more, opts, earlier);
  }
}
