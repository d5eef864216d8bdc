/** Credentials as a gate mints, delivers and accepts them (lib/challenge.go, lib/verify.go, lib/gate.go). */
module Credentials {
  import opened Base
  import opened Text
  import opened Numbers
  import opened Encodings
  import opened Macaroons
  import opened Caveats
  import opened Headers

  /** The part of a gate's configuration that its credentials carry; durations are nanoseconds. */
  datatype Service = Service(name: Bytes, tier: int, capabilities: seq<Bytes>, tokenTTL: int)

  function CapabilityCaveats(s: Service): seq<Bytes> {
    if s.capabilities == [] then [] else [CapabilitiesCaveat(s.name, s.capabilities)]
  }

  function ServiceCaveats(s: Service): seq<Bytes> { [ServicesCaveat(s.name, s.tier)] }

  function UntilCaveats(s: Service, now: int): seq<Bytes> { [ValidUntilCaveat(s.name, now + s.tokenTTL)] }

  function MintCaveats(s: Service, now: int): seq<Bytes> {
    ServiceCaveats(s) + CapabilityCaveats(s) + UntilCaveats(s, now)
  }

  /** The expiry a credential minted at now carries, in whole seconds. */
  function ValidUntilOf(s: Service, now: int): int { (now + s.tokenTTL) / 1_000_000_000 }

  function MintCredential(c: Crypto, rootKey: Hash32, s: Service, id: Identifier, now: int): Mac {
    Mint(c, rootKey, id, MintCaveats(s, now))
  }

  /** What a gate asks of a presented token. */
  function Asked(s: Service, t: int): Options { Options(s.name, [], t) }

  // --- names the caveat grammar carries unambiguously ---

  predicate Grammatical(name: Bytes) { Listable(name) && '=' !in name }

  function ServiceValue(s: Service): Bytes { s.name + [':'] + FormatInt(s.tier) }

  lemma ServiceItem(name: Bytes, tier: Bytes, val: Bytes)
    requires Listable(name) && tier != [] && NoSpace(tier) && val == name + [':'] + tier
    ensures ListItem(val) == Some((name, tier))
  {
    assert val[0] == name[0] && val[|val| - 1] == tier[|tier| - 1] && tier[|tier| - 1] in tier;
    ListedCut(name, tier, val);
    CutItem(name, tier, val);
  }

  lemma ServiceNames(s: Service)
    requires Listable(s.name)
    ensures Names(ServiceValue(s)) == {s.name}
  {
    var tier := FormatInt(s.tier);
    assert ',' !in tier;
    ServiceItem(s.name, tier, ServiceValue(s));
    OneItem(ServiceValue(s), s.name, tier);
  }

  // --- a grammatical name: accepted exactly until the expiry ---

  lemma ValuesThree(a: seq<Bytes>, b: seq<Bytes>, d: seq<Bytes>, cond: Bytes)
    ensures Values(a + b + d, cond) == Values(a, cond) + Values(b, cond) + Values(d, cond)
  {
    ValuesAppend(a, b, cond);
    ValuesAppend(a + b, d, cond);
  }

  lemma CapabilityValues(s: Service, cond: Bytes)
    requires '=' !in s.name
    ensures Values(CapabilityCaveats(s), cond) ==
              if cond == s.name + CAPABILITIES && s.capabilities != [] then [Join(s.capabilities, ',')] else []
    ensures WellFormed(CapabilityCaveats(s))
  {
    assert '=' !in s.name + CAPABILITIES by { ServiceConditions(s.name); }
    SingleCaveat(s.name + CAPABILITIES, Join(s.capabilities, ','), cond);
  }

  lemma UntilValues(s: Service, now: int, cond: Bytes)
    requires '=' !in s.name
    ensures Values(UntilCaveats(s, now), cond) ==
              if cond == s.name + VALID_UNTIL then [FormatInt(ValidUntilOf(s, now))] else []
    ensures WellFormed(UntilCaveats(s, now))
  {
    var name, val := s.name + VALID_UNTIL, FormatInt(ValidUntilOf(s, now));
    assert '=' !in name by { ServiceConditions(s.name); }
    assert UntilCaveats(s, now) == [CaveatText(name, val)];
    SingleCaveat(name, val, cond);
  }

  lemma ServicesValues(s: Service, cond: Bytes)
    ensures Values(ServiceCaveats(s), cond) == if cond == SERVICES then [ServiceValue(s)] else []
    ensures WellFormed(ServiceCaveats(s))
  {
    assert '=' !in SERVICES by { ServiceConditions(s.name); }
    SingleCaveat(SERVICES, ServiceValue(s), cond);
  }

  lemma MintWellFormed(s: Service, now: int)
    requires '=' !in s.name
    ensures WellFormed(MintCaveats(s, now))
  {
    ServicesValues(s, []);
    CapabilityValues(s, []);
    UntilValues(s, now, []);
  }

  lemma MintValues(s: Service, now: int, cond: Bytes)
    requires '=' !in s.name
    ensures Values(MintCaveats(s, now), cond) ==
              if cond == SERVICES then [ServiceValue(s)]
              else if cond == s.name + CAPABILITIES && s.capabilities != [] then [Join(s.capabilities, ',')]
              else if cond == s.name + VALID_UNTIL then [FormatInt(ValidUntilOf(s, now))]
              else []
  {
    var caps, until := s.name + CAPABILITIES, s.name + VALID_UNTIL;
    assert caps != SERVICES && until != SERVICES && caps != until by { ServiceConditions(s.name); }
    ValuesThree(ServiceCaveats(s), CapabilityCaveats(s), UntilCaveats(s, now), cond);
    ServicesValues(s, cond);
    CapabilityValues(s, cond);
    UntilValues(s, now, cond);
  }

  lemma OneStamp(cond: Bytes, sec: int, t: int)
    requires InInt64(sec)
    ensures UntilError(cond, Map(Stamp, [FormatInt(sec)]), t).None? <==> t < Seconds(sec)
  {
    FormatTrimmed(sec);
    ParseFormat(sec);
    assert Map(Stamp, [FormatInt(sec)]) == [Some(sec)];
    var stamps: seq<Option<int>> := [Some(sec)];
    assert stamps[1..] == [];
    assert Until(None, stamps) == Until(Some(sec), stamps[1..]);
  }

  lemma ServicesHold(s: Service, t: int)
    requires Listable(s.name)
    ensures KindError(Kind.Services, SERVICES, [ServiceValue(s)], Asked(s, t)).None?
  {
    NarrowSingle(ServiceValue(s));
    ServiceNames(s);
  }

  /** No capability is asked for, so any single list of them holds. */
  lemma CapabilitiesHold(s: Service, cond: Bytes, val: Bytes, t: int)
    ensures KindError(Capabilities(true), cond, [val], Asked(s, t)).None?
  {
    NarrowSingle(val);
  }

  lemma UntilHolds(s: Service, cond: Bytes, sec: int, t: int)
    requires InInt64(sec)
    ensures KindError(ValidUntil, cond, [FormatInt(sec)], Asked(s, t)).None? <==> t < Seconds(sec)
  {
    OneStamp(cond, sec, t);
  }

  /** The group of each condition of a minted credential. */
  lemma MintGroup(s: Service, now: int, cond: Bytes, t: int)
    requires Grammatical(s.name) && InInt64(ValidUntilOf(s, now))
    ensures GroupError(cond, Values(MintCaveats(s, now), cond), Asked(s, t)).None? <==>
              cond != s.name + VALID_UNTIL || t < Seconds(ValidUntilOf(s, now))
  {
    var vals := Values(MintCaveats(s, now), cond);
    MintValues(s, now, cond);
    ServiceConditions(s.name);
    if vals == [] {
    } else if cond == SERVICES {
      ServicesHold(s, t);
    } else if cond == s.name + CAPABILITIES {
      CapabilitiesHold(s, cond, Join(s.capabilities, ','), t);
    } else {
      UntilHolds(s, cond, ValidUntilOf(s, now), t);
    }
  }

  lemma MintGroups(s: Service, now: int, t: int)
    requires Grammatical(s.name) && InInt64(ValidUntilOf(s, now))
    ensures GroupsOk(MintCaveats(s, now), Asked(s, t)) <==> t < Seconds(ValidUntilOf(s, now))
  {
    var until := s.name + VALID_UNTIL;
    MintGroup(s, now, until, t);
    forall cond | t < Seconds(ValidUntilOf(s, now))
      ensures GroupError(cond, Values(MintCaveats(s, now), cond), Asked(s, t)).None?
    {
      MintGroup(s, now, cond, t);
    }
  }

  lemma MintBound(s: Service, now: int, t: int)
    requires '=' !in s.name
    ensures MissingError(MintCaveats(s, now), Asked(s, t)).None?
  {
    MintValues(s, now, SERVICES);
  }

  lemma AcceptedUntil(s: Service, now: int, t: int)
    requires Grammatical(s.name) && InInt64(ValidUntilOf(s, now))
    ensures CaveatsError(MintCaveats(s, now), Asked(s, t)).None? <==> t < Seconds(ValidUntilOf(s, now))
  {
    AcceptedExactlyWhen(MintCaveats(s, now), Asked(s, t));
    MintWellFormed(s, now);
    MintBound(s, now, t);
    MintGroups(s, now, t);
  }

  // --- a capability the issuer never named ---

  /** Asked for a capability, in a gate whose credentials name none. */
  lemma UncappedGroup(s: Service, now: int, cond: Bytes, capability: Bytes, t: int)
    requires Grammatical(s.name) && s.capabilities == [] && InInt64(ValidUntilOf(s, now))
    requires t < Seconds(ValidUntilOf(s, now))
    ensures GroupError(cond, Values(MintCaveats(s, now), cond), Options(s.name, capability, t)).None?
  {
    MintGroup(s, now, cond, t);
    MintValues(s, now, cond);
    ServiceConditions(s.name);
    if cond == SERVICES || cond == s.name + VALID_UNTIL {
      KindIgnoresCapability(KindOf(cond, s.name), cond, Values(MintCaveats(s, now), cond), s, capability, t);
    }
  }

  lemma KindIgnoresCapability(kind: Kind, cond: Bytes, vals: seq<Bytes>, s: Service, capability: Bytes, t: int)
    requires kind == Kind.Services || kind == ValidUntil
    ensures KindError(kind, cond, vals, Options(s.name, capability, t)) == KindError(kind, cond, vals, Asked(s, t))
  {
  }

  /**
   * Every live credential of a service that names no capabilities is refused when one is asked for, and accepted once
   * its holder has appended a caveat that names it: here attenuation widens.
   */
  lemma HolderAddsCapability(s: Service, now: int, capability: Bytes, t: int)
    requires Grammatical(s.name) && s.capabilities == [] && InInt64(ValidUntilOf(s, now))
    requires t < Seconds(ValidUntilOf(s, now)) && Listable(capability)
    ensures var cavs, opts := MintCaveats(s, now), Options(s.name, capability, t);
            CaveatsError(cavs, opts).Some? && CaveatsError(cavs + Forged(cavs, opts), opts).None?
  {
    var cavs, opts := MintCaveats(s, now), Options(s.name, capability, t);
    MintWellFormed(s, now);
    forall cond ensures GroupError(cond, Values(cavs, cond), opts).None? {
      UncappedGroup(s, now, cond, capability, t);
    }
    ForgedIsAccepted(cavs, opts);
    AcceptedExactlyWhen(cavs, opts);
    MintValues(s, now, s.name + CAPABILITIES);
    assert s.name + CAPABILITIES != SERVICES && s.name + CAPABILITIES != s.name + VALID_UNTIL by {
      ServiceConditions(s.name);
    }
  }

  // --- any other name ---

  lemma {:induction false} UntilUnparsable(prev: Option<int>, stamps: seq<Option<int>>, k: nat)
    requires k < |stamps| && stamps[k].None?
    ensures Until(prev, stamps).Err?
    decreases stamps
  {
    if k > 0 {
      UntilUnparsable(stamps[0], stamps[1..], k - 1);
    }
  }

  lemma NotATimestamp(val: Bytes)
    requires '=' in val
    ensures Stamp(val).None?
  {
    TrimKeepsOther(val, '=');
    var t := TrimSpace(val);
    var i :| 0 <= i < |t| && t[i] == '=';
    var digits := if t[0] == '-' || t[0] == '+' then t[1..] else t;
    assert '=' in digits by { assert t[0] != '=' || digits == t; assert i > 0 ==> t[1..][i - 1] == '='; }
  }

  lemma TrimKeepsOther(s: Bytes, c: Octet)
    requires c in s && !IsSpace(c)
    ensures c in TrimSpace(s)
  {
    TrimLeftKeeps(s, c);
    TrimRightKeeps(TrimLeft(s, IsSpace), c);
  }

  lemma {:induction false} TrimLeftKeeps(s: Bytes, c: Octet)
    requires c in s && !IsSpace(c)
    ensures c in TrimLeft(s, IsSpace)
  {
    if IsSpace(s[0]) {
      assert s == [s[0]] + s[1..];
      TrimLeftKeeps(s[1..], c);
    }
  }

  lemma {:induction false} TrimRightKeeps(s: Bytes, c: Octet)
    requires c in s && !IsSpace(c)
    ensures c in TrimRight(s, IsSpace)
  {
    if IsSpace(s[|s| - 1]) {
      assert s == s[..|s| - 1] + [s[|s| - 1]];
      TrimRightKeeps(s[..|s| - 1], c);
    }
  }

  /** With '=' in the name, the expiry caveat is read under another condition and with a value that is no time. */
  lemma BrokenCaveat(name: Bytes, suffix: Bytes, val: Bytes)
    requires '=' in name
    ensures '=' in Value(CaveatText(name + suffix, val))
  {
    var cav, i := CaveatText(name + suffix, val), Find(name, '=');
    FindAbsent(name, '=');
    var head, tail := name[..i], name[i + 1..] + suffix;
    assert cav == head + ['='] + (tail + ['='] + val);
    FindSeparator(head, '=', tail + ['='] + val);
    assert (tail + ['='] + val)[|tail|] == '=';
  }

  lemma {:induction false} ValuesComeFrom(caveats: seq<Bytes>, cond: Bytes, k: nat)
    requires k < |Values(caveats, cond)|
    ensures exists cav <- caveats :: Condition(cav) == cond && Value(cav) == Values(caveats, cond)[k]
  {
    var init, last := caveats[..|caveats| - 1], caveats[|caveats| - 1];
    assert last in caveats && forall cav <- init :: cav in caveats;
    if k < |Values(init, cond)| {
      ValuesComeFrom(init, cond, k);
    }
  }

  lemma MintMembers(s: Service, now: int, cav: Bytes)
    requires cav in MintCaveats(s, now)
    ensures cav == ServicesCaveat(s.name, s.tier) || cav == CapabilitiesCaveat(s.name, s.capabilities)
         || cav == ValidUntilCaveat(s.name, now + s.tokenTTL)
  {
    var a, b, d := ServiceCaveats(s), CapabilityCaveats(s), UntilCaveats(s, now);
    assert cav in a || cav in b || cav in d;
  }

  lemma ServicesCondition(s: Service)
    ensures Condition(ServicesCaveat(s.name, s.tier)) == SERVICES
  {
    assert '=' !in SERVICES by { ServiceConditions(s.name); }
    SingleCaveat(SERVICES, ServiceValue(s), SERVICES);
  }

  lemma MintedCaveat(s: Service, now: int, cav: Bytes)
    requires '=' in s.name && cav in MintCaveats(s, now)
    ensures Condition(cav) == SERVICES || '=' in Value(cav)
  {
    MintMembers(s, now, cav);
    if cav == ServicesCaveat(s.name, s.tier) {
      ServicesCondition(s);
    } else if cav == CapabilitiesCaveat(s.name, s.capabilities) {
      BrokenCaveat(s.name, CAPABILITIES, Join(s.capabilities, ','));
    } else {
      BrokenCaveat(s.name, VALID_UNTIL, FormatInt(ValidUntilOf(s, now)));
    }
  }

  lemma TimelessGroup(s: Service, now: int, cond: Bytes, t: int)
    requires '=' in s.name && KindOf(cond, s.name) == ValidUntil && Values(MintCaveats(s, now), cond) != []
    ensures UntilError(cond, Map(Stamp, Values(MintCaveats(s, now), cond)), t).Some?
  {
    var vals := Values(MintCaveats(s, now), cond);
    ValuesComeFrom(MintCaveats(s, now), cond, 0);
    var cav :| cav in MintCaveats(s, now) && Condition(cav) == cond && Value(cav) == vals[0];
    MintedCaveat(s, now, cav);
    NotATimestamp(vals[0]);
    UntilUnparsable(None, Map(Stamp, vals), 0);
  }

  lemma ServicesTimeless(cond: Bytes, vals: seq<Bytes>, s: Service, t: int, t': int)
    ensures KindError(Kind.Services, cond, vals, Asked(s, t)) == KindError(Kind.Services, cond, vals, Asked(s, t'))
  {
  }

  lemma CapabilitiesTimeless(mine: bool, cond: Bytes, vals: seq<Bytes>, s: Service, t: int, t': int)
    ensures KindError(Capabilities(mine), cond, vals, Asked(s, t)) ==
            KindError(Capabilities(mine), cond, vals, Asked(s, t'))
  {
  }

  lemma KindTimeless(kind: Kind, cond: Bytes, vals: seq<Bytes>, s: Service, t: int, t': int)
    requires kind != ValidUntil
    ensures KindError(kind, cond, vals, Asked(s, t)) == KindError(kind, cond, vals, Asked(s, t'))
  {
    match kind {
      case Services => ServicesTimeless(cond, vals, s, t, t');
      case Capabilities(mine) => CapabilitiesTimeless(mine, cond, vals, s, t, t');
      case Unknown =>
    }
  }

  lemma GroupTimeless(s: Service, now: int, cond: Bytes, t: int, t': int)
    requires '=' in s.name && GroupError(cond, Values(MintCaveats(s, now), cond), Asked(s, t)).None?
    ensures GroupError(cond, Values(MintCaveats(s, now), cond), Asked(s, t')).None?
  {
    var vals, kind := Values(MintCaveats(s, now), cond), KindOf(cond, s.name);
    if kind != ValidUntil {
      KindTimeless(kind, cond, vals, s, t, t');
    } else if vals != [] {
      TimelessGroup(s, now, cond, t);
    }
  }

  /** With '=' in the name, time plays no part: the credential is always accepted or never. */
  lemma NeverExpires(s: Service, now: int, t: int, t': int)
    requires '=' in s.name && CaveatsError(MintCaveats(s, now), Asked(s, t)).None?
    ensures CaveatsError(MintCaveats(s, now), Asked(s, t')).None?
  {
    var cavs := MintCaveats(s, now);
    AcceptedExactlyWhen(cavs, Asked(s, t));
    AcceptedExactlyWhen(cavs, Asked(s, t'));
    forall cond ensures GroupError(cond, Values(cavs, cond), Asked(s, t')).None? {
      GroupTimeless(s, now, cond, t, t');
    }
  }

  /** The condition under which a caveat about a name with '=' is read. */
  function Head(name: Bytes): Bytes { name[..Find(name, '=')] }

  lemma BrokenCondition(name: Bytes, suffix: Bytes, val: Bytes)
    requires '=' in name
    ensures Condition(CaveatText(name + suffix, val)) == Head(name)
  {
    var cav, i := CaveatText(name + suffix, val), Find(name, '=');
    FindAbsent(name, '=');
    var head, tail := name[..i], name[i + 1..] + suffix;
    assert cav == head + ['='] + (tail + ['='] + val);
    FindSeparator(head, '=', tail + ['='] + val);
  }

  lemma OtherCondition(caveats: seq<Bytes>, cond: Bytes)
    requires forall cav <- caveats :: Condition(cav) != cond
    ensures Values(caveats, cond) == []
  {
    if Values(caveats, cond) != [] {
      ValuesComeFrom(caveats, cond, 0);
    }
  }

  lemma BrokenValues(s: Service, now: int, cond: Bytes)
    requires '=' in s.name && cond != Head(s.name)
    ensures Values(MintCaveats(s, now), cond) == if cond == SERVICES then [ServiceValue(s)] else []
  {
    ValuesThree(ServiceCaveats(s), CapabilityCaveats(s), UntilCaveats(s, now), cond);
    ServicesValues(s, cond);
    BrokenCapabilities(s, cond);
    BrokenUntil(s, now, cond);
  }

  lemma BrokenCapabilities(s: Service, cond: Bytes)
    requires '=' in s.name && cond != Head(s.name)
    ensures Values(CapabilityCaveats(s), cond) == []
  {
    BrokenCondition(s.name, CAPABILITIES, Join(s.capabilities, ','));
    OtherCondition(CapabilityCaveats(s), cond);
  }

  lemma BrokenUntil(s: Service, now: int, cond: Bytes)
    requires '=' in s.name && cond != Head(s.name)
    ensures Values(UntilCaveats(s, now), cond) == []
  {
    BrokenCondition(s.name, VALID_UNTIL, FormatInt(ValidUntilOf(s, now)));
    OtherCondition(UntilCaveats(s, now), cond);
  }

  lemma EternalGroup(s: Service, now: int, cond: Bytes, t: int)
    requires Listable(s.name) && '=' in s.name && KindOf(Head(s.name), s.name) == Unknown
    ensures GroupError(cond, Values(MintCaveats(s, now), cond), Asked(s, t)).None?
  {
    if cond != Head(s.name) {
      BrokenValues(s, now, cond);
      ServicesHold(s, t);
      assert KindOf(SERVICES, s.name) == Kind.Services;
    }
  }

  lemma BrokenWellFormed(s: Service, now: int)
    ensures WellFormed(MintCaveats(s, now))
  {
    forall cav | cav in MintCaveats(s, now) ensures '=' in cav {
      MintMembers(s, now, cav);
      HasEquals(SERVICES, ServiceValue(s));
      HasEquals(s.name + CAPABILITIES, Join(s.capabilities, ','));
      HasEquals(s.name + VALID_UNTIL, FormatInt(ValidUntilOf(s, now)));
    }
  }

  lemma HasEquals(cond: Bytes, val: Bytes)
    ensures '=' in CaveatText(cond, val)
  {
    assert CaveatText(cond, val)[|cond|] == '=';
  }

  /** Listable names whose part before the first '=' is no known condition give credentials that never expire. */
  lemma EternalCredential(s: Service, now: int, t: int)
    requires Listable(s.name) && '=' in s.name && KindOf(Head(s.name), s.name) == Unknown
    ensures CaveatsError(MintCaveats(s, now), Asked(s, t)).None?
  {
    var cavs := MintCaveats(s, now);
    AcceptedExactlyWhen(cavs, Asked(s, t));
    BrokenWellFormed(s, now);
    forall cond ensures GroupError(cond, Values(cavs, cond), Asked(s, t)).None? {
      EternalGroup(s, now, cond, t);
    }
    assert KindOf(SERVICES, s.name) != Unknown;
    BrokenValues(s, now, SERVICES);
  }

  /** One such name: issued at any time, its credential is accepted at every time. */
  lemma EternalName(now: int, t: int)
    ensures var s := Service("a=b", 0, [], 0);
            CaveatsError(MintCaveats(s, now), Asked(s, t)).None?
  {
    var s := Service("a=b", 0, [], 0);
    assert s.name[1] == '=' && s.name == "a" + ['='] + "b";
    FindSeparator("a", '=', "b");
    EternalCredential(s, now, t);
  }

  /** Minted caveats mean "until the expiry" exactly for service names the caveat grammar can carry. */
  lemma ExpiryExactlyWhen(s: Service, now: int)
    requires s.name != [] && InInt64(ValidUntilOf(s, now))
    ensures Grammatical(s.name) <==>
      (forall t :: CaveatsError(MintCaveats(s, now), Asked(s, t)).None? <==> t < Seconds(ValidUntilOf(s, now)))
  {
    var until := Seconds(ValidUntilOf(s, now));
    if Grammatical(s.name) {
      forall t ensures CaveatsError(MintCaveats(s, now), Asked(s, t)).None? <==> t < until {
        AcceptedUntil(s, now, t);
      }
    } else if !Listable(s.name) {
      UnlistableRejected(MintCaveats(s, now), Asked(s, until - 1));
    } else if CaveatsError(MintCaveats(s, now), Asked(s, until - 1)).None? {
      NeverExpires(s, now, until - 1, until);
    }
  }

  // --- delivery and acceptance ---

  datatype AuthError =
    | NoMacaroon | BadIdentifier(idError: IdentifierError) | UnknownOrRevoked | Refused(error: TokenError)

  /** The first macaroon of the stack, checked against the stored root keys; the result is the account. */
  function AuthorizeToken(c: Crypto, rootKeys: map<Hash32, Hash32>, s: Service, now: int,
                          macs: seq<Mac>, preimageHex: Bytes): Result<Bytes, AuthError> {
    if macs == [] then Err(NoMacaroon)
    else
      match DecodeIdentifier(macs[0].id)
      case Err(e) => Err(AuthError.BadIdentifier(e))
      case Ok(id) =>
        var key := StorageKey(c, id);
        if key !in rootKeys then Err(UnknownOrRevoked)
        else
          match VerifyToken(c, rootKeys[key], macs[0], preimageHex, Asked(s, now))
          case Some(e) => Err(Refused(e))
          case None => Ok(HexEncode(id.tokenId))
  }

  /**
   * The credential of a paid customer: its first macaroon's identifier has a stored root key that signed it, its
   * preimage is that of the identifier's payment hash, and its caveats hold for this service now.
   */
  predicate Admits(c: Crypto, rootKeys: map<Hash32, Hash32>, s: Service, now: int, macs: seq<Mac>, preimageHex: Bytes) {
    && macs != [] && DecodeIdentifier(macs[0].id).Ok?
    && var id := DecodeIdentifier(macs[0].id).value;
       && c.sha256(EncodeIdentifier(id)) in rootKeys
       && SignatureValid(c, rootKeys[c.sha256(EncodeIdentifier(id))], macs[0])
       && PreimageOf(c, preimageHex, id.paymentHash)
       && CaveatsError(macs[0].caveats, Options(s.name, [], now)).None?
  }

  lemma StackToken(c: Crypto, rootKeys: map<Hash32, Hash32>, s: Service, now: int, m: Mac, preimageHex: Bytes,
                   id: Identifier)
    requires DecodeIdentifier(m.id) == Ok(id) && StorageKey(c, id) in rootKeys
    ensures VerifyToken(c, rootKeys[StorageKey(c, id)], m, preimageHex, Options(s.name, [], now)).None? <==>
              && SignatureValid(c, rootKeys[StorageKey(c, id)], m) && PreimageOf(c, preimageHex, id.paymentHash)
              && CaveatsError(m.caveats, Options(s.name, [], now)).None?
  {
    TokenAccepted(c, rootKeys[StorageKey(c, id)], m, preimageHex, Options(s.name, [], now));
  }

  /** Authorization succeeds exactly for the credentials of paid customers, for the account of their identifier. */
  lemma AuthorizedExactly(c: Crypto, rootKeys: map<Hash32, Hash32>, s: Service, now: int, macs: seq<Mac>,
                          preimageHex: Bytes)
    ensures AuthorizeToken(c, rootKeys, s, now, macs, preimageHex).Ok? <==>
              Admits(c, rootKeys, s, now, macs, preimageHex)
    ensures AuthorizeToken(c, rootKeys, s, now, macs, preimageHex).Ok? ==>
              AuthorizeToken(c, rootKeys, s, now, macs, preimageHex).value
                == HexEncode(DecodeIdentifier(macs[0].id).value.tokenId)
  {
    if macs != [] && DecodeIdentifier(macs[0].id).Ok? {
      var id := DecodeIdentifier(macs[0].id).value;
      if StorageKey(c, id) in rootKeys {
        StackToken(c, rootKeys, s, now, macs[0], preimageHex, id);
      }
    }
  }

  /** The ledger account a stored challenge macaroon names: its hexadecimal token id. */
  function AccountFromMacaroon(macB64: Bytes): Option<Bytes> {
    match DecodeMac(macB64)
    case Err(_) => None
    case Ok(m) =>
      match DecodeIdentifier(m.id)
      case Err(_) => None
      case Ok(id) => Some(HexEncode(id.tokenId))
  }

  function TrimPrefix(s: Bytes, p: Bytes): Bytes { if HasPrefix(s, p) then s[|p|..] else s }

  function UntilIn(cav: Bytes, prefix: Bytes): Option<int> {
    if HasPrefix(cav, prefix) then ParseInt64(TrimPrefix(cav, prefix)) else None
  }

  /** The expiry in the last caveat that has one. */
  function LastUntil(caveats: seq<Bytes>, prefix: Bytes): int {
    if caveats == [] then 0
    else
      match UntilIn(caveats[|caveats| - 1], prefix)
      case Some(ts) => ts
      case None => LastUntil(caveats[..|caveats| - 1], prefix)
  }

  /** Without a caveat that reports an expiry it is zero. */
  lemma {:induction false} NoUntil(caveats: seq<Bytes>, prefix: Bytes)
    requires forall i :: 0 <= i < |caveats| ==> UntilIn(caveats[i], prefix).None?
    ensures LastUntil(caveats, prefix) == 0
  {
    if caveats != [] {
      NoUntil(caveats[..|caveats| - 1], prefix);
    }
  }

  /** The reported expiry is that of the last caveat that has one. */
  lemma {:induction false} UntilOfLast(caveats: seq<Bytes>, prefix: Bytes, i: nat)
    requires i < |caveats| && UntilIn(caveats[i], prefix).Some?
    requires forall j :: i < j < |caveats| ==> UntilIn(caveats[j], prefix).None?
    ensures LastUntil(caveats, prefix) == UntilIn(caveats[i], prefix).value
  {
    if i < |caveats| - 1 {
      UntilOfLast(caveats[..|caveats| - 1], prefix, i);
    }
  }

  method FindUntil(caveats: seq<Bytes>, prefix: Bytes) returns (validUntil: int)
    ensures validUntil == LastUntil(caveats, prefix)
  {
    validUntil := 0;
    for i := 0 to |caveats|
      invariant validUntil == LastUntil(caveats[..i], prefix)
    {
      assert caveats[..i + 1][..i] == caveats[..i];
      var ts := UntilIn(caveats[i], prefix);
      if ts.Some? {
        validUntil := ts.value;
      }
    }
    assert caveats[..|caveats|] == caveats;
  }

  datatype Delivered = Delivered(authorization: Bytes, validUntil: int)

  function DeliveredFor(macB64: Bytes, preimageHex: Bytes, service: Bytes): Option<Delivered> {
    match DecodeMac(macB64)
    case Err(_) => None
    case Ok(m) =>
      Some(Delivered(Authorization(macB64, preimageHex), LastUntil(m.caveats, CaveatText(service + VALID_UNTIL, []))))
  }

  method CredentialFor(macB64: Bytes, preimageHex: Bytes, service: Bytes) returns (r: Option<Delivered>)
    ensures r == DeliveredFor(macB64, preimageHex, service)
  {
    var m := DecodeMac(macB64);
    if m.Err? {
      return None;
    }
    var validUntil := FindUntil(m.value.caveats, CaveatText(service + VALID_UNTIL, []));
    r := Some(Delivered(Authorization(macB64, preimageHex), validUntil));
  }

  lemma PrefixIsCondition(cav: Bytes, cond: Bytes)
    requires '=' !in cond && '=' in cav
    ensures HasPrefix(cav, CaveatText(cond, [])) <==> Condition(cav) == cond
    ensures Condition(cav) == cond ==> TrimPrefix(cav, CaveatText(cond, [])) == Value(cav)
  {
    var i, p := Find(cav, '='), CaveatText(cond, []);
    FindAbsent(cav, '=');
    assert p == cond + ['='];
    if Condition(cav) == cond {
      assert cav[..|p|] == p;
    } else if HasPrefix(cav, p) {
      PrefixCondition(cav, cond);
    }
  }

  lemma PrefixCondition(cav: Bytes, cond: Bytes)
    requires '=' !in cond && HasPrefix(cav, cond + ['='])
    ensures Condition(cav) == cond
  {
    var p := cond + ['='];
    assert cav == cond + ['='] + cav[|p|..];
    FindSeparator(cond, '=', cav[|p|..]);
  }

  lemma {:induction false} LastUntilValue(caveats: seq<Bytes>, cond: Bytes, sec: int)
    requires '=' !in cond && WellFormed(caveats) && InInt64(sec)
    requires Values(caveats, cond) == [FormatInt(sec)]
    ensures LastUntil(caveats, CaveatText(cond, [])) == sec
  {
    var init, last := caveats[..|caveats| - 1], caveats[|caveats| - 1];
    PrefixIsCondition(last, cond);
    if Condition(last) == cond {
      assert Values(caveats, cond)[|Values(caveats, cond)| - 1] == Value(last);
      ParseFormat(sec);
    } else {
      assert Values(init, cond) == Values(caveats, cond);
      LastUntilValue(init, cond, sec);
    }
  }

  lemma DeliveredUntil(s: Service, now: int)
    requires '=' !in s.name && InInt64(ValidUntilOf(s, now))
    ensures LastUntil(MintCaveats(s, now), CaveatText(s.name + VALID_UNTIL, [])) == ValidUntilOf(s, now)
  {
    MintWellFormed(s, now);
    MintValues(s, now, s.name + VALID_UNTIL);
    ServiceConditions(s.name);
    LastUntilValue(MintCaveats(s, now), s.name + VALID_UNTIL, ValidUntilOf(s, now));
  }

  /** The text is the preimage of the hash, in hexadecimal. */
  predicate PreimageOf(c: Crypto, preimageHex: Bytes, hash: Hash32) {
    var preimage := HexDecode(preimageHex);
    preimage.Some? && |preimage.value| == 32 && c.sha256(preimage.value) == hash
  }

  lemma MintedToken(c: Crypto, rootKey: Hash32, s: Service, id: Identifier, now: int, preimageHex: Bytes, t: int)
    requires id.version == IDENTIFIER_VERSION && PreimageOf(c, preimageHex, id.paymentHash)
    ensures VerifyToken(c, rootKey, MintCredential(c, rootKey, s, id, now), preimageHex, Asked(s, t)).None?
       <==> CaveatsError(MintCaveats(s, now), Asked(s, t)).None?
  {
    IdentifierRoundTrip(id, []);
  }

  /** While its root key is stored, a minted token is accepted exactly before its expiry, for its own account. */
  lemma MintedAuthorizes(c: Crypto, rootKeys: map<Hash32, Hash32>, s: Service, id: Identifier, now: int,
                         preimageHex: Bytes, t: int)
    requires Grammatical(s.name) && InInt64(ValidUntilOf(s, now))
    requires id.version == IDENTIFIER_VERSION && PreimageOf(c, preimageHex, id.paymentHash)
    requires StorageKey(c, id) in rootKeys
    ensures var m := MintCredential(c, rootKeys[StorageKey(c, id)], s, id, now);
            var r := AuthorizeToken(c, rootKeys, s, t, [m], preimageHex);
            (r.Ok? <==> t < Seconds(ValidUntilOf(s, now))) && (r.Ok? ==> r.value == HexEncode(id.tokenId))
  {
    IdentifierRoundTrip(id, []);
    MintedToken(c, rootKeys[StorageKey(c, id)], s, id, now, preimageHex, t);
    AcceptedUntil(s, now, t);
  }

  /** The delivered text parses back to the minted token and reports its expiry and account. */
  lemma DeliveryParses(c: Crypto, rootKey: Hash32, s: Service, id: Identifier, now: int, preimageHex: Bytes)
    requires '=' !in s.name && InInt64(ValidUntilOf(s, now))
    requires id.version == IDENTIFIER_VERSION && PreimageOf(c, preimageHex, id.paymentHash)
    requires MintCredential(c, rootKey, s, id, now).Sized()
    ensures var m := MintCredential(c, rootKey, s, id, now);
            var d := DeliveredFor(MacB64(m), preimageHex, s.name);
            d.Some? && d.value.validUntil == ValidUntilOf(s, now)
            && Authorized(d.value.authorization) == Credential([m], preimageHex)
    ensures AccountFromMacaroon(MacB64(MintCredential(c, rootKey, s, id, now))) == Some(HexEncode(id.tokenId))
  {
    var m := MintCredential(c, rootKey, s, id, now);
    DecodeMacRoundTrip(m);
    IdentifierRoundTrip(id, []);
    DeliveredUntil(s, now);
    AuthorizedDecodes(MacB64(m), m, preimageHex);
  }
}
