/** The Bison Relay approval channel: replies, cumulative acks and replay (agent/approve/bisonrelay/bisonrelay.go). */
module BisonRelay {
  import opened Base
  import opened Text
  import opened Encodings
  import opened Approvals

  // --- replies ---

  const FREEZE: Bytes := "freeze"
  const BLOCK: Bytes := "block"

  predicate IsHalt(f: Bytes) { f == FREEZE || f == BLOCK }

  predicate IsResume(f: Bytes) { f == "unfreeze" || f == "resume" || f == "unblock" }

  function ParseVerdict(f: Bytes): Option<bool> {
    if f == "yes" || f == "y" || f == "approve" || f == "approved" || f == "ok" then Some(true)
    else if f == "no" || f == "n" || f == "deny" || f == "denied" then Some(false)
    else None
  }

  /** A reply does nothing, resumes spending, or names approvals under a verdict and may halt spending. */
  datatype Reply = Ignored | Resumes | Names(fields: seq<Bytes>, verdict: bool, halts: bool)

  function ParseReply(text: Bytes): Reply {
    var fields := Fields(ToLower(TrimSpace(text)));
    if fields == [] then Ignored
    else if IsHalt(fields[0]) then Names(fields[1..], false, true)
    else if IsResume(fields[0]) then Resumes
    else if |fields| < 2 || ParseVerdict(fields[0]).None? then Ignored
    else
      var halts := exists f <- fields[1..] :: IsHalt(f);
      Names(fields[1..], ParseVerdict(fields[0]).value && !halts, halts)
  }

  /** The words that can be approval ids. */
  function Ids(fields: seq<Bytes>): seq<Id> {
    if fields == [] then []
    else (if fields[0] == [] || IsHalt(fields[0]) then [] else [fields[0]]) + Ids(fields[1..])
  }

  lemma IdsHead(first: Bytes, rest: seq<Bytes>, x: Bytes)
    ensures x in Ids([first] + rest) <==>
              (x == first && x != [] && x != "freeze" && x != "block") || x in Ids(rest)
  {
    assert ([first] + rest)[1..] == rest;
  }

  /** Exactly the words that are neither empty nor halting count as ids. */
  lemma {:induction false} IdsExactly(fields: seq<Bytes>, x: Bytes)
    ensures x in Ids(fields) <==> x in fields && x != [] && x != "freeze" && x != "block"
  {
    if fields != [] {
      IdsExactly(fields[1..], x);
      assert fields == [fields[0]] + fields[1..];
      IdsHead(fields[0], fields[1..], x);
    }
  }

  lemma {:induction false} IdsAppend(a: seq<Bytes>, b: seq<Bytes>)
    ensures Ids(a + b) == Ids(a) + Ids(b)
  {
    if a == [] {
      assert a + b == b;
    } else {
      assert (a + b)[1..] == a[1..] + b && (a + b)[0] == a[0];
      IdsAppend(a[1..], b);
    }
  }

  /** The store flips the approval and the registry starts its continuation. */
  function Resolved(ap: State, id: Id, verdict: bool, at: int): State {
    Apply(Apply(ap, Decide(id, verdict, at, false)), Collect(Pickup(id, verdict)))
  }

  /** Names are tried in order until one is won. */
  function ResolveFirst(ap: State, ids: seq<Id>, verdict: bool, at: int): State
    decreases ids
  {
    if ids == [] then ap
    else if Resolvable(ap, ids[0], at) then Resolved(ap, ids[0], verdict, at)
    else ResolveFirst(ap, ids[1..], verdict, at)
  }

  /** The approvals a reply names, in order. */
  function Named(reply: Reply): seq<Id> { if reply.Names? then Ids(reply.fields) else [] }

  /** What a handled reply does to the approvals. */
  function Replied(ap: State, reply: Reply, at: int): State {
    if reply.Names? then ResolveFirst(ap, Ids(reply.fields), reply.verdict, at) else ap
  }

  /** What a handled reply does to the kill switch. */
  function Halted(frozen: bool, reply: Reply): bool {
    match reply
    case Ignored => frozen
    case Resumes => false
    case Names(_, _, halts) => frozen || halts
  }

  predicate Halts(reply: Reply) { reply.Names? && reply.halts }

  // --- replay ---

  /** What later steps can do to approvals: they stay, keep their expiry, and a verdict is final. */
  ghost predicate Evolves(a: State, b: State) {
    forall id <- a.approvals ::
      && id in b.approvals && b.approvals[id].expiresAt == a.approvals[id].expiresAt
      && (a.approvals[id].status != Pending ==> b.approvals[id].status == a.approvals[id].status)
  }

  lemma StepEvolves(ap: State, step: Step)
    requires Enabled(ap, step)
    ensures Evolves(ap, Apply(ap, step))
  {
  }

  lemma EvolvesTwice(a: State, b: State, c: State)
    requires Evolves(a, b) && Evolves(b, c)
    ensures Evolves(a, c)
  {
  }

  /** Whatever resolvers, sweeps, escalations and restarts do next. */
  function Onward(ap: State, steps: seq<Step>): State
    decreases steps
  {
    if steps == [] then ap else Onward(Apply(ap, steps[0]), steps[1..])
  }

  predicate CanGoOn(ap: State, steps: seq<Step>)
    decreases steps
  {
    steps == [] || (Enabled(ap, steps[0]) && CanGoOn(Apply(ap, steps[0]), steps[1..]))
  }

  lemma {:induction false} OnwardEvolves(ap: State, steps: seq<Step>)
    requires CanGoOn(ap, steps)
    ensures Evolves(ap, Onward(ap, steps))
    decreases steps
  {
    if steps != [] {
      StepEvolves(ap, steps[0]);
      OnwardEvolves(Apply(ap, steps[0]), steps[1..]);
      EvolvesTwice(ap, Apply(ap, steps[0]), Onward(ap, steps));
    }
  }

  /** The position of the first name that could be won, or the number of names. */
  function Winner(ap: State, ids: seq<Id>, at: int): (k: nat)
    ensures k <= |ids| && (k < |ids| ==> Resolvable(ap, ids[k], at))
    ensures forall j :: 0 <= j < k ==> !Resolvable(ap, ids[j], at)
  {
    if ids == [] || Resolvable(ap, ids[0], at) then 0 else 1 + Winner(ap, ids[1..], at)
  }

  lemma {:induction false} FirstIsWinner(ap: State, ids: seq<Id>, verdict: bool, at: int)
    ensures var k := Winner(ap, ids, at);
            ResolveFirst(ap, ids, verdict, at) == if k == |ids| then ap else Resolved(ap, ids[k], verdict, at)
    decreases ids
  {
    if ids != [] && !Resolvable(ap, ids[0], at) {
      FirstIsWinner(ap, ids[1..], verdict, at);
    }
  }

  lemma ResolvedIs(ap: State, id: Id, verdict: bool, at: int)
    requires Resolvable(ap, id, at)
    ensures Resolved(ap, id, verdict, at).approvals ==
              ap.approvals[id := ap.approvals[id].(status := if verdict then Approved else Denied)]
  {
  }

  /** An approval named up to the winner cannot be won again. */
  lemma SpentNames(ap: State, ids: seq<Id>, verdict: bool, at: int, later: State, again: int, j: nat)
    requires Evolves(ResolveFirst(ap, ids, verdict, at), later) && at <= again
    requires j < |ids| && j <= Winner(ap, ids, at) && ids[j] in ap.approvals
    ensures !Resolvable(later, ids[j], again)
  {
    var k := Winner(ap, ids, at);
    FirstIsWinner(ap, ids, verdict, at);
    if k < |ids| {
      ResolvedIs(ap, ids[k], verdict, at);
    }
  }

  lemma NothingWon(ap: State, ids: seq<Id>, verdict: bool, at: int)
    ensures ResolveFirst(ap, ids, verdict, at) == ap <==> forall j :: 0 <= j < |ids| ==> !Resolvable(ap, ids[j], at)
  {
    var k := Winner(ap, ids, at);
    FirstIsWinner(ap, ids, verdict, at);
    if k < |ids| {
      ResolvedIs(ap, ids[k], verdict, at);
    }
  }

  /**
   * Delivering a handled reply again, at any later point, changes no approval exactly when no name is live that came
   * after its winner or that named no approval the first time.
   */
  lemma ReplayExactly(ap: State, reply: Reply, at: int, later: State, again: int)
    requires Evolves(Replied(ap, reply, at), later) && at <= again
    ensures var ids := Named(reply);
            Replied(later, reply, again) == later <==>
              forall j :: 0 <= j < |ids| && (Winner(ap, ids, at) < j || ids[j] !in ap.approvals)
                          ==> !Resolvable(later, ids[j], again)
  {
    if reply.Names? {
      var ids := Ids(reply.fields);
      NothingWon(later, ids, reply.verdict, again);
      forall j | 0 <= j < |ids| && j <= Winner(ap, ids, at) && ids[j] in ap.approvals
        ensures !Resolvable(later, ids[j], again)
      {
        SpentNames(ap, ids, reply.verdict, at, later, again, j);
      }
    }
  }

  /** Of the words in the reply, at most this one ever names an approval. */
  ghost predicate NamesOnly(reply: Reply, id: Id, ap: State, later: State) {
    forall x <- Named(reply) ::
      (x in ap.approvals ==> x == id) && (x !in ap.approvals ==> x !in later.approvals)
  }

  lemma OneNameSpent(ap: State, ids: seq<Id>, verdict: bool, at: int, later: State, again: int, j: nat)
    requires Evolves(ResolveFirst(ap, ids, verdict, at), later) && at <= again && j < |ids|
    requires forall x <- ids :: x in ap.approvals ==> x == ids[j]
    requires ids[j] in ap.approvals
    ensures !Resolvable(later, ids[j], again)
  {
    var k := Winner(ap, ids, at);
    if k < |ids| {
      assert ids[k] in ids && ids[k] == ids[j];
      SpentNames(ap, ids, verdict, at, later, again, k);
    } else {
      SpentNames(ap, ids, verdict, at, later, again, j);
    }
  }

  /**
   * A reply text that names one approval, among any words that name none, changes no approval when it is delivered
   * again, whatever happened in between.
   */
  lemma SingleNameReplays(ap: State, text: Bytes, id: Id, at: int, steps: seq<Step>, again: int)
    requires var once := Replied(ap, ParseReply(text), at);
             CanGoOn(once, steps) && at <= again && NamesOnly(ParseReply(text), id, ap, Onward(once, steps))
    ensures var later := Onward(Replied(ap, ParseReply(text), at), steps);
            Replied(later, ParseReply(text), again) == later
  {
    var reply := ParseReply(text);
    var once, ids := Replied(ap, reply, at), Named(reply);
    var later := Onward(once, steps);
    OnwardEvolves(once, steps);
    ReplayExactly(ap, reply, at, later, again);
    forall j | 0 <= j < |ids| ensures !Resolvable(later, ids[j], again) {
      assert ids[j] in ids;
      if ids[j] in ap.approvals {
        OneNameSpent(ap, ids, reply.verdict, at, later, again, j);
      }
    }
  }

  /** Of two live approvals named together, the first delivery decides one and the second delivery the other. */
  lemma TwoNamesDecided(ap: State, a: Id, b: Id, verdict: bool, at: int)
    requires a != b && Resolvable(ap, a, at) && Resolvable(ap, b, at)
    ensures var status := if verdict then Approved else Denied;
            var once := ResolveFirst(ap, [a, b], verdict, at);
            var twice := ResolveFirst(once, [a, b], verdict, at);
            && once.approvals == ap.approvals[a := ap.approvals[a].(status := status)]
            && twice.approvals == once.approvals[b := ap.approvals[b].(status := status)]
  {
    var ids := [a, b];
    var once := ResolveFirst(ap, ids, verdict, at);
    ResolvedIs(ap, a, verdict, at);
    assert once == Resolved(ap, a, verdict, at) && !Resolvable(once, a, at) && Resolvable(once, b, at);
    assert ids[1..] == [b];
    assert ResolveFirst(once, [b], verdict, at) == Resolved(once, b, verdict, at);
    ResolvedIs(once, b, verdict, at);
  }

  /** Approval ids as the registry draws them: eight random octets in lower-case hexadecimal. */
  function IdOf(raw: Bytes): Id { HexEncode(raw) }

  lemma {:induction false} IdOctets(raw: Bytes)
    ensures forall c <- IdOf(raw) :: Lower(c) == c && !IsSpace(c)
  {
    if raw != [] {
      IdOctets(raw[1..]);
    }
  }

  /** Two escalations, both waiting for the owner until the given time. */
  function TwoEscalations(a: Id, b: Id, until: int): seq<Step> {
    [Create(a, 0, until), Park(a), Create(b, 1, until), Park(b)]
  }

  lemma TwoWaiting(a: Id, b: Id, until: int)
    requires a != b
    ensures IsRun(TwoEscalations(a, b, until))
    ensures var ap := After(TwoEscalations(a, b, until)); Resolvable(ap, a, until) && Resolvable(ap, b, until)
  {
    var none: seq<Step> := [];
    RunAdd(none, Create(a, 0, until));
    RunAdd(none + [Create(a, 0, until)], Park(a));
    RunAdd(none + [Create(a, 0, until)] + [Park(a)], Create(b, 1, until));
    RunAdd(none + [Create(a, 0, until)] + [Park(a)] + [Create(b, 1, until)], Park(b));
    assert TwoEscalations(a, b, until) ==
           none + [Create(a, 0, until)] + [Park(a)] + [Create(b, 1, until)] + [Park(b)];
  }

  const YES: Bytes := "yes"

  /** The owner's yes to both. */
  function YesBoth(a: Id, b: Id): Bytes { YES + " " + (a + " " + b) }

  lemma PlainText(text: Bytes)
    requires text != [] && !IsSpace(text[0]) && !IsSpace(text[|text| - 1])
    requires forall i :: 0 <= i < |text| ==> Lower(text[i]) == text[i]
    ensures ToLower(TrimSpace(text)) == text
  {
    assert TrimSpace(text) == text;
  }

  lemma FieldsThree(text: Bytes, a: Bytes, b: Bytes, c: Bytes)
    requires a != [] && b != [] && c != [] && NoSpace(a) && NoSpace(b) && NoSpace(c)
    requires text == a + " " + (b + " " + c)
    ensures Fields(text) == [a, b, c]
  {
    var rest: Bytes := b + " " + c;
    FieldsBeforeSpace(a, rest, text);
    var tail: Bytes := " " + rest;
    FieldsSkip(tail);
    assert tail[1..] == rest;
    FieldsTwo(b, c);
  }

  lemma ReadYes(text: Bytes, a: Bytes, b: Bytes)
    requires Fields(ToLower(TrimSpace(text))) == [YES, a, b] && !IsHalt(a) && !IsHalt(b)
    ensures ParseReply(text) == Names([a, b], true, false)
  {
    var fields: seq<Bytes> := [YES, a, b];
    assert fields[1..] == [a, b];
  }

  lemma YesBothPlain(a: Id, b: Id)
    requires b != [] && (forall c <- a :: Lower(c) == c) && forall c <- b :: Lower(c) == c && !IsSpace(c)
    ensures ToLower(TrimSpace(YesBoth(a, b))) == YesBoth(a, b)
  {
    var text := YesBoth(a, b);
    assert text[0] == 'y' && text[|text| - 1] == b[|b| - 1];
    forall i | 0 <= i < |text| ensures Lower(text[i]) == text[i] {
      assert text[i] in YES || text[i] == ' ' || text[i] in a || text[i] in b;
    }
    PlainText(text);
  }

  lemma ReadYesBoth(x: Bytes, y: Bytes)
    requires |x| == |y| == 8
    ensures ParseReply(YesBoth(IdOf(x), IdOf(y))) == Names([IdOf(x), IdOf(y)], true, false)
  {
    IdOctets(x);
    IdOctets(y);
    YesBothPlain(IdOf(x), IdOf(y));
    FieldsThree(YesBoth(IdOf(x), IdOf(y)), YES, IdOf(x), IdOf(y));
    NotHalt(IdOf(x));
    NotHalt(IdOf(y));
    ReadYes(YesBoth(IdOf(x), IdOf(y)), IdOf(x), IdOf(y));
  }

  lemma NotHalt(id: Id)
    requires |id| == 16
    ensures !IsHalt(id)
  {
    assert |FREEZE| == 6 && |BLOCK| == 5;
  }

  lemma IdsTwo(a: Bytes, b: Bytes)
    requires a != [] && b != [] && !IsHalt(a) && !IsHalt(b)
    ensures Ids([a, b]) == [a, b]
  {
    var both, last := [a, b], [b];
    assert both[1..] == last && last[1..] == [];
    IdsStep(both);
    IdsStep(last);
  }

  lemma RepliesToBoth(ap: State, x: Bytes, y: Bytes, at: int)
    requires |x| == |y| == 8
    ensures Replied(ap, ParseReply(YesBoth(IdOf(x), IdOf(y))), at) == ResolveFirst(ap, [IdOf(x), IdOf(y)], true, at)
  {
    ReadYesBoth(x, y);
    NotHalt(IdOf(x));
    NotHalt(IdOf(y));
    IdsTwo(IdOf(x), IdOf(y));
  }

  /** For any two ids, from a reachable state, one reply text: delivered twice it approves the second approval too. */
  lemma TwoNamesReplay(x: Bytes, y: Bytes, until: int)
    requires |x| == |y| == 8 && x != y
    ensures IsRun(TwoEscalations(IdOf(x), IdOf(y), until))
    ensures var reply := ParseReply(YesBoth(IdOf(x), IdOf(y)));
            var once := Replied(After(TwoEscalations(IdOf(x), IdOf(y), until)), reply, until);
            var twice := Replied(once, reply, until);
            && IdOf(y) in once.approvals && once.approvals[IdOf(y)].status == Pending
            && IdOf(y) in twice.approvals && twice.approvals[IdOf(y)].status == Approved
  {
    var a, b := IdOf(x), IdOf(y);
    assert a != b by {
      if a == b {
        HexInjective(x, y);
      }
    }
    TwoWaiting(a, b, until);
    var ap := After(TwoEscalations(a, b, until));
    RepliesToBoth(ap, x, y, until);
    RepliesToBoth(ResolveFirst(ap, [a, b], true, until), x, y, until);
    TwoNamesDecided(ap, a, b, true, until);
  }

  // --- what the words mean ---

  predicate Yes(f: Bytes) { f == "yes" || f == "y" || f == "approve" || f == "approved" || f == "ok" }

  predicate No(f: Bytes) { f == "no" || f == "n" || f == "deny" || f == "denied" }

  lemma VerdictWords(f: Bytes)
    requires Yes(f) || No(f)
    ensures ParseVerdict(f) == Some(Yes(f)) && !IsHalt(f) && !IsResume(f)
    ensures f != [] && NoSpace(f) && forall c <- f :: Lower(c) == c
    ensures |f| <= 8
  {
  }

  lemma ReadNamed(text: Bytes, word: Bytes, id: Id)
    requires Fields(ToLower(TrimSpace(text))) == [word, id] && (Yes(word) || No(word)) && |id| == 16
    ensures ParseReply(text) == Names([id], Yes(word), false)
  {
    var fields: seq<Bytes> := [word, id];
    assert fields[1..] == [id];
    VerdictWords(word);
    NotHalt(id);
  }

  lemma WordThenId(word: Bytes, id: Id)
    requires (Yes(word) || No(word)) && id != [] && forall c <- id :: Lower(c) == c && !IsSpace(c)
    ensures Fields(ToLower(TrimSpace(word + " " + id))) == [word, id]
  {
    VerdictWords(word);
    var text := word + " " + id;
    assert word[0] in word && id[|id| - 1] in id && text[0] == word[0] && text[|text| - 1] == id[|id| - 1];
    forall i | 0 <= i < |text| ensures Lower(text[i]) == text[i] {
      assert text[i] in word || text[i] == ' ' || text[i] in id;
    }
    PlainText(text);
    FieldsTwo(word, id);
  }

  lemma IdsOne(id: Id)
    requires |id| == 16
    ensures Ids([id]) == [id]
  {
    NotHalt(id);
    var one: seq<Bytes> := [id];
    assert one[1..] == [];
    IdsStep(one);
  }

  /** A verdict word and the id of a live approval give it that verdict, and nothing else changes. */
  lemma VerdictDecides(ap: State, raw: Bytes, word: Bytes, at: int)
    requires |raw| == 8 && Resolvable(ap, IdOf(raw), at)
    ensures var id := IdOf(raw);
            var after := Replied(ap, ParseReply(word + " " + id), at).approvals;
            && (word == "no" || word == "n" || word == "deny" || word == "denied" ==>
                 after == ap.approvals[id := ap.approvals[id].(status := Denied)])
            && (word == "yes" || word == "y" || word == "approve" || word == "approved" || word == "ok" ==>
                 after == ap.approvals[id := ap.approvals[id].(status := Approved)])
  {
    var id := IdOf(raw);
    if Yes(word) || No(word) {
      IdOctets(raw);
      WordThenId(word, id);
      ReadNamed(word + " " + id, word, id);
      IdsOne(id);
      assert ResolveFirst(ap, [id], Yes(word), at) == Resolved(ap, id, Yes(word), at);
      ResolvedIs(ap, id, Yes(word), at);
    }
  }

  /** The words of a reply. */
  function Words(text: Bytes): seq<Bytes> { Fields(ToLower(TrimSpace(text))) }

  lemma DenialApprovesNone(ap: State, ids: seq<Id>, at: int, id: Id)
    requires var after := ResolveFirst(ap, ids, false, at).approvals; id in after && after[id].status == Approved
    ensures id in ap.approvals && ap.approvals[id].status == Approved
  {
    var k := Winner(ap, ids, at);
    FirstIsWinner(ap, ids, false, at);
    if k < |ids| {
      ResolvedIs(ap, ids[k], false, at);
    }
  }

  lemma HaltingReply(text: Bytes)
    requires Words(text) != [] && exists f <- Words(text) :: f == "freeze" || f == "block"
    requires !IsResume(Words(text)[0]) && (IsHalt(Words(text)[0]) || ParseVerdict(Words(text)[0]).Some?)
    ensures Halts(ParseReply(text)) && !ParseReply(text).verdict
  {
    var fields := Words(text);
    var f :| f in fields && (f == "freeze" || f == "block");
    assert fields == [fields[0]] + fields[1..];
    if !IsHalt(fields[0]) {
      assert f in fields[1..] && IsHalt(f);
    }
  }

  /** A freeze or block, first or after a verdict, halts all spending and leaves nothing approved that was not. */
  lemma HaltOverrides(ap: State, frozen: bool, text: Bytes, at: int)
    requires Words(text) != [] && exists f <- Words(text) :: f == "freeze" || f == "block"
    requires var first := Words(text)[0]; first == "freeze" || first == "block" || Yes(first) || No(first)
    ensures Halted(frozen, ParseReply(text))
    ensures forall id <- Replied(ap, ParseReply(text), at).approvals ::
              Replied(ap, ParseReply(text), at).approvals[id].status == Approved ==>
                id in ap.approvals && ap.approvals[id].status == Approved
  {
    var first, reply := Words(text)[0], ParseReply(text);
    if Yes(first) || No(first) {
      VerdictWords(first);
    } else {
      HaltWord(first);
    }
    HaltingReply(text);
    forall id | id in Replied(ap, reply, at).approvals && Replied(ap, reply, at).approvals[id].status == Approved
      ensures id in ap.approvals && ap.approvals[id].status == Approved
    {
      DenialApprovesNone(ap, Ids(reply.fields), at, id);
    }
  }

  lemma HaltWord(f: Bytes)
    requires f == "freeze" || f == "block"
    ensures IsHalt(f) && !IsResume(f)
  {
    assert |FREEZE| == 6 && |BLOCK| == 5;
  }

  /** A resuming word lifts the freeze and decides nothing; any other word that is no verdict or halt does nothing. */
  lemma OtherFirstWords(ap: State, frozen: bool, text: Bytes, at: int)
    ensures var words, reply := Words(text), ParseReply(text);
            && (words != [] && (words[0] == "unfreeze" || words[0] == "resume" || words[0] == "unblock") ==>
                 Replied(ap, reply, at) == ap && !Halted(frozen, reply))
            && (words == [] || !(Yes(words[0]) || No(words[0]) || words[0] == "freeze" || words[0] == "block"
                                 || words[0] == "unfreeze" || words[0] == "resume" || words[0] == "unblock") ==>
                 Replied(ap, reply, at) == ap && Halted(frozen, reply) == frozen)
  {
    var words := Words(text);
    if words != [] && (words[0] == "unfreeze" || words[0] == "resume" || words[0] == "unblock") {
      ResumingWord(words[0]);
    }
  }

  lemma ResumingWord(f: Bytes)
    requires f == "unfreeze" || f == "resume" || f == "unblock"
    ensures IsResume(f) && !IsHalt(f)
  {
    assert |FREEZE| == 6 && |BLOCK| == 5;
    assert f == "resume" ==> f[0] != FREEZE[0];
  }

  /** A verdict with no halting word leaves the switch alone, and with no word after it does nothing at all. */
  lemma PlainVerdict(ap: State, frozen: bool, text: Bytes, at: int)
    requires Words(text) != [] && (Yes(Words(text)[0]) || No(Words(text)[0]))
    requires forall f <- Words(text) :: f != "freeze" && f != "block"
    ensures Halted(frozen, ParseReply(text)) == frozen
    ensures |Words(text)| == 1 ==> Replied(ap, ParseReply(text), at) == ap
  {
    var words := Words(text);
    VerdictWords(words[0]);
    assert words == [words[0]] + words[1..];
    assert forall f <- words[1..] :: f in words && !IsHalt(f);
  }

  // --- replay and the kill switch ---

  /** Freezes (true) and unfreezes (false) from any channel, one after the other. */
  function Switched(frozen: bool, changes: seq<bool>): bool {
    if changes == [] then frozen else changes[|changes| - 1]
  }

  /** Delivering a handled reply again leaves the switch as it is then exactly when it would set it to that. */
  lemma HaltsAgainExactly(frozen: bool, reply: Reply)
    ensures Halted(frozen, reply) == frozen <==> (Halts(reply) ==> frozen) && (reply.Resumes? ==> !frozen)
  {
  }

  /**
   * A reply text that was handled and is delivered again, after any freezes and unfreezes in between, leaves the
   * switch alone exactly when none of them was last to undo what the reply did.
   */
  lemma SwitchReplaysExactly(frozen: bool, text: Bytes, changes: seq<bool>)
    ensures var reply := ParseReply(text);
            var later := Switched(Halted(frozen, reply), changes);
            Halted(later, reply) == later <==>
              changes == [] || ((Halts(reply) ==> changes[|changes| - 1])
                                && (reply.Resumes? ==> !changes[|changes| - 1]))
  {
    HaltsAgainExactly(Switched(Halted(frozen, ParseReply(text)), changes), ParseReply(text));
  }

  /** Handling a reply a second time changes neither approvals nor the switch exactly when both conditions hold. */
  lemma ReplayIdempotentExactly(ap: State, frozen: bool, text: Bytes, at: int, steps: seq<Step>, changes: seq<bool>,
                                again: int)
    requires CanGoOn(Replied(ap, ParseReply(text), at), steps) && at <= again
    ensures var reply := ParseReply(text);
            var ids := Named(reply);
            var later, held := Onward(Replied(ap, reply, at), steps), Switched(Halted(frozen, reply), changes);
            (Replied(later, reply, again) == later && Halted(held, reply) == held) <==>
              && (forall j :: 0 <= j < |ids| && (Winner(ap, ids, at) < j || ids[j] !in ap.approvals)
                              ==> !Resolvable(later, ids[j], again))
              && (changes == [] || ((Halts(reply) ==> changes[|changes| - 1])
                                    && (reply.Resumes? ==> !changes[|changes| - 1])))
  {
    var once := Replied(ap, ParseReply(text), at);
    OnwardEvolves(once, steps);
    ReplayExactly(ap, ParseReply(text), at, Onward(once, steps), again);
    SwitchReplaysExactly(frozen, text, changes);
  }

  const UNFREEZE: Bytes := "unfreeze"

  lemma ReadWord(word: Bytes)
    requires word != [] && NoSpace(word) && forall i :: 0 <= i < |word| ==> Lower(word[i]) == word[i]
    ensures Fields(ToLower(TrimSpace(word))) == [word]
  {
    assert word[0] in word && word[|word| - 1] in word;
    PlainText(word);
    FieldsOne(word);
  }

  lemma OneWord(text: Bytes, word: Bytes)
    requires Fields(ToLower(TrimSpace(text))) == [word]
    ensures IsHalt(word) ==> ParseReply(text) == Names([], false, true)
    ensures !IsHalt(word) && IsResume(word) ==> ParseReply(text) == Resumes
  {
    var fields: seq<Bytes> := [word];
    assert fields[1..] == [];
  }

  lemma ReadFreeze()
    ensures ParseReply(FREEZE) == Names([], false, true)
  {
    ReadWord(FREEZE);
    OneWord(FREEZE, FREEZE);
  }

  lemma ReadUnfreeze()
    ensures ParseReply(UNFREEZE) == Resumes
  {
    ReadWord(UNFREEZE);
    ResumeWord();
    OneWord(UNFREEZE, UNFREEZE);
  }

  lemma ResumeWord()
    ensures IsResume(UNFREEZE) && !IsHalt(UNFREEZE)
  {
    assert |UNFREEZE| == 8 && |FREEZE| == 6 && |BLOCK| == 5;
  }

  /** Handled, then lifted by the owner on the dashboard: the same "freeze" delivered again halts all spending again. */
  lemma FreezeReplayed(frozen: bool)
    ensures var lifted := Switched(Halted(frozen, ParseReply(FREEZE)), [false]);
            !lifted && Halted(lifted, ParseReply(FREEZE))
  {
    ReadFreeze();
  }

  /** Handled, then frozen by the owner on the dashboard: the same "unfreeze" delivered again resumes spending. */
  lemma UnfreezeReplayed(frozen: bool)
    ensures var held := Switched(Halted(frozen, ParseReply(UNFREEZE)), [true]);
            held && !Halted(held, ParseReply(UNFREEZE))
  {
    ReadUnfreeze();
  }

  // --- the consumer ---

  /** A received message: its sequence number, whether the owner's user id signed it, and its text. */
  datatype Message = Message(number: nat, owner: bool, text: Bytes)

  /** Which of the actions of one handling fail: store writes, the ack call, the ack's persistence. */
  datatype Faults = Faults(freeze: bool, resolve: bool, ack: bool, persist: bool)

  const NONE := Faults(false, false, false, false)

  /** Messages are numbered in order, from 1. */
  ghost predicate Ordered(log: seq<Message>) {
    (forall i, j :: 0 <= i < j < |log| ==> log[i].number < log[j].number) && (log != [] ==> log[0].number > 0)
  }

  function LastNumber(log: seq<Message>): nat { if log == [] then 0 else log[|log| - 1].number }

  /** Every message up to the ack was handled to the end without error. */
  ghost predicate AckSafe(log: seq<Message>, handled: set<nat>, ack: nat) {
    ack <= LastNumber(log) && forall m <- log :: m.number <= ack ==> m.number in handled
  }

  /** A message that arrives later is numbered after all before it, and keeps every ack safe. */
  lemma NewMessage(log: seq<Message>, m: Message, handled: set<nat>, ack: nat)
    requires Ordered(log) && m.number > LastNumber(log) && AckSafe(log, handled, ack)
    ensures Ordered(log + [m]) && AckSafe(log + [m], handled, ack)
  {
    forall i | 0 <= i < |log| ensures log[i].number < m.number {
      assert i < |log| - 1 ==> log[i].number < log[|log| - 1].number;
    }
  }

  class Approver {
    var ap: State
    var frozen: bool
    var ackSeq: nat
    var persisted: nat
    ghost var handled: set<nat>

    /** Both the ack in memory and the persisted one are safe. */
    ghost predicate Valid(log: seq<Message>)
      reads this
    {
      AckSafe(log, handled, ackSeq) && persisted <= ackSeq
    }

    constructor (approvals: State)
      ensures ap == approvals && !frozen && ackSeq == 0 && persisted == 0 && handled == {}
    {
      ap, frozen, ackSeq, persisted, handled := approvals, false, 0, 0, {};
    }

    /** Stops at the first name that is won; a failing store write changes no approval. */
    method ResolveIDs(fields: seq<Bytes>, verdict: bool, at: int, fails: bool) returns (ok: bool)
      modifies this`ap
      ensures ok ==> ap == ResolveFirst(old(ap), Ids(fields), verdict, at)
      ensures !ok ==> ap == old(ap) && fails
      ensures !fails ==> ok
    {
      for i := 0 to |fields|
        invariant ap == old(ap)
        invariant ResolveFirst(ap, Ids(fields), verdict, at) == ResolveFirst(ap, Ids(fields[i..]), verdict, at)
      {
        assert fields[i..][0] == fields[i] && fields[i..][1..] == fields[i + 1..];
        IdsStep(fields[i..]);
        if fields[i] == [] || IsHalt(fields[i]) {
          assert Ids(fields[i..]) == Ids(fields[i + 1..]);
          continue;
        }
        FirstStep(ap, fields[i], Ids(fields[i + 1..]), verdict, at);
        if fails {
          return false;
        }
        if Resolvable(ap, fields[i], at) {
          ap := Resolved(ap, fields[i], verdict, at);
          return true;
        }
      }
      return true;
    }

    method HandleReply(text: Bytes, at: int, faults: Faults) returns (ok: bool)
      modifies this`ap, this`frozen
      ensures !faults.freeze && !faults.resolve ==> ok
      ensures ok ==>
        ap == Replied(old(ap), ParseReply(text), at) && frozen == Halted(old(frozen), ParseReply(text))
      ensures !ok ==>
        ap == old(ap) && (frozen == old(frozen) || frozen == Halted(old(frozen), ParseReply(text)))
    {
      match ParseReply(text) {
        case Ignored => ok := true;
        case Resumes =>
          if faults.freeze {
            return false;
          }
          frozen, ok := false, true;
        case Names(fields, verdict, halts) =>
          if halts {
            if faults.freeze {
              return false;
            }
            frozen := true;
          }
          ok := ResolveIDs(fields, verdict, at, faults.resolve);
      }
    }

    /** One message: handle it, ack it, remember the ack; a failure on the way leaves the ack where it was. */
    method Process(m: Message, at: int, faults: Faults, ghost log: seq<Message>, ghost n: nat) returns (go: bool)
      requires Valid(log) && Ordered(log) && n < |log| && log[n] == m && ackSeq <= m.number
      requires forall j :: 0 <= j < n ==> log[j].number <= ackSeq
      modifies this
      ensures Valid(log) && persisted >= old(persisted) && handled >= old(handled)
      ensures ackSeq == if go then m.number else old(ackSeq)
      ensures go ==> m.number in handled
      ensures !faults.freeze && !faults.resolve && !faults.ack ==> go
      ensures go && !faults.persist ==> persisted == m.number
    {
      if m.owner {
        var ok := HandleReply(m.text, at, faults);
        if !ok {
          return false;
        }
      }
      handled := handled + {m.number};
      if faults.ack {
        return false;
      }
      AckMoves(log, handled, ackSeq, n);
      ackSeq := m.number;
      if !faults.persist {
        persisted := m.number;
      }
      return true;
    }

    /**
     * One stream: the messages after the ack, in order, until the stream or one of the actions fails. The ack moves
     * past a message only after its handling finished without error.
     */
    method Consume(stream: seq<Message>, at: nat -> int, faults: nat -> Faults, ghost log: seq<Message>, ghost k: nat)
      requires Valid(log) && Ordered(log) && k <= |log| && stream <= log[k..]
      requires (forall i :: 0 <= i < k ==> log[i].number <= ackSeq)
               && (forall i :: k <= i < |log| ==> log[i].number > ackSeq)
      modifies this
      ensures Valid(log) && persisted >= old(persisted) && handled >= old(handled)
      ensures stream != [] && (forall i :: 0 <= i < |stream| ==> faults(i) == NONE)
              ==> ackSeq == persisted == stream[|stream| - 1].number
    {
      for i := 0 to |stream|
        invariant Valid(log) && persisted >= old(persisted) && handled >= old(handled)
        invariant forall j :: 0 <= j < k + i ==> log[j].number <= ackSeq
        invariant forall j :: k + i <= j < |log| ==> log[j].number > ackSeq
        invariant i > 0 && (forall j :: 0 <= j < |stream| ==> faults(j) == NONE)
                  ==> ackSeq == persisted == stream[i - 1].number
      {
        assert log[k..][i] == log[k + i];
        var go := Process(stream[i], at(i), faults(i), log, k + i);
        if !go {
          return;
        }
      }
    }

    /** A restart forgets everything but what was persisted. */
    method LoadAck(ghost log: seq<Message>)
      requires Valid(log)
      modifies this`ackSeq
      ensures Valid(log) && ackSeq == persisted
    {
      ackSeq := persisted;
    }
  }

  lemma FirstStep(ap: State, id: Id, rest: seq<Id>, verdict: bool, at: int)
    ensures ResolveFirst(ap, [id] + rest, verdict, at) ==
      if Resolvable(ap, id, at) then Resolved(ap, id, verdict, at) else ResolveFirst(ap, rest, verdict, at)
  {
    assert ([id] + rest)[1..] == rest;
  }

  lemma IdsStep(fields: seq<Bytes>)
    requires fields != []
    ensures Ids(fields) == (if fields[0] == [] || IsHalt(fields[0]) then [] else [fields[0]]) + Ids(fields[1..])
  {
  }

  lemma AckMoves(log: seq<Message>, handled: set<nat>, ack: nat, n: nat)
    requires Ordered(log) && AckSafe(log, handled, ack) && n < |log| && log[n].number in handled
    requires forall j :: 0 <= j < n ==> log[j].number <= ack
    ensures AckSafe(log, handled, log[n].number)
    ensures forall j :: 0 <= j <= n ==> log[j].number <= log[n].number
    ensures forall j :: n < j < |log| ==> log[j].number > log[n].number
  {
    forall m | m in log && m.number <= log[n].number ensures m.number in handled {
      var j :| 0 <= j < |log| && log[j] == m;
      assert j <= n;
    }
  }
}
