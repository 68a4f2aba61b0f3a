/** The deck at work: lenses inserted and removed on the record, and every finding of a live lens
    disclosed before it takes effect (sentinel_os/regulatory_deck.py). A ledger call may raise at any
    time, and then has written nothing. */
module Disclosure {
  import opened Wrappers
  import opened Deck
  import opened Texts

  // A lens as presented: what validation and hashing make of it.
  datatype Lens = Lens(identity: string, regulation: string, contentHash: string, codeHash: string,
                       modes: set<string>, valid: bool)

  datatype LedgerEvent =
    | Bound(identity: string, contentHash: string, codeHash: string)
    | Inserted(lens: InsertedLens)
    | Removed(lens: InsertedLens, removedBy: string)
    | Disclosed(raised: Raised)

  datatype DeckState = DeckState(active: seq<InsertedLens>, events: seq<LedgerEvent>)

  datatype Refusal =
    | UnknownMode
    | InvalidLens
    | UnsupportedMode
    | AlreadyInserted
    | NotInserted
    | NoIdentity
    | LedgerRaised

  function Find(active: seq<InsertedLens>, identity: string): (i: nat)
    ensures i <= |active|
    ensures i < |active| ==> active[i].identity == identity
    ensures i == |active| <==> forall e | e in active :: e.identity != identity
  {
    if active == [] || active[0].identity == identity then 0 else 1 + Find(active[1..], identity)
  }

  predicate IsActive(active: seq<InsertedLens>, identity: string) {
    exists e | e in active :: e.identity == identity
  }

  // del _active[identity]
  function Excluding(active: seq<InsertedLens>, identity: string): seq<InsertedLens> {
    if active == [] then []
    else
      Excluding(active[..|active| - 1], identity)
      + if active[|active| - 1].identity == identity then [] else [active[|active| - 1]]
  }

  // inserted_by or default_authorized_by; not str(who).strip() is no identity at all.
  function Who(given: string, byDefault: string): string {
    if given != "" then given else byDefault
  }

  // The first binding of an identity.
  function Binding(events: seq<LedgerEvent>, identity: string): Option<(string, string)> {
    if events == [] then None
    else
      var e := events[0];
      if e.Bound? && e.identity == identity then Some((e.contentHash, e.codeHash)) else Binding(events[1..], identity)
  }

  // bind_cassette_version: idempotent, and refused when the content has changed.
  function BoundTo(events: seq<LedgerEvent>, lens: Lens, raises: bool): Option<seq<LedgerEvent>> {
    if raises then None
    else match Binding(events, lens.identity)
      case None => Some(events + [Bound(lens.identity, lens.contentHash, lens.codeHash)])
      case Some((content, code)) => if content != lens.contentHash || code != lens.codeHash then None else Some(events)
  }

  function AsInserted(lens: Lens, mode: string, who: string): InsertedLens {
    InsertedLens(lens.identity, mode, lens.regulation, lens.contentHash, lens.codeHash, who)
  }

  // insert: validate, bind, record, activate.
  function InsertedInto(s: DeckState, lens: Lens, mode: string, who: string, bindRaises: bool, recordRaises: bool):
    (DeckState, Result<(), Refusal>)
  {
    if mode !in {MODE_OBSERVER, MODE_LIVE} then (s, Err(UnknownMode))
    else if !lens.valid then (s, Err(InvalidLens))
    else if mode !in lens.modes then (s, Err(UnsupportedMode))
    else if IsActive(s.active, lens.identity) then (s, Err(AlreadyInserted))
    else if IsBlank(who) then (s, Err(NoIdentity))
    else match BoundTo(s.events, lens, bindRaises)
      case None => (s, Err(LedgerRaised))
      case Some(bound) =>
        if recordRaises then (s.(events := bound), Err(LedgerRaised))
        else
          var entry := AsInserted(lens, mode, who);
          (DeckState(s.active + [entry], bound + [Inserted(entry)]), Ok(()))
  }

  function RemovedFrom(s: DeckState, identity: string, who: string, recordRaises: bool):
    (DeckState, Result<(), Refusal>)
  {
    var i := Find(s.active, identity);
    if i == |s.active| then (s, Err(NotInserted))
    else if IsBlank(who) then (s, Err(NoIdentity))
    else if recordRaises then (s, Err(LedgerRaised))
    else (DeckState(Excluding(s.active, identity), s.events + [Removed(s.active[i], who)]), Ok(()))
  }

  /* -------- judging -------- */

  datatype Rollup = NoRollup | NotFlagged | Flagged(finding: Finding) | RollupRaises

  // What the lenses and the kernel answer for one episode: a review is absent when it raises; the
  // cohort rollups are absent altogether when no review is to be had.
  datatype Case = Case(kernelRaises: bool, review: InsertedLens -> Option<seq<Finding>>, rollup: InsertedLens -> Rollup)

  function LiveOf(active: seq<InsertedLens>): (r: seq<InsertedLens>)
    ensures forall e :: e in r <==> e in active && e.mode == MODE_LIVE
  {
    if active == [] then []
    else (if active[0].mode == MODE_LIVE then [active[0]] else []) + LiveOf(active[1..])
  }

  function Tagged(entry: InsertedLens, findings: seq<Finding>): seq<Raised> {
    seq(|findings|, i requires 0 <= i < |findings| => Raised(entry, findings[i]))
  }

  // What the live lenses raise, up to the first that raises an exception.
  function Reviewed(x: Case, live: seq<InsertedLens>): (seq<Raised>, bool) {
    if live == [] then ([], true)
    else
      var findings := x.review(live[0]);
      if findings.None? then ([], false)
      else
        var rest := Reviewed(x, live[1..]);
        (Tagged(live[0], findings.value) + rest.0, rest.1)
  }

  // _cohort_equity_escalations: computed in full before any is disclosed.
  function Escalated(x: Case, live: seq<InsertedLens>): Option<seq<Raised>> {
    if live == [] then Some([])
    else match x.rollup(live[0])
      case RollupRaises => None
      case Flagged(finding) =>
        var rest := Escalated(x, live[1..]);
        if rest.Some? then Some([Raised(live[0], finding)] + rest.value) else None
      case _ => Escalated(x, live[1..])
  }

  // Everything there is to disclose, in order, and whether judgment gets to the end.
  function Plan(x: Case, active: seq<InsertedLens>): (seq<Raised>, bool) {
    var live := LiveOf(active);
    var (own, reviewed) := Reviewed(x, live);
    if !reviewed then (own, false)
    else
      var seen := own + Conflicts(own);
      var escalated := Escalated(x, live);
      if escalated.None? then (seen, false) else (seen + escalated.value, true)
  }

  datatype Outcome =
    | Aborted
    | Blocked(lens: string, regulation: string, findings: seq<Finding>)
    | Judged(findings: seq<Finding>)

  function FindingsOf(raised: seq<Raised>): seq<Finding> {
    seq(|raised|, i requires 0 <= i < |raised| => raised[i].finding)
  }

  function Disclosures(raised: seq<Raised>): seq<LedgerEvent> {
    seq(|raised|, i requires 0 <= i < |raised| => Disclosed(raised[i]))
  }

  // The first finding that blocks.
  function FirstBlock(own: seq<Raised>): (i: nat)
    ensures i <= |own|
    ensures i < |own| ==> own[i].finding.action == ACTION_BLOCK
    ensures forall j | 0 <= j < i :: own[j].finding.action != ACTION_BLOCK
  {
    if own == [] || own[0].finding.action == ACTION_BLOCK then 0 else 1 + FirstBlock(own[1..])
  }

  // judge: failAt is the disclosure whose write raises, if any does.
  function JudgedWith(s: DeckState, x: Case, failAt: Option<nat>): (DeckState, Outcome) {
    if x.kernelRaises then (s, Aborted)
    else
      var (plan, complete) := Plan(x, s.active);
      if failAt.Some? && failAt.value < |plan| then
        (s.(events := s.events + Disclosures(plan[..failAt.value])), Aborted)
      else
        var t := s.(events := s.events + Disclosures(plan));
        if !complete then (t, Aborted)
        else
          var own := Reviewed(x, LiveOf(s.active)).0;
          var i := FirstBlock(own);
          if i < |own| then (t, Blocked(own[i].entry.identity, own[i].entry.regulation, FindingsOf(plan)))
          else (t, Judged(FindingsOf(plan)))
  }

  class RegulatoryDeck {
    const byDefault: string
    var active: seq<InsertedLens>
    var events: seq<LedgerEvent>      // the ledger's

    ghost function Contents(): DeckState
      reads this
    {
      DeckState(active, events)
    }

    constructor (byDefault: string, events: seq<LedgerEvent>)
      ensures this.byDefault == byDefault && Contents() == DeckState([], events)
    {
      this.byDefault, this.events, active := byDefault, events, [];
    }

    method Insert(lens: Lens, mode: string, insertedBy: string, bindRaises: bool, recordRaises: bool)
      returns (r: Result<(), Refusal>)
      modifies this
      ensures (Contents(), r)
              == InsertedInto(old(Contents()), lens, mode, Who(insertedBy, byDefault), bindRaises, recordRaises)
    {
      if mode != MODE_OBSERVER && mode != MODE_LIVE {
        return Err(UnknownMode);
      }
      if !lens.valid {
        return Err(InvalidLens);
      }
      if mode !in lens.modes {
        return Err(UnsupportedMode);
      }
      if IsActive(active, lens.identity) {
        return Err(AlreadyInserted);
      }
      var who := Who(insertedBy, byDefault);
      if IsBlank(who) {
        return Err(NoIdentity);
      }
      var bound := BoundTo(events, lens, bindRaises);
      if bound.None? {
        return Err(LedgerRaised);
      }
      events := bound.value;
      if recordRaises {
        return Err(LedgerRaised);
      }
      var entry := AsInserted(lens, mode, who);
      events := events + [Inserted(entry)];
      active := active + [entry];
      return Ok(());
    }

    method Remove(identity: string, removedBy: string, recordRaises: bool) returns (r: Result<(), Refusal>)
      modifies this
      ensures (Contents(), r) == RemovedFrom(old(Contents()), identity, Who(removedBy, byDefault), recordRaises)
    {
      var i := Find(active, identity);
      if i == |active| {
        return Err(NotInserted);
      }
      var who := Who(removedBy, byDefault);
      if IsBlank(who) {
        return Err(NoIdentity);
      }
      if recordRaises {
        return Err(LedgerRaised);
      }
      events := events + [Removed(active[i], who)];
      active := Excluding(active, identity);
      return Ok(());
    }

    // Disclose in order until a write raises; done says how many have been written before.
    method DiscloseAll(raised: seq<Raised>, done: nat, failAt: Option<nat>) returns (ok: bool)
      requires failAt.Some? ==> done <= failAt.value
      modifies this`events
      ensures ok <==> failAt.None? || done + |raised| <= failAt.value
      ensures events == old(events) + Disclosures(if ok then raised else raised[..failAt.value - done])
    {
      for i := 0 to |raised|
        invariant events == old(events) + Disclosures(raised[..i])
        invariant failAt.Some? ==> done + i <= failAt.value
      {
        if failAt == Some(done + i) {
          return false;
        }
        events := events + [Disclosed(raised[i])];
        assert Disclosures(raised[..i + 1]) == Disclosures(raised[..i]) + [Disclosed(raised[i])];
      }
      assert raised[..|raised|] == raised;
      return true;
    }

    // The live lenses' own reviews, each finding disclosed as it is raised. ok is false when a write
    // raised; complete is false when a lens did.
    method Review(x: Case, live: seq<InsertedLens>, failAt: Option<nat>)
      returns (own: seq<Raised>, ok: bool, complete: bool)
      modifies this`events
      ensures var raised := Reviewed(x, live).0;
              && (ok <==> failAt.None? || |raised| <= failAt.value)
              && events == old(events) + Disclosures(if ok then raised else raised[..failAt.value])
              && (ok ==> own == raised && complete == Reviewed(x, live).1)
    {
      hide Tagged, Disclosures;
      own, complete := [], true;
      NoDisclosures();
      assert events + [] == events;
      assert live[0..] == live;
      assert [] + Reviewed(x, live).0 == Reviewed(x, live).0;
      for i := 0 to |live|
        invariant Reviewed(x, live) == (own + Reviewed(x, live[i..]).0, Reviewed(x, live[i..]).1)
        invariant events == old(events) + Disclosures(own)
        invariant failAt.Some? ==> |own| <= failAt.value
      {
        assert live[i..][0] == live[i] && live[i..][1..] == live[i + 1..];
        var findings := x.review(live[i]);
        if findings.None? {
          assert own + [] == own;
          return own, true, false;
        }
        var raised := Tagged(live[i], findings.value);
        ghost var rest := Reviewed(x, live[i + 1..]).0;
        assert own + (raised + rest) == (own + raised) + rest;
        ok := DiscloseAll(raised, |own|, failAt);
        if !ok {
          ShorterPlan(old(events), Reviewed(x, live).0, own, raised, failAt.value);
          return own, false, true;
        }
        DisclosuresAppend(old(events), own, raised);
        own := own + raised;
      }
      assert live[|live|..] == [] && own + [] == own;
      return own, true, true;
    }

    method Judge(x: Case, failAt: Option<nat>) returns (outcome: Outcome)
      modifies this`events
      ensures (Contents(), outcome) == JudgedWith(old(Contents()), x, failAt)
    {
      hide Conflicts, Escalated, FirstBlock, FindingsOf, Disclosures, Reviewed;
      if x.kernelRaises {
        return Aborted;
      }
      ghost var plan := Plan(x, active).0;
      var live := LiveOf(active);
      var own, ok, complete := Review(x, live, failAt);
      if !ok {
        assert plan[..failAt.value] == Reviewed(x, live).0[..failAt.value];
        return Aborted;
      }
      if !complete {
        return Aborted;
      }
      var conflicts := Conflicts(own);
      ok := DiscloseAll(conflicts, |own|, failAt);
      if !ok {
        ShorterPlan(old(events), plan, own, conflicts, failAt.value);
        return Aborted;
      }
      DisclosuresAppend(old(events), own, conflicts);
      var seen := own + conflicts;
      assert events == old(events) + Disclosures(seen);
      var escalated := Escalated(x, live);
      if escalated.None? {
        return Aborted;
      }
      ok := DiscloseAll(escalated.value, |seen|, failAt);
      if !ok {
        ShorterPlan(old(events), plan, seen, escalated.value, failAt.value);
        return Aborted;
      }
      DisclosuresAppend(old(events), seen, escalated.value);
      assert seen + escalated.value == plan;
      assert events == old(events) + Disclosures(plan);
      var findings := FindingsOf(seen + escalated.value);
      var i := FirstBlock(own);
      if i < |own| {
        return Blocked(own[i].entry.identity, own[i].entry.regulation, findings);
      }
      return Judged(findings);
    }
  }

  lemma NoDisclosures()
    ensures Disclosures([]) == []
  {
  }

  lemma DisclosuresAppend(events: seq<LedgerEvent>, a: seq<Raised>, b: seq<Raised>)
    ensures events + Disclosures(a + b) == events + Disclosures(a) + Disclosures(b)
  {
    assert Disclosures(a + b) == Disclosures(a) + Disclosures(b);
  }

  // A write that raises inside one block of a plan leaves the plan up to that write.
  lemma ShorterPlan(events: seq<LedgerEvent>, plan: seq<Raised>, before: seq<Raised>, block: seq<Raised>, failAt: nat)
    requires |before| <= failAt < |before| + |block|
    requires before + block <= plan
    ensures failAt < |plan|
    ensures events + Disclosures(before) + Disclosures(block[..failAt - |before|])
            == events + Disclosures(plan[..failAt])
  {
    hide Disclosures;
    assert (before + block)[..failAt] == plan[..failAt];
    assert before + block[..failAt - |before|] == plan[..failAt];
    DisclosuresAppend(events, before, block[..failAt - |before|]);
  }

  /* -------- disclosure before action -------- */

  // r is credited to a lens that is inserted, and inserted live.
  ghost predicate FromLive(active: seq<InsertedLens>, r: Raised) {
    r.entry in active && r.entry.mode == MODE_LIVE
  }

  lemma {:induction false} ReviewedFromLive(x: Case, live: seq<InsertedLens>, r: Raised)
    requires r in Reviewed(x, live).0
    ensures r.entry in live && x.review(r.entry).Some? && r.finding in x.review(r.entry).value
  {
    var findings := x.review(live[0]);
    var rest := Reviewed(x, live[1..]).0;
    if r in rest {
      ReviewedFromLive(x, live[1..], r);
    } else {
      assert r in Tagged(live[0], findings.value);
    }
  }

  lemma {:induction false} EscalatedFromLive(x: Case, live: seq<InsertedLens>, r: Raised)
    requires Escalated(x, live).Some? && r in Escalated(x, live).value
    ensures r.entry in live && x.rollup(r.entry) == Flagged(r.finding)
  {
    if !(x.rollup(live[0]).Flagged? && r == Raised(live[0], x.rollup(live[0]).finding)) {
      EscalatedFromLive(x, live[1..], r);
    }
  }

  lemma {:induction false} ConflictsFromRaised(raised: seq<Raised>, variables: seq<string>, r: Raised)
    requires r in ConflictsOn(raised, variables)
    ensures exists own :: own in raised && own.entry == r.entry
  {
    hide ConflictOn;
    var n := |variables| - 1;
    if r in ConflictOn(raised, variables[n]) {
      ConflictIsStrictest(raised, variables[n], r);
    } else {
      ConflictsFromRaised(raised, variables[..n], r);
    }
  }

  lemma PlanIsFromLive(x: Case, active: seq<InsertedLens>, r: Raised)
    requires r in Plan(x, active).0
    ensures FromLive(active, r)
  {
    hide Reviewed, Escalated, ConflictsOn;
    var live := LiveOf(active);
    var own := Reviewed(x, live).0;
    if r in own {
      ReviewedFromLive(x, live, r);
    } else if r in Conflicts(own) {
      ConflictsFromRaised(own, Sorted(Variables(own)), r);
      var claim :| claim in own && claim.entry == r.entry;
      ReviewedFromLive(x, live, claim);
    } else {
      EscalatedFromLive(x, live, r);
    }
  }

  function Findings(outcome: Outcome): seq<Finding>
    requires !outcome.Aborted?
  {
    match outcome
    case Blocked(_, _, findings) => findings
    case Judged(findings) => findings
  }

  /** Whatever happens, judgment writes nothing but disclosures, each credited to an inserted live
      lens; when it returns or blocks, its findings are exactly the disclosures it wrote, in order;
      when it aborts, no finding comes out; and the set of inserted lenses is untouched. */
  lemma DisclosedBeforeAction(s: DeckState, x: Case, failAt: Option<nat>)
    ensures var (t, outcome) := JudgedWith(s, x, failAt);
            exists raised: seq<Raised> ::
              && t == s.(events := s.events + Disclosures(raised))
              && (forall r | r in raised :: FromLive(s.active, r))
              && (!outcome.Aborted? ==> Findings(outcome) == FindingsOf(raised))
  {
    hide Plan, FirstBlock, Reviewed;
    var (plan, complete) := Plan(x, s.active);
    var raised :=
      if x.kernelRaises then []
      else if failAt.Some? && failAt.value < |plan| then plan[..failAt.value] else plan;
    NoDisclosures();
    assert s.events + [] == s.events;
    forall r | r in raised
      ensures FromLive(s.active, r)
    {
      PlanIsFromLive(x, s.active, r);
    }
    assert JudgedWith(s, x, failAt).0 == s.(events := s.events + Disclosures(raised));
  }

  /** Judgment blocks exactly when it gets to the end and a live lens's own review blocks; the block
      names the first lens to do so. A conflict or an escalation never blocks. */
  lemma BlocksExactly(s: DeckState, x: Case, failAt: Option<nat>)
    ensures var outcome := JudgedWith(s, x, failAt).1;
            var own := Reviewed(x, LiveOf(s.active)).0;
            && (!outcome.Aborted? <==> !x.kernelRaises && Plan(x, s.active).1
                                       && (failAt.None? || |Plan(x, s.active).0| <= failAt.value))
            && (!outcome.Aborted? ==> (outcome.Blocked? <==> exists r :: r in own && r.finding.action == ACTION_BLOCK))
            && (outcome.Blocked? ==>
                  exists i :: 0 <= i < |own| && own[i].finding.action == ACTION_BLOCK
                              && own[i].entry.identity == outcome.lens
                              && forall j | 0 <= j < i :: own[j].finding.action != ACTION_BLOCK)
  {
    hide Plan, Reviewed, LiveOf, FindingsOf, Disclosures;
    var own := Reviewed(x, LiveOf(s.active)).0;
    var i := FirstBlock(own);
    if i < |own| {
      assert own[i] in own;
    }
  }

  /* -------- the record of what is inserted -------- */

  // An insertion adds its lens, a removal takes its identity out.
  function Applied(active: seq<InsertedLens>, e: LedgerEvent): seq<InsertedLens> {
    match e
    case Inserted(lens) => active + [lens]
    case Removed(lens, _) => Excluding(active, lens.identity)
    case _ => active
  }

  // What the events say is inserted, in order. A deck never inserts an identity it has in force.
  function FoldOf(events: seq<LedgerEvent>): seq<InsertedLens> {
    if events == [] then [] else Applied(FoldOf(events[..|events| - 1]), events[|events| - 1])
  }

  lemma FoldStep(events: seq<LedgerEvent>, e: LedgerEvent)
    ensures FoldOf(events + [e]) == Applied(FoldOf(events), e)
  {
    assert (events + [e])[..|events|] == events;
  }

  lemma {:induction false} FoldSkips(events: seq<LedgerEvent>, more: seq<LedgerEvent>)
    requires forall e | e in more :: e.Bound? || e.Disclosed?
    ensures FoldOf(events + more) == FoldOf(events)
  {
    if more == [] {
      assert events + more == events;
    } else {
      var n := |more| - 1;
      FoldSkips(events, more[..n]);
      assert events + more == events + more[..n] + [more[n]];
      FoldStep(events + more[..n], more[n]);
    }
  }

  datatype Act =
    | DoInsert(lens: Lens, mode: string, who: string, bindRaises: bool, recordRaises: bool)
    | DoRemove(identity: string, who: string, recordRaises: bool)
    | DoJudge(x: Case, failAt: Option<nat>)

  function Next(s: DeckState, act: Act): DeckState {
    match act
    case DoInsert(lens, mode, who, bindRaises, recordRaises) =>
      InsertedInto(s, lens, mode, who, bindRaises, recordRaises).0
    case DoRemove(identity, who, recordRaises) => RemovedFrom(s, identity, who, recordRaises).0
    case DoJudge(x, failAt) => JudgedWith(s, x, failAt).0
  }

  function Run(events: seq<LedgerEvent>, acts: seq<Act>): DeckState {
    if acts == [] then DeckState([], events) else Next(Run(events, acts[..|acts| - 1]), acts[|acts| - 1])
  }

  ghost predicate OneEach(active: seq<InsertedLens>) {
    forall i, j | 0 <= i < j < |active| :: active[i].identity != active[j].identity
  }

  lemma {:induction false} ExcludingMembers(active: seq<InsertedLens>, identity: string)
    ensures forall e :: e in Excluding(active, identity) <==> e in active && e.identity != identity
  {
    if active != [] {
      var front, last := active[..|active| - 1], active[|active| - 1];
      assert active == front + [last];
      ExcludingMembers(front, identity);
    }
  }

  lemma {:induction false} WithoutKeepsOneEach(active: seq<InsertedLens>, identity: string)
    requires OneEach(active)
    ensures OneEach(Excluding(active, identity))
  {
    if active != [] {
      var front, last := active[..|active| - 1], active[|active| - 1];
      assert active == front + [last];
      WithoutKeepsOneEach(front, identity);
      ExcludingMembers(front, identity);
      var rest := Excluding(front, identity);
      forall i | 0 <= i < |rest|
        ensures rest[i].identity != last.identity
      {
        assert rest[i] in rest;
        assert rest[i] in front;
      }
    }
  }

  // What has been written since the ledger was taken up.
  function Since(start: seq<LedgerEvent>, events: seq<LedgerEvent>): seq<LedgerEvent>
    requires start <= events
  {
    events[|start|..]
  }

  lemma SinceMore(start: seq<LedgerEvent>, events: seq<LedgerEvent>, more: seq<LedgerEvent>)
    requires start <= events
    ensures start <= events + more && Since(start, events + more) == Since(start, events) + more
  {
  }

  lemma StepKeepsFold(start: seq<LedgerEvent>, s: DeckState, act: Act)
    requires start <= s.events && s.active == FoldOf(Since(start, s.events)) && OneEach(s.active)
    ensures var t := Next(s, act);
            start <= t.events && t.active == FoldOf(Since(start, t.events)) && OneEach(t.active)
  {
    hide FoldOf, Excluding, Plan, FindingsOf, IsBlank, Since;
    var written := Since(start, s.events);
    match act
    case DoInsert(lens, mode, who, bindRaises, recordRaises) =>
      var bound := BoundTo(s.events, lens, bindRaises);
      if bound.Some? {
        BoundFolds(start, s.events, lens, bindRaises);
        SinceMore(start, bound.value, [Inserted(AsInserted(lens, mode, who))]);
        FoldStep(Since(start, bound.value), Inserted(AsInserted(lens, mode, who)));
      }
    case DoRemove(identity, who, recordRaises) =>
      var i := Find(s.active, identity);
      if i < |s.active| {
        SinceMore(start, s.events, [Removed(s.active[i], who)]);
        FoldStep(written, Removed(s.active[i], who));
        WithoutKeepsOneEach(s.active, identity);
      }
    case DoJudge(x, failAt) =>
      DisclosedBeforeAction(s, x, failAt);
      var raised: seq<Raised> :| Next(s, act) == s.(events := s.events + Disclosures(raised));
      SinceMore(start, s.events, Disclosures(raised));
      FoldSkips(written, Disclosures(raised));
  }

  lemma BoundFolds(start: seq<LedgerEvent>, events: seq<LedgerEvent>, lens: Lens, raises: bool)
    requires start <= events && BoundTo(events, lens, raises).Some?
    ensures var bound := BoundTo(events, lens, raises).value;
            start <= bound && FoldOf(Since(start, bound)) == FoldOf(Since(start, events))
  {
    hide FoldOf, Binding, Since;
    var binding := Bound(lens.identity, lens.contentHash, lens.codeHash);
    SinceMore(start, events, [binding]);
    FoldStep(Since(start, events), binding);
  }

  /** Over any run of insertions, removals and judgments from the moment a deck takes up a ledger,
      whichever ledger calls raise, the lenses in force are the fold of the insertions and removals
      written since, and no identity is in force twice: a lens that failed a step was never active. */
  lemma {:induction false} ActiveIsTheRecord(start: seq<LedgerEvent>, acts: seq<Act>)
    ensures var s := Run(start, acts);
            start <= s.events && s.active == FoldOf(Since(start, s.events)) && OneEach(s.active)
  {
    hide FoldOf, Next;
    if acts == [] {
      assert Since(start, start) == [];
      NothingFolded();
    } else {
      ActiveIsTheRecord(start, acts[..|acts| - 1]);
      StepKeepsFold(start, Run(start, acts[..|acts| - 1]), acts[|acts| - 1]);
    }
  }

  lemma NothingFolded()
    ensures FoldOf([]) == []
  {
  }

  /* -------- across restarts -------- */

  type ByIdentity = map<string, InsertedLens>

  // The deck's dictionary: a second insertion of an identity replaces the first.
  function Filed(active: seq<InsertedLens>): ByIdentity {
    if active == [] then map[]
    else
      var last := active[|active| - 1];
      Filed(active[..|active| - 1])[last.identity := last]
  }

  function Refiled(entries: ByIdentity, e: LedgerEvent): ByIdentity {
    match e
    case Inserted(lens) => entries[lens.identity := lens]
    case Removed(lens, _) => entries - {lens.identity}
    case _ => entries
  }

  // What the events say is inserted under each identity, whichever decks wrote them.
  function InForce(events: seq<LedgerEvent>): ByIdentity {
    if events == [] then map[] else Refiled(InForce(events[..|events| - 1]), events[|events| - 1])
  }

  lemma FiledSnoc(active: seq<InsertedLens>, last: InsertedLens)
    ensures Filed(active + [last]) == Filed(active)[last.identity := last]
  {
    assert (active + [last])[..|active|] == active;
  }

  lemma {:induction false} FiledExcluding(active: seq<InsertedLens>, identity: string)
    ensures Filed(Excluding(active, identity)) == Filed(active) - {identity}
  {
    if active != [] {
      var front, last := active[..|active| - 1], active[|active| - 1];
      var rest := Excluding(front, identity);
      assert active == front + [last];
      hide Filed;
      assert Excluding(active, identity) == rest + if last.identity == identity then [] else [last];
      hide Excluding;
      FiledExcluding(front, identity);
      FiledSnoc(front, last);
      FiledSnoc(rest, last);
      assert rest + [] == rest;
    } else {
      assert Filed([]) == map[];
    }
  }

  // The ordered fold holds, under each identity, what is in force.
  lemma {:induction false} FoldIsInForce(events: seq<LedgerEvent>)
    ensures Filed(FoldOf(events)) == InForce(events)
  {
    if events != [] {
      var front, last := events[..|events| - 1], events[|events| - 1];
      FoldIsInForce(front);
      var active := FoldOf(front);
      hide Filed, Excluding;
      match last {
        case Inserted(lens) => FiledSnoc(active, lens);
        case Removed(lens, _) => FiledExcluding(active, lens.identity);
        case _ =>
      }
    } else {
      assert Filed([]) == map[];
    }
  }

  // Someone inserted this identity, or took it out.
  ghost predicate Touched(written: seq<LedgerEvent>, identity: string) {
    exists e | e in written :: (e.Inserted? || e.Removed?) && e.lens.identity == identity
  }

  lemma TouchedSnoc(front: seq<LedgerEvent>, last: LedgerEvent, identity: string)
    ensures Touched(front + [last], identity)
            <==> Touched(front, identity) || ((last.Inserted? || last.Removed?) && last.lens.identity == identity)
  {
    assert forall e :: e in front + [last] <==> e in front || e == last;
  }

  predicate SameUnder(p: ByIdentity, q: ByIdentity, identity: string) {
    (identity in p <==> identity in q) && (identity in p ==> p[identity] == q[identity])
  }

  // Later events decide what is in force under the identities they touch, and only under those.
  lemma {:induction false} LaterEventsDecide(start: seq<LedgerEvent>, written: seq<LedgerEvent>, identity: string)
    ensures var earlier, later, whole := InForce(start), InForce(written), InForce(start + written);
            if Touched(written, identity) then SameUnder(whole, later, identity)
            else identity !in later && SameUnder(whole, earlier, identity)
  {
    if written == [] {
      assert start + written == start;
    } else {
      hide Touched;
      var front, last := written[..|written| - 1], written[|written| - 1];
      assert written == front + [last] && (start + written)[..|start + written| - 1] == start + front;
      LaterEventsDecide(start, front, identity);
      TouchedSnoc(front, last, identity);
    }
  }

  /** A deck starts with no lens in force, whatever its ledger holds. So what it has in force is what
      the whole ledger says is inserted exactly when each identity the earlier record left in has been
      inserted again or taken out since. */
  lemma WholeRecordExactly(start: seq<LedgerEvent>, acts: seq<Act>)
    ensures var s := Run(start, acts);
            && start <= s.events
            && (Filed(s.active) == InForce(s.events) <==>
                  forall id | id in InForce(start) :: Touched(Since(start, s.events), id))
  {
    hide Run, FoldOf, Touched, InForce, Filed;
    ActiveIsTheRecord(start, acts);
    var s := Run(start, acts);
    var written := Since(start, s.events);
    assert s.events == start + written;
    FoldIsInForce(written);
    forall id
      ensures SameUnder(InForce(s.events), Filed(s.active), id) <==> id in InForce(start) ==> Touched(written, id)
    {
      LaterEventsDecide(start, written, id);
    }
    SameEverywhere(InForce(s.events), Filed(s.active));
  }

  lemma SameEverywhere(p: ByIdentity, q: ByIdentity)
    ensures p == q <==> forall id :: SameUnder(p, q, id)
  {
    if forall id :: SameUnder(p, q, id) {
      forall id
        ensures id in p <==> id in q
        ensures id in p && id in q ==> p[id] == q[id]
      {
        assert SameUnder(p, q, id);
      }
    }
  }

  /** An ordinary restart: the one lens left in is inserted again, unchanged, and record and deck
      agree though nothing was taken out. */
  lemma RestartAgrees(lens: Lens, mode: string, who: string)
    requires mode in {MODE_OBSERVER, MODE_LIVE} && lens.valid && mode in lens.modes && !IsBlank(who)
    ensures var entry := AsInserted(lens, mode, who);
            var start := [Bound(lens.identity, lens.contentHash, lens.codeHash), Inserted(entry)];
            var s := Run(start, [DoInsert(lens, mode, who, false, false)]);
            s.active == [entry] && s.events == start + [Inserted(entry)] && Filed(s.active) == InForce(s.events)
  {
    hide IsBlank, InForce, Filed;
    var entry, act := AsInserted(lens, mode, who), DoInsert(lens, mode, who, false, false);
    var bound := Bound(lens.identity, lens.contentHash, lens.codeHash);
    var start := [bound, Inserted(entry)];
    assert [act][..0] == [] && Run(start, []) == DeckState([], start);
    var s := Run(start, [act]);
    assert s.active == [entry] && s.events == start + [Inserted(entry)];
    hide Run;
    WholeRecordExactly(start, [act]);
    var written := Since(start, s.events);
    assert Inserted(entry) in written by {
      assert written == [Inserted(entry)];
    }
    assert Touched(written, lens.identity);
    assert start == [bound] + [Inserted(entry)];
    InForceSnoc([bound], Inserted(entry));
    assert InForce([bound]) == map[] by {
      NothingBoundInForce(bound);
    }
  }

  lemma InForceSnoc(events: seq<LedgerEvent>, e: LedgerEvent)
    ensures InForce(events + [e]) == Refiled(InForce(events), e)
  {
    assert (events + [e])[..|events|] == events;
  }

  lemma NothingBoundInForce(e: LedgerEvent)
    requires e.Bound?
    ensures InForce([e]) == map[]
  {
  }

  // Each recorded insertion comes after a binding of its identity to its content, the first there is.
  ghost predicate InsertionsAreBound(events: seq<LedgerEvent>) {
    forall i | 0 <= i < |events| && events[i].Inserted? ::
      Binding(events[..i], events[i].lens.identity) == Some((events[i].lens.contentHash, events[i].lens.codeHash))
  }

  lemma {:induction false} BindingStays(events: seq<LedgerEvent>, more: seq<LedgerEvent>, identity: string)
    requires Binding(events, identity).Some?
    ensures Binding(events + more, identity) == Binding(events, identity)
  {
    assert (events + more)[0] == events[0] && (events + more)[1..] == events[1..] + more;
    var e := events[0];
    if !(e.Bound? && e.identity == identity) {
      BindingStays(events[1..], more, identity);
    }
  }

  lemma {:induction false} BindingAdded(events: seq<LedgerEvent>, lens: Lens)
    requires Binding(events, lens.identity).None?
    ensures Binding(events + [Bound(lens.identity, lens.contentHash, lens.codeHash)], lens.identity)
            == Some((lens.contentHash, lens.codeHash))
  {
    var all := events + [Bound(lens.identity, lens.contentHash, lens.codeHash)];
    if events != [] {
      assert all[1..] == events[1..] + [Bound(lens.identity, lens.contentHash, lens.codeHash)];
      BindingAdded(events[1..], lens);
    }
  }

  lemma BoundHolds(events: seq<LedgerEvent>, lens: Lens, raises: bool)
    requires BoundTo(events, lens, raises).Some?
    ensures Binding(BoundTo(events, lens, raises).value, lens.identity) == Some((lens.contentHash, lens.codeHash))
  {
    if Binding(events, lens.identity).None? {
      BindingAdded(events, lens);
    }
  }

  lemma BoundMore(events: seq<LedgerEvent>, more: seq<LedgerEvent>)
    requires InsertionsAreBound(events) && forall e | e in more :: !e.Inserted?
    ensures InsertionsAreBound(events + more)
  {
    var all := events + more;
    forall k | |events| <= k < |all|
      ensures !all[k].Inserted?
    {
      assert all[k] == more[k - |events|];
    }
    forall i | 0 <= i < |all| && all[i].Inserted?
      ensures Binding(all[..i], all[i].lens.identity) == Some((all[i].lens.contentHash, all[i].lens.codeHash))
    {
      assert all[..i] == events[..i];
    }
  }

  lemma BoundInsertion(events: seq<LedgerEvent>, entry: InsertedLens)
    requires InsertionsAreBound(events)
    requires Binding(events, entry.identity) == Some((entry.contentHash, entry.codeHash))
    ensures InsertionsAreBound(events + [Inserted(entry)])
  {
    var all := events + [Inserted(entry)];
    forall i | 0 <= i < |all| && all[i].Inserted?
      ensures Binding(all[..i], all[i].lens.identity) == Some((all[i].lens.contentHash, all[i].lens.codeHash))
    {
      assert all[..i] == events[..i];
      if i == |events| {
        assert events[..i] == events;
      }
    }
  }

  lemma StepKeepsBound(s: DeckState, act: Act)
    requires InsertionsAreBound(s.events)
    ensures InsertionsAreBound(Next(s, act).events)
  {
    hide InsertionsAreBound, Binding, Plan, FindingsOf, IsBlank, Excluding;
    match act
    case DoInsert(lens, mode, who, bindRaises, recordRaises) =>
      var bound := BoundTo(s.events, lens, bindRaises);
      if bound.Some? {
        BoundHolds(s.events, lens, bindRaises);
        BoundMore(s.events, [Bound(lens.identity, lens.contentHash, lens.codeHash)]);
        BoundInsertion(bound.value, AsInserted(lens, mode, who));
      }
    case DoRemove(identity, who, recordRaises) =>
      var i := Find(s.active, identity);
      if i < |s.active| {
        BoundMore(s.events, [Removed(s.active[i], who)]);
      }
    case DoJudge(x, failAt) =>
      DisclosedBeforeAction(s, x, failAt);
      var raised: seq<Raised> :| Next(s, act) == s.(events := s.events + Disclosures(raised));
      BoundMore(s.events, Disclosures(raised));
  }

  /** Over any run, from any ledger of which it is true already, no insertion is recorded before its
      identity is bound to exactly the content inserted. */
  lemma {:induction false} EveryInsertionIsBound(start: seq<LedgerEvent>, acts: seq<Act>)
    requires InsertionsAreBound(start)
    ensures InsertionsAreBound(Run(start, acts).events)
  {
    hide Next, InsertionsAreBound;
    if acts != [] {
      EveryInsertionIsBound(start, acts[..|acts| - 1]);
      StepKeepsBound(Run(start, acts[..|acts| - 1]), acts[|acts| - 1]);
    }
  }

  /** So a lens whose content changed under an unchanged identity cannot be inserted again, after a
      restart as little as before it: the first binding of an identity stands. */
  lemma ChangedContentIsRefused(start: seq<LedgerEvent>, acts: seq<Act>, i: nat, j: nat)
    requires InsertionsAreBound(start)
    requires var all := Run(start, acts).events; i < j < |all| && all[i].Inserted? && all[j].Inserted?
    requires Run(start, acts).events[i].lens.identity == Run(start, acts).events[j].lens.identity
    ensures Run(start, acts).events[i].lens.contentHash == Run(start, acts).events[j].lens.contentHash
    ensures Run(start, acts).events[i].lens.codeHash == Run(start, acts).events[j].lens.codeHash
  {
    hide Run, Binding;
    EveryInsertionIsBound(start, acts);
    var all := Run(start, acts).events;
    assert all[..j] == all[..i] + all[i..j];
    BindingStays(all[..i], all[i..j], all[i].lens.identity);
  }

  /* -------- insertion order -------- */

  lemma {:induction false} OfLensAppend(p: seq<Raised>, q: seq<Raised>, id: string)
    ensures OfLens(p + q, id) == OfLens(p, id) + OfLens(q, id)
  {
    if q == [] {
      assert p + q == p;
    } else {
      var n := |q| - 1;
      assert (p + q)[..|p + q| - 1] == p + q[..n];
      OfLensAppend(p, q[..n], id);
    }
  }

  lemma TaggedSnoc(entry: InsertedLens, findings: seq<Finding>)
    requires findings != []
    ensures var n := |findings| - 1;
            Tagged(entry, findings) == Tagged(entry, findings[..n]) + [Raised(entry, findings[n])]
  {
  }

  lemma {:induction false} OfTagged(entry: InsertedLens, findings: seq<Finding>, id: string)
    ensures OfLens(Tagged(entry, findings), id) == if entry.identity == id then Tagged(entry, findings) else []
  {
    if findings != [] {
      hide OfLens, Tagged;
      var n := |findings| - 1;
      var front := Tagged(entry, findings[..n]);
      OfTagged(entry, findings[..n], id);
      TaggedSnoc(entry, findings);
      OfLensAppend(front, [Raised(entry, findings[n])], id);
      OfOne(Raised(entry, findings[n]), id);
      assert front + [] == front;
    } else {
      NothingOfLens(id);
    }
  }

  lemma OfOne(r: Raised, id: string)
    ensures OfLens([r], id) == if r.entry.identity == id then [r] else []
  {
    assert [r][..0] == [];
  }

  // What one lens contributes: its own review, or nothing.
  ghost predicate Contributes(x: Case, live: seq<InsertedLens>, id: string, own: seq<Raised>) {
    && (forall e | e in live && e.identity == id :: x.review(e).Some? && own == Tagged(e, x.review(e).value))
    && ((forall e | e in live :: e.identity != id) ==> own == [])
  }

  lemma FirstIsAlone(live: seq<InsertedLens>)
    requires OneEach(live) && live != []
    ensures OneEach(live[1..])
    ensures forall e | e in live[1..] :: e.identity != live[0].identity
    ensures forall e :: e in live <==> e == live[0] || e in live[1..]
  {
    var rest := live[1..];
    assert forall i | 0 <= i < |rest| :: live[i + 1] == rest[i];
    assert live == [live[0]] + rest;
  }

  lemma OfReviewedStep(x: Case, live: seq<InsertedLens>, id: string)
    requires live != [] && Reviewed(x, live).1
    ensures x.review(live[0]).Some? && Reviewed(x, live[1..]).1
    ensures OfLens(Reviewed(x, live).0, id)
            == (if live[0].identity == id then Tagged(live[0], x.review(live[0]).value) else [])
               + OfLens(Reviewed(x, live[1..]).0, id)
  {
    hide Tagged, OfLens;
    var findings := x.review(live[0]).value;
    OfLensAppend(Tagged(live[0], findings), Reviewed(x, live[1..]).0, id);
    OfTagged(live[0], findings, id);
  }

  lemma {:induction false} OfReviewed(x: Case, live: seq<InsertedLens>, id: string)
    requires OneEach(live) && Reviewed(x, live).1
    ensures Contributes(x, live, id, OfLens(Reviewed(x, live).0, id))
  {
    if live != [] {
      hide Tagged, OfLens, Reviewed, OneEach;
      FirstIsAlone(live);
      OfReviewedStep(x, live, id);
      OfReviewed(x, live[1..], id);
      ContributesStep(x, live, id, OfLens(Reviewed(x, live[1..]).0, id));
    } else {
      NothingOfLens(id);
    }
  }

  lemma ContributesStep(x: Case, live: seq<InsertedLens>, id: string, own: seq<Raised>)
    requires live != [] && x.review(live[0]).Some? && Contributes(x, live[1..], id, own)
    requires forall e | e in live[1..] :: e.identity != live[0].identity
    requires forall e :: e in live <==> e == live[0] || e in live[1..]
    ensures Contributes(x, live, id,
                        (if live[0].identity == id then Tagged(live[0], x.review(live[0]).value) else []) + own)
  {
    hide Tagged;
    assert [] + own == own;
    if live[0].identity == id {
      assert own == [];
      var tagged := Tagged(live[0], x.review(live[0]).value);
      assert tagged + own == tagged;
    }
  }

  lemma NothingOfLens(id: string)
    ensures OfLens([], id) == []
  {
  }

  lemma {:induction false} LiveIsOneEach(active: seq<InsertedLens>)
    requires OneEach(active)
    ensures OneEach(LiveOf(active))
  {
    if active != [] {
      assert forall i | 0 < i < |active| :: active[1..][i - 1] == active[i];
      LiveIsOneEach(active[1..]);
      forall e | e in LiveOf(active[1..])
        ensures e.identity != active[0].identity
      {
        var i :| 0 <= i < |active[1..]| && active[1..][i] == e;
        assert active[i + 1] == e;
      }
    }
  }

  /** The tier conflicts found on an episode do not depend on the order the lenses were inserted in. */
  lemma InsertionOrderDoesNotMatter(x: Case, a: seq<InsertedLens>, b: seq<InsertedLens>)
    requires OneEach(a) && OneEach(b) && forall e :: e in a <==> e in b
    requires Reviewed(x, LiveOf(a)).1 && Reviewed(x, LiveOf(b)).1
    ensures Conflicts(Reviewed(x, LiveOf(a)).0) == Conflicts(Reviewed(x, LiveOf(b)).0)
  {
    hide Conflicts, OfLens, Reviewed, OneEach;
    LiveIsOneEach(a);
    LiveIsOneEach(b);
    var p, q := Reviewed(x, LiveOf(a)).0, Reviewed(x, LiveOf(b)).0;
    forall id
      ensures OfLens(p, id) == OfLens(q, id)
    {
      OfReviewed(x, LiveOf(a), id);
      OfReviewed(x, LiveOf(b), id);
      if e :| e in LiveOf(a) && e.identity == id {
        assert e in LiveOf(b);
      }
    }
    ConflictsForgetOrder(p, q);
  }
}
