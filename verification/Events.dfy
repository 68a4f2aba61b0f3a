/** Assembling an episode from stamped events: sentinel_os/event_v1.py. */
module Events {
  import opened Json
  import opened Wrappers
  import opened Sequences
  import opened Texts

  datatype Event = Event(
    eventId: string,
    episodeId: string,
    domain: string,
    kind: string,
    occurredAt: real,
    observedAt: real,
    source: string,
    provenance: string,
    fields: Object,
    method': Option<string>,
    detail: Object,
    schemaVersion: int,
    reducerVersion: string)

  const VERIFIED := "verified"
  const ATTESTED := "attested"
  const ESTIMATED := "estimated"

  const PROVENANCE_ATTRIBUTE := "sentinel_provenance"

  /* -------- one event -------- */

  datatype Violation =
    | Blank(name: string)
    | UnknownStamp
    | EstimateWithoutMethod
    | MethodOnObservation
    | SchemaVersion
    | ReducerVersion
    | NotPositive(name: string)

  function MethodText(e: Event): string {
    if e.method'.Some? then e.method'.value else ""
  }

  function If(condition: bool, v: Violation): seq<Violation> {
    if condition then [v] else []
  }

  // validate_event: every violation, in the order it reports them.
  function Violations(e: Event): seq<Violation> {
    If(IsBlank(e.eventId), Blank("event_id")) +
    If(IsBlank(e.episodeId), Blank("episode_id")) +
    If(IsBlank(e.domain), Blank("domain")) +
    If(IsBlank(e.kind), Blank("kind")) +
    If(IsBlank(e.source), Blank("source")) +
    If(e.provenance !in {VERIFIED, ATTESTED, ESTIMATED}, UnknownStamp) +
    If(e.provenance == ESTIMATED && IsBlank(MethodText(e)), EstimateWithoutMethod) +
    If(e.provenance in {VERIFIED, ATTESTED} && MethodText(e) != "", MethodOnObservation) +
    If(e.schemaVersion < 1, SchemaVersion) +
    If(IsBlank(e.reducerVersion), ReducerVersion) +
    If(e.occurredAt <= 0.0, NotPositive("occurred_at")) +
    If(e.observedAt <= 0.0, NotPositive("observed_at"))
  }

  /* -------- the order -------- */

  // The key (occurred_at, event_id) of e is no greater than that of f.
  predicate AtMost(e: Event, f: Event) {
    e.occurredAt < f.occurredAt
    || (e.occurredAt == f.occurredAt && !TextBefore(f.eventId, e.eventId))
  }

  predicate SameKey(e: Event, f: Event) {
    e.occurredAt == f.occurredAt && e.eventId == f.eventId
  }

  // sorted() is stable: an event goes after those already there with its key.
  function Insert(s: seq<Event>, e: Event): seq<Event> {
    if s == [] || AtMost(s[|s| - 1], e) then s + [e]
    else Insert(s[..|s| - 1], e) + [s[|s| - 1]]
  }

  function Sort(events: seq<Event>): seq<Event> {
    if events == [] then []
    else Insert(Sort(events[..|events| - 1]), events[|events| - 1])
  }

  lemma KeysAreOrdered(e: Event, f: Event)
    ensures AtMost(e, f) || AtMost(f, e)
    ensures AtMost(e, f) && AtMost(f, e) <==> SameKey(e, f)
  {
    TextIsTotal(e.eventId, f.eventId);
  }

  lemma KeysAreTransitive(e: Event, f: Event, g: Event)
    requires AtMost(e, f) && AtMost(f, g)
    ensures AtMost(e, g)
  {
    if e.occurredAt == f.occurredAt == g.occurredAt {
      TextIsTransitive(e.eventId, f.eventId, g.eventId);
    }
  }

  ghost predicate Ordered(s: seq<Event>) {
    forall i, j | 0 <= i < j < |s| :: AtMost(s[i], s[j])
  }

  lemma {:induction false} InsertKeepsOrder(s: seq<Event>, e: Event)
    requires Ordered(s)
    ensures Ordered(Insert(s, e))
    ensures multiset(Insert(s, e)) == multiset(s) + multiset{e}
  {
    hide AtMost;
    var n := |s| - 1;
    if s == [] {
    } else if AtMost(s[n], e) {
      forall i | 0 <= i <= n
        ensures AtMost(s[i], e)
      {
        if i < n {
          KeysAreTransitive(s[i], s[n], e);
        }
      }
    } else {
      var front := s[..n];
      assert s == front + [s[n]];
      KeysAreOrdered(s[n], e);
      InsertKeepsOrder(front, e);
      var inserted := Insert(front, e);
      forall i | 0 <= i < |inserted|
        ensures AtMost(inserted[i], s[n])
      {
        assert inserted[i] in multiset(inserted);
        assert inserted[i] == e || inserted[i] in front;
      }
    }
  }

  lemma {:induction false} SortOrders(events: seq<Event>)
    ensures Ordered(Sort(events)) && multiset(Sort(events)) == multiset(events)
  {
    if events != [] {
      hide Ordered, Insert;
      var n := |events| - 1;
      assert events == events[..n] + [events[n]];
      SortOrders(events[..n]);
      InsertKeepsOrder(Sort(events[..n]), events[n]);
    } else {
      assert Ordered(Sort(events));
    }
  }

  // Two events with one key are one event.
  ghost predicate KeysAreUnique(events: multiset<Event>) {
    forall e, f | e in events && f in events && SameKey(e, f) :: e == f
  }

  lemma LastsAgree(s: seq<Event>, t: seq<Event>)
    requires s != [] && t != [] && Ordered(s) && Ordered(t) && multiset(s) == multiset(t)
    requires KeysAreUnique(multiset(s))
    ensures s[|s| - 1] == t[|t| - 1]
  {
    var x, y := s[|s| - 1], t[|t| - 1];
    assert x in multiset(s) && y in multiset(t);
    LastIsGreatest(t, x);
    LastIsGreatest(s, y);
    KeysAreOrdered(x, y);
  }

  lemma Front<T>(s: seq<T>)
    requires s != []
    ensures multiset(s[..|s| - 1]) == multiset(s) - multiset{s[|s| - 1]}
  {
    assert s == s[..|s| - 1] + [s[|s| - 1]];
  }

  lemma WithoutLast<T>(s: seq<T>, t: seq<T>)
    requires s != [] && t != [] && multiset(s) == multiset(t) && s[|s| - 1] == t[|t| - 1]
    ensures multiset(s[..|s| - 1]) == multiset(t[..|t| - 1]) <= multiset(s)
  {
    Front(s);
    Front(t);
  }

  lemma {:induction false} OrderIsUnique(s: seq<Event>, t: seq<Event>)
    requires Ordered(s) && Ordered(t) && multiset(s) == multiset(t) && KeysAreUnique(multiset(s))
    ensures s == t
  {
    hide Ordered, KeysAreUnique;
    SameLength(s, t);
    if s != [] {
      LastsAgree(s, t);
      WithoutLast(s, t);
      FrontIsOrdered(s);
      FrontIsOrdered(t);
      var front, back := s[..|s| - 1], t[..|t| - 1];
      FewerKeys(multiset(s), multiset(front));
      OrderIsUnique(front, back);
      assert s == front + [s[|s| - 1]] && t == back + [t[|t| - 1]];
    }
  }

  lemma FewerKeys(m: multiset<Event>, n: multiset<Event>)
    requires KeysAreUnique(m) && n <= m
    ensures KeysAreUnique(n)
  {
  }

  lemma FrontIsOrdered(s: seq<Event>)
    requires Ordered(s) && s != []
    ensures Ordered(s[..|s| - 1])
  {
  }

  lemma LastIsGreatest(s: seq<Event>, e: Event)
    requires Ordered(s) && e in multiset(s)
    ensures s != [] && AtMost(e, s[|s| - 1])
  {
    var i :| 0 <= i < |s| && s[i] == e;
    KeysAreOrdered(e, e);
  }

  lemma {:induction false} SortedStays(s: seq<Event>)
    requires Ordered(s)
    ensures Sort(s) == s
  {
    if s != [] {
      var n := |s| - 1;
      assert s == s[..n] + [s[n]];
      SortedStays(s[..n]);
    }
  }

  /** The order events are folded in does not depend on the order they arrived in, exactly when any
      two events with one key are the same event. */
  lemma ArrivalOrderIsForgotten(events: seq<Event>)
    ensures KeysAreUnique(multiset(events))
            <==> forall other | multiset(other) == multiset(events) :: Sort(other) == Sort(events)
  {
    hide AtMost, Ordered, SameKey, Sort;
    SortOrders(events);
    var s := Sort(events);
    if KeysAreUnique(multiset(events)) {
      forall other | multiset(other) == multiset(events)
        ensures Sort(other) == s
      {
        SortOrders(other);
        OrderIsUnique(s, Sort(other));
      }
    } else {
      var e, f :| e in multiset(s) && f in multiset(s) && SameKey(e, f) && e != f;
      var i, j := TwoPlaces(s, e, f);
      var swapped := Swapped(s, i, j);
      SwapStaysPut(s, i, j);
      assert swapped[i] != s[i];
    }
  }

  lemma TwoPlaces(s: seq<Event>, e: Event, f: Event) returns (i: nat, j: nat)
    requires e in multiset(s) && f in multiset(s) && e != f
    ensures i < |s| && j < |s| && s[i] == e && s[j] == f && i != j
  {
    i :| 0 <= i < |s| && s[i] == e;
    j :| 0 <= j < |s| && s[j] == f;
  }

  function Swapped(s: seq<Event>, i: nat, j: nat): seq<Event>
    requires i < |s| && j < |s|
  {
    s[i := s[j]][j := s[i]]
  }

  // Two events with one key can trade places, and stay where they are put.
  lemma SwapStaysPut(s: seq<Event>, i: nat, j: nat)
    requires Ordered(s) && i < |s| && j < |s| && SameKey(s[i], s[j])
    ensures var t := Swapped(s, i, j);
            Ordered(t) && multiset(t) == multiset(s) && Sort(t) == t && forall k | 0 <= k < |s| :: SameKey(t[k], s[k])
  {
    hide Ordered, AtMost, Sort;
    KeysDecideOrder(s, Swapped(s, i, j));
    SortedStays(Swapped(s, i, j));
  }

  lemma KeysDecideOrder(s: seq<Event>, t: seq<Event>)
    requires |s| == |t| && Ordered(s) && forall k | 0 <= k < |s| :: SameKey(t[k], s[k])
    ensures Ordered(t)
  {
    hide TextBefore;
    forall a, b | 0 <= a < b < |t|
      ensures AtMost(t[a], t[b])
    {
      assert AtMost(s[a], s[b]);
      assert SameKey(t[a], s[a]) && SameKey(t[b], s[b]);
    }
  }

  /* -------- the fold -------- */

  datatype Moment = Moment(at: real, kind: string, detail: Object)

  datatype Record = Record(
    actual: Object,
    actorReport: Object,
    provenance: map<string, string>,
    timeline: seq<Moment>)

  const NOTHING := Record(map[], map[], map[], [])

  // The stamp that routes a fact away from judgment.
  predicate IsClaim(e: Event) {
    e.provenance == ATTESTED
  }

  function DetailOf(e: Event): Object {
    var detail := e.detail["event_id" := Str(e.eventId)]["source" := Str(e.source)]["provenance" := Str(e.provenance)];
    if MethodText(e) != "" then detail["method" := Str(MethodText(e))] else detail
  }

  function Folded(r: Record, e: Event, origin: real): Record {
    var timeline := r.timeline + [Moment(e.occurredAt - origin, e.kind, DetailOf(e))];
    if IsClaim(e) then r.(actorReport := r.actorReport + e.fields, timeline := timeline)
    else
      r.(actual := r.actual + e.fields,
         provenance := r.provenance + (map name | name in e.fields :: e.provenance),
         timeline := timeline)
  }

  function Fold(ordered: seq<Event>, origin: real): Record {
    if ordered == [] then NOTHING
    else Folded(Fold(ordered[..|ordered| - 1], origin), ordered[|ordered| - 1], origin)
  }

  function Origin(ordered: seq<Event>): real {
    if ordered == [] then 0.0 else ordered[0].occurredAt
  }

  datatype Assembly = Assembly(
    record: Record,
    attributes: Object,
    estimatedFields: set<string>,
    sourceEvents: seq<string>)

  datatype Refusal =
    | Invalid(eventId: string, violations: seq<Violation>)
    | WrongEpisode(eventId: string, mismatched: seq<string>)

  // The first event that does not validate, if any.
  function FirstInvalid(events: seq<Event>): (i: nat)
    ensures i <= |events|
  {
    if events == [] || Violations(events[0]) != [] then 0 else 1 + FirstInvalid(events[1..])
  }

  lemma {:induction false} FirstInvalidIs(events: seq<Event>, i: nat)
    requires i <= |events| && forall j | 0 <= j < i :: Violations(events[j]) == []
    ensures FirstInvalid(events) >= i
    ensures i < |events| && Violations(events[i]) != [] ==> FirstInvalid(events) == i
  {
    hide Violations;
    if i > 0 {
      FirstInvalidIs(events[1..], i - 1);
    }
  }

  function Mismatched(events: seq<Event>, episodeId: string): (r: seq<Event>)
    ensures r == [] <==> forall e | e in events :: e.episodeId == episodeId
    ensures forall e | e in r :: e.episodeId != episodeId && e in events
  {
    if events == [] then []
    else
      var n := |events| - 1;
      assert events == events[..n] + [events[n]];
      Mismatched(events[..n], episodeId) + if events[n].episodeId != episodeId then [events[n]] else []
  }

  function EpisodeIds(events: seq<Event>): seq<string> {
    seq(|events|, i requires 0 <= i < |events| => events[i].episodeId)
  }

  function EventIds(events: seq<Event>): seq<string> {
    seq(|events|, i requires 0 <= i < |events| => events[i].eventId)
  }

  function StampValues(provenance: map<string, string>): Object {
    map name | name in provenance :: Str(provenance[name])
  }

  function EstimatedIn(provenance: map<string, string>): set<string> {
    set name | name in provenance && provenance[name] == ESTIMATED
  }

  // assemble_episode
  function Assembled(episodeId: string, events: seq<Event>, attributes: Object): Result<Assembly, Refusal> {
    var ordered := Sort(events);
    var i := FirstInvalid(ordered);
    if i < |ordered| then Err(Invalid(ordered[i].eventId, Violations(ordered[i])))
    else
      var mismatched := Mismatched(ordered, episodeId);
      if mismatched != [] then Err(WrongEpisode(mismatched[0].eventId, EpisodeIds(mismatched)))
      else
        var r := Fold(ordered, Origin(ordered));
        Ok(Assembly(r, attributes[PROVENANCE_ATTRIBUTE := Obj(StampValues(r.provenance))],
                    EstimatedIn(r.provenance),
                    EventIds(ordered)))
  }

  // The first violation, if any, in key order.
  method Validate(ordered: seq<Event>) returns (refusal: Option<Refusal>)
    ensures var i := FirstInvalid(ordered);
            refusal == if i < |ordered| then Some(Invalid(ordered[i].eventId, Violations(ordered[i]))) else None
  {
    hide Violations;
    for i := 0 to |ordered|
      invariant forall j | 0 <= j < i :: Violations(ordered[j]) == []
    {
      FirstInvalidIs(ordered, i);
      if Violations(ordered[i]) != [] {
        return Some(Invalid(ordered[i].eventId, Violations(ordered[i])));
      }
    }
    FirstInvalidIs(ordered, |ordered|);
    return None;
  }

  method FoldAll(ordered: seq<Event>, origin: real) returns (r: Record)
    ensures r == Fold(ordered, origin)
  {
    hide DetailOf;
    var actual: Object, actorReport: Object := map[], map[];
    var provenance: map<string, string> := map[];
    var timeline: seq<Moment> := [];
    for i := 0 to |ordered|
      invariant Record(actual, actorReport, provenance, timeline) == Fold(ordered[..i], origin)
    {
      var event := ordered[i];
      if IsClaim(event) {
        actorReport := actorReport + event.fields;
      } else {
        actual := actual + event.fields;
        provenance := provenance + map name | name in event.fields :: event.provenance;
      }
      timeline := timeline + [Moment(event.occurredAt - origin, event.kind, DetailOf(event))];
      assert ordered[..i + 1][..i] == ordered[..i];
    }
    assert ordered[..|ordered|] == ordered;
    return Record(actual, actorReport, provenance, timeline);
  }

  method AssembleEpisode(episodeId: string, events: seq<Event>, attributes: Object)
    returns (r: Result<Assembly, Refusal>)
    ensures r == Assembled(episodeId, events, attributes)
  {
    hide Sort, Violations, Fold, FirstInvalid;
    var ordered := Sort(events);
    var refusal := Validate(ordered);
    if refusal.Some? {
      return Err(refusal.value);
    }
    var mismatched := Mismatched(ordered, episodeId);
    if mismatched != [] {
      return Err(WrongEpisode(mismatched[0].eventId, EpisodeIds(mismatched)));
    }
    var folded := FoldAll(ordered, Origin(ordered));
    return Ok(Assembly(folded,
                       attributes[PROVENANCE_ATTRIBUTE := Obj(StampValues(folded.provenance))],
                       EstimatedIn(folded.provenance),
                       EventIds(ordered)));
  }

  /* -------- what assembly means -------- */

  /** One result, or one refusal, for every order in which the same events may arrive. */
  lemma AssemblyForgetsArrival(episodeId: string, events: seq<Event>, other: seq<Event>, attributes: Object)
    requires multiset(events) == multiset(other) && KeysAreUnique(multiset(events))
    ensures Assembled(episodeId, events, attributes) == Assembled(episodeId, other, attributes)
  {
    hide Sort, KeysAreUnique;
    ArrivalOrderIsForgotten(events);
    assert Sort(other) == Sort(events);
  }

  // One arrangement can be made to end as another does, key by key the same.
  lemma EndAs(s: seq<Event>, t: seq<Event>) returns (u: seq<Event>)
    requires s != [] && Ordered(s) && Ordered(t) && multiset(s) == multiset(t)
    ensures |s| == |t| == |u| && Ordered(u) && multiset(u) == multiset(s) && u[|u| - 1] == s[|s| - 1]
    ensures forall k | 0 <= k < |t| :: SameKey(u[k], t[k])
  {
    SameLength(s, t);
    var n := |s| - 1;
    assert s[n] in multiset(t) && t[n] in multiset(s);
    LastIsGreatest(t, s[n]);
    LastIsGreatest(s, t[n]);
    KeysAreOrdered(s[n], t[n]);
    var j :| 0 <= j < |t| && t[j] == s[n];
    hide Ordered, AtMost, Sort;
    SwapStaysPut(t, j, n);
    u := Swapped(t, j, n);
  }

  // Two arrangements of the same events in key order show the same key at every place.
  lemma {:induction false} KeysAgree(s: seq<Event>, t: seq<Event>)
    requires Ordered(s) && Ordered(t) && multiset(s) == multiset(t)
    ensures |s| == |t| && forall k | 0 <= k < |s| :: SameKey(s[k], t[k])
    decreases |s|
  {
    hide Ordered, AtMost, Sort;
    SameLength(s, t);
    if s != [] {
      var n := |s| - 1;
      var u := EndAs(s, t);
      WithoutLast(s, u);
      FrontIsOrdered(s);
      FrontIsOrdered(u);
      KeysAgree(s[..n], u[..n]);
      forall k | 0 <= k < n
        ensures SameKey(s[k], t[k])
      {
        assert s[..n][k] == s[k] && u[..n][k] == u[k];
        assert SameKey(s[..n][k], u[..n][k]);
      }
    }
  }

  // e is the last in key order to write the field, among claims or among facts.
  ghost predicate LastWriter(events: seq<Event>, claims: bool, name: string, e: Event) {
    && e in events && IsClaim(e) == claims && name in e.fields
    && forall f | f in events && IsClaim(f) == claims && name in f.fields :: AtMost(f, e)
  }

  ghost predicate Written(events: seq<Event>, claims: bool, name: string) {
    exists e :: e in events && IsClaim(e) == claims && name in e.fields
  }

  // Where facts, or claims, land.
  function Target(r: Record, claims: bool): Object {
    if claims then r.actorReport else r.actual
  }

  // What folding one event in does to one field.
  lemma FoldedField(r: Record, e: Event, origin: real, claims: bool, name: string)
    requires r.provenance.Keys == r.actual.Keys
    ensures var t, writes := Folded(r, e, origin), IsClaim(e) == claims && name in e.fields;
            && t.provenance.Keys == t.actual.Keys
            && (name in Target(t, claims) <==> writes || name in Target(r, claims))
            && (name in Target(t, claims) ==>
                  Target(t, claims)[name] == if writes then e.fields[name] else Target(r, claims)[name])
            && (!claims && name in t.provenance ==>
                  t.provenance[name] == if writes then e.provenance else r.provenance[name])
  {
    hide DetailOf;
  }

  lemma {:induction false} FoldKeepsLast(ordered: seq<Event>, origin: real, claims: bool, name: string)
    requires Ordered(ordered)
    ensures var r := Fold(ordered, origin);
            && r.provenance.Keys == r.actual.Keys
            && (name in Target(r, claims) <==> Written(ordered, claims, name))
            && (name in Target(r, claims) ==>
                  exists e :: LastWriter(ordered, claims, name, e)
                              && Target(r, claims)[name] == e.fields[name]
                              && (!claims ==> r.provenance[name] == e.provenance))
  {
    hide AtMost, Folded, IsClaim;
    if ordered != [] {
      var n := |ordered| - 1;
      var front, e := ordered[..n], ordered[n];
      assert ordered == front + [e];
      assert forall x :: x in ordered <==> x in front || x == e;
      FoldKeepsLast(front, origin, claims, name);
      LastIsLast(ordered);
      var before := Fold(front, origin);
      FoldedField(before, e, origin, claims, name);
      if name in e.fields && IsClaim(e) == claims {
        assert LastWriter(ordered, claims, name, e);
      } else if name in Target(before, claims) {
        var w :| LastWriter(front, claims, name, w) && Target(before, claims)[name] == w.fields[name]
                 && (!claims ==> before.provenance[name] == w.provenance);
        assert LastWriter(ordered, claims, name, w);
      }
    }
  }

  lemma LastIsLast(s: seq<Event>)
    requires Ordered(s) && s != []
    ensures forall e | e in s :: AtMost(e, s[|s| - 1])
  {
    forall e | e in s
      ensures AtMost(e, s[|s| - 1])
    {
      LastIsGreatest(s, e);
    }
  }

  /** Each judged field holds the value and the stamp of the greatest-key fact that wrote it, each
      reported field the value of the greatest-key claim that did, and no other field is there: a
      claim never touches what is judged. */
  lemma FieldsHoldTheLastWriter(episodeId: string, events: seq<Event>, attributes: Object, claims: bool, name: string)
    requires Assembled(episodeId, events, attributes).Ok?
    ensures var r := Assembled(episodeId, events, attributes).value.record;
            && r.provenance.Keys == r.actual.Keys
            && (name in Target(r, claims) <==> Written(events, claims, name))
            && (name in Target(r, claims) ==>
                  exists e :: LastWriter(events, claims, name, e)
                              && Target(r, claims)[name] == e.fields[name]
                              && (!claims ==> r.provenance[name] == e.provenance))
  {
    hide Sort, Fold, AtMost, Ordered, Violations;
    SortOrders(events);
    var ordered := Sort(events);
    FoldKeepsLast(ordered, Origin(ordered), claims, name);
    SameMembers(events, ordered);
    var r := Fold(ordered, Origin(ordered));
    if name in Target(r, claims) {
      var e :| LastWriter(ordered, claims, name, e) && Target(r, claims)[name] == e.fields[name]
               && (!claims ==> r.provenance[name] == e.provenance);
      assert LastWriter(events, claims, name, e);
    }
  }

  /* -------- claims -------- */

  function Facts(events: seq<Event>): seq<Event> {
    if events == [] then []
    else Facts(events[..|events| - 1]) + if IsClaim(events[|events| - 1]) then [] else [events[|events| - 1]]
  }

  lemma FactsSnoc(s: seq<Event>, e: Event)
    ensures Facts(s + [e]) == Facts(s) + if IsClaim(e) then [] else [e]
  {
    assert (s + [e])[..|s|] == s;
  }

  lemma {:induction false} ClaimIsNoFact(s: seq<Event>, claim: Event)
    requires IsClaim(claim)
    ensures Facts(Insert(s, claim)) == Facts(s)
  {
    hide AtMost, Facts;
    if s == [] || AtMost(s[|s| - 1], claim) {
      FactsSnoc(s, claim);
    } else {
      var front, last := s[..|s| - 1], s[|s| - 1];
      assert s == front + [last];
      ClaimIsNoFact(front, claim);
      FactsSnoc(Insert(front, claim), last);
      FactsSnoc(front, last);
    }
  }

  ghost predicate SameFacts(r: Record, q: Record) {
    r.actual == q.actual && r.provenance == q.provenance
  }

  lemma FoldedFacts(r: Record, q: Record, e: Event, origin: real, other: real)
    requires SameFacts(r, q)
    ensures SameFacts(Folded(r, e, origin), if IsClaim(e) then q else Folded(q, e, other))
  {
    hide DetailOf;
  }

  lemma FoldSnoc(front: seq<Event>, last: Event, origin: real)
    ensures Fold(front + [last], origin) == Folded(Fold(front, origin), last, origin)
  {
    assert (front + [last])[..|front|] == front;
  }

  lemma {:induction false} FoldsFacts(ordered: seq<Event>, origin: real, other: real)
    ensures SameFacts(Fold(ordered, origin), Fold(Facts(ordered), other))
  {
    if ordered != [] {
      hide Fold, Folded, Facts, SameFacts;
      var front, last := ordered[..|ordered| - 1], ordered[|ordered| - 1];
      assert ordered == front + [last];
      FoldsFacts(front, origin, other);
      FoldSnoc(front, last, origin);
      FactsSnoc(front, last);
      FoldedFacts(Fold(front, origin), Fold(Facts(front), other), last, origin, other);
      if IsClaim(last) {
        assert Facts(ordered) == Facts(front);
      } else {
        FoldSnoc(Facts(front), last, other);
      }
    }
  }

  /** One more attested event, whatever it says and whenever it happened, changes neither what is
      judged nor the stamps on it. */
  lemma ClaimsNeverReachJudgment(episodeId: string, events: seq<Event>, claim: Event, attributes: Object)
    requires IsClaim(claim)
    requires Assembled(episodeId, events, attributes).Ok? && Assembled(episodeId, events + [claim], attributes).Ok?
    ensures var r, s :=
            Assembled(episodeId, events, attributes).value, Assembled(episodeId, events + [claim], attributes).value;
            && s.record.actual == r.record.actual && s.record.provenance == r.record.provenance
            && s.attributes == r.attributes && s.estimatedFields == r.estimatedFields
  {
    hide Fold, Insert, Violations;
    assert (events + [claim])[..|events|] == events;
    var ordered, more := Sort(events), Sort(events + [claim]);
    ClaimIsNoFact(ordered, claim);
    FoldsFacts(ordered, Origin(ordered), 0.0);
    FoldsFacts(more, Origin(more), 0.0);
  }

  /* -------- the timeline -------- */

  lemma {:induction false} FoldTimeline(ordered: seq<Event>, origin: real)
    ensures var timeline := Fold(ordered, origin).timeline;
            && |timeline| == |ordered|
            && forall i | 0 <= i < |ordered| ::
                 timeline[i].at == ordered[i].occurredAt - origin && timeline[i].kind == ordered[i].kind
                 && timeline[i].detail == DetailOf(ordered[i])
  {
    if ordered != [] {
      hide DetailOf;
      FoldTimeline(ordered[..|ordered| - 1], origin);
    }
  }

  /** The timeline has one moment per event, starts at zero and never goes back; it names every
      event, in the order of sourceEvents. */
  lemma TimelineRunsForward(episodeId: string, events: seq<Event>, attributes: Object)
    requires Assembled(episodeId, events, attributes).Ok?
    ensures var r := Assembled(episodeId, events, attributes).value;
            var timeline := r.record.timeline;
            && |timeline| == |events| == |r.sourceEvents|
            && (events != [] ==> timeline[0].at == 0.0)
            && (forall i, j | 0 <= i < j < |timeline| :: timeline[i].at <= timeline[j].at)
            && (forall i | 0 <= i < |timeline| :: EventNamed(timeline[i].detail, r.sourceEvents[i]))
            && forall e | e in events :: e.eventId in r.sourceEvents
  {
    hide Sort, Fold, Violations, DetailOf, EventNamed, AtMost, StampValues, EstimatedIn, Mismatched;
    var ordered := Sort(events);
    SortOrders(events);
    assert forall i, j | 0 <= i < j < |ordered| :: ordered[i].occurredAt <= ordered[j].occurredAt by {
      TimesAscend(ordered);
    }
    hide Ordered;
    assert |ordered| == |multiset(ordered)| == |multiset(events)| == |events|;
    FoldTimeline(ordered, Origin(ordered));
    SameMembers(events, ordered);
    forall e | e in ordered
      ensures e.eventId in EventIds(ordered)
    {
      var i :| 0 <= i < |ordered| && ordered[i] == e;
      assert EventIds(ordered)[i] == e.eventId;
    }
    forall i | 0 <= i < |ordered|
      ensures EventNamed(DetailOf(ordered[i]), ordered[i].eventId)
    {
      DetailNamesEvent(ordered[i]);
    }
  }

  lemma TimesAscend(s: seq<Event>)
    requires Ordered(s)
    ensures forall i, j | 0 <= i < j < |s| :: s[i].occurredAt <= s[j].occurredAt
  {
    forall i, j | 0 <= i < j < |s|
      ensures s[i].occurredAt <= s[j].occurredAt
    {
      assert AtMost(s[i], s[j]);
    }
  }

  predicate EventNamed(detail: Object, eventId: string) {
    Get(detail, "event_id") == Str(eventId)
  }

  lemma DetailNamesEvent(e: Event)
    ensures EventNamed(DetailOf(e), e.eventId)
  {
  }

  /* -------- when arrival does not matter -------- */

  lemma {:induction false} AllValid(s: seq<Event>)
    ensures FirstInvalid(s) == |s| <==> forall e | e in s :: Violations(e) == []
  {
    hide Violations;
    if s != [] {
      AllValid(s[1..]);
      assert s == [s[0]] + s[1..];
    }
  }

  /** Whether the events are refused does not depend on the order they arrive in: they are accepted
      exactly when each is valid and of this episode. */
  lemma AcceptedExactly(episodeId: string, events: seq<Event>, attributes: Object)
    ensures Assembled(episodeId, events, attributes).Ok?
            <==> forall e | e in events :: Violations(e) == [] && e.episodeId == episodeId
  {
    hide Sort, Violations, Fold, FirstInvalid, Ordered;
    SortOrders(events);
    SameMembers(events, Sort(events));
    AllValid(Sort(events));
  }

  // Any two events with one key leave the same moment.
  ghost predicate OneMomentEach(events: seq<Event>) {
    forall e, f | e in events && f in events && SameKey(e, f) :: e.kind == f.kind && DetailOf(e) == DetailOf(f)
  }

  // All the last writers of a field, among claims or among facts, hold one value.
  ghost predicate OneValueEach(events: seq<Event>) {
    forall claims, name, e, f | LastWriter(events, claims, name, e) && LastWriter(events, claims, name, f) ::
      e.fields[name] == f.fields[name]
  }

  // What assembly makes of accepted events, once in order.
  function AssembledFrom(ordered: seq<Event>, attributes: Object): Assembly {
    var r := Fold(ordered, Origin(ordered));
    Assembly(r, attributes[PROVENANCE_ATTRIBUTE := Obj(StampValues(r.provenance))],
                EstimatedIn(r.provenance), EventIds(ordered))
  }

  predicate Writes(e: Event, claims: bool, name: string) {
    IsClaim(e) == claims && name in e.fields
  }

  // The last place where a field is written.
  ghost predicate LastPlace(s: seq<Event>, claims: bool, name: string, k: nat) {
    && k < |s| && Writes(s[k], claims, name)
    && forall j | k < j < |s| :: !Writes(s[j], claims, name)
  }

  lemma {:induction false} LastPlaceExists(s: seq<Event>, claims: bool, name: string) returns (k: nat)
    requires Written(s, claims, name)
    ensures LastPlace(s, claims, name, k)
  {
    var n := |s| - 1;
    assert s == s[..n] + [s[n]];
    if Writes(s[n], claims, name) {
      k := n;
    } else {
      k := LastPlaceExists(s[..n], claims, name);
    }
  }

  lemma {:induction false} LastPlaceDecides(s: seq<Event>, origin: real, claims: bool, name: string, k: nat)
    requires LastPlace(s, claims, name, k)
    ensures var r := Fold(s, origin);
            && name in Target(r, claims) && Target(r, claims)[name] == s[k].fields[name]
            && (!claims ==> name in r.provenance && r.provenance[name] == s[k].provenance)
  {
    hide Folded, IsClaim;
    var n := |s| - 1;
    StampedFields(s[..n], origin);
    FoldedField(Fold(s[..n], origin), s[n], origin, claims, name);
    if k < n {
      LastPlaceDecides(s[..n], origin, claims, name, k);
    }
  }

  lemma {:induction false} StampedFields(s: seq<Event>, origin: real)
    ensures Fold(s, origin).provenance.Keys == Fold(s, origin).actual.Keys
  {
    if s != [] {
      hide DetailOf;
      StampedFields(s[..|s| - 1], origin);
    }
  }

  lemma SameStamp(e: Event, f: Event)
    requires DetailOf(e) == DetailOf(f)
    ensures e.provenance == f.provenance
  {
    assert DetailOf(e)["provenance"] == Str(e.provenance) && DetailOf(f)["provenance"] == Str(f.provenance);
  }

  // In a field, two arrangements of the same events agree.
  lemma SameField(s: seq<Event>, t: seq<Event>, origin: real, claims: bool, name: string)
    requires Ordered(s) && Ordered(t) && multiset(s) == multiset(t) && OneMomentEach(s) && OneValueEach(s)
    ensures var p, q := Fold(s, origin), Fold(t, origin);
            && (name in Target(p, claims) <==> name in Target(q, claims))
            && (name in Target(p, claims) ==>
                  && Target(p, claims)[name] == Target(q, claims)[name]
                  && (!claims ==>
                        && name in p.provenance && name in q.provenance
                        && p.provenance[name] == q.provenance[name]))
  {
    hide Fold, AtMost, Ordered, OneMomentEach, OneValueEach, DetailOf, LastWriter;
    FoldKeepsLast(s, origin, claims, name);
    FoldKeepsLast(t, origin, claims, name);
    SameMembers(s, t);
    if name in Target(Fold(s, origin), claims) {
      var e := WriterOf(s, origin, claims, name);
      var f := WriterOf(t, origin, claims, name);
      SameWriters(s, t, claims, name, f);
      WritersShareKey(s, claims, name, e, f);
      OneValue(s, claims, name, e, f);
      OneMoment(s, e, f);
      SameStamp(e, f);
    }
  }

  lemma WriterOf(s: seq<Event>, origin: real, claims: bool, name: string) returns (e: Event)
    requires Ordered(s) && name in Target(Fold(s, origin), claims)
    ensures LastWriter(s, claims, name, e) && name in e.fields
    ensures Target(Fold(s, origin), claims)[name] == e.fields[name]
    ensures !claims ==> name in Fold(s, origin).provenance && Fold(s, origin).provenance[name] == e.provenance
  {
    hide Fold, AtMost, Ordered;
    FoldKeepsLast(s, origin, claims, name);
    var r := Fold(s, origin);
    e :| LastWriter(s, claims, name, e) && Target(r, claims)[name] == e.fields[name]
         && (!claims ==> r.provenance[name] == e.provenance);
  }

  lemma SameWriters(s: seq<Event>, t: seq<Event>, claims: bool, name: string, e: Event)
    requires forall x :: x in s <==> x in t
    requires LastWriter(t, claims, name, e)
    ensures LastWriter(s, claims, name, e)
  {
  }

  lemma WritersShareKey(s: seq<Event>, claims: bool, name: string, e: Event, f: Event)
    requires LastWriter(s, claims, name, e) && LastWriter(s, claims, name, f)
    ensures e in s && f in s && SameKey(e, f)
  {
    KeysAreOrdered(e, f);
  }

  lemma OneValue(s: seq<Event>, claims: bool, name: string, e: Event, f: Event)
    requires OneValueEach(s) && LastWriter(s, claims, name, e) && LastWriter(s, claims, name, f)
    ensures e.fields[name] == f.fields[name]
  {
  }

  lemma OneMoment(s: seq<Event>, e: Event, f: Event)
    requires OneMomentEach(s) && e in s && f in s && SameKey(e, f)
    ensures e.kind == f.kind && DetailOf(e) == DetailOf(f)
  {
  }

  lemma SameTimeline(s: seq<Event>, t: seq<Event>)
    requires Ordered(s) && Ordered(t) && multiset(s) == multiset(t) && OneMomentEach(s)
    ensures Origin(s) == Origin(t) && EventIds(s) == EventIds(t)
    ensures Fold(s, Origin(s)).timeline == Fold(t, Origin(s)).timeline
  {
    hide Fold, AtMost, Ordered, OneMomentEach, DetailOf;
    KeysAgree(s, t);
    SameMembers(s, t);
    FoldTimeline(s, Origin(s));
    FoldTimeline(t, Origin(s));
    forall k | 0 <= k < |s|
      ensures s[k].kind == t[k].kind && DetailOf(s[k]) == DetailOf(t[k])
    {
      OneMoment(s, s[k], t[k]);
    }
  }

  lemma SameRecord(s: seq<Event>, t: seq<Event>, attributes: Object)
    requires Ordered(s) && Ordered(t) && multiset(s) == multiset(t) && OneMomentEach(s) && OneValueEach(s)
    ensures AssembledFrom(s, attributes) == AssembledFrom(t, attributes)
  {
    hide Fold, Ordered, OneMomentEach, OneValueEach;
    SameTimeline(s, t);
    var origin := Origin(s);
    StampedFields(s, origin);
    StampedFields(t, origin);
    var p, q := Fold(s, origin), Fold(t, origin);
    forall name
      ensures name in p.actual <==> name in q.actual
      ensures name in p.actual ==> p.actual[name] == q.actual[name] && p.provenance[name] == q.provenance[name]
      ensures name in p.actorReport <==> name in q.actorReport
      ensures name in p.actorReport ==> p.actorReport[name] == q.actorReport[name]
    {
      SameField(s, t, origin, false, name);
      SameField(s, t, origin, true, name);
    }
    assert p.actual == q.actual && p.actorReport == q.actorReport && p.provenance == q.provenance;
  }

  // Two events with one key and different moments make two arrangements differ.
  lemma MomentsDiffer(s: seq<Event>, e: Event, f: Event, attributes: Object) returns (t: seq<Event>)
    requires Ordered(s) && e in s && f in s && SameKey(e, f)
    requires e.kind != f.kind || DetailOf(e) != DetailOf(f)
    ensures multiset(t) == multiset(s) && Sort(t) == t && AssembledFrom(t, attributes) != AssembledFrom(s, attributes)
  {
    hide Fold, AtMost, Ordered, Sort, DetailOf;
    var i, j := TwoPlaces(s, e, f);
    t := Swapped(s, i, j);
    SwapStaysPut(s, i, j);
    FoldTimeline(s, Origin(s));
    FoldTimeline(t, Origin(t));
    assert t[i] == f;
  }

  // So do two last writers of a field with different values.
  lemma ValuesDiffer(s: seq<Event>, claims: bool, name: string, e: Event, f: Event, attributes: Object)
    returns (t: seq<Event>)
    requires Ordered(s) && LastWriter(s, claims, name, e) && LastWriter(s, claims, name, f)
    requires e.fields[name] != f.fields[name]
    ensures multiset(t) == multiset(s) && Sort(t) == t && AssembledFrom(t, attributes) != AssembledFrom(s, attributes)
  {
    var k := LastPlaceExists(s, claims, name);
    var x := if e.fields[name] != s[k].fields[name] then e else f;
    hide AtMost, Ordered;
    assert Writes(x, claims, name) && LastWriter(s, claims, name, x);
    hide LastWriter;
    t := PutLast(s, claims, name, x, k, attributes);
  }

  lemma PutLast(s: seq<Event>, claims: bool, name: string, x: Event, k: nat, attributes: Object)
    returns (t: seq<Event>)
    requires Ordered(s) && LastWriter(s, claims, name, x) && Writes(x, claims, name)
    requires LastPlace(s, claims, name, k) && x.fields[name] != s[k].fields[name]
    ensures multiset(t) == multiset(s) && Sort(t) == t && AssembledFrom(t, attributes) != AssembledFrom(s, attributes)
  {
    hide Fold, AtMost, Ordered, Sort, LastWriter, IsClaim;
    var i := BeforeLastPlace(s, claims, name, x, k);
    t := Swapped(s, i, k);
    SwapStaysPut(s, i, k);
    assert t[k] == x && forall j | k < j < |s| :: t[j] == s[j];
    assert LastPlace(t, claims, name, k);
    hide LastPlace, Swapped;
    LastPlaceDecides(s, Origin(s), claims, name, k);
    LastPlaceDecides(t, Origin(t), claims, name, k);
    assert Target(Fold(s, Origin(s)), claims) != Target(Fold(t, Origin(t)), claims);
  }

  lemma BeforeLastPlace(s: seq<Event>, claims: bool, name: string, x: Event, k: nat) returns (i: nat)
    requires Ordered(s) && LastWriter(s, claims, name, x) && LastPlace(s, claims, name, k)
    ensures i <= k && s[i] == x && SameKey(x, s[k])
  {
    i :| 0 <= i < |s| && s[i] == x;
    assert s[k] in s && i <= k;
    KeysAreOrdered(x, s[k]);
    KeysAreOrdered(x, x);
  }

  lemma SameConditions(s: seq<Event>, t: seq<Event>)
    requires forall e :: e in s <==> e in t
    ensures OneMomentEach(s) <==> OneMomentEach(t)
    ensures OneValueEach(s) <==> OneValueEach(t)
  {
    hide DetailOf, AtMost;
    forall claims, name, e
      ensures LastWriter(s, claims, name, e) <==> LastWriter(t, claims, name, e)
    {
    }
    hide LastWriter;
  }

  /** The episode assembled from accepted events is the same for every order of arrival exactly when
      any two events with one key leave the same moment, and all the last writers of each field, among
      facts and among claims, hold one value. Events that differ elsewhere may share a key. */
  lemma ResultForgetsArrivalExactly(episodeId: string, events: seq<Event>, attributes: Object)
    requires Assembled(episodeId, events, attributes).Ok?
    ensures (forall other | multiset(other) == multiset(events) ::
               Assembled(episodeId, other, attributes) == Assembled(episodeId, events, attributes))
            <==> OneMomentEach(events) && OneValueEach(events)
  {
    hide Sort, Ordered, OneMomentEach, OneValueEach, AssembledFrom;
    var s := Sort(events);
    SortOrders(events);
    SameMembers(events, s);
    SameConditions(events, s);
    forall other | multiset(other) == multiset(events)
      ensures Assembled(episodeId, other, attributes) == Ok(AssembledFrom(Sort(other), attributes))
      ensures OneMomentEach(s) && OneValueEach(s) ==>
                AssembledFrom(Sort(other), attributes) == AssembledFrom(s, attributes)
    {
      AcceptedAs(episodeId, events, other, attributes);
      SortOrders(other);
      if OneMomentEach(s) && OneValueEach(s) {
        SameRecord(s, Sort(other), attributes);
      }
    }
    if !OneMomentEach(s) || !OneValueEach(s) {
      var t := ArrangementsDiffer(s, attributes);
      assert Assembled(episodeId, t, attributes) != Assembled(episodeId, events, attributes);
    }
  }

  lemma AcceptedAs(episodeId: string, events: seq<Event>, other: seq<Event>, attributes: Object)
    requires Assembled(episodeId, events, attributes).Ok? && multiset(other) == multiset(events)
    ensures Assembled(episodeId, other, attributes) == Ok(AssembledFrom(Sort(other), attributes))
  {
    hide Violations, Sort, FirstInvalid, Fold;
    AcceptedExactly(episodeId, events, attributes);
    AcceptedExactly(episodeId, other, attributes);
    SameMembers(events, other);
  }

  lemma ArrangementsDiffer(s: seq<Event>, attributes: Object) returns (t: seq<Event>)
    requires Ordered(s) && (!OneMomentEach(s) || !OneValueEach(s))
    ensures multiset(t) == multiset(s) && Sort(t) == t && AssembledFrom(t, attributes) != AssembledFrom(s, attributes)
  {
    hide Sort, AssembledFrom, DetailOf, LastWriter;
    if !OneMomentEach(s) {
      var e, f :| e in s && f in s && SameKey(e, f) && (e.kind != f.kind || DetailOf(e) != DetailOf(f));
      t := MomentsDiffer(s, e, f, attributes);
    } else {
      assert exists claims, name, e, f :: LastWriter(s, claims, name, e) && LastWriter(s, claims, name, f)
                                          && DifferOn(e, f, name);
      var claims, name, e, f :|
        LastWriter(s, claims, name, e) && LastWriter(s, claims, name, f) && DifferOn(e, f, name);
      Wrote(s, claims, name, e);
      Wrote(s, claims, name, f);
      t := ValuesDiffer(s, claims, name, e, f, attributes);
    }
  }

  predicate DifferOn(e: Event, f: Event, name: string) {
    name in e.fields && name in f.fields ==> e.fields[name] != f.fields[name]
  }

  lemma Wrote(s: seq<Event>, claims: bool, name: string, e: Event)
    requires LastWriter(s, claims, name, e)
    ensures name in e.fields
  {
  }
}
