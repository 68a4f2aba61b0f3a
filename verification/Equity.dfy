/** The four-fifths screens of sentinel_os/regulatory_checks.py, in exact arithmetic
    (29 CFR 1607.4(D)). */
module Equity {
  import opened Sequences
  import opened Texts

  const MIN_COHORT_SIZE := 30
  const MIN_OBSERVATIONS_PER_GROUP := 5
  const MIN_WEIGHT := 1.0
  const FOUR_FIFTHS := 0.8

  // A decision and the estimate of its group: group to probability.
  datatype CohortDecision = CohortDecision(subject: string, favorable: bool, distribution: map<string, real>)

  // A decision and where the property is; an unknown place is the empty text.
  datatype GeographicDecision = GeographicDecision(subject: string, favorable: bool, zip: string, county: string)

  datatype Screen = IndeterminateCohort | IndeterminateCoverage | Screened(flagged: seq<string>)

  /* -------- the rule -------- */

  // What a group's favourable outcomes and observations come to.
  datatype Tally = Tally(fav: real, tot: real)

  type Tallies = map<string, Tally>

  ghost predicate IsTally(t: Tally) {
    0.0 <= t.fav && 0.0 < t.tot
  }

  // The rate of g is less than four fifths of the rate of h.
  predicate Under(g: Tally, h: Tally) {
    5.0 * g.fav * h.tot < 4.0 * h.fav * g.tot
  }

  // Asked only of groups with observations.
  function RateOf(t: Tally): real {
    if t.tot == 0.0 then 0.0 else t.fav / t.tot
  }

  predicate IsFlagged(tallies: Tallies, group: string) {
    group in tallies && exists h | h in tallies :: Under(tallies[group], tallies[h])
  }

  lemma Scale(a: real, b: real, m: real)
    requires m > 0.0
    ensures a < b <==> a * m < b * m
  {
  }

  lemma RateTimes(t: Tally)
    requires IsTally(t)
    ensures RateOf(t) * t.tot == t.fav && RateOf(t) >= 0.0
  {
  }

  // Comparing rates is comparing cross products.
  lemma UnderIsByRate(g: Tally, h: Tally)
    requires IsTally(g) && IsTally(h)
    ensures Under(g, h) <==> 5.0 * RateOf(g) < 4.0 * RateOf(h)
  {
    RateTimes(g);
    RateTimes(h);
    var a, b, m := RateOf(g), RateOf(h), g.tot * h.tot;
    Scale(0.0, g.tot, h.tot);
    Scale(5.0 * a, 4.0 * b, m);
    assert 5.0 * a * m == 5.0 * (a * g.tot) * h.tot;
    assert 4.0 * b * m == 4.0 * (b * h.tot) * g.tot;
  }

  lemma RatioIsBelow(a: real, b: real)
    requires b > 0.0
    ensures a / b < FOUR_FIFTHS <==> 5.0 * a < 4.0 * b
  {
    assert a / b * b == a;
    Scale(a / b, FOUR_FIFTHS, b);
  }

  // max(rates.values()), and a group that has it.
  method HighestRate(tallies: Tallies, groups: seq<string>) returns (highest: real, ghost best: string)
    requires groups != [] && forall g | g in groups :: g in tallies
    ensures best in tallies && highest == RateOf(tallies[best])
    ensures forall g | g in groups :: RateOf(tallies[g]) <= highest
  {
    hide RateOf;
    highest, best := RateOf(tallies[groups[0]]), groups[0];
    for i := 1 to |groups|
      invariant best in tallies && highest == RateOf(tallies[best])
      invariant forall j | 0 <= j < i :: RateOf(tallies[groups[j]]) <= highest
    {
      if RateOf(tallies[groups[i]]) > highest {
        highest, best := RateOf(tallies[groups[i]]), groups[i];
      }
    }
  }

  method FlagBelow(tallies: Tallies, groups: seq<string>, highest: real) returns (flagged: seq<string>)
    requires highest > 0.0 && Ascends(groups) && forall g | g in groups :: g in tallies
    ensures forall g :: g in flagged <==> g in groups && 5.0 * RateOf(tallies[g]) < 4.0 * highest
    ensures Ascends(flagged)
  {
    hide RateOf, TextBefore;
    flagged := [];
    for i := 0 to |groups|
      invariant forall g :: g in flagged <==> g in groups[..i] && 5.0 * RateOf(tallies[g]) < 4.0 * highest
      invariant Ascends(flagged)
    {
      var rate := RateOf(tallies[groups[i]]);
      RatioIsBelow(rate, highest);
      assert groups[..i + 1] == groups[..i] + [groups[i]];
      assert forall g | g in groups[..i] :: TextBefore(g, groups[i]);
      if rate / highest < FOUR_FIFTHS {
        flagged := flagged + [groups[i]];
      }
    }
    assert groups[..|groups|] == groups;
  }

  // The rates, their highest, and each ratio to it.
  method FlagGroups(tallies: Tallies) returns (flagged: seq<string>)
    requires forall g | g in tallies :: IsTally(tallies[g])
    ensures forall g :: g in flagged <==> IsFlagged(tallies, g)
    ensures Ascends(flagged)
  {
    hide RateOf, Under, IsFlagged, Sorted, IsTally;
    flagged := [];
    if tallies == map[] {
      NoneFlagged();
      return;
    }
    var groups := Sorted(tallies.Keys);
    SortedAscends(tallies.Keys);
    hide TextBefore;
    assert forall g :: g in groups <==> g in tallies;
    var highest, best := HighestRate(tallies, groups);
    FlaggedByHighest(tallies, best);
    RatesAreNatural(tallies);
    if highest > 0.0 {
      flagged := FlagBelow(tallies, groups, highest);
    }
    forall g
      ensures g in flagged <==> IsFlagged(tallies, g)
    {
      OnlyTallied(tallies, g);
    }
  }

  lemma RatesAreNatural(tallies: Tallies)
    requires forall g | g in tallies :: IsTally(tallies[g])
    ensures forall g | g in tallies :: RateOf(tallies[g]) >= 0.0
  {
    hide RateOf;
    forall g | g in tallies
      ensures RateOf(tallies[g]) >= 0.0
    {
      RateTimes(tallies[g]);
    }
  }

  lemma NoneFlagged()
    ensures forall g :: !IsFlagged(map[], g)
  {
  }

  lemma OnlyTallied(tallies: Tallies, g: string)
    ensures IsFlagged(tallies, g) ==> g in tallies
  {
  }

  // Being under some group is being under the highest.
  lemma FlaggedByHighest(tallies: Tallies, best: string)
    requires forall g | g in tallies :: IsTally(tallies[g])
    requires best in tallies && forall g | g in tallies :: RateOf(tallies[g]) <= RateOf(tallies[best])
    ensures forall g | g in tallies :: IsFlagged(tallies, g) <==> 5.0 * RateOf(tallies[g]) < 4.0 * RateOf(tallies[best])
  {
    hide Under, RateOf;
    forall g | g in tallies
      ensures IsFlagged(tallies, g) <==> 5.0 * RateOf(tallies[g]) < 4.0 * RateOf(tallies[best])
    {
      UnderIsByRate(tallies[g], tallies[best]);
      if h :| h in tallies && Under(tallies[g], tallies[h]) {
        UnderIsByRate(tallies[g], tallies[h]);
      }
    }
  }

  /** A group no other group does better than is never flagged, so the screen never flags everyone. */
  lemma BestIsNeverFlagged(tallies: Tallies, best: string)
    requires forall g | g in tallies :: IsTally(tallies[g])
    requires best in tallies && forall g | g in tallies :: RateOf(tallies[g]) <= RateOf(tallies[best])
    ensures !IsFlagged(tallies, best)
  {
    hide RateOf, Under;
    FlaggedByHighest(tallies, best);
    RateTimes(tallies[best]);
  }

  /* -------- weighing a cohort -------- */

  function At(m: map<string, real>, g: string): real {
    if g in m then m[g] else 0.0
  }

  function Weight(d: CohortDecision, g: string): real {
    var p := At(d.distribution, g);
    if p > 0.0 then p else 0.0
  }

  function Positive(d: CohortDecision): set<string> {
    set g | g in d.distribution && d.distribution[g] > 0.0
  }

  function Total(cohort: seq<CohortDecision>, g: string): real {
    if cohort == [] then 0.0
    else Total(cohort[..|cohort| - 1], g) + Weight(cohort[|cohort| - 1], g)
  }

  function Favourable(cohort: seq<CohortDecision>, g: string): real {
    if cohort == [] then 0.0
    else
      var d := cohort[|cohort| - 1];
      Favourable(cohort[..|cohort| - 1], g) + if d.favorable then Weight(d, g) else 0.0
  }

  function Mentioned(cohort: seq<CohortDecision>): set<string> {
    if cohort == [] then {} else Mentioned(cohort[..|cohort| - 1]) + Positive(cohort[|cohort| - 1])
  }

  function TalliesOf(cohort: seq<CohortDecision>): Tallies {
    map g | g in Mentioned(cohort) :: Tally(Favourable(cohort, g), Total(cohort, g))
  }

  function Admitted(tallies: Tallies, least: real): Tallies {
    map g | g in tallies && tallies[g].tot >= least :: tallies[g]
  }

  function Flagged(tallies: Tallies): set<string> {
    set g | g in tallies && IsFlagged(tallies, g)
  }

  function ScreenOf(tallies: Tallies): Screen {
    if |tallies| < 2 then IndeterminateCoverage else Screened(Sorted(Flagged(tallies)))
  }

  // check_statistical_outcome_equity
  function StatisticalScreen(cohort: seq<CohortDecision>): Screen {
    if |cohort| < MIN_COHORT_SIZE then IndeterminateCohort
    else ScreenOf(Admitted(TalliesOf(cohort), MIN_WEIGHT))
  }

  lemma {:induction false} Weighed(cohort: seq<CohortDecision>, g: string)
    ensures 0.0 <= Favourable(cohort, g) <= Total(cohort, g)
    ensures g in Mentioned(cohort) <==> Total(cohort, g) > 0.0
  {
    if cohort != [] {
      Weighed(cohort[..|cohort| - 1], g);
    }
  }

  method Screening(tallies: Tallies) returns (r: Screen)
    requires forall g | g in tallies :: IsTally(tallies[g])
    ensures r == ScreenOf(tallies)
  {
    hide Sorted, IsFlagged, Ascends, IsTally;
    if |tallies| < 2 {
      return IndeterminateCoverage;
    }
    var flagged := FlagGroups(tallies);
    AscendingIsSorted(flagged);
    forall g
      ensures IsFlagged(tallies, g) ==> g in tallies
    {
      OnlyTallied(tallies, g);
    }
    assert (set g | g in flagged) == Flagged(tallies);
    return Screened(flagged);
  }

  // One decision contributes to every group it may belong to.
  method Weigh(d: CohortDecision, fav: map<string, real>, tot: map<string, real>)
    returns (moreFav: map<string, real>, moreTot: map<string, real>)
    ensures moreTot.Keys == tot.Keys + Positive(d)
    ensures forall g :: At(moreTot, g) == At(tot, g) + Weight(d, g)
    ensures forall g :: At(moreFav, g) == At(fav, g) + if d.favorable then Weight(d, g) else 0.0
  {
    moreFav, moreTot := fav, tot;
    var left := d.distribution.Keys;
    ghost var seen: set<string> := {};
    while left != {}
      invariant left + seen == d.distribution.Keys && left !! seen
      invariant moreTot.Keys == tot.Keys + (seen * Positive(d))
      invariant forall g :: At(moreTot, g) == At(tot, g) + if g in seen then Weight(d, g) else 0.0
      invariant forall g :: At(moreFav, g) == At(fav, g) + if g in seen && d.favorable then Weight(d, g) else 0.0
    {
      var race :| race in left;
      var prob := d.distribution[race];
      if prob > 0.0 {
        moreTot := moreTot[race := At(moreTot, race) + prob];
        if d.favorable {
          moreFav := moreFav[race := At(moreFav, race) + prob];
        }
      }
      left, seen := left - {race}, seen + {race};
    }
  }

  method CheckStatisticalOutcomeEquity(cohort: seq<CohortDecision>) returns (r: Screen)
    ensures r == StatisticalScreen(cohort)
  {
    hide Weight, Positive, ScreenOf;
    if |cohort| < MIN_COHORT_SIZE {
      return IndeterminateCohort;
    }
    var fav: map<string, real>, tot: map<string, real> := map[], map[];
    for i := 0 to |cohort|
      invariant tot.Keys == Mentioned(cohort[..i])
      invariant forall g :: At(tot, g) == Total(cohort[..i], g) && At(fav, g) == Favourable(cohort[..i], g)
    {
      fav, tot := Weigh(cohort[i], fav, tot);
      assert cohort[..i + 1][..i] == cohort[..i];
    }
    assert cohort[..|cohort|] == cohort;
    var rated := map g | g in tot && tot[g] >= MIN_WEIGHT :: Tally(At(fav, g), tot[g]);
    assert forall g | g in tot :: tot[g] == At(tot, g);
    assert rated == Admitted(TalliesOf(cohort), MIN_WEIGHT);
    AdmittedAreTallies(cohort, MIN_WEIGHT);
    r := Screening(rated);
  }

  lemma AdmittedAreTallies(cohort: seq<CohortDecision>, least: real)
    requires least > 0.0
    ensures var a := Admitted(TalliesOf(cohort), least); forall g | g in a :: IsTally(a[g])
  {
    forall g | g in Mentioned(cohort)
      ensures IsTally(Tally(Favourable(cohort, g), Total(cohort, g)))
    {
      Weighed(cohort, g);
    }
  }

  function TallyOf(cohort: seq<CohortDecision>, g: string): Tally {
    Tally(Favourable(cohort, g), Total(cohort, g))
  }

  /** A group is flagged exactly when it is admitted and some admitted group h has
      5 fav(g) tot(h) < 4 fav(h) tot(g); with too few decisions the screen says neither pass nor flag. */
  lemma FlaggedExactly(cohort: seq<CohortDecision>, g: string)
    ensures StatisticalScreen(cohort).IndeterminateCohort? <==> |cohort| < MIN_COHORT_SIZE
    ensures StatisticalScreen(cohort).Screened? ==>
              (g in StatisticalScreen(cohort).flagged <==>
                 Total(cohort, g) >= MIN_WEIGHT
                 && exists h :: Total(cohort, h) >= MIN_WEIGHT && Under(TallyOf(cohort, g), TallyOf(cohort, h)))
  {
    hide Total, Favourable, Mentioned, Sorted, Under;
    var admitted := Admitted(TalliesOf(cohort), MIN_WEIGHT);
    forall h
      ensures h in admitted <==> Total(cohort, h) >= MIN_WEIGHT
      ensures h in admitted ==> admitted[h] == TallyOf(cohort, h)
    {
      Weighed(cohort, h);
    }
    assert g in Flagged(admitted) <==> IsFlagged(admitted, g);
    if h :|
      Total(cohort, g) >= MIN_WEIGHT && Total(cohort, h) >= MIN_WEIGHT
      && Under(TallyOf(cohort, g), TallyOf(cohort, h)) {
      assert h in admitted && Under(admitted[g], admitted[h]);
    }
  }

  /* -------- the order of the cohort -------- */

  lemma TotalSnoc(cohort: seq<CohortDecision>, d: CohortDecision, g: string)
    ensures Total(cohort + [d], g) == Total(cohort, g) + Weight(d, g)
    ensures Favourable(cohort + [d], g) == Favourable(cohort, g) + if d.favorable then Weight(d, g) else 0.0
  {
    assert (cohort + [d])[..|cohort|] == cohort;
  }

  lemma {:induction false} TakeOut(front: seq<CohortDecision>, d: CohortDecision, back: seq<CohortDecision>, g: string)
    ensures Total(front + [d] + back, g) == Total(front + back, g) + Weight(d, g)
    ensures Favourable(front + [d] + back, g) == Favourable(front + back, g) + if d.favorable then Weight(d, g) else 0.0
  {
    hide Total, Favourable, Weight;
    if back == [] {
      assert front + [d] + back == front + [d] && front + back == front;
      TotalSnoc(front, d, g);
    } else {
      var rest, last := back[..|back| - 1], back[|back| - 1];
      assert front + [d] + back == (front + [d] + rest) + [last] && front + back == (front + rest) + [last];
      TakeOut(front, d, rest, g);
      TotalSnoc(front + [d] + rest, last, g);
      TotalSnoc(front + rest, last, g);
    }
  }

  lemma {:induction false} WeightsForgetOrder(p: seq<CohortDecision>, q: seq<CohortDecision>, g: string)
    requires multiset(p) == multiset(q)
    ensures Total(p, g) == Total(q, g) && Favourable(p, g) == Favourable(q, g)
  {
    if p != [] {
      hide Total, Favourable, Weight;
      var n := |p| - 1;
      var front, back := LastFound(p, q);
      assert p == p[..n] + [p[n]];
      TotalSnoc(p[..n], p[n], g);
      TakeOut(front, p[n], back, g);
      WeightsForgetOrder(p[..n], front + back, g);
    } else {
      assert |q| == |multiset(q)| == |multiset(p)| == 0;
    }
  }

  /** The screen does not depend on the order of the cohort. */
  lemma ScreenForgetsOrder(p: seq<CohortDecision>, q: seq<CohortDecision>)
    requires multiset(p) == multiset(q)
    ensures StatisticalScreen(p) == StatisticalScreen(q)
  {
    hide Total, Favourable, Mentioned, ScreenOf, Admitted;
    assert |p| == |multiset(p)| == |multiset(q)| == |q|;
    forall g
      ensures Total(p, g) == Total(q, g) && Favourable(p, g) == Favourable(q, g)
      ensures g in Mentioned(p) <==> g in Mentioned(q)
    {
      WeightsForgetOrder(p, q, g);
      Weighed(p, g);
      Weighed(q, g);
    }
    assert Mentioned(p) == Mentioned(q);
    assert TalliesOf(p) == TalliesOf(q);
  }

  /* -------- by place -------- */

  datatype Tier = Zip | County

  function PlaceOf(d: GeographicDecision, tier: Tier): string {
    match tier
    case Zip => d.zip
    case County => d.county
  }

  function Count(cohort: seq<GeographicDecision>, tier: Tier, place: string, favorable: bool): nat {
    if cohort == [] then 0
    else
      var d := cohort[|cohort| - 1];
      Count(cohort[..|cohort| - 1], tier, place, favorable)
      + if PlaceOf(d, tier) == place && (favorable ==> d.favorable) then 1 else 0
  }

  function Places(cohort: seq<GeographicDecision>, tier: Tier): set<string> {
    set d | d in cohort && PlaceOf(d, tier) != "" :: PlaceOf(d, tier)
  }

  function PlaceTallies(cohort: seq<GeographicDecision>, tier: Tier): Tallies {
    map g | g in Places(cohort, tier) ::
      Tally(Count(cohort, tier, g, true) as real, Count(cohort, tier, g, false) as real)
  }

  datatype GeographicScreen = TooFew | ByTier(zip: Screen, county: Screen)

  // check_geographic_outcome_equity
  function GeographicScreenOf(cohort: seq<GeographicDecision>): GeographicScreen {
    if |cohort| < MIN_COHORT_SIZE then TooFew
    else
      ByTier(ScreenOf(Admitted(PlaceTallies(cohort, Zip), MIN_OBSERVATIONS_PER_GROUP as real)),
             ScreenOf(Admitted(PlaceTallies(cohort, County), MIN_OBSERVATIONS_PER_GROUP as real)))
  }

  function CountAt(m: map<string, nat>, g: string): nat {
    if g in m then m[g] else 0
  }

  lemma CountSnoc(cohort: seq<GeographicDecision>, d: GeographicDecision, tier: Tier, g: string, favorable: bool)
    ensures Count(cohort + [d], tier, g, favorable)
            == Count(cohort, tier, g, favorable) + if PlaceOf(d, tier) == g && (favorable ==> d.favorable) then 1 else 0
  {
    assert (cohort + [d])[..|cohort|] == cohort;
  }

  // The counters hold the counts of every place so far.
  ghost predicate Counted(cohort: seq<GeographicDecision>, tier: Tier, fav: map<string, nat>, tot: map<string, nat>) {
    && tot.Keys == Places(cohort, tier)
    && forall g | g != "" ::
         CountAt(tot, g) == Count(cohort, tier, g, false) && CountAt(fav, g) == Count(cohort, tier, g, true)
  }

  method CountOne(ghost cohort: seq<GeographicDecision>, d: GeographicDecision, tier: Tier,
                  fav: map<string, nat>, tot: map<string, nat>)
    returns (moreFav: map<string, nat>, moreTot: map<string, nat>)
    requires Counted(cohort, tier, fav, tot)
    ensures Counted(cohort + [d], tier, moreFav, moreTot)
  {
    hide Count, Places;
    moreFav, moreTot := fav, tot;
    PlacesSnoc(cohort, d, tier);
    var group := PlaceOf(d, tier);
    if group != "" {
      moreTot := moreTot[group := CountAt(tot, group) + 1];
      if d.favorable {
        moreFav := moreFav[group := CountAt(fav, group) + 1];
      }
    }
    forall g | g != ""
      ensures CountAt(moreTot, g) == Count(cohort + [d], tier, g, false)
      ensures CountAt(moreFav, g) == Count(cohort + [d], tier, g, true)
    {
      CountSnoc(cohort, d, tier, g, false);
      CountSnoc(cohort, d, tier, g, true);
    }
  }

  method ScreenTier(cohort: seq<GeographicDecision>, tier: Tier) returns (r: Screen)
    ensures r == ScreenOf(Admitted(PlaceTallies(cohort, tier), MIN_OBSERVATIONS_PER_GROUP as real))
  {
    hide ScreenOf, Count, PlaceOf;
    var fav: map<string, nat>, tot: map<string, nat> := map[], map[];
    NothingCounted(tier);
    for i := 0 to |cohort|
      invariant Counted(cohort[..i], tier, fav, tot)
    {
      hide Counted;
      fav, tot := CountOne(cohort[..i], cohort[i], tier, fav, tot);
      assert cohort[..i + 1] == cohort[..i] + [cohort[i]];
    }
    assert cohort[..|cohort|] == cohort;
    NoEmptyPlace(cohort, tier);
    var rated := map g | g in tot && tot[g] >= MIN_OBSERVATIONS_PER_GROUP ::
      Tally(CountAt(fav, g) as real, tot[g] as real);
    assert forall g | g in tot :: tot[g] == CountAt(tot, g);
    assert rated == Admitted(PlaceTallies(cohort, tier), MIN_OBSERVATIONS_PER_GROUP as real);
    r := Screening(rated);
  }

  lemma NothingCounted(tier: Tier)
    ensures Counted([], tier, map[], map[])
  {
  }

  lemma PlacesSnoc(cohort: seq<GeographicDecision>, d: GeographicDecision, tier: Tier)
    ensures Places(cohort + [d], tier)
            == Places(cohort, tier) + if PlaceOf(d, tier) != "" then {PlaceOf(d, tier)} else {}
  {
    assert forall e :: e in cohort + [d] <==> e in cohort || e == d;
  }

  method CheckGeographicOutcomeEquity(cohort: seq<GeographicDecision>) returns (r: GeographicScreen)
    ensures r == GeographicScreenOf(cohort)
  {
    if |cohort| < MIN_COHORT_SIZE {
      return TooFew;
    }
    var zip := ScreenTier(cohort, Zip);
    var county := ScreenTier(cohort, County);
    return ByTier(zip, county);
  }

  function TierOf(screen: GeographicScreen, tier: Tier): Screen
    requires screen.ByTier?
  {
    if tier == Zip then screen.zip else screen.county
  }

  function PlaceTally(cohort: seq<GeographicDecision>, tier: Tier, g: string): Tally {
    Tally(Count(cohort, tier, g, true) as real, Count(cohort, tier, g, false) as real)
  }

  // A place with enough observations to be rated.
  predicate Rated(cohort: seq<GeographicDecision>, tier: Tier, g: string) {
    g != "" && Count(cohort, tier, g, false) >= MIN_OBSERVATIONS_PER_GROUP
  }

  lemma {:induction false} PlacesAreCounted(cohort: seq<GeographicDecision>, tier: Tier, g: string)
    ensures g in Places(cohort, tier) <==> g != "" && Count(cohort, tier, g, false) > 0
  {
    if cohort != [] {
      hide Places, PlaceOf;
      var front, d := cohort[..|cohort| - 1], cohort[|cohort| - 1];
      assert cohort == front + [d];
      PlacesAreCounted(front, tier, g);
      PlacesSnoc(front, d, tier);
    }
  }

  /** In each tier a place is flagged exactly when it has enough observations and so has some place h
      with 5 fav(g) tot(h) < 4 fav(h) tot(g); a decision whose place is unknown counts nowhere. */
  lemma FlaggedPlacesExactly(cohort: seq<GeographicDecision>, tier: Tier, g: string)
    ensures GeographicScreenOf(cohort).TooFew? <==> |cohort| < MIN_COHORT_SIZE
    ensures var screen := GeographicScreenOf(cohort);
            screen.ByTier? && TierOf(screen, tier).Screened? ==>
              (g in TierOf(screen, tier).flagged <==>
                 && Rated(cohort, tier, g)
                 && exists h | Rated(cohort, tier, h) ::
                    Under(PlaceTally(cohort, tier, g), PlaceTally(cohort, tier, h)))
  {
    hide Count, Places, Sorted, Under;
    var rated := Admitted(PlaceTallies(cohort, tier), MIN_OBSERVATIONS_PER_GROUP as real);
    forall h
      ensures h in rated <==> Rated(cohort, tier, h)
      ensures h in rated ==> rated[h] == PlaceTally(cohort, tier, h)
    {
      PlacesAreCounted(cohort, tier, h);
    }
    assert g in Flagged(rated) <==> IsFlagged(rated, g);
    if h :|
      Rated(cohort, tier, g) && Rated(cohort, tier, h)
      && Under(PlaceTally(cohort, tier, g), PlaceTally(cohort, tier, h)) {
      assert h in rated && Under(rated[g], rated[h]);
    }
  }

  lemma {:induction false} TakeOutCounted(front: seq<GeographicDecision>, d: GeographicDecision,
                                          back: seq<GeographicDecision>, tier: Tier, g: string, favorable: bool)
    ensures Count(front + [d] + back, tier, g, favorable)
            == Count(front + back, tier, g, favorable)
               + if PlaceOf(d, tier) == g && (favorable ==> d.favorable) then 1 else 0
  {
    hide Count, PlaceOf;
    if back == [] {
      assert front + [d] + back == front + [d] && front + back == front;
      CountSnoc(front, d, tier, g, favorable);
    } else {
      var rest, last := back[..|back| - 1], back[|back| - 1];
      assert front + [d] + back == (front + [d] + rest) + [last] && front + back == (front + rest) + [last];
      TakeOutCounted(front, d, rest, tier, g, favorable);
      CountSnoc(front + [d] + rest, last, tier, g, favorable);
      CountSnoc(front + rest, last, tier, g, favorable);
    }
  }

  lemma {:induction false} CountsForgetOrder(p: seq<GeographicDecision>, q: seq<GeographicDecision>, tier: Tier,
                                             g: string, favorable: bool)
    requires multiset(p) == multiset(q)
    ensures Count(p, tier, g, favorable) == Count(q, tier, g, favorable)
  {
    if p != [] {
      hide Count, PlaceOf;
      var n := |p| - 1;
      var front, back := LastFound(p, q);
      assert p == p[..n] + [p[n]];
      CountSnoc(p[..n], p[n], tier, g, favorable);
      TakeOutCounted(front, p[n], back, tier, g, favorable);
      CountsForgetOrder(p[..n], front + back, tier, g, favorable);
    } else {
      assert |q| == |multiset(q)| == |multiset(p)| == 0;
    }
  }

  /** Nor does the geographic screen depend on the order of the cohort. */
  lemma GeographicScreenForgetsOrder(p: seq<GeographicDecision>, q: seq<GeographicDecision>)
    requires multiset(p) == multiset(q)
    ensures GeographicScreenOf(p) == GeographicScreenOf(q)
  {
    hide ScreenOf, Admitted, PlaceTallies;
    assert |p| == |multiset(p)| == |multiset(q)| == |q|;
    PlaceTalliesForgetOrder(p, q, Zip);
    PlaceTalliesForgetOrder(p, q, County);
  }

  lemma PlaceTalliesForgetOrder(p: seq<GeographicDecision>, q: seq<GeographicDecision>, tier: Tier)
    requires multiset(p) == multiset(q)
    ensures PlaceTallies(p, tier) == PlaceTallies(q, tier)
  {
    hide Count, Places;
    forall g
      ensures g in Places(p, tier) <==> g in Places(q, tier)
      ensures Count(p, tier, g, true) == Count(q, tier, g, true) && Count(p, tier, g, false) == Count(q, tier, g, false)
    {
      CountsForgetOrder(p, q, tier, g, true);
      CountsForgetOrder(p, q, tier, g, false);
      PlacesAreCounted(p, tier, g);
      PlacesAreCounted(q, tier, g);
    }
  }

  /* -------- a weight of one is a count of one -------- */

  // All of a decision's probability on its place.
  function OneHot(d: GeographicDecision, tier: Tier): CohortDecision {
    CohortDecision(d.subject, d.favorable, if PlaceOf(d, tier) == "" then map[] else map[PlaceOf(d, tier) := 1.0])
  }

  function OneHots(cohort: seq<GeographicDecision>, tier: Tier): seq<CohortDecision> {
    if cohort == [] then []
    else OneHots(cohort[..|cohort| - 1], tier) + [OneHot(cohort[|cohort| - 1], tier)]
  }

  lemma {:induction false} WeightsAreCounts(cohort: seq<GeographicDecision>, tier: Tier, g: string)
    requires g != ""
    ensures Total(OneHots(cohort, tier), g) == Count(cohort, tier, g, false) as real
    ensures Favourable(OneHots(cohort, tier), g) == Count(cohort, tier, g, true) as real
  {
    if cohort != [] {
      hide Total, Favourable, Count, Weight, OneHot;
      var front, d := cohort[..|cohort| - 1], cohort[|cohort| - 1];
      assert cohort == front + [d];
      WeightsAreCounts(front, tier, g);
      TotalSnoc(OneHots(front, tier), OneHot(d, tier), g);
      CountSnoc(front, d, tier, g, false);
      CountSnoc(front, d, tier, g, true);
      OneHotWeighs(d, tier, g);
    }
  }

  lemma OneHotWeighs(d: GeographicDecision, tier: Tier, g: string)
    requires g != ""
    ensures Weight(OneHot(d, tier), g) == if PlaceOf(d, tier) == g then 1.0 else 0.0
    ensures OneHot(d, tier).favorable == d.favorable
  {
  }

  lemma {:induction false} MentionsArePlaces(cohort: seq<GeographicDecision>, tier: Tier)
    ensures Mentioned(OneHots(cohort, tier)) == Places(cohort, tier)
  {
    if cohort != [] {
      hide Places;
      var front, d := cohort[..|cohort| - 1], cohort[|cohort| - 1];
      assert cohort == front + [d];
      MentionsArePlaces(front, tier);
      PlacesSnoc(front, d, tier);
      var hot := OneHots(cohort, tier);
      assert hot[..|hot| - 1] == OneHots(front, tier);
      assert Positive(OneHot(d, tier)) == if PlaceOf(d, tier) != "" then {PlaceOf(d, tier)} else {};
    }
  }

  /** On estimates that put all probability on one group, the weighted tallies are the hard counts: at
      one threshold the two screens would flag the same groups. */
  lemma HardCountsAreWeights(cohort: seq<GeographicDecision>, tier: Tier)
    ensures TalliesOf(OneHots(cohort, tier)) == PlaceTallies(cohort, tier)
  {
    hide Total, Favourable, Mentioned, Places, OneHots, Count;
    MentionsArePlaces(cohort, tier);
    NoEmptyPlace(cohort, tier);
    forall g | g != ""
      ensures Total(OneHots(cohort, tier), g) == Count(cohort, tier, g, false) as real
      ensures Favourable(OneHots(cohort, tier), g) == Count(cohort, tier, g, true) as real
    {
      WeightsAreCounts(cohort, tier, g);
    }
  }

  lemma NoEmptyPlace(cohort: seq<GeographicDecision>, tier: Tier)
    ensures "" !in Places(cohort, tier)
  {
  }
}
