/** The regulatory deck: sentinel_os/regulatory_deck.py, and the tier rule it folds with,
    `resolve_tier_conflict` in sentinel_os/regulatory_checks.py. */
module Deck {
  import opened Wrappers
  import opened Texts

  /* -------- tiers -------- */

  const T0_PROHIBITED := "T0_PROHIBITED"
  const T1_FILED := "T1_FILED"
  const T2_PERMITTED := "T2_PERMITTED"
  const T3_INTERNAL := "T3_INTERNAL"
  const T4_PENDING := "T4_PENDING"
  const T5_UNDECLARED := "T5_UNDECLARED"
  const T6_OPAQUE := "T6_OPAQUE"

  // A tier off the ladder ranks as undeclared.
  function RankOf(tier: string): nat {
    if tier == T1_FILED then 1
    else if tier == T2_PERMITTED then 2
    else if tier == T3_INTERNAL then 3
    else if tier == T4_PENDING then 4
    else 5
  }

  function CategoricalPriority(tier: string): Option<nat> {
    if tier == T0_PROHIBITED then Some(0) else if tier == T6_OPAQUE then Some(1) else None
  }

  // resolve_tier_conflict
  function ResolveTierConflict(a: string, b: string): string {
    if a == b then a
    else
      var p, q := CategoricalPriority(a), CategoricalPriority(b);
      if p.Some? || q.Some? then
        if p.None? then b
        else if q.None? then a
        else if p.value <= q.value then a else b
      else if RankOf(a) >= RankOf(b) then a else b
  }

  // The legal order of strictness: a bar, then an undisclosed list, then the ladder from its worst rank.
  function Strictness(tier: string): nat {
    if tier == T0_PROHIBITED then 7 else if tier == T6_OPAQUE then 6 else RankOf(tier)
  }

  /** The pairwise rule picks the stricter of its two tiers, the first when neither is stricter. */
  lemma StricterWins(a: string, b: string)
    ensures ResolveTierConflict(a, b) == if Strictness(a) >= Strictness(b) then a else b
  {
  }

  /* -------- findings -------- */

  const MODE_OBSERVER := "observer"
  const MODE_LIVE := "live"
  const ACTION_FLAG := "flag"
  const ACTION_BLOCK := "block"
  const CROSS_LENS := "cross_lens_tier_conflict"

  datatype InsertedLens = InsertedLens(
    identity: string, mode: string, regulation: string, contentHash: string, codeHash: string, insertedBy: string)

  datatype Claim = Claim(lens: string, regulation: string, tier: string)

  // The evidence keys the deck reads or writes: variable and tier, resolved_tier and conflicting_claims.
  datatype Finding = Finding(
    check: string, subject: string, regulation: string, action: string,
    variable: Option<string>, tier: Option<string>, resolved: Option<string>, claims: seq<Claim>)

  // A finding with the lens it is credited to.
  datatype Raised = Raised(entry: InsertedLens, finding: Finding)

  /* -------- the cross-lens fold -------- */

  predicate IsClaim(r: Raised, variable: string, identity: string) {
    r.finding.variable == Some(variable) && r.finding.tier.Some? && r.entry.identity == identity
  }

  // The last claim of a lens on a variable.
  function ClaimOf(raised: seq<Raised>, variable: string, identity: string): (r: Option<Raised>)
    ensures r.Some? ==> IsClaim(r.value, variable, identity) && r.value in raised
    ensures r.None? <==> forall x | x in raised :: !IsClaim(x, variable, identity)
  {
    if raised == [] then None
    else
      var n := |raised| - 1;
      assert raised == raised[..n] + [raised[n]];
      if IsClaim(raised[n], variable, identity) then Some(raised[n]) else ClaimOf(raised[..n], variable, identity)
  }

  function Variables(raised: seq<Raised>): set<string> {
    set r | r in raised && r.finding.variable.Some? && r.finding.tier.Some? :: r.finding.variable.value
  }

  function Claimants(raised: seq<Raised>, variable: string): set<string> {
    set r | r in raised && IsClaim(r, variable, r.entry.identity) :: r.entry.identity
  }

  // The claims on a variable, by the identity of their lenses.
  function ClaimsOn(raised: seq<Raised>, variable: string, identities: seq<string>): (r: seq<Raised>)
    requires forall id | id in identities :: id in Claimants(raised, variable)
    ensures |r| == |identities|
    ensures forall i | 0 <= i < |r| ::
              IsClaim(r[i], variable, identities[i]) && ClaimOf(raised, variable, identities[i]) == Some(r[i])
  {
    if identities == [] then []
    else
      var n := |identities| - 1;
      var claim := ClaimOf(raised, variable, identities[n]);
      assert identities[n] in Claimants(raised, variable);
      ClaimsOn(raised, variable, identities[..n]) + [claim.value]
  }

  // The fold over the claims: the tier so far and the claim credited with it.
  function Resolved(claims: seq<Raised>): (r: (string, Raised))
    requires claims != [] && forall c | c in claims :: c.finding.tier.Some?
    ensures r.1 in claims && r.1.finding.tier == Some(r.0)
  {
    if |claims| == 1 then (claims[0].finding.tier.value, claims[0])
    else
      var n := |claims| - 1;
      var (tier, winner) := Resolved(claims[..n]);
      var resolved := ResolveTierConflict(tier, claims[n].finding.tier.value);
      (resolved, if resolved != tier then claims[n] else winner)
  }

  function Conflict(variable: string, claims: seq<Raised>): Raised
    requires claims != [] && forall c | c in claims :: c.finding.tier.Some?
  {
    var (tier, winner) := Resolved(claims);
    var recorded := seq(|claims|, i requires 0 <= i < |claims| =>
      assert claims[i] in claims;
      Claim(claims[i].entry.identity, claims[i].entry.regulation, claims[i].finding.tier.value));
    Raised(winner.entry,
           Finding(CROSS_LENS, winner.finding.subject, winner.entry.regulation, ACTION_FLAG,
                   Some(variable), None, Some(tier), recorded))
  }

  predicate Disagree(claims: seq<Raised>) {
    exists i :: 0 < i < |claims| && claims[i].finding.tier != claims[0].finding.tier
  }

  function OrderedClaims(raised: seq<Raised>, variable: string): (r: seq<Raised>)
    ensures forall c | c in r :: c.finding.tier.Some?
  {
    ClaimsOn(raised, variable, Sorted(Claimants(raised, variable)))
  }

  function ConflictOn(raised: seq<Raised>, variable: string): seq<Raised> {
    var claims := OrderedClaims(raised, variable);
    if Disagree(claims) then [Conflict(variable, claims)] else []
  }

  function ConflictsOn(raised: seq<Raised>, variables: seq<string>): seq<Raised> {
    if variables == [] then []
    else ConflictsOn(raised, variables[..|variables| - 1]) + ConflictOn(raised, variables[|variables| - 1])
  }

  // _cross_lens_tier_conflicts
  function Conflicts(raised: seq<Raised>): seq<Raised> {
    ConflictsOn(raised, Sorted(Variables(raised)))
  }

  lemma {:induction false} ResolvedIsStrictest(claims: seq<Raised>)
    requires claims != [] && forall c | c in claims :: c.finding.tier.Some?
    ensures forall c | c in claims :: Strictness(c.finding.tier.value) <= Strictness(Resolved(claims).0)
  {
    hide Strictness, ResolveTierConflict;
    if |claims| > 1 {
      var n := |claims| - 1;
      assert claims == claims[..n] + [claims[n]];
      ResolvedIsStrictest(claims[..n]);
      StricterWins(Resolved(claims[..n]).0, claims[n].finding.tier.value);
    }
  }

  function TierOf(raised: seq<Raised>, variable: string, identity: string): Option<string> {
    var claim := ClaimOf(raised, variable, identity);
    if claim.Some? then claim.value.finding.tier else None
  }

  lemma ClaimIsThere(raised: seq<Raised>, variable: string, id: string)
    requires id in Claimants(raised, variable)
    ensures exists c :: c in OrderedClaims(raised, variable) && c.entry.identity == id
  {
    hide Claimants, ClaimOf;
    var ids := Sorted(Claimants(raised, variable));
    assert id in ids;
    var i :| 0 <= i < |ids| && ids[i] == id;
    var claims := OrderedClaims(raised, variable);
    assert claims[i] in claims && claims[i].entry.identity == id;
  }

  lemma ClaimIsHeld(raised: seq<Raised>, variable: string, c: Raised)
    requires c in OrderedClaims(raised, variable)
    ensures c.entry.identity in Claimants(raised, variable)
    ensures TierOf(raised, variable, c.entry.identity) == c.finding.tier
  {
    hide Claimants, ClaimOf;
    var ids := Sorted(Claimants(raised, variable));
    var claims := OrderedClaims(raised, variable);
    var i :| 0 <= i < |claims| && claims[i] == c;
    assert ids[i] in ids;
  }

  /** A conflict is reported on a variable exactly when two lenses claim different tiers for it. */
  lemma ConflictExactly(raised: seq<Raised>, variable: string)
    ensures ConflictOn(raised, variable) != []
            <==> exists a, b :: a in Claimants(raised, variable) && b in Claimants(raised, variable)
                                && TierOf(raised, variable, a) != TierOf(raised, variable, b)
  {
    hide Sorted, Resolved, TierOf, Claimants, ClaimsOn;
    var claims := OrderedClaims(raised, variable);
    if Disagree(claims) {
      var i :| 0 < i < |claims| && claims[i].finding.tier != claims[0].finding.tier;
      assert claims[i] in claims && claims[0] in claims;
      ClaimIsHeld(raised, variable, claims[i]);
      ClaimIsHeld(raised, variable, claims[0]);
    }
    forall a, b | a in Claimants(raised, variable) && b in Claimants(raised, variable)
                  && TierOf(raised, variable, a) != TierOf(raised, variable, b)
      ensures Disagree(claims)
    {
      ClaimIsThere(raised, variable, a);
      ClaimIsThere(raised, variable, b);
      var c :| c in claims && c.entry.identity == a;
      var d :| d in claims && d.entry.identity == b;
      ClaimIsHeld(raised, variable, c);
      ClaimIsHeld(raised, variable, d);
      var i :| 0 <= i < |claims| && claims[i] == c;
      var j :| 0 <= j < |claims| && claims[j] == d;
    }
  }

  /** What is reported is the strictest tier any lens claims for the variable, credited to a lens that
      itself claims it. */
  lemma ConflictIsStrictest(raised: seq<Raised>, variable: string, c: Raised)
    requires c in ConflictOn(raised, variable)
    ensures c.finding.variable == Some(variable) && c.finding.resolved.Some?
    ensures c.entry.identity in Claimants(raised, variable)
    ensures TierOf(raised, variable, c.entry.identity) == c.finding.resolved
    ensures c.finding.regulation == c.entry.regulation
    ensures exists r :: r in raised && r.entry == c.entry
    ensures |c.finding.claims| == |Claimants(raised, variable)|
    ensures forall k | k in c.finding.claims ::
              k.lens in Claimants(raised, variable) && TierOf(raised, variable, k.lens) == Some(k.tier)
    ensures forall id | id in Claimants(raised, variable) ::
              TierOf(raised, variable, id).Some?
              && Strictness(TierOf(raised, variable, id).value) <= Strictness(c.finding.resolved.value)
  {
    hide Sorted, Strictness, TierOf, Claimants, ClaimsOn;
    var claims := OrderedClaims(raised, variable);
    assert c == Conflict(variable, claims);
    var winner := Resolved(claims).1;
    ResolvedIsStrictest(claims);
    ClaimIsHeld(raised, variable, winner);
    ClaimIsRaised(raised, variable, winner);
    forall k | k in c.finding.claims
      ensures k.lens in Claimants(raised, variable) && TierOf(raised, variable, k.lens) == Some(k.tier)
    {
      var i :| 0 <= i < |claims| && c.finding.claims[i] == k;
      assert claims[i] in claims;
      ClaimIsHeld(raised, variable, claims[i]);
    }
    assert |claims| == |Claimants(raised, variable)| by { ClaimsAreCounted(raised, variable); }
    forall id | id in Claimants(raised, variable)
      ensures TierOf(raised, variable, id).Some?
              && Strictness(TierOf(raised, variable, id).value) <= Strictness(c.finding.resolved.value)
    {
      ClaimIsThere(raised, variable, id);
      var d :| d in claims && d.entry.identity == id;
      ClaimIsHeld(raised, variable, d);
    }
  }

  lemma ClaimsAreCounted(raised: seq<Raised>, variable: string)
    ensures |OrderedClaims(raised, variable)| == |Claimants(raised, variable)|
  {
    hide Claimants, ClaimOf;
  }

  lemma ClaimIsRaised(raised: seq<Raised>, variable: string, c: Raised)
    requires c in OrderedClaims(raised, variable)
    ensures c in raised
  {
    hide Claimants, ClaimOf;
    var claims := OrderedClaims(raised, variable);
    var i :| 0 <= i < |claims| && claims[i] == c;
  }

  /* -------- insertion order -------- */

  // The findings of one lens, in the order it raised them.
  function OfLens(raised: seq<Raised>, identity: string): seq<Raised> {
    if raised == [] then []
    else
      OfLens(raised[..|raised| - 1], identity)
      + if raised[|raised| - 1].entry.identity == identity then [raised[|raised| - 1]] else []
  }

  lemma {:induction false} OnlyItsOwn(raised: seq<Raised>, variable: string, identity: string)
    ensures ClaimOf(OfLens(raised, identity), variable, identity) == ClaimOf(raised, variable, identity)
  {
    if raised != [] {
      var front, last := raised[..|raised| - 1], raised[|raised| - 1];
      OnlyItsOwn(front, variable, identity);
      var own := OfLens(raised, identity);
      if last.entry.identity == identity {
        assert own[..|own| - 1] == OfLens(front, identity);
      } else {
        assert own == OfLens(front, identity);
      }
    }
  }

  lemma ClaimsAgree(p: seq<Raised>, q: seq<Raised>)
    requires forall id :: OfLens(p, id) == OfLens(q, id)
    ensures forall v, id :: ClaimOf(p, v, id) == ClaimOf(q, v, id)
    ensures Variables(p) == Variables(q)
    ensures forall v :: Claimants(p, v) == Claimants(q, v)
  {
    forall v, id
      ensures ClaimOf(p, v, id) == ClaimOf(q, v, id)
    {
      OnlyItsOwn(p, v, id);
      OnlyItsOwn(q, v, id);
    }
    hide ClaimOf;
    forall v
      ensures Claimants(p, v) == Claimants(q, v)
    {
      assert forall id :: id in Claimants(p, v) <==> ClaimOf(p, v, id).Some?;
      assert forall id :: id in Claimants(q, v) <==> ClaimOf(q, v, id).Some?;
    }
    hide Claimants;
    forall v
      ensures v in Variables(p) <==> v in Variables(q)
    {
      VariableIsClaimed(p, v);
      VariableIsClaimed(q, v);
    }
  }

  lemma VariableIsClaimed(raised: seq<Raised>, v: string)
    ensures v in Variables(raised) <==> Claimants(raised, v) != {}
  {
    if v in Variables(raised) {
      var r :| r in raised && r.finding.variable == Some(v) && r.finding.tier.Some?;
      assert r.entry.identity in Claimants(raised, v);
    }
    if Claimants(raised, v) != {} {
      var id :| id in Claimants(raised, v);
    }
  }

  lemma {:induction false} SameClaimsOn(p: seq<Raised>, q: seq<Raised>, v: string, ids: seq<string>)
    requires forall id :: ClaimOf(p, v, id) == ClaimOf(q, v, id)
    requires forall id | id in ids :: id in Claimants(p, v) && id in Claimants(q, v)
    ensures ClaimsOn(p, v, ids) == ClaimsOn(q, v, ids)
  {
    hide ClaimOf, Claimants;
    if ids != [] {
      SameClaimsOn(p, q, v, ids[..|ids| - 1]);
    }
  }

  lemma {:induction false} SameConflictsOn(p: seq<Raised>, q: seq<Raised>, vs: seq<string>)
    requires forall v, id :: ClaimOf(p, v, id) == ClaimOf(q, v, id)
    requires forall v :: Claimants(p, v) == Claimants(q, v)
    ensures ConflictsOn(p, vs) == ConflictsOn(q, vs)
  {
    hide ClaimOf, Claimants, Resolved, Sorted;
    if vs != [] {
      var v := vs[|vs| - 1];
      SameConflictsOn(p, q, vs[..|vs| - 1]);
      SameClaimsOn(p, q, v, Sorted(Claimants(p, v)));
    }
  }

  /** The conflicts depend on what each lens raised, not on how the lenses are interleaved. */
  lemma ConflictsForgetOrder(p: seq<Raised>, q: seq<Raised>)
    requires forall id :: OfLens(p, id) == OfLens(q, id)
    ensures Conflicts(p) == Conflicts(q)
  {
    hide OfLens, ConflictsOn, Variables, Claimants, ClaimOf, Sorted;
    ClaimsAgree(p, q);
    SameConflictsOn(p, q, Sorted(Variables(p)));
  }
}
