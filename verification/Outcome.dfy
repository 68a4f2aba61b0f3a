/** Obligations derived from the decision feed (`open_obligation`, `derive_open_obligations` of
    sentinel_os/outcome_v1.py), and why the chain's head fixes what is owed. */
module Outcome {
  import opened Json
  import opened Wrappers
  import opened Canonical
  import opened Custody
  import Declaration

  // An open obligation, with the fields a fresh one fills from its arguments.
  datatype Obligation = Obligation(id: string, decisionHash: string, domain: string, kind: string,
                                   openedAt: real, expectedBy: real, subject: Value)

  // str() of a value that is not a string, and float() of one (None where it raises).
  datatype Reader = Reader(show: Value -> string, seconds: Value -> Option<real>)

  function Text(r: Reader, v: Value): string {
    match v
    case Str(s) => s
    case _ => r.show(v)
  }

  function OpenObligation(id: string, decisionHash: string, domain: string, rule: Declaration.Rule,
                          openedAt: real, subject: Value): Obligation
  {
    Obligation(id, decisionHash, domain, rule.kind, openedAt, openedAt + rule.horizon as real, subject)
  }

  datatype Failure = BadDeclaration | BadTimestamp

  // str(row.get("current_hash") or "")
  function DecisionHash(r: Reader, row: Object): string {
    var hash := Get(row, "current_hash");
    if Truthy(hash) then Text(r, hash) else ""
  }

  function DomainOf(r: Reader, row: Object): string {
    var domain, version := Get(row, "domain"), Get(row, "cassette_version");
    if Truthy(domain) then Text(r, domain) else if Truthy(version) then Text(r, version) else "unknown"
  }

  // MaturationRule.parse(row.get("outcome_obligation")); no other JSON value spells a declaration.
  function RuleOf(declared: Value): Result<Declaration.Rule, Declaration.ParseError> {
    match declared
    case Str(text) => Declaration.Parse(text)
    case _ => Err(Declaration.Unparseable)
  }

  // The obligation one row opens, if it declares any.
  function OpenedBy(r: Reader, row: Object): Result<Option<Obligation>, Failure> {
    var declared := Get(row, "outcome_obligation");
    if !Truthy(declared) then Ok(None)
    else
      var rule := RuleOf(declared);
      var stamp := Get(row, "timestamp");
      var at := r.seconds(if Truthy(stamp) then stamp else Float(0));
      var hash := DecisionHash(r, row);
      if rule.Err? then Err(BadDeclaration)
      else if at.None? then Err(BadTimestamp)
      else Ok(Some(OpenObligation(hash + ":" + rule.value.kind, hash, DomainOf(r, row), rule.value, at.value,
                                  Get(row, "subject_id"))))
  }

  // What the rows owe, in order; the first row that cannot be read fails the derivation.
  function Derived(r: Reader, rows: seq<Object>): Result<seq<Obligation>, Failure> {
    if rows == [] then Ok([])
    else
      var earlier := Derived(r, rows[..|rows| - 1]);
      var owing := OpenedBy(r, rows[|rows| - 1]);
      if earlier.Err? then earlier
      else if owing.Err? then Err(owing.error)
      else Ok(earlier.value + if owing.value.Some? then [owing.value.value] else [])
  }

  method DeriveOpenObligations(r: Reader, rows: seq<Object>) returns (owed: Result<seq<Obligation>, Failure>)
    ensures owed == Derived(r, rows)
  {
    var derived := [];
    for i := 0 to |rows|
      invariant Derived(r, rows[..i]) == Ok(derived)
    {
      var owing := OpenedBy(r, rows[i]);
      assert rows[..i + 1][..i] == rows[..i];
      if owing.Err? {
        DerivedStaysFailed(r, rows, i + 1);
        return Err(owing.error);
      }
      assert derived + [] == derived;
      if owing.value.Some? {
        derived := derived + [owing.value.value];
      }
    }
    assert rows[..|rows|] == rows;
    return Ok(derived);
  }

  lemma {:induction false} DerivedStaysFailed(r: Reader, rows: seq<Object>, n: nat)
    requires n <= |rows| && Derived(r, rows[..n]).Err?
    ensures Derived(r, rows) == Derived(r, rows[..n])
    decreases |rows| - n
  {
    if n < |rows| {
      assert rows[..n + 1][..n] == rows[..n];
      DerivedStaysFailed(r, rows, n + 1);
    } else {
      assert rows[..n] == rows;
    }
  }

  /* -------- what is owed, apart from when it was opened -------- */

  // The part of an obligation that does not depend on the row's timestamp, which is not hashed.
  datatype Debt = Debt(id: string, decisionHash: string, kind: string, horizon: nat)

  // The debt of one row: None when it owes nothing, an error when its declaration is unreadable.
  function DebtOf(r: Reader, row: Object): Result<Option<Debt>, Failure> {
    var declared := Declared(row);
    if declared == Null then Ok(None)
    else
      var rule := RuleOf(declared);
      var hash := DecisionHash(r, row);
      if rule.Err? then Err(BadDeclaration)
      else Ok(Some(Debt(hash + ":" + rule.value.kind, hash, rule.value.kind, rule.value.horizon)))
  }

  function Debts(r: Reader, rows: seq<Object>): Result<seq<Debt>, Failure> {
    if rows == [] then Ok([])
    else
      var earlier := Debts(r, rows[..|rows| - 1]);
      var debt := DebtOf(r, rows[|rows| - 1]);
      if earlier.Err? then earlier
      else if debt.Err? then Err(debt.error)
      else Ok(earlier.value + if debt.value.Some? then [debt.value.value] else [])
  }

  predicate Owes(o: Obligation, d: Debt) {
    && o.id == d.id && o.decisionHash == d.decisionHash && o.kind == d.kind
    && o.expectedBy - o.openedAt == d.horizon as real
  }

  ghost predicate OweInOrder(os: seq<Obligation>, ds: seq<Debt>) {
    && |os| == |ds|
    && forall i | 0 <= i < |os| :: Owes(os[i], ds[i])
  }

  /** A derivation that succeeds owes exactly the debts, in order; one can fail without the debts
      failing only on a timestamp that is not a number. */
  lemma {:induction false} DerivedOwesDebts(r: Reader, rows: seq<Object>)
    ensures Derived(r, rows).Ok? ==> Debts(r, rows).Ok? && OweInOrder(Derived(r, rows).value, Debts(r, rows).value)
    ensures Debts(r, rows).Err? ==> Derived(r, rows).Err?
    ensures Debts(r, rows).Ok? && Derived(r, rows).Err? ==> Derived(r, rows).error == BadTimestamp
  {
    hide OpenedBy, DebtOf, Owes;
    if rows != [] {
      DerivedOwesDebts(r, rows[..|rows| - 1]);
      DebtOfOpened(r, rows[|rows| - 1]);
    }
  }

  lemma DebtOfOpened(r: Reader, row: Object)
    ensures var owing, debt := OpenedBy(r, row), DebtOf(r, row);
            && (owing.Ok? ==> debt.Ok?)
            && (owing.Ok? ==> (owing.value.Some? <==> debt.value.Some?))
            && (owing.Ok? && owing.value.Some? ==> Owes(owing.value.value, debt.value.value))
            && (debt.Ok? && owing.Err? ==> owing.error == BadTimestamp)
  {
    hide Declaration.Parse;
  }

  /** A freshly opened obligation always matures after it opens. */
  lemma OpenedMaturesLater(r: Reader, row: Object)
    requires OpenedBy(r, row).Ok? && OpenedBy(r, row).value.Some?
    ensures var o := OpenedBy(r, row).value.value;
            o.expectedBy > o.openedAt && Declaration.LegalKind(o.kind)
  {
    Declaration.ParsedIsLegal(Get(row, "outcome_obligation").s);
  }

  /* -------- the head fixes the debts -------- */

  predicate IsDecision(row: Object) {
    Get(row, "record_kind") == Str("governance_decision")
  }

  function DecisionRows(rows: seq<Object>): seq<Object> {
    if rows == [] then []
    else
      var last := rows[|rows| - 1];
      DecisionRows(rows[..|rows| - 1]) + if IsDecision(last) then [last] else []
  }

  // Two rows that hold and hash one form are decisions together and owe the same.
  lemma SameFormSameDebt(w: Witness, r: Reader, a: Object, b: Object)
    requires DeepVerifyRow(w, a) == Holds && DeepVerifyRow(w, b) == Holds
    requires CanonicalForm(a) == CanonicalForm(b)
    ensures IsDecision(a) <==> IsDecision(b)
    ensures IsDecision(a) ==> DebtOf(r, a) == DebtOf(r, b)
  {
    hide DeepVerifyRow, CanonicalForm, DebtOf, Declared;
    RowHoldsMeans(w, a);
    RowHoldsMeans(w, b);
    KindIsHashed(a, b);
    if IsDecision(a) {
      DecisionFormCarriesObligation(a);
      DecisionFormCarriesObligation(b);
      DebtIsDeclared(r, a, b);
    }
  }

  // A debt is read from the declaration and the row's own hash alone.
  lemma DebtIsDeclared(r: Reader, a: Object, b: Object)
    requires Declared(a) == Declared(b) && Get(a, "current_hash") == Get(b, "current_hash")
    ensures DebtOf(r, a) == DebtOf(r, b)
  {
    hide Declared, RuleOf;
  }

  lemma KindIsHashed(a: Object, b: Object)
    requires CanonicalForm(a).Ok? && CanonicalForm(a) == CanonicalForm(b)
    ensures IsDecision(a) <==> IsDecision(b)
  {
    hide SubDict, Lacks, Demanded, DemandedFirst, BaseForm, TaggedForm;
  }

  /** Two accepted chains with one head owe the same: their decision rows give the same sequence
      of obligation ids, decision hashes, kinds and horizons, or two of their rows collide. */
  lemma HeadFixesDebts(w: Witness, r: Reader, a: seq<Object>, b: seq<Object>)
    requires w.Sound()
    requires Accepted(w, a) && Accepted(w, b)
    requires Head(a) == Head(b)
    ensures Debts(r, DecisionRows(a)) == Debts(r, DecisionRows(b)) || CollisionBetween(w, a, b)
  {
    hide DeepVerifyRow;
    HeadFixesChain(w, a, b);
    if SameForms(a, b) {
      SameFormsSameDebts(w, r, a, b);
    }
  }

  lemma {:induction false} SameFormsSameDebts(w: Witness, r: Reader, a: seq<Object>, b: seq<Object>)
    requires Accepted(w, a) && Accepted(w, b) && SameForms(a, b)
    ensures Debts(r, DecisionRows(a)) == Debts(r, DecisionRows(b))
    decreases |a|
  {
    hide DeepVerifyRow, CanonicalForm, DebtOf;
    if a != [] {
      var n := |a| - 1;
      assert RowAccepted(w, a, n) && RowAccepted(w, b, n);
      AcceptedPrefix(w, a, n);
      AcceptedPrefix(w, b, n);
      FewerForms(a, b);
      hide Accepted, RowAccepted, SameForms, Debts;
      SameFormsSameDebts(w, r, a[..n], b[..n]);
      SameFormSameDebt(w, r, a[n], b[n]);
      DebtsSnoc(r, DecisionRows(a[..n]), a[n]);
      DebtsSnoc(r, DecisionRows(b[..n]), b[n]);
      assert DecisionRows(a[..n]) + [] == DecisionRows(a[..n]) && DecisionRows(b[..n]) + [] == DecisionRows(b[..n]);
    }
  }

  lemma FewerForms(a: seq<Object>, b: seq<Object>)
    requires SameForms(a, b) && a != []
    ensures b != [] && SameForms(a[..|a| - 1], b[..|b| - 1])
    ensures CanonicalForm(a[|a| - 1]) == CanonicalForm(b[|b| - 1])
  {
    hide CanonicalForm;
  }

  lemma DebtsSnoc(r: Reader, rows: seq<Object>, row: Object)
    ensures Debts(r, rows + [row]) ==
            if Debts(r, rows).Err? then Debts(r, rows)
            else if DebtOf(r, row).Err? then Err(DebtOf(r, row).error)
            else Ok(Debts(r, rows).value + if DebtOf(r, row).value.Some? then [DebtOf(r, row).value.value] else [])
  {
    hide DebtOf;
    assert (rows + [row])[..|rows|] == rows;
  }

  /** So nothing owed can be dropped, added or shortened behind an unchanged head: whatever the
      witness derives from either chain, when both derivations succeed, is owed alike. */
  lemma NoDebtDisappears(w: Witness, r: Reader, a: seq<Object>, b: seq<Object>)
    requires w.Sound()
    requires Accepted(w, a) && Accepted(w, b) && Head(a) == Head(b)
    requires !CollisionBetween(w, a, b)
    requires Derived(r, DecisionRows(a)).Ok? && Derived(r, DecisionRows(b)).Ok?
    ensures var x, y := Derived(r, DecisionRows(a)).value, Derived(r, DecisionRows(b)).value;
            && |x| == |y|
            && forall i | 0 <= i < |x| ::
                 && x[i].id == y[i].id && x[i].decisionHash == y[i].decisionHash && x[i].kind == y[i].kind
                 && x[i].expectedBy - x[i].openedAt == y[i].expectedBy - y[i].openedAt
  {
    hide Accepted, CollisionBetween;
    HeadFixesDebts(w, r, a, b);
    DerivedOwesDebts(r, DecisionRows(a));
    DerivedOwesDebts(r, DecisionRows(b));
  }
}
