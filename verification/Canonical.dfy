/** The canonical form a ledger row hashes to: sentinel_os/canonical_fields.py and
    `canonical_form` of sentinel_os/twin_custody.py, one function for each record kind. */
module Canonical {
  import opened Json
  import opened Wrappers

  // What reading a shipped row can raise.
  datatype Failure = KeyError | TypeError | AttributeError

  type Form = Result<Object, Failure>

  const OPTIONAL_HASHED_FIELDS := [
    "cassette_hash", "cassette_code_hash", "model_identity", "authorized_by", "supersedes_hash",
    "outcome_obligation", "replaces_hash", "ai_cost", "shadow_run_hash", "decision_hash",
    "authorized_by_sig", "subject_digest", "shuffle_seed"]

  const OBSERVED_EVENT_FIELDS := [
    "episode_id", "event_id", "domain", "kind", "occurred_at", "observed_at", "source",
    "provenance", "method", "fields", "detail", "schema_version", "reducer_version"]

  const ATTESTATION_POLICY_FIELDS := ["key_fingerprint", "enforced_at"]

  const CONTRACT_INGEST_FIELDS := ["counterparty", "ingest_id", "data_scope", "received_at"]

  const CONTRACT_EGRESS_FIELDS := [
    "counterparty", "decision", "data_scope", "recipient", "recipient_class", "purpose",
    "approval_reference", "occurred_at"]

  const CONTRACT_APPROVAL_FIELDS := [
    "counterparty", "approval_id", "state", "recipient", "recipient_class", "scope",
    "granted_at", "expires_at", "revoked_at"]

  const CONTRACT_DELETION_FIELDS := [
    "counterparty", "ingest_id", "deleted_at", "scope", "method", "stamp"]

  // The optional fields of a row that enter its hash: those present and truthy.
  function OptionalFields(source: Object): Object {
    Present(OPTIONAL_HASHED_FIELDS, source)
  }

  function Present(keys: seq<string>, source: Object): Object {
    map k | k in keys && Truthy(Get(source, k)) :: Get(source, k)
  }

  lemma PresentStep(keys: seq<string>, k: string, source: Object)
    ensures Present(keys + [k], source)
            == if Truthy(Get(source, k)) then Present(keys, source)[k := Get(source, k)] else Present(keys, source)
  {
  }

  // The named fields of a body, absent ones as null.
  function Copied(keys: seq<string>, body: Object): Object {
    map k | k in keys :: Get(body, k)
  }

  // (row.get(k) or {}), which then answers .get: only a dict or a falsy value can.
  function SubDict(row: Object, k: string): Form {
    if !Truthy(Get(row, k)) then Ok(map[])
    else match Get(row, k)
      case Obj(fields) => Ok(fields)
      case _ => Err(AttributeError)
  }

  // The fields of one kind, with the two that close every tagged form. `json.dumps` sorts its
  // keys, so the order in which a form is filled is not part of it.
  function Sealed(row: Object, body: Object): (form: Object)
    ensures Closes(row, form)
  {
    (body + OptionalFields(row))
    ["record_kind" := Get(row, "record_kind")]["previous_hash" := Get(row, "previous_hash")]
  }

  // The same without optional fields, for the two kinds that never had any.
  function SealedFixed(row: Object, body: Object): (form: Object)
    ensures Closes(row, form)
  {
    body["record_kind" := Get(row, "record_kind")]["previous_hash" := Get(row, "previous_hash")]
  }

  // The form commits to the row's link and to the row's kind.
  predicate Closes(row: Object, form: Object) {
    && "previous_hash" in form && form["previous_hash"] == Get(row, "previous_hash")
    && "record_kind" in form && form["record_kind"] == Get(row, "record_kind")
  }

  function GovernanceDecisionBody(row: Object, data: Object): Object {
    map["action_type" := Get(row, "action_type"),
        "node" := Get(row, "node"),
        "cassette_version" := Get(row, "cassette_version"),
        "input_data" := Get(row, "input_data"),
        "policy_parameters" := Get(row, "policy_parameters"),
        "reasoning" := Get(row, "reason"),
        "output" := Get(row, "decision_output"),
        "previous_value" := Get(row, "previous_value"),
        "applied_value" := Get(row, "applied_value"),
        "parameter_changed" := Bool(Truthy(Get(data, "parameter_changed")))]
  }

  function RegulatoryDisclosureBody(row: Object, data: Object): Object {
    map["cassette_version" := Get(row, "cassette_version"),
        "regulation" := Get(data, "regulation"),
        "check" := Get(data, "check"),
        "action" := Get(data, "action"),
        "subject" := Get(data, "subject"),
        "finding" := Get(row, "decision_output")]
  }

  function OutcomeHarmEventBody(row: Object, data: Object): Object {
    map["cassette_version" := Get(row, "cassette_version"),
        "harmed_decision" := Get(data, "harmed_decision"),
        "harm_kind" := Get(data, "harm_kind"),
        "subject" := Get(data, "subject"),
        "discovered_at" := Get(data, "discovered_at"),
        "finding" := Get(row, "decision_output")]
  }

  // The four contract kinds; only an egress row carries a finding.
  function ContractBody(row: Object, data: Object, fields: seq<string>, withFinding: bool): Object {
    map["cassette_version" := Get(row, "cassette_version")] + Copied(fields, data)
    + if withFinding then map["finding" := Get(row, "decision_output")] else map[]
  }

  function DecisionSupersessionBody(row: Object): Object {
    map["supersedes_id" := Get(row, "supersedes_id"),
        "cassette_version" := Get(row, "cassette_version"),
        "authority" := Get(row, "authorized_by"),
        "reason" := Get(row, "reason"),
        "corrected_output" := Get(row, "decision_output")]
  }

  function ShadowRunBody(row: Object, data: Object): Object {
    map["cassette_version" := Get(row, "cassette_version"),
        "recommendation_kind" := Get(data, "recommendation_kind"),
        "subject" := Get(data, "subject"),
        "inputs" := Get(row, "input_data"),
        "recommendation" := Get(row, "decision_output")]
  }

  function HumanSelectionBody(row: Object, data: Object): Object {
    map["cassette_version" := Get(row, "cassette_version"),
        "human_selection" := Get(data, "human_selection"),
        "rationale" := Get(data, "rationale"),
        "recommendation_shown" := Get(row, "decision_output")]
  }

  // A base row, written by `append`: it carries no record_kind.
  function BaseForm(row: Object): (form: Object)
    ensures "record_kind" !in form
    ensures "previous_hash" in form && form["previous_hash"] == Get(row, "previous_hash")
  {
    (map["action_type" := Get(row, "action_type"),
         "node" := Get(row, "node"),
         "previous_value" := Get(row, "previous_value"),
         "applied_value" := Get(row, "applied_value"),
         "reason" := Get(row, "reason"),
         "data" := Get(row, "data")])
    ["previous_hash" := Get(row, "previous_hash")]
  }

  datatype Kind =
    | GovernanceDecision
    | CassetteBinding
    | RegulatoryCassette // inserted or removed
    | RegulatoryDisclosure
    | OutcomeHarmEvent
    | ContractIngest
    | ContractEgress
    | ContractApproval
    | ContractDeletion
    | DecisionSupersession
    | ShadowRun
    | ShadowScore
    | HumanSelection
    | ObservedEvent
    | AttestationPolicy
    | Base
    | Unhashable // a list or a dict, which no lookup among the contract kinds survives

  function KindOf(recordKind: Value): (k: Kind)
    ensures k == GovernanceDecision <==> recordKind == Str("governance_decision")
  {
    match recordKind
    case Str(name) =>
      if name == "governance_decision" then GovernanceDecision else OtherKind(name)
    case Arr(_) => Unhashable
    case Obj(_) => Unhashable
    case _ => Base
  }

  function OtherKind(name: string): (k: Kind)
    ensures k != GovernanceDecision && k != Unhashable
  {
    if name == "cassette_binding" then CassetteBinding
    else if name == "regulatory_cassette_inserted" then RegulatoryCassette
    else if name == "regulatory_cassette_removed" then RegulatoryCassette
    else if name == "regulatory_disclosure" then RegulatoryDisclosure
    else if name == "outcome_harm_event" then OutcomeHarmEvent
    else if name == "contract_ingest" then ContractIngest
    else if name == "contract_egress" then ContractEgress
    else if name == "contract_approval" then ContractApproval
    else if name == "contract_deletion" then ContractDeletion
    else if name == "decision_supersession" then DecisionSupersession
    else if name == "recommendation_shadow_run" then ShadowRun
    else if name == "recommendation_shadow_score" then ShadowScore
    else if name == "human_selection" then HumanSelection
    else if name == "observed_event" then ObservedEvent
    else if name == "attestation_policy" then AttestationPolicy
    else Base
  }

  // The form of a tagged row once its sub-dictionary (`data`, or `input_data` for an observed
  // event) has been read.
  function TaggedForm(row: Object, kind: Kind, sub: Object): (form: Object)
    requires kind != Base && kind != Unhashable
    ensures Closes(row, form)
  {
    match kind
    case GovernanceDecision => Sealed(row, GovernanceDecisionBody(row, sub))
    case CassetteBinding => Sealed(row, map["cassette_version" := Get(row, "cassette_version")])
    case RegulatoryCassette =>
      Sealed(row, map["cassette_version" := Get(row, "cassette_version"),
                      "mode" := Get(sub, "mode"), "regulation" := Get(sub, "regulation")])
    case RegulatoryDisclosure => Sealed(row, RegulatoryDisclosureBody(row, sub))
    case OutcomeHarmEvent => Sealed(row, OutcomeHarmEventBody(row, sub))
    case ContractIngest => Sealed(row, ContractBody(row, sub, CONTRACT_INGEST_FIELDS, false))
    case ContractEgress => Sealed(row, ContractBody(row, sub, CONTRACT_EGRESS_FIELDS, true))
    case ContractApproval => Sealed(row, ContractBody(row, sub, CONTRACT_APPROVAL_FIELDS, false))
    case ContractDeletion => Sealed(row, ContractBody(row, sub, CONTRACT_DELETION_FIELDS, false))
    case DecisionSupersession => Sealed(row, DecisionSupersessionBody(row))
    case ShadowRun => Sealed(row, ShadowRunBody(row, sub))
    case ShadowScore =>
      Sealed(row, map["actual" := Get(row, "input_data"), "score" := Get(row, "decision_output")])
    case HumanSelection => Sealed(row, HumanSelectionBody(row, sub))
    case ObservedEvent => SealedFixed(row, Copied(OBSERVED_EVENT_FIELDS, sub))
    case AttestationPolicy =>
      SealedFixed(row, Copied(ATTESTATION_POLICY_FIELDS, sub)["reason" := Get(row, "reason")])
  }

  // The columns read with row[...] rather than row.get(...), by kind.
  function Demanded(kind: Kind): (columns: seq<string>)
    ensures "previous_hash" in columns
  {
    match kind
    case GovernanceDecision =>
      ["previous_hash", "action_type", "node", "cassette_version", "input_data", "policy_parameters",
       "reason", "decision_output", "previous_value", "applied_value"]
    case CassetteBinding => ["previous_hash", "cassette_version"]
    case RegulatoryCassette => ["previous_hash", "cassette_version"]
    case RegulatoryDisclosure => ["previous_hash", "cassette_version", "decision_output"]
    case OutcomeHarmEvent => ["previous_hash", "cassette_version", "decision_output"]
    case ContractEgress => ["previous_hash", "cassette_version", "decision_output"]
    case ContractIngest => ["previous_hash", "cassette_version"]
    case ContractApproval => ["previous_hash", "cassette_version"]
    case ContractDeletion => ["previous_hash", "cassette_version"]
    case DecisionSupersession =>
      ["previous_hash", "supersedes_id", "cassette_version", "authorized_by", "reason",
       "decision_output"]
    case ShadowRun => ["previous_hash", "cassette_version", "input_data", "decision_output"]
    case ShadowScore => ["previous_hash", "input_data", "decision_output"]
    case HumanSelection => ["previous_hash", "cassette_version", "decision_output"]
    case ObservedEvent => ["previous_hash"]
    case AttestationPolicy => ["previous_hash"]
    case Base =>
      ["previous_hash", "action_type", "node", "previous_value", "applied_value", "reason", "data"]
    case Unhashable => ["previous_hash"]
  }

  // Those of them that are read before the sub-dictionary is looked into.
  function DemandedFirst(kind: Kind): (columns: seq<string>)
    ensures forall k | k in columns :: k in Demanded(kind)
  {
    match kind
    case GovernanceDecision =>
      ["action_type", "node", "cassette_version", "input_data", "policy_parameters",
       "reason", "decision_output", "previous_value", "applied_value"]
    case RegulatoryCassette => ["cassette_version"]
    case RegulatoryDisclosure => ["cassette_version"]
    case OutcomeHarmEvent => ["cassette_version"]
    case ContractEgress => ["cassette_version"]
    case ContractIngest => ["cassette_version"]
    case ContractApproval => ["cassette_version"]
    case ContractDeletion => ["cassette_version"]
    case ShadowRun => ["cassette_version"]
    case HumanSelection => ["cassette_version"]
    case ObservedEvent => ["previous_hash"]
    case AttestationPolicy => ["previous_hash"]
    case _ => []
  }

  predicate Lacks(row: Object, columns: seq<string>) {
    exists k | k in columns :: k !in row
  }

  // The kinds whose builder looks into a sub-dictionary, and which one.
  function SubDictColumn(kind: Kind): Option<string> {
    match kind
    case ObservedEvent => Some("input_data")
    case CassetteBinding => None
    case DecisionSupersession => None
    case ShadowScore => None
    case Base => None
    case Unhashable => None
    case _ => Some("data")
  }

  function CanonicalForm(row: Object): (r: Form)
    ensures r.Ok? ==>
              && "previous_hash" in r.value
              && r.value["previous_hash"] == Get(row, "previous_hash")
    ensures r.Ok? && KindOf(Get(row, "record_kind")) != Base ==> Closes(row, r.value)
    ensures r.Ok? && KindOf(Get(row, "record_kind")) == Base ==> "record_kind" !in r.value
  {
    var kind := KindOf(Get(row, "record_kind"));
    var column := SubDictColumn(kind);
    var sub := if column.Some? then SubDict(row, column.value) else Ok(map[]);
    if kind == Unhashable then Err(TypeError)
    else if Lacks(row, DemandedFirst(kind)) then Err(KeyError)
    else if sub.Err? then sub
    else if Lacks(row, Demanded(kind)) then Err(KeyError)
    else if kind == Base then Ok(BaseForm(row))
    else Ok(TaggedForm(row, kind, sub.value))
  }

  // A decision's form carries its maturation declaration exactly when the row's is truthy.
  lemma DecisionFormCarriesObligation(row: Object)
    requires Get(row, "record_kind") == Str("governance_decision")
    requires CanonicalForm(row).Ok?
    ensures Get(CanonicalForm(row).value, "outcome_obligation") == Declared(row)
  {
    hide CanonicalForm, Sealed, GovernanceDecisionBody;
    DecisionFormIs(row);
    var data := SubDict(row, "data").value;
    DecisionBodyLeavesObligation(row, data);
    ObligationIsOptional(row);
    SealedKeeps(row, GovernanceDecisionBody(row, data), "outcome_obligation");
  }

  // row.get("outcome_obligation") as `derive_open_obligations` reads it: falsy means none.
  function Declared(row: Object): Value {
    var declared := Get(row, "outcome_obligation");
    if Truthy(declared) then declared else Null
  }

  lemma DecisionBodyLeavesObligation(row: Object, data: Object)
    ensures "outcome_obligation" !in GovernanceDecisionBody(row, data)
  {
  }

  lemma ObligationIsOptional(row: Object)
    ensures Get(OptionalFields(row), "outcome_obligation") == Declared(row)
  {
    assert OPTIONAL_HASHED_FIELDS[5] == "outcome_obligation";
  }

  lemma SealedKeeps(row: Object, body: Object, k: string)
    requires k !in body && k != "record_kind" && k != "previous_hash"
    ensures Get(Sealed(row, body), k) == Get(OptionalFields(row), k)
  {
  }

  // A body whose keys are its own: none is optional, none is one of the two closing keys.
  predicate OwnKeys(body: Object) {
    forall k | k in body :: k !in OPTIONAL_HASHED_FIELDS && k != "record_kind" && k != "previous_hash"
  }

  // Nothing sealed is lost: equal forms have equal bodies, equal optional fields, one link and
  // one kind.
  lemma SealedCommits(a: Object, b: Object, bodyA: Object, bodyB: Object)
    requires OwnKeys(bodyA) && OwnKeys(bodyB) && bodyA.Keys == bodyB.Keys
    requires Sealed(a, bodyA) == Sealed(b, bodyB)
    ensures bodyA == bodyB
    ensures OptionalFields(a) == OptionalFields(b)
    ensures Get(a, "previous_hash") == Get(b, "previous_hash")
    ensures Get(a, "record_kind") == Get(b, "record_kind")
  {
    var form := Sealed(a, bodyA);
    forall k | k in bodyA
      ensures bodyA[k] == bodyB[k]
    {
      assert bodyA[k] == form[k] && bodyB[k] == Sealed(b, bodyB)[k];
    }
    OptionalReadBack(a, bodyA);
    OptionalReadBack(b, bodyB);
  }

  lemma OptionalReadBack(row: Object, body: Object)
    requires OwnKeys(body)
    ensures OptionalFields(row) == map k | k in Sealed(row, body)
                                          && k !in body && k != "record_kind" && k != "previous_hash"
                                          :: Sealed(row, body)[k]
  {
    hide OPTIONAL_HASHED_FIELDS;
    assert "record_kind" !in OPTIONAL_HASHED_FIELDS && "previous_hash" !in OPTIONAL_HASHED_FIELDS by {
      ClosingKeysAreNotOptional();
    }
  }

  lemma ClosingKeysAreNotOptional()
    ensures "record_kind" !in OPTIONAL_HASHED_FIELDS && "previous_hash" !in OPTIONAL_HASHED_FIELDS
  {
  }

  const DECISION_KEYS: set<string> := {
    "action_type", "node", "cassette_version", "input_data", "policy_parameters",
    "reasoning", "output", "previous_value", "applied_value", "parameter_changed"}

  lemma DecisionKeysAreNotOptional()
    ensures forall k | k in DECISION_KEYS :: k !in OPTIONAL_HASHED_FIELDS
  {
    assert "action_type" !in OPTIONAL_HASHED_FIELDS && "node" !in OPTIONAL_HASHED_FIELDS
           && "cassette_version" !in OPTIONAL_HASHED_FIELDS && "input_data" !in OPTIONAL_HASHED_FIELDS
           && "policy_parameters" !in OPTIONAL_HASHED_FIELDS by {
      FirstDecisionKeys();
    }
    assert "reasoning" !in OPTIONAL_HASHED_FIELDS && "output" !in OPTIONAL_HASHED_FIELDS
           && "previous_value" !in OPTIONAL_HASHED_FIELDS && "applied_value" !in OPTIONAL_HASHED_FIELDS
           && "parameter_changed" !in OPTIONAL_HASHED_FIELDS by {
      LastDecisionKeys();
    }
    hide OPTIONAL_HASHED_FIELDS;
  }

  lemma FirstDecisionKeys()
    ensures "action_type" !in OPTIONAL_HASHED_FIELDS && "node" !in OPTIONAL_HASHED_FIELDS
            && "cassette_version" !in OPTIONAL_HASHED_FIELDS && "input_data" !in OPTIONAL_HASHED_FIELDS
            && "policy_parameters" !in OPTIONAL_HASHED_FIELDS
  {
  }

  lemma LastDecisionKeys()
    ensures "reasoning" !in OPTIONAL_HASHED_FIELDS && "output" !in OPTIONAL_HASHED_FIELDS
            && "previous_value" !in OPTIONAL_HASHED_FIELDS && "applied_value" !in OPTIONAL_HASHED_FIELDS
            && "parameter_changed" !in OPTIONAL_HASHED_FIELDS
  {
  }

  lemma DecisionBodyKeys(row: Object, data: Object)
    ensures GovernanceDecisionBody(row, data).Keys == DECISION_KEYS
  {
    hide Get, Truthy;
  }

  lemma ReservedKeys()
    ensures "record_kind" !in DECISION_KEYS && "previous_hash" !in DECISION_KEYS
  {
  }

  // What a decision row was decided on, and under which policy.
  predicate SameInput(a: Object, b: Object) {
    && Get(a, "action_type") == Get(b, "action_type")
    && Get(a, "node") == Get(b, "node")
    && Get(a, "input_data") == Get(b, "input_data")
  }

  predicate SamePolicy(a: Object, b: Object) {
    && Get(a, "cassette_version") == Get(b, "cassette_version")
    && Get(a, "policy_parameters") == Get(b, "policy_parameters")
  }

  // Why, and with what result.
  predicate SameOutcome(a: Object, b: Object) {
    && Get(a, "reason") == Get(b, "reason")
    && Get(a, "decision_output") == Get(b, "decision_output")
    && Get(a, "previous_value") == Get(b, "previous_value")
    && Get(a, "applied_value") == Get(b, "applied_value")
  }

  lemma EqualBodiesSameInput(a: Object, b: Object, x: Object, y: Object)
    requires GovernanceDecisionBody(a, x) == GovernanceDecisionBody(b, y)
    ensures SameInput(a, b)
  {
    var p, q := GovernanceDecisionBody(a, x), GovernanceDecisionBody(b, y);
    hide Get;
    assert p["action_type"] == q["action_type"];
    assert p["node"] == q["node"];
    assert p["input_data"] == q["input_data"];
  }

  lemma EqualBodiesSamePolicy(a: Object, b: Object, x: Object, y: Object)
    requires GovernanceDecisionBody(a, x) == GovernanceDecisionBody(b, y)
    ensures SamePolicy(a, b)
  {
    var p, q := GovernanceDecisionBody(a, x), GovernanceDecisionBody(b, y);
    assert p["cassette_version"] == q["cassette_version"];
    assert p["policy_parameters"] == q["policy_parameters"];
  }

  lemma EqualBodiesSameOutcome(a: Object, b: Object, x: Object, y: Object)
    requires GovernanceDecisionBody(a, x) == GovernanceDecisionBody(b, y)
    ensures SameOutcome(a, b)
  {
    var p, q := GovernanceDecisionBody(a, x), GovernanceDecisionBody(b, y);
    assert p["reasoning"] == q["reasoning"] && p["output"] == q["output"];
    assert p["previous_value"] == q["previous_value"] && p["applied_value"] == q["applied_value"];
  }

  lemma EqualBodiesSameChange(a: Object, b: Object, x: Object, y: Object)
    requires GovernanceDecisionBody(a, x) == GovernanceDecisionBody(b, y)
    ensures Truthy(Get(x, "parameter_changed")) <==> Truthy(Get(y, "parameter_changed"))
  {
    hide Get, Truthy;
    assert GovernanceDecisionBody(a, x)["parameter_changed"] == GovernanceDecisionBody(b, y)["parameter_changed"];
  }

  lemma DecisionFormIs(row: Object)
    requires Get(row, "record_kind") == Str("governance_decision")
    requires CanonicalForm(row).Ok?
    ensures SubDict(row, "data").Ok?
    ensures CanonicalForm(row).value == Sealed(row, GovernanceDecisionBody(row, SubDict(row, "data").value))
  {
  }

  // bool((row.get("data") or {}).get("parameter_changed")), where it raises nothing.
  predicate ParameterChanged(row: Object) {
    var data := SubDict(row, "data");
    data.Ok? && Truthy(Get(data.value, "parameter_changed"))
  }

  /** Two decision rows that hash to one canonical form were decided on the same input, under the
      same policy, for the same reason, with the same output, changed a parameter or not alike,
      follow the same row, and carry the same optional fields. */
  lemma DecisionFormCommits(a: Object, b: Object)
    requires Get(a, "record_kind") == Get(b, "record_kind") == Str("governance_decision")
    requires CanonicalForm(a).Ok? && CanonicalForm(a) == CanonicalForm(b)
    ensures SameInput(a, b) && SamePolicy(a, b) && SameOutcome(a, b)
    ensures ParameterChanged(a) <==> ParameterChanged(b)
    ensures Get(a, "previous_hash") == Get(b, "previous_hash")
    ensures OptionalFields(a) == OptionalFields(b)
  {
    hide CanonicalForm, GovernanceDecisionBody, Sealed, OptionalFields, OPTIONAL_HASHED_FIELDS, DECISION_KEYS;
    hide SameInput, SamePolicy, SameOutcome;
    DecisionFormIs(a);
    DecisionFormIs(b);
    var x, y := SubDict(a, "data").value, SubDict(b, "data").value;
    ReservedKeys();
    DecisionBodyKeys(a, x);
    DecisionBodyKeys(b, y);
    DecisionKeysAreNotOptional();
    SealedCommits(a, b, GovernanceDecisionBody(a, x), GovernanceDecisionBody(b, y));
    EqualBodiesSameInput(a, b, x, y);
    EqualBodiesSamePolicy(a, b, x, y);
    EqualBodiesSameOutcome(a, b, x, y);
    EqualBodiesSameChange(a, b, x, y);
  }

  // The loop that adds the optional fields in place.
  method ApplyOptionalHashedFields(canonical: Object, source: Object) returns (r: Object)
    ensures r == canonical + OptionalFields(source)
  {
    r := AddPresent(OPTIONAL_HASHED_FIELDS, canonical, source);
  }

  lemma UpdateLast(p: Object, q: Object, k: string, v: Value)
    ensures p + q[k := v] == (p + q)[k := v]
  {
  }

  method AddPresent(keys: seq<string>, canonical: Object, source: Object) returns (r: Object)
    ensures r == canonical + Present(keys, source)
  {
    r := canonical;
    assert Present([], source) == map[];
    hide Present, Get, Truthy;
    for n := 0 to |keys|
      invariant r == canonical + Present(keys[..n], source)
    {
      var field := keys[n];
      assert keys[..n + 1] == keys[..n] + [field];
      PresentStep(keys[..n], field, source);
      UpdateLast(canonical, Present(keys[..n], source), field, Get(source, field));
      if Truthy(Get(source, field)) {
        r := r[field := Get(source, field)];
      }
    }
    assert keys[..|keys|] == keys;
  }
}
