/** The egress decision and the approvals it reads: sentinel_os/contract_egress.py, over the purposes
    and classes of sentinel_os/contract_cassette.py. */
module Egress {
  import opened Wrappers
  import opened Texts

  // An absent field and an empty one are the same to this code.
  type Fields = map<string, string>

  // A contract_approval row of the ledger.
  datatype Row = Row(data: Fields, authorizedBy: string)

  type States = map<string, Fields>

  const APPROVAL_ID := "approval_id"
  const APPROVER := "approver"
  const GRANTED_AT := "granted_at"
  const EXPIRES_AT := "expires_at"
  const REVOKED_AT := "revoked_at"
  const STATE := "state"

  function Field(d: Fields, k: string): string {
    if k in d then d[k] else ""
  }

  /* -------- the fold -------- */

  function Supplied(d: Fields): Fields {
    map k | k in d && d[k] != "" :: d[k]
  }

  // One row over the state so far of its approval.
  function Updated(current: Fields, row: Row): Fields {
    var merged := (current + Supplied(row.data))[APPROVAL_ID := Field(row.data, APPROVAL_ID)];
    merged[APPROVER := if row.authorizedBy != "" then row.authorizedBy else Field(merged, APPROVER)]
  }

  function Folded(states: States, row: Row): States {
    var id := Field(row.data, APPROVAL_ID);
    if id == "" then states
    else states[id := Updated(if id in states then states[id] else map[], row)]
  }

  // latest_approval_states
  function LatestStates(rows: seq<Row>): States {
    if rows == [] then map[] else Folded(LatestStates(rows[..|rows| - 1]), rows[|rows| - 1])
  }

  method LatestApprovalStates(rows: seq<Row>) returns (states: States)
    ensures states == LatestStates(rows)
  {
    states := map[];
    for i := 0 to |rows|
      invariant states == LatestStates(rows[..i])
    {
      assert rows[..i + 1][..i] == rows[..i];
      var data := rows[i].data;
      var id := Field(data, APPROVAL_ID);
      if id != "" {
        var current: Fields := if id in states then states[id] else map[];
        current := current + (map k | k in data && data[k] != "" :: data[k]);
        current := current[APPROVAL_ID := id];
        current :=
          current[APPROVER := if rows[i].authorizedBy != "" then rows[i].authorizedBy else Field(current, APPROVER)];
        states := states[id := current];
      }
    }
    assert rows[..|rows|] == rows;
  }

  // The last value any row of the approval gave a field.
  function LastGiven(rows: seq<Row>, id: string, k: string): string {
    if rows == [] then ""
    else
      var row := rows[|rows| - 1];
      if Field(row.data, APPROVAL_ID) == id && Field(row.data, k) != "" then Field(row.data, k)
      else LastGiven(rows[..|rows| - 1], id, k)
  }

  /** The state of an approval holds in each field the last value any of its rows supplied: nothing a
      row leaves out or leaves empty takes back what an earlier row said. */
  lemma {:induction false} StateIsLastGiven(rows: seq<Row>, id: string, k: string)
    requires id != "" && k != APPROVAL_ID && k != APPROVER
    ensures var states := LatestStates(rows);
            && (id in states <==> exists row :: row in rows && Field(row.data, APPROVAL_ID) == id)
            && (id in states ==> Field(states[id], k) == LastGiven(rows, id, k))
            && (id !in states ==> LastGiven(rows, id, k) == "")
  {
    if rows != [] {
      hide Folded;
      var n := |rows| - 1;
      assert rows == rows[..n] + [rows[n]];
      StateIsLastGiven(rows[..n], id, k);
      FoldedField(LatestStates(rows[..n]), rows[n], id, k);
    }
  }

  // What one row does to one field of one approval.
  lemma FoldedField(states: States, row: Row, id: string, k: string)
    requires id != "" && k != APPROVAL_ID && k != APPROVER
    ensures var folded, mine := Folded(states, row), Field(row.data, APPROVAL_ID) == id;
            && (id in folded <==> id in states || mine)
            && (id in folded ==>
                  Field(folded[id], k) == if mine && Field(row.data, k) != "" then Field(row.data, k)
                                          else if id in states then Field(states[id], k) else "")
  {
  }

  // Who last stood behind an approval: the row's own authority, or else what its data names.
  function LastApprover(rows: seq<Row>, id: string): string {
    if rows == [] then ""
    else
      var row := rows[|rows| - 1];
      if Field(row.data, APPROVAL_ID) != id then LastApprover(rows[..|rows| - 1], id)
      else if row.authorizedBy != "" then row.authorizedBy
      else if Field(row.data, APPROVER) != "" then Field(row.data, APPROVER)
      else LastApprover(rows[..|rows| - 1], id)
  }

  /** Each state is filed under its own id and names the last authority behind it. */
  lemma {:induction false} StateIsFiledAndSigned(rows: seq<Row>, id: string)
    requires id != ""
    ensures var states := LatestStates(rows);
            && (id in states ==>
                  Field(states[id], APPROVAL_ID) == id && Field(states[id], APPROVER) == LastApprover(rows, id))
            && (id !in states ==> LastApprover(rows, id) == "")
  {
    if rows != [] {
      hide Folded;
      var n := |rows| - 1;
      StateIsFiledAndSigned(rows[..n], id);
      FoldedApprover(LatestStates(rows[..n]), rows[n], id);
    }
  }

  lemma FoldedApprover(states: States, row: Row, id: string)
    requires id != ""
    ensures var folded, mine := Folded(states, row), Field(row.data, APPROVAL_ID) == id;
            && (id in folded <==> id in states || mine)
            && (id in folded && mine ==>
                  && Field(folded[id], APPROVAL_ID) == id
                  && Field(folded[id], APPROVER) == if row.authorizedBy != "" then row.authorizedBy
                                                    else if Field(row.data, APPROVER) != "" then
                                                      Field(row.data, APPROVER)
                                                    else if id in states then Field(states[id], APPROVER) else "")
            && (id in folded && !mine ==> folded[id] == states[id])
  {
  }

  lemma {:induction false} StillGiven(rows: seq<Row>, later: seq<Row>, id: string, k: string)
    requires forall row | row in later :: Field(row.data, APPROVAL_ID) == id ==> Field(row.data, k) == ""
    ensures LastGiven(rows + later, id, k) == LastGiven(rows, id, k)
  {
    if later == [] {
      assert rows + later == rows;
    } else {
      var n := |later| - 1;
      assert (rows + later)[..|rows + later| - 1] == rows + later[..n];
      StillGiven(rows, later[..n], id, k);
    }
  }

  /* -------- was it live -------- */

  // How an ISO timestamp reads as an instant, when it does.
  type Clock = string -> Option<int>

  // _parse_ts: nothing is read from blank text.
  function ParseTs(clock: Clock, text: string): Option<int> {
    if IsBlank(text) then None else clock(text)
  }

  datatype Verdict = Pass | Flag | Indeterminate

  // approval_live_at
  function LiveAt(clock: Clock, approval: Option<Fields>, at: string): Verdict {
    if approval.None? then Flag
    else
      var a := approval.value;
      var when, granted := ParseTs(clock, at), ParseTs(clock, Field(a, GRANTED_AT));
      if when.None? || granted.None? then Indeterminate
      else if when.value < granted.value then Flag
      else
        var expires := ParseTs(clock, Field(a, EXPIRES_AT));
        if Field(a, EXPIRES_AT) != "" && expires.None? then Indeterminate
        else if expires.Some? && when.value > expires.value then Flag
        else
          var revoked := ParseTs(clock, Field(a, REVOKED_AT));
          if Field(a, REVOKED_AT) != "" && revoked.None? then Indeterminate
          else if revoked.Some? && when.value >= revoked.value then Flag
          else if Field(a, STATE) == "revoked" && revoked.None? then Indeterminate
          else Pass
  }

  // Granted, unexpired and unrevoked at an instant, with every time readable.
  ghost predicate IsLive(clock: Clock, a: Fields, at: string) {
    var when := ParseTs(clock, at);
    && when.Some?
    && (var granted := ParseTs(clock, Field(a, GRANTED_AT)); granted.Some? && granted.value <= when.value)
    && (Field(a, EXPIRES_AT) != "" ==>
          var expires := ParseTs(clock, Field(a, EXPIRES_AT)); expires.Some? && when.value <= expires.value)
    && (Field(a, REVOKED_AT) != "" ==>
          var revoked := ParseTs(clock, Field(a, REVOKED_AT)); revoked.Some? && when.value < revoked.value)
    && (Field(a, STATE) == "revoked" ==> Field(a, REVOKED_AT) != "")
  }

  lemma PassMeansLive(clock: Clock, approval: Option<Fields>, at: string)
    ensures LiveAt(clock, approval, at) == Pass <==> approval.Some? && IsLive(clock, approval.value, at)
  {
  }

  /* -------- the decision -------- */

  // What evaluate_egress asks of a contract: each restriction term is its set of purposes.
  datatype Contract = Contract(prohibited: seq<string>, restrictions: seq<set<string>>, approvalClasses: seq<string>)

  datatype Request = Request(recipientClass: string, purpose: string, approvalReference: string, at: string)

  datatype Reason =
    | NoContract
    | PurposeProhibited
    | PurposeNotPermitted
    | ApprovalRequiredMissing
    | ApprovalNotFound
    | ApprovalNotLive

  // permitted_purposes: the terms intersect.
  function Permitted(restrictions: seq<set<string>>): set<string>
    requires restrictions != []
  {
    var last := restrictions[|restrictions| - 1];
    if |restrictions| == 1 then last else Permitted(restrictions[..|restrictions| - 1]) * last
  }

  method PermittedPurposes(contract: Contract) returns (permitted: Option<set<string>>)
    ensures contract.restrictions == [] <==> permitted.None?
    ensures permitted.Some? ==> permitted.value == Permitted(contract.restrictions)
  {
    if contract.restrictions == [] {
      return None;
    }
    var common := contract.restrictions[0];
    var terms := contract.restrictions;
    for i := 1 to |terms|
      invariant common == Permitted(terms[..i])
    {
      assert terms[..i + 1][..i] == terms[..i];
      common := common * terms[i];
    }
    assert terms[..|terms|] == terms;
    return Some(common);
  }

  function ApprovalReasons(clock: Clock, contract: Contract, request: Request, approvals: States): seq<Reason> {
    if request.recipientClass !in contract.approvalClasses then []
    else if request.approvalReference == "" then [ApprovalRequiredMissing]
    else
      var approval :=
        if request.approvalReference in approvals then Some(approvals[request.approvalReference]) else None;
      match LiveAt(clock, approval, request.at)
      case Pass => []
      case Flag => [if approval.None? then ApprovalNotFound else ApprovalNotLive]
      case Indeterminate => [ApprovalNotLive]
  }

  // evaluate_egress: authorized when there is no reason to refuse.
  function Evaluated(clock: Clock, contract: Option<Contract>, request: Request, approvals: States):
    (bool, seq<Reason>)
  {
    if contract.None? then (false, [NoContract])
    else
      var c := contract.value;
      var reasons := (if request.purpose in c.prohibited then [PurposeProhibited] else [])
                     + (if c.restrictions != [] && request.purpose !in Permitted(c.restrictions)
                        then [PurposeNotPermitted] else [])
                     + ApprovalReasons(clock, c, request, approvals);
      (reasons == [], reasons)
  }

  method EvaluateEgress(clock: Clock, contract: Option<Contract>, request: Request, approvals: States)
    returns (authorized: bool, reasons: seq<Reason>)
    ensures (authorized, reasons) == Evaluated(clock, contract, request, approvals)
  {
    if contract.None? {
      return false, [NoContract];
    }
    hide Permitted;
    var c := contract.value;
    reasons := [];
    if request.purpose in c.prohibited {
      reasons := reasons + [PurposeProhibited];
    }
    var permitted := PermittedPurposes(c);
    if permitted.Some? && request.purpose !in permitted.value {
      reasons := reasons + [PurposeNotPermitted];
    }
    if request.recipientClass in c.approvalClasses {
      if request.approvalReference == "" {
        reasons := reasons + [ApprovalRequiredMissing];
      } else {
        var approval :=
          if request.approvalReference in approvals then Some(approvals[request.approvalReference]) else None;
        var verdict := LiveAt(clock, approval, request.at);
        if verdict == Flag {
          reasons := reasons + [if approval.None? then ApprovalNotFound else ApprovalNotLive];
        } else if verdict == Indeterminate {
          reasons := reasons + [ApprovalNotLive];
        }
      }
    }
    assert reasons == (if request.purpose in c.prohibited then [PurposeProhibited] else [])
                      + (if permitted.Some? && request.purpose !in permitted.value then [PurposeNotPermitted] else [])
                      + ApprovalReasons(clock, c, request, approvals);
    authorized := reasons == [];
  }

  lemma {:induction false} PermittedByAll(restrictions: seq<set<string>>, purpose: string)
    requires restrictions != []
    ensures purpose in Permitted(restrictions) <==> forall i | 0 <= i < |restrictions| :: purpose in restrictions[i]
  {
    if |restrictions| > 1 {
      PermittedByAll(restrictions[..|restrictions| - 1], purpose);
    }
  }

  /** An egress is authorized exactly when there is a contract, no term prohibits the purpose, every
      restriction term permits it, and, where the recipient needs one, the approval referenced is
      granted, unexpired and unrevoked at that time, every one of its times being readable. */
  lemma AuthorizedExactly(clock: Clock, contract: Option<Contract>, request: Request, approvals: States)
    ensures Evaluated(clock, contract, request, approvals).0
            <==> contract.Some?
                 && request.purpose !in contract.value.prohibited
                 && (forall i | 0 <= i < |contract.value.restrictions| ::
                       request.purpose in contract.value.restrictions[i])
                 && (request.recipientClass in contract.value.approvalClasses ==>
                       && request.approvalReference != ""
                       && request.approvalReference in approvals
                       && IsLive(clock, approvals[request.approvalReference], request.at))
  {
    hide LiveAt, IsLive, Permitted;
    if contract.Some? {
      if contract.value.restrictions != [] {
        PermittedByAll(contract.value.restrictions, request.purpose);
      }
      if request.approvalReference in approvals {
        PassMeansLive(clock, Some(approvals[request.approvalReference]), request.at);
      } else {
        PassMeansLive(clock, None, request.at);
      }
    }
  }

  // These rows give an approval no time of revocation.
  ghost predicate UndatedFor(rows: seq<Row>, id: string) {
    forall row | row in rows :: Field(row.data, APPROVAL_ID) == id ==> Field(row.data, REVOKED_AT) == ""
  }

  /** Once a row has given an approval a time of revocation, no later rows that give it no other, grants
      included, let an egress that needs the approval be authorized at or after that time; and if that
      time cannot be read, at any time. */
  lemma RevocationIsPermanent(clock: Clock, contract: Option<Contract>, request: Request, rows: seq<Row>,
                              later: seq<Row>)
    requires contract.Some? ==> request.recipientClass in contract.value.approvalClasses
    requires var id := request.approvalReference;
             LastGiven(rows, id, REVOKED_AT) != "" && UndatedFor(later, id)
    requires var revoked, when :=
             ParseTs(clock, LastGiven(rows, request.approvalReference, REVOKED_AT)), ParseTs(clock, request.at);
             revoked.Some? && when.Some? ==> revoked.value <= when.value
    ensures !Evaluated(clock, contract, request, LatestStates(rows + later)).0
  {
    hide Evaluated, LatestStates, ParseTs;
    var id, all := request.approvalReference, rows + later;
    var states := LatestStates(all);
    AuthorizedExactly(clock, contract, request, states);
    if id != "" && id in states {
      StillGiven(rows, later, id, REVOKED_AT);
      StateIsLastGiven(all, id, REVOKED_AT);
    }
  }

  // The contract lets the purpose through, if the approval is there.
  ghost predicate PurposeAllowed(contract: Contract, purpose: string) {
    && purpose !in contract.prohibited
    && forall i | 0 <= i < |contract.restrictions| :: purpose in contract.restrictions[i]
  }

  /** Whether an approval is revoked for good, in one condition: no later rows that give it no time of
      revocation can let the egress through exactly when the rows so far gave it one that is not after
      the egress, or that cannot be read. */
  lemma RevocationExactly(clock: Clock, contract: Contract, request: Request, rows: seq<Row>)
    requires request.approvalReference != "" && request.recipientClass in contract.approvalClasses
    requires PurposeAllowed(contract, request.purpose) && ParseTs(clock, request.at).Some?
    ensures (forall later | UndatedFor(later, request.approvalReference) ::
               !Evaluated(clock, Some(contract), request, LatestStates(rows + later)).0)
            <==> var given := LastGiven(rows, request.approvalReference, REVOKED_AT);
                 && given != ""
                 && (ParseTs(clock, given).Some? ==> ParseTs(clock, given).value <= ParseTs(clock, request.at).value)
  {
    hide Evaluated, LatestStates, LastGiven, ParseTs;
    var id := request.approvalReference;
    var given := LastGiven(rows, id, REVOKED_AT);
    if given != ""
      && (ParseTs(clock, given).Some? ==> ParseTs(clock, given).value <= ParseTs(clock, request.at).value) {
      forall later | UndatedFor(later, id)
        ensures !Evaluated(clock, Some(contract), request, LatestStates(rows + later)).0
      {
        RevocationIsPermanent(clock, Some(contract), request, rows, later);
      }
    } else {
      var grant := GrantAt(id, request.at);
      GrantedNow(clock, rows, id, request.at);
      AuthorizedExactly(clock, Some(contract), request, LatestStates(rows + [grant]));
      assert UndatedFor([grant], id);
    }
  }

  // A grant from one instant to that instant.
  function GrantAt(id: string, at: string): Row {
    Row(map[APPROVAL_ID := id, GRANTED_AT := at, EXPIRES_AT := at, STATE := "granted"], "approver")
  }

  lemma GrantedNow(clock: Clock, rows: seq<Row>, id: string, at: string)
    requires id != "" && ParseTs(clock, at).Some?
    requires var given := LastGiven(rows, id, REVOKED_AT);
             given == "" || (ParseTs(clock, given).Some? && ParseTs(clock, at).value < ParseTs(clock, given).value)
    ensures var states := LatestStates(rows + [GrantAt(id, at)]);
            id in states && IsLive(clock, states[id], at)
  {
    hide ParseTs, LatestStates, LastGiven, Field, GrantAt, IsLive;
    NothingToParse(clock);
    var all := rows + [GrantAt(id, at)];
    GrantFields(id, at);
    GrantGives(rows, id, at);
    StateIsLastGiven(all, id, GRANTED_AT);
    StateIsLastGiven(all, id, EXPIRES_AT);
    StateIsLastGiven(all, id, REVOKED_AT);
    StateIsLastGiven(all, id, STATE);
    assert GrantAt(id, at) in all;
    FieldsAreLive(clock, LatestStates(all)[id], at);
  }

  lemma GrantFields(id: string, at: string)
    ensures var d := GrantAt(id, at).data;
            && Field(d, APPROVAL_ID) == id && Field(d, GRANTED_AT) == Field(d, EXPIRES_AT) == at
            && Field(d, STATE) == "granted" && Field(d, REVOKED_AT) == ""
  {
  }

  lemma GrantGives(rows: seq<Row>, id: string, at: string)
    requires at != ""
    ensures var all := rows + [GrantAt(id, at)];
            && LastGiven(all, id, GRANTED_AT) == LastGiven(all, id, EXPIRES_AT) == at
            && LastGiven(all, id, STATE) == "granted"
            && LastGiven(all, id, REVOKED_AT) == LastGiven(rows, id, REVOKED_AT)
  {
    hide LastGiven, Field, GrantAt;
    var grant := GrantAt(id, at);
    GrantFields(id, at);
    GivenSnoc(rows, grant, id, GRANTED_AT);
    GivenSnoc(rows, grant, id, EXPIRES_AT);
    GivenSnoc(rows, grant, id, REVOKED_AT);
    GivenSnoc(rows, grant, id, STATE);
  }

  lemma FieldsAreLive(clock: Clock, a: Fields, at: string)
    requires ParseTs(clock, at).Some?
    requires Field(a, GRANTED_AT) == Field(a, EXPIRES_AT) == at && Field(a, STATE) == "granted"
    requires var given := Field(a, REVOKED_AT);
             given == "" || (ParseTs(clock, given).Some? && ParseTs(clock, at).value < ParseTs(clock, given).value)
    ensures IsLive(clock, a, at)
  {
    hide ParseTs, Field;
  }

  // What record_contract_approval refuses to write: a revocation with no time.
  predicate Recorded(row: Row) {
    Field(row.data, STATE) == "revoked" ==> !IsBlank(Field(row.data, REVOKED_AT))
  }

  /** On a ledger that only `record_contract_approval` has written to, every revocation is dated, so
      the permanence above covers each of them. */
  lemma {:induction false} RecordedRevocationsAreDated(rows: seq<Row>, id: string)
    requires forall row | row in rows :: Recorded(row)
    ensures (exists row :: row in rows && Field(row.data, APPROVAL_ID) == id && Field(row.data, STATE) == "revoked")
            ==> LastGiven(rows, id, REVOKED_AT) != ""
  {
    if rows != [] {
      var front, last := rows[..|rows| - 1], rows[|rows| - 1];
      assert rows == front + [last];
      assert forall row | row in front :: row in rows;
      RecordedRevocationsAreDated(front, id);
      assert last in rows && IsBlank("");
    }
  }

  /** A revocation row that gives no time, which only another writer can leave on the ledger, is not
      permanent: it stops every egress, until the next grant row takes it back. */
  lemma TimelessRevocationIsUndone(clock: Clock, rows: seq<Row>, grant: Row, id: string, at: string)
    requires id != "" && LastGiven(rows, id, REVOKED_AT) == "" && LastGiven(rows, id, STATE) == "revoked"
    requires Field(grant.data, APPROVAL_ID) == id && Field(grant.data, STATE) == "granted"
    requires Field(grant.data, REVOKED_AT) == "" && LastGiven(rows + [grant], id, EXPIRES_AT) == ""
    requires var when, granted := ParseTs(clock, at), ParseTs(clock, Field(grant.data, GRANTED_AT));
             when.Some? && granted.Some? && granted.value <= when.value
    ensures id in LatestStates(rows) && !IsLive(clock, LatestStates(rows)[id], at)
    ensures id in LatestStates(rows + [grant]) && IsLive(clock, LatestStates(rows + [grant])[id], at)
  {
    assert Field(grant.data, GRANTED_AT) != "" by { NothingToParse(clock); }
    hide ParseTs, LatestStates, LastGiven;
    var all := rows + [grant];
    StateIsLastGiven(rows, id, STATE);
    StateIsLastGiven(rows, id, REVOKED_AT);
    StateIsLastGiven(all, id, STATE);
    StateIsLastGiven(all, id, REVOKED_AT);
    StateIsLastGiven(all, id, GRANTED_AT);
    StateIsLastGiven(all, id, EXPIRES_AT);
    GivenSnoc(rows, grant, id, STATE);
    GivenSnoc(rows, grant, id, REVOKED_AT);
    GivenSnoc(rows, grant, id, GRANTED_AT);
    assert grant in all;
  }

  lemma NothingToParse(clock: Clock)
    ensures ParseTs(clock, "") == None
  {
  }

  lemma GivenSnoc(rows: seq<Row>, row: Row, id: string, k: string)
    ensures LastGiven(rows + [row], id, k)
            == if Field(row.data, APPROVAL_ID) == id && Field(row.data, k) != "" then Field(row.data, k)
               else LastGiven(rows, id, k)
  {
    assert (rows + [row])[..|rows|] == rows;
  }
}
