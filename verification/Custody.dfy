/** The witness's walk over a ledger (`deep_verify_row`, `verify_rows`), the signed head anchor
    (`build_head_anchor`, `check_head_anchor`) and the offline verdict that combines them:
    sentinel_os/twin_custody.py and tools/verify_receipts.py. */
module Custody {
  import opened Json
  import opened Wrappers
  import Encoder
  import opened Hashing
  import opened Canonical

  // The answers of `verify_authorized_by_signature` and of the anchor's HMAC check.
  datatype Attestation = AttOk | AttInvalid | AttRetiredKey | AttUnknownKey | AttUnverifiable

  /** What the witness computes with and is not modelled here: SHA-256, the ledger's JSON
      encoder, the digest of a decision's subject (None where it raises TypeError), the seed
      and signature checks under the keys it holds, and whether it was given keys at all. */
  datatype Witness = Witness(
    sha: string -> string,
    dumps: Object -> string,
    subjectDigest: Value -> Option<string>,
    seedHolds: (Value, Value, Value) -> bool,
    attest: Object -> Attestation,
    holdsKeys: bool)
  {
    // The encoder is injective on canonical dictionaries; nothing is assumed of the rest.
    ghost predicate Sound() {
      && IsDigestFunction(sha)
      && forall x, y | dumps(x) == dumps(y) :: x == y
    }
  }

  /** What is assumed of a witness can be had: here is an encoder that loses nothing. */
  lemma WitnessExists() returns (w: Witness)
    ensures w.Sound()
  {
    w := Witness(Constant, d => Encoder.Encode(Obj(d)), v => None, (a, b, c) => true, row => AttUnverifiable, false);
    ConstantIsDigest();
    forall x, y | w.dumps(x) == w.dumps(y)
      ensures x == y
    {
      Encoder.EncodeIsInjective(Obj(x), Obj(y));
    }
  }

  datatype Violation = TAMPERED | TRANSPLANTED | SEED_FORGED | TRUNCATED | UNATTESTED

  // The verdict on one row: it holds, it fails, or reading it raises past the handler.
  datatype RowCheck = Holds | Fails(violation: Violation) | Raises

  function RecomputeCurrentHash(w: Witness, row: Object): Result<string, Failure> {
    var form := CanonicalForm(row);
    if form.Ok? then Ok(w.sha(w.dumps(form.value))) else Err(form.error)
  }

  // `not stored`, or the digest of the stored input is the stored digest.
  predicate SubjectBound(w: Witness, row: Object) {
    var stored := Get(row, "subject_digest");
    var input := Get(row, "input_data");
    var expected := w.subjectDigest(if Truthy(input) then input else Obj(map[]));
    Truthy(stored) ==> expected.Some? && Str(expected.value) == stored
  }

  predicate SeedHolds(w: Witness, row: Object) {
    w.seedHolds(Get(row, "shuffle_seed"), Get(row, "previous_hash"), Get(row, "record_kind"))
  }

  function DeepVerifyRow(w: Witness, row: Object): RowCheck {
    var recomputed := RecomputeCurrentHash(w, row);
    if recomputed == Err(AttributeError) then Raises
    else if recomputed.Err? then Fails(TAMPERED)
    else if Str(recomputed.value) != Get(row, "current_hash") then Fails(TAMPERED)
    else if !SubjectBound(w, row) then Fails(TRANSPLANTED)
    else if !SeedHolds(w, row) then Fails(SEED_FORGED)
    else if w.holdsKeys && Truthy(Get(row, "authorized_by_sig")) then
      match w.attest(row)
      case AttInvalid => Fails(TAMPERED)
      case AttUnknownKey => Fails(UNATTESTED)
      case AttUnverifiable => Fails(UNATTESTED)
      case _ => Holds
    else Holds
  }

  predicate UnsignedClaim(row: Object) {
    Truthy(Get(row, "authorized_by")) && !Truthy(Get(row, "authorized_by_sig"))
  }

  // policy_from after this row: the id of the first marker row (a null id does not count).
  function PolicyAfter(policyFrom: Value, row: Object): Value {
    if Get(row, "record_kind") == Str("attestation_policy") && policyFrom == Null
    then Get(row, "id") else policyFrom
  }

  function CheckRow(w: Witness, row: Object, prev: Value, policyFrom: Value): RowCheck {
    if Get(row, "previous_hash") != prev then Fails(TAMPERED)
    else match DeepVerifyRow(w, row)
      case Holds => if policyFrom != Null && UnsignedClaim(row) then Fails(UNATTESTED) else Holds
      case bad => bad
  }

  datatype Verdict = Clean | Failing(rowId: Value, violation: Violation) | Raised

  // What the walk says of one row that did not hold.
  function Stop(row: Object, check: RowCheck): Verdict
    requires check != Holds
  {
    match check
    case Fails(violation) => Failing(Get(row, "id"), violation)
    case Raises => Raised
  }

  /* -------- the chain, said without the walk -------- */

  // The hash the next row must link to.
  function Head(rows: seq<Object>): Value {
    if rows == [] then Str(GENESIS) else Get(rows[|rows| - 1], "current_hash")
  }

  // The policy in force after these rows.
  function PolicyFrom(rows: seq<Object>): Value {
    if rows == [] then Null else PolicyAfter(PolicyFrom(rows[..|rows| - 1]), rows[|rows| - 1])
  }

  // Row i links to its predecessor, is what was hashed, is bound to its subject and seed, and
  // names nobody unsigned once a policy marker has been passed.
  predicate RowAccepted(w: Witness, rows: seq<Object>, i: nat)
    requires i < |rows|
  {
    CheckRow(w, rows[i], Head(rows[..i]), PolicyFrom(rows[..i])) == Holds
  }

  ghost predicate Accepted(w: Witness, rows: seq<Object>) {
    forall i | 0 <= i < |rows| :: RowAccepted(w, rows, i)
  }

  // A row from which on unsigned claims are refused.
  predicate IsMarker(row: Object) {
    Get(row, "record_kind") == Str("attestation_policy") && Get(row, "id") != Null
  }

  // No unsigned accountable claim anywhere after a marker.
  ghost predicate AttestedSinceMarker(rows: seq<Object>) {
    forall m, i | 0 <= m < i < |rows| :: IsMarker(rows[m]) ==> !UnsignedClaim(rows[i])
  }

  /** The walk: the first row that does not hold, or Clean. */
  method VerifyRows(w: Witness, rows: seq<Object>) returns (verdict: Verdict)
    ensures verdict == Clean <==> Accepted(w, rows)
    ensures verdict != Clean ==>
              exists i | 0 <= i < |rows| ::
                && Accepted(w, rows[..i]) && !RowAccepted(w, rows, i)
                && verdict == Stop(rows[i], CheckRow(w, rows[i], Head(rows[..i]), PolicyFrom(rows[..i])))
    ensures verdict == WalkVerdict(w, rows)
  {
    hide DeepVerifyRow;
    var prev := Str(GENESIS);
    var policyFrom := Null;
    for i := 0 to |rows|
      invariant prev == Head(rows[..i]) && policyFrom == PolicyFrom(rows[..i])
      invariant forall j | 0 <= j < i :: RowAccepted(w, rows, j)
      invariant WalkVerdict(w, rows) == WalkOn(w, rows, i)
    {
      var row := rows[i];
      var check := CheckRow(w, row, prev, policyFrom);
      if check != Holds {
        AcceptedPrefix(w, rows, i);
        assert !RowAccepted(w, rows, i);
        return Stop(row, check);
      }
      assert rows[..i + 1][..i] == rows[..i];
      policyFrom := PolicyAfter(policyFrom, row);
      prev := Get(row, "current_hash");
    }
    assert rows[..|rows|] == rows;
    return Clean;
  }

  // The same verdict as a function, for the lemmas.
  function WalkVerdict(w: Witness, rows: seq<Object>): Verdict {
    WalkOn(w, rows, 0)
  }

  function WalkOn(w: Witness, rows: seq<Object>, i: nat): Verdict
    requires i <= |rows|
    decreases |rows| - i
  {
    if i == |rows| then Clean
    else
      var check := CheckRow(w, rows[i], Head(rows[..i]), PolicyFrom(rows[..i]));
      if check == Holds then WalkOn(w, rows, i + 1) else Stop(rows[i], check)
  }

  // Acceptance of a prefix is acceptance of its rows where they stand.
  lemma AcceptedPrefix(w: Witness, rows: seq<Object>, n: nat)
    requires n <= |rows|
    ensures Accepted(w, rows[..n]) <==> forall i | 0 <= i < n :: RowAccepted(w, rows, i)
  {
    forall i | 0 <= i < n
      ensures RowAccepted(w, rows[..n], i) <==> RowAccepted(w, rows, i)
    {
      assert rows[..n][..i] == rows[..i];
    }
  }

  lemma {:induction false} WalkOnIsAcceptance(w: Witness, rows: seq<Object>, n: nat)
    requires n <= |rows|
    requires forall i | 0 <= i < n :: RowAccepted(w, rows, i)
    ensures WalkOn(w, rows, n) == Clean <==> Accepted(w, rows)
    decreases |rows| - n
  {
    hide DeepVerifyRow;
    if n < |rows| && RowAccepted(w, rows, n) {
      WalkOnIsAcceptance(w, rows, n + 1);
    }
  }

  lemma {:induction false} PolicyIsFirstMarker(rows: seq<Object>, n: nat)
    requires n <= |rows|
    ensures PolicyFrom(rows[..n]) != Null <==> exists m | 0 <= m < n :: IsMarker(rows[m])
  {
    if n > 0 {
      PolicyIsFirstMarker(rows, n - 1);
      assert rows[..n][..n - 1] == rows[..n - 1];
    }
  }

  lemma RowMeans(w: Witness, rows: seq<Object>, i: nat)
    requires i < |rows|
    ensures RowAccepted(w, rows, i) <==>
              && Get(rows[i], "previous_hash") == Head(rows[..i])
              && DeepVerifyRow(w, rows[i]) == Holds
              && (UnsignedClaim(rows[i]) ==> forall m | 0 <= m < i :: !IsMarker(rows[m]))
  {
    hide DeepVerifyRow, IsMarker, UnsignedClaim, Head, PolicyFrom;
    PolicyIsFirstMarker(rows, i);
  }

  /** What acceptance comes to, row by row and over the whole chain. */
  lemma AcceptedMeans(w: Witness, rows: seq<Object>)
    ensures Accepted(w, rows) <==>
              && (forall i | 0 <= i < |rows| :: Get(rows[i], "previous_hash") == Head(rows[..i]))
              && (forall i | 0 <= i < |rows| :: DeepVerifyRow(w, rows[i]) == Holds)
              && AttestedSinceMarker(rows)
  {
    hide DeepVerifyRow, IsMarker, UnsignedClaim, Head, RowAccepted;
    forall i | 0 <= i < |rows|
      ensures RowAccepted(w, rows, i) <==>
                && Get(rows[i], "previous_hash") == Head(rows[..i])
                && DeepVerifyRow(w, rows[i]) == Holds
                && (UnsignedClaim(rows[i]) ==> forall m | 0 <= m < i :: !IsMarker(rows[m]))
    {
      RowMeans(w, rows, i);
    }
  }

  /* -------- the head fixes the chain -------- */

  // The text hashed for a row.
  function Preimage(w: Witness, row: Object): string
    requires CanonicalForm(row).Ok?
  {
    w.dumps(CanonicalForm(row).value)
  }

  // Row i of one chain and row j of the other were hashed from different texts to one digest.
  predicate CollisionAt(w: Witness, a: seq<Object>, b: seq<Object>, i: nat, j: nat)
    requires i < |a| && j < |b|
  {
    && CanonicalForm(a[i]).Ok? && CanonicalForm(b[j]).Ok?
    && Collide(w.sha, Preimage(w, a[i]), Preimage(w, b[j]))
  }

  // Some row of one chain collides with some row of the other.
  ghost predicate CollisionBetween(w: Witness, a: seq<Object>, b: seq<Object>) {
    exists i, j | 0 <= i < |a| && 0 <= j < |b| :: CollisionAt(w, a, b, i, j)
  }

  // The rows of a hash to the canonical forms of the rows of b, in order.
  ghost predicate SameForms(a: seq<Object>, b: seq<Object>) {
    && |a| == |b|
    && forall i | 0 <= i < |a| :: CanonicalForm(a[i]) == CanonicalForm(b[i])
  }

  lemma RowHoldsMeans(w: Witness, row: Object)
    requires DeepVerifyRow(w, row) == Holds
    ensures CanonicalForm(row).Ok?
    ensures Get(row, "current_hash") == Str(w.sha(Preimage(w, row)))
  {
  }

  // The last row of an accepted chain: what it was hashed from, and what it links to.
  lemma LastRow(w: Witness, rows: seq<Object>)
    requires rows != [] && Accepted(w, rows)
    ensures var last := rows[|rows| - 1];
            && CanonicalForm(last).Ok?
            && Head(rows) == Str(w.sha(Preimage(w, last)))
            && CanonicalForm(last).value["previous_hash"] == Head(rows[..|rows| - 1])
            && Accepted(w, rows[..|rows| - 1])
    ensures IsDigestFunction(w.sha) ==> Head(rows) != Str(GENESIS)
  {
    var n := |rows| - 1;
    assert RowAccepted(w, rows, n);
    RowHoldsMeans(w, rows[n]);
    AcceptedPrefix(w, rows, n);
    if IsDigestFunction(w.sha) {
      GenesisIsNoDigest(w.sha, Preimage(w, rows[n]));
    }
  }

  /** Two accepted chains with one head are the same length and hash the same canonical form at
      every position, or two of their own rows are a SHA-256 collision. */
  lemma {:induction false} HeadFixesChain(w: Witness, a: seq<Object>, b: seq<Object>)
    requires w.Sound()
    requires Accepted(w, a) && Accepted(w, b)
    requires Head(a) == Head(b)
    ensures SameForms(a, b) || CollisionBetween(w, a, b)
    decreases |a| + |b|
  {
    hide CanonicalForm, RowAccepted;
    if a != [] { LastRow(w, a); }
    if b != [] { LastRow(w, b); }
    if a != [] {
      var i, j := |a| - 1, |b| - 1;
      if CanonicalForm(a[i]) != CanonicalForm(b[j]) {
        assert CollisionAt(w, a, b, i, j);
      } else {
        HeadFixesChain(w, a[..i], b[..j]);
        if SameForms(a[..i], b[..j]) {
          OneMoreForm(a, b);
        } else {
          CollisionWidens(w, a, b, i, j);
        }
      }
    }
  }

  lemma OneMoreForm(a: seq<Object>, b: seq<Object>)
    requires a != [] && b != [] && SameForms(a[..|a| - 1], b[..|b| - 1])
    requires CanonicalForm(a[|a| - 1]) == CanonicalForm(b[|b| - 1])
    ensures SameForms(a, b)
  {
    hide CanonicalForm;
    var i := |a| - 1;
    var front, back := a[..i], b[..i];
    forall k | 0 <= k < i
      ensures CanonicalForm(a[k]) == CanonicalForm(b[k])
    {
      assert front[k] == a[k] && back[k] == b[k];
    }
  }

  lemma CollisionWidens(w: Witness, a: seq<Object>, b: seq<Object>, n: nat, m: nat)
    requires n <= |a| && m <= |b|
    requires CollisionBetween(w, a[..n], b[..m])
    ensures CollisionBetween(w, a, b)
  {
    var i, j :| 0 <= i < n && 0 <= j < m && CollisionAt(w, a[..n], b[..m], i, j);
    assert CollisionAt(w, a, b, i, j);
  }

  /* -------- the signed head anchor -------- */

  datatype Anchor = Anchor(head: string, entries: int, sealedAt: string, fingerprint: string,
                           hmac: string, name: Option<string>)

  // The keys a verifier holds, by fingerprint.
  datatype KeySet = KeySet(trusted: map<string, string>, retired: map<string, string>)

  /** HMAC-SHA256, the key fingerprint, the text an anchor's HMAC covers, and the printable-name
      check: library code, taken as unknown functions. */
  datatype Signer = Signer(
    mac: (string, string) -> string,
    fingerprint: string -> string,
    payload: (string, int, string, string, Option<string>) -> string,
    nameAllowed: string -> bool)

  // A name the empty string gives is not signed and not stored.
  function StoredName(name: Option<string>): Option<string> {
    if name == Some("") then None else name
  }

  function BuildHeadAnchor(s: Signer, head: string, entries: int, key: string, sealedAt: string,
                           name: Option<string>): Result<Anchor, string>
  {
    if key == "" then Err("a head anchor needs the ledger attestation key")
    else if name.Some? && !s.nameAllowed(name.value) then Err("anchor name not allowed")
    else
      var fp := s.fingerprint(key);
      var stored := StoredName(name);
      Ok(Anchor(head, entries, sealedAt, fp, s.mac(key, s.payload(head, entries, sealedAt, fp, stored)), stored))
  }

  function VerifyHeadAnchor(s: Signer, anchor: Anchor, keys: KeySet): Attestation {
    var payload := s.payload(anchor.head, anchor.entries, anchor.sealedAt, anchor.fingerprint, StoredName(anchor.name));
    if keys.trusted == map[] && keys.retired == map[] then AttUnverifiable
    else if anchor.name == Some("") then AttInvalid
    else if anchor.fingerprint in keys.trusted then
      if s.mac(keys.trusted[anchor.fingerprint], payload) == anchor.hmac then AttOk else AttInvalid
    else if anchor.fingerprint in keys.retired then
      if s.mac(keys.retired[anchor.fingerprint], payload) == anchor.hmac then AttRetiredKey else AttInvalid
    else AttUnknownKey
  }

  // None when the anchored head is a prefix of the chain; else TRUNCATED at a row.
  function CheckHeadAnchor(s: Signer, rows: seq<Object>, anchor: Anchor, keys: KeySet): Verdict {
    var status := VerifyHeadAnchor(s, anchor, keys);
    if status != AttOk && status != AttRetiredKey then Failing(Null, TRUNCATED)
    else if anchor.entries <= 0 then Clean
    else if |rows| < anchor.entries then
      Failing(if rows == [] then Null else Get(rows[|rows| - 1], "id"), TRUNCATED)
    else
      var at := rows[anchor.entries - 1];
      if Get(at, "current_hash") != Str(anchor.head) then Failing(Get(at, "id"), TRUNCATED) else Clean
  }

  // The keys hold this key under its own fingerprint.
  predicate KeyHeld(s: Signer, key: string, keys: KeySet) {
    var fp := s.fingerprint(key);
    (fp in keys.trusted && keys.trusted[fp] == key)
    || (fp !in keys.trusted && fp in keys.retired && keys.retired[fp] == key)
  }

  /** An anchor built with a held key verifies: as trusted, or as retired when that is how the
      key is held. */
  lemma BuiltAnchorVerifies(s: Signer, head: string, entries: int, key: string, sealedAt: string,
                            name: Option<string>, keys: KeySet)
    requires BuildHeadAnchor(s, head, entries, key, sealedAt, name).Ok?
    requires KeyHeld(s, key, keys)
    ensures var anchor := BuildHeadAnchor(s, head, entries, key, sealedAt, name).value;
            VerifyHeadAnchor(s, anchor, keys)
            == if s.fingerprint(key) in keys.trusted then AttOk else AttRetiredKey
  {
    var fp := s.fingerprint(key);
    assert fp in keys.trusted ==> keys.trusted != map[];
    assert fp in keys.retired ==> keys.retired != map[];
  }

  // The anchor someone holding a verifiable key sealed over this chain.
  predicate SealedOver(s: Signer, anchor: Anchor, rows: seq<Object>, keys: KeySet) {
    && VerifyHeadAnchor(s, anchor, keys) in {AttOk, AttRetiredKey}
    && anchor.entries == |rows|
    && Str(anchor.head) == Head(rows)
  }

  /** Appending honestly after sealing is never reported: any chain that extends the sealed one
      passes, whatever was appended. */
  lemma GrowthKeepsAnchor(s: Signer, anchor: Anchor, rows: seq<Object>, more: seq<Object>, keys: KeySet)
    requires SealedOver(s, anchor, rows, keys)
    ensures CheckHeadAnchor(s, rows + more, anchor, keys) == Clean
  {
    if rows != [] {
      assert (rows + more)[|rows| - 1] == rows[|rows| - 1];
    }
  }

  lemma SealedHead(s: Signer, anchor: Anchor, sealedRows: seq<Object>, rows: seq<Object>, keys: KeySet)
    requires sealedRows != [] && SealedOver(s, anchor, sealedRows, keys)
    requires CheckHeadAnchor(s, rows, anchor, keys) == Clean
    ensures |rows| >= |sealedRows| && Head(rows[..|sealedRows|]) == Head(sealedRows)
  {
    hide VerifyHeadAnchor;
    var n := |sealedRows|;
    assert n <= |rows| && rows[..n][n - 1] == rows[n - 1];
  }

  lemma PrefixAccepted(w: Witness, rows: seq<Object>, n: nat)
    requires n <= |rows| && Accepted(w, rows)
    ensures Accepted(w, rows[..n])
  {
    AcceptedPrefix(w, rows, n);
  }

  /** A chain that passes the walk and the anchor holds the sealed chain as its prefix, form by
      form, or two rows collide. */
  lemma AnchoredPrefix(w: Witness, s: Signer, anchor: Anchor, sealedRows: seq<Object>,
                       rows: seq<Object>, keys: KeySet)
    requires w.Sound()
    requires sealedRows != [] && Accepted(w, sealedRows) && SealedOver(s, anchor, sealedRows, keys)
    requires Accepted(w, rows) && CheckHeadAnchor(s, rows, anchor, keys) == Clean
    ensures |rows| >= |sealedRows|
    ensures SameForms(rows[..|sealedRows|], sealedRows) || CollisionBetween(w, rows, sealedRows)
  {
    hide Accepted, CanonicalForm, RowAccepted, SameForms, CollisionBetween;
    var n := |sealedRows|;
    SealedHead(s, anchor, sealedRows, rows, keys);
    PrefixAccepted(w, rows, n);
    hide SealedOver, CheckHeadAnchor, Head;
    HeadFixesChain(w, rows[..n], sealedRows);
    if CollisionBetween(w, rows[..n], sealedRows) {
      assert sealedRows[..n] == sealedRows;
      CollisionWidens(w, rows, sealedRows, n, n);
    }
  }

  /** An anchor over no rows vouches for nothing: every chain passes it. A cut is noticed only
      once something was sealed. */
  lemma EmptyAnchorVouchesForNothing(s: Signer, anchor: Anchor, rows: seq<Object>, keys: KeySet)
    requires VerifyHeadAnchor(s, anchor, keys) in {AttOk, AttRetiredKey}
    ensures (forall chain: seq<Object> :: CheckHeadAnchor(s, chain, anchor, keys) == Clean)
            <==> anchor.entries <= 0
  {
    assert anchor.entries > 0 ==> CheckHeadAnchor(s, [], anchor, keys) != Clean;
  }

  /* -------- the offline tool -------- */

  datatype Finding = VERIFIED | Broken(rowId: Value, violation: Violation) | Crashed

  // The verdict printed, and whether an anchor finding is printed beside a failing row.
  function Verify(w: Witness, s: Signer, rows: seq<Object>, anchor: Anchor, keys: KeySet): (Finding, bool) {
    var failing := WalkVerdict(w, rows);
    var anchored := CheckHeadAnchor(s, rows, anchor, keys);
    match failing
    case Raised => (Crashed, false)
    case Failing(id, violation) => (Broken(id, violation), anchored != Clean)
    case Clean =>
      match anchored
      case Failing(id, violation) => (Broken(id, violation), false)
      case _ => (VERIFIED, false)
  }

  /** VERIFIED is printed exactly for an accepted chain under an anchor that verifies and whose
      head is the hash at the sealed position. TRUNCATED is printed only for an accepted chain. */
  lemma VerifiedMeans(w: Witness, s: Signer, rows: seq<Object>, anchor: Anchor, keys: KeySet)
    ensures Verify(w, s, rows, anchor, keys).0 == VERIFIED <==>
              && Accepted(w, rows)
              && VerifyHeadAnchor(s, anchor, keys) in {AttOk, AttRetiredKey}
              && (anchor.entries > 0 ==>
                    anchor.entries <= |rows| && Head(rows[..anchor.entries]) == Str(anchor.head))
    ensures Verify(w, s, rows, anchor, keys).0.Broken? ==>
              Verify(w, s, rows, anchor, keys).0.violation == TRUNCATED ==> Accepted(w, rows)
  {
    hide RowAccepted, WalkOn, VerifyHeadAnchor;
    WalkOnIsAcceptance(w, rows, 0);
    WalkNamesNoAnchor(w, rows, 0);
  }

  lemma {:induction false} WalkNamesNoAnchor(w: Witness, rows: seq<Object>, n: nat)
    requires n <= |rows|
    ensures WalkOn(w, rows, n).Failing? ==> WalkOn(w, rows, n).violation != TRUNCATED
    decreases |rows| - n
  {
    if n < |rows| {
      WalkNamesNoAnchor(w, rows, n + 1);
    }
  }
}
