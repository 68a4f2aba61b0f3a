/** A counterparty's partition chain and the anchor receipts over it:
    sentinel_os/contract_attestation.py. */
module Attestation {
  import opened Hashing

  // A row of a counterparty's slice: str(row.get("current_hash") or "").
  type RowHash = string

  // step_hash(n) = sha256(step_hash(n-1) || row.current_hash)
  function PartitionHead(sha: string -> string, rows: seq<RowHash>): string {
    if rows == [] then GENESIS
    else sha(PartitionHead(sha, rows[..|rows| - 1]) + rows[|rows| - 1])
  }

  datatype Step = Step(seqNo: nat, rowHash: RowHash, partitionHash: string)

  /** The fold in ledger order: step n holds row n and the head of the first n + 1 rows. */
  method PartitionChain(sha: string -> string, rows: seq<RowHash>) returns (chain: seq<Step>)
    ensures |chain| == |rows|
    ensures forall n | 0 <= n < |rows| :: chain[n] == Step(n, rows[n], PartitionHead(sha, rows[..n + 1]))
    ensures PartitionHead(sha, rows) == if chain == [] then GENESIS else chain[|chain| - 1].partitionHash
  {
    chain := [];
    var running := GENESIS;
    for n := 0 to |rows|
      invariant |chain| == n
      invariant running == PartitionHead(sha, rows[..n])
      invariant forall i | 0 <= i < n :: chain[i] == Step(i, rows[i], PartitionHead(sha, rows[..i + 1]))
    {
      assert rows[..n + 1][..n] == rows[..n];
      running := sha(running + rows[n]);
      chain := chain + [Step(n, rows[n], running)];
    }
    assert rows[..|rows|] == rows;
  }

  // A running value is the genesis marker or a digest, and its first character says which.
  ghost predicate IsRunning(s: string) {
    s == GENESIS || IsDigest(s)
  }

  lemma HeadIsRunning(sha: string -> string, rows: seq<RowHash>)
    requires IsDigestFunction(sha)
    ensures IsRunning(PartitionHead(sha, rows))
    ensures PartitionHead(sha, rows) == GENESIS <==> rows == []
  {
    if rows != [] {
      GenesisIsNoDigest(sha, PartitionHead(sha, rows[..|rows| - 1]) + rows[|rows| - 1]);
    }
  }

  /** The text hashed at one step, running value then row hash with nothing between, can be cut
      in only one way, whatever the row hashes are. */
  lemma StepDecodesUniquely(p: string, x: string, q: string, y: string)
    requires IsRunning(p) && IsRunning(q)
    requires p + x == q + y
    ensures p == q && x == y
  {
    assert p[0] == (p + x)[0] && q[0] == (q + y)[0];
    assert |p| == |q| by {
      assert !IsHex('g');
    }
    assert p == (p + x)[..|p|] == (q + y)[..|q|] == q;
    assert x == (p + x)[|p|..] && y == (q + y)[|q|..];
  }

  function StepText(sha: string -> string, rows: seq<RowHash>, n: nat): string
    requires n < |rows|
  {
    PartitionHead(sha, rows[..n]) + rows[n]
  }

  // The two partitions hash different texts to one digest at steps i and j.
  ghost predicate CollisionBetween(sha: string -> string, a: seq<RowHash>, b: seq<RowHash>) {
    exists i, j | 0 <= i < |a| && 0 <= j < |b| :: Collide(sha, StepText(sha, a, i), StepText(sha, b, j))
  }

  /** One head, one partition: the same row hashes in the same order, or two steps collide. */
  lemma {:induction false} HeadFixesPartition(sha: string -> string, a: seq<RowHash>, b: seq<RowHash>)
    requires IsDigestFunction(sha)
    requires PartitionHead(sha, a) == PartitionHead(sha, b)
    ensures a == b || CollisionBetween(sha, a, b)
    decreases |a|
  {
    HeadIsRunning(sha, a);
    HeadIsRunning(sha, b);
    if a != [] {
      var i, j := |a| - 1, |b| - 1;
      if StepText(sha, a, i) == StepText(sha, b, j) {
        HeadIsRunning(sha, a[..i]);
        HeadIsRunning(sha, b[..j]);
        StepDecodesUniquely(PartitionHead(sha, a[..i]), a[i], PartitionHead(sha, b[..j]), b[j]);
        HeadFixesPartition(sha, a[..i], b[..j]);
        if a[..i] == b[..j] {
          assert a == a[..i] + [a[i]] && b == b[..j] + [b[j]];
        } else {
          CollisionWidens(sha, a, b, i, j);
        }
      } else {
        assert Collide(sha, StepText(sha, a, i), StepText(sha, b, j));
      }
    }
  }

  lemma CollisionWidens(sha: string -> string, a: seq<RowHash>, b: seq<RowHash>, n: nat, m: nat)
    requires n <= |a| && m <= |b|
    requires CollisionBetween(sha, a[..n], b[..m])
    ensures CollisionBetween(sha, a, b)
  {
    var i, j :| 0 <= i < n && 0 <= j < m && Collide(sha, StepText(sha, a[..n], i), StepText(sha, b[..m], j));
    assert a[..n][..i] == a[..i] && b[..m][..j] == b[..j];
    assert Collide(sha, StepText(sha, a, i), StepText(sha, b, j));
  }

  /* -------- receipts -------- */

  // The facts a receipt's signature covers.
  datatype Payload = Payload(counterparty: string, head: string, rowCount: nat, issuedAt: string,
                             schemaVersion: string)

  datatype Receipt = Receipt(payload: Payload, signature: string)

  /** Ed25519: `signs` and `verifies` are library code. All that is used of them is that a
      signature just made verifies under the matching public key. */
  datatype Scheme = Scheme(signs: Payload -> string, verifies: (Payload, string) -> bool)
  {
    ghost predicate Sound() {
      forall p :: verifies(p, signs(p))
    }
  }

  const SCHEMA_VERSION := "1.0.0"

  function IssueAnchorReceipt(scheme: Scheme, sha: string -> string, counterparty: string,
                              rows: seq<RowHash>, issuedAt: string): Receipt
  {
    var payload := Payload(counterparty, PartitionHead(sha, rows), |rows|, issuedAt, SCHEMA_VERSION);
    Receipt(payload, scheme.signs(payload))
  }

  datatype Continuity =
    | InvalidReceipt
    | RowsRemoved(rowsNow: nat, rowsAtReceipt: nat)
    | HeadChanged(expected: string, recomputed: string)
    | Continuous(currentHead: string)

  function VerifyContinuity(scheme: Scheme, sha: string -> string, receipt: Receipt,
                            rows: seq<RowHash>): Continuity
  {
    var p := receipt.payload;
    if !scheme.verifies(p, receipt.signature) then InvalidReceipt
    else if |rows| < p.rowCount then RowsRemoved(|rows|, p.rowCount)
    else
      var recomputed := PartitionHead(sha, rows[..p.rowCount]);
      if recomputed != p.head then HeadChanged(p.head, recomputed)
      else Continuous(PartitionHead(sha, rows))
  }

  /** A receipt issued over `rows` calls a later list continuous exactly when the list still
      begins with those row hashes in that order, however much it has grown; the only way out is
      a collision between a step of the issued partition and a step of the presented one. */
  lemma ContinuousMeansPrefix(scheme: Scheme, sha: string -> string, counterparty: string,
                              rows: seq<RowHash>, issuedAt: string, later: seq<RowHash>)
    requires scheme.Sound() && IsDigestFunction(sha)
    ensures var verdict :=
            VerifyContinuity(scheme, sha, IssueAnchorReceipt(scheme, sha, counterparty, rows, issuedAt), later);
            && (rows <= later ==> verdict == Continuous(PartitionHead(sha, later)))
            && (verdict.Continuous? ==> rows <= later || CollisionBetween(sha, rows, later))
            && (verdict.RowsRemoved? <==> |later| < |rows|)
            && verdict != InvalidReceipt
  {
    var n := |rows|;
    if n <= |later| {
      if PartitionHead(sha, later[..n]) == PartitionHead(sha, rows) {
        HeadFixesPartition(sha, rows, later[..n]);
        if CollisionBetween(sha, rows, later[..n]) {
          assert rows[..n] == rows;
          CollisionWidens(sha, rows, later, n, n);
        }
      }
      assert rows <= later ==> later[..n] == rows;
    }
  }

  /** Receipts taken later than others only commit to more: with no collision between the two
      partitions, a list continuous with the newer receipt is continuous with the older one. */
  lemma ReceiptsAccumulate(scheme: Scheme, sha: string -> string, counterparty: string,
                           rows: seq<RowHash>, more: seq<RowHash>, t0: string, t1: string, later: seq<RowHash>)
    requires scheme.Sound() && IsDigestFunction(sha)
    requires !CollisionBetween(sha, rows + more, later)
    requires VerifyContinuity(scheme, sha, IssueAnchorReceipt(scheme, sha, counterparty, rows + more, t1),
                              later).Continuous?
    ensures VerifyContinuity(scheme, sha, IssueAnchorReceipt(scheme, sha, counterparty, rows, t0), later).Continuous?
  {
    ContinuousMeansPrefix(scheme, sha, counterparty, rows + more, t1, later);
    ContinuousMeansPrefix(scheme, sha, counterparty, rows, t0, later);
  }
}
