/** The key custodian's signed, hash-chained audit log and its decrypt flow:
    sentinel_os/twin_custodian.py. */
module Custodian {
  import opened Json
  import opened Wrappers
  import opened Hashing
  import Encoder
  import opened Sequences

  datatype Event =
    | RegisterReplica(replica: string, requester: string)
    | Decrypt(replica: string, primary: int, requester: string, granted: bool, reason: string)

  // What a record's hash covers.
  datatype Core = Core(seqNo: int, ts: Double, prevHash: string, event: Event)

  datatype Record = Record(core: Core, currHash: string, sig: string)

  /** SHA-256, the canonical JSON encoder (injective), and the custodian's Ed25519 key. */
  datatype Keys = Keys(
    sha: string -> string,
    encode: Core -> string,
    signs: (Core, string) -> string,
    verifies: (Core, string, string) -> bool)
  {
    // Digests are digests, and the encoder is injective.
    ghost predicate Sound() {
      && IsDigestFunction(sha)
      && forall x, y | encode(x) == encode(y) :: x == y
    }

    // A signature just made verifies.
    ghost predicate Signs() {
      forall core, hash :: verifies(core, hash, signs(core, hash))
    }
  }

  function EventValue(e: Event): Value {
    match e
    case RegisterReplica(replica, requester) => Arr([Str(replica), Str(requester)])
    case Decrypt(replica, primary, requester, granted, reason) =>
      Arr([Str(replica), Int(primary), Str(requester), Bool(granted), Str(reason)])
  }

  function CoreValue(core: Core): Value {
    Arr([Int(core.seqNo), Float(core.ts), Str(core.prevHash), EventValue(core.event)])
  }

  /** What is assumed of the custodian's keys can be had: here is an encoder that loses nothing. */
  lemma KeysExist() returns (k: Keys)
    ensures k.Sound() && k.Signs()
  {
    k := Keys(Constant, core => Encoder.Encode(CoreValue(core)),
              (core, hash) => hash, (core, hash, sig) => sig == hash);
    ConstantIsDigest();
    forall x, y | k.encode(x) == k.encode(y)
      ensures x == y
    {
      Encoder.EncodeIsInjective(CoreValue(x), CoreValue(y));
      assert CoreValue(x).items[3] == CoreValue(y).items[3];
      assert EventValue(x.event).items == EventValue(y.event).items;
      SameEvent(x.event, y.event);
    }
  }

  lemma SameEvent(e: Event, f: Event)
    requires EventValue(e) == EventValue(f)
    ensures e == f
  {
    var x, y := EventValue(e).items, EventValue(f).items;
    assert x[0] == y[0] && x[1] == y[1] && |x| == |y|;
    if e.Decrypt? {
      assert x[2] == y[2] && x[3] == y[3] && x[4] == y[4];
    }
  }

  function HashOf(k: Keys, core: Core): string {
    k.sha(k.encode(core))
  }

  function RecordOf(k: Keys, core: Core): Record {
    Record(core, HashOf(k, core), k.signs(core, HashOf(k, core)))
  }

  // The hash the next record must carry as its prev_hash.
  function LastHash(log: seq<Record>): string {
    if log == [] then GENESIS else log[|log| - 1].currHash
  }

  // The sequence number of the last record, as a restart reads it back.
  function LastSeq(log: seq<Record>): int {
    if log == [] then 0 else log[|log| - 1].core.seqNo
  }

  /* -------- verification -------- */

  predicate RecordVerifies(k: Keys, log: seq<Record>, i: nat)
    requires i < |log|
  {
    var rec := log[i];
    && rec.core.prevHash == LastHash(log[..i])
    && rec.currHash == HashOf(k, rec.core)
    && k.verifies(rec.core, rec.currHash, rec.sig)
  }

  ghost predicate LogVerifies(k: Keys, log: seq<Record>) {
    forall i | 0 <= i < |log| :: RecordVerifies(k, log, i)
  }

  datatype Audit = Intact(records: nat) | ChainBreak(atSeq: int) | BadSignature(atSeq: int)

  method VerifyAuditLog(k: Keys, log: seq<Record>) returns (audit: Audit)
    ensures audit.Intact? <==> LogVerifies(k, log)
    ensures audit.Intact? ==> audit.records == |log|
    ensures !audit.Intact? ==>
              exists i | 0 <= i < |log| ::
                && LogVerifies(k, log[..i]) && !RecordVerifies(k, log, i)
                && audit.atSeq == log[i].core.seqNo
  {
    var prev := GENESIS;
    for i := 0 to |log|
      invariant prev == LastHash(log[..i])
      invariant LogVerifies(k, log[..i])
      invariant forall j | 0 <= j < i :: RecordVerifies(k, log, j)
    {
      var rec := log[i];
      if rec.core.prevHash != prev || rec.currHash != HashOf(k, rec.core) {
        assert !RecordVerifies(k, log, i);
        return ChainBreak(rec.core.seqNo);
      }
      if !k.verifies(rec.core, rec.currHash, rec.sig) {
        assert !RecordVerifies(k, log, i);
        return BadSignature(rec.core.seqNo);
      }
      prev := rec.currHash;
      VerifiesSnoc(k, log[..i], rec);
      assert log[..i + 1] == log[..i] + [rec];
    }
    assert log[..|log|] == log;
    return Intact(|log|);
  }

  lemma VerifiesSnoc(k: Keys, log: seq<Record>, rec: Record)
    ensures LogVerifies(k, log + [rec]) <==>
              && LogVerifies(k, log)
              && rec.core.prevHash == LastHash(log)
              && rec.currHash == HashOf(k, rec.core)
              && k.verifies(rec.core, rec.currHash, rec.sig)
  {
    var longer := log + [rec];
    assert longer[..|log|] == log;
    forall i | 0 <= i < |log|
      ensures RecordVerifies(k, longer, i) <==> RecordVerifies(k, log, i)
    {
      assert longer[..i] == log[..i];
    }
    assert LogVerifies(k, longer) ==> RecordVerifies(k, longer, |log|);
  }

  ghost predicate CollisionBetween(k: Keys, a: seq<Record>, b: seq<Record>) {
    exists i, j | 0 <= i < |a| && 0 <= j < |b| ::
      Collide(k.sha, k.encode(a[i].core), k.encode(b[j].core))
  }

  ghost predicate SameCores(a: seq<Record>, b: seq<Record>) {
    && |a| == |b|
    && forall i | 0 <= i < |a| :: a[i].core == b[i].core && a[i].currHash == b[i].currHash
  }

  /** Two verified logs with one last hash record the same events in the same order at the same
      times, or two of their records collide. (Signatures may differ: they are not hashed.) */
  lemma {:induction false} LastHashFixesLog(k: Keys, a: seq<Record>, b: seq<Record>)
    requires k.Sound()
    requires LogVerifies(k, a) && LogVerifies(k, b)
    requires LastHash(a) == LastHash(b)
    ensures SameCores(a, b) || CollisionBetween(k, a, b)
    decreases |a| + |b|
  {
    VerifiedHeadIsDigest(k, a);
    VerifiedHeadIsDigest(k, b);
    if a != [] {
      var i, j := |a| - 1, |b| - 1;
      assert a == a[..i] + [a[i]] && b == b[..j] + [b[j]];
      VerifiesSnoc(k, a[..i], a[i]);
      VerifiesSnoc(k, b[..j], b[j]);
      if a[i].core == b[j].core {
        LastHashFixesLog(k, a[..i], b[..j]);
        if !SameCores(a[..i], b[..j]) {
          var m, n :| 0 <= m < i && 0 <= n < j
                      && Collide(k.sha, k.encode(a[..i][m].core), k.encode(b[..j][n].core));
          assert Collide(k.sha, k.encode(a[m].core), k.encode(b[n].core));
        }
      } else {
        assert Collide(k.sha, k.encode(a[i].core), k.encode(b[j].core));
      }
    }
  }

  lemma VerifiedHeadIsDigest(k: Keys, log: seq<Record>)
    requires k.Sound() && LogVerifies(k, log)
    ensures LastHash(log) == GENESIS <==> log == []
  {
    if log != [] {
      assert RecordVerifies(k, log, |log| - 1);
      GenesisIsNoDigest(k.sha, k.encode(log[|log| - 1].core));
    }
  }

  /* -------- the running custodian -------- */

  // What has been done for one decrypt request. The nonce is spent on entering Authorized.
  datatype Stage = Authorized(nonce: string) | Granted(nonce: string)

  /** The custodian's files (log, nonceFile, replicas) and memory (seqNo, lastHash, nonces), the
      requests in flight, and, for the record only, the nonce of every granted record and of
      every plaintext returned. */
  datatype State = State(
    log: seq<Record>, nonceFile: set<string>,
    seqNo: int, lastHash: string, nonces: set<string>,
    inFlight: map<nat, Stage>,
    grants: seq<string>, returned: seq<string>)

  const Start := State([], {}, 0, GENESIS, {}, map[], [], [])

  /** One atomic step. Every file operation under the custodian's lock is one step; a process
      can die between any two. A write that raises has already advanced the counter. */
  datatype Act =
    | Refuse(event: Event, ts: Double)                // log a refusal, or a registration
    | Spend(request: nat, nonce: string)            // consume_nonce
    | Grant(request: nat, event: Event, ts: Double)   // log the granted decrypt
    | Reject(request: nat, event: Event, ts: Double)  // the envelope did not open
    | Return(request: nat)                          // hand the plaintext back
    | FailedWrite                                   // a log append that raised
    | Restart                                       // the process died and came back

  // Granted decrypt records and no others are logged by Grant.
  predicate Possible(s: State, a: Act) {
    match a
    case Refuse(event, _) => !(event.Decrypt? && event.granted)
    case Spend(request, _) => request !in s.inFlight
    case Grant(request, event, _) =>
      request in s.inFlight && s.inFlight[request].Authorized? && event.Decrypt? && event.granted
    case Reject(request, event, _) =>
      request in s.inFlight && s.inFlight[request].Authorized? && event.Decrypt? && !event.granted
    case Return(request) => request in s.inFlight && s.inFlight[request].Granted?
    case FailedWrite => true
    case Restart => true
  }

  function Append(k: Keys, s: State, event: Event, ts: Double): State {
    var rec := RecordOf(k, Core(s.seqNo + 1, ts, s.lastHash, event));
    s.(log := s.log + [rec], seqNo := s.seqNo + 1, lastHash := rec.currHash)
  }

  function Next(k: Keys, s: State, a: Act): State
    requires Possible(s, a)
  {
    match a
    case Refuse(event, ts) => Append(k, s, event, ts)
    case Spend(request, nonce) =>
      if nonce in s.nonces then s
      else s.(nonces := s.nonces + {nonce}, nonceFile := s.nonces + {nonce},
              inFlight := s.inFlight[request := Authorized(nonce)])
    case Grant(request, event, ts) =>
      var nonce := s.inFlight[request].nonce;
      Append(k, s, event, ts).(inFlight := s.inFlight[request := Granted(nonce)], grants := s.grants + [nonce])
    case Reject(request, event, ts) =>
      Append(k, s, event, ts).(inFlight := s.inFlight - {request})
    case Return(request) =>
      s.(inFlight := s.inFlight - {request}, returned := s.returned + [s.inFlight[request].nonce])
    case FailedWrite => s.(seqNo := s.seqNo + 1)
    case Restart =>
      s.(seqNo := LastSeq(s.log), lastHash := LastHash(s.log), nonces := s.nonceFile, inFlight := map[])
  }

  // The state after a run, None when some act was not possible where it was taken.
  function Run(k: Keys, acts: seq<Act>): Option<State> {
    if acts == [] then Some(Start)
    else
      var s := Run(k, acts[..|acts| - 1]);
      var a := acts[|acts| - 1];
      if s.Some? && Possible(s.value, a) then Some(Next(k, s.value, a)) else None
  }

  function GrantedRecords(log: seq<Record>): nat {
    if log == [] then 0
    else
      var last := log[|log| - 1].core.event;
      GrantedRecords(log[..|log| - 1]) + if last.Decrypt? && last.granted then 1 else 0
  }

  ghost predicate LogInv(k: Keys, s: State) {
    && LogVerifies(k, s.log)
    && s.lastHash == LastHash(s.log)
    && LastSeq(s.log) <= s.seqNo
    && (forall i, j | 0 <= i < j < |s.log| :: s.log[i].core.seqNo < s.log[j].core.seqNo)
    && (forall i | 0 <= i < |s.log| :: i < s.log[i].core.seqNo)
  }

  ghost predicate NonceInv(s: State) {
    && s.nonceFile == s.nonces
    && NoDuplicates(s.grants) && NoDuplicates(s.returned)
    && (forall n | n in s.grants :: n in s.nonces)
    && (forall n | n in s.returned :: n in s.grants)
    && (forall r | r in s.inFlight :: s.inFlight[r].nonce in s.nonces)
    && (forall r | r in s.inFlight :: s.inFlight[r].Authorized? <==> s.inFlight[r].nonce !in s.grants)
    && (forall r | r in s.inFlight :: s.inFlight[r].nonce !in s.returned)
    && (forall r, t | r in s.inFlight && t in s.inFlight && r != t :: s.inFlight[r].nonce != s.inFlight[t].nonce)
  }

  lemma AppendKeepsLog(k: Keys, s: State, event: Event, ts: Double)
    requires k.Signs() && LogInv(k, s)
    ensures LogInv(k, Append(k, s, event, ts))
  {
    VerifiesSnoc(k, s.log, RecordOf(k, Core(s.seqNo + 1, ts, s.lastHash, event)));
  }

  lemma {:induction false} ReachableLog(k: Keys, acts: seq<Act>)
    requires k.Signs() && Run(k, acts).Some?
    ensures LogInv(k, Run(k, acts).value)
  {
    if acts != [] {
      var a := acts[|acts| - 1];
      ReachableLog(k, acts[..|acts| - 1]);
      var s := Run(k, acts[..|acts| - 1]).value;
      if a.Refuse? || a.Grant? || a.Reject? {
        AppendKeepsLog(k, s, a.event, a.ts);
      }
    }
  }

  /** Every log the custodian can produce, over any interleaving of requests, failed writes and
      restarts, passes the audit, and its sequence numbers strictly increase. */
  lemma EveryLogVerifies(k: Keys, acts: seq<Act>)
    requires k.Signs() && Run(k, acts).Some?
    ensures var log := Run(k, acts).value.log;
            && LogVerifies(k, log)
            && forall i, j | 0 <= i < j < |log| :: 0 < log[i].core.seqNo < log[j].core.seqNo
  {
    ReachableLog(k, acts);
  }

  lemma NonceStep(k: Keys, s: State, a: Act)
    requires NonceInv(s) && Possible(s, a)
    ensures NonceInv(Next(k, s, a))
  {
  }

  /** No nonce authorises two decrypts and no plaintext leaves without its own granted record:
      the nonces of granted records are pairwise distinct, and every plaintext returned answers
      to a different one of them. */
  lemma {:induction false} EachGrantHasItsNonce(k: Keys, acts: seq<Act>)
    requires Run(k, acts).Some?
    ensures var s := Run(k, acts).value;
            && NonceInv(s)
            && GrantedRecords(s.log) == |s.grants|
            && NoDuplicates(s.grants) && NoDuplicates(s.returned)
            && (forall n | n in s.returned :: n in s.grants)
  {
    if acts != [] {
      var a := acts[|acts| - 1];
      EachGrantHasItsNonce(k, acts[..|acts| - 1]);
      var s := Run(k, acts[..|acts| - 1]).value;
      NonceStep(k, s, a);
      if a.Refuse? || a.Grant? || a.Reject? {
        var longer := Append(k, s, a.event, a.ts).log;
        assert longer[..|longer| - 1] == s.log;
      }
    }
  }

  predicate NeverRestarts(acts: seq<Act>) {
    forall a | a in acts :: a != Restart
  }

  /** With no restart, every granted record's plaintext has been returned or is about to be. */
  lemma {:induction false} GrantsAreAnswered(k: Keys, acts: seq<Act>)
    requires Run(k, acts).Some? && NeverRestarts(acts)
    ensures var s := Run(k, acts).value;
            forall n | n in s.grants :: Answered(s, n)
  {
    if acts != [] {
      var earlier, a := acts[..|acts| - 1], acts[|acts| - 1];
      assert forall e | e in earlier :: e in acts;
      GrantsAreAnswered(k, earlier);
      var s := Run(k, earlier).value;
      EachGrantHasItsNonce(k, earlier);
      assert a in acts;
      AnsweredStep(k, s, a);
    }
  }

  ghost predicate Answered(s: State, n: string) {
    n in s.returned || exists r :: r in s.inFlight && s.inFlight[r] == Granted(n)
  }

  lemma AnsweredStep(k: Keys, s: State, a: Act)
    requires NonceInv(s) && Possible(s, a) && a != Restart
    requires forall n | n in s.grants :: Answered(s, n)
    ensures forall n | n in Next(k, s, a).grants :: Answered(Next(k, s, a), n)
  {
    var t := Next(k, s, a);
    forall n | n in t.grants
      ensures Answered(t, n)
    {
      if n in s.grants {
        assert Answered(s, n);
        if n !in s.returned {
          var r :| r in s.inFlight && s.inFlight[r] == Granted(n);
          assert n in t.returned || (r in t.inFlight && t.inFlight[r] == Granted(n));
        }
      } else {
        assert t.inFlight[a.request] == Granted(n);
      }
    }
  }

  /* -------- sequence numbers 1..n -------- */

  ghost predicate Numbered(log: seq<Record>) {
    forall i | 0 <= i < |log| :: log[i].core.seqNo == i + 1
  }

  predicate Writes(a: Act) {
    a.Refuse? || a.Grant? || a.Reject?
  }

  // The counter has run ahead of the log: a write failed and nothing has restarted since.
  predicate Ahead(acts: seq<Act>) {
    acts != [] && (acts[|acts| - 1] == FailedWrite
                   || (acts[|acts| - 1] != Restart && Ahead(acts[..|acts| - 1])))
  }

  // Some record was written while the counter was ahead.
  predicate WroteAhead(acts: seq<Act>) {
    acts != [] && (WroteAhead(acts[..|acts| - 1])
                   || (Writes(acts[|acts| - 1]) && Ahead(acts[..|acts| - 1])))
  }

  /** The records are numbered 1..n exactly when no record was ever written between a failed
      write and the next restart: the failed append had already advanced the counter. */
  lemma NumberedExactly(k: Keys, acts: seq<Act>)
    requires k.Signs() && Run(k, acts).Some?
    ensures Numbered(Run(k, acts).value.log) <==> !WroteAhead(acts)
  {
    NumberingInv(k, acts);
  }

  lemma NumberedSnoc(log: seq<Record>, rec: Record)
    ensures Numbered(log + [rec]) <==> Numbered(log) && rec.core.seqNo == |log| + 1
    ensures Numbered(log) ==> LastSeq(log) == |log|
  {
    var longer := log + [rec];
    assert forall i | 0 <= i < |log| :: longer[i] == log[i];
    assert longer[|log|] == rec;
  }

  lemma {:induction false} NumberingInv(k: Keys, acts: seq<Act>)
    requires k.Signs() && Run(k, acts).Some?
    ensures var s := Run(k, acts).value;
            && (Numbered(s.log) <==> !WroteAhead(acts))
            && (s.seqNo == LastSeq(s.log) || Ahead(acts))
            && (Ahead(acts) && !WroteAhead(acts) ==> s.seqNo > LastSeq(s.log))
  {
    if acts != [] {
      var earlier, a := acts[..|acts| - 1], acts[|acts| - 1];
      NumberingInv(k, earlier);
      ReachableLog(k, earlier);
      var s := Run(k, earlier).value;
      var t := Next(k, s, a);
      if Writes(a) {
        NumberedSnoc(s.log, t.log[|s.log|]);
      }
    }
  }

  /** The gap is real: one failed write, then one refusal, numbers the first record 2. */
  lemma FailedWriteLeavesGap(k: Keys, refusal: Event, ts: Double)
    requires !(refusal.Decrypt? && refusal.granted)
    ensures var acts := [FailedWrite, Refuse(refusal, ts)];
            && Run(k, acts).Some?
            && |Run(k, acts).value.log| == 1
            && Run(k, acts).value.log[0].core.seqNo == 2
  {
    var acts := [FailedWrite, Refuse(refusal, ts)];
    assert acts[..1] == [FailedWrite] && acts[..1][..0] == [];
    assert Run(k, []) == Some(Start);
    assert Run(k, [FailedWrite]) == Some(Next(k, Start, FailedWrite));
  }

  /* -------- the custodian's object -------- */

  // A decrypt request: `authorization` is the nonce and whether the customer's signature over
  // the request verifies, None when a field is missing; `plaintext` is what the envelope opens to.
  datatype Request = Request(replica: string, primary: int, requester: string,
                             authorization: Option<(string, bool)>, plaintext: Option<string>)

  datatype Reply = Plaintext(text: string) | Forbidden(reason: string) | Unprocessable | Failed

  class CustodianState {
    var log: seq<Record>         // the audit file
    var nonceFile: set<string>   // the nonce file
    var replicas: set<string>    // the replicas registered with a signing key
    var seqNo: int
    var lastHash: string
    var nonces: set<string>

    // Files and memory, as the run model sees them with nothing in flight.
    ghost function Contents(): State
      reads this
    {
      State(log, nonceFile, seqNo, lastHash, nonces, map[], [], [])
    }

    // Start over files left by an earlier process.
    constructor (files: seq<Record>, spent: set<string>, registered: set<string>)
      ensures Contents() == State(files, spent, LastSeq(files), LastHash(files), spent, map[], [], [])
      ensures replicas == registered
    {
      log, nonceFile, replicas := files, spent, registered;
      nonces := spent;
      var hash, number := GENESIS, 0;
      for i := 0 to |files|
        invariant hash == LastHash(files[..i]) && number == LastSeq(files[..i])
      {
        hash, number := files[i].currHash, files[i].core.seqNo;
      }
      assert files[..|files|] == files;
      lastHash, seqNo := hash, number;
    }

    // `writes` is whether the file append succeeds; when it raises, nothing was written.
    method Log(k: Keys, event: Event, ts: Double, writes: bool) returns (ok: bool)
      modifies this`log, this`seqNo, this`lastHash
      ensures ok == writes
      ensures Contents() == if ok then Append(k, old(Contents()), event, ts) else Next(k, old(Contents()), FailedWrite)
    {
      seqNo := seqNo + 1;
      var core := Core(seqNo, ts, lastHash, event);
      var rec := RecordOf(k, core);
      if !writes {
        return false;
      }
      log := log + [rec];
      lastHash := rec.currHash;
      return true;
    }

    method ConsumeNonce(nonce: string) returns (unspent: bool)
      modifies this`nonces, this`nonceFile
      ensures unspent <==> nonce !in old(nonces)
      ensures nonces == old(nonces) + {nonce}
      ensures nonceFile == if unspent then nonces else old(nonceFile)
    {
      if nonce in nonces {
        assert nonces == nonces + {nonce};
        return false;
      }
      nonces := nonces + {nonce};
      nonceFile := nonces;
      return true;
    }

    /** The decrypt endpoint. Plaintext leaves only after a granted record naming this request is
        in the log, for a registered replica, under a verified signature and a nonce never spent
        before; every other reply that is not an error leaves exactly one refusal behind; and a
        log that cannot be written withholds the plaintext. */
    method Decrypt(k: Keys, r: Request, ts: Double, writes: bool) returns (reply: Reply)
      modifies this`log, this`seqNo, this`lastHash, this`nonces, this`nonceFile
      ensures reply.Plaintext? ==>
                && r.replica in replicas && r.authorization.Some? && r.authorization.value.1
                && r.authorization.value.0 !in old(nonces) && r.authorization.value.0 in nonces
                && r.plaintext == Some(reply.text)
                && log == old(log) + [RecordOf(k, Core(old(seqNo) + 1, ts, old(lastHash),
                                               Event.Decrypt(r.replica, r.primary, r.requester, true, "")))]
      ensures reply.Forbidden? || reply.Unprocessable? ==>
                && |log| == |old(log)| + 1 && old(log) <= log
                && log[|old(log)|].core.event.Decrypt? && !log[|old(log)|].core.event.granted
                && log[|old(log)|].core.event.requester == r.requester
      ensures reply.Failed? <==> !writes
      ensures reply.Failed? ==> log == old(log)
      ensures old(nonces) <= nonces
    {
      var refuse := None;
      if r.replica !in replicas {
        refuse := Some("replica not registered with custodian");
      } else if r.authorization.None? {
        refuse := Some("missing envelope/aad/nonce/auth_sig");
      } else if !r.authorization.value.1 {
        refuse := Some("customer authorization signature invalid");
      } else {
        var unspent := ConsumeNonce(r.authorization.value.0);
        if !unspent {
          refuse := Some("nonce replay");
        }
      }
      if refuse.Some? {
        var ok := Log(k, Event.Decrypt(r.replica, r.primary, r.requester, false, refuse.value), ts, writes);
        return if ok then Forbidden(refuse.value) else Failed;
      }
      if r.plaintext.None? {
        var ok := Log(k, Event.Decrypt(r.replica, r.primary, r.requester, false, "envelope failed"), ts, writes);
        return if ok then Unprocessable else Failed;
      }
      var ok := Log(k, Event.Decrypt(r.replica, r.primary, r.requester, true, ""), ts, writes);
      return if ok then Plaintext(r.plaintext.value) else Failed;
    }
  }
}
