/** The divergence detector: `run_detection`, sentinel_os/twin_detector.py. */
module Detector {
  import opened Json
  import opened Wrappers
  import opened Sequences

  // A replica entry and a row of the primary's feed; an absent call sid is the empty text.
  datatype Entry = Entry(primaryId: int, callSid: string, previousHash: string, currentHash: string, envelope: string)

  datatype FeedRow = FeedRow(id: int, callSid: string, previousHash: string, currentHash: string,
                             t: Option<real>, snapshot: Value)

  // A line of the customer's submission record, its sid or else its job id.
  datatype Submission = Submission(sid: string, t: Option<real>)

  // With decryption authority: open an entry's envelope (or fail), and deep-verify what is in it.
  datatype Decryptor = Decryptor(open: Entry -> Option<Object>, deepVerify: Object -> bool)

  datatype Inputs = Inputs(
    replica: seq<Entry>,
    feed: seq<FeedRow>,
    submissions: seq<Submission>,
    sla: real,
    now: real,
    decryptor: Option<Decryptor>,
    range: Option<(Option<int>, Option<int>)>)

  /* -------- the window -------- */

  function Lowest(entries: seq<Entry>): (lo: int)
    ensures forall e | e in entries :: lo <= e.primaryId
    ensures if entries == [] then lo == 0 else exists e | e in entries :: lo == e.primaryId
  {
    if entries == [] then 0
    else if |entries| == 1 then entries[0].primaryId
    else
      var rest := Lowest(entries[1..]);
      if entries[0].primaryId < rest then entries[0].primaryId else rest
  }

  function Highest(entries: seq<Entry>): (hi: int)
    ensures forall e | e in entries :: e.primaryId <= hi
    ensures if entries == [] then hi == 0 else exists e | e in entries :: hi == e.primaryId
  {
    if entries == [] then 0
    else if |entries| == 1 then entries[0].primaryId
    else
      var rest := Highest(entries[1..]);
      if entries[0].primaryId > rest then entries[0].primaryId else rest
  }

  function Window(x: Inputs): (int, int) {
    var lo, hi := Lowest(x.replica), Highest(x.replica);
    match x.range
    case None => (lo, hi)
    case Some((l, h)) => (if l.Some? then l.value else lo, if h.Some? then h.value else hi)
  }

  predicate InWindow(x: Inputs, id: int) {
    Window(x).0 <= id <= Window(x).1
  }

  function Scoped(x: Inputs, feed: seq<FeedRow>): (r: seq<FeedRow>)
    ensures forall p :: p in r <==> p in feed && InWindow(x, p.id)
  {
    if feed == [] then []
    else
      var n := |feed| - 1;
      assert feed == feed[..n] + [feed[n]];
      Scoped(x, feed[..n]) + if InWindow(x, feed[n].id) then [feed[n]] else []
  }

  // by_pid: the last entry with the id.
  function Replicated(entries: seq<Entry>, id: int): (r: Option<Entry>)
    ensures r.None? <==> forall e | e in entries :: e.primaryId != id
    ensures r.Some? ==> r.value in entries && r.value.primaryId == id
  {
    if entries == [] then None
    else
      var n := |entries| - 1;
      assert entries == entries[..n] + [entries[n]];
      if entries[n].primaryId == id then Some(entries[n]) else Replicated(entries[..n], id)
  }

  /* -------- one feed row -------- */

  datatype Sub =
    | PresentOnPrimaryNotReplica
    | AbsentEverywhere
    | ClearHashMismatch
    | EnvelopeUnopenable
    | PayloadHashMismatch
    | CassetteSnapshotForgery

  datatype Bucket = Match(deep: bool) | Diverge(sub: Sub) | Missing | Pending

  // A time of zero counts as unknown.
  function AgeOf(x: Inputs, p: FeedRow): Option<real> {
    if p.t.Some? && p.t.value != 0.0 then Some(x.now - p.t.value) else None
  }

  function Classify(x: Inputs, p: FeedRow): Bucket {
    match Replicated(x.replica, p.id)
    case None =>
      var age := AgeOf(x, p);
      if age.Some? && age.value < x.sla then Pending else Missing
    case Some(rep) =>
      if rep.previousHash != p.previousHash || rep.currentHash != p.currentHash then Diverge(ClearHashMismatch)
      else if x.decryptor.None? then Match(false)
      else
        var row := x.decryptor.value.open(rep);
        if row.None? then Diverge(EnvelopeUnopenable)
        else if !x.decryptor.value.deepVerify(row.value) then Diverge(PayloadHashMismatch)
        else if Get(row.value, "cassette_snapshot") != p.snapshot then Diverge(CassetteSnapshotForgery)
        else Match(true)
  }

  // What the report lists: a row that diverges, or a row or submission that is not there.
  datatype Divergence = Divergence(primaryId: int, sub: Sub)

  datatype Gap = Gap(primaryId: Option<int>, sid: string, sub: Sub, age: Option<real>)

  datatype Lists = Lists(matched: seq<int>, diverge: seq<Divergence>, missing: seq<Gap>, pending: seq<Gap>,
                         deepVerified: nat)

  function Placed(x: Inputs, lists: Lists, p: FeedRow): Lists {
    match Classify(x, p)
    case Match(deep) =>
      lists.(matched := lists.matched + [p.id], deepVerified := lists.deepVerified + if deep then 1 else 0)
    case Diverge(sub) => lists.(diverge := lists.diverge + [Divergence(p.id, sub)])
    case Missing =>
      lists.(missing := lists.missing + [Gap(Some(p.id), p.callSid, PresentOnPrimaryNotReplica, AgeOf(x, p))])
    case Pending =>
      lists.(pending := lists.pending + [Gap(Some(p.id), p.callSid, PresentOnPrimaryNotReplica, AgeOf(x, p))])
  }

  // Phase one.
  function Compared(x: Inputs, scoped: seq<FeedRow>): Lists {
    if scoped == [] then Lists([], [], [], [], 0)
    else Placed(x, Compared(x, scoped[..|scoped| - 1]), scoped[|scoped| - 1])
  }

  // Phase two: what the replica holds and the feed's window does not.
  function Extras(entries: seq<Entry>, ids: set<int>): (r: seq<Entry>)
    ensures r == [] <==> forall e | e in entries :: e.primaryId in ids
    ensures forall e | e in r :: e in entries && e.primaryId !in ids
  {
    if entries == [] then []
    else
      var n := |entries| - 1;
      assert entries == entries[..n] + [entries[n]];
      Extras(entries[..n], ids) + if entries[n].primaryId !in ids then [entries[n]] else []
  }

  /* -------- one submission -------- */

  datatype Sids = Sids(replica: set<string>, primary: set<string>, accounted: set<string>)

  function GapsSids(gaps: seq<Gap>): set<string> {
    set g | g in gaps :: g.sid
  }

  function SidsOf(x: Inputs, scoped: seq<FeedRow>, lists: Lists): Sids {
    Sids(set e | e in x.replica && e.callSid != "" :: e.callSid,
         set p | p in scoped && p.callSid != "" :: p.callSid,
         GapsSids(lists.missing) + GapsSids(lists.pending))
  }

  predicate Unaccounted(sids: Sids, rec: Submission) {
    rec.sid != "" && rec.sid !in sids.replica && !(rec.sid in sids.primary && rec.sid in sids.accounted)
  }

  function SubmissionAge(x: Inputs, rec: Submission): real {
    if rec.t.Some? then x.now - rec.t.value else 0.0
  }

  function Checked(x: Inputs, sids: Sids, lists: Lists, rec: Submission): Lists {
    if !Unaccounted(sids, rec) then lists
    else
      var age := SubmissionAge(x, rec);
      var gap :=
        Gap(None, rec.sid, if rec.sid in sids.primary then PresentOnPrimaryNotReplica else AbsentEverywhere, Some(age));
      if age < x.sla then lists.(pending := lists.pending + [gap]) else lists.(missing := lists.missing + [gap])
  }

  // Phase three: the completeness cross-check.
  function CrossChecked(x: Inputs, sids: Sids, lists: Lists, records: seq<Submission>): Lists {
    if records == [] then lists
    else Checked(x, sids, CrossChecked(x, sids, lists, records[..|records| - 1]), records[|records| - 1])
  }

  /* -------- the replica's own chain -------- */

  function InsertById(entries: seq<Entry>, e: Entry): (r: seq<Entry>)
    ensures multiset(r) == multiset(entries) + multiset{e}
  {
    if entries == [] || entries[|entries| - 1].primaryId <= e.primaryId then entries + [e]
    else
      var n := |entries| - 1;
      assert entries == entries[..n] + [entries[n]];
      InsertById(entries[..n], e) + [entries[n]]
  }

  function SortById(entries: seq<Entry>): (r: seq<Entry>)
    ensures multiset(r) == multiset(entries)
  {
    if entries == [] then []
    else
      var n := |entries| - 1;
      assert entries == entries[..n] + [entries[n]];
      InsertById(SortById(entries[..n]), entries[n])
  }

  predicate Breaks(previous: Entry, current: Entry) {
    current.primaryId == previous.primaryId + 1 && current.previousHash != previous.currentHash
  }

  // Phase four: the ids at which the order of ids does not link.
  function ChainBreaks(ordered: seq<Entry>): (r: seq<int>)
    ensures r == [] <==> forall i | 0 < i < |ordered| :: !Breaks(ordered[i - 1], ordered[i])
  {
    if |ordered| < 2 then []
    else
      var n := |ordered| - 1;
      ChainBreaks(ordered[..n]) + if Breaks(ordered[n - 1], ordered[n]) then [ordered[n].primaryId] else []
  }

  /* -------- the report -------- */

  datatype Report = Report(clean: bool, lists: Lists, extra: seq<Entry>, chainBreaks: seq<int>, window: (int, int))

  function Ids(rows: seq<FeedRow>): set<int> {
    set p | p in rows :: p.id
  }

  function Detected(x: Inputs): Report {
    var scoped := Scoped(x, x.feed);
    var compared := Compared(x, scoped);
    var lists := CrossChecked(x, SidsOf(x, scoped, compared), compared, x.submissions);
    var extra := Extras(x.replica, Ids(scoped));
    var breaks := ChainBreaks(SortById(x.replica));
    Report(lists.diverge == [] && lists.missing == [] && extra == [] && breaks == [], lists, extra, breaks, Window(x))
  }

  method RunDetection(x: Inputs) returns (report: Report)
    ensures report == Detected(x)
  {
    hide Compared, CrossChecked, Scoped, SidsOf, SortById, ChainBreaks, Extras;
    var scoped := Scoped(x, x.feed);
    var lists := Compare(x, scoped);
    var extra := FindExtras(x.replica, Ids(scoped));
    lists := CrossCheck(x, SidsOf(x, scoped, lists), lists);
    var chainOk, breaks := CheckChain(x.replica);
    var clean := !(lists.diverge != [] || lists.missing != [] || extra != [] || !chainOk);
    return Report(clean, lists, extra, breaks, Window(x));
  }

  method Compare(x: Inputs, scoped: seq<FeedRow>) returns (lists: Lists)
    ensures lists == Compared(x, scoped)
  {
    hide Placed;
    lists := Lists([], [], [], [], 0);
    for i := 0 to |scoped|
      invariant lists == Compared(x, scoped[..i])
    {
      lists := Place(x, lists, scoped[i]);
      assert scoped[..i + 1][..i] == scoped[..i];
    }
    assert scoped[..|scoped|] == scoped;
  }

  method FindExtras(replica: seq<Entry>, ids: set<int>) returns (extra: seq<Entry>)
    ensures extra == Extras(replica, ids)
  {
    extra := [];
    for i := 0 to |replica|
      invariant extra == Extras(replica[..i], ids)
    {
      if replica[i].primaryId !in ids {
        extra := extra + [replica[i]];
      }
      assert replica[..i + 1][..i] == replica[..i];
    }
    assert replica[..|replica|] == replica;
  }

  method CrossCheck(x: Inputs, sids: Sids, compared: Lists) returns (lists: Lists)
    ensures lists == CrossChecked(x, sids, compared, x.submissions)
  {
    lists := compared;
    for i := 0 to |x.submissions|
      invariant lists == CrossChecked(x, sids, compared, x.submissions[..i])
    {
      var rec := x.submissions[i];
      assert x.submissions[..i + 1][..i] == x.submissions[..i];
      if rec.sid != "" && rec.sid !in sids.replica {
        var age := SubmissionAge(x, rec);
        var known := rec.sid in sids.primary;
        if !known || rec.sid !in sids.accounted {
          var gap := Gap(None, rec.sid, if known then PresentOnPrimaryNotReplica else AbsentEverywhere, Some(age));
          if age < x.sla {
            lists := lists.(pending := lists.pending + [gap]);
          } else {
            lists := lists.(missing := lists.missing + [gap]);
          }
        }
      }
    }
    assert x.submissions[..|x.submissions|] == x.submissions;
  }

  method CheckChain(replica: seq<Entry>) returns (chainOk: bool, breaks: seq<int>)
    ensures breaks == ChainBreaks(SortById(replica)) && (chainOk <==> breaks == [])
  {
    hide Breaks, SortById, ChainBreaks;
    var ordered := SortById(replica);
    chainOk, breaks := true, [];
    if ordered == [] {
      return;
    }
    NoBreaks(ordered);
    for i := 1 to |ordered|
      invariant breaks == ChainBreaks(ordered[..i]) && (chainOk <==> breaks == [])
    {
      if Breaks(ordered[i - 1], ordered[i]) {
        chainOk := false;
        breaks := breaks + [ordered[i].primaryId];
      }
      BreaksSnoc(ordered, i);
    }
    assert ordered[..|ordered|] == ordered;
  }

  lemma NoBreaks(ordered: seq<Entry>)
    requires ordered != []
    ensures ChainBreaks(ordered[..1]) == []
  {
  }

  lemma BreaksSnoc(ordered: seq<Entry>, i: nat)
    requires 0 < i < |ordered|
    ensures ChainBreaks(ordered[..i + 1])
            == ChainBreaks(ordered[..i]) + if Breaks(ordered[i - 1], ordered[i]) then [ordered[i].primaryId] else []
  {
    hide Breaks;
    assert ordered[..i + 1][..i] == ordered[..i];
  }

  // One turn of phase one: which list the row goes to.
  method Place(x: Inputs, lists: Lists, p: FeedRow) returns (r: Lists)
    ensures r == Placed(x, lists, p)
  {
    var rep := Replicated(x.replica, p.id);
    if rep.None? {
      var age := AgeOf(x, p);
      var gap := Gap(Some(p.id), p.callSid, PresentOnPrimaryNotReplica, age);
      if age.Some? && age.value < x.sla {
        return lists.(pending := lists.pending + [gap]);
      }
      return lists.(missing := lists.missing + [gap]);
    }
    if rep.value.previousHash != p.previousHash || rep.value.currentHash != p.currentHash {
      return lists.(diverge := lists.diverge + [Divergence(p.id, ClearHashMismatch)]);
    }
    var deep := 0;
    if x.decryptor.Some? {
      var row := x.decryptor.value.open(rep.value);
      if row.None? {
        return lists.(diverge := lists.diverge + [Divergence(p.id, EnvelopeUnopenable)]);
      }
      if !x.decryptor.value.deepVerify(row.value) {
        return lists.(diverge := lists.diverge + [Divergence(p.id, PayloadHashMismatch)]);
      }
      if Get(row.value, "cassette_snapshot") != p.snapshot {
        return lists.(diverge := lists.diverge + [Divergence(p.id, CassetteSnapshotForgery)]);
      }
      deep := 1;
    }
    return lists.(matched := lists.matched + [p.id], deepVerified := lists.deepVerified + deep);
  }

  /* -------- phase one places every row once -------- */

  // The ids in which a list of gaps says a row is not there.
  function GapIds(gaps: seq<Gap>): set<int> {
    set g | g in gaps && g.primaryId.Some? :: g.primaryId.value
  }

  function DivergentIds(diverge: seq<Divergence>): set<int> {
    set d | d in diverge :: d.primaryId
  }

  // Which list the class of a row is.
  ghost predicate Listed(lists: Lists, bucket: Bucket, id: int) {
    match bucket
    case Match(_) => id in lists.matched
    case Diverge(_) => id in DivergentIds(lists.diverge)
    case Missing => id in GapIds(lists.missing)
    case Pending => id in GapIds(lists.pending)
  }

  lemma PlacedLists(x: Inputs, lists: Lists, p: FeedRow, bucket: Bucket, id: int)
    ensures Listed(Placed(x, lists, p), bucket, id)
            <==> Listed(lists, bucket, id) || (p.id == id && SameList(Classify(x, p), bucket))
  {
    hide Classify, AgeOf;
    var t := Placed(x, lists, p);
    assert forall i :: i in t.matched <==> i in lists.matched || (i == p.id && Classify(x, p).Match?);
    assert DivergentIds(t.diverge) == DivergentIds(lists.diverge) + if Classify(x, p).Diverge? then {p.id} else {} by {
      if Classify(x, p).Diverge? {
        assert t.diverge[|lists.diverge|].primaryId == p.id;
      }
    }
    GapIdsSnoc(lists.missing, Gap(Some(p.id), p.callSid, PresentOnPrimaryNotReplica, AgeOf(x, p)));
    GapIdsSnoc(lists.pending, Gap(Some(p.id), p.callSid, PresentOnPrimaryNotReplica, AgeOf(x, p)));
  }

  lemma GapIdsSnoc(gaps: seq<Gap>, g: Gap)
    ensures GapIds(gaps + [g]) == GapIds(gaps) + if g.primaryId.Some? then {g.primaryId.value} else {}
  {
    assert forall h :: h in gaps + [g] <==> h in gaps || h == g;
  }

  predicate SameList(a: Bucket, b: Bucket) {
    a.Match? == b.Match? && a.Diverge? == b.Diverge? && a.Missing? == b.Missing?
  }

  /** Each in-window row goes on exactly the list of its class, and nothing else does: the four lists
      hold as many entries as there are rows. */
  lemma {:induction false} EveryRowIsPlacedOnce(x: Inputs, scoped: seq<FeedRow>, bucket: Bucket, id: int)
    ensures var lists := Compared(x, scoped);
            && |lists.matched| + |lists.diverge| + |lists.missing| + |lists.pending| == |scoped|
            && (Listed(lists, bucket, id) <==>
                  exists p :: p in scoped && p.id == id && SameList(Classify(x, p), bucket))
  {
    hide Listed, SameList, Classify;
    if scoped == [] {
      NothingListed(bucket, id);
    } else {
      var n := |scoped| - 1;
      assert scoped == scoped[..n] + [scoped[n]];
      EveryRowIsPlacedOnce(x, scoped[..n], bucket, id);
      PlacedLists(x, Compared(x, scoped[..n]), scoped[n], bucket, id);
    }
  }

  lemma NothingListed(bucket: Bucket, id: int)
    ensures !Listed(Lists([], [], [], [], 0), bucket, id)
  {
  }

  // No two rows have one id.
  ghost predicate IdsAreUnique(rows: seq<FeedRow>) {
    forall p, q | p in rows && q in rows && p.id == q.id :: p == q
  }

  /** So with one row to an id, each id is on exactly one of match, diverge, missing and pending. */
  lemma EachIdIsOnOneList(x: Inputs, scoped: seq<FeedRow>, p: FeedRow, bucket: Bucket)
    requires IdsAreUnique(scoped) && p in scoped
    ensures Listed(Compared(x, scoped), bucket, p.id) <==> SameList(Classify(x, p), bucket)
  {
    hide Listed, Classify, Compared, SameList;
    EveryRowIsPlacedOnce(x, scoped, bucket, p.id);
  }

  /* -------- what CLEAN means -------- */

  lemma {:induction false} PendingSids(x: Inputs, scoped: seq<FeedRow>, sid: string)
    ensures sid in GapsSids(Compared(x, scoped).pending)
            <==> exists p :: p in scoped && p.callSid == sid && Classify(x, p).Pending?
  {
    hide Classify, AgeOf, GapsSids;
    if scoped == [] {
      NoGaps(sid);
    } else {
      var n := |scoped| - 1;
      assert scoped == scoped[..n] + [scoped[n]];
      PendingSids(x, scoped[..n], sid);
      GapsSidsSnoc(Compared(x, scoped[..n]).pending,
                   Gap(Some(scoped[n].id), scoped[n].callSid, PresentOnPrimaryNotReplica, AgeOf(x, scoped[n])));
    }
  }

  lemma NoGaps(sid: string)
    ensures sid !in GapsSids([])
  {
  }

  lemma GapsSidsSnoc(gaps: seq<Gap>, g: Gap)
    ensures GapsSids(gaps + [g]) == GapsSids(gaps) + {g.sid}
  {
    assert forall h :: h in gaps + [g] <==> h in gaps || h == g;
  }

  lemma {:induction false} NothingWrong(x: Inputs, scoped: seq<FeedRow>)
    ensures var lists := Compared(x, scoped);
            lists.diverge == [] && lists.missing == []
            <==> forall p | p in scoped :: Classify(x, p).Match? || Classify(x, p).Pending?
  {
    hide Classify, AgeOf;
    if scoped != [] {
      var n := |scoped| - 1;
      assert scoped == scoped[..n] + [scoped[n]];
      NothingWrong(x, scoped[..n]);
    }
  }

  lemma {:induction false} NothingOverdue(x: Inputs, sids: Sids, lists: Lists, records: seq<Submission>)
    ensures var after := CrossChecked(x, sids, lists, records);
            && after.diverge == lists.diverge && after.matched == lists.matched
            && (after.missing == [] <==>
                  && lists.missing == []
                  && forall rec | rec in records :: !Unaccounted(sids, rec) || SubmissionAge(x, rec) < x.sla)
  {
    hide Unaccounted, SubmissionAge;
    if records != [] {
      var n := |records| - 1;
      assert records == records[..n] + [records[n]];
      NothingOverdue(x, sids, lists, records[..n]);
    }
  }

  // A submission the replica has, or a pending row of the feed has, or that is still young.
  ghost predicate AccountedFor(x: Inputs, rec: Submission) {
    || rec.sid == ""
    || (exists e :: e in x.replica && e.callSid == rec.sid)
    || (exists p :: p in x.feed && InWindow(x, p.id) && p.callSid == rec.sid && Classify(x, p).Pending?)
    || SubmissionAge(x, rec) < x.sla
  }

  /** CLEAN says exactly this: every in-window row of the feed matches the replica or is pending, every
      replica entry is a row of the window, every submission is accounted for, and neighbours link. */
  lemma CleanExactly(x: Inputs)
    ensures Detected(x).clean <==>
              && (forall p | p in x.feed && InWindow(x, p.id) :: Classify(x, p).Match? || Classify(x, p).Pending?)
              && (forall e | e in x.replica :: exists p :: p in x.feed && InWindow(x, p.id) && p.id == e.primaryId)
              && (forall rec | rec in x.submissions :: AccountedFor(x, rec))
              && Detected(x).chainBreaks == []
  {
    hide Classify, SubmissionAge, Compared, CrossChecked, Extras, Scoped, SortById, ChainBreaks, InWindow, AccountedFor,
         Unaccounted, SidsOf;
    var scoped := Scoped(x, x.feed);
    var lists := Compared(x, scoped);
    NothingWrong(x, scoped);
    NothingOverdue(x, SidsOf(x, scoped, lists), lists, x.submissions);
    assert forall e | e in x.replica :: e.primaryId in Ids(scoped) <==> exists p :: p in scoped && p.id == e.primaryId;
    if lists.missing == [] {
      forall rec | rec in x.submissions
        ensures AccountedFor(x, rec) <==> !Unaccounted(SidsOf(x, scoped, lists), rec) || SubmissionAge(x, rec) < x.sla
      {
        AccountedExactly(x, rec);
      }
    }
  }

  lemma AccountedExactly(x: Inputs, rec: Submission)
    requires Compared(x, Scoped(x, x.feed)).missing == []
    ensures var scoped := Scoped(x, x.feed);
            AccountedFor(x, rec)
            <==> !Unaccounted(SidsOf(x, scoped, Compared(x, scoped)), rec) || SubmissionAge(x, rec) < x.sla
  {
    hide Classify, SubmissionAge, Compared, Scoped, InWindow;
    var scoped := Scoped(x, x.feed);
    PendingSids(x, scoped, rec.sid);
    assert GapsSids([]) == {};
  }

  /** Under a CLEAN report each in-window row is on the replica with both its hashes, or is not there
      and younger than the service level. */
  lemma CleanMeansWitnessed(x: Inputs, p: FeedRow)
    requires Detected(x).clean && p in x.feed && InWindow(x, p.id)
    ensures (exists e :: e in x.replica && e.primaryId == p.id
                         && e.previousHash == p.previousHash && e.currentHash == p.currentHash)
            || ((forall e | e in x.replica :: e.primaryId != p.id) && p.t.Some? && x.now - p.t.value < x.sla)
  {
    hide Detected, InWindow;
    CleanExactly(x);
    assert Classify(x, p).Match? || Classify(x, p).Pending?;
  }

  /* -------- the order of ids -------- */

  ghost predicate Ascending(entries: seq<Entry>) {
    forall i, j | 0 <= i < j < |entries| :: entries[i].primaryId < entries[j].primaryId
  }

  ghost predicate OneEntryEach(entries: seq<Entry>) {
    forall i, j | 0 <= i < j < |entries| :: entries[i].primaryId != entries[j].primaryId
  }

  lemma AscendingSnoc(front: seq<Entry>, last: Entry)
    ensures Ascending(front + [last]) <==> Ascending(front) && forall x | x in front :: x.primaryId < last.primaryId
  {
    var longer := front + [last];
    assert forall i | 0 <= i < |front| :: longer[i] == front[i];
    assert longer[|front|] == last;
  }

  lemma {:induction false} InsertKeepsAscending(entries: seq<Entry>, e: Entry)
    requires Ascending(entries) && forall f | f in entries :: f.primaryId != e.primaryId
    ensures Ascending(InsertById(entries, e))
  {
    hide Ascending;
    if entries == [] {
      NoEntries();
      AscendingSnoc([], e);
    } else {
      var n := |entries| - 1;
      var front, last := entries[..n], entries[n];
      assert entries == front + [last];
      AscendingSnoc(front, last);
      if last.primaryId <= e.primaryId {
        AscendingSnoc(entries, e);
      } else {
        InsertKeepsAscending(front, e);
        InsertedMembers(front, e);
        AscendingSnoc(InsertById(front, e), last);
      }
    }
  }

  lemma NoEntries()
    ensures Ascending([])
  {
  }

  lemma InsertedMembers(entries: seq<Entry>, e: Entry)
    ensures forall x :: x in InsertById(entries, e) <==> x in entries || x == e
  {
    hide InsertById;
    SameMembers(InsertById(entries, e), entries + [e]);
  }

  lemma {:induction false} SortAscends(entries: seq<Entry>)
    requires OneEntryEach(entries)
    ensures Ascending(SortById(entries))
  {
    if entries != [] {
      hide InsertById, Ascending;
      var n := |entries| - 1;
      var sorted := SortById(entries[..n]);
      SortAscends(entries[..n]);
      forall f | f in sorted
        ensures f.primaryId != entries[n].primaryId
      {
        assert f in multiset(sorted);
        assert f in entries[..n];
      }
      InsertKeepsAscending(sorted, entries[n]);
    } else {
      assert Ascending(SortById(entries));
    }
  }

  lemma NeighboursSuffice(s: seq<Entry>, e: Entry, f: Entry)
    requires Ascending(s) && e in s && f in s && Breaks(e, f)
    ensures exists i :: 0 < i < |s| && Breaks(s[i - 1], s[i])
  {
    var i :| 0 <= i < |s| && s[i] == e;
    var j :| 0 <= j < |s| && s[j] == f;
    assert i < j;
    assert Breaks(s[j - 1], s[j]);
  }

  /** With one entry to an id, the chain is reported whole exactly when any two entries with
      consecutive ids link, in whatever order the replica returned them. */
  lemma ChainIsWholeExactly(x: Inputs)
    requires OneEntryEach(x.replica)
    ensures Detected(x).chainBreaks == [] <==> forall e, f | e in x.replica && f in x.replica :: !Breaks(e, f)
  {
    hide SortById, Breaks, Compared, CrossChecked, Ascending, Scoped, SidsOf, Extras;
    var s := SortById(x.replica);
    SortAscends(x.replica);
    SameMembers(s, x.replica);
    forall e, f | e in s && f in s && Breaks(e, f)
      ensures exists i :: 0 < i < |s| && Breaks(s[i - 1], s[i])
    {
      NeighboursSuffice(s, e, f);
    }
  }

  /* -------- an honest copy -------- */

  // The rows of the feed, oldest first, each linked to the one before.
  ghost predicate IsLinked(feed: seq<FeedRow>) {
    && (forall i, j | 0 <= i < j < |feed| :: feed[i].id < feed[j].id)
    && forall i | 0 < i < |feed| :: feed[i].previousHash == feed[i - 1].currentHash
  }

  ghost predicate IsCopy(replica: seq<Entry>, rows: seq<FeedRow>) {
    && |replica| == |rows|
    && forall i | 0 <= i < |rows| ::
         && replica[i].primaryId == rows[i].id
         && replica[i].previousHash == rows[i].previousHash
         && replica[i].currentHash == rows[i].currentHash
  }

  // Without a decryptor nothing is opened; with one, each envelope of the copy opens to a row that
  // verifies and carries the snapshot the feed shows.
  ghost predicate OpensTrue(x: Inputs, rows: seq<FeedRow>) {
    x.decryptor.Some? && |x.replica| == |rows| ==>
      forall i | 0 <= i < |rows| :: CarriesRow(x.decryptor.value, x.replica[i], rows[i])
  }

  predicate CarriesRow(d: Decryptor, entry: Entry, p: FeedRow) {
    var row := d.open(entry);
    row.Some? && d.deepVerify(row.value) && Get(row.value, "cassette_snapshot") == p.snapshot
  }

  lemma CopyOf(x: Inputs, a: nat, b: nat, p: FeedRow)
    requires a < b <= |x.feed| && IsLinked(x.feed) && IsCopy(x.replica, x.feed[a..b])
    requires p in x.feed && OpensTrue(x, x.feed[a..b])
    ensures Classify(x, p).Match? <==> p in x.feed[a..b]
    ensures !Classify(x, p).Diverge?
    ensures x.feed[a].id <= p.id <= x.feed[b - 1].id ==> p in x.feed[a..b]
  {
    hide AgeOf;
    var k :| 0 <= k < |x.feed| && x.feed[k] == p;
    var rows := x.feed[a..b];
    if a <= k < b {
      assert rows[k - a] == p;
      assert x.replica[k - a] in x.replica;
      assert p in rows;
    }
    var rep := Replicated(x.replica, p.id);
    if rep.Some? {
      var i :| 0 <= i < |x.replica| && x.replica[i] == rep.value;
      assert rows[i] == x.feed[a + i];
      assert a + i == k;
      assert x.decryptor.Some? ==> CarriesRow(x.decryptor.value, rep.value, p);
    }
  }

  /** An exact contiguous copy of a linked feed, opened or not, never diverges and never breaks its
      chain; it has no extras exactly when the window covers it, as the default window does; and over
      the default window it is CLEAN exactly when every submission is accounted for. */
  lemma HonestCopy(x: Inputs, a: nat, b: nat)
    requires a < b <= |x.feed| && IsLinked(x.feed) && IsCopy(x.replica, x.feed[a..b])
    requires OpensTrue(x, x.feed[a..b])
    ensures Detected(x).lists.diverge == [] && Detected(x).chainBreaks == []
    ensures Detected(x).extra == [] <==> forall e | e in x.replica :: InWindow(x, e.primaryId)
    ensures x.range.None? ==> Detected(x).extra == []
    ensures x.range.None? ==> (Detected(x).clean <==> forall rec | rec in x.submissions :: AccountedFor(x, rec))
  {
    CopyDoesNotDiverge(x, a, b);
    CopyHasNoExtras(x, a, b);
    CopyLinks(x, a, b);
    CleanExactly(x);
    if x.range.None? {
      hide Detected, Classify, AccountedFor, IsLinked, IsCopy;
      forall p | p in x.feed && InWindow(x, p.id)
        ensures Classify(x, p).Match?
      {
        DefaultWindow(x, a, b);
        CopyOf(x, a, b, p);
      }
      forall e | e in x.replica
        ensures exists p :: p in x.feed && InWindow(x, p.id) && p.id == e.primaryId
      {
        CopiedFrom(x, a, b, e);
      }
    }
  }

  lemma CopyDoesNotDiverge(x: Inputs, a: nat, b: nat)
    requires a < b <= |x.feed| && IsLinked(x.feed) && IsCopy(x.replica, x.feed[a..b])
    requires OpensTrue(x, x.feed[a..b])
    ensures Detected(x).lists.diverge == []
  {
    hide Classify, IsLinked, IsCopy, SidsOf, Extras, SortById, ChainBreaks;
    var scoped := Scoped(x, x.feed);
    forall p | p in scoped
      ensures !Classify(x, p).Diverge?
    {
      CopyOf(x, a, b, p);
    }
    NothingDiverges(x, scoped);
    NothingOverdue(x, SidsOf(x, scoped, Compared(x, scoped)), Compared(x, scoped), x.submissions);
  }

  lemma {:induction false} NothingDiverges(x: Inputs, scoped: seq<FeedRow>)
    requires forall p | p in scoped :: !Classify(x, p).Diverge?
    ensures Compared(x, scoped).diverge == []
  {
    hide Classify, AgeOf;
    if scoped != [] {
      NothingDiverges(x, scoped[..|scoped| - 1]);
    }
  }

  // Every entry of the copy is a row of the feed.
  lemma CopiedFrom(x: Inputs, a: nat, b: nat, e: Entry)
    requires a < b <= |x.feed| && IsCopy(x.replica, x.feed[a..b]) && e in x.replica
    ensures exists p :: p in x.feed && p.id == e.primaryId
    ensures x.range.None? ==> InWindow(x, e.primaryId)
  {
    var i :| 0 <= i < |x.replica| && x.replica[i] == e;
    assert x.feed[a..b][i] == x.feed[a + i];
    assert x.feed[a + i] in x.feed && x.feed[a + i].id == e.primaryId;
  }

  lemma CopyHasNoExtras(x: Inputs, a: nat, b: nat)
    requires a < b <= |x.feed| && IsCopy(x.replica, x.feed[a..b])
    ensures Detected(x).extra == [] <==> forall e | e in x.replica :: InWindow(x, e.primaryId)
    ensures x.range.None? ==> Detected(x).extra == []
  {
    hide IsCopy, InWindow, Extras, Scoped, Compared, CrossChecked, SortById, ChainBreaks, SidsOf;
    var scoped := Scoped(x, x.feed);
    forall e | e in x.replica
      ensures e.primaryId in Ids(scoped) <==> InWindow(x, e.primaryId)
      ensures x.range.None? ==> InWindow(x, e.primaryId)
    {
      CopiedFrom(x, a, b, e);
      var p :| p in x.feed && p.id == e.primaryId;
    }
  }

  lemma CopyLinks(x: Inputs, a: nat, b: nat)
    requires a < b <= |x.feed| && IsLinked(x.feed) && IsCopy(x.replica, x.feed[a..b])
    ensures Detected(x).chainBreaks == []
  {
    var rows := x.feed[a..b];
    assert forall i | 0 <= i < |rows| :: rows[i] == x.feed[a + i];
    assert OneEntryEach(x.replica);
    forall e, f | e in x.replica && f in x.replica
      ensures !Breaks(e, f)
    {
      var i :| 0 <= i < |x.replica| && x.replica[i] == e;
      var j :| 0 <= j < |x.replica| && x.replica[j] == f;
      if f.primaryId == e.primaryId + 1 {
        NextId(x.feed, a + i, a + j);
        assert rows[j] == x.feed[a + j] && rows[i] == x.feed[a + i];
      }
    }
    hide Detected, IsLinked, IsCopy;
    ChainIsWholeExactly(x);
  }

  lemma Between(feed: seq<FeedRow>, i: nat, j: nat)
    requires IsLinked(feed) && i + 1 < j < |feed|
    ensures feed[i].id + 2 <= feed[j].id
  {
    assert feed[i].id < feed[i + 1].id < feed[j].id;
  }

  lemma NextId(feed: seq<FeedRow>, i: nat, j: nat)
    requires IsLinked(feed) && i < |feed| && j < |feed| && feed[j].id == feed[i].id + 1
    ensures j == i + 1
  {
    assert i < j;
    if j != i + 1 {
      Between(feed, i, j);
    }
  }

  lemma DefaultWindow(x: Inputs, a: nat, b: nat)
    requires a < b <= |x.feed| && IsLinked(x.feed) && IsCopy(x.replica, x.feed[a..b]) && x.range.None?
    ensures Window(x) == (x.feed[a].id, x.feed[b - 1].id)
  {
    hide Lowest, Highest;
    var rows, n := x.feed[a..b], |x.replica|;
    assert rows[0] == x.feed[a] && rows[n - 1] == x.feed[b - 1];
    assert forall i | 0 <= i < n :: rows[i] == x.feed[a + i];
    assert x.replica[0] in x.replica && x.replica[n - 1] in x.replica;
    assert forall e | e in x.replica :: x.feed[a].id <= e.primaryId <= x.feed[b - 1].id;
  }
}
