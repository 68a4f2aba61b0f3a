/** The per-resource circuit breaker: sentinel_os/circuit_breaker.py. */
module Breaker {
  import opened Wrappers

  datatype Mode = Closed | Open | HalfOpen

  datatype Config = Config(failureThreshold: nat, resetTimeout: real, successThreshold: nat)
  {
    // What the constructor refuses to go without.
    predicate Valid() {
      failureThreshold >= 1 && successThreshold >= 1 && resetTimeout > 0.0
    }
  }

  datatype Counters = Counters(calls: nat, failures: nat, rejections: nat, opens: nat)

  datatype State = State(mode: Mode, failures: nat, successes: nat, openedAt: Option<real>,
                         probing: bool, counters: Counters)

  const Fresh := State(Closed, 0, 0, None, false, Counters(0, 0, 0, 0))

  /* -------- what each critical section does -------- */

  // _state_locked: OPEN becomes HALF_OPEN once the timeout has elapsed.
  function Refresh(c: Config, s: State, now: real): State {
    if s.mode == Open && s.openedAt.Some? && now - s.openedAt.value >= c.resetTimeout
    then s.(mode := HalfOpen, successes := 0, probing := false)
    else s
  }

  // The first critical section of call(): the new state, and whether func runs.
  function Begin(c: Config, s: State, now: real): (State, bool) {
    var t := Refresh(c, s, now);
    var rejected := t.(counters := t.counters.(rejections := t.counters.rejections + 1));
    var admitted := t.(counters := t.counters.(calls := t.counters.calls + 1));
    if t.mode == Open then (rejected, false)
    else if t.mode == HalfOpen && t.probing then (rejected, false)
    else if t.mode == HalfOpen then (admitted.(probing := true), true)
    else (admitted, true)
  }

  // _reopen_locked
  function Reopen(s: State, now: real): State {
    s.(mode := Open, openedAt := Some(now), successes := 0,
       counters := s.counters.(opens := s.counters.opens + if s.mode == Open then 0 else 1))
  }

  function OnSuccess(c: Config, s: State): State {
    if s.mode == HalfOpen then
      var t := s.(successes := s.successes + 1, probing := false);
      if t.successes >= c.successThreshold then t.(mode := Closed, failures := 0, openedAt := None) else t
    else if s.mode == Closed then s.(failures := 0)
    else s
  }

  function OnFailure(c: Config, s: State, now: real): State {
    var counted := s.(counters := s.counters.(failures := s.counters.failures + 1));
    if s.mode == HalfOpen then Reopen(counted.(probing := false), now)
    else
      var t := counted.(failures := s.failures + 1);
      if t.failures >= c.failureThreshold then Reopen(t, now) else t
  }

  function Reset(s: State): State {
    State(Closed, 0, 0, None, false, s.counters)
  }

  /* -------- the breaker's object -------- */

  class CircuitBreaker {
    const config: Config
    var mode: Mode
    var failures: nat
    var successes: nat
    var openedAt: Option<real>
    var probing: bool
    var counters: Counters

    ghost function Contents(): State
      reads this
    {
      State(mode, failures, successes, openedAt, probing, counters)
    }

    constructor (c: Config)
      requires c.Valid()
      ensures config == c && Contents() == Fresh
    {
      config := c;
      mode, failures, successes, openedAt, probing := Closed, 0, 0, None, false;
      counters := Counters(0, 0, 0, 0);
    }

    method StateLocked(now: real) returns (m: Mode)
      modifies this
      ensures Contents() == Refresh(config, old(Contents()), now) && m == mode
    {
      if mode == Open && openedAt.Some? && now - openedAt.value >= config.resetTimeout {
        mode := HalfOpen;
        successes := 0;
        probing := false;
      }
      return mode;
    }

    // call(), up to releasing the lock.
    method Call(now: real) returns (admitted: bool)
      modifies this
      ensures (Contents(), admitted) == Begin(config, old(Contents()), now)
    {
      var m := StateLocked(now);
      if m == Open {
        counters := counters.(rejections := counters.rejections + 1);
        return false;
      }
      if m == HalfOpen {
        if probing {
          counters := counters.(rejections := counters.rejections + 1);
          return false;
        }
        probing := true;
      }
      counters := counters.(calls := counters.calls + 1);
      return true;
    }

    method Succeed()
      modifies this
      ensures Contents() == OnSuccess(config, old(Contents()))
    {
      if mode == HalfOpen {
        successes := successes + 1;
        probing := false;
        if successes >= config.successThreshold {
          mode := Closed;
          failures := 0;
          openedAt := None;
        }
      } else if mode == Closed {
        failures := 0;
      }
    }

    method Fail(now: real)
      modifies this
      ensures Contents() == OnFailure(config, old(Contents()), now)
    {
      counters := counters.(failures := counters.failures + 1);
      if mode == HalfOpen {
        probing := false;
        ReopenLocked(now);
        return;
      }
      failures := failures + 1;
      if failures >= config.failureThreshold {
        ReopenLocked(now);
      }
    }

    method ReopenLocked(now: real)
      modifies this
      ensures Contents() == Reopen(old(Contents()), now)
    {
      var wasOpen := mode == Open;
      mode := Open;
      openedAt := Some(now);
      successes := 0;
      if !wasOpen {
        counters := counters.(opens := counters.opens + 1);
      }
    }
  }

  /* -------- runs -------- */

  /** One critical section, taken by any caller at any time. A call that began ends in at most
      one outcome, as late as it likes; a call that is torn down by something `except Exception`
      does not catch ends in none. */
  datatype Act =
    | BeginCall(now: real)
    | Succeeded(id: nat)
    | Failed(id: nat, now: real)
    | Abandoned(id: nat)
    | Look(now: real)
    | Clear

  // The breaker and the admitted calls that have not ended, numbered as they were admitted:
  // whether each was let in as a probe, that is, while the breaker was HALF_OPEN.
  datatype World = World(s: State, calls: map<nat, bool>, next: nat)
  {
    predicate Probes(x: nat) {
      x in calls && calls[x]
    }

    predicate AtMostOneCall() {
      forall x, y | x in calls && y in calls :: x == y
    }
  }

  const START := World(Fresh, map[], 0)

  predicate Ends(a: Act, x: nat) {
    (a.Succeeded? || a.Failed? || a.Abandoned?) && a.id == x
  }

  predicate Possible(w: World, a: Act) {
    a.Succeeded? || a.Failed? || a.Abandoned? ==> a.id in w.calls
  }

  function Next(c: Config, w: World, a: Act): World
    requires Possible(w, a)
  {
    match a
    case BeginCall(now) =>
      var (t, admitted) := Begin(c, w.s, now);
      if admitted then World(t, w.calls[w.next := t.mode == HalfOpen], w.next + 1) else w.(s := t)
    case Succeeded(x) => World(OnSuccess(c, w.s), w.calls - {x}, w.next)
    case Failed(x, now) => World(OnFailure(c, w.s, now), w.calls - {x}, w.next)
    case Abandoned(x) => w.(calls := w.calls - {x})
    case Look(now) => w.(s := Refresh(c, w.s, now))
    case Clear => w.(s := Reset(w.s))
  }

  // What the acts lead to from a world, if each was possible when it came.
  function Play(c: Config, w: World, acts: seq<Act>): Option<World> {
    if acts == [] then Some(w)
    else
      var v := Play(c, w, acts[..|acts| - 1]);
      var a := acts[|acts| - 1];
      if v.Some? && Possible(v.value, a) then Some(Next(c, v.value, a)) else None
  }

  function Run(c: Config, acts: seq<Act>): Option<World> {
    Play(c, START, acts)
  }

  lemma PlaySnoc(c: Config, w: World, acts: seq<Act>, a: Act)
    ensures Play(c, w, acts + [a]) ==
            var v := Play(c, w, acts);
            if v.Some? && Possible(v.value, a) then Some(Next(c, v.value, a)) else None
  {
    assert (acts + [a])[..|acts|] == acts;
  }

  predicate Inv(c: Config, s: State) {
    && (s.mode == Closed <==> s.openedAt.None?)
    && (s.mode == Closed <==> s.failures < c.failureThreshold)
    && (s.probing ==> s.mode == HalfOpen)
    && (s.mode == HalfOpen ==> s.successes < c.successThreshold)
    && (s.mode == Open ==> s.successes == 0)
  }

  /** Over every interleaving of call starts, outcomes however late, and clock readings in any
      order: the mode, the opening time, the failure count and the probe flag agree. */
  lemma {:induction false} Reachable(c: Config, acts: seq<Act>)
    requires c.Valid() && Run(c, acts).Some?
    ensures Inv(c, Run(c, acts).value.s)
  {
    if acts != [] {
      Reachable(c, acts[..|acts| - 1]);
    }
  }

  // What the clock said last along the run, if it was read.
  function LastReading(acts: seq<Act>): Option<real> {
    if acts == [] then None
    else match acts[|acts| - 1]
      case BeginCall(now) => Some(now)
      case Failed(_, now) => Some(now)
      case Look(now) => Some(now)
      case _ => LastReading(acts[..|acts| - 1])
  }

  predicate InOrder(acts: seq<Act>) {
    acts == [] ||
    var earlier := acts[..|acts| - 1];
    InOrder(earlier)
    && (LastReading(earlier).Some? ==> LastReading(earlier).value <= LastReading(acts).value)
  }

  predicate Reads(a: Act) {
    a.BeginCall? || a.Failed? || a.Look?
  }

  // The clock is read at t or later, and does not run backwards.
  predicate Forward(acts: seq<Act>, t: real) {
    InOrder(acts) && forall a | a in acts :: Reads(a) ==> t <= a.now
  }

  lemma ForwardSnoc(acts: seq<Act>, a: Act, t: real)
    requires Forward(acts, t)
    requires Reads(a) ==> t <= a.now && (LastReading(acts).Some? ==> LastReading(acts).value <= a.now)
    ensures Forward(acts + [a], t) && LastReading(acts + [a]) == if Reads(a) then Some(a.now) else LastReading(acts)
  {
    assert (acts + [a])[..|acts|] == acts;
  }

  // When the breaker last opened, or was failed while open, since it was last closed.
  function LastOpening(c: Config, acts: seq<Act>): Option<real>
    requires Run(c, acts).Some?
  {
    if acts == [] || Run(c, acts).value.s.mode == Closed then None
    else
      var a := acts[|acts| - 1];
      if a.Failed? && Run(c, acts).value.s.mode == Open then Some(a.now) else LastOpening(c, acts[..|acts| - 1])
  }

  lemma {:induction false} OpeningIsRemembered(c: Config, acts: seq<Act>)
    requires c.Valid() && Run(c, acts).Some? && InOrder(acts)
    ensures var s := Run(c, acts).value.s;
            && s.openedAt == LastOpening(c, acts)
            && (s.mode == HalfOpen ==>
                  && s.openedAt.Some? && LastReading(acts).Some?
                  && LastReading(acts).value - s.openedAt.value >= c.resetTimeout)
  {
    if acts != [] {
      OpeningIsRemembered(c, acts[..|acts| - 1]);
      Reachable(c, acts[..|acts| - 1]);
      Reachable(c, acts);
    }
  }

  /** With a clock that does not run backwards, no call is admitted before the reset timeout has
      elapsed since the failure that opened the breaker: an admission means it was closed, or the
      timeout is over. */
  lemma NothingIsAdmittedEarly(c: Config, acts: seq<Act>, now: real)
    requires c.Valid() && Run(c, acts).Some? && InOrder(acts + [BeginCall(now)])
    requires Begin(c, Run(c, acts).value.s, now).1
    ensures Run(c, acts).value.s.mode == Closed
            || (LastOpening(c, acts).Some? && now - LastOpening(c, acts).value >= c.resetTimeout)
  {
    assert (acts + [BeginCall(now)])[..|acts|] == acts;
    OpeningIsRemembered(c, acts);
    Reachable(c, acts);
  }

  // Each time the breaker became HALF_OPEN along the run, no call was outstanding.
  predicate EntersHalfOpenIdle(c: Config, acts: seq<Act>)
    requires Run(c, acts).Some?
  {
    acts != [] ==>
      var w := Run(c, acts[..|acts| - 1]).value;
      && EntersHalfOpenIdle(c, acts[..|acts| - 1])
      && (w.s.mode == Open && Run(c, acts).value.s.mode == HalfOpen ==> w.calls == map[])
  }

  /** Then at most one call runs while it is HALF_OPEN, and that call is the probe. */
  lemma {:induction false} OneProbeAtATime(c: Config, acts: seq<Act>)
    requires c.Valid() && Run(c, acts).Some? && EntersHalfOpenIdle(c, acts)
    ensures var w := Run(c, acts).value;
            w.s.mode == HalfOpen ==>
              w.AtMostOneCall() && forall x | x in w.calls :: w.Probes(x) && w.s.probing
  {
    if acts != [] {
      OneProbeAtATime(c, acts[..|acts| - 1]);
      Reachable(c, acts[..|acts| - 1]);
    }
  }

  predicate StaysHalfOpen(c: Config, w: World, acts: seq<Act>) {
    && (acts != [] ==> StaysHalfOpen(c, w, acts[..|acts| - 1]))
    && Play(c, w, acts).Some? && Play(c, w, acts).value.s.mode == HalfOpen
  }

  /** The proviso is needed each time: for as long as the breaker stays HALF_OPEN at most one call
      runs, in every continuation, exactly when none was outstanding on entry; and a clock that only
      runs forward, from any time t, makes no difference. */
  lemma OneCallExactly(c: Config, w: World, t: real)
    requires w.s.mode == HalfOpen && !w.s.probing
    requires w.next !in w.calls
    ensures (forall acts | StaysHalfOpen(c, w, acts) :: Play(c, w, acts).value.AtMostOneCall())
            <==> w.calls == map[]
    ensures (forall acts | StaysHalfOpen(c, w, acts) && Forward(acts, t) :: Play(c, w, acts).value.AtMostOneCall())
            <==> w.calls == map[]
  {
    if w.calls == map[] {
      forall acts | StaysHalfOpen(c, w, acts)
        ensures Play(c, w, acts).value.AtMostOneCall()
      {
        IdleEntry(c, w, acts);
      }
    } else {
      var x :| x in w.calls;
      var acts := [BeginCall(t)];
      PlaySnoc(c, w, [], BeginCall(t));
      ForwardSnoc([], BeginCall(t), t);
      assert [] + acts == acts;
      var v := Play(c, w, acts).value;
      assert StaysHalfOpen(c, w, acts) by {
        assert acts[..0] == [];
        assert StaysHalfOpen(c, w, []);
      }
      assert x in v.calls && w.next in v.calls && x != w.next;
    }
  }

  lemma {:induction false} IdleEntry(c: Config, w: World, acts: seq<Act>)
    requires w.s.mode == HalfOpen && !w.s.probing && w.calls == map[]
    requires StaysHalfOpen(c, w, acts)
    ensures var v := Play(c, w, acts).value;
            v.AtMostOneCall() && (v.calls != map[] ==> v.s.probing)
  {
    if acts != [] {
      IdleEntry(c, w, acts[..|acts| - 1]);
    }
  }

  /* -------- a second probe -------- */

  // Act i lets call x in as a probe.
  predicate BeginsProbe(c: Config, acts: seq<Act>, i: nat, x: nat) {
    && i < |acts| && acts[i].BeginCall? && Run(c, acts[..i]).Some?
    && var w := Run(c, acts[..i]).value;
       && w.next == x && Begin(c, w.s, acts[i].now).1
       && Refresh(c, w.s, acts[i].now).mode == HalfOpen
  }

  ghost predicate NeverEnds(acts: seq<Act>, i: nat, x: nat) {
    forall m | i < m < |acts| :: !Ends(acts[m], x)
  }

  // Act k frees the probe slot without ending call x: another call reports while the breaker
  // is HALF_OPEN, or someone resets it.
  predicate FreesSlot(c: Config, acts: seq<Act>, k: nat, x: nat) {
    && k < |acts| && Run(c, acts[..k]).Some?
    && (acts[k].Clear?
        || ((acts[k].Succeeded? || acts[k].Failed?) && acts[k].id != x
            && Run(c, acts[..k]).value.s.mode == HalfOpen))
  }

  // x was let in as a probe, then the slot was freed by other means, then y was let in as a
  // probe, and neither has ended.
  ghost predicate Overlap(c: Config, acts: seq<Act>, x: nat, y: nat, i: nat, k: nat, j: nat) {
    && i < k < j
    && BeginsProbe(c, acts, i, x) && NeverEnds(acts, i, x)
    && FreesSlot(c, acts, k, x)
    && BeginsProbe(c, acts, j, y) && NeverEnds(acts, j, y)
  }

  /** Two probes are outstanding exactly when, while one was out, the outcome of another call was
      reported to the HALF_OPEN breaker (or it was reset) and then a second probe was let in. */
  lemma TwoProbesExactly(c: Config, acts: seq<Act>)
    requires Run(c, acts).Some?
    ensures (exists x, y | x < y :: Run(c, acts).value.Probes(x) && Run(c, acts).value.Probes(y))
            <==> exists x, y, i, k, j :: Overlap(c, acts, x, y, i, k, j)
  {
    hide Run, Begin, Refresh;
    var w := Run(c, acts).value;
    if x, y :| x < y && w.Probes(x) && w.Probes(y) {
      ProbeSince(c, acts, x);
      ProbeSince(c, acts, y);
      var i :| BeginsProbe(c, acts, i, x) && NeverEnds(acts, i, x);
      var j :| BeginsProbe(c, acts, j, y) && NeverEnds(acts, j, y);
      BegunInOrder(c, acts, i, j, x, y);
      var k := SlotWasFreed(c, acts, i, j, x, y);
      assert Overlap(c, acts, x, y, i, k, j);
    }
    if x, y, i, k, j :| Overlap(c, acts, x, y, i, k, j) {
      ProbeSince(c, acts, x);
      ProbeSince(c, acts, y);
      BegunInOrder(c, acts, i, j, x, y);
      assert w.Probes(x) && w.Probes(y);
    }
  }

  lemma RunPrefix(c: Config, acts: seq<Act>, n: nat)
    requires n <= |acts| && Run(c, acts).Some?
    ensures Run(c, acts[..n]).Some? && Run(c, acts[..n]).value.next <= Run(c, acts).value.next
    decreases |acts| - n
  {
    if n < |acts| {
      RunPrefix(c, acts, n + 1);
      assert acts[..n + 1][..n] == acts[..n];
    } else {
      assert acts[..n] == acts;
    }
  }

  lemma {:induction false} NumbersAreNew(c: Config, acts: seq<Act>)
    requires Run(c, acts).Some?
    ensures forall x | x in Run(c, acts).value.calls :: x < Run(c, acts).value.next
  {
    if acts != [] {
      NumbersAreNew(c, acts[..|acts| - 1]);
    }
  }

  // A probe is outstanding exactly when it was let in and has not ended since.
  lemma {:induction false} ProbeSince(c: Config, acts: seq<Act>, x: nat)
    requires Run(c, acts).Some?
    ensures Run(c, acts).value.Probes(x) <==> exists i :: BeginsProbe(c, acts, i, x) && NeverEnds(acts, i, x)
  {
    if acts != [] {
      var n := |acts| - 1;
      var earlier := acts[..n];
      ProbeSince(c, earlier, x);
      NumbersAreNew(c, earlier);
      forall i | 0 <= i < n
        ensures BeginsProbe(c, acts, i, x) <==> BeginsProbe(c, earlier, i, x)
        ensures NeverEnds(acts, i, x) <==> NeverEnds(earlier, i, x) && !Ends(acts[n], x)
      {
        assert acts[..i] == earlier[..i];
      }
      assert NeverEnds(acts, n, x);
      LastAct(c, acts, x);
      if Run(c, acts).value.Probes(x) && !BeginsProbe(c, acts, n, x) {
        var i :| BeginsProbe(c, earlier, i, x) && NeverEnds(earlier, i, x);
        assert BeginsProbe(c, acts, i, x) && NeverEnds(acts, i, x);
      }
      if i: nat :| BeginsProbe(c, acts, i, x) && NeverEnds(acts, i, x) {
        assert i < n ==> BeginsProbe(c, earlier, i, x) && NeverEnds(earlier, i, x);
      }
    }
  }

  // What the last act does to one probe.
  lemma LastAct(c: Config, acts: seq<Act>, x: nat)
    requires acts != [] && Run(c, acts).Some? && Run(c, acts[..|acts| - 1]).Some?
    requires Run(c, acts[..|acts| - 1]).value.Probes(x) ==> x < Run(c, acts[..|acts| - 1]).value.next
    ensures var n := |acts| - 1;
            Run(c, acts).value.Probes(x) <==>
              BeginsProbe(c, acts, n, x) || (Run(c, acts[..n]).value.Probes(x) && !Ends(acts[n], x))
  {
  }

  lemma BegunInOrder(c: Config, acts: seq<Act>, i: nat, j: nat, x: nat, y: nat)
    requires Run(c, acts).Some? && BeginsProbe(c, acts, i, x) && BeginsProbe(c, acts, j, y)
    ensures i < j <==> x < y
  {
    if i < j {
      NumberedLater(c, acts, i, j, x, y);
    } else if j < i {
      NumberedLater(c, acts, j, i, y, x);
    }
  }

  lemma NumberedLater(c: Config, acts: seq<Act>, i: nat, j: nat, x: nat, y: nat)
    requires Run(c, acts).Some? && BeginsProbe(c, acts, i, x) && BeginsProbe(c, acts, j, y)
    requires i < j
    ensures x < y
  {
    assert acts[..j][..i + 1] == acts[..i + 1];
    assert acts[..i + 1][..i] == acts[..i];
    RunPrefix(c, acts[..j], i + 1);
  }

  // From x's admission on, the slot is taken until something other than x's end frees it.
  lemma {:induction false} SlotTaken(c: Config, acts: seq<Act>, i: nat, x: nat) returns (k: nat)
    requires Run(c, acts).Some? && BeginsProbe(c, acts, i, x) && NeverEnds(acts, i, x)
    ensures (Run(c, acts).value.s.mode == HalfOpen && Run(c, acts).value.s.probing)
            || (i < k < |acts| && FreesSlot(c, acts, k, x))
  {
    var n := |acts| - 1;
    k := 0;
    if i < n {
      var earlier := acts[..n];
      assert earlier[..i] == acts[..i];
      RunPrefix(c, acts, n);
      k := SlotTaken(c, earlier, i, x);
      if i < k < n && FreesSlot(c, earlier, k, x) {
        assert earlier[..k] == acts[..k];
      } else {
        assert !Ends(acts[n], x);
        k := n;
      }
    }
  }

  lemma SlotWasFreed(c: Config, acts: seq<Act>, i: nat, j: nat, x: nat, y: nat) returns (k: nat)
    requires Run(c, acts).Some? && i < j
    requires BeginsProbe(c, acts, i, x) && NeverEnds(acts, i, x) && BeginsProbe(c, acts, j, y)
    ensures i < k < j && FreesSlot(c, acts, k, x)
  {
    var before := acts[..j];
    assert before[..i] == acts[..i];
    RunPrefix(c, acts, j);
    k := SlotTaken(c, before, i, x);
    assert k < j ==> before[..k] == acts[..k];
  }

  predicate NoReset(acts: seq<Act>) {
    forall a | a in acts :: !a.Clear?
  }

  // A way on, without a reset and without x ending, to a second probe beside x.
  ghost predicate SecondProbeBeside(c: Config, w: World, x: nat, acts: seq<Act>) {
    && NoReset(acts) && (forall a | a in acts :: !Ends(a, x))
    && Play(c, w, acts).Some?
    && exists y | y != x :: Play(c, w, acts).value.Probes(x) && Play(c, w, acts).value.Probes(y)
  }

  /** Seen from the moment a probe is out: a second one can come to stand beside it exactly when
      some other call is outstanding. Its outcome, early or late, is all it takes, with a clock that
      only runs forward from any time t. */
  lemma SecondProbeExactly(c: Config, w: World, x: nat, t: real)
    requires c.Valid()
    requires w.s.mode == HalfOpen && w.s.probing && w.Probes(x)
    requires w.next !in w.calls
    ensures (exists acts :: SecondProbeBeside(c, w, x, acts)) <==> exists y | y in w.calls :: y != x
    ensures (exists acts :: SecondProbeBeside(c, w, x, acts) && Forward(acts, t)) <==> exists y | y in w.calls :: y != x
  {
    if y :| y in w.calls && y != x {
      var acts := FailAndRetry(c, w, y, t);
      assert Play(c, w, acts).value.Probes(w.next) && Play(c, w, acts).value.Probes(x);
      assert SecondProbeBeside(c, w, x, acts);
    } else {
      forall acts
        ensures !SecondProbeBeside(c, w, x, acts)
      {
        if NoReset(acts) && (forall a | a in acts :: !Ends(a, x)) && Play(c, w, acts).Some? {
          AloneStaysAlone(c, w, acts, x);
        }
      }
    }
  }

  // Another call fails, and once the timeout is over the next one is let in as a probe.
  lemma FailAndRetry(c: Config, w: World, y: nat, t: real) returns (acts: seq<Act>)
    requires c.Valid() && w.s.mode == HalfOpen && y in w.calls && w.next !in w.calls
    ensures NoReset(acts) && Forward(acts, t) && forall a, x | a in acts && x != y :: !Ends(a, x)
    ensures Play(c, w, acts).Some?
    ensures Play(c, w, acts).value.calls == (w.calls - {y})[w.next := true]
    ensures Play(c, w, acts).value.next == w.next + 1
  {
    var fail, again := Failed(y, t), BeginCall(t + c.resetTimeout);
    acts := [fail] + [again];
    PlaySnoc(c, w, [], fail);
    PlaySnoc(c, w, [fail], again);
    ForwardSnoc([], fail, t);
    ForwardSnoc([fail], again, t);
    assert [] + [fail] == [fail];
  }

  lemma {:induction false} AloneStaysAlone(c: Config, w: World, acts: seq<Act>, x: nat)
    requires w.s.mode == HalfOpen && w.s.probing && (forall y | y in w.calls :: y == x)
    requires NoReset(acts) && (forall a | a in acts :: !Ends(a, x)) && Play(c, w, acts).Some?
    ensures var v := Play(c, w, acts).value;
            v.s.mode == HalfOpen && v.s.probing && v.calls == w.calls && v.next == w.next
  {
    if acts != [] {
      var a := acts[|acts| - 1];
      assert forall b | b in acts[..|acts| - 1] :: b in acts;
      AloneStaysAlone(c, w, acts[..|acts| - 1], x);
      assert a in acts;
    }
  }

  /** It happens: a call admitted before the breaker opened reports success during the probe, and
      a second probe joins the first. Just before that report there was one. */
  lemma LateSuccessAdmitsSecondProbe(c: Config)
    requires c == Config(1, 10.0, 2)
    ensures var before := [BeginCall(0.0), BeginCall(0.0), Failed(0, 1.0), BeginCall(11.0)];
            var after := before + [Succeeded(1)] + [BeginCall(11.0)];
            && Run(c, before).Some? && Run(c, before).value.calls == map[1 := false, 2 := true]
            && Run(c, after).Some? && Run(c, after).value.calls == map[2 := true, 3 := true]
  {
    var before, late, again :=
      [BeginCall(0.0), BeginCall(0.0), Failed(0, 1.0), BeginCall(11.0)], Succeeded(1), BeginCall(11.0);
    ProbeOut(c);
    hide Play;
    PlaySnoc(c, START, before, late);
    PlaySnoc(c, START, before + [late], again);
  }

  lemma ProbeOut(c: Config)
    requires c == Config(1, 10.0, 2)
    ensures Run(c, [BeginCall(0.0), BeginCall(0.0), Failed(0, 1.0), BeginCall(11.0)])
            == Some(World(State(HalfOpen, 1, 0, Some(1.0), true, Counters(3, 1, 0, 1)), map[1 := false, 2 := true], 3))
  {
    var b, f, p := BeginCall(0.0), Failed(0, 1.0), BeginCall(11.0);
    TwoCalls(c);
    assert [b, b, f] == [b, b] + [f] && [b, b, f, p] == [b, b, f] + [p];
    hide Play;
    assert map[0 := false, 1 := false] - {0} == map[1 := false];
    PlaySnoc(c, START, [b, b], f);
    PlaySnoc(c, START, [b, b, f], p);
  }

  lemma TwoCalls(c: Config)
    ensures Run(c, [BeginCall(0.0), BeginCall(0.0)])
            == Some(World(State(Closed, 0, 0, None, false, Counters(2, 0, 0, 0)), map[0 := false, 1 := false], 2))
  {
    var b := BeginCall(0.0);
    assert [] + [b] == [b] && [b] + [b] == [b, b];
    assert Run(c, []) == Some(START);
    hide Play;
    PlaySnoc(c, START, [], b);
    PlaySnoc(c, START, [b], b);
  }

  /* -------- when it trips and when it recovers -------- */

  // The outcomes reported along the way: None is a success, Some(t) a failure at t.
  function Outcomes(acts: seq<Act>): seq<Option<real>> {
    if acts == [] then []
    else
      var earlier := Outcomes(acts[..|acts| - 1]);
      match acts[|acts| - 1]
      case Succeeded(_) => earlier + [None]
      case Failed(_, now) => earlier + [Some(now)]
      case _ => earlier
  }

  // n failures in a row, ending with outcome number `end`.
  ghost predicate FailuresInARow(outcomes: seq<Option<real>>, end: nat, n: nat) {
    && n <= end <= |outcomes|
    && forall i | end - n <= i < end :: outcomes[i].Some?
  }

  // How many failures in a row end the list.
  function Trailing(outcomes: seq<Option<real>>): (n: nat)
    ensures n <= |outcomes| && FailuresInARow(outcomes, |outcomes|, n)
    ensures n < |outcomes| ==> outcomes[|outcomes| - 1 - n].None?
  {
    if outcomes == [] || outcomes[|outcomes| - 1].None? then 0
    else Trailing(outcomes[..|outcomes| - 1]) + 1
  }

  ghost predicate SomewhereInARow(outcomes: seq<Option<real>>, n: nat) {
    exists end: nat :: FailuresInARow(outcomes, end, n)
  }

  lemma InARowSnoc(outcomes: seq<Option<real>>, last: Option<real>, n: nat)
    requires n > 0
    ensures Trailing(outcomes + [last]) == if last.None? then 0 else Trailing(outcomes) + 1
    ensures SomewhereInARow(outcomes + [last], n)
            <==> SomewhereInARow(outcomes, n) || Trailing(outcomes + [last]) >= n
  {
    var longer := outcomes + [last];
    assert longer[..|outcomes|] == outcomes;
    if end: nat :| FailuresInARow(outcomes, end, n) {
      assert FailuresInARow(longer, end, n);
    }
    if Trailing(longer) >= n {
      assert FailuresInARow(longer, |longer|, n);
    }
    if end: nat :| FailuresInARow(longer, end, n) {
      assert end < |longer| ==> FailuresInARow(outcomes, end, n);
    }
  }

  // Along these acts the breaker was closed all the time.
  predicate StaysClosed(c: Config, w: World, acts: seq<Act>) {
    && (acts != [] ==> StaysClosed(c, w, acts[..|acts| - 1]))
    && Play(c, w, acts).Some? && Play(c, w, acts).value.s.mode == Closed
  }

  /** From a closed breaker with nothing against it, whatever calls begin, end or are torn down and
      whenever the clock is read: it stays closed exactly as long as failureThreshold failures in a
      row have not been reported, and the report that completes them opens it at once. */
  lemma {:induction false} TripsExactly(c: Config, w: World, acts: seq<Act>)
    requires c.Valid() && w.s.mode == Closed && w.s.failures == 0
    requires Play(c, w, acts).Some? && NoReset(acts)
    ensures StaysClosed(c, w, acts) <==> !SomewhereInARow(Outcomes(acts), c.failureThreshold)
    ensures StaysClosed(c, w, acts) ==> Play(c, w, acts).value.s.failures == Trailing(Outcomes(acts))
    ensures acts != [] && StaysClosed(c, w, acts[..|acts| - 1]) && !StaysClosed(c, w, acts) ==>
              var s, last := Play(c, w, acts).value.s, acts[|acts| - 1];
              last.Failed? && s.mode == Open && s.openedAt == Some(last.now)
  {
    if acts == [] {
      assert !SomewhereInARow(Outcomes(acts), c.failureThreshold);
    } else {
      var front, last := acts[..|acts| - 1], acts[|acts| - 1];
      assert last in acts && forall a | a in front :: a in acts;
      hide SomewhereInARow, Trailing;
      TripsExactly(c, w, front);
      if last.Succeeded? {
        InARowSnoc(Outcomes(front), None, c.failureThreshold);
      } else if last.Failed? {
        InARowSnoc(Outcomes(front), Some(last.now), c.failureThreshold);
      }
    }
  }

  predicate AllSuccesses(outcomes: seq<Option<real>>) {
    forall i | 0 <= i < |outcomes| :: outcomes[i].None?
  }

  /** From a breaker that has just become HALF_OPEN, likewise: it stays so exactly as long as all the
      outcomes reported are successes and fewer than successThreshold. The success that makes up the
      number closes it; a failure before that opens it again and restarts the timeout. */
  lemma {:induction false} RecoversExactly(c: Config, w: World, acts: seq<Act>)
    requires c.Valid() && w.s.mode == HalfOpen && w.s.successes == 0
    requires Play(c, w, acts).Some? && NoReset(acts)
    ensures StaysHalfOpen(c, w, acts) <==> AllSuccesses(Outcomes(acts)) && |Outcomes(acts)| < c.successThreshold
    ensures StaysHalfOpen(c, w, acts) ==> Play(c, w, acts).value.s.successes == |Outcomes(acts)|
    ensures acts != [] && StaysHalfOpen(c, w, acts[..|acts| - 1]) && !StaysHalfOpen(c, w, acts) ==>
              var s, last := Play(c, w, acts).value.s, acts[|acts| - 1];
              if last.Failed? then s.mode == Open && s.openedAt == Some(last.now)
              else last.Succeeded? && |Outcomes(acts)| == c.successThreshold && s.mode == Closed && s.failures == 0
  {
    if acts != [] {
      var front, last := acts[..|acts| - 1], acts[|acts| - 1];
      assert last in acts && forall a | a in front :: a in acts;
      RecoversExactly(c, w, front);
      var o := Outcomes(front);
      assert forall i | 0 <= i < |o| :: (o + [None])[i] == o[i];
      assert last.Failed? ==> Outcomes(acts)[|o|].Some?;
      assert forall i | 0 <= i < |o| :: Outcomes(acts)[i] == o[i];
    }
  }

  /* -------- a probe that never reports -------- */

  // Whatever is done short of a reset, no call is admitted any more.
  ghost predicate Wedged(c: Config, w: World) {
    forall acts | NoReset(acts) && Play(c, w, acts).Some? :: Play(c, w, acts).value.next == w.next
  }

  // The same, for whatever is done from time t on with a clock that only runs forward.
  ghost predicate WedgedFrom(c: Config, w: World, t: real) {
    forall acts | NoReset(acts) && Forward(acts, t) && Play(c, w, acts).Some? :: Play(c, w, acts).value.next == w.next
  }

  /** A HALF_OPEN breaker with its probe slot taken admits no call ever again, short of a reset,
      exactly when nothing is outstanding that could report: whatever the clock does, or running
      forward from any time t. */
  lemma LostProbeWedges(c: Config, w: World, t: real)
    requires c.Valid() && w.s.mode == HalfOpen && w.s.probing && w.next !in w.calls
    ensures Wedged(c, w) <==> w.calls == map[]
    ensures WedgedFrom(c, w, t) <==> w.calls == map[]
  {
    if w.calls == map[] {
      forall acts | NoReset(acts) && Play(c, w, acts).Some?
        ensures Play(c, w, acts).value.next == w.next
      {
        NothingReports(c, w, acts);
      }
    } else {
      var y :| y in w.calls;
      var acts := FailAndRetry(c, w, y, t);
    }
  }

  lemma {:induction false} NothingReports(c: Config, w: World, acts: seq<Act>)
    requires w.s.mode == HalfOpen && w.s.probing && w.calls == map[]
    requires NoReset(acts) && Play(c, w, acts).Some?
    ensures var v := Play(c, w, acts).value;
            v.s.mode == HalfOpen && v.s.probing && v.calls == map[] && v.next == w.next
  {
    if acts != [] {
      assert forall b | b in acts[..|acts| - 1] :: b in acts;
      assert acts[|acts| - 1] in acts;
      NothingReports(c, w, acts[..|acts| - 1]);
    }
  }

  /** Every breaker can be brought there, from any time t on: fail it open, wait, and let the probe be
      torn down. */
  lemma EveryBreakerCanWedge(c: Config, t: real) returns (acts: seq<Act>)
    requires c.Valid()
    ensures NoReset(acts) && Forward(acts, t)
    ensures Run(c, acts).Some? && acts != [] && acts[|acts| - 1].Abandoned?
    ensures Wedged(c, Run(c, acts).value)
  {
    var failed := FailTimes(c, c.failureThreshold, t);
    var w := Run(c, failed).value;
    var probe, lost := BeginCall(t + c.resetTimeout), Abandoned(w.next);
    acts := failed + [probe] + [lost];
    PlaySnoc(c, START, failed, probe);
    PlaySnoc(c, START, failed + [probe], lost);
    ForwardSnoc(failed, probe, t);
    ForwardSnoc(failed + [probe], lost, t);
    LostProbeWedges(c, Run(c, acts).value, t);
  }

  // n calls at time t, one after another, that all fail.
  lemma {:induction false} FailTimes(c: Config, n: nat, t: real) returns (acts: seq<Act>)
    requires c.Valid() && n <= c.failureThreshold
    ensures NoReset(acts) && Forward(acts, t) && (LastReading(acts).Some? ==> LastReading(acts).value == t)
    ensures Run(c, acts).Some?
    ensures var w := Run(c, acts).value;
            && w.calls == map[] && w.next == n && w.s.failures == n && !w.s.probing
            && (n < c.failureThreshold ==> w.s.mode == Closed)
            && (n == c.failureThreshold ==> w.s.mode == Open && w.s.openedAt == Some(t))
  {
    if n == 0 {
      acts := [];
    } else {
      var earlier := FailTimes(c, n - 1, t);
      var b, f := BeginCall(t), Failed(n - 1, t);
      acts := earlier + [b] + [f];
      PlaySnoc(c, START, earlier, b);
      PlaySnoc(c, START, earlier + [b], f);
      ForwardSnoc(earlier, b, t);
      ForwardSnoc(earlier + [b], f, t);
    }
  }

  /** And only so: as long as every call that began reports in the end, a taken slot is the slot
      of a probe still out, so the breaker is not wedged. */
  lemma {:induction false} OnlyAbandonedProbesWedge(c: Config, acts: seq<Act>)
    requires c.Valid() && Run(c, acts).Some? && forall a | a in acts :: !a.Abandoned?
    ensures var w := Run(c, acts).value;
            w.s.probing ==> (exists x :: w.Probes(x)) && !Wedged(c, w)
  {
    SlotHasProbe(c, acts);
    NumbersAreNew(c, acts);
    Reachable(c, acts);
    var w := Run(c, acts).value;
    if w.s.probing {
      LostProbeWedges(c, w, 0.0);
    }
  }

  lemma {:induction false} SlotHasProbe(c: Config, acts: seq<Act>)
    requires c.Valid() && Run(c, acts).Some? && forall a | a in acts :: !a.Abandoned?
    ensures Run(c, acts).value.s.probing ==> exists x :: Run(c, acts).value.Probes(x)
  {
    if acts != [] {
      var earlier, a := acts[..|acts| - 1], acts[|acts| - 1];
      assert forall b | b in earlier :: b in acts;
      assert a in acts;
      SlotHasProbe(c, earlier);
      NumbersAreNew(c, earlier);
      Reachable(c, earlier);
      var v, w := Run(c, earlier).value, Run(c, acts).value;
      if w.s.probing {
        if v.s.probing {
          var x :| v.Probes(x);
          assert w.Probes(x);
        } else {
          assert w.Probes(v.next);
        }
      }
    }
  }
}
