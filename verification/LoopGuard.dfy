/** The per-trace loop guard: `PipelineStateEngine`, sentinel_os/governance_loop_guard.py. */
module LoopGuard {
  import opened Wrappers
  import opened Sequences
  import opened Texts

  datatype Config = Config(maxRetries: int, maxHistory: nat, maxTraces: int)

  datatype Verdict = BLOCKED_LOOP | RETRY | SYSTEM_ERROR | ACCEPTED

  // One kept trace and its deque of outputs, oldest first.
  datatype Entry = Entry(trace: string, window: seq<string>)

  // The engine: the shared deque, the ordered dictionary of traces (least recently used first)
  // and the retry counter, which all calls share.
  datatype State = State(seen: seq<string>, traces: seq<Entry>, retries: nat)

  const Fresh := State([], [], 0)

  function Find(traces: seq<Entry>, trace: string): (i: nat)
    ensures i <= |traces|
    ensures i < |traces| ==> traces[i].trace == trace
    ensures forall j | 0 <= j < i :: traces[j].trace != trace
  {
    if traces == [] || traces[0].trace == trace then 0 else 1 + Find(traces[1..], trace)
  }

  // _trace_window: move the trace to the end, or add it and drop the least recently used.
  function Touch(c: Config, traces: seq<Entry>, trace: string): seq<Entry> {
    var i := Find(traces, trace);
    if i < |traces| then traces[..i] + traces[i + 1..] + [traces[i]]
    else
      var more := traces + [Entry(trace, [])];
      if |more| > c.maxTraces then more[1..] else more
  }

  function WindowOf(traces: seq<Entry>, trace: string): seq<string> {
    var i := Find(traces, trace);
    if i < |traces| then traces[i].window else []
  }

  // Append to the deque of the trace just touched; a trace dropped at once keeps nothing.
  function Record(c: Config, traces: seq<Entry>, trace: string, text: string): seq<Entry> {
    var n := |traces| - 1;
    if traces != [] && traces[n].trace == trace
    then traces[..n] + [Entry(trace, LastN(traces[n].window + [text], c.maxHistory))]
    else traces
  }

  function Lifecycle(c: Config, s: State, text: string, trace: Option<string>): (State, Verdict) {
    var touched := if trace.None? then s else s.(traces := Touch(c, s.traces, trace.value));
    var window := if trace.None? then s.seen else WindowOf(s.traces, trace.value);
    if text in window then (touched, BLOCKED_LOOP)
    else if IsBlank(text) then
      if s.retries < c.maxRetries then (touched.(retries := s.retries + 1), RETRY)
      else (touched, SYSTEM_ERROR)
    else if trace.None? then
      (State(LastN(s.seen + [text], c.maxHistory), s.traces, 0), ACCEPTED)
    else
      (State(s.seen, Record(c, Touch(c, touched.traces, trace.value), trace.value, text), 0), ACCEPTED)
  }

  /* -------- the engine's object -------- */

  class PipelineStateEngine {
    const config: Config
    var seen: seq<string>
    var traces: seq<Entry>
    var retries: nat

    ghost function Contents(): State
      reads this
    {
      State(seen, traces, retries)
    }

    constructor (c: Config)
      ensures config == c && Contents() == Fresh
    {
      config := c;
      seen, traces, retries := [], [], 0;
    }

    method TraceWindow(trace: string) returns (window: seq<string>)
      modifies this`traces
      ensures traces == Touch(config, old(traces), trace)
      ensures window == WindowOf(old(traces), trace)
    {
      var i := Find(traces, trace);
      if i == |traces| {
        window := [];
        traces := traces + [Entry(trace, window)];
        if |traces| > config.maxTraces {
          traces := traces[1..];
        }
      } else {
        window := traces[i].window;
        traces := traces[..i] + traces[i + 1..] + [traces[i]];
      }
    }

    method ProcessLifecycle(text: string, trace: Option<string>) returns (verdict: Verdict)
      modifies this
      ensures (Contents(), verdict) == Lifecycle(config, old(Contents()), text, trace)
    {
      var window := seen;
      if trace.Some? {
        window := TraceWindow(trace.value);
      }
      if text in window {
        return BLOCKED_LOOP;
      }
      if IsBlank(text) {
        if retries < config.maxRetries {
          retries := retries + 1;
          return RETRY;
        }
        return SYSTEM_ERROR;
      }
      if trace.None? {
        seen := LastN(seen + [text], config.maxHistory);
      } else {
        window := TraceWindow(trace.value);
        // The deque is written through the dictionary entry it is shared with, if it has one.
        traces := Record(config, traces, trace.value, text);
      }
      retries := 0;
      return ACCEPTED;
    }
  }

  /* -------- runs -------- */

  datatype Call = Call(text: string, trace: Option<string>)

  function Run(c: Config, calls: seq<Call>): State {
    if calls == [] then Fresh
    else
      var call := calls[|calls| - 1];
      Lifecycle(c, Run(c, calls[..|calls| - 1]), call.text, call.trace).0
  }

  /* -------- the plain history -------- */

  // Every trace ever used, in order of last use.
  function Recency(calls: seq<Call>): seq<string> {
    if calls == [] then []
    else
      var trace := calls[|calls| - 1].trace;
      var earlier := Recency(calls[..|calls| - 1]);
      if trace.None? then earlier else Without(earlier, trace.value) + [trace.value]
  }

  function Capacity(c: Config): nat {
    if c.maxTraces < 0 then 0 else c.maxTraces
  }

  // The traces not evicted: the most recently used ones.
  function Kept(c: Config, calls: seq<Call>): seq<string> {
    LastN(Recency(calls), Capacity(c))
  }

  // The shared window is never evicted.
  predicate Remembered(c: Config, calls: seq<Call>, key: Option<string>) {
    key.None? || key.value in Kept(c, calls)
  }

  /** The texts accepted under a key (a trace, or the shared window) since it was last evicted.
      A text is accepted unless it is blank or is among the last maxHistory of those. */
  function AcceptedSince(c: Config, calls: seq<Call>, key: Option<string>): seq<string> {
    if calls == [] || !Remembered(c, calls, key) then []
    else
      var call := calls[|calls| - 1];
      var before := AcceptedSince(c, calls[..|calls| - 1], key);
      if call.trace == key && call.text !in LastN(before, c.maxHistory) && !IsBlank(call.text)
      then before + [call.text] else before
  }

  function Window(c: Config, calls: seq<Call>, key: Option<string>): seq<string> {
    LastN(AcceptedSince(c, calls, key), c.maxHistory)
  }

  lemma {:induction false} RecencyIsDistinct(calls: seq<Call>)
    ensures NoDuplicates(Recency(calls))
  {
    hide Without, NoDuplicates;
    if calls != [] {
      var earlier := Recency(calls[..|calls| - 1]);
      RecencyIsDistinct(calls[..|calls| - 1]);
      if calls[|calls| - 1].trace.Some? {
        var trace := calls[|calls| - 1].trace.value;
        WithoutKeepsDistinct(earlier, trace);
        DistinctSnoc(Without(earlier, trace), trace);
      }
    } else {
      assert NoDuplicates(Recency(calls)) by { EmptyIsDistinct<string>(); }
    }
  }

  lemma KeptIsDistinct(c: Config, calls: seq<Call>)
    ensures NoDuplicates(Kept(c, calls))
  {
    hide Recency, LastN, NoDuplicates;
    RecencyIsDistinct(calls);
    LastNLength(Recency(calls), Capacity(c));
    var xs, kept := Recency(calls), Kept(c, calls);
    SuffixIsDistinct(xs[..|xs| - |kept|], kept);
  }

  /* -------- the engine follows the history -------- */

  ghost predicate Follows(c: Config, calls: seq<Call>, s: State) {
    && s.seen == Window(c, calls, None)
    && |s.traces| == |Kept(c, calls)|
    && forall i | 0 <= i < |s.traces| ::
         && s.traces[i].trace == Kept(c, calls)[i]
         && s.traces[i].window == Window(c, calls, Some(s.traces[i].trace))
  }

  lemma FoundWindow(c: Config, calls: seq<Call>, s: State, trace: string)
    requires Follows(c, calls, s)
    ensures WindowOf(s.traces, trace) == Window(c, calls, Some(trace))
  {
    var i := Find(s.traces, trace);
    if i == |s.traces| {
      assert trace !in Kept(c, calls);
    }
  }

  // What one more call does to the window of each key still remembered.
  lemma WindowStep(c: Config, calls: seq<Call>, call: Call, key: Option<string>)
    requires Remembered(c, calls + [call], key)
    ensures var before := Window(c, calls, key);
            Window(c, calls + [call], key)
            == if call.trace == key && call.text !in before && !IsBlank(call.text)
               then LastN(before + [call.text], c.maxHistory) else before
  {
    assert (calls + [call])[..|calls|] == calls;
    LastNSnoc(AcceptedSince(c, calls, key), call.text, c.maxHistory);
  }

  lemma {:induction false} EngineFollowsHistory(c: Config, calls: seq<Call>)
    ensures Follows(c, calls, Run(c, calls))
  {
    if calls != [] {
      var earlier, call := calls[..|calls| - 1], calls[|calls| - 1];
      assert calls == earlier + [call];
      EngineFollowsHistory(c, earlier);
      var s := Run(c, earlier);
      WindowStep(c, earlier, call, None);
      if call.trace.Some? {
        TracedStep(c, earlier, call, s);
      } else {
        forall i | 0 <= i < |s.traces|
          ensures Window(c, calls, Some(s.traces[i].trace)) == Window(c, earlier, Some(s.traces[i].trace))
        {
          WindowStep(c, earlier, call, Some(s.traces[i].trace));
        }
      }
    }
  }

  ghost predicate Named(traces: seq<Entry>, names: seq<string>) {
    |traces| == |names| && forall i | 0 <= i < |names| :: traces[i].trace == names[i]
  }

  // Each entry of u holds the window its trace has in t (none, if t does not hold the trace).
  ghost predicate SameWindows(t: seq<Entry>, u: seq<Entry>) {
    forall i | 0 <= i < |u| :: u[i].window == WindowOf(t, u[i].trace)
  }

  lemma FindsEach(traces: seq<Entry>, names: seq<string>, i: nat)
    requires NoDuplicates(names) && Named(traces, names) && i < |names|
    ensures Find(traces, names[i]) == i && WindowOf(traces, names[i]) == traces[i].window
  {
    assert traces[Find(traces, names[i])].trace == names[i];
  }

  // Touching keeps the order of use and every window.
  lemma TouchKnown(c: Config, traces: seq<Entry>, names: seq<string>, k: nat)
    requires NoDuplicates(names) && Named(traces, names) && k < |names|
    ensures Named(Touch(c, traces, names[k]), Without(names, names[k]) + [names[k]])
    ensures SameWindows(traces, Touch(c, traces, names[k]))
  {
    hide Without, Find, WindowOf, NoDuplicates;
    FindsEach(traces, names, k);
    WithoutOne(names, k);
    var t := Touch(c, traces, names[k]);
    assert t == traces[..k] + traces[k + 1..] + [traces[k]];
    forall i | 0 <= i < |t|
      ensures t[i].window == WindowOf(traces, t[i].trace)
    {
      FindsEach(traces, names, if i < k then i else if i == |t| - 1 then k else i + 1);
    }
  }

  lemma TouchNew(c: Config, traces: seq<Entry>, names: seq<string>, trace: string)
    requires NoDuplicates(names) && Named(traces, names) && trace !in names && |names| <= Capacity(c)
    ensures Named(Touch(c, traces, trace), LastN(names + [trace], Capacity(c)))
    ensures SameWindows(traces, Touch(c, traces, trace))
  {
    hide Find, WindowOf, NoDuplicates;
    assert WindowOf(traces, trace) == [] && Find(traces, trace) == |traces| by { NotFound(traces, trace); }
    var t := Touch(c, traces, trace);
    var more := traces + [Entry(trace, [])];
    assert |names| < Capacity(c) ==> t == more;
    forall i | 0 <= i < |more|
      ensures more[i].window == WindowOf(traces, more[i].trace)
    {
      if i < |names| {
        FindsEach(traces, names, i);
      }
    }
  }

  lemma NotFound(traces: seq<Entry>, trace: string)
    requires forall i | 0 <= i < |traces| :: traces[i].trace != trace
    ensures Find(traces, trace) == |traces| && WindowOf(traces, trace) == []
  {
  }

  lemma TouchFollows(c: Config, calls: seq<Call>, call: Call, s: State)
    requires Follows(c, calls, s) && call.trace.Some?
    ensures Named(Touch(c, s.traces, call.trace.value), Kept(c, calls + [call]))
    ensures SameWindows(s.traces, Touch(c, s.traces, call.trace.value))
  {
    hide Touch, NoDuplicates, LastN, Without, SameWindows;
    var trace, kept := call.trace.value, Kept(c, calls);
    assert (calls + [call])[..|calls|] == calls;
    RecencyIsDistinct(calls);
    KeptIsDistinct(c, calls);
    KeptStep(Recency(calls), trace, Capacity(c));
    LastNLength(Recency(calls), Capacity(c));
    assert Named(s.traces, kept);
    if trace in kept {
      var k :| 0 <= k < |kept| && kept[k] == trace;
      TouchKnown(c, s.traces, kept, k);
    } else {
      TouchNew(c, s.traces, kept, trace);
    }
  }

  // The trace in use is kept last, unless nothing is kept.
  lemma UsedIsLast(c: Config, calls: seq<Call>, call: Call)
    requires call.trace.Some?
    ensures var kept := Kept(c, calls + [call]);
            if Capacity(c) == 0 then kept == [] else kept != [] && kept[|kept| - 1] == call.trace.value
  {
    hide Without;
    assert (calls + [call])[..|calls|] == calls;
  }

  // Looking the trace up a second time, to record the text, moves nothing.
  lemma TouchedTwice(c: Config, traces: seq<Entry>, names: seq<string>, trace: string)
    requires NoDuplicates(names) && Named(traces, names)
    requires if Capacity(c) == 0 then names == [] else names != [] && names[|names| - 1] == trace
    ensures Touch(c, traces, trace) == traces
  {
    if names != [] {
      FindsEach(traces, names, |names| - 1);
    }
  }

  // What recording does to each window.
  lemma RecordShape(c: Config, traces: seq<Entry>, names: seq<string>, trace: string, text: string)
    requires NoDuplicates(names) && Named(traces, names)
    requires if Capacity(c) == 0 then names == [] else names != [] && names[|names| - 1] == trace
    ensures var t := Record(c, traces, trace, text);
            && Named(t, names)
            && forall i | 0 <= i < |names| ::
                 t[i].window == if names[i] == trace then LastN(traces[i].window + [text], c.maxHistory)
                                else traces[i].window
  {
    hide LastN;
  }

  lemma TracedStep(c: Config, calls: seq<Call>, call: Call, s: State)
    requires Follows(c, calls, s) && call.trace.Some?
    ensures Follows(c, calls + [call], Lifecycle(c, s, call.text, call.trace).0)
  {
    hide Touch, Kept, IsBlank, Record, LastN, NoDuplicates, Window, WindowOf;
    var trace, all := call.trace.value, calls + [call];
    var kept, t := Kept(c, all), Touch(c, s.traces, trace);
    TouchFollows(c, calls, call, s);
    UsedIsLast(c, calls, call);
    KeptIsDistinct(c, all);
    FoundWindow(c, calls, s, trace);
    WindowStep(c, calls, call, None);
    TouchedTwice(c, t, kept, trace);
    RecordShape(c, t, kept, trace, call.text);
    var u := Lifecycle(c, s, call.text, call.trace).0;
    forall i | 0 <= i < |kept|
      ensures u.traces[i].trace == kept[i] && u.traces[i].window == Window(c, all, Some(kept[i]))
    {
      WindowStep(c, calls, call, Some(kept[i]));
      FoundWindow(c, calls, s, kept[i]);
    }
  }

  /** The guard refines the plain history: a call is BLOCKED_LOOP exactly when its text is among
      the last maxHistory texts accepted under its key since that key was last evicted. */
  lemma BlocksExactly(c: Config, calls: seq<Call>, call: Call)
    ensures Lifecycle(c, Run(c, calls), call.text, call.trace).1 == BLOCKED_LOOP
            <==> call.text in LastN(AcceptedSince(c, calls, call.trace), c.maxHistory)
  {
    EngineFollowsHistory(c, calls);
    if call.trace.Some? {
      FoundWindow(c, calls, Run(c, calls), call.trace.value);
    }
  }

  /** At most maxTraces traces are kept, in order of last use; no window repeats a text or grows
      past maxHistory. */
  lemma BoundsHold(c: Config, calls: seq<Call>)
    ensures var s := Run(c, calls);
            && |s.traces| == |Kept(c, calls)| <= Capacity(c)
            && (forall i | 0 <= i < |s.traces| :: s.traces[i].trace == Kept(c, calls)[i])
            && (forall i | 0 <= i < |s.traces| ::
                  |s.traces[i].window| <= c.maxHistory && NoDuplicates(s.traces[i].window))
            && |s.seen| <= c.maxHistory && NoDuplicates(s.seen)
  {
    EngineFollowsHistory(c, calls);
    var s := Run(c, calls);
    forall i | 0 <= i < |s.traces|
      ensures NoDuplicates(s.traces[i].window)
    {
      WindowHasNoDuplicates(c, calls, Some(s.traces[i].trace));
    }
    WindowHasNoDuplicates(c, calls, None);
  }

  lemma {:induction false} WindowHasNoDuplicates(c: Config, calls: seq<Call>, key: Option<string>)
    ensures NoDuplicates(Window(c, calls, key))
  {
    if calls != [] && Remembered(c, calls, key) {
      var earlier := calls[..|calls| - 1];
      assert calls == earlier + [calls[|calls| - 1]];
      WindowHasNoDuplicates(c, earlier, key);
      WindowStep(c, earlier, calls[|calls| - 1], key);
    }
  }

  /** The shared retry counter never passes its limit. */
  lemma {:induction false} RetriesAreBounded(c: Config, calls: seq<Call>)
    requires c.maxRetries >= 0
    ensures Run(c, calls).retries <= c.maxRetries
  {
    if calls != [] {
      RetriesAreBounded(c, calls[..|calls| - 1]);
    }
  }

  /* -------- one trace among few -------- */

  // The calls made under one trace.
  function Only(calls: seq<Call>, trace: string): seq<Call> {
    if calls == [] then []
    else
      var last := calls[|calls| - 1];
      Only(calls[..|calls| - 1], trace) + if last.trace == Some(trace) then [last] else []
  }

  lemma RecencyGrows(calls: seq<Call>)
    requires calls != []
    ensures |Recency(calls[..|calls| - 1])| <= |Recency(calls)|
  {
    hide Without, NoDuplicates;
    var trace := calls[|calls| - 1].trace;
    if trace.Some? {
      var earlier := Recency(calls[..|calls| - 1]);
      RecencyIsDistinct(calls[..|calls| - 1]);
      if trace.value in earlier {
        var i :| 0 <= i < |earlier| && earlier[i] == trace.value;
        WithoutOne(earlier, i);
      } else {
        WithoutAbsent(earlier, trace.value);
      }
    }
  }

  lemma OthersStay(calls: seq<Call>, trace: string)
    requires calls != [] && calls[|calls| - 1].trace != Some(trace)
    ensures trace in Recency(calls) <==> trace in Recency(calls[..|calls| - 1])
  {
    hide Without;
    var last, earlier := calls[|calls| - 1].trace, Recency(calls[..|calls| - 1]);
    if last.Some? && trace in earlier {
      WithoutKeepsOthers(earlier, last.value, trace);
    }
  }

  lemma {:induction false} RecencyOfOne(calls: seq<Call>, trace: string)
    ensures var r := Recency(Only(calls, trace));
            if trace in Recency(calls) then r == [trace] else r == [] && Only(calls, trace) == []
  {
    hide Without;
    if calls != [] {
      var earlier, last := calls[..|calls| - 1], calls[|calls| - 1];
      RecencyOfOne(earlier, trace);
      if last.trace == Some(trace) {
        var only := Only(calls, trace);
        assert only[..|only| - 1] == Only(earlier, trace);
        WithoutItself(trace);
        WithoutAbsent([], trace);
      } else {
        OthersStay(calls, trace);
        assert Only(calls, trace) == Only(earlier, trace);
      }
    }
  }

  // While there is room for all of them, every trace ever used is remembered.
  lemma AllAreKept(c: Config, calls: seq<Call>, trace: string)
    requires |Recency(calls)| <= c.maxTraces
    ensures Remembered(c, calls, Some(trace)) <==> trace in Recency(calls)
  {
    hide Recency;
  }

  lemma {:induction false} FewTracesDoNotInterfere(c: Config, calls: seq<Call>, trace: string)
    requires |Recency(calls)| <= c.maxTraces
    ensures AcceptedSince(c, calls, Some(trace)) == AcceptedSince(c, Only(calls, trace), Some(trace))
  {
    hide Recency, Remembered, LastN, IsBlank, Only;
    RecencyOfOne(calls, trace);
    AllAreKept(c, calls, trace);
    if trace in Recency(calls) {
      NothingUsed();
      var earlier, last, only := calls[..|calls| - 1], calls[|calls| - 1], Only(calls, trace);
      AllAreKept(c, only, trace);
      RecencyGrows(calls);
      FewTracesDoNotInterfere(c, earlier, trace);
      OnlyStep(calls, trace);
      if last.trace != Some(trace) {
        OthersStay(calls, trace);
        AllAreKept(c, earlier, trace);
      }
    }
  }

  lemma OnlyStep(calls: seq<Call>, trace: string)
    requires calls != []
    ensures var only, earlier := Only(calls, trace), Only(calls[..|calls| - 1], trace);
            if calls[|calls| - 1].trace == Some(trace)
            then only != [] && only[..|only| - 1] == earlier && only[|only| - 1] == calls[|calls| - 1]
            else only == earlier
  {
  }

  lemma NothingUsed()
    ensures Recency([]) == []
  {
  }

  /** With at most maxTraces traces in the run, each trace is blocked exactly as by an engine that
      served it alone. */
  lemma BlockedAsIfAlone(c: Config, calls: seq<Call>, text: string, trace: string)
    requires |Recency(calls)| <= c.maxTraces
    ensures Lifecycle(c, Run(c, calls), text, Some(trace)).1 == BLOCKED_LOOP
            <==> Lifecycle(c, Run(c, Only(calls, trace)), text, Some(trace)).1 == BLOCKED_LOOP
  {
    hide Recency, Lifecycle, Run, Only, AcceptedSince;
    FewTracesDoNotInterfere(c, calls, trace);
    BlocksExactly(c, calls, Call(text, Some(trace)));
    BlocksExactly(c, Only(calls, trace), Call(text, Some(trace)));
  }
}
