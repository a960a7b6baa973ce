/** The lifecycle registry of the core API: components start in registration order and stop once, in
    reverse. A component's start or stop may fail, as the caller's oracles say. */
module Lifecycle {
  import opened Wrappers

  type Component = string

  datatype Reason = Shutdown | StartupFailed

  datatype TraceEvent =
    | Started(c: Component)
    | StartFailed(c: Component)
    | Stopped(c: Component, reason: Reason)
    | StopFailed(c: Component, reason: Reason)

  /** `stopping` is the memoized promise of `stop()`: None before the first call, then its outcome. */
  datatype State = State(
    components: seq<Component>,
    started: seq<Component>,
    stopping: Option<bool>,
    trace: seq<TraceEvent>)

  const INITIAL := State([], [], None, [])

  /** Whether the k-th start, or the k-th stop, of one call succeeds. */
  type Oracle = nat -> bool

  datatype Call = Register(c: Component) | Start(startOk: Oracle, stopOk: Oracle) | Stop(stopOk: Oracle)

  function Reverse<T>(s: seq<T>): seq<T> {
    if s == [] then [] else Reverse(s[1..]) + [s[0]]
  }

  ghost predicate Succeeds(ok: Oracle, k: nat) {
    forall i: nat :: i < k ==> ok(i)
  }

  /** How many of `n` starts, or stops, succeed before one fails. */
  function SuccessCount(n: nat, ok: Oracle): (k: nat)
    ensures k <= n
  {
    if n == 0 then 0
    else
      var k := SuccessCount(n - 1, ok);
      if k == n - 1 && ok(k) then n else k
  }

  /** That is, the first failure is at that place, if there is one. */
  lemma {:induction false} SuccessCountIs(n: nat, k: nat, ok: Oracle)
    requires k <= n
    ensures SuccessCount(n, ok) == k <==> Succeeds(ok, k) && (k < n ==> !ok(k))
  {
    if n > 0 {
      var c := SuccessCount(n - 1, ok);
      SuccessCountIs(n - 1, c, ok);
    }
  }

  function StartEvents(cs: seq<Component>): seq<TraceEvent> {
    if cs == [] then [] else StartEvents(cs[..|cs| - 1]) + [Started(cs[|cs| - 1])]
  }

  function StoppedEvents(cs: seq<Component>, reason: Reason): seq<TraceEvent> {
    if cs == [] then [] else StoppedEvents(cs[..|cs| - 1], reason) + [Stopped(cs[|cs| - 1], reason)]
  }

  /** Stopping goes on until a stop fails. */
  function StopEvents(cs: seq<Component>, reason: Reason, ok: Oracle): seq<TraceEvent> {
    var k := SuccessCount(|cs|, ok);
    StoppedEvents(cs[..k], reason) + if k < |cs| then [StopFailed(cs[k], reason)] else []
  }

  function StopStarted(s: State, reason: Reason, ok: Oracle): State {
    s.(started := [], trace := s.trace + StopEvents(Reverse(s.started), reason, ok))
  }

  function StartAll(s: State, startOk: Oracle, stopOk: Oracle): State {
    var k := SuccessCount(|s.components|, startOk);
    var t := s.(started := s.started + s.components[..k], trace := s.trace + StartEvents(s.components[..k]));
    if k == |s.components| then t
    else StopStarted(t.(trace := t.trace + [StartFailed(s.components[k])]), StartupFailed, stopOk)
  }

  function StopAll(s: State, ok: Oracle): State {
    if s.stopping.Some? then s
    else StopStarted(s, Shutdown, ok).(stopping := Some(SuccessCount(|s.started|, ok) == |s.started|))
  }

  function Step(s: State, call: Call): State {
    match call
    case Register(c) => s.(components := s.components + [c])
    case Start(startOk, stopOk) => StartAll(s, startOk, stopOk)
    case Stop(ok) => StopAll(s, ok)
  }

  /** The components started, in order, and those whose stop was called, in order. */
  function Ups(t: seq<TraceEvent>): seq<Component> {
    if t == [] then [] else Ups(t[..|t| - 1]) + if t[|t| - 1].Started? then [t[|t| - 1].c] else []
  }

  function Downs(t: seq<TraceEvent>): seq<Component> {
    if t == [] then []
    else Downs(t[..|t| - 1]) + if t[|t| - 1].Stopped? || t[|t| - 1].StopFailed? then [t[|t| - 1].c] else []
  }

  predicate IsStop(e: TraceEvent) {
    e.Stopped? || e.StopFailed?
  }

  /** No component starts after a stop. */
  ghost predicate StopsLast(t: seq<TraceEvent>) {
    exists k: nat :: k <= |t| && CutAt(t, k)
  }

  ghost predicate CutAt(t: seq<TraceEvent>, k: nat)
    requires k <= |t|
  {
    Downs(t[..k]) == [] && Ups(t[k..]) == []
  }

  lemma CutBetween(a: seq<TraceEvent>, b: seq<TraceEvent>)
    requires Downs(a) == [] && Ups(b) == []
    ensures StopsLast(a + b)
  {
    assert (a + b)[..|a|] == a && (a + b)[|a|..] == b;
    assert CutAt(a + b, |a|);
  }

  lemma {:induction false} UpsAppend(a: seq<TraceEvent>, b: seq<TraceEvent>)
    ensures Ups(a + b) == Ups(a) + Ups(b) && Downs(a + b) == Downs(a) + Downs(b)
    decreases |b|
  {
    if b == [] {
      assert a + b == a;
    } else {
      assert (a + b)[..|a + b| - 1] == a + b[..|b| - 1];
      UpsAppend(a, b[..|b| - 1]);
    }
  }

  lemma {:induction false} UpsOfStarts(cs: seq<Component>)
    ensures Ups(StartEvents(cs)) == cs && Downs(StartEvents(cs)) == []
    decreases |cs|
  {
    if cs != [] {
      var t := StartEvents(cs);
      assert t[..|t| - 1] == StartEvents(cs[..|cs| - 1]);
      UpsOfStarts(cs[..|cs| - 1]);
    }
  }

  lemma OneMoreStop(t: seq<TraceEvent>, e: TraceEvent, cs: seq<Component>)
    requires Ups(t) == [] && Downs(t) == cs && IsStop(e)
    ensures Ups(t + [e]) == [] && Downs(t + [e]) == cs + [e.c]
  {
    OneEvent(e);
    UpsAppend(t, [e]);
  }

  lemma {:induction false} DownsOfStops(cs: seq<Component>, reason: Reason)
    ensures Ups(StoppedEvents(cs, reason)) == [] && Downs(StoppedEvents(cs, reason)) == cs
    decreases |cs|
  {
    if cs != [] {
      var init, last := cs[..|cs| - 1], cs[|cs| - 1];
      DownsOfStops(init, reason);
      OneMoreStop(StoppedEvents(init, reason), Stopped(last, reason), init);
      assert cs == init + [last];
    }
  }

  /** How many stops one call of `#stopStarted` makes: up to and including the first that fails. */
  function Tries(n: nat, ok: Oracle): (k: nat)
    ensures k <= n
  {
    var k := SuccessCount(n, ok);
    if k < n then k + 1 else k
  }

  lemma AllTried(n: nat, ok: Oracle)
    ensures Tries(n, ok) == n <==> n == 0 || Succeeds(ok, n - 1)
  {
    SuccessCountIs(n, n, ok);
    if n > 0 {
      SuccessCountIs(n, n - 1, ok);
    }
  }

  lemma OneEvent(e: TraceEvent)
    ensures Ups([e]) == if e.Started? then [e.c] else []
    ensures Downs([e]) == if IsStop(e) then [e.c] else []
  {
    assert [e][..0] == [];
  }

  /** That call stops its components in the order given. */
  lemma StopEventsFacts(cs: seq<Component>, reason: Reason, ok: Oracle)
    ensures var t := StopEvents(cs, reason, ok);
            Ups(t) == [] && Downs(t) == cs[..Tries(|cs|, ok)]
  {
    var k := SuccessCount(|cs|, ok);
    DownsOfStops(cs[..k], reason);
    if k < |cs| {
      TakeOneMore(cs, k);
      OneMoreStop(StoppedEvents(cs[..k], reason), StopFailed(cs[k], reason), cs[..k]);
    } else {
      NothingMore(StoppedEvents(cs[..k], reason));
    }
  }

  lemma TakeOneMore<T>(s: seq<T>, k: nat)
    requires k < |s|
    ensures s[..k] + [s[k]] == s[..k + 1]
  {
  }

  lemma NothingMore<T>(s: seq<T>)
    ensures s + [] == s
  {
  }

  /** What holds when `start` has been called `starts` times, zero or one. */
  ghost predicate Inv(s: State, starts: nat) {
    && Ups(s.trace) <= s.components
    && (starts == 0 ==> s.trace == [] && s.started == [])
    && StopsLast(s.trace)
    && Downs(s.trace) <= Reverse(Ups(s.trace))
    && (s.started == [] || (s.started == Ups(s.trace) && Downs(s.trace) == []))
  }

  lemma StopStartedKeeps(s: State, starts: nat, reason: Reason, ok: Oracle)
    requires Ups(s.trace) <= s.components && s.started == Ups(s.trace) && Downs(s.trace) == []
    requires starts > 0
    ensures var t := StopStarted(s, reason, ok);
            && Inv(t, starts) && Ups(t.trace) == Ups(s.trace)
            && Downs(t.trace) == Reverse(s.started)[..Tries(|Reverse(s.started)|, ok)]
  {
    var cs := Reverse(s.started);
    var stops := StopEvents(cs, reason, ok);
    StopEventsFacts(cs, reason, ok);
    UpsAppend(s.trace, stops);
    assert Ups(s.trace) + [] == Ups(s.trace) && [] + Downs(stops) == Downs(stops);
    CutBetween(s.trace, stops);
  }

  lemma {:induction false} ReverseLength<T>(s: seq<T>)
    ensures |Reverse(s)| == |s| && forall i :: 0 <= i < |s| ==> Reverse(s)[i] == s[|s| - 1 - i]
  {
    if s != [] {
      ReverseLength(s[1..]);
    }
  }

  /** The registry when the k-th start has failed, or all have succeeded, on the first `start`. */
  function AfterStarts(s: State, k: nat): State
    requires k <= |s.components|
  {
    var ups := s.components[..k];
    s.(started := ups, trace := StartEvents(ups) + if k < |s.components| then [StartFailed(s.components[k])] else [])
  }

  lemma AfterStartsFacts(s: State, k: nat)
    requires k <= |s.components|
    ensures var t := AfterStarts(s, k).trace;
            Ups(t) == s.components[..k] && Downs(t) == [] && StopsLast(t)
  {
    var ups := s.components[..k];
    UpsOfStarts(ups);
    if k < |s.components| {
      OneEvent(StartFailed(s.components[k]));
      UpsAppend(StartEvents(ups), [StartFailed(s.components[k])]);
      assert ups + [] == ups;
    } else {
      assert StartEvents(ups) + [] == StartEvents(ups);
    }
    var t := AfterStarts(s, k).trace;
    CutBetween(t, []);
    assert t + [] == t;
  }

  lemma StartShape(s: State, startOk: Oracle, stopOk: Oracle)
    requires s.trace == [] && s.started == []
    ensures var k := SuccessCount(|s.components|, startOk);
            StartAll(s, startOk, stopOk) ==
            if k == |s.components| then AfterStarts(s, k) else StopStarted(AfterStarts(s, k), StartupFailed, stopOk)
  {
    var k := SuccessCount(|s.components|, startOk);
    var ups := s.components[..k];
    assert s.started + ups == ups && s.trace + StartEvents(ups) == StartEvents(ups);
    assert StartEvents(ups) + [] == StartEvents(ups);
  }

  lemma StartKeeps(s: State, startOk: Oracle, stopOk: Oracle)
    requires Inv(s, 0)
    ensures Inv(StartAll(s, startOk, stopOk), 1)
    ensures Ups(StartAll(s, startOk, stopOk).trace) == s.components[..SuccessCount(|s.components|, startOk)]
  {
    var k := SuccessCount(|s.components|, startOk);
    StartShape(s, startOk, stopOk);
    AfterStartsFacts(s, k);
    if k < |s.components| {
      StopStartedKeeps(AfterStarts(s, k), 1, StartupFailed, stopOk);
    }
  }

  lemma StopKeeps(s: State, starts: nat, ok: Oracle)
    requires Inv(s, starts) && starts <= 1
    ensures Inv(StopAll(s, ok), starts) && Ups(StopAll(s, ok).trace) == Ups(s.trace)
    ensures s.started == [] ==> StopAll(s, ok).trace == s.trace
    ensures s.started != [] && s.stopping.None? ==>
              |Reverse(s.started)| == |s.started|
              && Downs(StopAll(s, ok).trace) == Reverse(Ups(s.trace))[..Tries(|s.started|, ok)]
  {
    ReverseLength(s.started);
    if s.stopping.None? {
      if s.started == [] {
        assert s.trace + StopEvents([], Shutdown, ok) == s.trace;
      } else {
        StopStartedKeeps(s, starts, Shutdown, ok);
      }
    }
  }

  function Run(calls: seq<Call>): State {
    if calls == [] then INITIAL else Step(Run(calls[..|calls| - 1]), calls[|calls| - 1])
  }

  function Starts(calls: seq<Call>): nat {
    if calls == [] then 0 else Starts(calls[..|calls| - 1]) + if calls[|calls| - 1].Start? then 1 else 0
  }

  lemma {:induction false} RunInv(calls: seq<Call>)
    requires Starts(calls) <= 1
    ensures Inv(Run(calls), Starts(calls))
    decreases |calls|
  {
    CutBetween([], []);
    if calls != [] {
      var init, call := calls[..|calls| - 1], calls[|calls| - 1];
      RunInv(init);
      match call {
        case Register(c) =>
        case Start(startOk, stopOk) => StartKeeps(Run(init), startOk, stopOk);
        case Stop(ok) => StopKeeps(Run(init), Starts(init), ok);
      }
    }
  }

  ghost predicate Distinct(cs: seq<Component>) {
    forall i, j :: 0 <= i < j < |cs| ==> cs[i] != cs[j]
  }

  /** Any run with at most one start, each call after the calls before it are over: what started is a
      prefix of registration order; no component starts after a stop; the stops are the first ones of
      the exact reverse of the starts; so when the components are distinct, none is stopped twice, and
      none that did not start. */
  lemma OneStartIsNested(calls: seq<Call>)
    requires Starts(calls) <= 1
    ensures var s := Run(calls);
            && Ups(s.trace) <= s.components
            && StopsLast(s.trace)
            && Downs(s.trace) <= Reverse(Ups(s.trace))
            && (Distinct(s.components) ==>
                  && Distinct(Downs(s.trace))
                  && forall c :: c in Downs(s.trace) ==> c in Ups(s.trace))
  {
    RunInv(calls);
    var s := Run(calls);
    ReverseLength(Ups(s.trace));
    forall c | c in Downs(s.trace) ensures c in Ups(s.trace) {
      var i :| 0 <= i < |Downs(s.trace)| && Downs(s.trace)[i] == c;
      assert Reverse(Ups(s.trace))[i] == c;
    }
  }

  // ---- any number of starts

  predicate EndsInStop(t: seq<TraceEvent>) {
    t != [] && IsStop(t[|t| - 1])
  }

  /** The components open after a trace, the last started last: a start opens one, a stop closes the last
      one opened, and a failing stop gives up all that are still open. None if a stop is made of any
      other component, or a start between the stops of one stack. */
  function Open(t: seq<TraceEvent>): Option<seq<Component>> {
    if t == [] then Some([])
    else
      var init := t[..|t| - 1];
      match Open(init)
      case None => None
      case Some(open) => After(open, EndsInStop(init), t[|t| - 1])
  }

  /** One more event, after a stop or not. */
  function After(open: seq<Component>, stopping: bool, e: TraceEvent): Option<seq<Component>> {
    match e
    case Started(c) => if stopping && open != [] then None else Some(open + [c])
    case StartFailed(_) => Some(open)
    case Stopped(c, _) => if open != [] && open[|open| - 1] == c then Some(open[..|open| - 1]) else None
    case StopFailed(c, _) => if open != [] && open[|open| - 1] == c then Some([]) else None
  }

  lemma AppendSnoc<T>(a: seq<T>, b: seq<T>)
    requires b != []
    ensures a + b == (a + b[..|b| - 1]) + [b[|b| - 1]]
  {
  }

  lemma StartsSnoc(t: seq<TraceEvent>, cs: seq<Component>)
    requires cs != []
    ensures var init := cs[..|cs| - 1];
            t + StartEvents(cs) == (t + StartEvents(init)) + [Started(cs[|cs| - 1])]
  {
  }

  lemma {:induction false} OpenStarts(t: seq<TraceEvent>, open: seq<Component>, cs: seq<Component>)
    requires Open(t) == Some(open) && (EndsInStop(t) ==> open == [])
    ensures Open(t + StartEvents(cs)) == Some(open + cs)
    ensures EndsInStop(t + StartEvents(cs)) ==> open + cs == []
    decreases |cs|
  {
    if cs == [] {
      assert t + StartEvents(cs) == t && open + cs == open;
    } else {
      var init, c := cs[..|cs| - 1], cs[|cs| - 1];
      OpenStarts(t, open, init);
      StartsSnoc(t, cs);
      OpenSnoc(t + StartEvents(init), Started(c));
      AppendSnoc(open, cs);
    }
  }

  lemma OpenSnoc(t: seq<TraceEvent>, e: TraceEvent)
    requires Open(t).Some?
    ensures Open(t + [e]) == After(Open(t).value, EndsInStop(t), e)
  {
    assert (t + [e])[..|t|] == t;
  }

  lemma CloseOne(t: seq<TraceEvent>, open: seq<Component>, n: nat, e: TraceEvent)
    requires 0 < n <= |open| && Open(t) == Some(open[..n]) && e.Stopped? && e.c == open[n - 1]
    ensures Open(t + [e]) == Some(open[..n - 1])
  {
    OpenSnoc(t, e);
    assert open[..n][..n - 1] == open[..n - 1];
  }

  /** Stops that take the open components from the last one on. */
  ghost predicate TakesLast(stops: seq<TraceEvent>, open: seq<Component>) {
    && |stops| <= |open|
    && forall i :: 0 <= i < |stops| ==> stops[i].Stopped? && stops[i].c == open[|open| - 1 - i]
  }

  lemma {:induction false} OpenStopped(t: seq<TraceEvent>, open: seq<Component>, stops: seq<TraceEvent>)
    requires Open(t) == Some(open) && TakesLast(stops, open)
    ensures Open(t + stops) == Some(open[..|open| - |stops|])
    decreases |stops|
  {
    if stops == [] {
      NothingMore(t);
      CutNothing(open);
    } else {
      var init := stops[..|stops| - 1];
      OpenStopped(t, open, init);
      CloseOne(t + init, open, |open| - |init|, stops[|init|]);
      AppendSnoc(t, stops);
    }
  }

  lemma {:induction false} StoppedAre(cs: seq<Component>, reason: Reason)
    ensures |StoppedEvents(cs, reason)| == |cs|
    ensures forall i :: 0 <= i < |cs| ==> StoppedEvents(cs, reason)[i] == Stopped(cs[i], reason)
    decreases |cs|
  {
    if cs != [] {
      StoppedAre(cs[..|cs| - 1], reason);
    }
  }

  lemma CutNothing<T>(s: seq<T>)
    ensures s[..|s|] == s
  {
  }

  /** A stopping call closes or gives up everything that is open. */
  lemma OpenStops(t: seq<TraceEvent>, open: seq<Component>, reason: Reason, ok: Oracle)
    requires Open(t) == Some(open)
    ensures Open(t + StopEvents(Reverse(open), reason, ok)) == Some([])
  {
    var cs := Reverse(open);
    ReverseLength(open);
    var k := SuccessCount(|cs|, ok);
    var stops := StoppedEvents(cs[..k], reason);
    StoppedAre(cs[..k], reason);
    OpenStopped(t, open, stops);
    if k < |cs| {
      GiveUp(t + stops, open[..|open| - k], StopFailed(cs[k], reason));
      Regroup(t, stops, [StopFailed(cs[k], reason)]);
    } else {
      NothingMore(stops);
    }
  }

  lemma GiveUp(t: seq<TraceEvent>, open: seq<Component>, e: TraceEvent)
    requires Open(t) == Some(open) && open != [] && e.StopFailed? && e.c == open[|open| - 1]
    ensures Open(t + [e]) == Some([])
  {
    OpenSnoc(t, e);
  }

  lemma Regroup<T>(a: seq<T>, b: seq<T>, c: seq<T>)
    ensures (a + b) + c == a + (b + c)
  {
  }

  /** The registry's list of started components is what the trace leaves open. */
  ghost predicate OpenInv(s: State) {
    Open(s.trace) == Some(s.started) && (EndsInStop(s.trace) ==> s.started == [])
  }

  lemma StartKeepsOpen(s: State, startOk: Oracle, stopOk: Oracle)
    requires OpenInv(s)
    ensures OpenInv(StartAll(s, startOk, stopOk))
  {
    var k := SuccessCount(|s.components|, startOk);
    var ups := s.components[..k];
    var u := s.trace + StartEvents(ups);
    OpenStarts(s.trace, s.started, ups);
    if k < |s.components| {
      var e := StartFailed(s.components[k]);
      OpenSnoc(u, e);
      OpenStops(u + [e], s.started + ups, StartupFailed, stopOk);
    }
  }

  lemma {:induction false} RunKeepsOpen(calls: seq<Call>)
    ensures OpenInv(Run(calls))
    decreases |calls|
  {
    if calls != [] {
      var init, call := calls[..|calls| - 1], calls[|calls| - 1];
      RunKeepsOpen(init);
      var s := Run(init);
      match call {
        case Register(c) =>
        case Start(startOk, stopOk) => StartKeepsOpen(s, startOk, stopOk);
        case Stop(ok) => OpenStops(s.trace, s.started, Shutdown, ok);
      }
    }
  }

  lemma OneOpened(ups: seq<Component>, downs: seq<Component>, open: seq<Component>, c: Component)
    requires multiset(downs) + multiset(open) <= multiset(ups)
    ensures multiset(downs) + multiset(open + [c]) <= multiset(ups + [c])
  {
  }

  lemma OneClosed(ups: seq<Component>, downs: seq<Component>, open: seq<Component>)
    requires multiset(downs) + multiset(open) <= multiset(ups) && open != []
    ensures multiset(downs + [open[|open| - 1]]) + multiset(open[..|open| - 1]) <= multiset(ups)
    ensures multiset(downs + [open[|open| - 1]]) <= multiset(ups)
  {
    assert open == open[..|open| - 1] + [open[|open| - 1]];
  }

  lemma AfterKeeps(ups: seq<Component>, downs: seq<Component>, open: seq<Component>, stopping: bool, e: TraceEvent)
    requires multiset(downs) + multiset(open) <= multiset(ups) && After(open, stopping, e).Some?
    ensures var up, down := if e.Started? then [e.c] else [], if IsStop(e) then [e.c] else [];
            multiset(downs + down) + multiset(After(open, stopping, e).value) <= multiset(ups + up)
  {
    NothingMore(ups);
    NothingMore(downs);
    if e.Started? {
      OneOpened(ups, downs, open, e.c);
    } else if IsStop(e) {
      OneClosed(ups, downs, open);
    }
  }

  lemma {:induction false} ClosedWereOpened(t: seq<TraceEvent>)
    requires Open(t).Some?
    ensures multiset(Downs(t)) + multiset(Open(t).value) <= multiset(Ups(t))
    decreases |t|
  {
    if t != [] {
      var init := t[..|t| - 1];
      ClosedWereOpened(init);
      AfterKeeps(Ups(init), Downs(init), Open(init).value, EndsInStop(init), t[|t| - 1]);
    }
  }

  /** Any run of registrations, starts and stops, each after the calls before it are over: starts and stops
      are nested, so every stop is of the component started last among those neither stopped nor given
      up by a failing stop; what is left open is exactly what the registry will stop next; and no
      component is stopped more often than it started. */
  lemma TraceIsNested(calls: seq<Call>)
    ensures var s := Run(calls);
            && Open(s.trace) == Some(s.started)
            && multiset(Downs(s.trace)) <= multiset(Ups(s.trace))
  {
    RunKeepsOpen(calls);
    ClosedWereOpened(Run(calls).trace);
  }

  /** The components started since the last stop. */
  function Since(t: seq<TraceEvent>): seq<Component> {
    if t == [] || IsStop(t[|t| - 1]) then []
    else Since(t[..|t| - 1]) + if t[|t| - 1].Started? then [t[|t| - 1].c] else []
  }

  /** In such runs the stops of a stopping call are the first ones of the reverse of what was started since
      the stops before, up to the first that fails; a call that is no stopping one stops nothing. */
  lemma EachCallStops(calls: seq<Call>, s: State, call: Call)
    requires s == Run(calls)
    ensures var t := Step(s, call); var n := |s.components|;
            && s.trace <= t.trace
            && var more := t.trace[|s.trace|..];
               && (call.Register? ==> more == [])
               && (call.Start? ==>
                     var k := SuccessCount(n, call.startOk); var ups := Since(s.trace) + s.components[..k];
                     && Ups(more) == s.components[..k]
                     && Downs(more) == if k == n then [] else Reverse(ups)[..Tries(|Reverse(ups)|, call.stopOk)])
               && (call.Stop? ==>
                     var ups := Since(s.trace);
                     && Ups(more) == []
                     && Downs(more) ==
                        if s.stopping.Some? then [] else Reverse(ups)[..Tries(|Reverse(ups)|, call.stopOk)])
  {
    SinceIsStarted(calls);
    match call {
      case Register(c) =>
      case Start(startOk, stopOk) => StartAdds(s, startOk, stopOk);
      case Stop(ok) =>
        StopEventsFacts(Reverse(s.started), Shutdown, ok);
        assert s.stopping.None? ==> StopAll(s, ok).trace == s.trace + StopEvents(Reverse(s.started), Shutdown, ok);
    }
  }

  /** The components registered, in the order of the calls. */
  function RegisteredIn(calls: seq<Call>): seq<Component> {
    if calls == [] then []
    else RegisteredIn(calls[..|calls| - 1]) + if calls[|calls| - 1].Register? then [calls[|calls| - 1].c] else []
  }

  ghost predicate StopCalled(calls: seq<Call>) {
    exists i :: 0 <= i < |calls| && calls[i].Stop?
  }

  /** In every run the components are those registered, in that order, and a stop has been memoized exactly
      when `stop()` has been called. */
  lemma {:induction false} CallsTell(calls: seq<Call>)
    ensures Run(calls).components == RegisteredIn(calls)
    ensures Run(calls).stopping.Some? <==> StopCalled(calls)
    decreases |calls|
  {
    if calls != [] {
      var init, call := calls[..|calls| - 1], calls[|calls| - 1];
      CallsTell(init);
      if i :| 0 <= i < |calls| && calls[i].Stop? {
        assert i < |init| ==> init[i].Stop?;
      }
      if i :| 0 <= i < |init| && init[i].Stop? {
        assert calls[i].Stop?;
      }
      assert RegisteredIn(init) + [] == RegisteredIn(init);
    }
  }

  /** All stops in a trace were made for that reason. */
  ghost predicate StopsFor(t: seq<TraceEvent>, reason: Reason) {
    forall i :: 0 <= i < |t| && IsStop(t[i]) ==> t[i].reason == reason
  }

  lemma StopsForAppend(a: seq<TraceEvent>, b: seq<TraceEvent>, reason: Reason)
    requires StopsFor(a, reason) && StopsFor(b, reason)
    ensures StopsFor(a + b, reason)
  {
  }

  lemma {:induction false} StartsStopNothing(cs: seq<Component>, reason: Reason)
    ensures StopsFor(StartEvents(cs), reason)
    decreases |cs|
  {
    if cs != [] {
      StartsStopNothing(cs[..|cs| - 1], reason);
    }
  }

  lemma StopEventsReason(cs: seq<Component>, reason: Reason, ok: Oracle)
    ensures StopsFor(StopEvents(cs, reason, ok), reason)
  {
    StoppedAre(cs[..SuccessCount(|cs|, ok)], reason);
  }

  /** A failed start stops components because the start failed, and `stop()` for shutdown. The first `stop()`
      succeeds exactly when all stops of what was started since the last stop do, and later ones report
      the same. */
  lemma ReasonAndOutcome(calls: seq<Call>, s: State, call: Call)
    requires s == Run(calls)
    ensures var t := Step(s, call);
            && s.trace <= t.trace
            && StopsFor(t.trace[|s.trace|..], if call.Start? then StartupFailed else Shutdown)
            && (call.Stop? ==>
                  && t.stopping.Some?
                  && (s.stopping.Some? ==> t.stopping == s.stopping)
                  && (s.stopping.None? ==> (t.stopping.value <==> Succeeds(call.stopOk, |Since(s.trace)|))))
            && (!call.Stop? ==> t.stopping == s.stopping)
  {
    SinceIsStarted(calls);
    match call {
      case Register(c) =>
      case Start(startOk, stopOk) =>
        StartTraceIs(s, startOk, stopOk);
        StartTraceReason(s, startOk, stopOk);
        assert StartAll(s, startOk, stopOk).trace[|s.trace|..] == StartTrace(s, startOk, stopOk);
      case Stop(ok) =>
        StopEventsReason(Reverse(s.started), Shutdown, ok);
        SuccessCountIs(|s.started|, |s.started|, ok);
        StopAdds(s, ok);
    }
  }

  lemma StopAdds(s: State, ok: Oracle)
    ensures s.trace <= StopAll(s, ok).trace
    ensures StopAll(s, ok).trace[|s.trace|..] ==
            if s.stopping.Some? then [] else StopEvents(Reverse(s.started), Shutdown, ok)
  {
  }

  lemma StartTraceReason(s: State, startOk: Oracle, stopOk: Oracle)
    ensures StopsFor(StartTrace(s, startOk, stopOk), StartupFailed)
  {
    var k := SuccessCount(|s.components|, startOk);
    var ups := s.components[..k];
    StartsStopNothing(ups, StartupFailed);
    if k < |s.components| {
      var stops := StopEvents(Reverse(s.started + ups), StartupFailed, stopOk);
      StopEventsReason(Reverse(s.started + ups), StartupFailed, stopOk);
      StopsForAppend(StartEvents(ups), [StartFailed(s.components[k])], StartupFailed);
      StopsForAppend(StartEvents(ups) + [StartFailed(s.components[k])], stops, StartupFailed);
    }
  }

  /** What a start adds to the trace. */
  function StartTrace(s: State, startOk: Oracle, stopOk: Oracle): seq<TraceEvent> {
    var k := SuccessCount(|s.components|, startOk);
    var ups := s.components[..k];
    if k == |s.components| then StartEvents(ups)
    else
      StartEvents(ups) + [StartFailed(s.components[k])]
      + StopEvents(Reverse(s.started + ups), StartupFailed, stopOk)
  }

  lemma StartTraceIs(s: State, startOk: Oracle, stopOk: Oracle)
    ensures StartAll(s, startOk, stopOk).trace == s.trace + StartTrace(s, startOk, stopOk)
  {
    var k := SuccessCount(|s.components|, startOk);
    if k < |s.components| {
      var u, e := StartEvents(s.components[..k]), [StartFailed(s.components[k])];
      var stops := StopEvents(Reverse(s.started + s.components[..k]), StartupFailed, stopOk);
      assert ((s.trace + u) + e) + stops == s.trace + ((u + e) + stops);
    }
  }

  lemma StartTraceFacts(s: State, startOk: Oracle, stopOk: Oracle)
    ensures var k := SuccessCount(|s.components|, startOk); var more := StartTrace(s, startOk, stopOk);
            var ups := s.started + s.components[..k];
            && Ups(more) == s.components[..k]
            && Downs(more) == if k == |s.components| then [] else Reverse(ups)[..Tries(|Reverse(ups)|, stopOk)]
  {
    var k := SuccessCount(|s.components|, startOk);
    var ups := s.components[..k];
    UpsOfStarts(ups);
    if k < |s.components| {
      var e, cs := StartFailed(s.components[k]), Reverse(s.started + ups);
      StopEventsFacts(cs, StartupFailed, stopOk);
      OneEvent(e);
      UpsAppend(StartEvents(ups), [e]);
      UpsAppend(StartEvents(ups) + [e], StopEvents(cs, StartupFailed, stopOk));
      NothingMore(ups);
      NothingBefore(cs[..Tries(|cs|, stopOk)]);
    }
  }

  lemma NothingBefore<T>(s: seq<T>)
    ensures [] + s == s
  {
  }

  lemma StartAdds(s: State, startOk: Oracle, stopOk: Oracle)
    ensures var k := SuccessCount(|s.components|, startOk); var t := StartAll(s, startOk, stopOk);
            var ups := s.started + s.components[..k];
            && s.trace <= t.trace
            && Ups(t.trace[|s.trace|..]) == s.components[..k]
            && Downs(t.trace[|s.trace|..]) ==
               if k == |s.components| then [] else Reverse(ups)[..Tries(|Reverse(ups)|, stopOk)]
  {
    StartTraceIs(s, startOk, stopOk);
    StartTraceFacts(s, startOk, stopOk);
    assert StartAll(s, startOk, stopOk).trace[|s.trace|..] == StartTrace(s, startOk, stopOk);
  }

  lemma {:induction false} SinceStarts(t: seq<TraceEvent>, cs: seq<Component>)
    ensures Since(t + StartEvents(cs)) == Since(t) + cs
    decreases |cs|
  {
    if cs == [] {
      assert t + StartEvents(cs) == t && Since(t) + cs == Since(t);
    } else {
      var init, c := cs[..|cs| - 1], cs[|cs| - 1];
      SinceStarts(t, init);
      var u := t + StartEvents(init);
      StartsSnoc(t, cs);
      assert (u + [Started(c)])[..|u|] == u;
      AppendSnoc(Since(t), cs);
    }
  }

  /** After a stopping call nothing has been started since the last stop. */
  lemma SinceStops(t: seq<TraceEvent>, cs: seq<Component>, reason: Reason, ok: Oracle)
    requires cs == [] ==> Since(t) == []
    ensures Since(t + StopEvents(cs, reason, ok)) == []
  {
    var k := SuccessCount(|cs|, ok);
    var u := t + StopEvents(cs, reason, ok);
    if cs == [] {
      assert u == t;
    } else if k < |cs| {
      assert u[|u| - 1] == StopFailed(cs[k], reason);
    } else {
      assert cs[..k] == cs;
      assert StopEvents(cs, reason, ok) == StoppedEvents(cs, reason);
      assert u[|u| - 1] == Stopped(cs[|cs| - 1], reason);
    }
  }

  lemma {:induction false} SinceIsStarted(calls: seq<Call>)
    ensures Run(calls).started == Since(Run(calls).trace)
    decreases |calls|
  {
    if calls != [] {
      var init, call := calls[..|calls| - 1], calls[|calls| - 1];
      SinceIsStarted(init);
      var s := Run(init);
      match call {
        case Register(c) =>
        case Start(startOk, stopOk) => StartKeepsSince(s, startOk, stopOk);
        case Stop(ok) =>
          ReverseLength(s.started);
          SinceStops(s.trace, Reverse(s.started), Shutdown, ok);
      }
    }
  }

  lemma StartKeepsSince(s: State, startOk: Oracle, stopOk: Oracle)
    requires s.started == Since(s.trace)
    ensures StartAll(s, startOk, stopOk).started == Since(StartAll(s, startOk, stopOk).trace)
  {
    var k := SuccessCount(|s.components|, startOk);
    var ups := s.components[..k];
    SinceStarts(s.trace, ups);
    if k < |s.components| {
      var u, e := s.trace + StartEvents(ups), StartFailed(s.components[k]);
      assert (u + [e])[..|u|] == u && Since(u) + [] == Since(u);
      ReverseLength(s.started + ups);
      SinceStops(u + [e], Reverse(s.started + ups), StartupFailed, stopOk);
    }
  }

  /** Started twice, a component is also stopped twice. */
  lemma StartedTwice(a: Component, first: Oracle, second: Oracle, stopOk: Oracle, ok: Oracle)
    requires first(0) && second(0) && ok(0)
    ensures var s := Run([Register(a), Start(first, stopOk), Start(second, stopOk), Stop(ok)]);
            Ups(s.trace) == [a, a] && Downs(s.trace) == [a, a] && s.started == []
  {
    var r := [Register(a)];
    var x, y := Start(first, stopOk), Start(second, stopOk);
    RegisteredOne(a);
    RunSnoc(r, x);
    RunSnoc(r + [x], y);
    RunSnoc(r + [x] + [y], Stop(ok));
    assert r + [x] + [y] + [Stop(ok)] == [Register(a), x, y, Stop(ok)];
    SuccessCountIs(1, 1, first);
    SuccessCountIs(1, 1, second);
    assert [a][..1] == [a] && [] + [a] == [a] && [a] + [a] == [a, a];
    UpsOfStarts([a]);
    StopBoth(State([a], [a, a], None, StartEvents([a]) + StartEvents([a])), a, ok);
    assert [] + StartEvents([a]) == StartEvents([a]);
  }

  lemma StopBoth(s: State, a: Component, ok: Oracle)
    requires s.started == [a, a] && s.stopping.None? && s.trace == StartEvents([a]) + StartEvents([a]) && ok(0)
    ensures var t := StopAll(s, ok); Ups(t.trace) == [a, a] && Downs(t.trace) == [a, a] && t.started == []
  {
    var cs := Reverse(s.started);
    ReverseLength(s.started);
    assert cs == [a, a];
    StopEventsFacts(cs, Shutdown, ok);
    AllTried(2, ok);
    assert cs[..2] == cs;
    UpsOfStarts([a]);
    UpsAppend(StartEvents([a]), StartEvents([a]));
    UpsAppend(s.trace, StopEvents(cs, Shutdown, ok));
    assert [a] + [a] == [a, a];
    NothingMore([a, a]);
    NothingBefore([a, a]);
  }

  /** Every component that started is stopped by `stop()`, in reverse, exactly when no earlier `stop()`
      was made and no stop fails before the last component; a later `stop()` adds nothing. */
  lemma ShutdownComplete(calls: seq<Call>, s: State, ok: Oracle, again: Oracle)
    requires Starts(calls) == 1 && s == Run(calls) && s.started != []
    ensures var t := Step(s, Stop(ok));
            && (Downs(t.trace) == Reverse(Ups(t.trace)) <==> s.stopping.None? && Succeeds(ok, |s.started| - 1))
            && Ups(t.trace) == s.started
            && Step(t, Stop(again)) == t
  {
    RunInv(calls);
    StopKeeps(s, 1, ok);
    ReverseLength(s.started);
    AllTried(|s.started|, ok);
  }

  lemma RunSnoc(calls: seq<Call>, call: Call)
    ensures Run(calls + [call]) == Step(Run(calls), call)
  {
    assert (calls + [call])[..|calls|] == calls;
  }

  lemma Registered(a: Component, b: Component)
    ensures Run([Register(a), Register(b)]) == State([a, b], [], None, [])
  {
    RegisteredOne(a);
    RunSnoc([Register(a)], Register(b));
    assert [Register(a)] + [Register(b)] == [Register(a), Register(b)];
    assert [a] + [b] == [a, b];
  }

  lemma RegisteredOne(a: Component)
    ensures Run([Register(a)]) == State([a], [], None, [])
  {
    RunSnoc([], Register(a));
    NothingBefore([Register(a)]);
    NothingBefore([a]);
  }

  lemma BothStart(s: State, a: Component, b: Component, startOk: Oracle, stopOk: Oracle)
    requires s.components == [a, b] && s.started == [] && s.trace == [] && startOk(0) && startOk(1)
    ensures var t := StartAll(s, startOk, stopOk);
            && t.components == t.started == Ups(t.trace) == [a, b] && Downs(t.trace) == [] && t.stopping == s.stopping
            && Inv(t, 1)
  {
    CutBetween([], []);
    SuccessCountIs(2, 2, startOk);
    StartKeeps(s, startOk, stopOk);
    StartDowns(s, startOk, stopOk);
    assert [a, b][..2] == [a, b];
  }

  lemma SecondStopFails(s: State, a: Component, b: Component, no: Oracle)
    requires Inv(s, 1) && s.started == Ups(s.trace) == [a, b] && s.stopping.None? && !no(0)
    ensures var t := StopAll(s, no);
            Ups(t.trace) == [a, b] && Downs(t.trace) == [b] && t.started == [] && t.stopping.Some?
  {
    SuccessCountIs(2, 0, no);
    StopKeeps(s, 1, no);
    ReverseLength([a, b]);
    assert Tries(2, no) == 1;
  }

  /** Both happen. Of two components, a failing stop of the second leaves the first running, and the registry
      has forgotten it: */
  lemma FailedStopLeavesRunning(a: Component, b: Component, startOk: Oracle, stopOk: Oracle, no: Oracle, later: Oracle)
    requires startOk(0) && startOk(1) && !no(0)
    ensures var s := Run([Register(a), Register(b), Start(startOk, stopOk), Stop(no)]);
            && Ups(s.trace) == [a, b] && Downs(s.trace) == [b]
            && s.started == [] && Step(s, Stop(later)) == s
  {
    var r, start := [Register(a), Register(b)], Start(startOk, stopOk);
    Registered(a, b);
    RunSnoc(r, start);
    RunSnoc(r + [start], Stop(no));
    assert r + [start] + [Stop(no)] == [Register(a), Register(b), start, Stop(no)];
    BothStart(Run(r), a, b, startOk, stopOk);
    SecondStopFails(Run(r + [start]), a, b, no);
  }

  /** ... and a stop made before the start leaves everything running. */
  lemma EarlyStopLeavesRunning(a: Component, b: Component, early: Oracle, startOk: Oracle, stopOk: Oracle, late: Oracle)
    requires startOk(0) && startOk(1)
    ensures var s := Run([Register(a), Register(b), Stop(early), Start(startOk, stopOk), Stop(late)]);
            Ups(s.trace) == [a, b] && Downs(s.trace) == [] && s.started == [a, b]
  {
    var r, start := [Register(a), Register(b), Stop(early)], Start(startOk, stopOk);
    Registered(a, b);
    RunSnoc([Register(a), Register(b)], Stop(early));
    RunSnoc(r, start);
    RunSnoc(r + [start], Stop(late));
    assert [Register(a), Register(b)] + [Stop(early)] == r;
    assert r + [start] + [Stop(late)] == [Register(a), Register(b), Stop(early), start, Stop(late)];
    NothingToStop(Run([Register(a), Register(b)]), early);
    BothStart(Run(r), a, b, startOk, stopOk);
  }

  lemma NothingToStop(s: State, ok: Oracle)
    requires s.started == [] && s.trace == [] && s.stopping.None?
    ensures var t := StopAll(s, ok);
            t.components == s.components && t.started == [] && t.trace == [] && t.stopping.Some?
  {
  }

  /** A failed start stops what had started, in reverse up to the first stop that fails, and leaves
      nothing for a later `stop()`. */
  lemma FailedStartCleansUp(calls: seq<Call>, s: State, startOk: Oracle, stopOk: Oracle, later: Oracle)
    requires Starts(calls) == 0 && s == Run(calls)
    ensures var t := Step(s, Start(startOk, stopOk)); var k := SuccessCount(|s.components|, startOk);
            && Ups(t.trace) == s.components[..k]
            && (k < |s.components| ==>
                  && t.started == [] && Step(t, Stop(later)).trace == t.trace
                  && |Reverse(s.components[..k])| == k
                  && Downs(t.trace) == Reverse(s.components[..k])[..Tries(k, stopOk)])
            && (k == |s.components| ==> t.started == s.components && Downs(t.trace) == [])
  {
    RunInv(calls);
    StartKeeps(s, startOk, stopOk);
    StartDowns(s, startOk, stopOk);
    EmptyStop(StartAll(s, startOk, stopOk), later);
    CutNothing(s.components);
  }

  lemma EmptyStop(s: State, ok: Oracle)
    ensures s.started == [] ==> StopAll(s, ok).trace == s.trace
  {
    if s.started == [] {
      NothingMore(s.trace);
    }
  }

  lemma StartDowns(s: State, startOk: Oracle, stopOk: Oracle)
    requires Inv(s, 0)
    ensures var t := StartAll(s, startOk, stopOk); var k := SuccessCount(|s.components|, startOk);
            var ups := s.components[..k];
            && |Reverse(ups)| == k
            && t.started == (if k < |s.components| then [] else ups)
            && Downs(t.trace) == if k < |s.components| then Reverse(ups)[..Tries(k, stopOk)] else []
  {
    var k := SuccessCount(|s.components|, startOk);
    ReverseLength(s.components[..k]);
    StartShape(s, startOk, stopOk);
    AfterStartsFacts(s, k);
    if k < |s.components| {
      StopStartedKeeps(AfterStarts(s, k), 1, StartupFailed, stopOk);
    }
  }

  lemma StopMore(cs: seq<Component>, j: nat, reason: Reason)
    requires j < |cs|
    ensures StoppedEvents(cs[..j + 1], reason) == StoppedEvents(cs[..j], reason) + [Stopped(cs[j], reason)]
  {
    assert cs[..j + 1][..j] == cs[..j];
  }

  lemma StartMore(cs: seq<Component>, j: nat)
    requires j < |cs|
    ensures StartEvents(cs[..j + 1]) == StartEvents(cs[..j]) + [Started(cs[j])]
    ensures cs[..j + 1] == cs[..j] + [cs[j]]
  {
    assert cs[..j + 1][..j] == cs[..j];
  }

  lemma StopsSnoc(t: seq<TraceEvent>, cs: seq<Component>, j: nat, reason: Reason)
    requires j < |cs|
    ensures t + StoppedEvents(cs[..j + 1], reason) == (t + StoppedEvents(cs[..j], reason)) + [Stopped(cs[j], reason)]
  {
    StopMore(cs, j, reason);
  }

  lemma StartsMore(t: seq<TraceEvent>, cs: seq<Component>, j: nat)
    requires j < |cs|
    ensures t + StartEvents(cs[..j + 1]) == (t + StartEvents(cs[..j])) + [Started(cs[j])]
  {
    StartMore(cs, j);
  }

  class Registry {
    var components: seq<Component>
    var started: seq<Component>
    var stopPromise: Option<bool>
    ghost var trace: seq<TraceEvent>

    ghost function Contents(): State
      reads this
    {
      State(components, started, stopPromise, trace)
    }

    constructor ()
      ensures Contents() == INITIAL
    {
      components, started, stopPromise, trace := [], [], None, [];
    }

    method RegisterComponent(c: Component)
      modifies this
      ensures Contents() == Step(old(Contents()), Register(c))
      ensures components == old(components) + [c] && started == old(started) && stopPromise == old(stopPromise)
    {
      components := components + [c];
    }

    method StartComponents(startOk: Oracle, stopOk: Oracle) returns (ok: bool)
      modifies this
      ensures Contents() == Step(old(Contents()), Start(startOk, stopOk))
      ensures ok == (SuccessCount(|components|, startOk) == |components|)
    {
      ghost var started0, trace0 := started, trace;
      var i := 0;
      while i < |components|
        invariant 0 <= i <= |components|
        invariant components == old(components) && stopPromise == old(stopPromise)
        invariant Succeeds(startOk, i)
        invariant started == started0 + components[..i]
        invariant trace == trace0 + StartEvents(components[..i])
      {
        var component := components[i];
        if !startOk(i) {
          SuccessCountIs(|components|, i, startOk);
          trace := trace + [StartFailed(component)];
          var _ := StopThem(StartupFailed, stopOk);
          return false;
        }
        StartsMore(trace0, components, i);
        Regroup(started0, components[..i], [component]);
        StartMore(components, i);
        trace := trace + [Started(component)];
        started := started + [component];
        i := i + 1;
      }
      SuccessCountIs(|components|, i, startOk);
      assert components[..i] == components;
      ok := true;
    }

    method StopThem(reason: Reason, stopOk: Oracle) returns (ok: bool)
      modifies this
      ensures Contents() == StopStarted(old(Contents()), reason, stopOk)
      ensures ok == (SuccessCount(|old(started)|, stopOk) == |old(started)|)
    {
      var toStop := Reverse(started);
      ReverseLength(started);
      started := [];
      var j := 0;
      ghost var before := trace;
      while j < |toStop|
        invariant 0 <= j <= |toStop| && started == []
        invariant components == old(components) && stopPromise == old(stopPromise)
        invariant Succeeds(stopOk, j)
        invariant trace == before + StoppedEvents(toStop[..j], reason)
      {
        StopsSnoc(before, toStop, j, reason);
        if !stopOk(j) {
          SuccessCountIs(|toStop|, j, stopOk);
          trace := trace + [StopFailed(toStop[j], reason)];
          return false;
        }
        trace := trace + [Stopped(toStop[j], reason)];
        j := j + 1;
      }
      SuccessCountIs(|toStop|, j, stopOk);
      assert toStop[..j] == toStop;
      assert StoppedEvents(toStop, reason) + [] == StoppedEvents(toStop, reason);
      ok := true;
    }

    method StopComponents(stopOk: Oracle) returns (ok: bool)
      modifies this
      ensures Contents() == Step(old(Contents()), Stop(stopOk))
      ensures stopPromise == Some(ok)
      ensures old(stopPromise).Some? ==> stopPromise == old(stopPromise) && trace == old(trace)
      ensures old(stopPromise).None? ==> started == []
    {
      if stopPromise.None? {
        var done := StopThem(Shutdown, stopOk);
        stopPromise := Some(done);
      }
      ok := stopPromise.value;
    }
  }
}
