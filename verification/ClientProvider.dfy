/** The client provider of the panel: each run of its effect builds a client asynchronously, installs and
    subscribes it, coalesces resync signals into one microtask, and is cleaned up at some point. */
module ClientProvider {
  import opened Wrappers

  type Domain = string

  /** The life of one effect's resync protocol: signals, and flushes with the domains they reset. */
  datatype Entry = Signalled(domain: Domain) | Flushed(domains: set<Domain>)

  /** The variables of one run of the effect. `arrived`: its build has come to an end; `built`: with a
      client; `instance`: that client was taken on. `microtasks` counts its queued flushes. The rest
      is history: disposals, the log, how many flushes were queued at cleanup and have run since. */
  datatype Effect = Effect(
    cancelled: bool,
    arrived: bool,
    built: bool,
    instance: bool,
    subscribed: bool,
    resyncDomains: set<Domain>,
    scheduled: bool,
    microtasks: nat,
    disposals: nat,
    log: seq<Entry>,
    leftover: nat,
    lateFlushes: nat)

  const MOUNTED := Effect(false, false, false, false, false, {}, false, 0, 0, [], 0, 0)

  /** All runs of the effect so far, and the one whose client is installed. */
  datatype State = State(effects: seq<Effect>, client: Option<nat>)

  const INITIAL := State([], None)

  datatype Event =
    | Mount
    | Built(i: nat)
    | BuildFails(i: nat)
    | Signal(i: nat, domain: Domain, resync: bool)
    | Microtask(i: nat)
    | Cleanup(i: nat)

  /** In any order: a build ends once, a subscription delivers until it is taken off, a queued microtask
      runs, an effect is cleaned up once. */
  predicate Enabled(s: State, e: Event) {
    match e
    case Mount => true
    case Built(i) => i < |s.effects| && !s.effects[i].arrived
    case BuildFails(i) => i < |s.effects| && !s.effects[i].arrived
    case Signal(i, _, _) => i < |s.effects| && s.effects[i].subscribed
    case Microtask(i) => i < |s.effects| && s.effects[i].microtasks > 0
    case Cleanup(i) => i < |s.effects| && !s.effects[i].cancelled
  }

  function Arrive(f: Effect): Effect {
    if f.cancelled then f.(arrived := true, built := true, disposals := f.disposals + 1)
    else f.(arrived := true, built := true, instance := true, subscribed := true)
  }

  function Note(f: Effect, domain: Domain, resync: bool): Effect {
    if !resync then f
    else
      var g := f.(resyncDomains := f.resyncDomains + {domain}, log := f.log + [Signalled(domain)]);
      if g.scheduled then g else g.(scheduled := true, microtasks := g.microtasks + 1)
  }

  function Flush(f: Effect): Effect
    requires f.microtasks > 0
  {
    f.(microtasks := f.microtasks - 1, log := f.log + [Flushed(f.resyncDomains)],
       resyncDomains := {}, scheduled := false,
       lateFlushes := f.lateFlushes + if f.cancelled then 1 else 0)
  }

  function Clean(f: Effect): Effect {
    f.(cancelled := true, subscribed := false, disposals := f.disposals + (if f.instance then 1 else 0),
       leftover := f.microtasks)
  }

  function Step(s: State, e: Event): State
    requires Enabled(s, e)
  {
    match e
    case Mount => s.(effects := s.effects + [MOUNTED])
    case Built(i) =>
      s.(effects := s.effects[i := Arrive(s.effects[i])],
         client := if s.effects[i].cancelled then s.client else Some(i))
    case BuildFails(i) => s.(effects := s.effects[i := s.effects[i].(arrived := true)])
    case Signal(i, domain, resync) => s.(effects := s.effects[i := Note(s.effects[i], domain, resync)])
    case Microtask(i) => s.(effects := s.effects[i := Flush(s.effects[i])])
    case Cleanup(i) => s.(effects := s.effects[i := Clean(s.effects[i])], client := None)
  }

  /** The domains signalled since the last flush of a log. */
  function Waiting(log: seq<Entry>): set<Domain> {
    if log == [] then {}
    else if log[|log| - 1].Flushed? then {}
    else Waiting(log[..|log| - 1]) + {log[|log| - 1].domain}
  }

  /** Every flush of the log resets exactly the domains signalled since the one before, and some. */
  ghost predicate NothingLost(log: seq<Entry>) {
    forall i :: 0 <= i < |log| && log[i].Flushed? ==> log[i].domains == Waiting(log[..i]) && log[i].domains != {}
  }

  /** Build, subscription, cleanup and disposal. */
  ghost predicate LifeInv(f: Effect) {
    && (f.built ==> f.arrived)
    && (f.instance ==> f.built)
    && (f.built && !f.cancelled ==> f.instance)
    && f.disposals == (if f.built && f.cancelled then 1 else 0)
    && (f.subscribed <==> f.instance && !f.cancelled)
    && (f.leftover > 0 ==> f.cancelled && f.instance)
  }

  /** Signals and flushes. */
  ghost predicate ResyncInv(f: Effect) {
    && f.microtasks == (if f.scheduled then 1 else 0)
    && (f.scheduled <==> f.resyncDomains != {})
    && f.resyncDomains == Waiting(f.log)
    && NothingLost(f.log)
    && (f.log != [] ==> f.instance)
    && (if f.cancelled then f.lateFlushes + f.microtasks == f.leftover <= 1 else f.lateFlushes == 0)
  }

  ghost predicate EffectInv(f: Effect) {
    LifeInv(f) && ResyncInv(f)
  }

  ghost predicate AllInv(effects: seq<Effect>) {
    forall i :: 0 <= i < |effects| ==> EffectInv(effects[i])
  }

  /** The installed client is that of a live effect. */
  predicate ClientLive(effects: seq<Effect>, client: Option<nat>) {
    client.Some? ==> client.value < |effects| && effects[client.value].instance && !effects[client.value].cancelled
  }

  ghost predicate Inv(s: State) {
    AllInv(s.effects) && ClientLive(s.effects, s.client)
  }

  lemma LogGrows(log: seq<Entry>, e: Entry)
    requires NothingLost(log) && (e.Flushed? ==> e.domains == Waiting(log) && e.domains != {})
    ensures NothingLost(log + [e])
    ensures Waiting(log + [e]) == if e.Flushed? then {} else Waiting(log) + {e.domain}
  {
    var l := log + [e];
    assert l[..|log|] == log;
    forall i | 0 <= i < |l| && l[i].Flushed? ensures l[i].domains == Waiting(l[..i]) && l[i].domains != {} {
      if i < |log| {
        assert l[..i] == log[..i];
      }
    }
  }

  lemma NoteKeepsInv(f: Effect, d: Domain, resync: bool)
    requires EffectInv(f) && f.subscribed
    ensures EffectInv(Note(f, d, resync))
  {
    LogGrows(f.log, Signalled(d));
    assert f.resyncDomains + {d} != {};
  }

  lemma FlushKeepsInv(f: Effect)
    requires EffectInv(f) && f.microtasks > 0
    ensures EffectInv(Flush(f))
  {
    LogGrows(f.log, Flushed(f.resyncDomains));
  }

  lemma CleanKeepsInv(f: Effect)
    requires EffectInv(f) && !f.cancelled
    ensures EffectInv(Clean(f))
  {
    assert f.microtasks > 0 ==> f.log != [];
  }

  lemma ArriveKeepsInv(f: Effect)
    requires EffectInv(f) && !f.arrived
    ensures EffectInv(Arrive(f)) && EffectInv(f.(arrived := true))
  {
  }

  lemma ReplaceKeepsAll(effects: seq<Effect>, i: nat, f: Effect)
    requires AllInv(effects) && i < |effects| && EffectInv(f)
    ensures AllInv(effects[i := f])
  {
  }

  lemma StepKeepsAll(s: State, e: Event)
    requires AllInv(s.effects) && Enabled(s, e)
    ensures AllInv(Step(s, e).effects)
  {
    match e {
      case Mount =>
        assert EffectInv(MOUNTED);
      case Built(i) =>
        ArriveKeepsInv(s.effects[i]);
        ReplaceKeepsAll(s.effects, i, Arrive(s.effects[i]));
      case BuildFails(i) =>
        ArriveKeepsInv(s.effects[i]);
        ReplaceKeepsAll(s.effects, i, s.effects[i].(arrived := true));
      case Signal(i, d, resync) =>
        NoteKeepsInv(s.effects[i], d, resync);
        ReplaceKeepsAll(s.effects, i, Note(s.effects[i], d, resync));
      case Microtask(i) =>
        FlushKeepsInv(s.effects[i]);
        ReplaceKeepsAll(s.effects, i, Flush(s.effects[i]));
      case Cleanup(i) =>
        CleanKeepsInv(s.effects[i]);
        ReplaceKeepsAll(s.effects, i, Clean(s.effects[i]));
    }
  }

  lemma StepKeepsClient(s: State, e: Event)
    requires ClientLive(s.effects, s.client) && Enabled(s, e)
    ensures ClientLive(Step(s, e).effects, Step(s, e).client)
  {
  }

  lemma StepKeepsInv(s: State, e: Event)
    requires Inv(s) && Enabled(s, e)
    ensures Inv(Step(s, e))
  {
    StepKeepsAll(s, e);
    StepKeepsClient(s, e);
  }

  ghost predicate ValidRun(s: State, es: seq<Event>)
    decreases |es|
  {
    es == [] || (Enabled(s, es[0]) && ValidRun(Step(s, es[0]), es[1..]))
  }

  ghost function Run(s: State, es: seq<Event>): State
    requires ValidRun(s, es)
    decreases |es|
  {
    if es == [] then s else Run(Step(s, es[0]), es[1..])
  }

  lemma {:induction false} RunInv(s: State, es: seq<Event>)
    requires Inv(s) && ValidRun(s, es)
    ensures Inv(Run(s, es))
    decreases |es|
  {
    if es != [] {
      StepKeepsInv(s, es[0]);
      RunInv(Step(s, es[0]), es[1..]);
    }
  }

  /** For every order of builds and cleanups: a client that was built is disposed once if its effect has
      been cleaned up, and not before; only a client of a live effect is subscribed; and the installed
      client belongs to a live effect, so it has not been disposed. */
  lemma ClientsDisposedOnce(es: seq<Event>, i: nat)
    requires ValidRun(INITIAL, es) && i < |Run(INITIAL, es).effects|
    ensures var s := Run(INITIAL, es); var f := s.effects[i];
            && (f.built <==> Built(i) in es) && (f.cancelled <==> Cleanup(i) in es) && |s.effects| == Mounts(es)
            && f.disposals == (if f.built && f.cancelled then 1 else 0)
            && (f.subscribed <==> f.built && !f.cancelled)
            && (s.client == Some(i) ==> f.built && !f.cancelled && f.disposals == 0)
  {
    RunInv(INITIAL, es);
    EventsTell(INITIAL, es, i);
  }

  /** The domain of a resync signal for the i-th effect. */
  function ResyncOf(e: Event, i: nat): set<Domain> {
    if e.Signal? && e.i == i && e.resync then {e.domain} else {}
  }

  /** The domains of all that arrived for it. */
  function ResyncsFor(es: seq<Event>, i: nat): set<Domain> {
    if es == [] then {} else ResyncOf(es[0], i) + ResyncsFor(es[1..], i)
  }

  /** How often an event occurs. */
  function Times(es: seq<Event>, e: Event): nat {
    if es == [] then 0 else (if es[0] == e then 1 else 0) + Times(es[1..], e)
  }

  function Mounts(es: seq<Event>): nat {
    if es == [] then 0 else (if es[0].Mount? then 1 else 0) + Mounts(es[1..])
  }

  function FlushesIn(log: seq<Entry>): nat {
    if log == [] then 0 else FlushesIn(log[..|log| - 1]) + if log[|log| - 1].Flushed? then 1 else 0
  }

  /** The effect as it is, or as it will be mounted. */
  function EffectAt(s: State, i: nat): Effect {
    if i < |s.effects| then s.effects[i] else MOUNTED
  }

  lemma NoteLog(log: seq<Entry>, e: Entry)
    ensures AllSignalled(log + [e]) == AllSignalled(log) + if e.Signalled? then {e.domain} else {}
    ensures FlushesIn(log + [e]) == FlushesIn(log) + if e.Flushed? then 1 else 0
  {
    assert (log + [e])[..|log|] == log;
  }

  /** What one event adds to the i-th effect. */
  lemma EventTells(s: State, e: Event, i: nat)
    requires Enabled(s, e)
    ensures var f, g := EffectAt(s, i), EffectAt(Step(s, e), i);
            && (g.built <==> f.built || e == Built(i))
            && (g.arrived <==> f.arrived || e == Built(i) || e == BuildFails(i))
            && (g.cancelled <==> f.cancelled || e == Cleanup(i))
            && |Step(s, e).effects| == |s.effects| + if e.Mount? then 1 else 0
  {
  }

  lemma EventLogs(s: State, e: Event, i: nat)
    requires Enabled(s, e)
    ensures var f, g := EffectAt(s, i), EffectAt(Step(s, e), i);
            && AllSignalled(g.log) == AllSignalled(f.log) + ResyncOf(e, i)
            && FlushesIn(g.log) == FlushesIn(f.log) + if e == Microtask(i) then 1 else 0
  {
    var f, g := EffectAt(s, i), EffectAt(Step(s, e), i);
    if e.Signal? && e.i == i && e.resync {
      assert g.log == f.log + [Signalled(e.domain)];
      NoteLog(f.log, Signalled(e.domain));
    } else if e == Microtask(i) {
      assert g.log == f.log + [Flushed(f.resyncDomains)];
      NoteLog(f.log, Flushed(f.resyncDomains));
    } else {
      assert g.log == f.log;
    }
  }

  /** In every run the effects are what the events say: one for each mount; built, arrived and cancelled
      exactly when its own build or cleanup has happened; signalled for exactly the domains of its own
      resync signals, other news left out; and flushed once for each of its microtasks. */
  lemma {:induction false} EventsTell(s: State, es: seq<Event>, i: nat)
    requires ValidRun(s, es)
    ensures var f, g := EffectAt(s, i), EffectAt(Run(s, es), i);
            && (g.built <==> f.built || Built(i) in es)
            && (g.arrived <==> f.arrived || Built(i) in es || BuildFails(i) in es)
            && (g.cancelled <==> f.cancelled || Cleanup(i) in es)
            && AllSignalled(g.log) == AllSignalled(f.log) + ResyncsFor(es, i)
            && FlushesIn(g.log) == FlushesIn(f.log) + Times(es, Microtask(i))
            && |Run(s, es).effects| == |s.effects| + Mounts(es)
    decreases |es|
  {
    if es != [] {
      EventTells(s, es[0], i);
      EventLogs(s, es[0], i);
      EventsTell(Step(s, es[0]), es[1..], i);
      assert es == [es[0]] + es[1..];
    }
  }

  /** News without a resync reason change nothing. */
  lemma OtherNewsChangeNothing(s: State, i: nat, d: Domain)
    requires Enabled(s, Signal(i, d, false))
    ensures Step(s, Signal(i, d, false)) == s
  {
    assert s.effects[i := s.effects[i]] == s.effects;
  }

  /** In every interleaving of signals and microtasks: a flush is queued, once, exactly when some domain
      waits; each flush has reset exactly the domains signalled since the one before; as many have run as
      microtasks; and the domains reset and those waiting are exactly the ones for which a resync signal
      has arrived. */
  lemma ResyncCoalesced(es: seq<Event>, i: nat)
    requires ValidRun(INITIAL, es) && i < |Run(INITIAL, es).effects|
    ensures var f := Run(INITIAL, es).effects[i];
            && f.microtasks == (if f.resyncDomains != {} then 1 else 0)
            && f.resyncDomains == Waiting(f.log) && NothingLost(f.log)
            && AllSignalled(f.log) == AllReset(f.log) + f.resyncDomains
            && ResyncsFor(es, i) == AllReset(f.log) + f.resyncDomains
            && FlushesIn(f.log) == Times(es, Microtask(i))
  {
    RunInv(INITIAL, es);
    SignalledSplit(Run(INITIAL, es).effects[i].log);
    EventsTell(INITIAL, es, i);
  }

  function AllSignalled(log: seq<Entry>): set<Domain> {
    if log == [] then {}
    else AllSignalled(log[..|log| - 1]) + if log[|log| - 1].Signalled? then {log[|log| - 1].domain} else {}
  }

  function AllReset(log: seq<Entry>): set<Domain> {
    if log == [] then {}
    else AllReset(log[..|log| - 1]) + if log[|log| - 1].Flushed? then log[|log| - 1].domains else {}
  }

  lemma {:induction false} SignalledSplit(log: seq<Entry>)
    requires NothingLost(log)
    ensures AllSignalled(log) == AllReset(log) + Waiting(log)
    decreases |log|
  {
    if log != [] {
      var init := log[..|log| - 1];
      assert forall i :: 0 <= i < |init| ==> log[..i] == init[..i];
      SignalledSplit(init);
    }
  }

  /** The flush is not guarded by the cleanup: one that is queued when the effect is cleaned up still
      resyncs the client just disposed. It happens at most once, and exactly for such a flush. */
  lemma FlushAfterCleanup(es: seq<Event>, s: State, i: nat)
    requires ValidRun(INITIAL, es) && s == Run(INITIAL, es) && i < |s.effects| && s.effects[i].cancelled
    ensures var f := s.effects[i];
            && f.lateFlushes + f.microtasks == f.leftover <= 1
            && (Enabled(s, Microtask(i)) <==> f.leftover == 1 && f.lateFlushes == 0)
            && (f.leftover == 1 ==> f.disposals == 1)
            && !f.subscribed
  {
    RunInv(INITIAL, es);
    assert EffectInv(Run(INITIAL, es).effects[i]);
  }

  /** It does happen: a signal, a cleanup before the microtask runs, and then the flush. */
  lemma FlushReachesDisposedClient(d: Domain)
    ensures var es := [Mount, Built(0), Signal(0, d, true), Cleanup(0), Microtask(0)];
            && ValidRun(INITIAL, es)
            && |Run(INITIAL, es).effects| == 1
            && var f := Run(INITIAL, es).effects[0];
               f.disposals == 1 && f.lateFlushes == 1 && f.log == [Signalled(d), Flushed({d})]
  {
    var a, b, c, x, y := Mount, Built(0), Signal(0, d, true), Cleanup(0), Microtask(0);
    assert [a, b, c, x, y][1..] == [b, c, x, y] && [b, c, x, y][1..] == [c, x, y];
    assert [c, x, y][1..] == [x, y] && [x, y][1..] == [y] && [y][1..] == [];
    var s1 := Step(INITIAL, a);
    var s2 := Step(s1, b);
    var s3 := Step(s2, c);
    var s4 := Step(s3, x);
    var s5 := Step(s4, y);
    assert ValidRun(s5, []) && Run(s5, []) == s5;
    assert ValidRun(s4, [y]) && Run(s4, [y]) == s5;
    assert ValidRun(s3, [x, y]) && Run(s3, [x, y]) == s5;
    assert ValidRun(s2, [c, x, y]) && Run(s2, [c, x, y]) == s5;
    assert ValidRun(s1, [b, c, x, y]) && Run(s1, [b, c, x, y]) == s5;
    assert s3.effects[0].resyncDomains == {d} && s5.effects[0].log == [Signalled(d), Flushed({d})];
  }

  /** React runs an effect again only after cleaning up the run before. */
  ghost predicate InReactOrder(s: State, es: seq<Event>)
    requires ValidRun(s, es)
    decreases |es|
  {
    es == [] || (
      && (es[0].Mount? ==> forall i :: 0 <= i < |s.effects| ==> s.effects[i].cancelled)
      && InReactOrder(Step(s, es[0]), es[1..]))
  }

  predicate Done(f: Effect) {
    f.cancelled && !f.subscribed
  }

  ghost predicate OnlyLastLive(s: State) {
    && (forall i :: 0 <= i < |s.effects| - 1 ==> Done(s.effects[i]))
    && (forall i :: 0 <= i < |s.effects| && s.effects[i].cancelled ==> Done(s.effects[i]))
    && s.client == if |s.effects| > 0 && s.effects[|s.effects| - 1].subscribed then Some(|s.effects| - 1) else None
  }

  /** Then the installed client is exactly that of the latest effect, from its build to its cleanup. */
  lemma {:induction false} LatestClientInstalled(s: State, es: seq<Event>)
    requires OnlyLastLive(s) && ValidRun(s, es) && InReactOrder(s, es)
    ensures OnlyLastLive(Run(s, es))
    decreases |es|
  {
    if es != [] {
      StepKeepsLast(s, es[0]);
      LatestClientInstalled(Step(s, es[0]), es[1..]);
    }
  }

  lemma StepKeepsLast(s: State, e: Event)
    requires OnlyLastLive(s) && Enabled(s, e)
    requires e.Mount? ==> forall i :: 0 <= i < |s.effects| ==> s.effects[i].cancelled
    ensures OnlyLastLive(Step(s, e))
  {
  }

  /** The provider: the variables of its effect runs, and the client it has set. */
  class Provider {
    var effects: seq<Effect>
    var client: Option<nat>

    ghost function Contents(): State
      reads this
    {
      State(effects, client)
    }

    constructor ()
      ensures Contents() == INITIAL
    {
      effects, client := [], None;
    }

    method OnBuilt(i: nat)
      requires Enabled(Contents(), Built(i))
      modifies this
      ensures Contents() == Step(old(Contents()), Built(i))
      ensures old(effects)[i].cancelled ==>
                effects[i].disposals == old(effects)[i].disposals + 1 && client == old(client)
      ensures !old(effects)[i].cancelled ==>
                effects[i].subscribed && effects[i].disposals == old(effects)[i].disposals && client == Some(i)
    {
      var f := effects[i].(arrived := true, built := true);
      if f.cancelled {
        effects := effects[i := f.(disposals := f.disposals + 1)];
        return;
      }
      effects := effects[i := f.(instance := true, subscribed := true)];
      client := Some(i);
    }

    method OnConnection(i: nat, domain: Domain, resync: bool)
      requires Enabled(Contents(), Signal(i, domain, resync))
      modifies this
      ensures Contents() == Step(old(Contents()), Signal(i, domain, resync))
      ensures !resync ==> effects == old(effects)
      ensures resync ==> effects[i].resyncDomains == old(effects)[i].resyncDomains + {domain} && effects[i].scheduled
      ensures resync ==>
                effects[i].microtasks == old(effects)[i].microtasks + if old(effects)[i].scheduled then 0 else 1
      ensures client == old(client)
    {
      if !resync {
        assert effects == effects[i := effects[i]];
        return;
      }
      var f := effects[i];
      f := f.(resyncDomains := f.resyncDomains + {domain}, log := f.log + [Signalled(domain)]);
      if !f.scheduled {
        f := f.(scheduled := true, microtasks := f.microtasks + 1);
      }
      effects := effects[i := f];
    }

    method RunMicrotask(i: nat) returns (domains: set<Domain>)
      requires Enabled(Contents(), Microtask(i))
      modifies this
      ensures Contents() == Step(old(Contents()), Microtask(i))
      ensures domains == old(effects)[i].resyncDomains
      ensures effects[i].resyncDomains == {} && !effects[i].scheduled && client == old(client)
    {
      var f := effects[i];
      domains := f.resyncDomains;
      f := f.(resyncDomains := {}, scheduled := false, microtasks := f.microtasks - 1);
      effects := effects[i := f.(log := f.log + [Flushed(domains)],
                                 lateFlushes := f.lateFlushes + if f.cancelled then 1 else 0)];
    }

    method RunCleanup(i: nat)
      requires Enabled(Contents(), Cleanup(i))
      modifies this
      ensures Contents() == Step(old(Contents()), Cleanup(i))
      ensures effects[i].cancelled && !effects[i].subscribed && client.None?
      ensures effects[i].disposals == old(effects)[i].disposals + if old(effects)[i].instance then 1 else 0
      ensures effects[i].resyncDomains == old(effects)[i].resyncDomains
      ensures effects[i].microtasks == old(effects)[i].microtasks
    {
      var f := effects[i].(cancelled := true, subscribed := false, leftover := effects[i].microtasks);
      if f.instance {
        f := f.(disposals := f.disposals + 1);
      }
      effects := effects[i := f];
      client := None;
    }

    method On(e: Event)
      requires Enabled(Contents(), e)
      modifies this
      ensures Contents() == Step(old(Contents()), e)
    {
      match e {
        case Mount => effects := effects + [MOUNTED];
        case Built(i) => OnBuilt(i);
        case BuildFails(i) => effects := effects[i := effects[i].(arrived := true)];
        case Signal(i, domain, resync) => OnConnection(i, domain, resync);
        case Microtask(i) => var _ := RunMicrotask(i);
        case Cleanup(i) => RunCleanup(i);
      }
    }
  }
}
