/** Switching a channel on or off: pending until the channel reaches a stable state other than the one
    the command was issued from, a rejection, or the ceiling. */
module ChannelCommand {
  import opened Wrappers

  const T_CMD_RESOLVE: nat := 10000

  datatype Problem = Unresolved | Refusal(message: string)

  /** `issuedFrom` is the channel state when the command was issued, None if there was no status. */
  datatype State = State(
    pending: bool,
    problem: Option<Problem>,
    issuedFrom: Option<string>,
    ceiling: Option<nat>,
    status: Option<string>,
    stale: bool,
    now: nat,
    issuedAt: nat)

  const INITIAL := State(false, None, None, None, None, false, 0, 0)

  datatype Event =
    | Request
    | Rejection(message: string)
    | Status(status: Option<string>)
    | Stale(stale: bool)
    | Elapse(ms: nat)
    | Fire

  predicate Enabled(s: State, e: Event) {
    match e
    case Elapse(ms) => s.ceiling.Some? ==> s.now + ms <= s.ceiling.value
    case Fire => s.ceiling.Some? && s.now == s.ceiling.value
    case _ => true
  }

  predicate Stable(state: string) {
    state == "on" || state == "off" || state == "failed"
  }

  /** The status says the command has come to an end. */
  predicate Ended(s: State) {
    s.status.Some? && s.status != s.issuedFrom && Stable(s.status.value)
  }

  function Settle(s: State): State {
    if s.pending && Ended(s) then s.(pending := false, ceiling := None) else s
  }

  function Handle(s: State, e: Event): State
    requires Enabled(s, e)
  {
    match e
    case Request =>
      if s.pending || s.stale then s
      else s.(issuedFrom := s.status, pending := true, problem := None,
              ceiling := Some(s.now + T_CMD_RESOLVE), issuedAt := s.now)
    case Rejection(message) => s.(ceiling := None, pending := false, problem := Some(Refusal(message)))
    case Status(status) => s.(status := status)
    case Stale(stale) => s.(stale := stale)
    case Elapse(ms) => s.(now := s.now + ms)
    case Fire => s.(ceiling := None, pending := false, problem := Some(Unresolved))
  }

  function Step(s: State, e: Event): State
    requires Enabled(s, e)
  {
    Settle(Handle(s, e))
  }

  ghost predicate Inv(s: State) {
    && (s.pending <==> s.ceiling.Some?)
    && (s.pending ==>
          && s.ceiling.value == s.issuedAt + T_CMD_RESOLVE && s.issuedAt <= s.now <= s.ceiling.value
          && s.problem.None? && !Ended(s))
  }

  lemma StepKeepsInv(s: State, e: Event)
    requires Inv(s) && Enabled(s, e)
    ensures Inv(Step(s, e))
  {
  }

  ghost predicate ValidRun(s: State, es: seq<Event>)
    decreases |es|
  {
    es == [] || (Enabled(s, es[0]) && ValidRun(Step(s, es[0]), es[1..]))
  }

  ghost function Run(s: State, es: seq<Event>): State
    requires ValidRun(s, es)
    decreases |es|
  {
    if es == [] then s else Run(Step(s, es[0]), es[1..])
  }

  lemma {:induction false} RunInv(s: State, es: seq<Event>)
    requires Inv(s) && ValidRun(s, es)
    ensures Inv(Run(s, es))
    decreases |es|
  {
    if es != [] {
      StepKeepsInv(s, es[0]);
      RunInv(Step(s, es[0]), es[1..]);
    }
  }

  /** In every run: pending exactly when the ceiling is armed, so never for more than T-CMD-RESOLVE. */
  lemma PendingIffArmed(es: seq<Event>)
    requires ValidRun(INITIAL, es)
    ensures var s := Run(INITIAL, es);
            && (s.pending <==> s.ceiling.Some?)
            && (s.pending ==> s.issuedAt <= s.now <= s.issuedAt + 10000 && s.problem.None?)
  {
    RunInv(INITIAL, es);
  }

  /** The channel's status after some events, if it was `d` before: the last one reported. */
  function StatusAfter(d: Option<string>, es: seq<Event>): Option<string>
    decreases |es|
  {
    if es == [] then d else StatusAfter(if es[0].Status? then es[0].status else d, es[1..])
  }

  function StaleAfter(d: bool, es: seq<Event>): bool
    decreases |es|
  {
    if es == [] then d else StaleAfter(if es[0].Stale? then es[0].stale else d, es[1..])
  }

  function TimeAfter(t: nat, es: seq<Event>): nat
    decreases |es|
  {
    if es == [] then t else TimeAfter(if es[0].Elapse? then t + es[0].ms else t, es[1..])
  }

  lemma {:induction false} NewsTell(s: State, es: seq<Event>)
    requires ValidRun(s, es)
    ensures var t := Run(s, es);
            && t.status == StatusAfter(s.status, es) && t.stale == StaleAfter(s.stale, es)
            && t.now == TimeAfter(s.now, es)
    decreases |es|
  {
    if es != [] {
      NewsTell(Step(s, es[0]), es[1..]);
    }
  }

  /** A request, in any run: ignored while one is pending or the panel is stale; otherwise pending, with the
      status last reported noted as the one it was issued from, no problem, and ten seconds to resolve. */
  lemma RequestNotesStatus(es: seq<Event>, s: State)
    requires ValidRun(INITIAL, es) && s == Run(INITIAL, es)
    ensures var t := Step(s, Request);
            if s.pending || StaleAfter(false, es) then t == s
            else
              && t.pending && t.issuedFrom == StatusAfter(None, es) && t.problem.None?
              && t.ceiling == Some(TimeAfter(0, es) + 10000)
  {
    RunInv(INITIAL, es);
    NewsTell(INITIAL, es);
  }

  /** A pending command is released by a rejection, by the ceiling, or by a stable state different from
      the one it was issued from, and by nothing else. */
  lemma HowPendingEnds(es: seq<Event>, e: Event)
    requires ValidRun(INITIAL, es) && Enabled(Run(INITIAL, es), e) && Run(INITIAL, es).pending
    ensures var s := Run(INITIAL, es); var t := Step(s, e);
            && (!t.pending <==>
                  || e.Rejection? || e.Fire?
                  || (e.Status? && e.status != s.issuedFrom && e.status in {Some("on"), Some("off"), Some("failed")}))
            && t.problem == (match e
                             case Rejection(message) => Some(Refusal(message))
                             case Fire => Some(Unresolved)
                             case _ => None)
            && (t.pending ==> t.issuedFrom == s.issuedFrom && t.ceiling == s.ceiling)
  {
    RunInv(INITIAL, es);
  }

  /** A rejection that arrives after its own request has timed out releases the next request, and is
      reported as the refusal of that one. */
  lemma LateRejectionReleasesNewer(message: string)
    ensures var es := [Request, Elapse(T_CMD_RESOLVE), Fire, Request];
            && ValidRun(INITIAL, es)
            && var s := Run(INITIAL, es); var t := Step(s, Rejection(message));
               && s.pending && s.problem.None? && s.ceiling == Some(2 * T_CMD_RESOLVE)
               && !t.pending && t.ceiling.None? && t.problem == Some(Refusal(message)) && t.status == s.issuedFrom
  {
    var a, b, c := Request, Elapse(T_CMD_RESOLVE), Fire;
    assert [a, b, c, a][1..] == [b, c, a] && [b, c, a][1..] == [c, a] && [c, a][1..] == [a] && [a][1..] == [];
    var s1 := Step(INITIAL, a);
    var s2 := Step(s1, b);
    var s3 := Step(s2, c);
    var s4 := Step(s3, a);
    assert ValidRun(s4, []) && Run(s4, []) == s4;
    assert ValidRun(s3, [a]) && Run(s3, [a]) == s4;
    assert ValidRun(s2, [c, a]) && Run(s2, [c, a]) == s4;
    assert ValidRun(s1, [b, c, a]) && Run(s1, [b, c, a]) == s4;
  }

  /** News that do not end a command issued from `from`. */
  predicate NoNews(from: Option<string>, e: Event) {
    match e
    case Rejection(_) => false
    case Status(status) => status.None? || status == from || !Stable(status.value)
    case Fire => false
    case _ => true
  }

  /** A channel that falls back to the state the command was issued from never ends the command: it stays
      pending through any such run, and the ceiling, the only way out, reports it as unresolved. */
  lemma {:induction false} FallingBackNeverResolves(s: State, es: seq<Event>)
    requires Inv(s) && s.pending && ValidRun(s, es)
    requires forall i :: 0 <= i < |es| ==> NoNews(s.issuedFrom, es[i])
    ensures var t := Run(s, es);
            && t.pending && t.issuedFrom == s.issuedFrom && t.issuedAt == s.issuedAt && t.ceiling == s.ceiling
            && (Enabled(t, Fire) <==> t.now == s.issuedAt + 10000)
            && (Enabled(t, Fire) ==> !Step(t, Fire).pending && Step(t, Fire).problem == Some(Unresolved))
    decreases |es|
  {
    if es != [] {
      StepKeepsInv(s, es[0]);
      FallingBackNeverResolves(Step(s, es[0]), es[1..]);
    }
  }

  class Hook {
    var pending: bool
    var problem: Option<Problem>
    var issuedFrom: Option<string>
    var ceiling: Option<nat>
    var status: Option<string>
    var stale: bool
    var now: nat
    ghost var issuedAt: nat

    ghost function Contents(): State
      reads this
    {
      State(pending, problem, issuedFrom, ceiling, status, stale, now, issuedAt)
    }

    constructor ()
      ensures Contents() == INITIAL
    {
      pending, problem, issuedFrom, ceiling, status, stale, now, issuedAt := false, None, None, None, None, false, 0, 0;
    }

    method StatusEffect()
      modifies this
      ensures Contents() == Settle(old(Contents()))
      ensures var ended := status != issuedFrom && status in {Some("on"), Some("off"), Some("failed")};
              pending == (old(pending) && !ended)
      ensures status == old(status) && issuedFrom == old(issuedFrom) && problem == old(problem)
    {
      if !pending || status.None? || status == issuedFrom {
        return;
      }
      if Stable(status.value) {
        ceiling := None;
        pending := false;
      }
    }

    method RequestEnabled()
      modifies this
      ensures Contents() == Handle(old(Contents()), Request)
      ensures old(pending) || stale ==> Contents() == old(Contents())
      ensures !old(pending) && !stale ==>
                pending && issuedFrom == status && problem.None? && ceiling == Some(now + 10000)
    {
      if pending || stale {
        return;
      }
      issuedFrom := status;
      pending := true;
      problem := None;
      ceiling := Some(now + T_CMD_RESOLVE);
      issuedAt := now;
    }

    method On(e: Event)
      requires Enabled(Contents(), e)
      modifies this
      ensures Contents() == Step(old(Contents()), e)
      ensures e.Rejection? ==> !pending && ceiling.None? && problem == Some(Refusal(e.message))
      ensures e.Fire? ==> !pending && ceiling.None? && problem == Some(Unresolved)
      ensures !e.Rejection? && !e.Fire? && !e.Request? ==> problem == old(problem) && issuedFrom == old(issuedFrom)
    {
      match e {
        case Request => RequestEnabled();
        case Rejection(message) =>
          ceiling := None;
          pending := false;
          problem := Some(Refusal(message));
        case Status(st) => status := st;
        case Stale(b) => stale := b;
        case Elapse(ms) => now := now + ms;
        case Fire =>
          ceiling := None;
          pending := false;
          problem := Some(Unresolved);
      }
      StatusEffect();
    }
  }
}
