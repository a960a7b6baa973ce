/** Pending question commands of the panel: a command is accepted at once and stays pending until the
    live data shows its effect, the request is rejected, or a ceiling timer gives up on it. */
module QuestionCommands {
  import opened Wrappers

  /** T-CMD-RESOLVE in milliseconds. */
  const T_CMD_RESOLVE: nat := 10000
  const NOT_IN_TIME: string := "This did not resolve in time."

  datatype Kind = Editing | Discarding | Sending

  datatype Delta = Delta(edited: bool, state: string)

  /** The armed ceiling: the id in its closure and the time it is due. */
  datatype Timer = Timer(id: string, due: nat)

  /** The history of a run: when the last command was issued, how many were, and how they ended. */
  datatype Ledger = Ledger(issuedAt: nat, issued: nat, resolved: nat, rejected: nat, timedOut: nat, replaced: nat)

  /** `rows` are the states of the REST snapshot, `deltas` the live changes. */
  datatype State = State(
    pendingId: Option<string>,
    pendingKind: Option<Kind>,
    problems: map<string, string>,
    ceiling: Option<Timer>,
    rows: map<string, string>,
    deltas: map<string, Delta>,
    quizLoading: bool,
    quizOpen: bool,
    now: nat,
    ledger: Ledger)

  const INITIAL := State(None, None, map[], None, map[], map[], true, false, 0, Ledger(0, 0, 0, 0, 0, 0))

  datatype Event =
    | Command(kind: Kind, id: string)
    | Rejection(id: string, message: string)
    | Rows(rows: map<string, string>)
    | Deltas(deltas: map<string, Delta>)
    | Quiz(loading: bool, open: bool)
    | Elapse(ms: nat)
    | Fire

  /** Everything may happen at any time, but a timer fires when it is due, and not later. */
  predicate Enabled(s: State, e: Event) {
    match e
    case Elapse(ms) => s.ceiling.Some? ==> s.now + ms <= s.ceiling.value.due
    case Fire => s.ceiling.Some? && s.now == s.ceiling.value.due
    case _ => true
  }

  /** JavaScript's truth of `pendingId`: neither null nor the empty string. */
  predicate Busy(s: State) {
    s.pendingId.Some? && s.pendingId.value != ""
  }

  /** The questions on the list: snapshot rows with the live state over them, discarded ones left out. */
  predicate Listed(s: State, id: string) {
    if id in s.deltas then s.deltas[id].state != "discarded" else id in s.rows && s.rows[id] != "discarded"
  }

  /** The live data shows the effect a command promised. */
  predicate Shown(s: State, kind: Kind, id: string) {
    match kind
    case Editing => id in s.deltas && s.deltas[id].edited
    case Sending => id in s.deltas && s.deltas[id].state == "sent"
    case Discarding => !Listed(s, id)
  }

  function Idle(s: State): State {
    s.(pendingId := None, pendingKind := None, ceiling := None)
  }

  /** The effect run after every render. */
  function Settle(s: State): State {
    if Busy(s) && s.pendingKind.Some? && Shown(s, s.pendingKind.value, s.pendingId.value)
    then Idle(s).(ledger := s.ledger.(resolved := s.ledger.resolved + 1))
    else s
  }

  predicate Refused(s: State, kind: Kind) {
    Busy(s) || (kind == Sending && !s.quizLoading && !s.quizOpen)
  }

  function Issue(l: Ledger, now: nat, replacing: bool): Ledger {
    l.(issuedAt := now, issued := l.issued + 1, replaced := l.replaced + if replacing then 1 else 0)
  }

  function StartPending(s: State, kind: Kind, id: string): State {
    s.(pendingId := Some(id), pendingKind := Some(kind), problems := s.problems - {id},
       ceiling := Some(Timer(id, s.now + T_CMD_RESOLVE)),
       ledger := Issue(s.ledger, s.now, s.pendingId.Some?))
  }

  function FailPending(s: State, id: string, message: string): State {
    Idle(s).(problems := s.problems[id := message], 
      ledger := s.ledger.(rejected := s.ledger.rejected + if s.pendingId.Some? then 1 else 0))
  }

  function Handle(s: State, e: Event): State
    requires Enabled(s, e)
  {
    match e
    case Command(kind, id) => if Refused(s, kind) then s else StartPending(s, kind, id)
    case Rejection(id, message) => FailPending(s, id, message)
    case Rows(rows) => s.(rows := rows)
    case Deltas(deltas) => s.(deltas := deltas)
    case Quiz(loading, open) => s.(quizLoading := loading, quizOpen := open)
    case Elapse(ms) => s.(now := s.now + ms)
    case Fire => Idle(s).(problems := s.problems[s.ceiling.value.id := NOT_IN_TIME],
                             ledger := s.ledger.(timedOut := s.ledger.timedOut + 1))
  }

  /** A handler's state changes, then the render and its effect. */
  function Step(s: State, e: Event): State
    requires Enabled(s, e)
  {
    Settle(Handle(s, e))
  }

  /** Every command issued is pending or has ended in one way. */
  predicate Accounted(l: Ledger, pending: bool) {
    l.issued == l.resolved + l.rejected + l.timedOut + l.replaced + if pending then 1 else 0
  }

  /** What handlers keep. */
  ghost predicate ArmedInv(s: State) {
    && (s.pendingId.Some? <==> s.ceiling.Some?)
    && (s.pendingId.Some? <==> s.pendingKind.Some?)
    && (s.ceiling.Some? ==>
          && s.ceiling.value == Timer(s.pendingId.value, s.ledger.issuedAt + T_CMD_RESOLVE)
          && s.ledger.issuedAt <= s.now <= s.ledger.issuedAt + T_CMD_RESOLVE
          && s.pendingId.value !in s.problems)
    && Accounted(s.ledger, s.pendingId.Some?)
  }

  /** What holds after each render. */
  ghost predicate Inv(s: State) {
    ArmedInv(s) && (Busy(s) ==> !Shown(s, s.pendingKind.value, s.pendingId.value))
  }

  lemma HandleKeepsArmed(s: State, e: Event)
    requires ArmedInv(s) && Enabled(s, e)
    ensures ArmedInv(Handle(s, e))
  {
  }

  lemma SettleGivesInv(s: State)
    requires ArmedInv(s)
    ensures Inv(Settle(s))
  {
  }

  lemma StepKeepsInv(s: State, e: Event)
    requires Inv(s) && Enabled(s, e)
    ensures Inv(Step(s, e))
  {
    HandleKeepsArmed(s, e);
    SettleGivesInv(Handle(s, e));
  }

  ghost predicate ValidRun(s: State, es: seq<Event>)
    decreases |es|
  {
    es == [] || (Enabled(s, es[0]) && ValidRun(Step(s, es[0]), es[1..]))
  }

  ghost function Run(s: State, es: seq<Event>): State
    requires ValidRun(s, es)
    decreases |es|
  {
    if es == [] then s else Run(Step(s, es[0]), es[1..])
  }

  lemma {:induction false} RunInv(s: State, es: seq<Event>)
    requires Inv(s) && ValidRun(s, es)
    ensures Inv(Run(s, es))
    decreases |es|
  {
    if es != [] {
      StepKeepsInv(s, es[0]);
      RunInv(Step(s, es[0]), es[1..]);
    }
  }

  /** In every run: a command is pending exactly when the ceiling is armed, for that command; it has then
      been pending for at most T-CMD-RESOLVE, shows no problem yet, and its effect has not been seen;
      and every command issued is pending, resolved, rejected, timed out or replaced, once. */
  lemma PendingIffArmed(es: seq<Event>)
    requires ValidRun(INITIAL, es)
    ensures var s := Run(INITIAL, es);
            && (s.pendingId.Some? <==> s.ceiling.Some?)
            && (s.pendingId.Some? ==>
                  && s.pendingKind.Some? && s.ceiling.value.id == s.pendingId.value
                  && s.ledger.issuedAt <= s.now <= s.ledger.issuedAt + 10000
                  && s.pendingId.value !in s.problems)
            && (Busy(s) ==> !Shown(s, s.pendingKind.value, s.pendingId.value))
            && Accounted(s.ledger, s.pendingId.Some?)
  {
    RunInv(INITIAL, es);
  }

  lemma StepReplacesNothing(s: State, e: Event)
    requires Enabled(s, e) && (s.pendingId.Some? ==> Busy(s)) && (e.Command? ==> e.id != "")
    ensures var t := Step(s, e); t.ledger.replaced == s.ledger.replaced && (t.pendingId.Some? ==> Busy(t))
  {
    var h := Handle(s, e);
    assert h.ledger.replaced == s.ledger.replaced && (h.pendingId.Some? ==> Busy(h));
  }

  /** Only a command on the empty id can be replaced by another: the guard takes "" for nothing pending. */
  lemma {:induction false} OnlyEmptyIdIsReplaced(s: State, es: seq<Event>)
    requires ValidRun(s, es) && (s.pendingId.Some? ==> Busy(s))
    requires forall i :: 0 <= i < |es| && es[i].Command? ==> es[i].id != ""
    ensures Run(s, es).ledger.replaced == s.ledger.replaced && (Run(s, es).pendingId.Some? ==> Busy(Run(s, es)))
    decreases |es|
  {
    if es != [] {
      StepReplacesNothing(s, es[0]);
      OnlyEmptyIdIsReplaced(Step(s, es[0]), es[1..]);
    }
  }

  /** The snapshot's and the live data show the effect of a command: an edit, when the live data say so; sending,
      when the live state is `sent`; discarding, when the state in force is `discarded` or there is none. */
  predicate EffectIn(rows: map<string, string>, deltas: map<string, Delta>, kind: Kind, id: string) {
    && (kind == Editing ==> id in deltas && deltas[id].edited)
    && (kind == Sending ==> id in deltas && deltas[id].state == "sent")
    && (kind == Discarding ==>
          if id in deltas then deltas[id].state == "discarded" else id in rows ==> rows[id] == "discarded")
  }

  /** The data after some events: the last ones that arrived. */
  function RowsAfter(d: map<string, string>, es: seq<Event>): map<string, string>
    decreases |es|
  {
    if es == [] then d else RowsAfter(if es[0].Rows? then es[0].rows else d, es[1..])
  }

  function DeltasAfter(d: map<string, Delta>, es: seq<Event>): map<string, Delta>
    decreases |es|
  {
    if es == [] then d else DeltasAfter(if es[0].Deltas? then es[0].deltas else d, es[1..])
  }

  /** Whether the quiz is known not to be open. */
  function ShutAfter(d: bool, es: seq<Event>): bool
    decreases |es|
  {
    if es == [] then d else ShutAfter(if es[0].Quiz? then !es[0].loading && !es[0].open else d, es[1..])
  }

  function TimeAfter(t: nat, es: seq<Event>): nat
    decreases |es|
  {
    if es == [] then t else TimeAfter(if es[0].Elapse? then t + es[0].ms else t, es[1..])
  }

  lemma StepNews(s: State, e: Event)
    requires Enabled(s, e)
    ensures var t := Step(s, e);
            && t.rows == (if e.Rows? then e.rows else s.rows) && t.deltas == (if e.Deltas? then e.deltas else s.deltas)
            && t.now == (if e.Elapse? then s.now + e.ms else s.now)
            && (!t.quizLoading && !t.quizOpen) ==
               if e.Quiz? then !e.loading && !e.open else !s.quizLoading && !s.quizOpen
  {
  }

  lemma {:induction false} NewsTell(s: State, es: seq<Event>)
    requires ValidRun(s, es)
    ensures var t := Run(s, es);
            && t.rows == RowsAfter(s.rows, es) && t.deltas == DeltasAfter(s.deltas, es) && t.now == TimeAfter(s.now, es)
            && (!t.quizLoading && !t.quizOpen) == ShutAfter(!s.quizLoading && !s.quizOpen, es)
    decreases |es|
  {
    if es != [] {
      StepNews(s, es[0]);
      NewsTell(Step(s, es[0]), es[1..]);
    }
  }

  lemma ShownIsEffect(s: State, kind: Kind, id: string)
    ensures Shown(s, kind, id) <==> EffectIn(s.rows, s.deltas, kind, id)
  {
  }

  /** A command, in any run: ignored while one with a non-empty id is pending, and a sending one while the quiz
      is known not to be open; otherwise it is released at its own render exactly when the data that last
      arrived already show its effect, and else pending, alone, with ten seconds to resolve. */
  lemma CommandIsTaken(es: seq<Event>, s: State, kind: Kind, id: string)
    requires ValidRun(INITIAL, es) && s == Run(INITIAL, es) && id != ""
    ensures var t := Step(s, Command(kind, id)); var rows, deltas := RowsAfter(map[], es), DeltasAfter(map[], es);
            if (s.pendingId.Some? && s.pendingId.value != "") || (kind == Sending && ShutAfter(false, es)) then t == s
            else
              && (t.pendingId.None? <==> EffectIn(rows, deltas, kind, id))
              && (t.pendingId.Some? ==>
                    && t.pendingId == Some(id) && t.pendingKind == Some(kind) && id !in t.problems
                    && t.ceiling == Some(Timer(id, TimeAfter(0, es) + 10000)))
  {
    RunInv(INITIAL, es);
    NewsTell(INITIAL, es);
    ShownIsEffect(s, kind, id);
    if !Refused(s, kind) {
      ReleasedAtOnce(s, kind, id);
    } else {
      SettledStays(s);
    }
  }

  lemma SettledStays(s: State)
    requires Inv(s)
    ensures Settle(s) == s
  {
  }

  /** What ends a pending command, and what is left behind: a rejection, of whatever id; the ceiling,
      which blames the pending id; or live data that show the effect. Nothing else. */
  lemma HowPendingEnds(es: seq<Event>, s: State, e: Event)
    requires ValidRun(INITIAL, es) && s == Run(INITIAL, es) && Enabled(s, e) && Busy(s)
    ensures s.pendingKind.Some?
    ensures var t := Step(s, e); var id := s.pendingId.value; var kind := s.pendingKind.value;
            && (t.pendingId.None? <==>
                  || e.Rejection? || e.Fire?
                  || (e.Rows? && EffectIn(e.rows, DeltasAfter(map[], es), kind, id))
                  || (e.Deltas? && EffectIn(RowsAfter(map[], es), e.deltas, kind, id)))
            && (t.pendingId.Some? ==> t.pendingId == s.pendingId && t.ceiling == s.ceiling)
            && (t.problems ==
                  match e
                  case Rejection(x, message) => s.problems[x := message]
                  case Fire => s.problems[id := NOT_IN_TIME]
                  case _ => s.problems)
  {
    RunInv(INITIAL, es);
    NewsTell(INITIAL, es);
    ShownIsEffect(Handle(s, e), s.pendingKind.value, s.pendingId.value);
  }

  /** The hook's documentation says a command is released only by the live change it promised. An edit
      of a question that was edited before is released at once, by the old change: */
  lemma StaleEditReleases()
    ensures var es := [Deltas(map["q" := Delta(true, "draft")]), Command(Editing, "q")];
            ValidRun(INITIAL, es) && Run(INITIAL, es).ledger.issued == 1 && Run(INITIAL, es).pendingId.None?
            && Run(INITIAL, es).ledger.resolved == 1
  {
    var e1, e2 := Deltas(map["q" := Delta(true, "draft")]), Command(Editing, "q");
    assert [e1, e2][1..] == [e2] && [e2][1..] == [];
    var s1 := Step(INITIAL, e1);
    var s2 := Step(s1, e2);
    assert ValidRun(s2, []) && Run(s2, []) == s2;
    assert ValidRun(s1, [e2]) && Run(s1, [e2]) == s2;
  }

  /** ... and exactly when the data already show the effect before the command is issued does this happen. */
  lemma ReleasedAtOnce(s: State, kind: Kind, id: string)
    requires Inv(s) && !Refused(s, kind) && id != ""
    ensures var t := Step(s, Command(kind, id));
            && (t.pendingId.None? <==> Shown(s, kind, id))
            && (t.pendingId.Some? ==>
                  && t.pendingId == Some(id) && t.pendingKind == Some(kind) && id !in t.problems
                  && t.ceiling == Some(Timer(id, s.now + T_CMD_RESOLVE)))
  {
  }

  /** A rejection that arrives after its own command has timed out releases the next command, which
      then has neither an effect nor a problem to show. */
  lemma LateRejectionReleasesNewer(message: string)
    ensures var es := [Command(Editing, "a"), Elapse(T_CMD_RESOLVE), Fire, Command(Editing, "b")];
            && ValidRun(INITIAL, es)
            && var s := Run(INITIAL, es); var t := Step(s, Rejection("a", message));
               && s.pendingId == Some("b")
               && t.pendingId.None? && t.ceiling.None? && "b" !in t.problems && !Shown(t, Editing, "b")
               && "a" in t.problems && t.problems["a"] == message
  {
    var a, b, c, d := Command(Editing, "a"), Elapse(T_CMD_RESOLVE), Fire, Command(Editing, "b");
    assert [a, b, c, d][1..] == [b, c, d] && [b, c, d][1..] == [c, d] && [c, d][1..] == [d] && [d][1..] == [];
    var s1 := Step(INITIAL, a);
    var s2 := Step(s1, b);
    var s3 := Step(s2, c);
    var s4 := Step(s3, d);
    assert ValidRun(s4, []) && Run(s4, []) == s4;
    assert ValidRun(s3, [d]) && Run(s3, [d]) == s4;
    assert ValidRun(s2, [c, d]) && Run(s2, [c, d]) == s4;
    assert ValidRun(s1, [b, c, d]) && Run(s1, [b, c, d]) == s4;
  }

  /** The hook: handlers and effects that change its fields. */
  class Hook {
    var pendingId: Option<string>
    var pendingKind: Option<Kind>
    var problemByQuestionId: map<string, string>
    var ceiling: Option<Timer>
    var rows: map<string, string>
    var deltas: map<string, Delta>
    var quizLoading: bool
    var quizOpen: bool
    var now: nat
    ghost var ledger: Ledger

    ghost function Contents(): State
      reads this
    {
      State(pendingId, pendingKind, problemByQuestionId, ceiling, rows, deltas, quizLoading, quizOpen, now, ledger)
    }

    constructor ()
      ensures Contents() == INITIAL
    {
      pendingId, pendingKind, problemByQuestionId, ceiling := None, None, map[], None;
      rows, deltas, quizLoading, quizOpen, now := map[], map[], true, false, 0;
      ledger := Ledger(0, 0, 0, 0, 0, 0);
    }

    /** The list on each render: snapshot rows, the live changes over them, and no discarded question. */
    method Questions() returns (states: map<string, string>)
      ensures forall id :: id in states <==>
                if id in deltas then deltas[id].state != "discarded" else id in rows && rows[id] != "discarded"
      ensures forall id :: id in states ==>
              (id in deltas || id in rows)
              && states[id] == if id in deltas then deltas[id].state else rows[id]
    {
      var merged := rows;
      var todo := deltas.Keys;
      while todo != {}
        invariant todo <= deltas.Keys && merged.Keys == rows.Keys + (deltas.Keys - todo)
        invariant forall id :: id in merged ==>
                  merged[id] == if id in deltas && id !in todo then deltas[id].state else rows[id]
        decreases todo
      {
        var id :| id in todo;
        merged := merged[id := deltas[id].state];
        todo := todo - {id};
      }
      states := map id | id in merged && merged[id] != "discarded" :: merged[id];
    }

    method ClearPending()
      modifies this
      ensures Contents() == Idle(old(Contents()))
    {
      ceiling := None;
      pendingId := None;
      pendingKind := None;
    }

    method ResolveEffect()
      modifies this
      ensures Contents() == Settle(old(Contents()))
      ensures old(pendingId).Some? && old(pendingId).value != "" && old(pendingKind).Some? ==>
                if EffectIn(rows, deltas, old(pendingKind).value, old(pendingId).value)
                then pendingId.None? && pendingKind.None? && ceiling.None?
                else pendingId == old(pendingId) && pendingKind == old(pendingKind) && ceiling == old(ceiling)
      ensures problemByQuestionId == old(problemByQuestionId)
    {
      if pendingId.None? || pendingId.value == "" || pendingKind.None? {
        return;
      }
      var id := pendingId.value;
      var done := match pendingKind.value
        case Editing => id in deltas && deltas[id].edited
        case Sending => id in deltas && deltas[id].state == "sent"
        case Discarding =>
          !(if id in deltas then deltas[id].state != "discarded" else id in rows && rows[id] != "discarded");
      if done {
        ClearPending();
        ledger := ledger.(resolved := ledger.resolved + 1);
      }
    }

    method IssueCommand(kind: Kind, id: string)
      modifies this
      ensures Contents() == Handle(old(Contents()), Command(kind, id))
      ensures var refused := (old(pendingId).Some? && old(pendingId).value != "")
                             || (kind == Sending && !quizLoading && !quizOpen);
              if refused then Contents() == old(Contents())
              else
                && pendingId == Some(id) && pendingKind == Some(kind) && ceiling == Some(Timer(id, now + 10000))
                && problemByQuestionId == old(problemByQuestionId) - {id}
    {
      if pendingId.Some? && pendingId.value != "" {
        return;
      }
      if kind == Sending && !quizLoading && !quizOpen {
        return;
      }
      ledger := Issue(ledger, now, pendingId.Some?);
      pendingId := Some(id);
      pendingKind := Some(kind);
      problemByQuestionId := problemByQuestionId - {id};
      ceiling := Some(Timer(id, now + T_CMD_RESOLVE));
    }

    method Rejected(id: string, message: string)
      modifies this
      ensures Contents() == Handle(old(Contents()), Rejection(id, message))
      ensures pendingId.None? && pendingKind.None? && ceiling.None?
      ensures problemByQuestionId == old(problemByQuestionId)[id := message]
    {
      if pendingId.Some? {
        ledger := ledger.(rejected := ledger.rejected + 1);
      }
      ClearPending();
      problemByQuestionId := problemByQuestionId[id := message];
    }

    method CeilingFires()
      requires Enabled(Contents(), Fire)
      modifies this
      ensures Contents() == Handle(old(Contents()), Fire)
      ensures pendingId.None? && pendingKind.None? && ceiling.None?
      ensures problemByQuestionId ==
              old(problemByQuestionId)[old(ceiling).value.id := "This did not resolve in time."]
    {
      var id := ceiling.value.id;
      ClearPending();
      problemByQuestionId := problemByQuestionId[id := NOT_IN_TIME];
      ledger := ledger.(timedOut := ledger.timedOut + 1);
    }

    method Dispatch(e: Event)
      requires Enabled(Contents(), e)
      modifies this
      ensures Contents() == Handle(old(Contents()), e)
    {
      match e {
        case Command(kind, id) => IssueCommand(kind, id);
        case Rejection(id, message) => Rejected(id, message);
        case Rows(r) => rows := r;
        case Deltas(d) => deltas := d;
        case Quiz(loading, open) => quizLoading, quizOpen := loading, open;
        case Elapse(ms) => now := now + ms;
        case Fire => CeilingFires();
      }
    }

    /** A handler, and then the effect of the render it causes. */
    method On(e: Event)
      requires Enabled(Contents(), e)
      modifies this
      ensures Contents() == Step(old(Contents()), e)
    {
      Dispatch(e);
      ResolveEffect();
    }
  }
}
