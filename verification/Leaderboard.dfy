/** The panel's live leaderboard: tallies kept incrementally from a REST snapshot and live batches of
    answers, against scoring the whole answer log from scratch. */
module Leaderboard {
  import opened Wrappers
  import opened Decimal
  import opened QuizScoring

  /** One answer of a student, as a delta of an event carries it. */
  datatype Answer = Answer(id: string, name: string, isCorrect: bool, ms: nat)

  datatype Tally = Tally(name: string, answered: nat, correct: nat, total: nat)

  type Tallies = map<string, Tally>

  function AddAnswer(m: Tallies, a: Answer): Tallies {
    var e := if a.id in m then m[a.id] else Tally(a.name, 0, 0, 0);
    m[a.id := Tally(a.name, e.answered + 1, e.correct + (if a.isCorrect then 1 else 0), e.total + a.ms)]
  }

  function Fold(m: Tallies, log: seq<Answer>): Tallies {
    if log == [] then m else AddAnswer(Fold(m, log[..|log| - 1]), log[|log| - 1])
  }

  function TallyLog(log: seq<Answer>): Tallies {
    Fold(map[], log)
  }

  // ---- what a tally means

  function OfStudent(log: seq<Answer>, id: string): seq<Answer> {
    if log == [] then []
    else OfStudent(log[..|log| - 1], id) + if log[|log| - 1].id == id then [log[|log| - 1]] else []
  }

  function CountCorrect(log: seq<Answer>): nat {
    if log == [] then 0 else CountCorrect(log[..|log| - 1]) + if log[|log| - 1].isCorrect then 1 else 0
  }

  function SumMs(log: seq<Answer>): nat {
    if log == [] then 0 else SumMs(log[..|log| - 1]) + log[|log| - 1].ms
  }

  /** A student is in the tallies when some answer is his; the tally counts his answers, his correct
      ones and his milliseconds, and has the name of his last answer. */
  lemma {:induction false} TallyMeaning(log: seq<Answer>, id: string)
    ensures id in TallyLog(log) <==> OfStudent(log, id) != []
    ensures id in TallyLog(log) ==>
              var his := OfStudent(log, id);
              TallyLog(log)[id] == Tally(his[|his| - 1].name, |his|, CountCorrect(his), SumMs(his))
    decreases |log|
  {
    if log != [] {
      var init, x := log[..|log| - 1], log[|log| - 1];
      TallyMeaning(init, id);
      var his := OfStudent(init, id);
      assert (his + [x])[..|his|] == his;
      assert his + [] == his;
    }
  }

  // ---- boards

  function PointSet(m: Tallies): set<nat> {
    set id | id in m :: m[id].correct * 10
  }

  function RankIn(m: Tallies, points: nat): nat {
    1 + |set q | q in PointSet(m) && q > points|
  }

  function Entry(m: Tallies, id: string): Scored
    requires id in m
  {
    var t := m[id];
    Scored(id, t.name, t.answered, t.correct, t.total,
           t.correct * 10, Accuracy(t.correct, t.answered), Average(t.total, t.answered), RankIn(m, t.correct * 10))
  }

  /** The board of some tallies: one entry for each student, in order of points and then id, each
      computed from his tally, with the rank in closed form. */
  ghost predicate IsBoard(le: Collation, board: seq<Scored>, m: Tallies) {
    && (forall i :: 0 <= i < |board| ==> board[i].id in m && board[i] == Entry(m, board[i].id))
    && (forall id :: id in m ==> Listed(board, id))
    && DistinctIds(board)
    && SortedRows(le, board)
  }

  ghost predicate Listed(board: seq<Scored>, id: string) {
    exists i :: 0 <= i < |board| && board[i].id == id
  }

  /** Rows that list each tally once, in any order: the entries of a JavaScript Map or object. */
  ghost predicate Enumerates(inputs: seq<ScoreInput>, m: Tallies) {
    && (forall i, j :: 0 <= i < j < |inputs| ==> inputs[i].id != inputs[j].id)
    && (forall i :: 0 <= i < |inputs| ==> inputs[i].id in m && inputs[i] == InputOf(inputs[i].id, m[inputs[i].id]))
    && (forall id :: id in m ==> exists i :: 0 <= i < |inputs| && inputs[i].id == id)
  }

  function InputOf(id: string, t: Tally): ScoreInput {
    ScoreInput(id, t.name, t.answered, t.correct, t.total)
  }

  lemma SortedEnumeration(le: Collation, inputs: seq<ScoreInput>, m: Tallies)
    requires TotalOrder(le) && Enumerates(inputs, m)
    ensures var rows := Sort(le, Prepared(inputs));
            && SortedRows(le, rows) && DistinctIds(rows)
            && (forall i :: 0 <= i < |rows| ==>
                 rows[i].id in m && rows[i] == Unranked(InputOf(rows[i].id, m[rows[i].id])))
            && (forall id :: id in m ==> Listed(rows, id))
  {
    var rows := Sort(le, Prepared(inputs));
    SortedDistinct(le, inputs);
    forall i | 0 <= i < |rows| ensures rows[i].id in m && rows[i] == Unranked(InputOf(rows[i].id, m[rows[i].id])) {
      assert rows[i] in Prepared(inputs);
      var k :| 0 <= k < |inputs| && Prepared(inputs)[k] == rows[i];
      assert inputs[k].id == rows[i].id;
    }
    forall id | id in m ensures Listed(rows, id) {
      var k :| 0 <= k < |inputs| && inputs[k].id == id;
      assert Prepared(inputs)[k] in rows;
      var i :| 0 <= i < |rows| && rows[i] == Prepared(inputs)[k];
      assert rows[i].id == id;
    }
  }

  lemma RanksAgree(rows: seq<Scored>, m: Tallies, p: nat)
    requires forall i :: 0 <= i < |rows| ==> rows[i].id in m && rows[i].points == m[rows[i].id].correct * 10
    requires forall id :: id in m ==> Listed(rows, id)
    ensures DenseRank(rows, p) == RankIn(m, p)
  {
    var a, b := LargerPoints(rows, p), set q | q in PointSet(m) && q > p;
    forall q | q in a ensures q in b {
      var i :| 0 <= i < |rows| && rows[i].points == q;
      assert rows[i].id in m;
    }
    forall q | q in b ensures q in a {
      var id :| id in m && m[id].correct * 10 == q;
      assert Listed(rows, id);
      var i :| 0 <= i < |rows| && rows[i].id == id;
      assert rows[i].points == q;
    }
    assert a == b;
  }

  /** Whatever the order in which the tallies are listed, scoring them gives the board. */
  lemma ScoringGivesBoard(le: Collation, inputs: seq<ScoreInput>, m: Tallies)
    requires TotalOrder(le) && Enumerates(inputs, m)
    ensures IsBoard(le, Scoreboard(le, inputs), m)
  {
    SortedEnumeration(le, inputs, m);
    RankedIsBoard(le, Sort(le, Prepared(inputs)), m);
  }

  lemma RankedIds(rows: seq<Scored>)
    ensures |Ranked(rows)| == |rows| && forall i :: 0 <= i < |rows| ==> Ranked(rows)[i].id == rows[i].id
  {
  }

  lemma RankedIsBoard(le: Collation, rows: seq<Scored>, m: Tallies)
    requires SortedRows(le, rows) && DistinctIds(rows)
    requires forall i :: 0 <= i < |rows| ==> rows[i].id in m && rows[i] == Unranked(InputOf(rows[i].id, m[rows[i].id]))
    requires forall id :: id in m ==> Listed(rows, id)
    ensures IsBoard(le, Ranked(rows), m)
  {
    var board := Ranked(rows);
    RankedIds(rows);
    RankedKeepsRows(le, rows);
    RankedEntries(rows, m);
    forall i | 0 <= i < |board| ensures board[i].id in m && board[i] == Entry(m, board[i].id) {
      assert rows[i].id in m;
    }
  }

  lemma RankedEntries(rows: seq<Scored>, m: Tallies)
    requires forall i :: 0 <= i < |rows| ==> rows[i].id in m && rows[i] == Unranked(InputOf(rows[i].id, m[rows[i].id]))
    requires forall id :: id in m ==> Listed(rows, id)
    ensures forall i :: 0 <= i < |rows| ==> Ranked(rows)[i] == Entry(m, rows[i].id)
    ensures forall id :: id in m ==> Listed(Ranked(rows), id)
  {
    forall i | 0 <= i < |rows| ensures Ranked(rows)[i] == Entry(m, rows[i].id) {
      RanksAgree(rows, m, rows[i].points);
    }
    forall id | id in m ensures Listed(Ranked(rows), id) {
      assert Listed(rows, id);
      var i :| 0 <= i < |rows| && rows[i].id == id;
      assert Ranked(rows)[i].id == id;
    }
  }

  /** Every row of a board is scored from the tally of its student. */
  lemma BoardRowsAreScored(le: Collation, board: seq<Scored>, m: Tallies, k: nat)
    requires IsBoard(le, board, m) && k < |board|
    ensures IsScored(board[k])
    ensures board[k].id in m
    ensures var row := board[k];
            ScoreInput(row.id, row.name, row.answered, row.correct, row.total) == InputOf(row.id, m[row.id])
  {
    var row := InputOf(board[k].id, m[board[k].id]);
    assert board[k] == Entry(m, board[k].id) == Unranked(row).(rank := board[k].rank);
    RowsAreScored(row, board[k].rank);
  }

  /** Tallies that agree in everything but the response times. */
  ghost predicate SameButTimes(m: Tallies, w: Tallies) {
    && m.Keys == w.Keys
    && forall id :: id in m ==>
         m[id].name == w[id].name && m[id].answered == w[id].answered && m[id].correct == w[id].correct
  }

  lemma SamePointSet(m: Tallies, w: Tallies)
    requires SameButTimes(m, w)
    ensures PointSet(m) == PointSet(w)
  {
    forall id | id in m ensures id in w && m[id].correct * 10 == w[id].correct * 10 {
    }
  }

  ghost function IdsOf(board: seq<Scored>): seq<string> {
    seq(|board|, i requires 0 <= i < |board| => board[i].id)
  }

  ghost predicate Leads(le: Collation, m: Tallies, a: string, b: string) {
    a in m && b in m && (m[a].correct > m[b].correct || (m[a].correct == m[b].correct && le(a, b)))
  }

  ghost predicate InOrder(le: Collation, m: Tallies, ids: seq<string>) {
    forall i, j :: 0 <= i < j < |ids| ==> Leads(le, m, ids[i], ids[j])
  }

  lemma SameLeader(le: Collation, m: Tallies, a: seq<string>, b: seq<string>)
    requires TotalOrder(le) && InOrder(le, m, a) && InOrder(le, m, b)
    requires a != [] && b != [] && a[0] in b && b[0] in a
    ensures a[0] == b[0]
  {
    var i :| 0 <= i < |b| && b[i] == a[0];
    var j :| 0 <= j < |a| && a[j] == b[0];
    assert i > 0 ==> Leads(le, m, b[0], b[i]);
    assert j > 0 ==> Leads(le, m, a[0], a[j]);
  }

  lemma {:induction false} OrderUnique(le: Collation, m: Tallies, a: seq<string>, b: seq<string>)
    requires TotalOrder(le) && InOrder(le, m, a) && InOrder(le, m, b) && NoRepeats(a) && NoRepeats(b)
    requires forall id :: id in a <==> id in b
    ensures a == b
    decreases |a|
  {
    assert |a| > 0 ==> a[0] in b;
    assert |b| > 0 ==> b[0] in a;
    if a != [] {
      SameLeader(le, m, a, b);
      assert a == [a[0]] + a[1..] && b == [b[0]] + b[1..];
      forall id ensures id in a[1..] <==> id in b[1..] {
        TailHas(a, id);
        TailHas(b, id);
      }
      OrderUnique(le, m, a[1..], b[1..]);
    }
  }

  lemma TailHas(a: seq<string>, id: string)
    requires NoRepeats(a) && a != []
    ensures id in a[1..] <==> id in a && id != a[0]
  {
    if id in a[1..] {
      var k :| 0 <= k < |a[1..]| && a[1..][k] == id;
      assert a[k + 1] == id;
    }
  }

  lemma BoardOrder(le: Collation, board: seq<Scored>, m: Tallies)
    requires IsBoard(le, board, m)
    ensures InOrder(le, m, IdsOf(board)) && NoRepeats(IdsOf(board)) && forall id :: id in IdsOf(board) <==> id in m
  {
    var ids := IdsOf(board);
    forall i, j | 0 <= i < j < |ids| ensures Leads(le, m, ids[i], ids[j]) && ids[i] != ids[j] {
      assert Before(le, board[i], board[j]) && board[i].id != board[j].id;
    }
    forall id | id in m ensures id in ids {
      assert Listed(board, id);
      var i :| 0 <= i < |board| && board[i].id == id;
      assert ids[i] == id;
    }
  }

  /** Two boards agree on everything but the averages: same students in the same order with the same
      names, counts, points, accuracies and ranks. */
  ghost predicate AgreeButTimes(a: seq<Scored>, b: seq<Scored>) {
    && |a| == |b|
    && forall i :: 0 <= i < |a| ==> b[i] == a[i].(total := b[i].total, avgResponseMs := b[i].avgResponseMs)
  }

  /** That is so exactly when their tallies differ in the response times only. */
  lemma BoardsAgree(le: Collation, a: seq<Scored>, m: Tallies, b: seq<Scored>, w: Tallies)
    requires TotalOrder(le) && IsBoard(le, a, m) && IsBoard(le, b, w)
    ensures AgreeButTimes(a, b) <==> SameButTimes(m, w)
  {
    if AgreeButTimes(a, b) {
      AgreedTallies(le, a, m, b, w);
    }
    if SameButTimes(m, w) {
      SameTalliesAgree(le, a, m, b, w);
    }
  }

  lemma RowOfBoard(le: Collation, board: seq<Scored>, m: Tallies, id: string)
    requires IsBoard(le, board, m) && id in m
    ensures exists i :: 0 <= i < |board| && HasTally(board[i], id, m[id])
  {
    assert Listed(board, id);
    var i :| 0 <= i < |board| && board[i].id == id;
    assert board[i] == Entry(m, id);
    assert HasTally(board[i], id, m[id]);
  }

  predicate HasTally(row: Scored, id: string, t: Tally) {
    row.id == id && row.name == t.name && row.answered == t.answered && row.correct == t.correct
  }

  lemma TallyOfRow(le: Collation, board: seq<Scored>, m: Tallies, i: nat)
    requires IsBoard(le, board, m) && i < |board|
    ensures board[i].id in m && HasTally(board[i], board[i].id, m[board[i].id])
  {
  }

  lemma AgreedTallies(le: Collation, a: seq<Scored>, m: Tallies, b: seq<Scored>, w: Tallies)
    requires IsBoard(le, a, m) && IsBoard(le, b, w) && AgreeButTimes(a, b)
    ensures SameButTimes(m, w)
  {
    forall id | id in m
      ensures id in w && m[id].name == w[id].name && m[id].answered == w[id].answered && m[id].correct == w[id].correct
    {
      RowOfBoard(le, a, m, id);
      var i :| 0 <= i < |a| && HasTally(a[i], id, m[id]);
      TallyOfRow(le, b, w, i);
    }
    forall id | id in w ensures id in m {
      RowOfBoard(le, b, w, id);
      var i :| 0 <= i < |b| && HasTally(b[i], id, w[id]);
      TallyOfRow(le, a, m, i);
    }
  }

  lemma SameTalliesAgree(le: Collation, a: seq<Scored>, m: Tallies, b: seq<Scored>, w: Tallies)
    requires TotalOrder(le) && IsBoard(le, a, m) && IsBoard(le, b, w) && SameButTimes(m, w)
    ensures AgreeButTimes(a, b)
  {
    BoardOrder(le, a, m);
    BoardOrder(le, b, w);
    SamePointSet(m, w);
    assert InOrder(le, m, IdsOf(b)) by {
      forall i, j | 0 <= i < j < |IdsOf(b)| ensures Leads(le, m, IdsOf(b)[i], IdsOf(b)[j]) {
        assert Leads(le, w, IdsOf(b)[i], IdsOf(b)[j]);
      }
    }
    OrderUnique(le, m, IdsOf(a), IdsOf(b));
    assert |a| == |IdsOf(a)| == |IdsOf(b)| == |b|;
    forall i | 0 <= i < |a| ensures b[i] == a[i].(total := b[i].total, avgResponseMs := b[i].avgResponseMs) {
      assert IdsOf(a)[i] == IdsOf(b)[i];
      assert a[i] == Entry(m, a[i].id) && b[i] == Entry(w, b[i].id);
    }
  }

  /** There is only one board for given tallies: the list does not depend on any listing order. */
  lemma BoardUnique(le: Collation, a: seq<Scored>, b: seq<Scored>, m: Tallies)
    requires TotalOrder(le) && IsBoard(le, a, m) && IsBoard(le, b, m)
    ensures a == b
  {
    BoardsAgree(le, a, m, b, m);
    forall i | 0 <= i < |a| ensures a[i] == b[i] {
      assert a[i].id == b[i].id;
    }
  }

  /** Lists tallies in an order the caller cannot foresee. */
  method ListTallies(m: Tallies) returns (inputs: seq<ScoreInput>)
    ensures Enumerates(inputs, m)
  {
    inputs := [];
    var todo := m.Keys;
    while todo != {}
      invariant todo <= m.Keys
      invariant forall i :: 0 <= i < |inputs| ==>
                inputs[i].id in m && inputs[i].id !in todo && inputs[i] == InputOf(inputs[i].id, m[inputs[i].id])
      invariant forall i, j :: 0 <= i < j < |inputs| ==> inputs[i].id != inputs[j].id
      invariant forall id :: id in m && id !in todo ==> exists i :: 0 <= i < |inputs| && inputs[i].id == id
      decreases todo
    {
      var id :| id in todo;
      ghost var before, n := inputs, |inputs|;
      inputs := inputs + [InputOf(id, m[id])];
      todo := todo - {id};
      assert inputs[n].id == id;
      forall x | x in m && x !in todo ensures exists i :: 0 <= i < |inputs| && inputs[i].id == x {
        if x != id {
          var i :| 0 <= i < |before| && before[i].id == x;
          assert inputs[i].id == x;
        }
      }
    }
  }

  // ---- the hook

  datatype ResponsesEvent = ResponsesEvent(publicationId: string, syncedAt: string, deltas: seq<Answer>, stale: bool)

  /** The string by which a redelivered event is recognized. */
  function Key(e: ResponsesEvent): string {
    e.publicationId + ":" + e.syncedAt + ":" + Print(|e.deltas|)
  }

  datatype Hook = Hook(live: Tallies, isLive: bool, wsStale: Option<bool>, last: Option<string>)

  const FRESH := Hook(map[], false, None, None)

  function Observe(s: Hook, e: ResponsesEvent): Hook {
    if s.last == Some(Key(e)) then s
    else
      var t := s.(last := Some(Key(e)), wsStale := Some(e.stale));
      if e.deltas == [] then t else t.(isLive := true, live := Fold(s.live, e.deltas))
  }

  function ObserveAll(s: Hook, es: seq<ResponsesEvent>): Hook {
    if es == [] then s else Observe(ObserveAll(s, es[..|es| - 1]), es[|es| - 1])
  }

  function SnapshotTallies(rows: seq<Scored>): Tallies {
    if rows == [] then map[]
    else
      var row := rows[|rows| - 1];
      SnapshotTallies(rows[..|rows| - 1])[row.id :=
        Tally(row.name, row.answered, row.correct, row.avgResponseMs * row.answered)]
  }

  function Combined(base: Tallies, live: Tallies, id: string): Tally
    requires id in base || id in live
  {
    if id !in live then base[id]
    else
      var e := if id in base then base[id] else Tally(live[id].name, 0, 0, 0);
      Tally(live[id].name, e.answered + live[id].answered, e.correct + live[id].correct, e.total + live[id].total)
  }

  function Combine(base: Tallies, live: Tallies): Tallies {
    map id | id in base.Keys + live.Keys :: Combined(base, live, id)
  }

  class LeaderboardHook {
    var liveDeltas: Tallies
    var live: bool
    var wsStale: Option<bool>
    var lastProcessed: Option<string>

    ghost function Contents(): Hook
      reads this
    {
      Hook(liveDeltas, live, wsStale, lastProcessed)
    }

    constructor ()
      ensures Contents() == FRESH
    {
      liveDeltas, live, wsStale, lastProcessed := map[], false, None, None;
    }

    /** The effect that runs when a `quiz.responses` event has arrived. */
    method OnResponses(e: ResponsesEvent)
      modifies this
      ensures Contents() == Observe(old(Contents()), e)
      ensures old(lastProcessed) == Some(Key(e)) ==> Contents() == old(Contents())
      ensures old(lastProcessed) != Some(Key(e)) ==>
                && lastProcessed == Some(Key(e)) && wsStale == Some(e.stale)
                && live == (old(live) || e.deltas != []) && liveDeltas == Fold(old(liveDeltas), e.deltas)
    {
      var key := Key(e);
      if lastProcessed == Some(key) {
        return;
      }
      lastProcessed := Some(key);
      wsStale := Some(e.stale);
      if |e.deltas| == 0 {
        return;
      }
      live := true;
      liveDeltas := FoldDeltas(liveDeltas, e.deltas);
    }

    static method FoldDeltas(prev: Tallies, deltas: seq<Answer>) returns (next: Tallies)
      ensures next == Fold(prev, deltas)
    {
      next := prev;
      for i := 0 to |deltas|
        invariant next == Fold(prev, deltas[..i])
      {
        assert deltas[..i + 1][..i] == deltas[..i];
        var delta := deltas[i];
        var existing := if delta.id in next then next[delta.id] else Tally(delta.name, 0, 0, 0);
        next := next[delta.id := Tally(delta.name, existing.answered + 1,
                                       existing.correct + (if delta.isCorrect then 1 else 0),
                                       existing.total + delta.ms)];
      }
      assert deltas[..|deltas|] == deltas;
    }

    /** The list computed on each render from the snapshot rows and the live tallies. */
    method Entries(le: Collation, snapshot: seq<Scored>) returns (entries: seq<Scored>)
      requires TotalOrder(le)
      ensures IsBoard(le, entries, Combine(SnapshotTallies(snapshot), liveDeltas))
    {
      var base := SeedTallies(snapshot);
      var merged := MergeTallies(base, liveDeltas);
      var inputs := ListTallies(merged);
      entries := ScoreParticipants(le, inputs);
      ScoringGivesBoard(le, inputs, merged);
    }

    static method SeedTallies(snapshot: seq<Scored>) returns (merged: Tallies)
      ensures merged == SnapshotTallies(snapshot)
    {
      merged := map[];
      for i := 0 to |snapshot|
        invariant merged == SnapshotTallies(snapshot[..i])
      {
        assert snapshot[..i + 1][..i] == snapshot[..i];
        var row := snapshot[i];
        merged := merged[row.id := Tally(row.name, row.answered, row.correct, row.avgResponseMs * row.answered)];
      }
      assert snapshot[..|snapshot|] == snapshot;
    }

    static method MergeTallies(base: Tallies, live: Tallies) returns (merged: Tallies)
      ensures merged == Combine(base, live)
    {
      merged := base;
      var todo := live.Keys;
      while todo != {}
        invariant todo <= live.Keys
        invariant merged.Keys == base.Keys + (live.Keys - todo)
        invariant forall id :: id in merged ==> merged[id] == if id in todo then base[id] else Combined(base, live, id)
        decreases todo
      {
        var id :| id in todo;
        var delta := live[id];
        var existing := if id in merged then merged[id] else Tally(delta.name, 0, 0, 0);
        merged := merged[id := Tally(delta.name, existing.answered + delta.answered,
                                     existing.correct + delta.correct, existing.total + delta.total)];
        todo := todo - {id};
      }
    }
  }
}
