/** The live leaderboard against the server's rows: when the list on show is the list the server computes. */
module LiveLeaderboard {
  import opened Wrappers
  import opened Decimal
  import opened QuizScoring
  import opened Leaderboard
  import opened AnswerProjections
  import opened LeaderboardLaws

  // ---- records of a student

  /** How the average a tally shows may differ from the exact one. */
  predicate Close(shown: Tally, exact: Tally, same: bool) {
    var x, y := Average(shown.total, shown.answered), Average(exact.total, exact.answered);
    y - 1 <= x <= y + 1 && (same ==> x == y)
  }

  lemma CombinedTally(base: Tallies, p: Tallies, s: Tallies, prefix: seq<Answer>, suffix: seq<Answer>, id: string)
    requires p == TallyLog(prefix) && s == TallyLog(suffix) && (id in p || id in s)
    requires id in base <==> id in p
    requires id in p ==>
              var t := p[id];
              base[id] == Tally(t.name, t.answered, t.correct, Average(t.total, t.answered) * t.answered)
    ensures var shown, exact := Combined(base, s, id), Combined(p, s, id);
            && shown == exact.(total := shown.total)
            && Close(shown, exact, OfStudent(prefix, id) == [] || OfStudent(suffix, id) == [])
  {
    TallyMeaning(prefix, id);
    TallyMeaning(suffix, id);
    var n, t := if id in p then p[id].answered else 0, if id in p then p[id].total else 0;
    var k, l := if id in s then s[id].answered else 0, if id in s then s[id].total else 0;
    RebuiltAverage(t, n, l, k);
    var shown, exact := Combined(base, s, id), Combined(p, s, id);
    assert exact.total == t + l && exact.answered == n + k;
    assert Average(t, n) * n == 0 || id in p;
    assert shown.total == Average(t, n) * n + l;
  }

  lemma CombinedTimes(le: Collation, snapshot: seq<Scored>, seen: seq<Answer>, live: seq<Answer>)
    requires IsBoard(le, snapshot, TallyLog(seen))
    ensures var view := Combine(SnapshotTallies(snapshot), TallyLog(live)); var exact := TallyLog(seen + live);
            && SameButTimes(view, exact)
            && forall id :: id in exact ==>
                 Close(view[id], exact[id], OfStudent(seen, id) == [] || OfStudent(live, id) == [])
  {
    var p, s, base := TallyLog(seen), TallyLog(live), SnapshotTallies(snapshot);
    SnapshotOfBoard(le, snapshot, p);
    FoldAppend(map[], seen, live);
    FoldIsCombine(p, live);
    var view, exact := Combine(base, s), Combine(p, s);
    assert view.Keys == exact.Keys;
    forall id | id in exact
      ensures view[id] == exact[id].(total := view[id].total)
      ensures Close(view[id], exact[id], OfStudent(seen, id) == [] || OfStudent(live, id) == [])
    {
      CombinedTally(base, p, s, seen, live, id);
    }
  }

  datatype Marks = Marks(answered: nat, correct: nat, ms: nat)

  function Plus(a: Marks, b: Marks): Marks {
    Marks(a.answered + b.answered, a.correct + b.correct, a.ms + b.ms)
  }

  lemma PlusSwaps(a: Marks, b: Marks, c: Marks)
    ensures Plus(Plus(a, b), c) == Plus(Plus(a, c), b)
  {
  }

  lemma PlusAssoc(a: Marks, b: Marks, c: Marks)
    ensures Plus(Plus(a, b), c) == Plus(a, Plus(b, c))
  {
  }

  /** How many answers a student has in a log, how many right ones, and how long they took. */
  function MarksOf(log: seq<Answer>, id: string): Marks {
    if log == [] then Marks(0, 0, 0)
    else
      var x := log[|log| - 1];
      Plus(MarksOf(log[..|log| - 1], id),
           if x.id == id then Marks(1, if x.isCorrect then 1 else 0, x.ms) else Marks(0, 0, 0))
  }

  function LastName(log: seq<Answer>, id: string): Option<string> {
    if log == [] then None
    else if log[|log| - 1].id == id then Some(log[|log| - 1].name)
    else LastName(log[..|log| - 1], id)
  }

  lemma {:induction false} TallyMarks(log: seq<Answer>, id: string)
    ensures id in TallyLog(log) <==> LastName(log, id).Some?
    ensures id in TallyLog(log) <==> MarksOf(log, id).answered > 0
    ensures id in TallyLog(log) ==>
              var m := MarksOf(log, id);
              TallyLog(log)[id] == Tally(LastName(log, id).value, m.answered, m.correct, m.ms)
    ensures MarksOf(log, id).answered == 0 ==> MarksOf(log, id) == Marks(0, 0, 0)
    decreases |log|
  {
    if log != [] {
      TallyMarks(log[..|log| - 1], id);
    }
  }

  lemma {:induction false} MarksAppend(a: seq<Answer>, b: seq<Answer>, id: string)
    ensures MarksOf(a + b, id) == Plus(MarksOf(a, id), MarksOf(b, id))
    decreases |b|
  {
    if b == [] {
      assert a + b == a;
    } else {
      assert (a + b)[..|a + b| - 1] == a + b[..|b| - 1];
      MarksAppend(a, b[..|b| - 1], id);
    }
  }

  /** Two logs have as many answers and right answers of a student. */
  predicate SameMarks(a: seq<Answer>, b: seq<Answer>, id: string) {
    MarksOf(a, id).answered == MarksOf(b, id).answered && MarksOf(a, id).correct == MarksOf(b, id).correct
  }

  predicate SameName(a: seq<Answer>, b: seq<Answer>, id: string) {
    LastName(a, id).Some? && LastName(b, id).Some? ==> LastName(a, id) == LastName(b, id)
  }

  /** ... and end with the same name of him. */
  predicate SameRecord(a: seq<Answer>, b: seq<Answer>, id: string) {
    SameMarks(a, b, id) && SameName(a, b, id)
  }

  lemma SameRecordIs(a: seq<Answer>, b: seq<Answer>, m: Tallies, w: Tallies, id: string)
    requires m == TallyLog(a) && w == TallyLog(b)
    ensures SameRecord(a, b, id) <==>
              (id in m <==> id in w) && (id in m && id in w ==>
                 m[id].name == w[id].name && m[id].answered == w[id].answered && m[id].correct == w[id].correct)
  {
    TallyMarks(a, id);
    TallyMarks(b, id);
  }

  ghost predicate SameRecords(a: seq<Answer>, b: seq<Answer>) {
    forall id :: SameRecord(a, b, id)
  }

  lemma RecordsAreTallies(a: seq<Answer>, b: seq<Answer>)
    ensures SameButTimes(TallyLog(a), TallyLog(b)) <==> SameRecords(a, b)
  {
    var m, w := TallyLog(a), TallyLog(b);
    if SameRecords(a, b) {
      forall id ensures id in m.Keys <==> id in w.Keys {
        assert SameRecord(a, b, id);
        SameRecordIs(a, b, m, w, id);
      }
      assert m.Keys == w.Keys;
      forall id | id in m
        ensures m[id].name == w[id].name && m[id].answered == w[id].answered && m[id].correct == w[id].correct
      {
        assert SameRecord(a, b, id);
        SameRecordIs(a, b, m, w, id);
      }
    }
    if SameButTimes(m, w) {
      forall id ensures SameRecord(a, b, id) {
        assert id in m.Keys <==> id in w.Keys;
        SameRecordIs(a, b, m, w, id);
      }
    }
  }

  lemma SameTransitive(v: Tallies, m: Tallies, w: Tallies)
    requires SameButTimes(v, m)
    ensures SameButTimes(v, w) <==> SameButTimes(m, w)
  {
  }

  /** The live list for any delivery whatsoever, with repetitions and losses in any order. The snapshot was
      scored from the rows `seen`, the whole board from the rows `listed`. Both agree, in everything but
      times, exactly when for every student the rows seen and the answers folded make the same record
      as the rows listed. */
  lemma AnyDelivery(le: Collation, seen: seq<Answer>, delivered: seq<ResponsesEvent>, listed: seq<Answer>,
                    snapshot: seq<Scored>, view: seq<Scored>, whole: seq<Scored>)
    requires TotalOrder(le) && IsBoard(le, snapshot, TallyLog(seen))
    requires IsBoard(le, view, Combine(SnapshotTallies(snapshot), ObserveAll(FRESH, delivered).live))
    requires IsBoard(le, whole, TallyLog(listed))
    ensures AgreeButTimes(view, whole) <==> SameRecords(seen + Kept(delivered), listed)
  {
    HookTallies(delivered);
    CombinedTimes(le, snapshot, seen, Kept(delivered));
    var v := Combine(SnapshotTallies(snapshot), TallyLog(Kept(delivered)));
    BoardsAgree(le, view, v, whole, TallyLog(listed));
    SameTransitive(v, TallyLog(seen + Kept(delivered)), TallyLog(listed));
    RecordsAreTallies(seen + Kept(delivered), listed);
  }

  /** The average on show is the exact one or next to it; it is exact for a student whose answers are
      all in the snapshot or all live. */
  ghost predicate AveragesClose(view: seq<Scored>, whole: seq<Scored>, seen: seq<Answer>, live: seq<Answer>)
    requires |view| == |whole|
  {
    forall i :: 0 <= i < |view| ==>
      && whole[i].avgResponseMs - 1 <= view[i].avgResponseMs <= whole[i].avgResponseMs + 1
      && (OfStudent(seen, view[i].id) == [] || OfStudent(live, view[i].id) == [] ==>
            view[i].avgResponseMs == whole[i].avgResponseMs)
  }

  lemma AgreedAverages(le: Collation, seen: seq<Answer>, live: seq<Answer>, listed: seq<Answer>,
                       snapshot: seq<Scored>, view: seq<Scored>, whole: seq<Scored>)
    requires IsBoard(le, snapshot, TallyLog(seen)) && IsBoard(le, whole, TallyLog(listed))
    requires IsBoard(le, view, Combine(SnapshotTallies(snapshot), TallyLog(live)))
    requires AgreeButTimes(view, whole) && forall id :: MarksOf(seen + live, id) == MarksOf(listed, id)
    ensures AveragesClose(view, whole, seen, live)
  {
    CombinedTimes(le, snapshot, seen, live);
    var v, exact, w := Combine(SnapshotTallies(snapshot), TallyLog(live)), TallyLog(seen + live), TallyLog(listed);
    forall i | 0 <= i < |view|
      ensures whole[i].avgResponseMs - 1 <= view[i].avgResponseMs <= whole[i].avgResponseMs + 1
      ensures OfStudent(seen, view[i].id) == [] || OfStudent(live, view[i].id) == [] ==>
                view[i].avgResponseMs == whole[i].avgResponseMs
    {
      var id := view[i].id;
      assert whole[i].id == id;
      AverageOfRow(le, view, v, i);
      AverageOfRow(le, whole, w, i);
      TallyMarks(seen + live, id);
      TallyMarks(listed, id);
      assert MarksOf(seen + live, id) == MarksOf(listed, id);
    }
  }

  lemma AverageOfRow(le: Collation, board: seq<Scored>, m: Tallies, i: nat)
    requires IsBoard(le, board, m) && i < |board|
    ensures board[i].id in m && board[i].avgResponseMs == Average(m[board[i].id].total, m[board[i].id].answered)
  {
  }

  // ---- lost and replaced answers

  /** The answers of shadowed batches. */
  function Lost(batches: seq<ResponsesEvent>): seq<Answer> {
    if batches == [] then []
    else Lost(batches[..|batches| - 1])
         + if Shadowed(batches, |batches| - 1) then batches[|batches| - 1].deltas else []
  }

  function Old(t: Table, s: Submission): seq<Answer> {
    if KeyOf(s) in t then [t[KeyOf(s)]] else []
  }

  /** The answers in rows that submissions overwrite. */
  function Replaced(t: Table, subs: seq<Submission>): seq<Answer> {
    if subs == [] then []
    else Replaced(t, subs[..|subs| - 1]) + Old(UpsertAll(t, subs[..|subs| - 1]), subs[|subs| - 1])
  }

  /** What is submitted is folded or lost. */
  lemma {:induction false} FoldedOrLost(batches: seq<ResponsesEvent>, id: string)
    ensures MarksOf(Answers(Submitted(batches)), id) == Plus(MarksOf(Kept(batches), id), MarksOf(Lost(batches), id))
    decreases |batches|
  {
    if batches != [] {
      var init, e := batches[..|batches| - 1], batches[|batches| - 1];
      FoldedOrLost(init, id);
      AnswersOfEvent(Submitted(init), e);
      AddToEither(Answers(Submitted(init)), Kept(init), Lost(init), e.deltas, id);
      NothingMore(Kept(init));
      NothingMore(Lost(init));
    }
  }

  lemma AddToEither(all: seq<Answer>, kept: seq<Answer>, lost: seq<Answer>, more: seq<Answer>, id: string)
    requires MarksOf(all, id) == Plus(MarksOf(kept, id), MarksOf(lost, id))
    ensures MarksOf(all + more, id) == Plus(MarksOf(kept + more, id), MarksOf(lost, id))
    ensures MarksOf(all + more, id) == Plus(MarksOf(kept, id), MarksOf(lost + more, id))
  {
    MarksAppend(all, more, id);
    MarksAppend(kept, more, id);
    MarksAppend(lost, more, id);
    PlusSwaps(MarksOf(kept, id), MarksOf(lost, id), MarksOf(more, id));
    PlusAssoc(MarksOf(kept, id), MarksOf(lost, id), MarksOf(more, id));
  }

  lemma NothingMore(log: seq<Answer>)
    ensures log + [] == log
  {
  }

  lemma AnswersOfEvent(before: seq<Submission>, e: ResponsesEvent)
    ensures Answers(before + FromEvent(e)) == Answers(before) + e.deltas
  {
  }

  /** Rows whose answers are under their own student. */
  ghost predicate Keyed(t: Table) {
    forall k :: k in t ==> t[k].id == k.id
  }

  lemma MarksAround(a: seq<Answer>, x: seq<Answer>, b: seq<Answer>, id: string)
    ensures MarksOf((a + x) + b, id) == Plus(MarksOf(a + b, id), MarksOf(x, id))
  {
    MarksAppend(a + x, b, id);
    MarksAppend(a, x, id);
    MarksAppend(a, b, id);
    PlusSwaps(MarksOf(a, id), MarksOf(x, id), MarksOf(b, id));
  }

  lemma AnswersAround(rows: seq<Submission>, i: nat)
    requires i < |rows|
    ensures Answers(rows) == (Answers(rows[..i]) + [rows[i].answer]) + Answers(rows[i + 1..])
    ensures Answers(rows[..i] + rows[i + 1..]) == Answers(rows[..i]) + Answers(rows[i + 1..])
  {
  }

  lemma MarksWithout(rows: seq<Submission>, i: nat, id: string)
    requires i < |rows|
    ensures MarksOf(Answers(rows), id) ==
            Plus(MarksOf(Answers(rows[..i] + rows[i + 1..]), id), MarksOf([rows[i].answer], id))
  {
    AnswersAround(rows, i);
    MarksAround(Answers(rows[..i]), [rows[i].answer], Answers(rows[i + 1..]), id);
  }

  lemma Without(rows: seq<Submission>, t: Table, k: RowKey, id: string) returns (rest: seq<Submission>)
    requires Lists(rows, t) && k in t
    ensures Lists(rest, t - {k}) && |rest| == |rows| - 1
    ensures MarksOf(Answers(rows), id) == Plus(MarksOf(Answers(rest), id), MarksOf([t[k]], id))
  {
    assert HasKey(rows, k);
    var i :| 0 <= i < |rows| && KeyOf(rows[i]) == k;
    rest := rows[..i] + rows[i + 1..];
    RestLists(rows, t, i);
    MarksWithout(rows, i, id);
  }

  lemma RestLists(rows: seq<Submission>, t: Table, i: nat)
    requires Lists(rows, t) && i < |rows|
    ensures Lists(rows[..i] + rows[i + 1..], t - {KeyOf(rows[i])})
  {
    var rest, k := rows[..i] + rows[i + 1..], KeyOf(rows[i]);
    forall x | x in t - {k} ensures HasKey(rest, x) {
      assert HasKey(rows, x);
      var j :| 0 <= j < |rows| && KeyOf(rows[j]) == x;
      assert rest[if j < i then j else j - 1] == rows[j];
    }
    forall j | 0 <= j < |rest| ensures KeyOf(rest[j]) in t - {k} && (t - {k})[KeyOf(rest[j])] == rest[j].answer {
      assert rest[j] == rows[if j < i then j else j + 1];
    }
  }

  /** All listings of a table have the same marks. */
  lemma {:induction false} ListingsAgree(a: seq<Submission>, b: seq<Submission>, t: Table, id: string)
    requires Lists(a, t) && Lists(b, t)
    ensures MarksOf(Answers(a), id) == MarksOf(Answers(b), id)
    decreases |a|
  {
    if a == [] {
      assert |b| > 0 ==> HasKey(a, KeyOf(b[0]));
      assert b == [];
    } else {
      var k := KeyOf(a[0]);
      var c := Without(a, t, k, id);
      var d := Without(b, t, k, id);
      ListingsAgree(c, d, t - {k}, id);
    }
  }

  lemma ListsOneMore(rest: seq<Submission>, t: Table, x: Submission)
    requires KeyOf(x) in t && t[KeyOf(x)] == x.answer && Lists(rest, t - {KeyOf(x)})
    ensures Lists(rest + [x], t)
  {
    var rows := rest + [x];
    assert rows[|rest|] == x;
    forall k | k in t ensures HasKey(rows, k) {
      if k != KeyOf(x) {
        assert HasKey(rest, k);
        var i :| 0 <= i < |rest| && KeyOf(rest[i]) == k;
        assert rows[i] == rest[i];
      }
    }
  }

  /** A table can be listed. */
  lemma {:induction false} Listing(t: Table) returns (rows: seq<Submission>)
    requires Keyed(t)
    ensures Lists(rows, t)
    decreases |t|
  {
    if t == map[] {
      rows := [];
    } else {
      var k :| k in t;
      var rest := Listing(t - {k});
      var x := Submission(k.publicationId, t[k]);
      ListsOneMore(rest, t, x);
      rows := rest + [x];
    }
  }

  lemma ReplacesRow(t: Table, u: Table, k: RowKey, before: seq<Submission>, after: seq<Submission>, id: string)
    requires Lists(before, t) && Lists(after, u) && k in u && k in t
    requires u - {k} == t - {k}
    ensures Plus(MarksOf(Answers(after), id), MarksOf([t[k]], id)) ==
            Plus(MarksOf(Answers(before), id), MarksOf([u[k]], id))
  {
    var rest := Without(after, u, k, id);
    var kept := Without(before, t, k, id);
    ListingsAgree(rest, kept, t - {k}, id);
    PlusSwaps(MarksOf(Answers(rest), id), MarksOf([u[k]], id), MarksOf([t[k]], id));
  }

  lemma AddsRow(t: Table, u: Table, k: RowKey, before: seq<Submission>, after: seq<Submission>, id: string)
    requires Lists(before, t) && Lists(after, u) && k in u && k !in t
    requires u - {k} == t
    ensures MarksOf(Answers(after), id) ==
            Plus(MarksOf(Answers(before), id), MarksOf([u[k]], id))
  {
    var rest := Without(after, u, k, id);
    ListingsAgree(rest, before, t, id);
  }

  lemma UpsertMarks(t: Table, s: Submission, before: seq<Submission>, after: seq<Submission>, id: string)
    requires Lists(before, t) && Lists(after, Upsert(t, s))
    ensures Plus(MarksOf(Answers(after), id), MarksOf(Old(t, s), id)) ==
            Plus(MarksOf(Answers(before), id), MarksOf([s.answer], id))
  {
    var k, u := KeyOf(s), Upsert(t, s);
    if k in t {
      assert u - {k} == t - {k};
      ReplacesRow(t, u, k, before, after, id);
    } else {
      assert u - {k} == t;
      AddsRow(t, u, k, before, after, id);
    }
  }

  lemma {:induction false} UpsertKeepsKeyed(t: Table, subs: seq<Submission>)
    requires Keyed(t)
    ensures Keyed(UpsertAll(t, subs))
    decreases |subs|
  {
    if subs != [] {
      UpsertKeepsKeyed(t, subs[..|subs| - 1]);
    }
  }

  lemma OneMoreSubmission(t: Table, subs: seq<Submission>, x: Submission)
    ensures Answers(subs + [x]) == Answers(subs) + [x.answer]
    ensures Replaced(t, subs + [x]) == Replaced(t, subs) + Old(UpsertAll(t, subs), x)
    ensures UpsertAll(t, subs + [x]) == Upsert(UpsertAll(t, subs), x)
  {
    assert (subs + [x])[..|subs|] == subs;
  }

  /** What was in the table and what is submitted is in the table or replaced. */
  lemma {:induction false} ListedOrReplaced(t: Table, subs: seq<Submission>,
                                           before: seq<Submission>, after: seq<Submission>, id: string)
    requires Keyed(t) && Lists(before, t) && Lists(after, UpsertAll(t, subs))
    ensures Plus(MarksOf(Answers(after), id), MarksOf(Replaced(t, subs), id)) ==
            Plus(MarksOf(Answers(before), id), MarksOf(Answers(subs), id))
    decreases |subs|
  {
    if subs == [] {
      ListingsAgree(before, after, t, id);
      assert Answers(subs) == [] == Replaced(t, subs);
    } else {
      var init, x := subs[..|subs| - 1], subs[|subs| - 1];
      assert subs == init + [x];
      UpsertKeepsKeyed(t, init);
      var between := Listing(UpsertAll(t, init));
      ListedOrReplaced(t, init, before, between, id);
      OneMoreSubmission(t, init, x);
      MarksAppend(Answers(init), [x.answer], id);
      MarksAppend(Replaced(t, init), Old(UpsertAll(t, init), x), id);
      UpsertMarks(UpsertAll(t, init), x, between, after, id);
      PlusChain(MarksOf(Answers(after), id), MarksOf(Old(UpsertAll(t, init), x), id), MarksOf(Answers(between), id),
                MarksOf([x.answer], id), MarksOf(Replaced(t, init), id),
                MarksOf(Answers(before), id), MarksOf(Answers(init), id));
    }
  }

  lemma PlusChain(after: Marks, old0: Marks, between: Marks, x: Marks, replaced: Marks, before: Marks, init: Marks)
    requires Plus(after, old0) == Plus(between, x) && Plus(between, replaced) == Plus(before, init)
    ensures Plus(after, Plus(replaced, old0)) == Plus(before, Plus(init, x))
  {
  }

  // ---- the live list against the rows

  /** For every student the answers lost and the answers replaced balance, right ones too. */
  ghost predicate Balanced(t: Table, batches: seq<ResponsesEvent>) {
    forall id :: SameMarks(Lost(batches), Replaced(t, Submitted(batches)), id)
  }

  ghost predicate SameNames(a: seq<Answer>, b: seq<Answer>) {
    forall id :: SameName(a, b, id)
  }

  predicate NoneLost(batches: seq<ResponsesEvent>) {
    forall i :: 0 < i < |batches| && Shadowed(batches, i) ==> batches[i].deltas == []
  }

  /** No submission has the key of a row that is there already or of an earlier submission. */
  predicate NoneRepeated(t: Table, subs: seq<Submission>) {
    forall j :: 0 <= j < |subs| ==> KeyOf(subs[j]) !in t && forall i :: 0 <= i < j ==> KeyOf(subs[i]) != KeyOf(subs[j])
  }

  /** The law of the live leaderboard. Submissions `prefix` have made the rows from which the server scored
      the snapshot; then batches arrive, are upserted, and are delivered to the panel once or several
      times in a row. The list on show has the students, order, names, counts, points, accuracies and
      ranks the server now computes exactly when lost and replaced answers balance and the last names
      are the same; averages are then within a millisecond if nothing was lost or replaced. A batch that
      is in the snapshot already is part of the rows and of the batches: it replaces its own rows. */
  lemma LiveListAgrees(le: Collation, prefix: seq<Submission>, batches: seq<ResponsesEvent>, again: seq<nat>,
                       seen: seq<Submission>, listed: seq<Submission>,
                       snapshot: seq<Scored>, view: seq<Scored>, whole: seq<Scored>)
    requires TotalOrder(le) && |again| == |batches|
    requires Lists(seen, UpsertAll(map[], prefix)) && IsBoard(le, snapshot, TallyLog(Answers(seen)))
    requires IsBoard(le, view, Combine(SnapshotTallies(snapshot), ObserveAll(FRESH, Delivered(batches, again)).live))
    requires Lists(listed, UpsertAll(UpsertAll(map[], prefix), Submitted(batches)))
             && IsBoard(le, whole, TallyLog(Answers(listed)))
    ensures AgreeButTimes(view, whole) <==>
              Balanced(UpsertAll(map[], prefix), batches) && SameNames(Answers(seen) + Kept(batches), Answers(listed))
    ensures AgreeButTimes(view, whole) && NoneLost(batches)
            && NoneRepeated(UpsertAll(map[], prefix), Submitted(batches)) ==>
              AveragesClose(view, whole, Answers(seen), Kept(batches))
  {
    var t := UpsertAll(map[], prefix);
    UpsertKeepsKeyed(map[], prefix);
    RedeliveryHarmless(batches, again);
    AnyDelivery(le, Answers(seen), batches, Answers(listed), snapshot, view, whole);
    forall id {
      BalanceIs(t, batches, seen, listed, id);
    }
    RecordsBalance(t, batches, Answers(seen) + Kept(batches), Answers(listed));
    if NoneLost(batches) && NoneRepeated(t, Submitted(batches)) && AgreeButTimes(view, whole) {
      LostWhenShadowed(batches);
      ReplacedWhenRepeated(t, Submitted(batches));
      HookTallies(batches);
      AgreedAverages(le, Answers(seen), Kept(batches), Answers(listed), snapshot, view, whole);
    }
  }

  lemma RecordsBalance(t: Table, batches: seq<ResponsesEvent>, a: seq<Answer>, b: seq<Answer>)
    requires forall id :: SameMarks(a, b, id) <==> SameMarks(Lost(batches), Replaced(t, Submitted(batches)), id)
    ensures SameRecords(a, b) <==> Balanced(t, batches) && SameNames(a, b)
  {
    if SameRecords(a, b) {
      forall id ensures SameMarks(Lost(batches), Replaced(t, Submitted(batches)), id) && SameName(a, b, id) {
        assert SameRecord(a, b, id);
      }
    }
    if Balanced(t, batches) && SameNames(a, b) {
      forall id ensures SameRecord(a, b, id) {
        assert SameMarks(Lost(batches), Replaced(t, Submitted(batches)), id);
        assert SameName(a, b, id);
      }
    }
  }

  /** What the live list has of a student, less what the rows have, is what was replaced less what was lost. */
  lemma BalanceIs(t: Table, batches: seq<ResponsesEvent>, seen: seq<Submission>, listed: seq<Submission>, id: string)
    requires Keyed(t) && Lists(seen, t) && Lists(listed, UpsertAll(t, Submitted(batches)))
    ensures var a, b := Answers(seen) + Kept(batches), Answers(listed);
            var lost, replaced := Lost(batches), Replaced(t, Submitted(batches));
            && Plus(MarksOf(a, id), MarksOf(lost, id)) == Plus(MarksOf(b, id), MarksOf(replaced, id))
            && (SameMarks(a, b, id) <==> SameMarks(lost, replaced, id))
            && (lost == [] && replaced == [] ==> MarksOf(a, id) == MarksOf(b, id))
  {
    MarksAppend(Answers(seen), Kept(batches), id);
    FoldedOrLost(batches, id);
    ListedOrReplaced(t, Submitted(batches), seen, listed, id);
    var kept, lost, replaced :=
      MarksOf(Kept(batches), id), MarksOf(Lost(batches), id),
      MarksOf(Replaced(t, Submitted(batches)), id);
    PlusBalance(MarksOf(Answers(seen), id), kept, lost, MarksOf(Answers(listed), id), replaced);
  }

  lemma PlusBalance(seen: Marks, kept: Marks, lost: Marks, listed: Marks, replaced: Marks)
    requires Plus(listed, replaced) == Plus(seen, Plus(kept, lost))
    ensures var live := Plus(seen, kept);
            && Plus(live, lost) == Plus(listed, replaced)
            && (live.answered == listed.answered <==> lost.answered == replaced.answered)
            && (live.correct == listed.correct <==> lost.correct == replaced.correct)
            && (lost == replaced ==> live == listed)
  {
  }

  lemma LastLoss(batches: seq<ResponsesEvent>)
    requires batches != []
    ensures var n := |batches| - 1;
            NoneLost(batches) <==> NoneLost(batches[..n]) && (Shadowed(batches, n) ==> batches[n].deltas == [])
  {
    var init := batches[..|batches| - 1];
    forall i | 0 < i < |init| ensures Shadowed(init, i) <==> Shadowed(batches, i) {
      ShadowedInit(batches, i);
    }
    if NoneLost(batches) {
      forall i | 0 < i < |init| && Shadowed(init, i) ensures init[i].deltas == [] {
        assert Shadowed(batches, i);
      }
    }
  }

  lemma ShadowedInit(batches: seq<ResponsesEvent>, i: nat)
    requires 0 < i < |batches| - 1
    ensures Shadowed(batches[..|batches| - 1], i) <==> Shadowed(batches, i)
  {
  }

  lemma {:induction false} LostWhenShadowed(batches: seq<ResponsesEvent>)
    ensures Lost(batches) == [] <==> NoneLost(batches)
    decreases |batches|
  {
    if batches != [] {
      LostWhenShadowed(batches[..|batches| - 1]);
      LastLoss(batches);
    }
  }

  /** Whether a submission finds its row there. */
  lemma FindsRow(t: Table, subs: seq<Submission>, k: RowKey)
    ensures k in UpsertAll(t, subs) <==> k in t || HasKey(subs, k)
  {
    LastSubmissionStays(t, subs, k);
    HasOfKey(subs, k);
  }

  lemma {:induction false} ReplacedWhenRepeated(t: Table, subs: seq<Submission>)
    ensures Replaced(t, subs) == [] <==> NoneRepeated(t, subs)
    decreases |subs|
  {
    if subs != [] {
      var init, x := subs[..|subs| - 1], subs[|subs| - 1];
      ReplacedWhenRepeated(t, init);
      FindsRow(t, init, KeyOf(x));
      RepeatedSnoc(t, init, x);
      assert subs == init + [x];
    }
  }

  lemma RepeatedSnoc(t: Table, subs: seq<Submission>, x: Submission)
    ensures NoneRepeated(t, subs + [x]) <==> NoneRepeated(t, subs) && KeyOf(x) !in t && !HasKey(subs, KeyOf(x))
  {
    var all := subs + [x];
    if NoneRepeated(t, all) {
      assert forall j :: 0 <= j < |subs| ==> all[j] == subs[j];
      assert all[|subs|] == x;
    }
  }

  lemma {:induction false} HasOfKey(subs: seq<Submission>, k: RowKey)
    ensures OfKey(subs, k) != [] <==> HasKey(subs, k)
    decreases |subs|
  {
    if subs != [] {
      var init := subs[..|subs| - 1];
      HasOfKey(init, k);
      if HasKey(init, k) {
        var i :| 0 <= i < |init| && KeyOf(init[i]) == k;
        assert KeyOf(subs[i]) == k;
      }
      if i :| 0 <= i < |subs| && KeyOf(subs[i]) == k {
        assert i < |init| ==> KeyOf(init[i]) == k;
      }
    }
  }

  lemma LastCounts(log: seq<Answer>)
    requires log != []
    ensures MarksOf(log, log[|log| - 1].id).answered > 0
  {
  }

  /** So if nothing is lost the counts agree exactly when no live answer repeats an earlier one's key, and if
      none does, exactly when nothing is lost. */
  lemma WhenBalanced(t: Table, batches: seq<ResponsesEvent>)
    ensures NoneLost(batches) ==> (Balanced(t, batches) <==> NoneRepeated(t, Submitted(batches)))
    ensures NoneRepeated(t, Submitted(batches)) ==> (Balanced(t, batches) <==> NoneLost(batches))
  {
    LostWhenShadowed(batches);
    ReplacedWhenRepeated(t, Submitted(batches));
    var lost, replaced := Lost(batches), Replaced(t, Submitted(batches));
    if lost != [] && replaced == [] {
      LastCounts(lost);
      assert !SameMarks(lost, replaced, lost[|lost| - 1].id);
    }
    if lost == [] && replaced != [] {
      LastCounts(replaced);
      assert !SameMarks(lost, replaced, replaced[|replaced| - 1].id);
    }
  }

  /** Each answer of a student carries the same name. */
  ghost predicate Named(log: seq<Answer>, nameOf: string -> string) {
    forall i :: 0 <= i < |log| ==> log[i].name == nameOf(log[i].id)
  }

  lemma {:induction false} LastIsNamed(log: seq<Answer>, nameOf: string -> string, id: string)
    requires Named(log, nameOf)
    ensures LastName(log, id).Some? ==> LastName(log, id) == Some(nameOf(id))
    decreases |log|
  {
    if log != [] {
      LastIsNamed(log[..|log| - 1], nameOf, id);
    }
  }

  lemma {:induction false} RowsAreNamed(t: Table, subs: seq<Submission>, nameOf: string -> string)
    requires Named(Answers(subs), nameOf) && forall k :: k in t ==> t[k].name == nameOf(t[k].id)
    ensures forall k :: k in UpsertAll(t, subs) ==> UpsertAll(t, subs)[k].name == nameOf(UpsertAll(t, subs)[k].id)
    decreases |subs|
  {
    if subs != [] {
      var init := subs[..|subs| - 1];
      assert Answers(subs)[|subs| - 1] == subs[|subs| - 1].answer;
      assert forall i :: 0 <= i < |init| ==> Answers(init)[i] == Answers(subs)[i];
      RowsAreNamed(t, init, nameOf);
    }
  }

  lemma {:induction false} KeptIsNamed(batches: seq<ResponsesEvent>, nameOf: string -> string)
    requires Named(Answers(Submitted(batches)), nameOf)
    ensures Named(Kept(batches), nameOf)
    decreases |batches|
  {
    if batches != [] {
      var init, e := batches[..|batches| - 1], batches[|batches| - 1];
      AnswersOfEvent(Submitted(init), e);
      NamedParts(Answers(Submitted(init)), e.deltas, nameOf);
      KeptIsNamed(init, nameOf);
    }
  }

  lemma NamedParts(a: seq<Answer>, b: seq<Answer>, nameOf: string -> string)
    ensures Named(a + b, nameOf) <==> Named(a, nameOf) && Named(b, nameOf)
  {
    if Named(a + b, nameOf) {
      assert forall i :: 0 <= i < |a| ==> a[i] == (a + b)[i];
      assert forall i :: 0 <= i < |b| ==> b[i] == (a + b)[|a| + i];
    }
  }

  /** The names are the same, whatever the order in which rows are listed, when every student goes by one name. */
  lemma OneNameEach(nameOf: string -> string, prefix: seq<Submission>, batches: seq<ResponsesEvent>,
                    seen: seq<Submission>, listed: seq<Submission>)
    requires Named(Answers(prefix), nameOf) && Named(Answers(Submitted(batches)), nameOf)
    requires Lists(seen, UpsertAll(map[], prefix))
    requires Lists(listed, UpsertAll(UpsertAll(map[], prefix), Submitted(batches)))
    ensures SameNames(Answers(seen) + Kept(batches), Answers(listed))
  {
    RowsAreNamed(map[], prefix, nameOf);
    RowsAreNamed(UpsertAll(map[], prefix), Submitted(batches), nameOf);
    KeptIsNamed(batches, nameOf);
    NamedParts(Answers(seen), Kept(batches), nameOf);
    forall id ensures SameName(Answers(seen) + Kept(batches), Answers(listed), id) {
      LastIsNamed(Answers(seen) + Kept(batches), nameOf, id);
      LastIsNamed(Answers(listed), nameOf, id);
    }
  }

  lemma OneItem(now: string, x: Submission)
    ensures Publish(now, [x]) == [ResponsesEvent(x.publicationId, now, [x.answer], false)]
  {
    assert [x][..0] == [];
    var p := x.publicationId;
    assert PublicationsOf([x]) == [p] && OfPublication([x], p) == [x.answer];
    assert [p][..0] == [] && EventsFor(now, [x], []) == [];
    assert EventsFor(now, [x], [p]) == EventsFor(now, [x], []) + [ResponsesEvent(p, now, [x.answer], false)];
  }

  /** An answer and then its correction, or the same answer sent again: nothing is lost, the server has one
      row, the live tally counts two answers, and the lists differ. */
  lemma CorrectionCountsTwice(le: Collation, first: Submission, second: Submission, now: string, later: string,
                              view: seq<Scored>, whole: seq<Scored>)
    requires TotalOrder(le) && KeyOf(first) == KeyOf(second) && now != later
    ensures var batches := Publish(now, [first]) + Publish(later, [second]);
            var id := first.answer.id; var live := ObserveAll(FRESH, batches).live;
            && NoneLost(batches)
            && UpsertAll(UpsertAll(map[], [first]), [second]) == map[KeyOf(first) := second.answer]
            && id in live && live[id].answered == 2
            && (IsBoard(le, view, live) && IsBoard(le, whole, TallyLog([second.answer])) ==>
                  !AgreeButTimes(view, whole))
  {
    var a := ResponsesEvent(first.publicationId, now, [first.answer], false);
    var b := ResponsesEvent(first.publicationId, later, [second.answer], false);
    OneItem(now, first);
    OneItem(later, second);
    assert [a] + [b] == [a, b];
    BothFolded(a, b);
    assert [first.answer] + [second.answer] == [first.answer, second.answer];
    TwoAgainstOne(first.answer, second.answer);
    assert [first][..0] == [] && [second][..0] == [];
    if IsBoard(le, view, TallyLog([first.answer, second.answer])) && IsBoard(le, whole, TallyLog([second.answer])) {
      BoardsAgree(le, view, TallyLog([first.answer, second.answer]), whole, TallyLog([second.answer]));
    }
  }

  lemma BothFolded(a: ResponsesEvent, b: ResponsesEvent)
    requires a.publicationId == b.publicationId && |a.deltas| == |b.deltas| && a.syncedAt != b.syncedAt
    ensures NoneLost([a, b]) && ObserveAll(FRESH, [a, b]).live == TallyLog(a.deltas + b.deltas)
  {
    DifferentTimes(a, b);
    assert [a] + [b] == [a, b] && [] + [a] == [a] && [] + a.deltas == a.deltas;
    KeptSnoc([], a);
    KeptSnoc([a], b);
    HookTallies([a, b]);
  }

  lemma TwoAgainstOne(x: Answer, y: Answer)
    requires x.id == y.id
    ensures x.id in TallyLog([x, y]) && TallyLog([x, y])[x.id].answered == 2
    ensures x.id in TallyLog([y]) && TallyLog([y])[x.id].answered == 1
  {
    FoldAppend(map[], [x], [y]);
    FoldOne(map[], x);
    FoldOne(map[], y);
    FoldOne(TallyLog([x]), y);
    assert [x] + [y] == [x, y];
  }

  lemma FoldOne(m: Tallies, x: Answer)
    ensures Fold(m, [x]) == AddAnswer(m, x)
  {
    assert [x][..0] == [];
    assert Fold(m, []) == m;
  }

  lemma DifferentTimes(a: ResponsesEvent, b: ResponsesEvent)
    requires a.publicationId == b.publicationId && |a.deltas| == |b.deltas| && a.syncedAt != b.syncedAt
    ensures Key(a) != Key(b)
  {
    if Key(a) == Key(b) {
      BetweenEqual(a.publicationId + ":", a.syncedAt, b.syncedAt, ":", Print(|a.deltas|));
    }
  }

  lemma BetweenEqual(p: string, x: string, y: string, q: string, r: string)
    requires p + x + q + r == p + y + q + r
    ensures x == y
  {
    var s := p + x + q + r;
    assert |x| == |y|;
    assert x == s[|p|..|p| + |x|] && y == s[|p|..|p| + |y|];
  }
}
