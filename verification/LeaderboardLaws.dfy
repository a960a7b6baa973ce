/** Laws of the leaderboard: what the hook's deduplication keeps and loses, the rounding of averages,
    and how one more answer moves the ranks. */
module LeaderboardLaws {
  import opened Wrappers
  import opened Decimal
  import opened QuizScoring
  import opened Leaderboard

  // ---- incremental tallies

  /** Folding a log onto tallies is combining them with the tallies of the log. */
  lemma {:induction false} FoldIsCombine(base: Tallies, log: seq<Answer>)
    ensures Fold(base, log) == Combine(base, TallyLog(log))
    decreases |log|
  {
    if log == [] {
      assert Combine(base, map[]) == base;
    } else {
      FoldIsCombine(base, log[..|log| - 1]);
      AddIsCombine(base, TallyLog(log[..|log| - 1]), log[|log| - 1]);
    }
  }

  lemma AddIsCombine(base: Tallies, live: Tallies, a: Answer)
    ensures AddAnswer(Combine(base, live), a) == Combine(base, AddAnswer(live, a))
  {
    var x, y := AddAnswer(Combine(base, live), a), Combine(base, AddAnswer(live, a));
    assert x.Keys == y.Keys;
    forall id | id in x.Keys ensures x[id] == y[id] {
    }
  }

  lemma {:induction false} FoldAppend(m: Tallies, a: seq<Answer>, b: seq<Answer>)
    ensures Fold(m, a + b) == Fold(Fold(m, a), b)
    decreases |b|
  {
    if b == [] {
      assert a + b == a;
    } else {
      assert (a + b)[..|a + b| - 1] == a + b[..|b| - 1];
      FoldAppend(m, a, b[..|b| - 1]);
    }
  }

  // ---- event delivery

  function Copies(e: ResponsesEvent, n: nat): seq<ResponsesEvent> {
    if n == 0 then [] else Copies(e, n - 1) + [e]
  }

  /** Each batch delivered once and then `again[i]` more times in a row. */
  function Delivered(batches: seq<ResponsesEvent>, again: seq<nat>): seq<ResponsesEvent>
    requires |again| == |batches|
  {
    if batches == [] then []
    else Delivered(batches[..|batches| - 1], again[..|again| - 1])
         + Copies(batches[|batches| - 1], again[|again| - 1] + 1)
  }

  lemma {:induction false} ObserveAppend(s: Hook, a: seq<ResponsesEvent>, b: seq<ResponsesEvent>)
    ensures ObserveAll(s, a + b) == ObserveAll(ObserveAll(s, a), b)
    decreases |b|
  {
    if b == [] {
      assert a + b == a;
    } else {
      assert (a + b)[..|a + b| - 1] == a + b[..|b| - 1];
      ObserveAppend(s, a, b[..|b| - 1]);
    }
  }

  lemma {:induction false} CopiesCountOnce(s: Hook, e: ResponsesEvent, n: nat)
    requires n > 0
    ensures ObserveAll(s, Copies(e, n)) == Observe(s, e)
  {
    var c := Copies(e, n);
    assert c[..|c| - 1] == Copies(e, n - 1);
    if n > 1 {
      CopiesCountOnce(s, e, n - 1);
    }
  }

  /** Redelivery in a row changes nothing. */
  lemma {:induction false} RedeliveryHarmless(batches: seq<ResponsesEvent>, again: seq<nat>)
    requires |again| == |batches|
    ensures ObserveAll(FRESH, Delivered(batches, again)) == ObserveAll(FRESH, batches)
    decreases |batches|
  {
    if batches != [] {
      var init, e := batches[..|batches| - 1], batches[|batches| - 1];
      var n := again[|again| - 1] + 1;
      RedeliveryHarmless(init, again[..|again| - 1]);
      ObserveAppend(FRESH, Delivered(init, again[..|again| - 1]), Copies(e, n));
      CopiesCountOnce(ObserveAll(FRESH, init), e, n);
    }
  }

  /** A batch that looks like the one before it. */
  predicate Shadowed(batches: seq<ResponsesEvent>, i: int) {
    0 < i < |batches| && Key(batches[i - 1]) == Key(batches[i])
  }

  /** The batches that are folded: all but the shadowed ones. */
  function Kept(batches: seq<ResponsesEvent>): seq<Answer> {
    if batches == [] then []
    else Kept(batches[..|batches| - 1])
         + if Shadowed(batches, |batches| - 1) then [] else batches[|batches| - 1].deltas
  }

  /** The `stale` of the last batch that is not shadowed. */
  function LastStale(batches: seq<ResponsesEvent>): Option<bool> {
    if batches == [] then None
    else if Shadowed(batches, |batches| - 1) then LastStale(batches[..|batches| - 1])
    else Some(batches[|batches| - 1].stale)
  }

  lemma {:induction false} HookTallies(batches: seq<ResponsesEvent>)
    ensures var s := ObserveAll(FRESH, batches);
            && s.live == TallyLog(Kept(batches))
            && s.last == (if batches == [] then None else Some(Key(batches[|batches| - 1])))
            && (s.isLive <==> Kept(batches) != [])
            && s.wsStale == LastStale(batches)
    decreases |batches|
  {
    if batches != [] {
      var init, e := batches[..|batches| - 1], batches[|batches| - 1];
      HookTallies(init);
      assert init != [] ==> init[|init| - 1] == batches[|batches| - 2];
      FoldAppend(map[], Kept(init), e.deltas);
      assert Kept(init) + [] == Kept(init);
    }
  }

  /** Redelivery that is not in a row counts again: the hook remembers the last key only. */
  lemma InterleavedCountsTwice(a: ResponsesEvent, b: ResponsesEvent)
    requires Key(a) != Key(b)
    ensures ObserveAll(FRESH, [a, b, a]).live == TallyLog(a.deltas + b.deltas + a.deltas)
  {
    var es := [a, b, a];
    assert !Shadowed([a], 0) && !Shadowed([a, b], 1) && !Shadowed(es, 2);
    assert [] + [a] == [a] && [a] + [b] == [a, b] && [a, b] + [a] == es;
    KeptSnoc([], a);
    KeptSnoc([a], b);
    KeptSnoc([a, b], a);
    HookTallies(es);
    assert [] + a.deltas == a.deltas;
  }

  lemma KeptSnoc(batches: seq<ResponsesEvent>, e: ResponsesEvent)
    ensures Kept(batches + [e]) == Kept(batches) + if Shadowed(batches + [e], |batches|) then [] else e.deltas
  {
    assert (batches + [e])[..|batches|] == batches;
  }

  /** When publication ids have no colon, keys are equal exactly for the same publication, the same
      synchronization time and the same number of answers. */
  lemma KeyIdentifies(a: ResponsesEvent, b: ResponsesEvent)
    requires ':' !in a.publicationId && ':' !in b.publicationId
    ensures Key(a) == Key(b) <==>
            a.publicationId == b.publicationId && a.syncedAt == b.syncedAt && |a.deltas| == |b.deltas|
  {
    var x, y := a.syncedAt + ":" + Print(|a.deltas|), b.syncedAt + ":" + Print(|b.deltas|);
    assert Key(a) == a.publicationId + [':'] + x && Key(b) == b.publicationId + [':'] + y;
    if Key(a) == Key(b) {
      ColonFirst(a.publicationId, b.publicationId, x, y);
      ColonLast(a.syncedAt, b.syncedAt, Print(|a.deltas|), Print(|b.deltas|));
      ReadPadded(|a.deltas|, 0);
      ReadPadded(|b.deltas|, 0);
    }
  }

  predicate FirstColon(s: string, k: nat) {
    k < |s| && s[k] == ':' && forall i :: 0 <= i < k ==> s[i] != ':'
  }

  predicate LastColon(s: string, k: nat) {
    k < |s| && s[k] == ':' && forall i :: k < i < |s| ==> s[i] != ':'
  }

  lemma ColonFirst(p: string, q: string, x: string, y: string)
    requires ':' !in p && ':' !in q && p + [':'] + x == q + [':'] + y
    ensures p == q && x == y
  {
    var s := p + [':'] + x;
    assert FirstColon(s, |p|);
    assert FirstColon(s, |q|);
    assert p == s[..|p|] && q == s[..|q|] && x == s[|p| + 1..] && y == s[|q| + 1..];
  }

  lemma ColonLast(x: string, y: string, d: string, e: string)
    requires AllDigits(d) && AllDigits(e) && x + ":" + d == y + ":" + e
    ensures x == y && d == e
  {
    var s := x + ":" + d;
    assert LastColon(s, |x|);
    assert LastColon(s, |y|);
    assert x == s[..|x|] && y == s[..|y|] && d == s[|x| + 1..] && e == s[|y| + 1..];
  }

  // ---- rounding

  /** A total rebuilt from a rounded average, plus live milliseconds, gives an average within one of
      the true one; without live answers, or without snapshot answers, exactly the true one. */
  lemma RebuiltAverage(total: nat, n: nat, live: nat, k: nat)
    requires n == 0 ==> total == 0
    requires k == 0 ==> live == 0
    ensures var shown := Average(Average(total, n) * n + live, n + k);
            var exact := Average(total + live, n + k);
            && exact - 1 <= shown <= exact + 1
            && (n == 0 || k == 0 ==> shown == exact)
  {
    if n > 0 {
      var a := Average(total, n);
      BackToTotal(total, n);
      CloseTotals(a * n + live, total + live, n + k);
      if k == 0 {
        AverageIsNearest(a * n, n);
        NearestOfMultiple(n, a, Average(a * n, n));
      }
    }
  }

  /** A rounded average times the count is off by at most half the count. */
  lemma BackToTotal(total: nat, n: nat)
    requires n > 0
    ensures -(n as int) <= 2 * (Average(total, n) * n) - 2 * total <= n
  {
    var a := Average(total, n);
    AverageIsNearest(total, n);
    assert 2 * n * a == 2 * (a * n);
    assert 2 * n * (a + 1) == 2 * (a * n) + 2 * n;
  }

  /** Totals that differ by at most half the count have averages at most one apart. */
  lemma CloseTotals(x: nat, y: nat, m: nat)
    requires m > 0 && -(m as int) <= 2 * x - 2 * y <= m
    ensures Average(y, m) - 1 <= Average(x, m) <= Average(y, m) + 1
  {
    AverageIsNearest(x, m);
    AverageIsNearest(y, m);
    Within(m, Average(x, m), Average(y, m), 2 * x + m, 2 * y + m);
    Within(m, Average(y, m), Average(x, m), 2 * y + m, 2 * x + m);
  }

  lemma MulMono(u: nat, a: int, b: int)
    requires a <= b
    ensures u * a <= u * b
  {
    assert u * b - u * a == u * (b - a);
  }

  lemma Within(m: nat, r: int, s: int, x: int, y: int)
    requires m > 0 && 2 * m * r <= x && y < 2 * m * (s + 1) && x - y <= m
    ensures r <= s + 1
  {
    var u := 2 * m;
    assert u * (s + 2) == u * (s + 1) + u;
    if r >= s + 2 {
      MulMono(u, s + 2, r);
    }
  }

  lemma NearestOfMultiple(n: nat, a: nat, r: nat)
    requires n > 0 && 2 * n * r <= 2 * (a * n) + n < 2 * n * (r + 1)
    ensures r == a
  {
    var u := 2 * n;
    assert u * a == 2 * (a * n);
    assert u * (a + 1) == u * a + u;
    if r > a {
      MulMono(u, a + 1, r);
    } else if r < a {
      MulMono(u, r + 1, a);
    }
  }

  /** One millisecond is needed: two snapshot answers of 0 and 1 ms and one live answer of 0 ms. */
  lemma RoundingVisible()
    ensures Average(Average(1, 2) * 2 + 0, 3) == 1 && Average(1 + 0, 3) == 0
  {
    AverageIsNearest(1, 2);
    AverageIsNearest(2, 3);
    AverageIsNearest(1, 3);
  }

  // ---- the snapshot

  lemma ListedSnoc(rows: seq<Scored>, id: string)
    requires rows != []
    ensures Listed(rows, id) <==> Listed(rows[..|rows| - 1], id) || rows[|rows| - 1].id == id
  {
    var init := rows[..|rows| - 1];
    if i :| 0 <= i < |rows| && rows[i].id == id {
      assert i < |init| ==> init[i].id == id;
    }
    if i :| 0 <= i < |init| && init[i].id == id {
      assert rows[i].id == id;
    }
  }

  lemma {:induction false} SnapshotHas(rows: seq<Scored>)
    requires DistinctIds(rows)
    ensures forall id :: id in SnapshotTallies(rows) <==> Listed(rows, id)
    ensures forall i :: 0 <= i < |rows| ==>
              rows[i].id in SnapshotTallies(rows)
              && SnapshotTallies(rows)[rows[i].id] ==
                 Tally(rows[i].name, rows[i].answered, rows[i].correct, rows[i].avgResponseMs * rows[i].answered)
    decreases |rows|
  {
    if rows != [] {
      var init, x := rows[..|rows| - 1], rows[|rows| - 1];
      SnapshotHas(init);
      forall id ensures id in SnapshotTallies(rows) <==> Listed(rows, id) {
        ListedSnoc(rows, id);
      }
      forall i | 0 <= i < |init| ensures rows[i].id != x.id && init[i] == rows[i] {
      }
    }
  }

  /** A snapshot's tallies are the server's, with the total rebuilt from the average. */
  lemma SnapshotOfBoard(le: Collation, board: seq<Scored>, m: Tallies)
    requires IsBoard(le, board, m)
    ensures SameButTimes(SnapshotTallies(board), m)
    ensures forall id :: id in m ==>
            SnapshotTallies(board)[id].total == Average(m[id].total, m[id].answered) * m[id].answered
  {
    SnapshotHas(board);
    forall id | id in m ensures id in SnapshotTallies(board) && SnapshotTallies(board)[id] ==
        Tally(m[id].name, m[id].answered, m[id].correct, Average(m[id].total, m[id].answered) * m[id].answered)
    {
      assert Listed(board, id);
      var i :| 0 <= i < |board| && board[i].id == id;
      assert board[i] == Entry(m, id);
    }
    forall id | id in SnapshotTallies(board) ensures id in m {
      assert Listed(board, id);
    }
  }

  // ---- one more answer

  ghost predicate HasTotal(m: Tallies, except: string, points: nat) {
    exists id :: id in m && id != except && m[id].correct * 10 == points
  }

  /** The totals of everybody but one student. */
  ghost function Others(m: Tallies, id: string): set<nat> {
    set x | x in m && x != id :: m[x].correct * 10
  }

  lemma PointSetSplit(m: Tallies, id: string)
    requires id in m
    ensures PointSet(m) == Others(m, id) + {m[id].correct * 10}
    ensures forall p :: p in Others(m, id) <==> HasTotal(m, id, p)
  {
  }

  lemma CountAbove(others: set<nat>, p: nat, q: nat)
    ensures var above := set x | x in others && x > q; var with := set x | x in others + {p} && x > q;
            |with| == |above| + if p > q && p !in others then 1 else 0
  {
    var above := set x | x in others && x > q;
    var with := set x | x in others + {p} && x > q;
    if p > q && p !in others {
      assert with == above + {p};
    } else {
      assert with == above;
    }
  }

  lemma RankFormula(m: Tallies, id: string, q: nat)
    requires id in m
    ensures RankIn(m, q) == 1 + |set x | x in Others(m, id) && x > q|
                              + if m[id].correct * 10 > q && !HasTotal(m, id, m[id].correct * 10) then 1 else 0
  {
    PointSetSplit(m, id);
    CountAbove(Others(m, id), m[id].correct * 10, q);
  }

  lemma AddAnswerOthers(m: Tallies, a: Answer)
    requires a.id in m
    ensures var n := AddAnswer(m, a);
            && n.Keys == m.Keys && Others(n, a.id) == Others(m, a.id)
            && n[a.id].correct == m[a.id].correct + (if a.isCorrect then 1 else 0)
            && forall id :: id in m && id != a.id ==> n[id] == m[id]
  {
  }

  /** A wrong answer of a listed student changes nobody's rank. */
  lemma WrongAnswerKeepsRanks(m: Tallies, a: Answer, id: string)
    requires a.id in m && !a.isCorrect && id in m
    ensures RankIn(AddAnswer(m, a), AddAnswer(m, a)[id].correct * 10) == RankIn(m, m[id].correct * 10)
  {
    AddAnswerOthers(m, a);
    PointSetSplit(m, a.id);
    PointSetSplit(AddAnswer(m, a), a.id);
  }

  /** A right answer improves the student's own rank by one if somebody else had the new total
      already, and leaves it otherwise. */
  lemma RightAnswerOwnRank(m: Tallies, a: Answer)
    requires a.id in m && a.isCorrect
    ensures var n := AddAnswer(m, a); var p := m[a.id].correct * 10;
            RankIn(n, n[a.id].correct * 10) == RankIn(m, p) - if HasTotal(m, a.id, p + 10) then 1 else 0
  {
    var n, p := AddAnswer(m, a), m[a.id].correct * 10;
    AddAnswerOthers(m, a);
    RankFormula(m, a.id, p);
    RankFormula(n, a.id, p + 10);
    NextTotal(m, a.id, m[a.id].correct);
  }

  /** Totals are multiples of ten, so between a total and the next there is none. */
  lemma NextTotal(m: Tallies, id: string, c: nat)
    ensures |set x | x in Others(m, id) && x > c * 10| ==
            |set x | x in Others(m, id) && x > c * 10 + 10| + if HasTotal(m, id, c * 10 + 10) then 1 else 0
  {
    var p := c * 10;
    var o := Others(m, id);
    var above, beyond := set x | x in o && x > p, set x | x in o && x > p + 10;
    forall x | x in above ensures x in beyond || x == p + 10 {
      var y :| y in m && y != id && m[y].correct * 10 == x;
      assert m[y].correct > c;
    }
    TotalListed(m, id, p + 10);
    if HasTotal(m, id, p + 10) {
      assert above == beyond + {p + 10};
    } else {
      assert above == beyond;
    }
  }

  lemma TotalListed(m: Tallies, id: string, p: nat)
    ensures HasTotal(m, id, p) <==> p in Others(m, id)
  {
  }

  /** ... and moves everybody else by at most one, in a way that depends only on who else has the old
      and the new total of the student. */
  lemma RightAnswerOtherRank(m: Tallies, a: Answer, id: string)
    requires a.id in m && a.isCorrect && id in m && id != a.id
    ensures var n := AddAnswer(m, a); var p := m[a.id].correct * 10; var q := m[id].correct * 10;
            var left := p > q && !HasTotal(m, a.id, p);
            var joined := p + 10 > q && !HasTotal(m, a.id, p + 10);
            && n[id].correct * 10 == q
            && RankIn(n, q) == RankIn(m, q) + (if joined then 1 else 0) - (if left then 1 else 0)
            && RankIn(m, q) - 1 <= RankIn(n, q) <= RankIn(m, q) + 1
            && (q > p ==> RankIn(n, q) == RankIn(m, q))
  {
    var n, q := AddAnswer(m, a), m[id].correct * 10;
    AddAnswerOthers(m, a);
    RankFormula(m, a.id, q);
    RankFormula(n, a.id, q);
    TotalListed(m, a.id, n[a.id].correct * 10);
    TotalListed(n, a.id, n[a.id].correct * 10);
    if q > m[a.id].correct * 10 {
      assert q >= m[a.id].correct * 10 + 10;
    }
  }
}
