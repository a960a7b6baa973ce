/** Scoring and dense ranking of quiz participants: ten points per correct answer, ties share a rank. */
module QuizScoring {
  import opened Wrappers

  /** "comes no later than" in the locale's collation of student numbers. */
  type Collation = (string, string) -> bool

  ghost predicate TotalOrder(le: Collation) {
    && (forall a, b :: le(a, b) || le(b, a))
    && (forall a, b :: le(a, b) && le(b, a) ==> a == b)
    && (forall a, b, c :: le(a, b) && le(b, c) ==> le(a, c))
  }

  datatype ScoreInput = ScoreInput(id: string, name: string, answered: nat, correct: nat, total: nat)

  datatype Scored = Scored(
    id: string, name: string, answered: nat, correct: nat, total: nat,
    points: nat, accuracy: real, avgResponseMs: nat, rank: nat)

  /** `Math.round` on non-negative numbers. */
  function MathRound(x: real): (r: nat)
    requires x >= 0.0
  {
    (x + 0.5).Floor
  }

  function Average(total: nat, answered: nat): nat {
    if answered == 0 then 0 else MathRound(total as real / answered as real)
  }

  /** The average is the integer nearest to total / answered, the upper one of two. */
  lemma AverageIsNearest(total: nat, answered: nat)
    requires answered > 0
    ensures var r := Average(total, answered);
            2 * answered * r <= 2 * total + answered < 2 * answered * (r + 1)
  {
    var r := Average(total, answered);
    var q := Quotient(total as real, answered as real);
    assert r as real <= q + 0.5 < r as real + 1.0;
    ScaledBetween(total as real, answered as real, q, r as real);
    RealProduct(r, answered);
    Halves(total, answered, r * answered);
    Doubled(answered, r);
  }

  lemma Quotient(t: real, n: real) returns (q: real)
    requires n > 0.0
    ensures q == t / n && q * n == t
  {
    q := t / n;
  }

  lemma ScaledBetween(t: real, n: real, q: real, r: real)
    requires n > 0.0 && q * n == t && r <= q + 0.5 < r + 1.0
    ensures r * n <= t + 0.5 * n < r * n + n
  {
    Distributes(q, 0.5, n);
    Distributes(r, 1.0, n);
    Scaled(r, q + 0.5, n, r * n, t + 0.5 * n);
    Scaled(q + 0.5, r + 1.0, n, t + 0.5 * n, r * n + n);
  }

  lemma Distributes(a: real, b: real, n: real)
    ensures (a + b) * n == a * n + b * n
  {
  }

  lemma Scaled(a: real, b: real, n: real, an: real, bn: real)
    requires n > 0.0 && a * n == an && b * n == bn
    ensures a <= b ==> an <= bn
    ensures a < b ==> an < bn
  {
    var d := b - a;
    assert d * n == bn - an;
  }

  lemma Doubled(n: nat, r: nat)
    ensures 2 * n * r == 2 * (r * n) && 2 * n * (r + 1) == 2 * (r * n) + 2 * n
  {
  }

  lemma RealProduct(a: nat, b: nat)
    ensures (a as real) * (b as real) == (a * b) as real
  {
  }

  lemma Halves(t: nat, n: nat, ra: nat)
    requires ra as real <= t as real + 0.5 * n as real < ra as real + n as real
    ensures 2 * ra <= 2 * t + n < 2 * ra + 2 * n
  {
    assert 2.0 * (ra as real) == (2 * ra) as real;
    assert 2.0 * (t as real) == (2 * t) as real;
    assert 2.0 * (n as real) == (2 * n) as real;
    assert (2 * t + n) as real < (2 * ra + 2 * n) as real;
  }

  function Accuracy(correct: nat, answered: nat): real {
    if answered == 0 then 0.0 else correct as real / answered as real
  }

  function Unranked(row: ScoreInput): Scored {
    Scored(row.id, row.name, row.answered, row.correct, row.total,
           row.correct * 10, Accuracy(row.correct, row.answered), Average(row.total, row.answered), 0)
  }

  /** The comparator's "not after". */
  predicate Before(le: Collation, a: Scored, b: Scored) {
    a.points > b.points || (a.points == b.points && le(a.id, b.id))
  }

  ghost predicate SortedRows(le: Collation, rows: seq<Scored>) {
    forall i, j :: 0 <= i < j < |rows| ==> Before(le, rows[i], rows[j])
  }

  ghost predicate DistinctIds(rows: seq<Scored>) {
    forall i, j :: 0 <= i < j < |rows| ==> rows[i].id != rows[j].id
  }

  /** `Array.prototype.sort`: stable, so any algorithm gives this result. */
  function Sort(le: Collation, rows: seq<Scored>): seq<Scored> {
    if rows == [] then [] else Insert(le, Sort(le, rows[..|rows| - 1]), rows[|rows| - 1])
  }

  function Insert(le: Collation, sorted: seq<Scored>, r: Scored): seq<Scored> {
    if sorted == [] || Before(le, sorted[|sorted| - 1], r) then sorted + [r]
    else Insert(le, sorted[..|sorted| - 1], r) + [sorted[|sorted| - 1]]
  }

  lemma {:induction false} InsertPermutes(le: Collation, sorted: seq<Scored>, r: Scored)
    ensures multiset(Insert(le, sorted, r)) == multiset(sorted) + multiset{r}
    decreases |sorted|
  {
    if !(sorted == [] || Before(le, sorted[|sorted| - 1], r)) {
      var init, last := sorted[..|sorted| - 1], sorted[|sorted| - 1];
      InsertPermutes(le, init, r);
      assert sorted == init + [last];
    }
  }

  lemma InsertMembers(le: Collation, sorted: seq<Scored>, r: Scored)
    ensures forall x :: x in Insert(le, sorted, r) ==> x in sorted || x == r
  {
    InsertPermutes(le, sorted, r);
    forall x | x in Insert(le, sorted, r) ensures x in sorted || x == r {
      assert x in multiset(Insert(le, sorted, r));
      assert x in multiset(sorted) || x == r;
    }
  }

  lemma {:induction false} InsertSorts(le: Collation, sorted: seq<Scored>, r: Scored)
    requires TotalOrder(le) && SortedRows(le, sorted)
    ensures SortedRows(le, Insert(le, sorted, r))
    decreases |sorted|
  {
    if sorted == [] || Before(le, sorted[|sorted| - 1], r) {
      forall i | 0 <= i < |sorted| ensures Before(le, sorted[i], r) {
        assert i < |sorted| - 1 ==> Before(le, sorted[i], sorted[|sorted| - 1]);
      }
    } else {
      var init, last := sorted[..|sorted| - 1], sorted[|sorted| - 1];
      InsertSorts(le, init, r);
      InsertMembers(le, init, r);
      var ins := Insert(le, init, r);
      forall i | 0 <= i < |ins| ensures Before(le, ins[i], last) {
        assert ins[i] in ins;
        assert ins[i] in init || ins[i] == r;
      }
    }
  }

  lemma {:induction false} SortSorts(le: Collation, rows: seq<Scored>)
    requires TotalOrder(le)
    ensures SortedRows(le, Sort(le, rows))
    ensures multiset(Sort(le, rows)) == multiset(rows)
    ensures |Sort(le, rows)| == |rows|
    decreases |rows|
  {
    if rows != [] {
      var init := rows[..|rows| - 1];
      SortSorts(le, init);
      InsertSorts(le, Sort(le, init), rows[|rows| - 1]);
      InsertPermutes(le, Sort(le, init), rows[|rows| - 1]);
      LastOfMultiset(rows);
    }
    SameSize(Sort(le, rows), rows);
  }

  lemma LastOfMultiset(rows: seq<Scored>)
    requires rows != []
    ensures multiset(rows) == multiset(rows[..|rows| - 1]) + multiset{rows[|rows| - 1]}
  {
    assert rows == rows[..|rows| - 1] + [rows[|rows| - 1]];
  }

  lemma SameSize(a: seq<Scored>, b: seq<Scored>)
    ensures multiset(a) == multiset(b) ==> |a| == |b|
  {
    assert |multiset(a)| == |a| && |multiset(b)| == |b|;
  }

  /** The distinct point totals above `p`. */
  function LargerPoints(rows: seq<Scored>, p: nat): set<nat> {
    set i | 0 <= i < |rows| && rows[i].points > p :: rows[i].points
  }

  /** A rank in closed form: one more than the number of distinct larger totals. */
  function DenseRank(rows: seq<Scored>, p: nat): nat {
    1 + |LargerPoints(rows, p)|
  }

  function Prepared(inputs: seq<ScoreInput>): seq<Scored> {
    seq(|inputs|, i requires 0 <= i < |inputs| => Unranked(inputs[i]))
  }

  function Ranked(rows: seq<Scored>): seq<Scored> {
    seq(|rows|, i requires 0 <= i < |rows| => rows[i].(rank := DenseRank(rows, rows[i].points)))
  }

  /** What scoring means: the rows in order, each with its rank in closed form. */
  function Scoreboard(le: Collation, inputs: seq<ScoreInput>): seq<Scored> {
    Ranked(Sort(le, Prepared(inputs)))
  }

  lemma NextRank(le: Collation, rows: seq<Scored>, i: nat)
    requires SortedRows(le, rows) && i < |rows|
    ensures i == 0 ==> DenseRank(rows, rows[i].points) == 1
    ensures i > 0 ==> DenseRank(rows, rows[i].points) ==
                      DenseRank(rows, rows[i - 1].points) + (if rows[i].points == rows[i - 1].points then 0 else 1)
  {
    if i == 0 {
      assert LargerPoints(rows, rows[0].points) == {};
    } else if rows[i].points != rows[i - 1].points {
      var p, q := rows[i - 1].points, rows[i].points;
      assert Before(le, rows[i - 1], rows[i]);
      forall k | i < k < |rows| ensures rows[k].points <= q {
        assert Before(le, rows[i], rows[k]);
      }
      forall k | 0 <= k < i - 1 ensures rows[k].points >= p {
        assert Before(le, rows[k], rows[i - 1]);
      }
      assert LargerPoints(rows, q) == LargerPoints(rows, p) + {p};
    }
  }

  lemma RankedTake(rows: seq<Scored>, i: nat)
    requires i < |rows|
    ensures |Ranked(rows)| == |rows|
    ensures Ranked(rows)[..i + 1] == Ranked(rows)[..i] + [rows[i].(rank := DenseRank(rows, rows[i].points))]
  {
  }

  /** The points that occur. */
  function PointsOf(rows: seq<Scored>): set<nat> {
    set i | 0 <= i < |rows| :: rows[i].points
  }

  lemma SmallerSet(a: set<nat>, b: set<nat>)
    requires a < b
    ensures |a| < |b|
  {
    var d := b - a;
    assert a + d == b && a !! d;
    assert |b| == |a| + |d|;
    assert d != {};
  }

  /** More points mean a strictly better rank, so ranks are equal exactly on ties. */
  lemma RankOrder(rows: seq<Scored>, i: nat, j: nat)
    requires i < |rows| && j < |rows|
    ensures rows[i].points > rows[j].points <==> DenseRank(rows, rows[i].points) < DenseRank(rows, rows[j].points)
    ensures rows[i].points == rows[j].points <==> DenseRank(rows, rows[i].points) == DenseRank(rows, rows[j].points)
  {
    var p, q := rows[i].points, rows[j].points;
    if p > q {
      assert LargerPoints(rows, p) < LargerPoints(rows, q) by {
        assert p in LargerPoints(rows, q) && p !in LargerPoints(rows, p);
      }
      SmallerSet(LargerPoints(rows, p), LargerPoints(rows, q));
    } else if q > p {
      assert LargerPoints(rows, q) < LargerPoints(rows, p) by {
        assert q in LargerPoints(rows, p) && q !in LargerPoints(rows, q);
      }
      SmallerSet(LargerPoints(rows, q), LargerPoints(rows, p));
    }
  }

  /** Every rank from 1 to that of the last row is given to some row. */
  lemma {:induction false} NoGap(le: Collation, rows: seq<Scored>, i: nat, r: nat) returns (k: nat)
    requires SortedRows(le, rows) && i < |rows| && 1 <= r <= DenseRank(rows, rows[i].points)
    ensures k <= i && DenseRank(rows, rows[k].points) == r
    decreases i
  {
    NextRank(le, rows, i);
    if r == DenseRank(rows, rows[i].points) {
      k := i;
    } else {
      k := NoGap(le, rows, i - 1, r);
    }
  }

  lemma LastRank(le: Collation, rows: seq<Scored>)
    requires SortedRows(le, rows) && rows != []
    ensures DenseRank(rows, rows[|rows| - 1].points) == |PointsOf(rows)|
  {
    var p := rows[|rows| - 1].points;
    forall k | 0 <= k < |rows| ensures rows[k].points >= p {
      if k < |rows| - 1 {
        assert Before(le, rows[k], rows[|rows| - 1]);
      }
    }
    assert PointsOf(rows) == LargerPoints(rows, p) + {p};
  }

  ghost predicate RankUsed(board: seq<Scored>, r: nat) {
    exists i :: 0 <= i < |board| && board[i].rank == r
  }

  lemma RanksOfSorted(le: Collation, rows: seq<Scored>)
    requires SortedRows(le, rows)
    ensures var board := Ranked(rows);
            && (forall i, j :: 0 <= i < |board| && 0 <= j < |board| ==>
                  (board[i].rank == board[j].rank <==> board[i].points == board[j].points))
            && (forall i :: 0 <= i < |board| ==> 1 <= board[i].rank <= |PointsOf(rows)|)
            && (forall r :: 1 <= r <= |PointsOf(rows)| ==> RankUsed(board, r))
  {
    var board := Ranked(rows);
    forall i, j | 0 <= i < |board| && 0 <= j < |board|
      ensures board[i].rank == board[j].rank <==> board[i].points == board[j].points
    {
      RankOrder(rows, i, j);
    }
    if rows != [] {
      LastRank(le, rows);
      forall i | 0 <= i < |board| ensures 1 <= board[i].rank <= |PointsOf(rows)| {
        assert i < |rows| - 1 ==> Before(le, rows[i], rows[|rows| - 1]);
        RankOrder(rows, i, |rows| - 1);
      }
      forall r | 1 <= r <= |PointsOf(rows)| ensures RankUsed(board, r) {
        var k := NoGap(le, rows, |rows| - 1, r);
        assert board[k].rank == r;
      }
    }
  }

  /** The specification of the ranking: the board is a sorted permutation of the scored inputs; a rank
      is one plus the number of distinct larger totals; ranks are equal exactly on ties; and the
      ranks used are 1, 2, ... up to the number of distinct totals. */
  lemma RankingSpecification(le: Collation, inputs: seq<ScoreInput>)
    requires TotalOrder(le)
    ensures var board := Scoreboard(le, inputs);
            && multiset(Unrank(board)) == multiset(Prepared(inputs))
            && SortedRows(le, board)
            && (forall i :: 0 <= i < |board| ==> board[i].rank == DenseRank(board, board[i].points))
            && (forall i, j :: 0 <= i < |board| && 0 <= j < |board| ==>
                  (board[i].rank == board[j].rank <==> board[i].points == board[j].points))
            && (forall i :: 0 <= i < |board| ==> 1 <= board[i].rank <= |PointsOf(board)|)
            && (forall r :: 1 <= r <= |PointsOf(board)| ==> RankUsed(board, r))
  {
    var rows := Sort(le, Prepared(inputs));
    SortSorts(le, Prepared(inputs));
    RankedKeepsRows(le, rows);
    SortKeepsRankZero(le, inputs);
    assert Unrank(Ranked(rows)) == rows;
    RanksOfSorted(le, rows);
  }

  /** The rows before ranking. */
  function Unrank(board: seq<Scored>): seq<Scored> {
    seq(|board|, i requires 0 <= i < |board| => board[i].(rank := 0))
  }

  lemma RankedKeepsRows(le: Collation, rows: seq<Scored>)
    ensures |Ranked(rows)| == |rows|
    ensures SortedRows(le, rows) ==> SortedRows(le, Ranked(rows))
    ensures PointsOf(Ranked(rows)) == PointsOf(rows)
    ensures forall p :: LargerPoints(Ranked(rows), p) == LargerPoints(rows, p)
  {
    var board := Ranked(rows);
    assert forall i :: 0 <= i < |rows| ==> board[i].points == rows[i].points;
    forall p ensures LargerPoints(board, p) == LargerPoints(rows, p) {
    }
  }

  lemma SortKeepsRankZero(le: Collation, inputs: seq<ScoreInput>)
    requires TotalOrder(le)
    ensures forall i :: 0 <= i < |Sort(le, Prepared(inputs))| ==> Sort(le, Prepared(inputs))[i].rank == 0
    ensures forall i :: 0 <= i < |Sort(le, Prepared(inputs))| ==>
              exists k :: 0 <= k < |inputs| && Sort(le, Prepared(inputs))[i] == Unranked(inputs[k])
  {
    var p, s := Prepared(inputs), Sort(le, Prepared(inputs));
    SortSorts(le, p);
    forall i | 0 <= i < |s| ensures s[i].rank == 0 && exists k :: 0 <= k < |inputs| && s[i] == Unranked(inputs[k]) {
      assert s[i] in multiset(s);
      assert s[i] in p;
      var k :| 0 <= k < |p| && p[k] == s[i];
      assert s[i] == Unranked(inputs[k]);
    }
  }

  /** What a scored row says, in its own numbers: ten points for a right answer, the accuracy times the
      answers is the right ones, the average is the integer nearest to the mean, and both are zero for
      somebody without answers. */
  ghost predicate IsScored(r: Scored) {
    && r.points == 10 * r.correct
    && (r.answered > 0 ==>
          && r.accuracy * r.answered as real == r.correct as real
          && 2 * r.answered * r.avgResponseMs <= 2 * r.total + r.answered < 2 * r.answered * (r.avgResponseMs + 1))
    && (r.answered == 0 ==> r.accuracy == 0.0 && r.avgResponseMs == 0)
  }

  lemma RowsAreScored(row: ScoreInput, rank: nat)
    ensures IsScored(Unranked(row).(rank := rank))
  {
    if row.answered > 0 {
      AverageIsNearest(row.total, row.answered);
      var q := Quotient(row.correct as real, row.answered as real);
      assert Accuracy(row.correct, row.answered) == q;
    }
  }

  function InputsOf(rows: seq<Scored>): seq<ScoreInput> {
    seq(|rows|, i requires 0 <= i < |rows| =>
      ScoreInput(rows[i].id, rows[i].name, rows[i].answered, rows[i].correct, rows[i].total))
  }

  lemma InputsAround(rows: seq<Scored>, k: nat)
    requires k < |rows|
    ensures InputsOf(rows) == InputsOf(rows[..k]) + InputsOf([rows[k]]) + InputsOf(rows[k + 1..])
    ensures InputsOf(rows[..k] + rows[k + 1..]) == InputsOf(rows[..k]) + InputsOf(rows[k + 1..])
  {
  }

  lemma InputsWithout(rows: seq<Scored>, k: nat)
    requires k < |rows|
    ensures multiset(InputsOf(rows)) == multiset(InputsOf(rows[..k] + rows[k + 1..])) + multiset(InputsOf([rows[k]]))
  {
    InputsAround(rows, k);
  }

  lemma Without(a: seq<Scored>, k: nat)
    requires k < |a|
    ensures multiset(a[..k] + a[k + 1..]) == multiset(a) - multiset{a[k]}
  {
    assert a == a[..k] + [a[k]] + a[k + 1..];
  }

  lemma PartnerOf(a: seq<Scored>, b: seq<Scored>) returns (k: nat)
    requires multiset(a) == multiset(b) && a != []
    ensures k < |b| && b[k] == a[0]
    ensures multiset(a[..0] + a[1..]) == multiset(b[..k] + b[k + 1..])
  {
    assert a[0] in multiset(b);
    k :| 0 <= k < |b| && b[k] == a[0];
    Without(a, 0);
    Without(b, k);
  }

  lemma {:induction false} InputsPermute(a: seq<Scored>, b: seq<Scored>)
    requires multiset(a) == multiset(b)
    ensures multiset(InputsOf(a)) == multiset(InputsOf(b))
    decreases |a|
  {
    SameSize(a, b);
    if a != [] {
      var k := PartnerOf(a, b);
      InputsPermute(a[..0] + a[1..], b[..k] + b[k + 1..]);
      InputsWithout(a, 0);
      InputsWithout(b, k);
    }
  }

  lemma BoardIsScored(le: Collation, inputs: seq<ScoreInput>)
    requires TotalOrder(le)
    ensures var board := Scoreboard(le, inputs);
            && multiset(InputsOf(board)) == multiset(inputs)
            && forall k :: 0 <= k < |board| ==> IsScored(board[k])
  {
    var rows := Sort(le, Prepared(inputs));
    var board := Ranked(rows);
    SortSorts(le, Prepared(inputs));
    InputsPermute(rows, Prepared(inputs));
    assert InputsOf(Prepared(inputs)) == inputs && InputsOf(board) == InputsOf(rows);
    SortKeepsRankZero(le, inputs);
    forall k | 0 <= k < |board| ensures IsScored(board[k]) {
      var i :| 0 <= i < |inputs| && rows[k] == Unranked(inputs[i]);
      RowsAreScored(inputs[i], board[k].rank);
    }
  }

  lemma BoardIsOrdered(le: Collation, rows: seq<Scored>)
    requires SortedRows(le, rows)
    ensures var board := Ranked(rows);
            && (forall j, k :: 0 <= j < k < |board| ==>
                  board[j].points > board[k].points
                  || (board[j].points == board[k].points && le(board[j].id, board[k].id)))
            && (forall k :: 0 <= k < |board| ==>
                  board[k].rank == if k == 0 then 1
                                   else board[k - 1].rank + if board[k].points == board[k - 1].points then 0 else 1)
  {
    var board := Ranked(rows);
    forall j, k | 0 <= j < k < |board|
      ensures board[j].points > board[k].points || (board[j].points == board[k].points && le(board[j].id, board[k].id))
    {
      assert Before(le, rows[j], rows[k]);
    }
    forall k | 0 <= k < |board|
      ensures board[k].rank == if k == 0 then 1
                               else board[k - 1].rank + if board[k].points == board[k - 1].points then 0 else 1
    {
      NextRank(le, rows, k);
    }
  }

  /** The one-pass ranking of the source computes exactly that board: the inputs, each once and each scored,
      by points and then by student number, with the rank growing by one where the points change. */
  method ScoreParticipants(le: Collation, inputs: seq<ScoreInput>) returns (board: seq<Scored>)
    requires TotalOrder(le)
    ensures board == Scoreboard(le, inputs)
    ensures multiset(InputsOf(board)) == multiset(inputs)
    ensures forall k :: 0 <= k < |board| ==> IsScored(board[k])
    ensures forall j, k :: 0 <= j < k < |board| ==>
              board[j].points > board[k].points || (board[j].points == board[k].points && le(board[j].id, board[k].id))
    ensures forall k :: 0 <= k < |board| ==>
              board[k].rank == if k == 0 then 1
                               else board[k - 1].rank + if board[k].points == board[k - 1].points then 0 else 1
  {
    var sorted := Sort(le, Prepared(inputs));
    SortSorts(le, Prepared(inputs));
    var rank := 0;
    var priorPoints: Option<nat> := None;
    board := [];
    for i := 0 to |sorted|
      invariant i == 0 ==> priorPoints.None? && rank == 0
      invariant i > 0 ==> priorPoints == Some(sorted[i - 1].points) && rank == DenseRank(sorted, sorted[i - 1].points)
      invariant board == Ranked(sorted)[..i]
    {
      var row := sorted[i];
      NextRank(le, sorted, i);
      RankedTake(sorted, i);
      if priorPoints.None? || priorPoints.value != row.points {
        rank := rank + 1;
      }
      priorPoints := Some(row.points);
      board := board + [row.(rank := rank)];
    }
    assert Ranked(sorted)[..|sorted|] == Ranked(sorted);
    BoardIsScored(le, inputs);
    BoardIsOrdered(le, sorted);
  }

  /** With distinct ids, the board does not depend on the order of the input. */
  lemma OrderIndependent(le: Collation, a: seq<ScoreInput>, b: seq<ScoreInput>)
    requires TotalOrder(le) && multiset(a) == multiset(b)
    requires forall i, j :: 0 <= i < j < |a| ==> a[i].id != a[j].id
    ensures Scoreboard(le, a) == Scoreboard(le, b)
  {
    NoRepeatsThrough(a, b);
    forall r ensures r in a <==> r in b {
      assert r in a <==> r in multiset(a);
      assert r in b <==> r in multiset(b);
    }
    forall i, j | 0 <= i < j < |b| ensures b[i].id != b[j].id {
      assert b[i] in a && b[j] in a;
    }
    PreparedMembers(a, b);
    SortedDistinct(le, a);
    SortedDistinct(le, b);
    SortedUnique(le, Sort(le, Prepared(a)), Sort(le, Prepared(b)));
  }

  lemma PreparedMembers(a: seq<ScoreInput>, b: seq<ScoreInput>)
    requires forall r :: r in a <==> r in b
    ensures forall s :: s in Prepared(a) <==> s in Prepared(b)
  {
    forall i | 0 <= i < |a| ensures Prepared(a)[i] in Prepared(b) {
      assert a[i] in b;
      var k :| 0 <= k < |b| && b[k] == a[i];
      assert Prepared(b)[k] == Prepared(a)[i];
    }
    forall i | 0 <= i < |b| ensures Prepared(b)[i] in Prepared(a) {
      assert b[i] in a;
      var k :| 0 <= k < |a| && a[k] == b[i];
      assert Prepared(a)[k] == Prepared(b)[i];
    }
  }

  lemma SortedDistinct(le: Collation, inputs: seq<ScoreInput>)
    requires TotalOrder(le) && forall i, j :: 0 <= i < j < |inputs| ==> inputs[i].id != inputs[j].id
    ensures var s := Sort(le, Prepared(inputs));
            SortedRows(le, s) && DistinctIds(s) && forall r :: r in s <==> r in Prepared(inputs)
  {
    var p, s := Prepared(inputs), Sort(le, Prepared(inputs));
    SortSorts(le, p);
    SameMembers(s, p);
    PreparedIdentified(inputs);
    NoRepeatsThrough(p, s);
    forall i, j | 0 <= i < j < |s| ensures s[i].id != s[j].id {
      assert s[i] in p && s[j] in p;
    }
  }

  lemma PreparedIdentified(inputs: seq<ScoreInput>)
    requires forall i, j :: 0 <= i < j < |inputs| ==> inputs[i].id != inputs[j].id
    ensures NoRepeats(Prepared(inputs)) &&
            forall r, s :: r in Prepared(inputs) && s in Prepared(inputs) && r.id == s.id ==> r == s
  {
  }

  ghost predicate NoRepeats<T>(s: seq<T>) {
    forall i, j :: 0 <= i < j < |s| ==> s[i] != s[j]
  }

  lemma NoRepeatsThrough<T>(a: seq<T>, b: seq<T>)
    requires multiset(a) == multiset(b) && NoRepeats(a)
    ensures NoRepeats(b)
  {
    forall i, j | 0 <= i < j < |b| ensures b[i] != b[j] {
      assert b[i] in multiset(a);
      var k :| 0 <= k < |a| && a[k] == b[i];
      OnceInMultiset(a, k);
      if b[i] == b[j] {
        TwiceInMultiset(b, i, j);
      }
    }
  }

  lemma TwiceInMultiset<T>(b: seq<T>, i: nat, j: nat)
    requires i < j < |b| && b[i] == b[j]
    ensures multiset(b)[b[i]] >= 2
  {
    assert b == b[..i] + [b[i]] + b[i + 1..j] + [b[j]] + b[j + 1..];
  }

  lemma OnceInMultiset<T>(a: seq<T>, k: nat)
    requires NoRepeats(a) && k < |a|
    ensures multiset(a)[a[k]] == 1
  {
    assert a == a[..k] + [a[k]] + a[k + 1..];
    assert a[k] !in a[..k] && a[k] !in a[k + 1..];
  }

  lemma SameMembers(x: seq<Scored>, y: seq<Scored>)
    requires multiset(x) == multiset(y)
    ensures forall r :: r in x <==> r in y
  {
    forall r ensures r in x <==> r in y {
      assert r in x <==> r in multiset(x);
      assert r in y <==> r in multiset(y);
    }
  }

  lemma {:induction false} SortedUnique(le: Collation, x: seq<Scored>, y: seq<Scored>)
    requires TotalOrder(le) && SortedRows(le, x) && SortedRows(le, y)
    requires DistinctIds(x) && DistinctIds(y) && forall r :: r in x <==> r in y
    ensures x == y
    decreases |x|
  {
    assert |y| > 0 ==> y[0] in x;
    assert |x| > 0 ==> x[0] in y;
    if x != [] {
      assert IdsIdentify(x);
      FirstIsLeast(le, x, y);
      assert x == [x[0]] + x[1..] && y == [y[0]] + y[1..];
      forall r ensures r in x[1..] <==> r in y[1..] {
        RestHas(x, r);
        RestHas(y, r);
      }
      SortedUnique(le, x[1..], y[1..]);
    }
  }

  lemma RestHas(x: seq<Scored>, r: Scored)
    requires x != [] && DistinctIds(x)
    ensures r in x[1..] <==> r in x && r != x[0]
  {
    if r in x[1..] {
      var k :| 0 <= k < |x[1..]| && x[1..][k] == r;
      assert x[k + 1] == r;
    }
  }

  ghost predicate IdsIdentify(x: seq<Scored>) {
    forall i, j :: 0 <= i < |x| && 0 <= j < |x| && x[i].id == x[j].id ==> x[i] == x[j]
  }

  lemma FirstIsLeast(le: Collation, x: seq<Scored>, y: seq<Scored>)
    requires TotalOrder(le) && SortedRows(le, x) && SortedRows(le, y)
    requires IdsIdentify(x) && x != [] && y != [] && x[0] in y && y[0] in x
    ensures x[0] == y[0]
  {
    var i :| 0 <= i < |y| && y[i] == x[0];
    var j :| 0 <= j < |x| && x[j] == y[0];
    assert i > 0 ==> Before(le, y[0], y[i]);
    assert j > 0 ==> Before(le, x[0], x[j]);
  }
}
