/** Converting recorded files: the unconverted rows are grouped, each group of several files is combined
    into a new row, and everything listed is marked converted. */
module ConvertGrouping {
  datatype Row = Row(filename: string, duration: nat, groupid: string, pauseval: int, converted: bool)

  /** `SELECT ... WHERE converted=0 ORDER BY pauseval`: the unconverted rows, in some order of pauseval. */
  ghost predicate IsListing(rows: seq<Row>, list: seq<Row>) {
    && multiset(list) == multiset(Unconverted(rows))
    && SortedByPause(list)
  }

  function Unconverted(rows: seq<Row>): seq<Row> {
    if rows == [] then []
    else Unconverted(rows[..|rows| - 1]) + if rows[|rows| - 1].converted then [] else [rows[|rows| - 1]]
  }

  predicate SortedByPause(list: seq<Row>) {
    forall i, j :: 0 <= i < j < |list| ==> list[i].pauseval <= list[j].pauseval
  }

  ghost predicate DistinctNames(list: seq<Row>) {
    forall i, j :: 0 <= i < j < |list| ==> list[i].filename != list[j].filename
  }

  /** The rows of one group, in list order. */
  function GroupRows(list: seq<Row>, g: string): seq<Row> {
    if list == [] then []
    else GroupRows(list[..|list| - 1], g) + if list[|list| - 1].groupid == g then [list[|list| - 1]] else []
  }

  function Names(list: seq<Row>): seq<string> {
    seq(|list|, i requires 0 <= i < |list| => list[i].filename)
  }

  function Members(list: seq<Row>, g: string): seq<string> {
    Names(GroupRows(list, g))
  }

  function GroupIds(list: seq<Row>): set<string> {
    set i | 0 <= i < |list| :: list[i].groupid
  }

  function DurationSum(list: seq<Row>): nat {
    if list == [] then 0 else DurationSum(list[..|list| - 1]) + list[|list| - 1].duration
  }

  /** `list.find(o => o.filename === name).duration` */
  function FirstDuration(list: seq<Row>, name: string): nat {
    if list == [] then 0
    else if list[0].filename == name then list[0].duration
    else FirstDuration(list[1..], name)
  }

  function FoundSum(list: seq<Row>, names: seq<string>): nat {
    if names == [] then 0 else FoundSum(list, names[..|names| - 1]) + FirstDuration(list, names[|names| - 1])
  }

  /** `name.slice(0, -3) + '~cmb.ts'` */
  function CombinedName(name: string): string {
    (if |name| < 3 then "" else name[..|name| - 3]) + "~cmb.ts"
  }

  /** `UPDATE ... SET converted=1 WHERE filename = name` */
  function Mark(rows: seq<Row>, name: string): seq<Row> {
    seq(|rows|, i requires 0 <= i < |rows| => if rows[i].filename == name then rows[i].(converted := true) else rows[i])
  }

  function MarkAll(rows: seq<Row>, names: seq<string>): seq<Row> {
    if names == [] then rows else Mark(MarkAll(rows, names[..|names| - 1]), names[|names| - 1])
  }

  function CombinedRow(list: seq<Row>, g: string): Row
    requires Members(list, g) != []
  {
    Row(CombinedName(Members(list, g)[0]), FoundSum(list, Members(list, g)), g, 0, false)
  }

  function ConvertGroup(rows: seq<Row>, list: seq<Row>, g: string): seq<Row>
    requires Members(list, g) != []
  {
    var names := Members(list, g);
    if |names| > 1 then Mark(MarkAll(rows, names) + [CombinedRow(list, g)], CombinedName(names[0]))
    else Mark(rows, names[0])
  }

  predicate NonEmptyGroups(list: seq<Row>, order: seq<string>) {
    forall i :: 0 <= i < |order| ==> Members(list, order[i]) != []
  }

  function ConvertGroups(rows: seq<Row>, list: seq<Row>, order: seq<string>): seq<Row>
    requires NonEmptyGroups(list, order)
  {
    if order == [] then rows
    else ConvertGroup(ConvertGroups(rows, list, order[..|order| - 1]), list, order[|order| - 1])
  }

  /** The order in which the groups are taken: each once. */
  ghost predicate IsOrder(list: seq<Row>, order: seq<string>) {
    NoRepeats(order) && forall g :: g in order <==> g in GroupIds(list)
  }

  ghost predicate NoRepeats(order: seq<string>) {
    forall i, j :: 0 <= i < j < |order| ==> order[i] != order[j]
  }

  // ---- the groups

  lemma {:induction false} GroupHas(list: seq<Row>, g: string)
    ensures forall r :: r in GroupRows(list, g) <==> r in list && r.groupid == g
    decreases |list|
  {
    if list != [] {
      GroupHas(list[..|list| - 1], g);
      assert list == list[..|list| - 1] + [list[|list| - 1]];
    }
  }

  lemma GroupNonEmpty(list: seq<Row>, g: string)
    ensures Members(list, g) != [] <==> g in GroupIds(list)
  {
    GroupHas(list, g);
    if Members(list, g) != [] {
      assert GroupRows(list, g)[0] in list;
    }
    if g in GroupIds(list) {
      var i :| 0 <= i < |list| && list[i].groupid == g;
      assert list[i] in GroupRows(list, g);
    }
  }

  /** A group keeps list order: its rows are at increasing places of the list. */
  lemma {:induction false} GroupInOrder(list: seq<Row>, g: string) returns (at: seq<nat>)
    ensures |at| == |GroupRows(list, g)|
    ensures forall i :: 0 <= i < |at| ==> at[i] < |list| && list[at[i]] == GroupRows(list, g)[i]
    ensures forall i, j :: 0 <= i < j < |at| ==> at[i] < at[j]
    decreases |list|
  {
    at := [];
    if list != [] {
      var n := |list| - 1;
      at := GroupInOrder(list[..n], g);
      if list[n].groupid == g {
        at := at + [n];
      }
    }
  }

  /** The grouping is a stable partition: every row is in the group of its id and in no other, each group
      is in list order and so still sorted by `pauseval`, and no group repeats a file. */
  lemma StablePartition(list: seq<Row>, g: string)
    requires SortedByPause(list) && DistinctNames(list)
    ensures forall r :: r in GroupRows(list, g) <==> r in list && r.groupid == g
    ensures SortedByPause(GroupRows(list, g)) && DistinctNames(GroupRows(list, g))
    ensures forall r, h :: r in list && r.filename in Members(list, h) ==> h == r.groupid
  {
    GroupHas(list, g);
    var at := GroupInOrder(list, g);
    forall r, h | r in list && r.filename in Members(list, h) ensures h == r.groupid {
      GroupHas(list, h);
      var k :| 0 <= k < |Members(list, h)| && Members(list, h)[k] == r.filename;
      assert GroupRows(list, h)[k] in list;
    }
  }

  lemma {:induction false} FirstIsTheRow(list: seq<Row>, r: Row)
    requires DistinctNames(list) && r in list
    ensures FirstDuration(list, r.filename) == r.duration
  {
    if list[0] != r {
      assert r in list[1..];
      var k :| 0 <= k < |list[1..]| && list[1..][k] == r;
      assert list[k + 1] == r;
      FirstIsTheRow(list[1..], r);
    }
  }

  lemma {:induction false} FoundIsSum(list: seq<Row>, part: seq<Row>)
    requires DistinctNames(list) && forall r :: r in part ==> r in list
    ensures FoundSum(list, Names(part)) == DurationSum(part)
    decreases |part|
  {
    if part != [] {
      var init, r := part[..|part| - 1], part[|part| - 1];
      FoundIsSum(list, init);
      FirstIsTheRow(list, r);
      assert Names(part)[..|part| - 1] == Names(init);
    }
  }

  /** The duration written for a combined file is the sum of its members' durations. */
  lemma CombinedDuration(list: seq<Row>, g: string)
    requires DistinctNames(list) && Members(list, g) != []
    ensures CombinedRow(list, g).duration == DurationSum(GroupRows(list, g))
  {
    GroupHas(list, g);
    FoundIsSum(list, GroupRows(list, g));
  }

  /** The combined file is named after the first member: its name without the last three characters, and
      `~cmb.ts`. */
  lemma CombinedIsNamed(list: seq<Row>, g: string, stem: string, ending: string)
    requires Members(list, g) != [] && Members(list, g)[0] == stem + ending && |ending| == 3
    ensures CombinedRow(list, g).filename == stem + "~cmb.ts"
    ensures CombinedRow(list, g).groupid == g && CombinedRow(list, g).pauseval == 0 && !CombinedRow(list, g).converted
  {
    assert (stem + ending)[..|stem + ending| - 3] == stem;
  }

  function SumOverGroups(list: seq<Row>, order: seq<string>): nat {
    if order == [] then 0
    else SumOverGroups(list, order[..|order| - 1]) + DurationSum(GroupRows(list, order[|order| - 1]))
  }

  lemma GroupSumOneMore(list: seq<Row>, x: Row, g: string)
    ensures DurationSum(GroupRows(list + [x], g)) ==
            DurationSum(GroupRows(list, g)) + if x.groupid == g then x.duration else 0
  {
    var rows := GroupRows(list, g);
    assert (list + [x])[..|list|] == list;
    assert (rows + [x])[..|rows|] == rows && rows + [] == rows;
  }

  lemma LastInOrder(order: seq<string>, g: string)
    requires NoRepeats(order) && order != []
    ensures var init, last := order[..|order| - 1], order[|order| - 1];
            NoRepeats(init) && last !in init && (g in order <==> g in init || g == last)
  {
    assert order == order[..|order| - 1] + [order[|order| - 1]];
  }

  lemma {:induction false} OneMoreRow(list: seq<Row>, x: Row, order: seq<string>)
    requires NoRepeats(order)
    ensures SumOverGroups(list + [x], order) ==
            SumOverGroups(list, order) + if x.groupid in order then x.duration else 0
    decreases |order|
  {
    if order != [] {
      var init, g := order[..|order| - 1], order[|order| - 1];
      LastInOrder(order, x.groupid);
      OneMoreRow(list, x, init);
      GroupSumOneMore(list, x, g);
    }
  }

  lemma {:induction false} NoRows(order: seq<string>)
    ensures SumOverGroups([], order) == 0
    decreases |order|
  {
    if order != [] {
      NoRows(order[..|order| - 1]);
    }
  }

  /** No minute is lost or counted twice: the groups' durations add up to the list's. */
  lemma {:induction false} DurationConserved(list: seq<Row>, order: seq<string>)
    requires NoRepeats(order)
    requires forall i :: 0 <= i < |list| ==> list[i].groupid in order
    ensures SumOverGroups(list, order) == DurationSum(list)
    decreases |list|
  {
    if list == [] {
      NoRows(order);
    } else {
      var init, x := list[..|list| - 1], list[|list| - 1];
      DurationConserved(init, order);
      assert list == init + [x];
      OneMoreRow(init, x, order);
    }
  }

  // ---- the table

  lemma {:induction false} MarkAllFacts(rows: seq<Row>, names: seq<string>)
    ensures var m := MarkAll(rows, names);
            |m| == |rows| && forall i :: 0 <= i < |rows| ==>
              m[i] == if rows[i].filename in names then rows[i].(converted := true) else rows[i]
    decreases |names|
  {
    if names != [] {
      MarkAllFacts(rows, names[..|names| - 1]);
      assert names == names[..|names| - 1] + [names[|names| - 1]];
    }
  }

  /** Old rows keep everything but the flag, which is only ever set. */
  ghost predicate Grows(old_: seq<Row>, new_: seq<Row>) {
    && |old_| <= |new_|
    && forall i :: 0 <= i < |old_| ==>
         new_[i] == old_[i].(converted := new_[i].converted) && (old_[i].converted ==> new_[i].converted)
  }

  lemma ConvertGroupFacts(rows: seq<Row>, list: seq<Row>, g: string)
    requires Members(list, g) != []
    ensures var t := ConvertGroup(rows, list, g);
            && Grows(rows, t)
            && (forall i :: 0 <= i < |rows| && rows[i].filename in Members(list, g) ==> t[i].converted)
            && t[|rows|..] == AddedBy(list, g)
  {
    var names := Members(list, g);
    MarkAllFacts(rows, names);
    if |names| > 1 {
      var marked := MarkAll(rows, names);
      var all := marked + [CombinedRow(list, g)];
      var t := Mark(all, CombinedName(names[0]));
      assert all[|rows|] == CombinedRow(list, g);
      assert forall i :: 0 <= i < |rows| ==> all[i] == marked[i];
      assert t[|rows|..] == [t[|rows|]];
    }
  }

  function AddedBy(list: seq<Row>, g: string): seq<Row>
    requires Members(list, g) != []
  {
    if |Members(list, g)| > 1 then [CombinedRow(list, g).(converted := true)] else []
  }

  /** The rows the groups add, all of them converted. */
  function AddedRows(list: seq<Row>, order: seq<string>): seq<Row>
    requires NonEmptyGroups(list, order)
  {
    if order == [] then []
    else AddedRows(list, order[..|order| - 1]) + AddedBy(list, order[|order| - 1])
  }

  lemma {:induction false} AddedConverted(list: seq<Row>, order: seq<string>)
    requires NonEmptyGroups(list, order)
    ensures forall i :: 0 <= i < |AddedRows(list, order)| ==> AddedRows(list, order)[i].converted
    decreases |order|
  {
    if order != [] {
      AddedConverted(list, order[..|order| - 1]);
    }
  }

  lemma GrowsChain(rows: seq<Row>, s: seq<Row>, t: seq<Row>, added: seq<Row>, more: seq<Row>)
    requires Grows(rows, s) && Grows(s, t) && s[|rows|..] == added && t[|s|..] == more
    requires forall i :: 0 <= i < |added| ==> added[i].converted
    ensures Grows(rows, t) && t[|rows|..] == added + more
    ensures forall i :: 0 <= i < |rows| && s[i].converted ==> t[i].converted
  {
    forall i | 0 <= i < |added| ensures t[|rows| + i] == added[i] {
      assert s[|rows| + i] == added[i];
    }
  }

  ghost predicate MarkedSoFar(rows: seq<Row>, t: seq<Row>, list: seq<Row>, order: seq<string>) {
    && |rows| <= |t|
    && forall i, k :: 0 <= i < |rows| && 0 <= k < |order| ==>
         rows[i].filename in Members(list, order[k]) ==> t[i].converted
  }

  lemma NextGroup(rows: seq<Row>, s: seq<Row>, list: seq<Row>, order: seq<string>, g: string, added: seq<Row>)
    requires Grows(rows, s) && MarkedSoFar(rows, s, list, order) && s[|rows|..] == added && Members(list, g) != []
    requires forall i :: 0 <= i < |added| ==> added[i].converted
    ensures var t := ConvertGroup(s, list, g);
            Grows(rows, t) && MarkedSoFar(rows, t, list, order + [g]) && t[|rows|..] == added + AddedBy(list, g)
  {
    var t := ConvertGroup(s, list, g);
    ConvertGroupFacts(s, list, g);
    GrowsChain(rows, s, t, added, AddedBy(list, g));
    MarkedMore(rows, s, t, list, order, g);
  }

  lemma LastGroup(rows: seq<Row>, list: seq<Row>, order: seq<string>)
    requires NonEmptyGroups(list, order) && order != []
    ensures var init, g := order[..|order| - 1], order[|order| - 1];
            && NonEmptyGroups(list, init) && Members(list, g) != []
            && ConvertGroups(rows, list, order) == ConvertGroup(ConvertGroups(rows, list, init), list, g)
            && AddedRows(list, order) == AddedRows(list, init) + AddedBy(list, g)
  {
  }

  lemma {:induction false} ConvertGroupsFacts(rows: seq<Row>, list: seq<Row>, order: seq<string>)
    requires NonEmptyGroups(list, order)
    ensures var t := ConvertGroups(rows, list, order);
            Grows(rows, t) && MarkedSoFar(rows, t, list, order) && t[|rows|..] == AddedRows(list, order)
    decreases |order|
  {
    if order != [] {
      var init, g := order[..|order| - 1], order[|order| - 1];
      LastGroup(rows, list, order);
      ConvertGroupsFacts(rows, list, init);
      AddedConverted(list, init);
      NextGroup(rows, ConvertGroups(rows, list, init), list, init, g, AddedRows(list, init));
      assert order == init + [g];
    }
  }

  lemma MarkedMore(rows: seq<Row>, s: seq<Row>, t: seq<Row>, list: seq<Row>, order: seq<string>, g: string)
    requires Grows(rows, s) && MarkedSoFar(rows, s, list, order) && |s| <= |t|
    requires forall i :: 0 <= i < |rows| && s[i].converted ==> t[i].converted
    requires forall i :: 0 <= i < |s| && s[i].filename in Members(list, g) ==> t[i].converted
    ensures MarkedSoFar(rows, t, list, order + [g])
  {
    forall i, k | 0 <= i < |rows| && 0 <= k < |order + [g]| && rows[i].filename in Members(list, (order + [g])[k])
      ensures t[i].converted
    {
      if k < |order| {
        assert rows[i].filename in Members(list, order[k]);
      }
    }
  }

  lemma {:induction false} UnconvertedHas(rows: seq<Row>)
    ensures forall r :: r in Unconverted(rows) <==> r in rows && !r.converted
    decreases |rows|
  {
    if rows != [] {
      UnconvertedHas(rows[..|rows| - 1]);
      assert rows == rows[..|rows| - 1] + [rows[|rows| - 1]];
    }
  }

  /** When every statement succeeds, whatever the order of the groups: all rows of the table end converted,
      so the next listing is empty; old rows change in nothing else; and exactly the groups of several
      files have added one row each, with the group's id and total duration. */
  lemma EverythingConverted(rows: seq<Row>, list: seq<Row>, order: seq<string>)
    requires IsListing(rows, list) && IsOrder(list, order)
    ensures NonEmptyGroups(list, order)
    ensures var t := ConvertGroups(rows, list, order);
            && Grows(rows, t)
            && t[|rows|..] == AddedRows(list, order)
            && (forall i :: 0 <= i < |t| ==> t[i].converted)
            && Unconverted(t) == []
  {
    OrderNonEmpty(list, order);
    var t := ConvertGroups(rows, list, order);
    ConvertGroupsFacts(rows, list, order);
    AddedConverted(list, order);
    UnconvertedHas(rows);
    forall i | 0 <= i < |t| ensures t[i].converted {
      if i >= |rows| {
        assert t[i] == AddedRows(list, order)[i - |rows|];
      } else if !rows[i].converted {
        assert rows[i] in multiset(Unconverted(rows));
        assert rows[i] in list;
        ListedInGroup(list, rows[i], order);
      }
    }
    NoneUnconverted(t);
  }

  lemma OrderNonEmpty(list: seq<Row>, order: seq<string>)
    requires IsOrder(list, order)
    ensures NonEmptyGroups(list, order)
  {
    forall i | 0 <= i < |order| ensures Members(list, order[i]) != [] {
      GroupNonEmpty(list, order[i]);
    }
  }

  lemma {:induction false} NoneUnconverted(rows: seq<Row>)
    requires forall i :: 0 <= i < |rows| ==> rows[i].converted
    ensures Unconverted(rows) == []
    decreases |rows|
  {
    if rows != [] {
      NoneUnconverted(rows[..|rows| - 1]);
    }
  }

  lemma ListedInGroup(list: seq<Row>, r: Row, order: seq<string>)
    requires r in list && IsOrder(list, order)
    ensures exists k :: 0 <= k < |order| && r.filename in Members(list, order[k])
  {
    GroupHas(list, r.groupid);
    assert r.groupid in GroupIds(list);
    var k :| 0 <= k < |order| && order[k] == r.groupid;
    var i :| 0 <= i < |GroupRows(list, order[k])| && GroupRows(list, order[k])[i] == r;
    assert Members(list, order[k])[i] == r.filename;
  }

  // ---- the handler

  lemma OneMoreFile(list: seq<Row>, file: Row, g: string)
    ensures Members(list + [file], g) == Members(list, g) + if file.groupid == g then [file.filename] else []
    ensures GroupIds(list + [file]) == GroupIds(list) + {file.groupid}
  {
    assert (list + [file])[..|list|] == list;
    assert GroupRows(list, g) + [] == GroupRows(list, g);
  }

  /** The groups of a list, as the object `vidgroups` holds them. */
  ghost predicate IsGrouping(list: seq<Row>, groups: map<string, seq<string>>) {
    && groups.Keys == GroupIds(list)
    && forall g :: g in groups ==> groups[g] == Members(list, g)
  }

  /** The first loop of the handler: file names collected by group id. */
  method GroupFiles(list: seq<Row>) returns (groups: map<string, seq<string>>)
    ensures IsGrouping(list, groups)
  {
    groups := map[];
    for i := 0 to |list|
      invariant IsGrouping(list[..i], groups)
    {
      var file := list[i];
      AddFile(list[..i], file, groups);
      assert list[..i + 1] == list[..i] + [file];
      if file.groupid in groups {
        groups := groups[file.groupid := groups[file.groupid] + [file.filename]];
      } else {
        groups := groups[file.groupid := [file.filename]];
      }
    }
    assert list[..|list|] == list;
  }

  lemma AddFile(list: seq<Row>, file: Row, groups: map<string, seq<string>>)
    requires IsGrouping(list, groups)
    ensures var names := if file.groupid in groups then groups[file.groupid] + [file.filename] else [file.filename];
            IsGrouping(list + [file], groups[file.groupid := names])
  {
    GroupNonEmpty(list, file.groupid);
    OneMoreFile(list, file, file.groupid);
    assert [] + [file.filename] == [file.filename];
    forall g | g in groups && g != file.groupid ensures groups[g] == Members(list + [file], g) {
      OneMoreFile(list, file, g);
    }
  }

  class VideoQueue {
    var rows: seq<Row>

    constructor (initial: seq<Row>)
      ensures rows == initial
    {
      rows := initial;
    }

    method UpdateConverted(name: string)
      modifies this
      ensures rows == Mark(old(rows), name)
    {
      rows := Mark(rows, name);
    }

    method Insert(r: Row)
      modifies this
      ensures rows == old(rows) + [r]
    {
      rows := rows + [r];
    }

    method ConvertOne(list: seq<Row>, g: string, names: seq<string>)
      requires names == Members(list, g) && names != []
      modifies this
      ensures rows == ConvertGroup(old(rows), list, g)
      ensures |names| == 1 ==> |rows| == |old(rows)|
      ensures |names| > 1 ==>
                && |rows| == |old(rows)| + 1
                && rows[|old(rows)|] ==
                   Row((if |names[0]| < 3 then "" else names[0][..|names[0]| - 3]) + "~cmb.ts",
                       FoundSum(list, names), g, 0, true)
    {
      if |names| > 1 {
        for i := 0 to |names|
          invariant rows == MarkAll(old(rows), names[..i])
        {
          assert names[..i + 1][..i] == names[..i];
          UpdateConverted(names[i]);
        }
        assert names[..|names|] == names;
        var duration := 0;
        for i := 0 to |names|
          invariant duration == FoundSum(list, names[..i])
        {
          assert names[..i + 1][..i] == names[..i];
          duration := duration + FirstDuration(list, names[i]);
        }
        Insert(Row(CombinedName(names[0]), duration, g, 0, false));
        UpdateConverted(CombinedName(names[0]));
      } else {
        UpdateConverted(names[0]);
      }
      ConvertGroupFacts(old(rows), list, g);
    }

    /** The handler: the groups are taken in the order of `Object.entries`, which mixes insertion and
        numeric order; any order is allowed here. */
    method StartConvert(list: seq<Row>) returns (ghost order: seq<string>)
      requires IsListing(rows, list)
      modifies this
      ensures IsOrder(list, order) && NonEmptyGroups(list, order)
      ensures rows == ConvertGroups(old(rows), list, order)
      ensures Unconverted(rows) == [] && Grows(old(rows), rows) && rows[|old(rows)|..] == AddedRows(list, order)
    {
      var groups := GroupFiles(list);
      order := ConvertEach(list, groups);
      EverythingConverted(old(rows), list, order);
    }

    method ConvertEach(list: seq<Row>, groups: map<string, seq<string>>) returns (ghost order: seq<string>)
      requires IsGrouping(list, groups)
      modifies this
      ensures IsOrder(list, order) && NonEmptyGroups(list, order)
      ensures rows == ConvertGroups(old(rows), list, order)
    {
      order := [];
      var todo := groups.Keys;
      while todo != {}
        invariant todo <= groups.Keys
        invariant NoRepeats(order) && NonEmptyGroups(list, order)
        invariant forall g :: g in order <==> g in groups.Keys && g !in todo
        invariant rows == ConvertGroups(old(rows), list, order)
        decreases todo
      {
        var g :| g in todo;
        TakeGroup(old(rows), list, order, g);
        ConvertOne(list, g, groups[g]);
        order := order + [g];
        todo := todo - {g};
      }
    }
  }

  lemma TakeGroup(rows: seq<Row>, list: seq<Row>, order: seq<string>, g: string)
    requires NoRepeats(order) && NonEmptyGroups(list, order) && g !in order && g in GroupIds(list)
    ensures NoRepeats(order + [g]) && NonEmptyGroups(list, order + [g]) && Members(list, g) != []
    ensures ConvertGroups(rows, list, order + [g]) == ConvertGroup(ConvertGroups(rows, list, order), list, g)
  {
    GroupNonEmpty(list, g);
    assert (order + [g])[..|order|] == order;
  }
}
