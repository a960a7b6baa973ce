/** The batch view of slide capture: cut the usable frames of a session into maximal runs of
    look-alike frames and keep the last frame of each run. */
module SlideRuns {
  type Image = string
  type Hash = seq<bool>
  type Distance = (Hash, Hash) -> nat

  const PHASH_THRESHOLD: nat := 10

  /** A captured frame with its perceptual hash. */
  datatype Shot = Shot(image: Image, hash: Hash)

  predicate SameSlide(dist: Distance, prev: Shot, curr: Shot) {
    dist(curr.hash, prev.hash) <= PHASH_THRESHOLD
  }

  function Last<T>(s: seq<T>): T
    requires s != []
  {
    s[|s| - 1]
  }

  function Init<T>(s: seq<T>): seq<T>
    requires s != []
  {
    s[..|s| - 1]
  }

  /** The runs, built frame by frame. */
  function Runs(dist: Distance, shots: seq<Shot>): (runs: seq<seq<Shot>>)
    ensures shots == [] <==> runs == []
    ensures forall i :: 0 <= i < |runs| ==> runs[i] != []
    ensures shots != [] ==> Last(Last(runs)) == Last(shots)
  {
    if shots == [] then []
    else
      var before := Runs(dist, Init(shots));
      if before != [] && SameSlide(dist, Last(Init(shots)), Last(shots))
      then Init(before) + [Last(before) + [Last(shots)]]
      else before + [[Last(shots)]]
  }

  function Flatten<T>(runs: seq<seq<T>>): seq<T> {
    if runs == [] then [] else Flatten(Init(runs)) + Last(runs)
  }

  predicate Alike(dist: Distance, run: seq<Shot>) {
    run != [] && forall i :: 0 < i < |run| ==> SameSlide(dist, run[i - 1], run[i])
  }

  predicate Apart(dist: Distance, run: seq<Shot>, next: seq<Shot>) {
    run != [] && next != [] && !SameSlide(dist, Last(run), next[0])
  }

  /** What it means to cut `shots` into maximal runs: nothing lost, adjacent frames of one run are
      look-alikes, and the frames on the two sides of a cut are not. */
  ghost predicate MaximalRuns(dist: Distance, shots: seq<Shot>, runs: seq<seq<Shot>>) {
    Flatten(runs) == shots && WellCut(dist, runs)
  }

  ghost predicate WellCut(dist: Distance, runs: seq<seq<Shot>>) {
    && (forall r :: 0 <= r < |runs| ==> Alike(dist, runs[r]))
    && (forall r :: 0 < r < |runs| ==> Apart(dist, runs[r - 1], runs[r]))
  }

  lemma FlattenSnoc(runs: seq<seq<Shot>>, run: seq<Shot>)
    ensures Flatten(runs + [run]) == Flatten(runs) + run
  {
    assert Init(runs + [run]) == runs;
  }

  lemma RunsEnd(dist: Distance, shots: seq<Shot>, runs: seq<seq<Shot>>)
    requires MaximalRuns(dist, shots, runs)
    ensures shots == [] <==> runs == []
    ensures shots != [] ==> Last(runs) != [] && Last(Last(runs)) == Last(shots)
  {
    if runs != [] {
      assert Alike(dist, Last(runs));
    }
  }

  lemma ExtendRun(dist: Distance, shots: seq<Shot>, runs: seq<seq<Shot>>, x: Shot)
    requires MaximalRuns(dist, shots, runs) && shots != [] && SameSlide(dist, Last(shots), x)
    ensures runs != [] && MaximalRuns(dist, shots + [x], Init(runs) + [Last(runs) + [x]])
  {
    RunsEnd(dist, shots, runs);
    var run := Last(runs);
    FlattenSnoc(Init(runs), run + [x]);
    assert Flatten(Init(runs)) + (run + [x]) == (Flatten(Init(runs)) + run) + [x];
    assert Alike(dist, run + [x]);
    var longer := Init(runs) + [run + [x]];
    forall r | 0 < r < |longer| ensures Apart(dist, longer[r - 1], longer[r]) {
      assert Apart(dist, runs[r - 1], runs[r]);
    }
  }

  lemma OpenRun(dist: Distance, shots: seq<Shot>, runs: seq<seq<Shot>>, x: Shot)
    requires MaximalRuns(dist, shots, runs) && (shots != [] ==> !SameSlide(dist, Last(shots), x))
    ensures MaximalRuns(dist, shots + [x], runs + [[x]])
  {
    RunsEnd(dist, shots, runs);
    FlattenSnoc(runs, [x]);
    assert Alike(dist, [x]);
  }

  lemma {:induction false} RunsAreMaximal(dist: Distance, shots: seq<Shot>)
    ensures MaximalRuns(dist, shots, Runs(dist, shots))
  {
    if shots != [] {
      var init, x := Init(shots), Last(shots);
      RunsAreMaximal(dist, init);
      assert shots == init + [x];
      if init != [] && SameSlide(dist, Last(init), x) {
        ExtendRun(dist, init, Runs(dist, init), x);
      } else {
        OpenRun(dist, init, Runs(dist, init), x);
      }
    }
  }

  lemma SnocInjective<T>(a: seq<T>, b: seq<T>, x: T)
    requires a + [x] == b + [x]
    ensures a == b
  {
    assert a == (a + [x])[..|a|];
    assert b == (b + [x])[..|b|];
  }

  lemma WellCutInit(dist: Distance, runs: seq<seq<Shot>>)
    requires WellCut(dist, runs) && runs != []
    ensures WellCut(dist, Init(runs))
    ensures |Last(runs)| > 1 ==> WellCut(dist, Init(runs) + [Init(Last(runs))])
  {
    var n, run := |runs| - 1, Last(runs);
    assert forall r :: 0 <= r < n ==> Init(runs)[r] == runs[r];
    assert Alike(dist, runs[n]);
    if |run| > 1 {
      assert Alike(dist, Init(run));
      if n > 0 {
        assert Apart(dist, runs[n - 1], runs[n]);
      }
    }
  }

  /** Taking the last frame away leaves maximal runs, and says how the last frame was added. */
  lemma DropLastFrame(dist: Distance, init: seq<Shot>, x: Shot, runs: seq<seq<Shot>>) returns (shorter: seq<seq<Shot>>)
    requires MaximalRuns(dist, init + [x], runs)
    ensures MaximalRuns(dist, init, shorter)
    ensures init == [] <==> shorter == []
    ensures runs == if init != [] && SameSlide(dist, Last(init), x) then Init(shorter) + [Last(shorter) + [x]]
                    else shorter + [[x]]
  {
    RunsEnd(dist, init + [x], runs);
    WellCutInit(dist, runs);
    var run := Last(runs);
    assert Last(init + [x]) == x && run == Init(run) + [x];
    assert runs == Init(runs) + [run];
    shorter := if |run| == 1 then Init(runs) else Init(runs) + [Init(run)];
    DropFromLastRun(runs, init, x);
    RunsEnd(dist, init, shorter);
    if |run| == 1 {
      assert run == [x];
      if shorter != [] {
        assert Apart(dist, runs[|runs| - 2], runs[|runs| - 1]);
      }
    } else {
      assert Alike(dist, run);
      assert Init(shorter) == Init(runs) && Last(shorter) == Init(run);
    }
  }

  lemma DropFromLastRun(runs: seq<seq<Shot>>, init: seq<Shot>, x: Shot)
    requires runs != [] && Last(runs) != [] && Flatten(runs) == init + [x]
    requires Last(Last(runs)) == x
    ensures Flatten(Init(runs) + [Init(Last(runs))]) == init
    ensures |Last(runs)| == 1 ==> Flatten(Init(runs)) == init
  {
    var run := Last(runs);
    assert run == Init(run) + [x];
    FlattenSnoc(Init(runs), Init(run));
    assert init + [x] == (Flatten(Init(runs)) + Init(run)) + [x];
    SnocInjective(init, Flatten(Init(runs)) + Init(run), x);
  }

  /** There is only one way to cut a list of frames into maximal runs. */
  lemma {:induction false} MaximalRunsUnique(dist: Distance, shots: seq<Shot>, runs: seq<seq<Shot>>)
    requires MaximalRuns(dist, shots, runs)
    ensures runs == Runs(dist, shots)
    decreases |shots|
  {
    RunsEnd(dist, shots, runs);
    if shots != [] {
      assert shots == Init(shots) + [Last(shots)];
      var shorter := DropLastFrame(dist, Init(shots), Last(shots), runs);
      MaximalRunsUnique(dist, Init(shots), shorter);
    }
  }

  /** The batch specification of the saved slides: the last frame of each run. */
  function LastFrames(runs: seq<seq<Shot>>): (r: seq<Image>)
    requires forall i :: 0 <= i < |runs| ==> runs[i] != []
  {
    seq(|runs|, i requires 0 <= i < |runs| => Last(runs[i]).image)
  }

  function BatchSlides(dist: Distance, shots: seq<Shot>): seq<Image> {
    LastFrames(Runs(dist, shots))
  }

  /** One more frame either replaces the last slide of the batch or adds one. */
  lemma BatchGrows(dist: Distance, shots: seq<Shot>, x: Shot)
    ensures BatchSlides(dist, shots + [x]) ==
            (if shots != [] && SameSlide(dist, Last(shots), x) then Init(BatchSlides(dist, shots))
             else BatchSlides(dist, shots))
            + [x.image]
  {
    assert Init(shots + [x]) == shots;
  }
}
