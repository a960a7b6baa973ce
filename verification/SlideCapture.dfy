/** The streaming slide capture service: a keyboard- and clock-driven loop whose memory is a few
    variables and two directories. It refines the batch view of `SlideRuns`. */
module SlideCapture {
  import opened Wrappers
  import opened Decimal
  import opened SlideRuns

  const CAPTURE_INTERVAL: real := 1.0

  type Directory = map<string, Image>

  /** Python's `int(x)`: truncation towards zero. */
  function Trunc(x: real): int {
    if x < 0.0 then -((-x).Floor) else x.Floor
  }

  function FrameName(t: int): string {
    "frame_" + (if t < 0 then "-" + Print(-t) else Print(t)) + ".png"
  }

  function SlideName(n: nat): string {
    "slide_" + PadStart(Print(n), 3) + ".png"
  }

  lemma NamesInjective(m: nat, n: nat)
    ensures FrameName(m) == FrameName(n) ==> m == n
    ensures SlideName(m) == SlideName(n) ==> m == n
  {
    var fm, fn := FrameName(m), FrameName(n);
    assert fm[6..|fm| - 4] == Print(m) && fn[6..|fn| - 4] == Print(n);
    var sm, sn := SlideName(m), SlideName(n);
    assert sm[6..|sm| - 4] == PadStart(Print(m), 3) && sn[6..|sn| - 4] == PadStart(Print(n), 3);
    ReadPadded(m, 3);
    ReadPadded(n, 3);
  }

  /** A slide's name: its number in at least three digits, padded with zeros. */
  lemma SlideNameReads(n: nat)
    ensures var digits := PadStart(Print(n), 3);
            && SlideName(n) == "slide_" + digits + ".png" && Read(digits) == Some(n)
            && |digits| == if |Print(n)| < 3 then 3 else |Print(n)|
  {
    ReadPadded(n, 3);
  }

  /** The globals of the service, the files of `session_dir` and those of its `.tmp`. */
  datatype Memory = Memory(
    capturing: bool,
    candidate: Option<string>,
    lastHash: Option<Hash>,
    slideIndex: nat,
    lastCaptureTime: real,
    tmp: Directory,
    session: Directory)

  datatype Command = NoKey | StartKey | EndKey

  /** What one turn of the endless loop meets: a key, the files already under the session's name
      (none, unless two sessions start in the same second), the clock, the source image if it
      exists, whether the copy succeeds, and the hash unless computing it fails. */
  datatype Turn = Turn(
    cmd: Command,
    found: Directory,
    now: real,
    source: Option<Image>,
    copied: bool,
    hash: Option<Hash>)

  const INITIAL := Memory(false, None, None, 0, 0.0, map[], map[])

  function StartSession(s: Memory, found: Directory): Memory {
    s.(capturing := true, candidate := None, lastHash := None, slideIndex := 0, tmp := map[], session := found)
  }

  function MoveToSession(s: Memory, c: string): Memory
    requires c in s.tmp
  {
    s.(slideIndex := s.slideIndex + 1, session := s.session[SlideName(s.slideIndex + 1) := s.tmp[c]],
       tmp := s.tmp - {c})
  }

  function FinalizeLastSlide(s: Memory): Memory {
    if s.candidate.Some? && s.candidate.value in s.tmp
    then MoveToSession(s, s.candidate.value).(candidate := None)
    else s
  }

  function EndSession(s: Memory): Memory {
    FinalizeLastSlide(s).(tmp := map[], capturing := false)
  }

  function HandleKey(s: Memory, e: Turn): Memory {
    if e.cmd == StartKey && !s.capturing then StartSession(s, e.found)
    else if e.cmd == EndKey && s.capturing then EndSession(s)
    else s
  }

  /** A turn that gets a frame as far as the comparison with the candidate. */
  predicate Captures(s: Memory, e: Turn) {
    s.capturing && e.now - s.lastCaptureTime >= CAPTURE_INTERVAL && e.source.Some? && e.copied && e.hash.Some?
  }

  /** Compares the frame just copied to `name` with the candidate. */
  function Compare(dist: Distance, s: Memory, name: string, hash: Hash): Memory {
    match (s.candidate, s.lastHash)
    case (Some(c), Some(h)) =>
      if dist(hash, h) <= PHASH_THRESHOLD
      then s.(tmp := s.tmp - {c}, candidate := Some(name), lastHash := Some(hash))
      else if c in s.tmp
      then MoveToSession(s, c).(candidate := Some(name), lastHash := Some(hash))
      else s
    case _ => s.(candidate := Some(name), lastHash := Some(hash))
  }

  function TakeFrame(dist: Distance, s: Memory, e: Turn): Memory {
    if e.now - s.lastCaptureTime < CAPTURE_INTERVAL then s
    else
      var t := s.(lastCaptureTime := e.now);
      if e.source.None? || !e.copied || e.hash.None? then t
      else
        var name := FrameName(Trunc(e.now));
        Compare(dist, t.(tmp := t.tmp[name := e.source.value]), name, e.hash.value)
  }

  function Step(dist: Distance, s: Memory, e: Turn): Memory {
    var k := HandleKey(s, e);
    if k.capturing then TakeFrame(dist, k, e) else k
  }

  /** The history of the current session (or of the last one): the files found in its directory
      when it started, and the usable frames since. */
  datatype History = History(found: Directory, shots: seq<Shot>)

  function NoteKey(h: History, s: Memory, e: Turn): History {
    if e.cmd == StartKey && !s.capturing then History(e.found, []) else h
  }

  function NoteFrame(h: History, s: Memory, e: Turn): History {
    if Captures(s, e) then h.(shots := h.shots + [Shot(e.source.value, e.hash.value)]) else h
  }

  function Note(h: History, s: Memory, e: Turn): History {
    NoteFrame(NoteKey(h, s, e), HandleKey(s, e), e)
  }

  /** The directory after saving `slides` as numbers 1, 2, ... */
  ghost function Saved(found: Directory, slides: seq<Image>): Directory {
    if slides == [] then found else Saved(found, Init(slides))[SlideName(|slides|) := Last(slides)]
  }

  lemma {:induction false} SavedFiles(found: Directory, slides: seq<Image>)
    ensures forall n :: 0 < n <= |slides| ==>
            SlideName(n) in Saved(found, slides) && Saved(found, slides)[SlideName(n)] == slides[n - 1]
    ensures forall f :: f in Saved(found, slides) ==>
              (exists n :: 0 < n <= |slides| && f == SlideName(n)) ||
              (f in found && Saved(found, slides)[f] == found[f])
    ensures forall f :: f in found && (forall n :: 0 < n <= |slides| ==> f != SlideName(n)) ==>
              f in Saved(found, slides) && Saved(found, slides)[f] == found[f]
    decreases |slides|
  {
    if slides != [] {
      SavedFiles(found, Init(slides));
      forall n: nat | 0 < n < |slides| ensures SlideName(n) != SlideName(|slides|) {
        NamesInjective(n, |slides|);
      }
    }
  }

  function Finished(dist: Distance, shots: seq<Shot>): seq<Image> {
    if shots == [] then [] else Init(BatchSlides(dist, shots))
  }

  /** What holds at every turn. While capturing, the temporary directory holds the newest usable
      frame as the candidate and nothing else, and the session holds the finished slides; after
      the end it holds all of them and the temporary directory is empty. */
  ghost predicate Inv(dist: Distance, s: Memory, h: History) {
    && s.lastCaptureTime >= 0.0
    && TmpInv(s, h.shots)
    && SessionInv(dist, s, h)
  }

  ghost predicate NamedBefore(c: string, time: real) {
    exists t: nat :: t <= time.Floor && c == FrameName(t)
  }

  ghost predicate TmpInv(s: Memory, shots: seq<Shot>) {
    match s.candidate
    case None =>
      s.tmp == map[] && (s.capturing ==> shots == [])
    case Some(c) =>
      && s.capturing && shots != [] && NamedBefore(c, s.lastCaptureTime)
      && s.tmp == map[c := Last(shots).image] && s.lastHash == Some(Last(shots).hash)
  }

  ghost predicate SessionInv(dist: Distance, s: Memory, h: History) {
    var slides := if s.capturing then Finished(dist, h.shots) else BatchSlides(dist, h.shots);
    s.slideIndex == |slides| && s.session == Saved(h.found, slides)
  }

  lemma InitialInv(dist: Distance)
    ensures Inv(dist, INITIAL, History(map[], []))
  {
  }

  /** One second between captures makes the whole-second file names differ. */
  lemma IntervalSeparatesNames(last: real, now: real, t: nat)
    requires last >= 0.0 && t <= last.Floor && now - last >= CAPTURE_INTERVAL
    ensures Trunc(now) > last.Floor
    ensures FrameName(Trunc(now)) != FrameName(t)
  {
    NamesInjective(t, Trunc(now));
  }

  lemma SavedGrows(found: Directory, slides: seq<Image>, x: Image)
    ensures Saved(found, slides + [x]) == Saved(found, slides)[SlideName(|slides| + 1) := x]
  {
    assert Init(slides + [x]) == slides;
  }

  lemma KeyKeepsInv(dist: Distance, s: Memory, h: History, e: Turn)
    requires Inv(dist, s, h)
    ensures Inv(dist, HandleKey(s, e), NoteKey(h, s, e))
  {
    if e.cmd == EndKey && s.capturing {
      EndKeepsInv(dist, s, h);
    }
  }

  lemma EndKeepsInv(dist: Distance, s: Memory, h: History)
    requires Inv(dist, s, h) && s.capturing
    ensures Inv(dist, EndSession(s), h)
  {
    if s.candidate.Some? {
      var batch := BatchSlides(dist, h.shots);
      assert Last(batch) == Last(h.shots).image;
      assert batch == Init(batch) + [Last(batch)];
      SavedGrows(h.found, Init(batch), Last(batch));
    }
  }

  /** A capturing turn finds its file name free. */
  lemma NameIsFree(s: Memory, shots: seq<Shot>, now: real)
    requires s.lastCaptureTime >= 0.0 && TmpInv(s, shots) && now - s.lastCaptureTime >= CAPTURE_INTERVAL
    ensures FrameName(Trunc(now)) !in s.tmp
    ensures NamedBefore(FrameName(Trunc(now)), now)
    ensures s.candidate.Some? ==> NamedBefore(s.candidate.value, now)
  {
    assert Trunc(now) <= now.Floor;
    if s.candidate.Some? {
      var t: nat :| t <= s.lastCaptureTime.Floor && s.candidate.value == FrameName(t);
      IntervalSeparatesNames(s.lastCaptureTime, now, t);
    }
  }

  lemma FinishedGrows(dist: Distance, shots: seq<Shot>, shot: Shot)
    ensures shots == [] ==> Finished(dist, shots + [shot]) == []
    ensures shots != [] && SameSlide(dist, Last(shots), shot) ==>
            Finished(dist, shots + [shot]) == Finished(dist, shots)
    ensures shots != [] && !SameSlide(dist, Last(shots), shot) ==>
              Finished(dist, shots + [shot]) == Finished(dist, shots) + [Last(shots).image]
  {
    BatchGrows(dist, shots, shot);
    var batch := BatchSlides(dist, shots);
    if shots != [] {
      assert Last(batch) == Last(shots).image;
      assert batch == Init(batch) + [Last(batch)];
    }
    var kept := if shots != [] && SameSlide(dist, Last(shots), shot) then Init(batch) else batch;
    assert Init(kept + [shot.image]) == kept;
  }

  lemma CompareKeepsTmp(dist: Distance, s: Memory, shots: seq<Shot>, now: real, name: string, shot: Shot)
    requires TmpInv(s, shots) && s.capturing && name !in s.tmp && NamedBefore(name, now)
    ensures var s' := Compare(dist, s.(lastCaptureTime := now, tmp := s.tmp[name := shot.image]), name, shot.hash);
            TmpInv(s', shots + [shot]) && s'.tmp == map[name := shot.image] && s'.candidate == Some(name)
  {
    if s.candidate.Some? {
      assert s.tmp[name := shot.image] - {s.candidate.value} == map[name := shot.image];
    }
  }

  lemma CompareLeaves(dist: Distance, s: Memory, shots: seq<Shot>, now: real, name: string, shot: Shot)
    requires TmpInv(s, shots) && name !in s.tmp
    ensures var s' := Compare(dist, s.(lastCaptureTime := now, tmp := s.tmp[name := shot.image]), name, shot.hash);
            && s'.tmp == map[name := shot.image] && s'.candidate == Some(name) && s'.lastHash == Some(shot.hash)
            && s'.lastCaptureTime == now
  {
    if s.candidate.Some? {
      assert s.tmp[name := shot.image] - {s.candidate.value} == map[name := shot.image];
    }
  }

  lemma CompareKeepsSession(dist: Distance, s: Memory, h: History, now: real, name: string, shot: Shot)
    requires TmpInv(s, h.shots) && SessionInv(dist, s, h) && s.capturing && name !in s.tmp
    ensures var s' := Compare(dist, s.(lastCaptureTime := now, tmp := s.tmp[name := shot.image]), name, shot.hash);
            SessionInv(dist, s', h.(shots := h.shots + [shot]))
  {
    FinishedGrows(dist, h.shots, shot);
    if s.candidate.Some? {
      assert SameSlide(dist, Last(h.shots), shot) == (dist(shot.hash, s.lastHash.value) <= PHASH_THRESHOLD);
      SavedGrows(h.found, Finished(dist, h.shots), Last(h.shots).image);
    }
  }

  lemma CompareKeepsInv(dist: Distance, s: Memory, h: History, now: real, name: string, shot: Shot)
    requires Inv(dist, s, h) && s.capturing && name !in s.tmp && NamedBefore(name, now) && now >= 0.0
    ensures var s' := Compare(dist, s.(lastCaptureTime := now, tmp := s.tmp[name := shot.image]), name, shot.hash);
            Inv(dist, s', h.(shots := h.shots + [shot]))
  {
    CompareKeepsTmp(dist, s, h.shots, now, name, shot);
    CompareKeepsSession(dist, s, h, now, name, shot);
  }

  lemma SkipKeepsInv(dist: Distance, s: Memory, h: History, now: real)
    requires Inv(dist, s, h) && now >= 0.0 && (s.candidate.Some? ==> NamedBefore(s.candidate.value, now))
    ensures Inv(dist, s.(lastCaptureTime := now), h)
  {
  }

  /** The three ways of a capturing turn. */
  lemma TakeFrameIs(dist: Distance, s: Memory, e: Turn)
    requires s.capturing
    ensures e.now - s.lastCaptureTime < CAPTURE_INTERVAL ==> TakeFrame(dist, s, e) == s
    ensures Captures(s, e) ==>
              var name := FrameName(Trunc(e.now));
              TakeFrame(dist, s, e) ==
              Compare(dist, s.(lastCaptureTime := e.now, tmp := s.tmp[name := e.source.value]), name, e.hash.value)
    ensures e.now - s.lastCaptureTime >= CAPTURE_INTERVAL && !Captures(s, e) ==>
              TakeFrame(dist, s, e) == s.(lastCaptureTime := e.now)
  {
  }

  lemma TakeFrameKeepsInv(dist: Distance, s: Memory, h: History, e: Turn)
    requires Inv(dist, s, h) && s.capturing
    ensures Inv(dist, TakeFrame(dist, s, e), NoteFrame(h, s, e))
  {
    TakeFrameIs(dist, s, e);
    if e.now - s.lastCaptureTime >= CAPTURE_INTERVAL {
      NameIsFree(s, h.shots, e.now);
      if Captures(s, e) {
        var shot := Shot(e.source.value, e.hash.value);
        CompareKeepsInv(dist, s, h, e.now, FrameName(Trunc(e.now)), shot);
        assert NoteFrame(h, s, e) == h.(shots := h.shots + [shot]);
      } else {
        SkipKeepsInv(dist, s, h, e.now);
      }
    }
  }

  lemma StepKeepsInv(dist: Distance, s: Memory, h: History, e: Turn)
    requires Inv(dist, s, h)
    ensures Inv(dist, Step(dist, s, e), Note(h, s, e))
  {
    KeyKeepsInv(dist, s, h, e);
    if HandleKey(s, e).capturing {
      TakeFrameKeepsInv(dist, HandleKey(s, e), NoteKey(h, s, e), e);
    }
  }

  /** Every run of the service from its start. */
  function Run(dist: Distance, turns: seq<Turn>): (Memory, History) {
    if turns == [] then (INITIAL, History(map[], []))
    else
      var (s, h) := Run(dist, Init(turns));
      (Step(dist, s, Last(turns)), Note(h, s, Last(turns)))
  }

  lemma {:induction false} RunInv(dist: Distance, turns: seq<Turn>)
    ensures Inv(dist, Run(dist, turns).0, Run(dist, turns).1)
    decreases |turns|
  {
    if turns != [] {
      RunInv(dist, Init(turns));
      var (s, h) := Run(dist, Init(turns));
      StepKeepsInv(dist, s, h, Last(turns));
    }
  }

  // ---- the session, read off the turns alone

  /** A session is open: the last key that was typed is the start key. */
  predicate Open(turns: seq<Turn>) {
    turns != [] && (Last(turns).cmd == StartKey || (Last(turns).cmd == NoKey && Open(Init(turns))))
  }

  /** The clock of the last attempt to capture: a turn of an open session whose clock is a second or more
      after the attempt before it. */
  function LastAttempt(turns: seq<Turn>): real {
    if turns == [] then 0.0
    else if Open(turns) && Last(turns).now - LastAttempt(Init(turns)) >= 1.0 then Last(turns).now
    else LastAttempt(Init(turns))
  }

  /** The last turn is an attempt, and gets a frame with its hash. */
  predicate Usable(turns: seq<Turn>) {
    && turns != [] && Open(turns) && Last(turns).now - LastAttempt(Init(turns)) >= 1.0
    && Last(turns).source.Some? && Last(turns).copied && Last(turns).hash.Some?
  }

  /** The last turn opens a session. */
  predicate Opens(turns: seq<Turn>) {
    turns != [] && Last(turns).cmd == StartKey && !Open(Init(turns))
  }

  /** The usable frames since the last session was opened. */
  function Frames(turns: seq<Turn>): seq<Shot> {
    if turns == [] then []
    else
      (if Opens(turns) then [] else Frames(Init(turns)))
      + if Usable(turns) then [Shot(Last(turns).source.value, Last(turns).hash.value)] else []
  }

  /** The files found in the directory of that session. */
  function FoundFiles(turns: seq<Turn>): Directory {
    if turns == [] then map[]
    else if Opens(turns) then Last(turns).found
    else FoundFiles(Init(turns))
  }

  /** The variables of the service say this, at every moment of every run. */
  lemma {:induction false} TurnsTell(dist: Distance, turns: seq<Turn>)
    ensures var (s, h) := Run(dist, turns);
            && s.capturing == Open(turns) && s.lastCaptureTime == LastAttempt(turns)
            && h.shots == Frames(turns) && h.found == FoundFiles(turns)
    decreases |turns|
  {
    if turns != [] {
      TurnsTell(dist, Init(turns));
      var (s, h) := Run(dist, Init(turns));
      var e := Last(turns);
      KeyTells(s, e);
      StepClock(dist, s, e);
      assert Frames(Init(turns)) + [] == Frames(Init(turns));
    }
  }

  lemma KeyTells(s: Memory, e: Turn)
    ensures HandleKey(s, e).capturing == (e.cmd == StartKey || (e.cmd == NoKey && s.capturing))
    ensures HandleKey(s, e).lastCaptureTime == s.lastCaptureTime
  {
  }

  lemma StepClock(dist: Distance, s: Memory, e: Turn)
    ensures var k := HandleKey(s, e); var t := Step(dist, s, e);
            && t.capturing == k.capturing
            && t.lastCaptureTime ==
               if k.capturing && e.now - k.lastCaptureTime >= 1.0 then e.now else k.lastCaptureTime
  {
  }

  /** After any run whose session is over, the directory holds the slides of the batch view of the usable
      frames, numbered from 1 in order, beside whatever it held before the session. */
  lemma StreamingRefinesBatch(dist: Distance, turns: seq<Turn>)
    requires !Open(turns)
    ensures var s := Run(dist, turns).0; var slides := BatchSlides(dist, Frames(turns)); var found := FoundFiles(turns);
            && !s.capturing && s.tmp == map[] && s.slideIndex == |slides|
            && (forall n :: 0 < n <= |slides| ==> SlideName(n) in s.session && s.session[SlideName(n)] == slides[n - 1])
            && (forall f :: f in s.session ==>
                  (exists n :: 0 < n <= |slides| && f == SlideName(n)) || (f in found && s.session[f] == found[f]))
            && (forall f :: f in found && (forall n :: 0 < n <= |slides| ==> f != SlideName(n)) ==>
                  f in s.session && s.session[f] == found[f])
  {
    RunInv(dist, turns);
    TurnsTell(dist, turns);
    SavedFiles(FoundFiles(turns), BatchSlides(dist, Frames(turns)));
  }

  /** At every moment of an open session the temporary directory holds the newest usable frame, under
      the candidate's name, and nothing else; the session holds slides 1..slideIndex without gap. */
  lemma DirectoriesAtEveryTurn(dist: Distance, turns: seq<Turn>)
    requires Open(turns)
    ensures var s := Run(dist, turns).0; var shots := Frames(turns); var slides := BatchSlides(dist, shots);
            && s.capturing
            && (shots == [] ==> s.candidate.None? && s.tmp == map[])
            && (shots != [] ==> s.candidate.Some? && s.tmp == map[s.candidate.value := Last(shots).image])
            && s.slideIndex == (if shots == [] then 0 else |slides| - 1)
            && (forall n :: 0 < n <= s.slideIndex ==>
                  SlideName(n) in s.session && s.session[SlideName(n)] == slides[n - 1])
            && (FoundFiles(turns) == map[] ==>
                 forall f :: f in s.session ==> exists n :: 0 < n <= s.slideIndex && f == SlideName(n))
  {
    RunInv(dist, turns);
    TurnsTell(dist, turns);
    SavedFiles(FoundFiles(turns), Finished(dist, Frames(turns)));
  }

  /** The frame captured by a turn is never overwritten, removed or moved by that turn: its name was
      free, and afterwards it is the only temporary file. */
  lemma NewestFrameSurvives(dist: Distance, turns: seq<Turn>, e: Turn)
    requires Usable(turns + [e])
    ensures var s := HandleKey(Run(dist, turns).0, e); var s' := Run(dist, turns + [e]).0;
            var name := FrameName(Trunc(e.now));
            name !in s.tmp && s'.tmp == map[name := e.source.value] && s'.candidate == Some(name)
  {
    assert Init(turns + [e]) == turns;
    RunInv(dist, turns);
    TurnsTell(dist, turns);
    var (s, h) := Run(dist, turns);
    KeyKeepsInv(dist, s, h, e);
    KeyTells(s, e);
    var k, hk := HandleKey(s, e), NoteKey(h, s, e);
    NameIsFree(k, hk.shots, e.now);
    CompareKeepsTmp(dist, k, hk.shots, e.now, FrameName(Trunc(e.now)), Shot(e.source.value, e.hash.value));
  }

  /** Frames one second apart are all captured, and the distance 10 is still the same slide: three slides
      shown at 100, 101 and 102 seconds and a small change of the third at 103 give three files. */
  lemma OneSecondApart(dist: Distance, a: Shot, b: Shot, c: Shot, d: Shot)
    requires dist(b.hash, a.hash) == 11 && dist(c.hash, b.hash) == 11 && dist(d.hash, c.hash) == 10
    ensures var turns := [Show(StartKey, 100.0, a), Show(NoKey, 101.0, b),
                          Show(NoKey, 102.0, c), Show(NoKey, 103.0, d)];
            && Frames(turns) == [a, b, c, d]
            && Run(dist, turns + [Show(EndKey, 103.5, d)]).0.session ==
               map["slide_001.png" := a.image, "slide_002.png" := b.image, "slide_003.png" := d.image]
  {
    var t := [Show(StartKey, 100.0, a), Show(NoKey, 101.0, b), Show(NoKey, 102.0, c), Show(NoKey, 103.0, d)];
    var end := Show(EndKey, 103.5, d);
    FourFrames(a, b, c, d);
    EndTurn(t, end);
    FourSlides(dist, a, b, c, d);
    AllSaved(dist, t + [end], [a.image, b.image, d.image]);
    ThreeNames();
  }

  lemma EndTurn(turns: seq<Turn>, e: Turn)
    requires e.cmd == EndKey
    ensures !Open(turns + [e]) && Frames(turns + [e]) == Frames(turns) && FoundFiles(turns + [e]) == FoundFiles(turns)
  {
    assert Init(turns + [e]) == turns;
    assert Frames(turns) + [] == Frames(turns);
  }

  lemma AllSaved(dist: Distance, turns: seq<Turn>, slides: seq<Image>)
    requires !Open(turns) && FoundFiles(turns) == map[] && BatchSlides(dist, Frames(turns)) == slides && |slides| == 3
    ensures Run(dist, turns).0.session ==
            map[SlideName(1) := slides[0], SlideName(2) := slides[1], SlideName(3) := slides[2]]
  {
    StreamingRefinesBatch(dist, turns);
    ThreeFiles(Run(dist, turns).0.session, slides);
  }

  /** A turn at which the source shows a frame. */
  function Show(cmd: Command, now: real, shot: Shot): Turn {
    Turn(cmd, map[], now, Some(shot.image), true, Some(shot.hash))
  }

  lemma FourFrames(a: Shot, b: Shot, c: Shot, d: Shot)
    ensures var t := [Show(StartKey, 100.0, a), Show(NoKey, 101.0, b), Show(NoKey, 102.0, c), Show(NoKey, 103.0, d)];
            Open(t) && Frames(t) == [a, b, c, d] && FoundFiles(t) == map[]
  {
    var ta, tb, tc, td := Show(StartKey, 100.0, a), Show(NoKey, 101.0, b), Show(NoKey, 102.0, c), Show(NoKey, 103.0, d);
    var t1 := [] + [ta];
    var t2 := t1 + [tb];
    var t3 := t2 + [tc];
    OneFrame([], ta, a);
    OneFrame(t1, tb, b);
    OneFrame(t2, tc, c);
    OneFrame(t3, td, d);
    OneByOne(ta, tb, tc, td);
    OneByOne(a, b, c, d);
  }

  lemma OneByOne<T>(a: T, b: T, c: T, d: T)
    ensures [] + [a] + [b] + [c] + [d] == [a, b, c, d]
    ensures [] + [a] + [b] + [c] == [a, b, c] && [] + [a] + [b] == [a, b] && [] + [a] == [a]
  {
  }

  lemma OneFrame(turns: seq<Turn>, e: Turn, shot: Shot)
    requires e == Show(e.cmd, e.now, shot) && e.now - LastAttempt(turns) >= 1.0
    requires if Open(turns) then e.cmd == NoKey else e.cmd == StartKey
    ensures Open(turns + [e]) && LastAttempt(turns + [e]) == e.now
    ensures Frames(turns + [e]) == (if Open(turns) then Frames(turns) else []) + [shot]
    ensures FoundFiles(turns + [e]) == if Open(turns) then FoundFiles(turns) else map[]
  {
    assert Init(turns + [e]) == turns && Last(turns + [e]) == e;
  }

  lemma FourSlides(dist: Distance, a: Shot, b: Shot, c: Shot, d: Shot)
    requires dist(b.hash, a.hash) == 11 && dist(c.hash, b.hash) == 11 && dist(d.hash, c.hash) == 10
    ensures BatchSlides(dist, [a, b, c, d]) == [a.image, b.image, d.image]
  {
    OneByOne(a, b, c, d);
    NewSlide(dist, [], a, []);
    NewSlide(dist, [a], b, [a.image]);
    NewSlide(dist, [a, b], c, [a.image, b.image]);
    SameSlideAgain(dist, [a, b, c], d, [a.image, b.image], c.image);
  }

  lemma NewSlide(dist: Distance, shots: seq<Shot>, x: Shot, slides: seq<Image>)
    requires BatchSlides(dist, shots) == slides && (shots != [] ==> dist(x.hash, Last(shots).hash) > 10)
    ensures BatchSlides(dist, shots + [x]) == slides + [x.image]
  {
    BatchGrows(dist, shots, x);
  }

  lemma SameSlideAgain(dist: Distance, shots: seq<Shot>, x: Shot, slides: seq<Image>, last: Image)
    requires shots != [] && dist(x.hash, Last(shots).hash) <= 10 && BatchSlides(dist, shots) == slides + [last]
    ensures BatchSlides(dist, shots + [x]) == slides + [x.image]
  {
    BatchGrows(dist, shots, x);
    assert Init(slides + [last]) == slides;
  }

  lemma ThreeNames()
    ensures SlideName(1) == "slide_001.png" && SlideName(2) == "slide_002.png" && SlideName(3) == "slide_003.png"
  {
    assert Print(1) == "1" && Print(2) == "2" && Print(3) == "3";
    assert PadStart("1", 3) == PadStart("01", 3) == "001";
    assert PadStart("2", 3) == PadStart("02", 3) == "002";
    assert PadStart("3", 3) == PadStart("03", 3) == "003";
  }

  lemma ThreeFiles(session: Directory, slides: seq<Image>)
    requires |slides| == 3
    requires forall n :: 0 < n <= 3 ==> SlideName(n) in session && session[SlideName(n)] == slides[n - 1]
    requires forall f :: f in session ==> exists n :: 0 < n <= 3 && f == SlideName(n)
    ensures session == map[SlideName(1) := slides[0], SlideName(2) := slides[1], SlideName(3) := slides[2]]
  {
    NamesInjective(1, 2);
    NamesInjective(1, 3);
    NamesInjective(2, 3);
    forall f | f in session ensures f in {SlideName(1), SlideName(2), SlideName(3)} {
      var n :| 0 < n <= 3 && f == SlideName(n);
      assert n == 1 || n == 2 || n == 3;
    }
    assert session.Keys == {SlideName(1), SlideName(2), SlideName(3)};
  }

  /** The service itself: the same state held in fields and changed in place. */
  class Service {
    const dist: Distance
    var capturing: bool
    var lastCandidatePath: Option<string>
    var lastHash: Option<Hash>
    var slideIndex: nat
    var lastCaptureTime: real
    var tmpFiles: Directory
    var sessionFiles: Directory
    ghost var history: History

    ghost function Contents(): Memory
      reads this
    {
      Memory(capturing, lastCandidatePath, lastHash, slideIndex, lastCaptureTime, tmpFiles, sessionFiles)
    }

    ghost predicate Valid()
      reads this
    {
      Inv(dist, Contents(), history)
    }

    constructor (d: Distance)
      ensures dist == d && Valid() && Contents() == INITIAL && history == History(map[], [])
    {
      dist := d;
      capturing, lastCandidatePath, lastHash := false, None, None;
      slideIndex, lastCaptureTime, tmpFiles, sessionFiles := 0, 0.0, map[], map[];
      history := History(map[], []);
    }

    method MoveCandidate()
      requires lastCandidatePath.Some? && lastCandidatePath.value in tmpFiles
      modifies this`slideIndex, this`tmpFiles, this`sessionFiles
      ensures Contents() == old(MoveToSession(Contents(), lastCandidatePath.value))
    {
      var c := lastCandidatePath.value;
      slideIndex := slideIndex + 1;
      var finalPath := SlideName(slideIndex);
      sessionFiles, tmpFiles := sessionFiles[finalPath := tmpFiles[c]], tmpFiles - {c};
    }

    method FinalizeSlide()
      modifies this`slideIndex, this`tmpFiles, this`sessionFiles, this`lastCandidatePath
      ensures Contents() == old(FinalizeLastSlide(Contents()))
    {
      if lastCandidatePath.Some? && lastCandidatePath.value in tmpFiles {
        MoveCandidate();
        lastCandidatePath := None;
      }
    }

    method ReadKey(e: Turn)
      modifies this
      ensures Contents() == old(HandleKey(Contents(), e)) && history == old(history)
      ensures capturing == (e.cmd == StartKey || (e.cmd == NoKey && old(capturing)))
      ensures lastCaptureTime == old(lastCaptureTime)
      ensures e.cmd == StartKey && !old(capturing) ==>
                && sessionFiles == e.found && tmpFiles == map[] && slideIndex == 0
                && lastCandidatePath.None? && lastHash.None?
      ensures e.cmd == EndKey && old(capturing) ==> tmpFiles == map[]
    {
      if e.cmd == StartKey && !capturing {
        sessionFiles, tmpFiles := e.found, map[];
        slideIndex, lastCandidatePath, lastHash, capturing := 0, None, None, true;
      } else if e.cmd == EndKey && capturing {
        FinalizeSlide();
        tmpFiles := map[];
        capturing := false;
      }
    }

    method CompareFrame(tmpPath: string, hash: Hash)
      requires lastCandidatePath.Some? ==> lastHash.Some? && lastCandidatePath.value in tmpFiles
      modifies this
      ensures Contents() == old(Compare(dist, Contents(), tmpPath, hash)) && history == old(history)
    {
      if lastCandidatePath.None? {
        lastCandidatePath, lastHash := Some(tmpPath), Some(hash);
        return;
      }
      var distance := dist(hash, lastHash.value);
      if distance <= PHASH_THRESHOLD {
        tmpFiles := tmpFiles - {lastCandidatePath.value};
      } else {
        MoveCandidate();
      }
      lastCandidatePath, lastHash := Some(tmpPath), Some(hash);
    }

    /** The capture part of a turn. The files it removes and moves are there: no Python exception. */
    method Capture(e: Turn)
      requires lastCaptureTime >= 0.0 && TmpInv(Contents(), history.shots)
      modifies this
      ensures Contents() == old(TakeFrame(dist, Contents(), e)) && history == old(history)
      ensures e.now - old(lastCaptureTime) < 1.0 ==> Contents() == old(Contents())
      ensures e.now - old(lastCaptureTime) >= 1.0 ==> lastCaptureTime == e.now
      ensures e.now - old(lastCaptureTime) >= 1.0 && e.source.Some? && e.copied && e.hash.Some? ==>
                lastCandidatePath == Some(FrameName(Trunc(e.now))) && lastHash == e.hash
                && tmpFiles == map[FrameName(Trunc(e.now)) := e.source.value]
    {
      if e.now - lastCaptureTime < CAPTURE_INTERVAL {
        return;
      }
      NameIsFree(Contents(), history.shots, e.now);
      lastCaptureTime := e.now;
      if e.source.None? {
        return;
      }
      var tmpPath := FrameName(Trunc(e.now));
      if !e.copied {
        return;
      }
      tmpFiles := tmpFiles[tmpPath := e.source.value];
      if e.hash.None? {
        tmpFiles := tmpFiles - {tmpPath};
        assert tmpFiles == old(tmpFiles);
        return;
      }
      CompareLeaves(dist, old(Contents()), history.shots, e.now, tmpPath, Shot(e.source.value, e.hash.value));
      CompareFrame(tmpPath, e.hash.value);
    }

    /** One turn of the loop. */
    method Iterate(e: Turn)
      requires Valid()
      modifies this
      ensures Valid()
      ensures Contents() == old(Step(dist, Contents(), e)) && history == old(Note(history, Contents(), e))
    {
      StepKeepsInv(dist, Contents(), history, e);
      KeyKeepsInv(dist, Contents(), history, e);
      ghost var noted := Note(history, Contents(), e);
      ghost var keyed := NoteKey(history, Contents(), e);
      ReadKey(e);
      history := keyed;
      if capturing {
        Capture(e);
      }
      history := noted;
    }
  }
}
