/** The lecture loop: IDLE, ACTIVE and ENDING turns driven by key flags, the clock and the
    recognizer; it appends accepted segments to a transcript and starts cumulative summaries. */
module LectureSession {
  import opened Wrappers
  import opened Decimal
  import opened Words

  datatype Mode = Short | Long

  const MIN_WORDS_PER_SEGMENT: nat := 3
  const LLM_MAX_WORDS: nat := 900

  function SendIntervalMin(mode: Mode): nat {
    if mode.Short? then 4 else 15
  }

  function SendIntervalSec(mode: Mode): nat {
    SendIntervalMin(mode) * 60
  }

  function SilenceEndSeconds(mode: Mode): nat {
    if mode.Short? then 240 else 120
  }

  function MinLectureWords(mode: Mode): nat {
    if mode.Short? then 30 else 100
  }

  /** Crashed: an exception left the loop. */
  datatype Phase = Idle | Active | Ending | Crashed

  /** A background summary: its file name, the text it was given and when it was started. */
  datatype Summary = Summary(name: string, text: string, at: real)

  /** What `get` and the recognizer yield: no block in time, a block inside a sentence, or a sentence. */
  datatype Heard = Timeout | Partial | Sentence(text: string)

  /** The language model: an answer, or an exception. */
  type Model = string -> Option<string>

  /** A key typed in the listener thread, or a turn of the loop with the values of its first and
      second `time.time()`. */
  datatype Event = KeyS | KeyE | Turn(t0: real, t1: real, heard: Heard, llm: Model)

  /** The loop's variables, the transcript (None until the file exists), the summaries started and the
      final summary; then facts about the current lecture: the two clock readings of its start, and its
      segments. */
  datatype State = State(
    phase: Phase,
    startRequested: bool,
    stopRequested: bool,
    file: Option<string>,
    lastSend: real,
    lastSpeech: real,
    summaryIndex: nat,
    summaries: seq<Summary>,
    finalSummary: Option<string>,
    startedAt: real,
    listeningSince: real,
    segments: seq<string>)

  const INITIAL := State(Idle, false, false, None, 0.0, 0.0, 1, [], None, 0.0, 0.0, [])

  /** The minutes in the name of the k-th summary. */
  function Minutes(mode: Mode, k: nat): nat {
    k * SendIntervalMin(mode)
  }

  function SummaryName(mode: Mode, k: nat): string {
    "summary_" + PadStart(Print(Minutes(mode, k)), 2) + "min.txt"
  }

  /** `"\n".join(parts)` */
  function Lines(parts: seq<string>): string {
    if parts == [] then ""
    else if |parts| == 1 then parts[0]
    else Lines(parts[..|parts| - 1]) + "\n" + parts[|parts| - 1]
  }

  /** The lines of several texts, one after the other. */
  function LinesOf(parts: seq<string>): seq<string> {
    if parts == [] then [] else LinesOf(parts[..|parts| - 1]) + Fields(parts[|parts| - 1], '\n')
  }

  /** A summary has the lines of its parts, in order. */
  lemma {:induction false} LinesRead(parts: seq<string>)
    requires parts != []
    ensures Fields(Lines(parts), '\n') == LinesOf(parts)
    decreases |parts|
  {
    var init, last := parts[..|parts| - 1], parts[|parts| - 1];
    if |parts| > 1 {
      LinesRead(init);
      FieldsJoin(Lines(init), '\n', last);
      assert Lines(parts) == Lines(init) + ['\n'] + last;
    } else {
      assert LinesOf(init) == [] && [] + Fields(last, '\n') == Fields(last, '\n');
    }
  }

  function Answers(chunks: seq<string>, llm: Model): Option<seq<string>> {
    if chunks == [] then Some([])
    else match Answers(chunks[..|chunks| - 1], llm)
      case None => None
      case Some(before) =>
        match llm(chunks[|chunks| - 1])
        case None => None
        case Some(a) => Some(before + [a])
  }

  /** There are answers exactly when the model answers every chunk; then there is one for each, in order. */
  lemma {:induction false} AnswersInOrder(chunks: seq<string>, llm: Model)
    ensures Answers(chunks, llm).Some? <==> forall i :: 0 <= i < |chunks| ==> llm(chunks[i]).Some?
    ensures Answers(chunks, llm).Some? ==>
              var parts := Answers(chunks, llm).value;
              |parts| == |chunks| && forall i :: 0 <= i < |chunks| ==> llm(chunks[i]) == Some(parts[i])
    decreases |chunks|
  {
    if chunks != [] {
      AnswersInOrder(chunks[..|chunks| - 1], llm);
    }
  }

  /** One question per chunk, in order; None when the model raises. */
  method Ask(chunks: seq<string>, llm: Model) returns (answers: Option<seq<string>>)
    ensures answers == Answers(chunks, llm)
    ensures answers.Some? <==> forall i :: 0 <= i < |chunks| ==> llm(chunks[i]).Some?
    ensures answers.Some? ==>
              |answers.value| == |chunks| && forall i :: 0 <= i < |chunks| ==> llm(chunks[i]) == Some(answers.value[i])
  {
    AnswersInOrder(chunks, llm);
    var parts: seq<string> := [];
    var i := 0;
    while i < |chunks|
      invariant 0 <= i <= |chunks|
      invariant Answers(chunks[..i], llm) == Some(parts)
    {
      assert chunks[..i + 1][..i] == chunks[..i];
      var a := llm(chunks[i]);
      if a.None? {
        AnswersStop(chunks, i + 1, llm);
        return None;
      }
      parts := parts + [a.value];
      i := i + 1;
    }
    assert chunks[..i] == chunks;
    answers := Some(parts);
  }

  /** The chunk loop of `summarize_async` and of the ENDING turn: the chunks of the text are put to the
      model, and its answers are the lines of the summary. */
  method Summarize(text: string, llm: Model) returns (summary: Option<string>, ghost chunks: seq<string>)
    ensures AllWords(chunks) == Split(text) && FullChunks(chunks, 900)
    ensures summary == match Answers(chunks, llm) case None => None case Some(parts) => Some(Lines(parts))
    ensures summary == TextSummary(text, llm)
  {
    var all := SplitChunks(text, LLM_MAX_WORDS);
    ChunksUnique(all, LLM_MAX_WORDS);
    chunks := all;
    var answers := Ask(all, llm);
    summary := if answers.Some? then Some(Lines(answers.value)) else None;
  }

  lemma {:induction false} AnswersStop(chunks: seq<string>, i: nat, llm: Model)
    requires i <= |chunks| && Answers(chunks[..i], llm).None?
    ensures Answers(chunks, llm).None?
    decreases |chunks|
  {
    if i == |chunks| {
      assert chunks[..i] == chunks;
    } else {
      assert chunks[..|chunks| - 1][..i] == chunks[..i];
      AnswersStop(chunks[..|chunks| - 1], i, llm);
    }
  }

  function TextSummary(text: string, llm: Model): Option<string> {
    match Answers(Chunks(Split(text), LLM_MAX_WORDS), llm)
    case None => None
    case Some(parts) => Some(Lines(parts))
  }

  function StartLecture(s: State, t0: real, t1: real): State {
    s.(phase := Active, startRequested := false, stopRequested := false, file := None,
       lastSend := t0, lastSpeech := t1, summaryIndex := 1,
       summaries := [], finalSummary := None, startedAt := t0, listeningSince := t1, segments := [])
  }

  function Hear(s: State, t1: real, heard: Heard): State {
    if heard.Sentence? && WordCount(heard.text) >= MIN_WORDS_PER_SEGMENT then
      s.(lastSpeech := t1,
         file := Some((if s.file.Some? then s.file.value else "") + heard.text + " "),
         segments := s.segments + [heard.text])
    else s
  }

  function Send(mode: Mode, s: State, now: real): State {
    if now - s.lastSend < SendIntervalSec(mode) as real then s
    else match s.file
      case None => s.(phase := Crashed)
      case Some(text) =>
        if WordCount(text) < MinLectureWords(mode) then s.(lastSend := now)
        else s.(lastSend := now, summaryIndex := s.summaryIndex + 1,
                summaries := s.summaries + [Summary(SummaryName(mode, s.summaryIndex), text, now)])
  }

  function Finish(s: State, llm: Model): State {
    match s.file
    case None => s.(phase := Crashed)
    case Some(text) =>
      match TextSummary(text, llm)
      case None => s.(phase := Crashed)
      case Some(summary) => s.(phase := Idle, finalSummary := Some(summary))
  }

  predicate Ends(mode: Mode, s: State, now: real) {
    s.stopRequested || now - s.lastSpeech > SilenceEndSeconds(mode) as real
  }

  function Step(mode: Mode, s: State, e: Event): State {
    match e
    case KeyS => s.(startRequested := true)
    case KeyE => s.(stopRequested := true)
    case Turn(t0, t1, heard, llm) =>
      match s.phase
      case Idle => if s.startRequested then StartLecture(s, t0, t1) else s
      case Active =>
        if Ends(mode, s, t0) then s.(phase := Ending)
        else if heard.Timeout? then s
        else Send(mode, Hear(s, t1, heard), t0)
      case Ending => Finish(s, llm)
      case Crashed => s
  }

  /** The transcript made of some segments. */
  function Transcript(segments: seq<string>): string {
    if segments == [] then "" else Transcript(segments[..|segments| - 1]) + segments[|segments| - 1] + " "
  }

  function Due(mode: Mode, k: nat): real {
    (Minutes(mode, k) * 60) as real
  }

  ghost predicate Inv(mode: Mode, s: State) {
    && s.file == (if s.segments == [] then None else Some(Transcript(s.segments)))
    && s.summaryIndex == |s.summaries| + 1
    && s.lastSend >= s.startedAt + Due(mode, |s.summaries|)
    && (s.segments == [] ==> s.lastSend == s.startedAt && s.lastSpeech == s.listeningSince && s.summaries == [])
    && NamesInv(mode, s.summaries)
    && TimesInv(mode, s.summaries, s.startedAt)
    && TextsInv(mode, s.summaries, Transcript(s.segments))
  }

  ghost predicate NamesInv(mode: Mode, summaries: seq<Summary>) {
    forall i :: 0 <= i < |summaries| ==> summaries[i].name == SummaryName(mode, i + 1)
  }

  ghost predicate TimesInv(mode: Mode, summaries: seq<Summary>, start: real) {
    forall i :: 0 <= i < |summaries| ==> summaries[i].at >= start + Due(mode, i + 1)
  }

  ghost predicate TextsInv(mode: Mode, summaries: seq<Summary>, transcript: string) {
    && (forall i :: 0 <= i < |summaries| ==> summaries[i].text <= transcript)
    && (forall i, j :: 0 <= i < j < |summaries| ==> summaries[i].text <= summaries[j].text)
    && (forall i :: 0 <= i < |summaries| ==> WordCount(summaries[i].text) >= MinLectureWords(mode))
  }

  lemma TranscriptSnoc(segments: seq<string>, text: string)
    ensures Transcript(segments + [text]) == Transcript(segments) + text + " "
  {
    assert (segments + [text])[..|segments|] == segments;
  }

  lemma HearKeepsInv(mode: Mode, s: State, t1: real, heard: Heard)
    requires Inv(mode, s)
    ensures Inv(mode, Hear(s, t1, heard))
  {
    if heard.Sentence? && WordCount(heard.text) >= MIN_WORDS_PER_SEGMENT {
      TranscriptSnoc(s.segments, heard.text);
      var before, after := Transcript(s.segments), Transcript(s.segments + [heard.text]);
      assert before <= after;
      TextsStay(mode, s.summaries, before, after);
    }
  }

  lemma TextsStay(mode: Mode, summaries: seq<Summary>, before: string, after: string)
    requires TextsInv(mode, summaries, before) && before <= after
    ensures TextsInv(mode, summaries, after)
  {
  }

  lemma NextDue(mode: Mode, k: nat)
    ensures Due(mode, k + 1) == Due(mode, k) + SendIntervalSec(mode) as real
  {
    assert Minutes(mode, k + 1) == Minutes(mode, k) + SendIntervalMin(mode);
  }

  lemma AddSummary(mode: Mode, summaries: seq<Summary>, start: real, transcript: string, x: Summary)
    requires NamesInv(mode, summaries) && TimesInv(mode, summaries, start) && TextsInv(mode, summaries, transcript)
    requires x.name == SummaryName(mode, |summaries| + 1) && x.at >= start + Due(mode, |summaries| + 1)
    requires x.text == transcript && WordCount(transcript) >= MinLectureWords(mode)
    ensures NamesInv(mode, summaries + [x]) && TimesInv(mode, summaries + [x], start)
            && TextsInv(mode, summaries + [x], transcript)
  {
  }

  lemma SendKeepsInv(mode: Mode, s: State, now: real)
    requires Inv(mode, s)
    ensures Inv(mode, Send(mode, s, now))
  {
    NextDue(mode, |s.summaries|);
    if now - s.lastSend >= SendIntervalSec(mode) as real && s.file.Some?
       && WordCount(s.file.value) >= MinLectureWords(mode) {
      AddSummary(mode, s.summaries, s.startedAt, Transcript(s.segments),
                 Summary(SummaryName(mode, s.summaryIndex), s.file.value, now));
    }
  }

  lemma StartGivesInv(mode: Mode, s: State, t0: real, t1: real)
    ensures Inv(mode, StartLecture(s, t0, t1))
  {
  }

  /** The invariant does not speak of the flags and the phase. */
  lemma SameLecture(mode: Mode, s: State, t: State)
    requires Inv(mode, s) && t.file == s.file && t.segments == s.segments && t.summaries == s.summaries
    requires t.lastSend == s.lastSend && t.lastSpeech == s.lastSpeech && t.summaryIndex == s.summaryIndex
    requires t.startedAt == s.startedAt && t.listeningSince == s.listeningSince
    ensures Inv(mode, t)
  {
  }

  lemma StepKeepsInv(mode: Mode, s: State, e: Event)
    requires Inv(mode, s)
    ensures Inv(mode, Step(mode, s, e))
  {
    if e.Turn? && s.phase.Active? && !Ends(mode, s, e.t0) && !e.heard.Timeout? {
      HearKeepsInv(mode, s, e.t1, e.heard);
      SendKeepsInv(mode, Hear(s, e.t1, e.heard), e.t0);
    } else if e.Turn? && s.phase.Idle? && s.startRequested {
      StartGivesInv(mode, s, e.t0, e.t1);
    } else if e.Turn? && s.phase.Ending? {
      FinishKeeps(s, e.llm);
      SameLecture(mode, s, Finish(s, e.llm));
    } else {
      SameLecture(mode, s, Step(mode, s, e));
    }
  }

  lemma FinishKeeps(s: State, llm: Model)
    ensures var t := Finish(s, llm); t == s.(phase := t.phase, finalSummary := t.finalSummary)
  {
  }

  function Run(mode: Mode, es: seq<Event>): State {
    if es == [] then INITIAL else Step(mode, Run(mode, es[..|es| - 1]), es[|es| - 1])
  }

  lemma {:induction false} RunInv(mode: Mode, es: seq<Event>)
    ensures Inv(mode, Run(mode, es))
    decreases |es|
  {
    if es != [] {
      RunInv(mode, es[..|es| - 1]);
      StepKeepsInv(mode, Run(mode, es[..|es| - 1]), es[|es| - 1]);
    }
  }

  lemma SummaryNamesDiffer(mode: Mode, j: nat, k: nat)
    requires SummaryName(mode, j) == SummaryName(mode, k)
    ensures j == k
  {
    var a, b := SummaryName(mode, j), SummaryName(mode, k);
    assert a[8..|a| - 7] == PadStart(Print(Minutes(mode, j)), 2);
    assert b[8..|b| - 7] == PadStart(Print(Minutes(mode, k)), 2);
    PaddedInjective(Minutes(mode, j), Minutes(mode, k), 2);
    if mode.Short? {
      assert 4 * j == 4 * k;
    } else {
      assert 15 * j == 15 * k;
    }
  }

  /** The k-th summary's name: the minutes of k send intervals, in at least two digits. */
  lemma SummaryNameReads(mode: Mode, k: nat)
    ensures var digits := PadStart(Print(k * if mode.Short? then 4 else 15), 2);
            && SummaryName(mode, k) == "summary_" + digits + "min.txt" && |digits| >= 2
            && Read(digits) == Some(k * if mode.Short? then 4 else 15)
  {
    ReadPadded(k * if mode.Short? then 4 else 15, 2);
  }

  lemma SummaryFacts(mode: Mode, s: State, i: nat)
    requires Inv(mode, s) && i < |s.summaries|
    ensures s.summaries[i].name == SummaryName(mode, i + 1)
    ensures s.summaries[i].at - s.startedAt >= ((i + 1) * if mode.Short? then 240 else 900) as real
    ensures s.summaries[i].text <= Transcript(s.segments)
    ensures |Split(s.summaries[i].text)| >= if mode.Short? then 30 else 100
    ensures forall j :: i < j < |s.summaries| ==> s.summaries[i].text <= s.summaries[j].text
  {
    DueIs(mode, i + 1);
  }

  lemma DueIs(mode: Mode, k: nat)
    ensures Due(mode, k) == (k * if mode.Short? then 240 else 900) as real
  {
  }

  lemma NamesOfALecture(mode: Mode, summaries: seq<Summary>, i: nat)
    requires NamesInv(mode, summaries) && i < |summaries|
    ensures forall j :: i < j < |summaries| ==> summaries[i].name != summaries[j].name
  {
    forall j | i < j < |summaries| ensures summaries[i].name != summaries[j].name {
      if summaries[i].name == summaries[j].name {
        SummaryNamesDiffer(mode, i + 1, j + 1);
      }
    }
  }

  /** At every moment of every run, about the summaries of the current lecture: no two share a file;
      the k-th is named after the minutes of k send intervals, and so much time has really passed
      since the start; each is given enough words; and each text is a prefix of the next and of
      the transcript. */
  lemma SummariesOfALecture(mode: Mode, es: seq<Event>, s: State, i: nat)
    requires s == Run(mode, es) && i < |s.summaries|
    ensures s.summaries[i].name == SummaryName(mode, i + 1)
    ensures s.summaries[i].at - s.startedAt >= ((i + 1) * if mode.Short? then 240 else 900) as real
    ensures s.summaries[i].text <= Transcript(s.segments)
    ensures |Split(s.summaries[i].text)| >= if mode.Short? then 30 else 100
    ensures forall j :: i < j < |s.summaries| ==> s.summaries[i].text <= s.summaries[j].text
    ensures forall j :: i < j < |s.summaries| ==> s.summaries[i].name != s.summaries[j].name
  {
    RunInv(mode, es);
    SummaryFacts(mode, s, i);
    NamesOfALecture(mode, s.summaries, i);
  }

  predicate StartsLecture(s: State, e: Event) {
    s.phase.Idle? && s.startRequested && e.Turn?
  }

  /** A sentence is accepted when an ACTIVE turn that does not end the lecture hears one of enough words. */
  predicate Accepts(mode: Mode, s: State, e: Event) {
    && e.Turn? && s.phase.Active? && !Step(mode, s, e).phase.Ending?
    && e.heard.Sentence? && |Split(e.heard.text)| >= 3
  }

  lemma StepGrows(mode: Mode, s: State, e: Event)
    requires !StartsLecture(s, e)
    ensures var t := Step(mode, s, e);
            && t.segments == s.segments + (if Accepts(mode, s, e) then [e.heard.text] else [])
            && t.lastSpeech == (if Accepts(mode, s, e) then e.t1 else s.lastSpeech)
            && s.summaries <= t.summaries && t.startedAt == s.startedAt && t.listeningSince == s.listeningSince
  {
    if !e.Turn? {
      KeyGoesOn(mode, s, e);
    } else if s.phase.Active? {
      EndsOnTurn(mode, s, e);
      if !Step(mode, s, e).phase.Ending? && !e.heard.Timeout? {
        HearMoves(mode, s, e);
        SendStays(mode, Hear(s, e.t1, e.heard), e.t0);
      }
    }
  }

  lemma SendStays(mode: Mode, s: State, now: real)
    ensures var t := Send(mode, s, now);
            && t.segments == s.segments && t.lastSpeech == s.lastSpeech && s.summaries <= t.summaries
            && t.startedAt == s.startedAt && t.listeningSince == s.listeningSince
  {
  }

  /** The texts accepted by the events from the i-th on. */
  ghost function Accepted(mode: Mode, es: seq<Event>, i: nat): seq<string>
    requires i <= |es|
    decreases |es|
  {
    if i == |es| then []
    else
      var init, e := es[..|es| - 1], es[|es| - 1];
      Accepted(mode, init, i) + if Accepts(mode, Run(mode, init), e) then [e.heard.text] else []
  }

  /** From the i-th event on no new lecture starts. */
  ghost predicate OneLecture(mode: Mode, es: seq<Event>, i: nat) {
    forall k :: i <= k < |es| ==> !StartsLecture(Run(mode, es[..k]), es[k])
  }

  lemma OneLectureInit(mode: Mode, es: seq<Event>, i: nat)
    requires OneLecture(mode, es, i) && i < |es|
    ensures var init := es[..|es| - 1];
            OneLecture(mode, init, i) && init[..i] == es[..i] && !StartsLecture(Run(mode, init), es[|es| - 1])
  {
    var init := es[..|es| - 1];
    forall k | i <= k < |init| ensures !StartsLecture(Run(mode, init[..k]), init[k]) {
      assert init[..k] == es[..k];
    }
  }

  /** In every run, over any stretch in which no new lecture starts: the segments are the earlier ones
      and then exactly the sentences accepted, in order, and no summary is changed or taken back. */
  lemma {:induction false} LectureOnlyGrows(mode: Mode, es: seq<Event>, i: nat, s: State, t: State)
    requires i <= |es| && OneLecture(mode, es, i) && s == Run(mode, es[..i]) && t == Run(mode, es)
    ensures t.segments == s.segments + Accepted(mode, es, i)
    ensures s.summaries <= t.summaries && t.startedAt == s.startedAt && t.listeningSince == s.listeningSince
    decreases |es|
  {
    if i == |es| {
      assert es[..i] == es;
    } else {
      var init, e := es[..|es| - 1], es[|es| - 1];
      var u := Run(mode, init);
      OneLectureInit(mode, es, i);
      LectureOnlyGrows(mode, init, i, s, u);
      StepGrows(mode, u, e);
      assert (s.segments + Accepted(mode, init, i)) + [] == s.segments + Accepted(mode, init, i);
    }
  }

  // ---- the lecture, read off its events

  /** The turn at index k has started a lecture that is still on. */
  ghost predicate OnSince(mode: Mode, es: seq<Event>, k: int) {
    && 0 <= k < |es| && es[k].Turn? && Run(mode, es[..k]).phase.Idle?
    && forall j :: k < j <= |es| ==> Run(mode, es[..j]).phase.Active?
  }

  /** Every ACTIVE state belongs to such a lecture. */
  lemma {:induction false} LectureHasStart(mode: Mode, es: seq<Event>) returns (k: nat)
    requires Run(mode, es).phase.Active?
    ensures OnSince(mode, es, k)
    decreases |es|
  {
    assert es[..|es|] == es;
    var init := es[..|es| - 1];
    if Run(mode, init).phase.Active? {
      k := LectureHasStart(mode, init);
      OnSinceSnoc(mode, es, k);
    } else {
      k := |es| - 1;
    }
  }

  lemma OnSinceSnoc(mode: Mode, es: seq<Event>, k: int)
    requires es != [] && OnSince(mode, es[..|es| - 1], k) && Run(mode, es).phase.Active?
    ensures OnSince(mode, es, k)
  {
    var init := es[..|es| - 1];
    assert init[..k] == es[..k] && es[..|es|] == es;
    forall j | k < j <= |es| ensures Run(mode, es[..j]).phase.Active? {
      assert j < |es| ==> es[..j] == init[..j];
    }
  }

  /** A turn that hears a sentence of three words or more. */
  predicate HearsSentence(e: Event) {
    e.Turn? && e.heard.Sentence? && |Split(e.heard.text)| >= 3
  }

  /** The sentences of three words or more since the start. */
  function Texts(es: seq<Event>, k: int): seq<string>
    requires 0 <= k < |es|
    decreases |es|
  {
    if |es| == k + 1 then []
    else Texts(es[..|es| - 1], k) + if HearsSentence(es[|es| - 1]) then [es[|es| - 1].heard.text] else []
  }

  /** The clock after the last of them, or the second reading of the start. */
  function HeardAt(es: seq<Event>, k: int): real
    requires 0 <= k < |es| && es[k].Turn?
    decreases |es|
  {
    if |es| == k + 1 then es[k].t1
    else if HearsSentence(es[|es| - 1]) then es[|es| - 1].t1
    else HeardAt(es[..|es| - 1], k)
  }

  ghost predicate EndTyped(es: seq<Event>, k: int) {
    exists j :: k < j < |es| && 0 <= j && es[j].KeyE?
  }

  /** The last event looks at the transcript: a turn with a block, a whole interval after the last look. */
  predicate Looks(mode: Mode, es: seq<Event>, k: int)
    requires 0 <= k < |es| - 1 && es[k].Turn?
    decreases |es|, 0
  {
    var e := es[|es| - 1];
    && e.Turn? && !e.heard.Timeout? && Texts(es, k) != []
    && e.t0 - LookedAt(mode, es[..|es| - 1], k) >= if mode.Short? then 240.0 else 900.0
  }

  /** The clock of the last look, or the first reading of the start. */
  function LookedAt(mode: Mode, es: seq<Event>, k: int): real
    requires 0 <= k < |es| && es[k].Turn?
    decreases |es|, 1
  {
    if |es| == k + 1 then es[k].t0
    else if Looks(mode, es, k) then es[|es| - 1].t0
    else LookedAt(mode, es[..|es| - 1], k)
  }

  /** The transcripts that were summarized: those with enough words when they were looked at. */
  function Summarized(mode: Mode, es: seq<Event>, k: int): seq<string>
    requires 0 <= k < |es| && es[k].Turn?
    decreases |es|
  {
    if |es| == k + 1 then []
    else
      Summarized(mode, es[..|es| - 1], k)
      + if Looks(mode, es, k) && |Split(Transcript(Texts(es, k)))| >= (if mode.Short? then 30 else 100)
        then [Transcript(Texts(es, k))] else []
  }

  function TextsOf(summaries: seq<Summary>): seq<string> {
    seq(|summaries|, i requires 0 <= i < |summaries| => summaries[i].text)
  }

  lemma OnSinceInit(mode: Mode, es: seq<Event>, k: int)
    requires OnSince(mode, es, k) && |es| > k + 1
    ensures OnSince(mode, es[..|es| - 1], k) && Run(mode, es[..|es| - 1]).phase.Active? && Run(mode, es).phase.Active?
  {
    var init := es[..|es| - 1];
    assert init[..k] == es[..k] && es[..|es|] == es;
    forall j | k < j <= |init| ensures Run(mode, init[..j]).phase.Active? {
      assert init[..j] == es[..j];
    }
    assert es[..|init|] == init;
  }

  /** What hearing changes. */
  predicate HearsOnly(s: State, h: State, e: Event) {
    && h.segments == s.segments + (if HearsSentence(e) then [e.heard.text] else [])
    && h.lastSpeech == (if HearsSentence(e) then e.t1 else s.lastSpeech)
    && h.phase == s.phase && h.lastSend == s.lastSend && h.summaries == s.summaries
    && h.stopRequested == s.stopRequested && h.startedAt == s.startedAt && h.listeningSince == s.listeningSince
  }

  /** What a look at the transcript changes, if there is one. */
  predicate LooksOnly(mode: Mode, h: State, t: State, looks: bool, now: real) {
    && t.segments == h.segments && t.lastSpeech == h.lastSpeech && t.stopRequested == h.stopRequested
    && t.startedAt == h.startedAt && t.listeningSince == h.listeningSince
    && t.lastSend == (if looks then now else h.lastSend)
    && TextsOf(t.summaries) == TextsOf(h.summaries)
         + if looks && |Split(Transcript(h.segments))| >= (if mode.Short? then 30 else 100)
           then [Transcript(h.segments)] else []
  }

  predicate LooksNow(mode: Mode, s: State, segments: seq<string>, e: Event) {
    e.Turn? && !e.heard.Timeout? && segments != [] && e.t0 - s.lastSend >= if mode.Short? then 240.0 else 900.0
  }

  /** What an event changes in a lecture that goes on. */
  predicate Moves(mode: Mode, s: State, t: State, e: Event) {
    var hears, looks := HearsSentence(e), LooksNow(mode, s, t.segments, e);
    && t.segments == s.segments + (if hears then [e.heard.text] else [])
    && t.lastSpeech == (if hears then e.t1 else s.lastSpeech)
    && t.stopRequested == (s.stopRequested || e.KeyE?)
    && t.startedAt == s.startedAt && t.listeningSince == s.listeningSince
    && t.lastSend == (if looks then e.t0 else s.lastSend)
    && TextsOf(t.summaries) == TextsOf(s.summaries)
         + if looks && |Split(Transcript(t.segments))| >= (if mode.Short? then 30 else 100)
           then [Transcript(t.segments)] else []
  }

  lemma SendLooks(mode: Mode, s: State, now: real)
    requires s.file == (if s.segments == [] then None else Some(Transcript(s.segments)))
    requires s.phase.Active? && Send(mode, s, now).phase.Active?
    ensures LooksOnly(mode, s, Send(mode, s, now),
                      s.segments != [] && now - s.lastSend >= if mode.Short? then 240.0 else 900.0, now)
  {
  }

  lemma HearMoves(mode: Mode, s: State, e: Event)
    requires e.Turn?
    ensures HearsOnly(s, Hear(s, e.t1, e.heard), e)
  {
  }

  lemma HeardAndLooked(mode: Mode, s: State, h: State, t: State, e: Event)
    requires e.Turn? && !e.heard.Timeout? && HearsOnly(s, h, e)
    requires LooksOnly(mode, h, t, h.segments != [] && e.t0 - h.lastSend >= (if mode.Short? then 240.0 else 900.0), e.t0)
    ensures Moves(mode, s, t, e)
  {
  }

  lemma NothingMoves(mode: Mode, s: State, t: State, e: Event)
    requires !e.Turn? || e.heard.Timeout?
    requires t == s.(stopRequested := t.stopRequested, startRequested := t.startRequested)
    requires t.stopRequested == (s.stopRequested || e.KeyE?)
    ensures Moves(mode, s, t, e)
  {
  }

  /** A turn of a lecture that goes on. */
  lemma TurnGoesOn(mode: Mode, s: State, e: Event)
    requires s.phase.Active? && Step(mode, s, e).phase.Active? && e.Turn?
    ensures Step(mode, s, e) == if e.heard.Timeout? then s else Send(mode, Hear(s, e.t1, e.heard), e.t0)
  {
  }

  lemma KeyGoesOn(mode: Mode, s: State, e: Event)
    requires !e.Turn?
    ensures Step(mode, s, e) == if e.KeyE? then s.(stopRequested := true) else s.(startRequested := true)
  {
  }

  lemma GoesOn(mode: Mode, s: State, e: Event)
    requires Inv(mode, s) && s.phase.Active? && Step(mode, s, e).phase.Active?
    ensures Moves(mode, s, Step(mode, s, e), e)
  {
    var t := Step(mode, s, e);
    if !e.Turn? {
      KeyGoesOn(mode, s, e);
      NothingMoves(mode, s, t, e);
    } else {
      TurnGoesOn(mode, s, e);
      if e.heard.Timeout? {
        NothingMoves(mode, s, t, e);
      } else {
        var h := Hear(s, e.t1, e.heard);
        HearKeepsInv(mode, s, e.t1, e.heard);
        HearMoves(mode, s, e);
        SendLooks(mode, h, e.t0);
        HeardAndLooked(mode, s, h, t, e);
      }
    }
  }

  /** In every run a lecture's variables are what its events say: the stop flag, the two start readings, the
      accepted sentences and the clock after the last of them, the clock of the last look at the
      transcript, and the texts that were summarized. */
  lemma {:induction false} LectureTells(mode: Mode, es: seq<Event>, k: nat, s: State)
    requires OnSince(mode, es, k) && s == Run(mode, es)
    ensures s.stopRequested == EndTyped(es, k)
    ensures s.startedAt == es[k].t0 && s.listeningSince == es[k].t1
    ensures s.segments == Texts(es, k) && s.lastSpeech == HeardAt(es, k)
    ensures s.lastSend == LookedAt(mode, es, k) && TextsOf(s.summaries) == Summarized(mode, es, k)
    decreases |es|
  {
    if |es| == k + 1 {
      assert es[..k + 1] == es && es[..|es| - 1] == es[..k];
    } else {
      var init, e := es[..|es| - 1], es[|es| - 1];
      OnSinceInit(mode, es, k);
      RunInv(mode, init);
      LectureTells(mode, init, k, Run(mode, init));
      EndTypedSnoc(es, k);
      GoesOn(mode, Run(mode, init), e);
    }
  }

  lemma EndTypedSnoc(es: seq<Event>, k: nat)
    requires k < |es| - 1
    ensures EndTyped(es, k) <==> EndTyped(es[..|es| - 1], k) || es[|es| - 1].KeyE?
  {
    var init := es[..|es| - 1];
    if j :| k < j < |init| && init[j].KeyE? {
      assert es[j].KeyE?;
    }
    if j :| k < j < |es| && es[j].KeyE? {
      assert j < |init| ==> init[j].KeyE?;
    }
  }

  /** When a lecture ends: at a turn that finds the end key typed since the start, or its clock more than the
      silence limit (240 or 120 seconds) after the last accepted sentence, or after the start. */
  lemma SilenceEnds(mode: Mode, es: seq<Event>, k: nat, e: Event)
    requires OnSince(mode, es, k) && e.Turn?
    ensures Run(mode, es + [e]).phase.Ending? <==>
              EndTyped(es, k) || e.t0 - HeardAt(es, k) > if mode.Short? then 240.0 else 120.0
  {
    assert es[..|es|] == es;
    RunSnoc(mode, es, e);
    LectureTells(mode, es, k, Run(mode, es));
    EndsOnTurn(mode, Run(mode, es), e);
  }

  lemma EndsOnTurn(mode: Mode, s: State, e: Event)
    requires s.phase.Active? && e.Turn?
    ensures Step(mode, s, e).phase.Ending? <==>
              s.stopRequested || e.t0 - s.lastSpeech > if mode.Short? then 240.0 else 120.0
  {
  }

  /** A start key typed and not yet answered by an IDLE turn. */
  ghost predicate StartTyped(mode: Mode, es: seq<Event>)
    decreases |es|
  {
    && es != []
    && (es[|es| - 1].KeyS?
        || (StartTyped(mode, es[..|es| - 1]) && !(es[|es| - 1].Turn? && Run(mode, es[..|es| - 1]).phase.Idle?)))
  }

  lemma {:induction false} StartFlag(mode: Mode, es: seq<Event>)
    ensures Run(mode, es).startRequested == StartTyped(mode, es)
    decreases |es|
  {
    if es != [] {
      StartFlag(mode, es[..|es| - 1]);
      RequestStays(mode, Run(mode, es[..|es| - 1]), es[|es| - 1]);
    }
  }

  lemma RequestStays(mode: Mode, s: State, e: Event)
    ensures Step(mode, s, e).startRequested == (e.KeyS? || (s.startRequested && !(e.Turn? && s.phase.Idle?)))
  {
  }

  /** When a lecture starts: at an IDLE turn after a start key that no turn has answered yet; a key typed
      during a lecture counts for the next one. */
  lemma StartsWhenTyped(mode: Mode, es: seq<Event>, e: Event)
    requires Run(mode, es).phase.Idle? && e.Turn?
    ensures Run(mode, es + [e]).phase == if StartTyped(mode, es) then Active else Idle
  {
    RunSnoc(mode, es, e);
    StartFlag(mode, es);
  }

  /** In every run, a turn starts a summary exactly when it is an ACTIVE turn that does not end the lecture,
      has received a block, finds a whole interval gone since the last time the transcript was looked
      at, and finds enough words in it, the sentence of this very turn included. */
  lemma WhenSummaryStarts(mode: Mode, es: seq<Event>, s: State, e: Event)
    requires s == Run(mode, es) && e.Turn? && s.phase.Active?
    ensures var t := Step(mode, s, e);
            var due := !t.phase.Ending? && !e.heard.Timeout?
                       && e.t0 - s.lastSend >= (if mode.Short? then 240.0 else 900.0);
            && (|t.summaries| > |s.summaries| <==>
                  due && t.segments != [] && |Split(Transcript(t.segments))| >= if mode.Short? then 30 else 100)
            && (|t.summaries| > |s.summaries| ==> t.summaries[|s.summaries|].text == Transcript(t.segments))
            && t.lastSend == (if due && t.segments != [] then e.t0 else s.lastSend)
  {
    RunInv(mode, es);
    if !Ends(mode, s, e.t0) && !e.heard.Timeout? {
      HearKeepsInv(mode, s, e.t1, e.heard);
      SendStarts(mode, Hear(s, e.t1, e.heard), e.t0);
    }
  }

  lemma SendStarts(mode: Mode, s: State, now: real)
    requires s.file == if s.segments == [] then None else Some(Transcript(s.segments))
    ensures var t := Send(mode, s, now);
            var due := now - s.lastSend >= SendIntervalSec(mode) as real && s.segments != [];
            && t.segments == s.segments && t.lastSend == (if due then now else s.lastSend)
            && (|t.summaries| > |s.summaries| <==> due && WordCount(Transcript(s.segments)) >= MinLectureWords(mode))
            && (|t.summaries| > |s.summaries| ==> t.summaries[|s.summaries|].text == Transcript(s.segments))
  {
  }

  ghost function WordSum(segments: seq<string>): nat {
    if segments == [] then 0 else WordSum(segments[..|segments| - 1]) + WordCount(segments[|segments| - 1])
  }

  /** The transcript has the words of its segments, in order, and so many. */
  lemma {:induction false} TranscriptWords(segments: seq<string>)
    ensures Split(Transcript(segments)) == AllWords(segments)
    ensures WordCount(Transcript(segments)) == WordSum(segments)
    decreases |segments|
  {
    if segments != [] {
      var init, last := segments[..|segments| - 1], segments[|segments| - 1];
      TranscriptWords(init);
      SplitSegment(Transcript(init), last, init);
    }
  }

  /** A transcript is empty or ends in a space, so a further segment starts a new word. */
  lemma SplitSegment(text: string, segment: string, segments: seq<string>)
    requires text == Transcript(segments)
    ensures Split(text + segment + " ") == Split(text) + Split(segment)
  {
    if segments == [] {
      SplitConcat(segment, ' ', "");
      assert text + segment + " " == segment + [' '] + "";
      assert Split(text) + Split(segment) == Split(segment);
    } else {
      var body := Transcript(segments[..|segments| - 1]) + segments[|segments| - 1];
      assert text == body + " ";
      assert text + segment + " " == body + [' '] + (segment + [' '] + "");
      SplitConcat(body, ' ', segment + [' '] + "");
      SplitConcat(segment, ' ', "");
      SplitConcat(body, ' ', "");
      assert text == body + [' '] + "";
      assert Split(segment) + Split("") == Split(segment);
      assert Split(body) + Split("") == Split(body);
    }
  }

  /** The ENDING turn, from any run: without an accepted segment there is no transcript and opening
      it fails, although the loop has no handler for that; with one, the questions put to the model
      hold exactly the accepted words in order, and the loop goes on exactly when all are answered. */
  lemma EndingTurn(mode: Mode, es: seq<Event>, s: State, e: Event)
    requires s == Run(mode, es) && s.phase.Ending? && e.Turn?
    ensures var t := Step(mode, s, e); var chunks := Chunks(AllWords(s.segments), 900);
            && (t.phase.Crashed? <==> s.segments == [] || Answers(chunks, e.llm).None?)
            && (t.phase.Idle? <==> !t.phase.Crashed?)
            && AllWords(chunks) == AllWords(s.segments) && FullChunks(chunks, 900)
            && (t.phase.Idle? ==> t.finalSummary == Some(Lines(Answers(chunks, e.llm).value)))
  {
    RunInv(mode, es);
    TranscriptWords(s.segments);
    AllWordsAreWords(s.segments);
    ChunksMeetContract(AllWords(s.segments), LLM_MAX_WORDS);
    FinishFacts(s, AllWords(s.segments), e.llm);
  }

  lemma FinishFacts(s: State, words: seq<string>, llm: Model)
    requires s.file.Some? ==> Split(s.file.value) == words
    ensures var t := Finish(s, llm); var answers := Answers(Chunks(words, LLM_MAX_WORDS), llm);
            && (t.phase.Crashed? <==> s.file.None? || answers.None?)
            && (t.phase.Idle? <==> !t.phase.Crashed?)
            && (t.phase.Idle? ==> t.finalSummary == Some(Lines(answers.value)))
  {
  }

  /** Both happen: a lecture ended before anything was accepted crashes the loop, in either mode and
      whatever the clock says. */
  lemma EndingCrashes(mode: Mode, t: real, u: real, llm: Model)
    ensures var turn := Turn(t, u, Timeout, llm); var es := [KeyS, turn, KeyE, turn];
            && Run(mode, es).phase.Ending? && Run(mode, es).segments == []
            && Run(mode, es + [turn]).phase.Crashed?
  {
    var turn := Turn(t, u, Timeout, llm);
    Started(mode, t, u, turn);
    RunSnoc(mode, [KeyS, turn], KeyE);
    RunSnoc(mode, [KeyS, turn, KeyE], turn);
    RunSnoc(mode, [KeyS, turn, KeyE, turn], turn);
    assert [KeyS, turn] + [KeyE] == [KeyS, turn, KeyE] && [KeyS, turn, KeyE] + [turn] == [KeyS, turn, KeyE, turn];
  }

  lemma Started(mode: Mode, t0: real, t1: real, turn: Event)
    requires turn.Turn? && turn.t0 == t0 && turn.t1 == t1
    ensures Run(mode, [KeyS, turn]) == StartLecture(INITIAL, t0, t1)
  {
    RunSnoc(mode, [], KeyS);
    RunSnoc(mode, [KeyS], turn);
    assert [] + [KeyS] == [KeyS] && [KeyS] + [turn] == [KeyS, turn];
  }

  lemma RunSnoc(mode: Mode, es: seq<Event>, e: Event)
    ensures Run(mode, es + [e]) == Step(mode, Run(mode, es), e)
  {
    assert (es + [e])[..|es|] == es;
  }

  /** The only other failure of the loop: an ACTIVE turn finds the send interval over before any
      segment was accepted. Its clock must read at least a send interval after the first reading of
      the start and at most the silence limit after the second, so the two readings must lie as far
      apart as interval and limit: 780 seconds in the long mode, nothing in the short one. */
  lemma ActiveTurnFails(mode: Mode, es: seq<Event>, s: State, e: Event)
    requires s == Run(mode, es) && s.phase.Active? && e.Turn?
    ensures var t := Step(mode, s, e);
            var interval, limit := if mode.Short? then 240.0 else 900.0, if mode.Short? then 240.0 else 120.0;
            && (t.phase.Crashed? <==>
                  && !t.phase.Ending? && !e.heard.Timeout?
                  && t.segments == [] && e.t0 - s.startedAt >= interval)
            && (t.phase.Crashed? ==>
                  && s.startedAt + interval <= e.t0 <= s.listeningSince + limit
                  && s.listeningSince - s.startedAt >= interval - limit)
            && (t.phase.Ending? <==> s.stopRequested || e.t0 - s.lastSpeech > limit)
  {
    RunInv(mode, es);
    EndsOnTurn(mode, s, e);
    if !Ends(mode, s, e.t0) && !e.heard.Timeout? {
      HearKeepsInv(mode, s, e.t1, e.heard);
      HearMoves(mode, s, e);
      SendFails(mode, Hear(s, e.t1, e.heard), e.t0);
    }
  }

  /** In the short mode it happens: for any two readings of the start, a turn in that window crashes the
      loop exactly when it receives a block and accepts no sentence. */
  lemma ShortModeCrashes(t0: real, t1: real, now: real, u: real, heard: Heard, llm: Model)
    requires t0 + 240.0 <= now <= t1 + 240.0
    ensures var es := [KeyS, Turn(t0, t1, Timeout, llm)];
            && Run(Short, es).phase.Active?
            && (Run(Short, es + [Turn(now, u, heard, llm)]).phase.Crashed? <==>
                  !heard.Timeout? && !(heard.Sentence? && WordCount(heard.text) >= MIN_WORDS_PER_SEGMENT))
  {
    var start := Turn(t0, t1, Timeout, llm);
    Started(Short, t0, t1, start);
    RunSnoc(Short, [KeyS, start], Turn(now, u, heard, llm));
  }

  lemma SendFails(mode: Mode, s: State, now: real)
    requires Inv(mode, s) && s.phase.Active?
    ensures Send(mode, s, now).phase.Crashed? <==>
            s.segments == [] && now - s.startedAt >= SendIntervalSec(mode) as real
    ensures !Send(mode, s, now).phase.Ending? && Send(mode, s, now).segments == s.segments
  {
  }

  /** The loop with its variables changed in place. */
  class Loop {
    const mode: Mode
    var state: Phase
    var startRequested: bool
    var stopRequested: bool
    var fullFile: Option<string>
    var lastSend: real
    var lastSpeech: real
    var summaryIndex: nat
    var started: seq<Summary>
    var finalSummary: Option<string>
    ghost var startedAt: real
    ghost var listeningSince: real
    ghost var segments: seq<string>

    ghost function Contents(): State
      reads this
    {
      State(state, startRequested, stopRequested, fullFile, lastSend, lastSpeech, summaryIndex, started,
            finalSummary, startedAt, listeningSince, segments)
    }

    constructor (m: Mode)
      ensures mode == m && Contents() == INITIAL
    {
      mode, state, startRequested, stopRequested, fullFile := m, Idle, false, false, None;
      lastSend, lastSpeech, summaryIndex, started, finalSummary := 0.0, 0.0, 1, [], None;
      startedAt, listeningSince, segments := 0.0, 0.0, [];
    }

    method Key(e: Event)
      requires !e.Turn?
      modifies this
      ensures Contents() == Step(mode, old(Contents()), e)
    {
      if e.KeyS? {
        startRequested := true;
      } else {
        stopRequested := true;
      }
    }

    method IdleTurn(t0: real, t1: real)
      modifies this
      ensures Contents() == if old(startRequested) then StartLecture(old(Contents()), t0, t1) else old(Contents())
      ensures old(startRequested) ==>
                && state == Active && !startRequested && !stopRequested && fullFile.None? && started == []
                && finalSummary.None? && lastSend == t0 && lastSpeech == t1 && summaryIndex == 1
    {
      if startRequested {
        startRequested := false;
        fullFile := None;
        started, finalSummary := [], None;
        lastSend := t0;
        lastSpeech := t1;
        summaryIndex := 1;
        stopRequested := false;
        startedAt, listeningSince, segments := t0, t1, [];
        state := Active;
      }
    }

    method Accept(t1: real, text: string)
      modifies this
      ensures Contents() == Hear(old(Contents()), t1, Sentence(text))
      ensures |Split(text)| < 3 ==> Contents() == old(Contents())
      ensures |Split(text)| >= 3 ==> lastSpeech == t1 && segments == old(segments) + [text]
      ensures |Split(text)| >= 3 ==>
                fullFile == Some((if old(fullFile).Some? then old(fullFile).value else "") + text + " ")
    {
      if WordCount(text) >= MIN_WORDS_PER_SEGMENT {
        lastSpeech := t1;
        fullFile := Some((if fullFile.Some? then fullFile.value else "") + text + " ");
        segments := segments + [text];
      }
    }

    method SendIfDue(now: real)
      modifies this
      ensures Contents() == Send(mode, old(Contents()), now)
      ensures now - old(lastSend) < (if mode.Short? then 240.0 else 900.0) ==> Contents() == old(Contents())
      ensures now - old(lastSend) >= (if mode.Short? then 240.0 else 900.0) ==>
                if old(fullFile).None? then state == Crashed && lastSend == old(lastSend) else lastSend == now
      ensures now - old(lastSend) >= (if mode.Short? then 240.0 else 900.0) && old(fullFile).Some?
              && |Split(old(fullFile).value)| >= (if mode.Short? then 30 else 100) ==>
                && summaryIndex == old(summaryIndex) + 1
                && started == old(started) + [Summary(SummaryName(mode, old(summaryIndex)), old(fullFile).value, now)]
    {
      if now - lastSend >= SendIntervalSec(mode) as real {
        if fullFile.None? {
          state := Crashed;
          return;
        }
        var lectureText := fullFile.value;
        if WordCount(lectureText) >= MinLectureWords(mode) {
          var fname := "summary_" + PadStart(Print(Minutes(mode, summaryIndex)), 2) + "min.txt";
          started := started + [Summary(fname, lectureText, now)];
          summaryIndex := summaryIndex + 1;
        }
        lastSend := now;
      }
    }

    method EndingStep(llm: Model)
      modifies this
      ensures Contents() == Finish(old(Contents()), llm)
    {
      if fullFile.None? {
        state := Crashed;
        return;
      }
      var summary, _ := Summarize(fullFile.value, llm);
      if summary.None? {
        state := Crashed;
        return;
      }
      finalSummary := summary;
      state := Idle;
    }

    method Iterate(e: Event)
      requires e.Turn?
      modifies this
      ensures Contents() == Step(mode, old(Contents()), e)
      ensures old(state) == Active ==>
                (state == Ending <==>
                   old(stopRequested) || e.t0 - old(lastSpeech) > if mode.Short? then 240.0 else 120.0)
    {
      match state {
        case Idle => IdleTurn(e.t0, e.t1);
        case Active =>
          var now := e.t0;
          if stopRequested || now - lastSpeech > SilenceEndSeconds(mode) as real {
            state := Ending;
            return;
          }
          if e.heard.Timeout? {
            return;
          }
          if e.heard.Sentence? {
            Accept(e.t1, e.heard.text);
          }
          SendIfDue(now);
        case Ending => EndingStep(e.llm);
        case Crashed =>
      }
    }
  }
}
