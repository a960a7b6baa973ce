# Eduscope: models and proofs

This project models the parts of Eduscope in which state, time or order matter, and proves what they
keep. `dafny verify dfyconfig.toml` checks all of it. Each module follows one component.

| module | component |
|---|---|
| `QuizScoring`, `Leaderboard`, `AnswerProjections` | quiz scoring, the panel's live leaderboard, and the server's answer rows, events and leaderboard |
| `LeaderboardLaws`, `LiveLeaderboard` | laws of the hook, of rounding and of ranks, and when the panel's list is the server's |
| `SlideRuns`, `SlideCapture` | the batch view of slide capture, and the streaming service that refines it |
| `AudioQueue`, `Words`, `LectureSession` | the audio queue, the splitting and chunking of text, and the lecture loop |
| `QuestionCommands`, `ChannelCommand` | 202-style commands of the panel that stay pending until something releases them |
| `ClientProvider` | the panel's client: asynchronous build, cleanup, and coalesced resyncs |
| `Lifecycle` | start and stop order of the core API's components |
| `UploadRanges`, `ConvertGrouping` | byte ranges of an upload, and the grouping of recordings for conversion |
| `Decimal`, `TimeFormat` | numerals and the time displays printed with them |

Code that changes variables step by step is a class with those variables. Its methods are proved equal
to a step function on values (`Contents() == Step(old(Contents()), e)`) and state what they change, and
the theorems are about every run of that function. Where several parties act, a run is any sequence of
enabled events. What the variables hold is read off the events themselves, without the step function:
`TurnsTell`, `LectureTells`, `EventsTell`, `CallsTell`, `CommandIsTaken`, `RequestNotesStatus`.

What the proofs show about the code, beyond the promises it keeps:

- The live leaderboard agrees with the server's, whatever the batches and however often each is delivered
  in a row, exactly when for every student the answers lost and the rows overwritten balance, and his
  last name is the same (`LiveListAgrees`). An answer is lost when its batch has the publication,
  synchronization time and length of the batch just before it (`KeyIdentifies`). A row is overwritten
  when a student answers a publication again: the comment of `use-leaderboard.ts` takes every delta for
  a new answer, but the server upserts, so a correction or a resend counts twice in the panel and once
  in the server (`CorrectionCountsTwice`). So if nothing is lost the counts agree exactly when no live
  answer repeats the student and publication of an earlier one, and if none does, exactly when nothing
  is lost (`WhenBalanced`).
- A redelivery counts once only if it comes in a row; after another batch it counts again
  (`InterleavedCountsTwice`). `AnyDelivery` gives the exact condition for every delivery.
  A batch that the snapshot already contains is an answer given again.
- An average on show may be off by one millisecond (`RoundingVisible`), never by more when the lists agree
  and nothing is lost or overwritten.
- The comment of `use-questions.ts` says a pending command is released only by the live change it
  promised. An edit of a question that was already edited is released at once by the old change
  (`StaleEditReleases`), and `ReleasedAtOnce` says exactly when this happens. A late rejection of an
  old command releases a newer one (`LateRejectionReleasesNewer`).
- A channel that falls back to the state a command was issued from is reported as unresolved only by
  the ceiling (`FallingBackNeverResolves`). A late rejection releases a newer request here, too.
- A flush queued when the panel's effect is cleaned up still resyncs the disposed client
  (`FlushReachesDisposedClient`), at most once (`FlushAfterCleanup`).
- A component whose `stop` fails leaves the components before it running (`FailedStopLeavesRunning`); a
  `stop()` made before `start()` leaves all of them running (`EarlyStopLeavesRunning`).
  `ShutdownComplete` says exactly when all are stopped. A second `start()` starts everything again, and
  `stop()` then stops each component as often (`StartedTwice`).
- ENDING without an accepted segment opens a file that does not exist (`EndingTurn`, `EndingCrashes`). So
  does an ACTIVE turn that is due to send before the first segment (`ActiveTurnFails`). In the short
  mode this takes a turn whose clock reads between the two clock readings of the start, each shifted
  by 240 seconds, and happens at every such turn that receives a block and accepts no sentence
  (`ShortModeCrashes`); in the long mode the two readings would have to be 780 seconds apart.
- The newest audio block is lost only if the consumer drains a full queue between two calls of the
  callback (`NewestLostOnlyWhenDrained`). The comment beside the queue speaks of about 100 blocks per
  second; the block size makes it 10. The bound 600 is modelled as written.

## Model

| member | source | states |
|---|---|---|
| `QuizScoring.AverageIsNearest` | packages/shared/src/quiz-scoring.ts:31 | `Math.round` of the mean is the nearest integer, halves upward, as inequalities on integers |
| `QuizScoring.SortSorts` | packages/shared/src/quiz-scoring.ts:34 | sorting yields a permutation ordered by points, then student number |
| `QuizScoring.NextRank` | packages/shared/src/quiz-scoring.ts:36-42 | walking a sorted board, the closed-form rank starts at 1 and grows by one exactly where the points change |
| `QuizScoring.ScoreParticipants` | packages/shared/src/quiz-scoring.ts:23-43 | the board has each input once, ten points for a right answer, the exact accuracy and the nearest average (zero without answers), by points and then student number, with the rank growing by one where the points change; it equals the closed-form board |
| `QuizScoring.RankOrder` | packages/shared/src/quiz-scoring.ts:39 | ranks are equal exactly on ties, and more points mean a strictly smaller rank |
| `QuizScoring.RankingSpecification` | packages/shared/src/quiz-scoring.ts:26-42 | the board is a sorted permutation of the scored inputs, ranks in closed form, equal exactly on ties, and 1..k without gap |
| `QuizScoring.OrderIndependent` | packages/shared/src/quiz-scoring.ts:34 | with distinct ids the board does not depend on the order of the input |
| `Leaderboard.TallyMeaning` | services/core-api/src/modules/quiz/leaderboard.ts:33-43 | a tally counts a student's answers, right answers and milliseconds and has his last name; students without answers have none |
| `Leaderboard.ScoringGivesBoard` | apps/panel/src/ai/use-leaderboard.ts:115-123 | scoring tallies listed in any order gives the board of those tallies |
| `Leaderboard.BoardRowsAreScored` | packages/shared/src/quiz-scoring.ts:27-33 | every row of a board has its student's tally, and points, accuracy and average as scoring defines them |
| `Leaderboard.BoardUnique` | apps/panel/src/ai/use-leaderboard.ts:115-123 | tallies have only one board, so the list does not depend on Map or object order |
| `Leaderboard.BoardsAgree` | packages/shared/src/quiz-scoring.ts:26-42 | two boards agree in everything but totals and averages exactly when their tallies differ only in response times |
| `Leaderboard.ListTallies` | apps/panel/src/ai/use-leaderboard.ts:116-122 | the tallies are listed once each, in an order nobody can rely on |
| `Leaderboard.LeaderboardHook.OnResponses` | apps/panel/src/ai/use-leaderboard.ts:66-89 | an event with the key of the last one changes nothing; another is folded into the tallies |
| `Leaderboard.LeaderboardHook.FoldDeltas` | apps/panel/src/ai/use-leaderboard.ts:75-87 | the loop over the deltas computes the fold of the answers onto the previous tallies |
| `Leaderboard.LeaderboardHook.SeedTallies` | apps/panel/src/ai/use-leaderboard.ts:91-99 | the snapshot's rows become tallies with the total rebuilt from the average |
| `Leaderboard.LeaderboardHook.MergeTallies` | apps/panel/src/ai/use-leaderboard.ts:100-110 | merging live tallies in any order adds them to the snapshot's, student by student |
| `Leaderboard.LeaderboardHook.Entries` | apps/panel/src/ai/use-leaderboard.ts:91-123 | the list on show is the board of the snapshot's tallies combined with the live ones |
| `LeaderboardLaws.FoldIsCombine` | apps/panel/src/ai/use-leaderboard.ts:74-110 | folding answers one by one onto tallies is combining them with the tallies of those answers |
| `LeaderboardLaws.RedeliveryHarmless` | apps/panel/src/ai/use-leaderboard.ts:68-70 | an event delivered several times in a row counts once |
| `LeaderboardLaws.HookTallies` | apps/panel/src/ai/use-leaderboard.ts:64-89 | after any batches the live tallies are those of the batches whose key differs from the one before, and the stale flag is that of the last such batch |
| `LeaderboardLaws.InterleavedCountsTwice` | apps/panel/src/ai/use-leaderboard.ts:68-70 | a batch delivered again after another batch is folded a second time |
| `LeaderboardLaws.KeyIdentifies` | apps/panel/src/ai/use-leaderboard.ts:68 | for publication ids without colon, keys are equal exactly for equal publication, time and number of answers |
| `LeaderboardLaws.RebuiltAverage` | apps/panel/src/ai/use-leaderboard.ts:97-108 | an average over a total rebuilt from a rounded average is within one millisecond of the true one, and equal when nothing live, or nothing else, counts |
| `LeaderboardLaws.RoundingVisible` | apps/panel/src/ai/use-leaderboard.ts:97 | a case in which that millisecond shows |
| `LeaderboardLaws.SnapshotOfBoard` | apps/panel/src/ai/use-leaderboard.ts:92-99 | the tallies seeded from the server's board are the server's, up to the rebuilt totals |
| `LeaderboardLaws.WrongAnswerKeepsRanks` | packages/shared/src/quiz-scoring.ts:36-42 | a wrong answer of a listed student changes nobody's rank |
| `LeaderboardLaws.RightAnswerOwnRank` | packages/shared/src/quiz-scoring.ts:36-42 | a right answer improves the student's rank by one if somebody else had the new total, and leaves it otherwise |
| `LeaderboardLaws.RightAnswerOtherRank` | packages/shared/src/quiz-scoring.ts:36-42 | everybody else moves by at most one, by an exact formula, and nobody ahead moves |
| `AnswerProjections.Projections.IngestAnswers` | services/core-api/src/modules/quiz/responses.ts:35-95 | a batch is upserted by publication and student and published as one event for each publication, whose publications become synced; an unknown publication undoes it all; the events describe exactly the rows written |
| `AnswerProjections.Projections.WriteRows` | services/core-api/src/modules/quiz/responses.ts:42-80 | the loop writes each answer over the row of its key and collects the deltas by publication, in order of first appearance |
| `AnswerProjections.LastSubmissionStays` | services/core-api/src/modules/quiz/responses.ts:27-31 | a row holds the last answer submitted under its key, and there is a row exactly for the keys submitted |
| `AnswerProjections.EventsAreThose` | services/core-api/src/modules/quiz/responses.ts:70-94 | a batch is published as one event for each publication answered, with its answers in order, the time of the call, and not stale |
| `AnswerProjections.PublishedRows` | services/core-api/src/modules/quiz/responses.ts:70-94 | upserting the answers as the events group them gives the same rows as upserting the batch |
| `AnswerProjections.RunRows` | services/core-api/src/modules/quiz/responses.ts:35-95 | the same after any number of batches: the rows are those of all published deltas |
| `AnswerProjections.GetLeaderboard` | services/core-api/src/modules/quiz/leaderboard.ts:24-48 | the server's answer is the board of the session's rows, listed in any order; it is stale exactly when a row's publication is stale or failed |
| `LiveLeaderboard.AnyDelivery` | apps/panel/src/ai/use-leaderboard.ts:66-123 | for every delivery, with any repetitions: the lists agree exactly when for every student the rows seen and the answers folded have the count, right answers and last name of the server's rows |
| `LiveLeaderboard.FoldedOrLost` | apps/panel/src/ai/use-leaderboard.ts:68-89 | student by student, the answers submitted are those folded and those of batches with the key of the one before |
| `LiveLeaderboard.ListedOrReplaced` | services/core-api/src/modules/quiz/responses.ts:44-68 | student by student, old rows and submissions are the new rows, in any listing, and the rows overwritten |
| `LiveLeaderboard.LiveListAgrees` | apps/panel/src/ai/use-leaderboard.ts:66-123 | for any rows, batches, redelivery in a row and listing order, the list on show has the students, order, names, counts, points, accuracies and ranks of the server's if and only if answers lost and rows overwritten balance and last names are the same; without either, averages are within one millisecond |
| `LiveLeaderboard.WhenBalanced` | apps/panel/src/ai/use-leaderboard.ts:43-44 | with nothing lost they balance exactly when no live answer repeats the student and publication of an earlier one; with no such answer, exactly when nothing is lost |
| `LiveLeaderboard.OneNameEach` | services/core-api/src/modules/quiz/leaderboard.ts:35-42 | last names are the same in any listing order when each student goes by one name |
| `LiveLeaderboard.CorrectionCountsTwice` | services/core-api/test/quiz/projections.test.ts:276-293 | an answer and its correction: nothing lost, one row, two answers in the live tally, different lists |
| `SlideRuns.RunsAreMaximal` | scripts/python/live_slide_capture.py:128-146 | the runs lose no frame, hold look-alikes, and are cut only between frames that differ |
| `SlideRuns.MaximalRunsUnique` | scripts/python/live_slide_capture.py:128-146 | there is only one such way to cut a list of frames |
| `SlideRuns.BatchGrows` | scripts/python/live_slide_capture.py:130-146 | one more frame replaces the last slide of the batch or adds one |
| `SlideCapture.NamesInjective` | scripts/python/live_slide_capture.py:39-41 | different numbers give different file names, also beyond 999 |
| `SlideCapture.SlideNameReads` | scripts/python/live_slide_capture.py:39-41 | a slide's name holds its number in at least three digits |
| `SlideCapture.SavedFiles` | scripts/python/live_slide_capture.py:38-43 | saving slides as 1, 2, ... leaves exactly these files and, unchanged, the old ones of other names |
| `SlideCapture.IntervalSeparatesNames` | scripts/python/live_slide_capture.py:100-110 | captures a second apart have different whole seconds, so different temporary names |
| `SlideCapture.StepKeepsInv` | scripts/python/live_slide_capture.py:86-146 | every turn keeps the relation between variables, the two directories and the usable frames |
| `SlideCapture.StreamingRefinesBatch` | scripts/python/live_slide_capture.py:34-146 | after any turns, an ended session holds the last frame of each maximal run of the usable frames, numbered from 1 in order, and unchanged what it held before; which frames are usable is read off the keys, clocks and images of the turns alone |
| `SlideCapture.TurnsTell` | scripts/python/live_slide_capture.py:86-126 | in every run the session is open, the last attempt was made, and frames were captured exactly as the turns say: an attempt is a turn of an open session a second or more after the one before |
| `SlideCapture.OneSecondApart` | scripts/python/live_slide_capture.py:15-16 | frames one second apart are all captured; a distance of 11 makes a new slide and one of 10 does not |
| `SlideCapture.DirectoriesAtEveryTurn` | scripts/python/live_slide_capture.py:100-146 | while capturing, `.tmp` holds the newest frame as the candidate and nothing else, and the session slides 1..slide_index |
| `SlideCapture.NewestFrameSurvives` | scripts/python/live_slide_capture.py:109-146 | a captured frame finds its name free and is the only temporary file afterwards |
| `SlideCapture.Service.FinalizeSlide` | scripts/python/live_slide_capture.py:34-44 | the candidate is moved to the next slide number, if it exists |
| `SlideCapture.Service.ReadKey` | scripts/python/live_slide_capture.py:46-93 | a start key begins a session with nothing captured, an end key saves the candidate and empties `.tmp`, and either is ignored in the wrong state |
| `SlideCapture.Service.CompareFrame` | scripts/python/live_slide_capture.py:123-146 | the new frame becomes the candidate; the old one is removed or saved by the distance |
| `SlideCapture.Service.Capture` | scripts/python/live_slide_capture.py:100-146 | the capture part of a turn, whose removals and moves always find their file |
| `SlideCapture.Service.Iterate` | scripts/python/live_slide_capture.py:86-146 | one turn of the loop is one step of the model and keeps its invariant |
| `AudioQueue.StepKeepsInv` | scripts/python/live_lecture_start.py:125-132 | every atomic queue call keeps the invariant |
| `AudioQueue.QueueSafety` | scripts/python/live_lecture_start.py:77-132 | in every interleaving: the bound; blocks are numbered as produced, and consumed then waiting ones are produced ones with increasing numbers; each block is consumed, dropped, queued or in flight once; what waits is the newest stretch |
| `AudioQueue.GetDeliversOldest` | scripts/python/live_lecture_start.py:257-260 | in every run a get moves exactly the oldest waiting block to the end of what was consumed, if one is queued; nothing else delivers |
| `AudioQueue.AllAreProduced` | scripts/python/live_lecture_start.py:118-126 | in every run the blocks produced are those the callback was called with, in order |
| `AudioQueue.InitialInv` | scripts/python/live_lecture_start.py:77 | the empty queue is a state of such a run |
| `AudioQueue.RetrySucceeds` | scripts/python/live_lecture_start.py:128-132 | the second put of the callback always finds room |
| `AudioQueue.NewestLostOnlyWhenDrained` | scripts/python/live_lecture_start.py:127-132 | a dropped block is older than all that wait, unless the queue was drained meanwhile, and then it is the newest |
| `AudioQueue.AtomicKeepsNewest` | scripts/python/live_lecture_start.py:125-132 | an uninterrupted callback leaves the last `maxsize` blocks of the queue with the new one |
| `AudioQueue.Queue.CallbackPut` | scripts/python/live_lecture_start.py:125-126 | a new block is queued if there is room; otherwise the callback holds it and nothing is dropped yet |
| `AudioQueue.Queue.CallbackGet` | scripts/python/live_lecture_start.py:127-129 | the oldest block is dropped to make room, or, if the queue has been drained, the new block is given up |
| `AudioQueue.Queue.CallbackRetry` | scripts/python/live_lecture_start.py:130-132 | the held block is queued if there is room, and otherwise dropped |
| `AudioQueue.Queue.ConsumerGet` | scripts/python/live_lecture_start.py:257-260 | the recognizer receives the oldest block, which leaves the queue, or nothing when the queue is empty |
| `Words.SplitOfWeave` | scripts/python/live_lecture_start.py:135-142 | splitting finds exactly the words of any weaving of words and spaces |
| `Words.EveryTextIsWoven` | scripts/python/live_lecture_start.py:135-142 | every text is such a weaving of its words |
| `Words.SplitOfJoin` | scripts/python/live_lecture_start.py:140-142 | joining words and splitting again gives the same words |
| `Words.SplitConcat` | scripts/python/live_lecture_start.py:136 | splitting distributes over a concatenation cut at a space |
| `Words.BlanksCut` | scripts/python/live_lecture_start.py:136 | a blank, tab or line break cuts a text anywhere; a letter or digit is a word |
| `Words.NormalizeKeepsWords` | scripts/python/slide_ocrnew.py:29-30 | normalizing keeps the words and is idempotent |
| `Words.NormalizeSeesOnlyWords` | scripts/python/slide_ocrnew.py:29-30 | texts are normalized alike exactly when their words are the same |
| `Words.SplitChunks` | scripts/python/live_lecture_start.py:139-142 | the chunks' words are the text's words; every chunk but the last has exactly the maximum |
| `Words.ChunksUnique` | scripts/python/live_lecture_start.py:139-142 | no other list of chunks meets that contract |
| `Words.ChunksMeetContract` | scripts/python/live_lecture_start.py:139-142 | the chunks as a function of the words meet it |
| `LectureSession.AnswersInOrder` | scripts/python/live_lecture_start.py:157-163 | there are answers exactly when the model answers every chunk, and then one for each, in order |
| `LectureSession.Ask` | scripts/python/live_lecture_start.py:159-161 | the loop puts the chunks to the model in order: the i-th answer is that to the i-th chunk, and there is none at all when the model raises on one |
| `LectureSession.Summarize` | scripts/python/live_lecture_start.py:156-163 | the questions hold exactly the text's words; the answers are the lines of the summary |
| `LectureSession.LinesRead` | scripts/python/live_lecture_start.py:163 | a summary has the lines of its parts, in order |
| `LectureSession.StepKeepsInv` | scripts/python/live_lecture_start.py:214-326 | every key and turn keeps the relation of transcript, summaries and times |
| `LectureSession.SummaryNamesDiffer` | scripts/python/live_lecture_start.py:284-287 | different summary numbers give different file names |
| `LectureSession.SummaryNameReads` | scripts/python/live_lecture_start.py:284-287 | the k-th name holds 4k or 15k minutes in at least two digits |
| `LectureSession.SummariesOfALecture` | scripts/python/live_lecture_start.py:228-295 | in every run: distinct labels, no label ahead of the elapsed minutes, enough words, each text a prefix of the next |
| `LectureSession.LectureOnlyGrows` | scripts/python/live_lecture_start.py:247-295 | in every run, over any stretch without a new lecture: the segments are the earlier ones and exactly the sentences accepted, in order, and no summary is changed or taken back |
| `LectureSession.LectureHasStart` | scripts/python/live_lecture_start.py:216-247 | every ACTIVE state belongs to a lecture started by a turn of the run |
| `LectureSession.LectureTells` | scripts/python/live_lecture_start.py:216-295 | in every run the stop flag, the start readings, the segments, the time of last speech, the time of the last look and the summarized texts are what the events since the start say |
| `LectureSession.SilenceEnds` | scripts/python/live_lecture_start.py:247-253 | a lecture ends exactly at a turn that finds the end key typed since the start, or its clock more than 240 or 120 seconds after the last accepted sentence, or the start |
| `LectureSession.StartsWhenTyped` | scripts/python/live_lecture_start.py:216-245 | an idle turn starts a lecture exactly after a start key that no turn has answered |
| `LectureSession.WhenSummaryStarts` | scripts/python/live_lecture_start.py:275-295 | exactly when a summary starts, on which text, and when the send time moves |
| `LectureSession.TranscriptWords` | scripts/python/live_lecture_start.py:272-280 | the transcript has its segments' words in order, and as many as they have together |
| `LectureSession.EndingTurn` | scripts/python/live_lecture_start.py:297-326 | ENDING fails exactly without a segment or when the model raises; else the final questions hold exactly the accepted words |
| `LectureSession.EndingCrashes` | scripts/python/live_lecture_start.py:297-326 | in either mode, ending a lecture in which nothing was accepted crashes the loop |
| `LectureSession.ActiveTurnFails` | scripts/python/live_lecture_start.py:247-278 | the only other failure: a send is due before the first segment; its clock reads at least an interval after the first and at most the silence limit after the second reading of the start, which must be interval minus limit apart: 0 or 780 seconds |
| `LectureSession.ShortModeCrashes` | scripts/python/live_lecture_start.py:247-278 | in the short mode a turn in that window crashes the loop exactly when it receives a block and accepts no sentence |
| `LectureSession.Loop.IdleTurn` | scripts/python/live_lecture_start.py:216-245 | a requested lecture starts with no transcript, no summaries, both clocks set and a pending stop forgotten; without a request nothing changes |
| `LectureSession.Loop.Accept` | scripts/python/live_lecture_start.py:262-273 | a sentence of at least three words and a space are appended and the time of last speech moves; a shorter one changes nothing |
| `LectureSession.Loop.SendIfDue` | scripts/python/live_lecture_start.py:275-295 | before the interval is over nothing changes; then a missing transcript crashes the loop, a short one only moves the send time, and a long one also starts the next summary |
| `LectureSession.Loop.EndingStep` | scripts/python/live_lecture_start.py:297-326 | the final summary is written and the loop returns to IDLE, or it crashes for want of a transcript or an answer |
| `LectureSession.Loop.Iterate` | scripts/python/live_lecture_start.py:214-326 | a turn changes the variables exactly as the step function whose runs the theorems above describe |
| `QuestionCommands.StepKeepsInv` | apps/panel/src/ai/use-questions.ts:101-178 | every event and the render after it keep the invariant |
| `QuestionCommands.PendingIffArmed` | apps/panel/src/ai/use-questions.ts:101-154 | in every run: pending exactly when the ceiling is armed for that id, for at most T-CMD-RESOLVE, and every command issued is accounted for |
| `QuestionCommands.OnlyEmptyIdIsReplaced` | apps/panel/src/ai/use-questions.ts:156-178 | a pending command is replaced by another only on the empty id |
| `QuestionCommands.CommandIsTaken` | apps/panel/src/ai/use-questions.ts:116-178 | in every run: when a command is ignored, when it is released at once by the data that last arrived, and otherwise pending with ten seconds to resolve |
| `QuestionCommands.HowPendingEnds` | apps/panel/src/ai/use-questions.ts:112-154 | what releases a pending command, by the data that last arrived, and the problems left behind |
| `QuestionCommands.StaleEditReleases` | apps/panel/src/ai/use-questions.ts:116-129 | an edit released by an older change |
| `QuestionCommands.ReleasedAtOnce` | apps/panel/src/ai/use-questions.ts:116-162 | a command is released at its own render exactly when the data already show its effect |
| `QuestionCommands.LateRejectionReleasesNewer` | apps/panel/src/ai/use-questions.ts:149-154 | a run in which a late rejection releases a newer command |
| `QuestionCommands.Hook.Questions` | apps/panel/src/ai/use-questions.ts:73-97 | the merged list has the snapshot's and the live questions, live state first, without discarded ones |
| `QuestionCommands.Hook.ResolveEffect` | apps/panel/src/ai/use-questions.ts:116-129 | a pending command whose effect the live data show is released and its timer disarmed; nothing else changes |
| `QuestionCommands.Hook.IssueCommand` | apps/panel/src/ai/use-questions.ts:131-178 | a command is ignored while one is pending or, for sending, while the quiz is not open; otherwise it becomes pending, its old problem goes, and the ceiling is armed for it |
| `QuestionCommands.Hook.Rejected` | apps/panel/src/ai/use-questions.ts:149-154 | a rejection ends whatever is pending and records its own problem |
| `QuestionCommands.Hook.CeilingFires` | apps/panel/src/ai/use-questions.ts:141-146 | the ceiling ends what is pending and records that its id was not resolved in time |
| `QuestionCommands.Hook.On` | apps/panel/src/ai/use-questions.ts:101-178 | a handler and the effect of its render change the fields exactly as the step function whose runs the theorems above describe |
| `ChannelCommand.PendingIffArmed` | apps/panel/src/channels/use-channel-runtime-command.ts:25-63 | in every run: pending exactly when the ceiling is armed, for at most T-CMD-RESOLVE |
| `ChannelCommand.RequestNotesStatus` | apps/panel/src/channels/use-channel-runtime-command.ts:45-55 | in every run a request is ignored while one is pending or the panel is stale, and otherwise notes the status last reported, with ten seconds to resolve |
| `ChannelCommand.HowPendingEnds` | apps/panel/src/channels/use-channel-runtime-command.ts:37-63 | released by a rejection, the ceiling, or `on`, `off` or `failed` other than the issuing state, and by nothing else |
| `ChannelCommand.LateRejectionReleasesNewer` | apps/panel/src/channels/use-channel-runtime-command.ts:58-62 | a run in which the rejection of a timed-out request releases the next one |
| `ChannelCommand.FallingBackNeverResolves` | apps/panel/src/channels/use-channel-runtime-command.ts:37-43 | without such news a command stays pending until the ceiling reports it unresolved |
| `ChannelCommand.Hook.RequestEnabled` | apps/panel/src/channels/use-channel-runtime-command.ts:45-55 | a command is ignored while one is pending or the panel is stale; otherwise it notes the state it was issued from and arms the ceiling |
| `ChannelCommand.Hook.StatusEffect` | apps/panel/src/channels/use-channel-runtime-command.ts:37-43 | a pending command ends when the status is stable and not the one it was issued from |
| `ChannelCommand.Hook.On` | apps/panel/src/channels/use-channel-runtime-command.ts:25-63 | a handler and the effect of its render change the fields exactly as the step function whose runs the theorems above describe |
| `ClientProvider.StepKeepsInv` | apps/panel/src/client/client-provider.tsx:75-152 | builds, signals, microtasks and cleanups in any order keep the invariant |
| `ClientProvider.EventsTell` | apps/panel/src/client/client-provider.tsx:100-152 | in every run effects are mounted, built, arrived and cancelled exactly when their events have happened, signalled for exactly the domains of their resync signals, and flushed once for each microtask |
| `ClientProvider.OtherNewsChangeNothing` | apps/panel/src/client/client-provider.tsx:127 | connection news without a resync reason change nothing |
| `ClientProvider.ClientsDisposedOnce` | apps/panel/src/client/client-provider.tsx:100-152 | a client is disposed once if its effect was built and cleaned up, as the events say, and not before; only live effects' clients are subscribed or installed |
| `ClientProvider.ResyncCoalesced` | apps/panel/src/client/client-provider.tsx:117-139 | one flush is queued exactly when domains wait; each flush resets exactly the domains signalled since the last; the domains reset or waiting are exactly those of the resync signals that arrived |
| `ClientProvider.FlushAfterCleanup` | apps/panel/src/client/client-provider.tsx:131-151 | after cleanup exactly the flush queued before it may still run, on the disposed client |
| `ClientProvider.FlushReachesDisposedClient` | apps/panel/src/client/client-provider.tsx:131-151 | a run in which the flush of a signal runs after its client was disposed |
| `ClientProvider.LatestClientInstalled` | apps/panel/src/client/client-provider.tsx:140-152 | in React's order the installed client is that of the latest effect, from build to cleanup |
| `ClientProvider.Provider.OnBuilt` | apps/panel/src/client/client-provider.tsx:100-141 | a client arriving after cleanup is disposed and not installed; another is subscribed and installed |
| `ClientProvider.Provider.OnConnection` | apps/panel/src/client/client-provider.tsx:125-131 | a resync signal adds its domain and queues a flush unless one is queued; other news change nothing |
| `ClientProvider.Provider.RunMicrotask` | apps/panel/src/client/client-provider.tsx:131-137 | the waiting domains are handed over and cleared, and the next signal may queue again |
| `ClientProvider.Provider.RunCleanup` | apps/panel/src/client/client-provider.tsx:144-151 | the effect is cancelled and unsubscribed, its client, if taken on, disposed, and no client installed |
| `Lifecycle.StopEventsFacts` | services/core-api/src/lifecycle.ts:42-48 | stops follow the given order up to the first that fails |
| `Lifecycle.TraceIsNested` | services/core-api/src/lifecycle.ts:14-49 | in any run, with any number of starts: every stop is of the component started last among those still open, what is open is what the registry stops next, and none is stopped more often than it started |
| `Lifecycle.EachCallStops` | services/core-api/src/lifecycle.ts:23-48 | in any run each stopping call stops, up to the first failure, the reverse of what was started since the last stop; other calls stop nothing |
| `Lifecycle.ReasonAndOutcome` | services/core-api/src/lifecycle.ts:23-48 | a failed start stops components with `startup-failed`, `stop()` with `shutdown`; the first `stop()` succeeds exactly when its stops do, and later ones report the same |
| `Lifecycle.CallsTell` | services/core-api/src/lifecycle.ts:19-40 | in every run the components are those registered, in order, and a stop is memoized exactly when `stop()` was called |
| `Lifecycle.OneStartIsNested` | services/core-api/src/lifecycle.ts:14-49 | with at most one start: starts are a prefix of registration order, none after a stop, stops are the first of the exact reverse, and none twice |
| `Lifecycle.StartedTwice` | services/core-api/src/lifecycle.ts:23-48 | a component started twice is stopped twice |
| `Lifecycle.ShutdownComplete` | services/core-api/src/lifecycle.ts:35-48 | `stop()` reaches every started component exactly when it is the first and no stop before the last fails; a second adds nothing |
| `Lifecycle.FailedStopLeavesRunning` | services/core-api/src/lifecycle.ts:42-48 | of two components, a failing stop of the second leaves the first started and forgotten |
| `Lifecycle.EarlyStopLeavesRunning` | services/core-api/src/lifecycle.ts:35-40 | a `stop()` before `start()` makes the later `stop()` do nothing, so both stay started |
| `Lifecycle.FailedStartCleansUp` | services/core-api/src/lifecycle.ts:23-33 | a failed start stops what had started, in reverse, and leaves nothing for `stop()` |
| `Lifecycle.Registry.RegisterComponent` | services/core-api/src/lifecycle.ts:19-21 | a component is added at the end; nothing is started |
| `Lifecycle.Registry.StartComponents` | services/core-api/src/lifecycle.ts:23-33 | components start in order up to the first failure, which stops those already started; the outcome says whether all started |
| `Lifecycle.Registry.StopThem` | services/core-api/src/lifecycle.ts:42-48 | the started components are stopped in reverse up to the first failure, and none is left as started |
| `Lifecycle.Registry.StopComponents` | services/core-api/src/lifecycle.ts:35-40 | only the first call stops anything; every call reports the first one's outcome |
| `UploadRanges.GetParams` | legacy-Codebase/LC/controllers/fm_ctrl.js:791-810 | for every size: contiguous ranges from 0 to the end, own lengths, all below 60 MiB, all but the last of full length, headers and delays |
| `UploadRanges.BodiesAreTheFile` | legacy-Codebase/LC/controllers/fm_ctrl.js:771-789 | the slices of contiguous ranges concatenate to the file, and the lengths add up to its size |
| `UploadRanges.EachByteOnce` | legacy-Codebase/LC/controllers/fm_ctrl.js:795-808 | every byte lies in exactly one range |
| `UploadRanges.HeaderReadsBack` | legacy-Codebase/LC/controllers/fm_ctrl.js:798 | the printed header is valid under section 14.4 of RFC 9110 exactly for a range inside the file, and is then read as that range |
| `UploadRanges.Upload` | legacy-Codebase/LC/controllers/fm_ctrl.js:771-810 | the upload as a whole: bodies, lengths and headers agree, and a small file goes in one request |
| `ConvertGrouping.StablePartition` | legacy-Codebase/LC/controllers/fm_ctrl.js:567-579 | each row is in the group of its id and no other; groups keep list order and so the order of `pauseval` |
| `ConvertGrouping.CombinedDuration` | legacy-Codebase/LC/controllers/fm_ctrl.js:607-613 | the combined row's duration is the sum of its members' |
| `ConvertGrouping.CombinedIsNamed` | legacy-Codebase/LC/controllers/fm_ctrl.js:613 | the combined row has the first member's name without its last three characters and `~cmb.ts`, the group's id, and is not converted yet |
| `ConvertGrouping.DurationConserved` | legacy-Codebase/LC/controllers/fm_ctrl.js:587-613 | the groups' durations add up to the list's |
| `ConvertGrouping.EverythingConverted` | legacy-Codebase/LC/controllers/fm_ctrl.js:587-652 | no group is empty, and when all statements succeed every row ends converted, old rows change in nothing else, and each group of several files adds one row |
| `ConvertGrouping.MarkAllFacts` | legacy-Codebase/LC/models/videoQueue.js:177-198 | marking names converted touches exactly the rows of those names |
| `ConvertGrouping.GroupFiles` | legacy-Codebase/LC/controllers/fm_ctrl.js:567-579 | the first loop collects the file names of each group id in list order |
| `ConvertGrouping.VideoQueue.ConvertOne` | legacy-Codebase/LC/controllers/fm_ctrl.js:587-649 | a group of several files has them marked, one combined row inserted with the found durations' sum, and that row marked; a single file is only marked |
| `ConvertGrouping.VideoQueue.StartConvert` | legacy-Codebase/LC/controllers/fm_ctrl.js:555-652 | the handler takes each group once, in any order, and leaves nothing unconverted |
| `TimeFormat.TimerReadsBack` | prototype/src/utils/format.ts:27-33 | reading the timer gives the seconds rounded down, zero below zero, whatever the number of hours |
| `TimeFormat.DurationReadsBack` | prototype/src/utils/format.ts:2-11 | the same for the short form |
| `TimeFormat.CountdownReadsBack` | prototype/src/utils/format.ts:14-19 | reading the countdown gives the seconds rounded up, zero below zero |
| `TimeFormat.PrintersInjective` | prototype/src/utils/format.ts:2-33 | two displays are equal exactly when the whole seconds are |
| `TimeFormat.DisplayShape` | prototype/src/utils/format.ts:2-33 | minutes and seconds are two digits below 60; the short form is the timer without a zero hour |

## Left out

- Floating point: milliseconds are integers, accuracies and times are real numbers; NaN and infinite inputs are not modelled.
- `localeCompare`: any total order on student numbers; a collation that takes two different numbers for equal is not modelled.
- `Array.prototype.sort`: its result is modelled as the stable insertion of each row, not its algorithm.
- Leaderboard sessions: one fixed session, and a snapshot that is not fetched again.
- AnswerProjections.Projections.IngestAnswers: does not model the `lastAnswerSeq` watermark, the fields the leaderboard does not read, and failures on a repeated answer id or an unknown option, which undo the batch like an unknown publication.
- Events the panel's store replaces before the next render: the hook never sees them; a batch is modelled as seen when it is delivered.
- Leaderboard staleness in the panel: the hook's own flag is modelled, not the choice between it and the snapshot's.
- Failed copies of a slide: a failed copy leaves no partial file in `.tmp`, and removing `.tmp` at the end of a session succeeds.
- Slide session names: a session may meet files under its name (`found`), but its `.tmp` is empty when it starts.
- Lecture directory names: two lectures started in the same second would share a transcript; a lecture is modelled with a directory of its own.
- Keys typed inside a turn of the lecture loop: they take effect between turns.
- Background summary threads: when they end, and that a failing one writes no file; they write to files of different names.
- Audio resampling, speech recognition, OCR, perceptual hashes and the language model: arbitrary results.
- QuestionCommands.OnlyEmptyIdIsReplaced: every handler is followed by a render, as in the rest of the model; the guards read `pendingId` from the last render, so two handler calls before a render would both pass.
- QuestionCommands.Hook.Questions: only the state of a question, without its other fields and without the order of the list.
- ClientProvider.Provider.OnConnection: does not model the store's own record of a domain's connection, which is updated on every event.
- ClientProvider.Provider.RunCleanup: does not model the reset of the store, which has no effect on the provider's variables.
- Unmounting a panel component: no event of the pending-command runs.
- JavaScript timers: a ceiling fires when it is due, not later.
- Refetching unknown question ids (`knownIds`), regenerating questions, and the fields of a question other than its state.
- The mock client set beside the routed client, the store's reset at cleanup, and what the store does with events.
- `stop()` during an unfinished `start()`: excluded by the server's own order of calls; `ShutdownComplete` and `FailedStartCleansUp` speak of one `start()`.
- Upload timing: the requests are started on timers and their order of arrival is not modelled; the session and its replies are not either.
- Failing SQL statements: every statement of the conversion succeeds; shell commands and the `itemsProcessing` flag are not modelled.
- The table's defaults: an inserted row is taken as not converted and with `pauseval` 0; the schema is not part of this model.
- Durations in the video queue: numbers, not the strings `parseInt` reads.
- `formatClock`, `greetingFor`, `formatResponseTime` and `clockParts`: locale-dependent or one-line displays.
