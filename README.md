# Expressify core in Dafny

Expressify is a webcam party game. The player is asked for a facial expression
(happy, sad, surprised or neutral) and scores a point each time the camera sees
it, within a timed round. This project models the parts of the game that make
decisions and proves properties about them:

- **The expression classifier** (`FaceDetection`, from `FaceDetector`). It computes
  the mouth aspect ratio, a smile metric, the eye opening and the eyebrow raise
  from face-mesh landmarks, then applies a first-match-wins rule chain:
  surprised, then happy, then sad, else neutral. Landmarks are `real`
  coordinates. The `FaceDetector` class keeps its `lastMetrics` diagnostic field.
- **The challenge engine** (`Game`, from `GameLogic`). It holds the difficulty
  table, with unknown names falling back to medium. `GameLogic` is a class whose
  methods update the score, target and timers in place. The clock is a
  `now: real` argument. `random.choice` is a nondeterministic pick from the
  eligible expressions.
- **The leaderboard** (`Leaderboard`, from `LeaderboardManager`). It keeps one list
  per difficulty. Adding a score appends the entry, sorts stably by score (best
  first), keeps ten entries and scans for the 1-based rank. Python's stable sort
  is specified as an insertion sort. The proofs show it is sorted, a permutation,
  and stable: for every score, the entries with that score keep their order.
- **Result grading** (`ResultsScreen`). It computes the score percentage with its
  zero-estimate guard, the display clamp, the S/A/B/C tier and its stars, the
  confetti threshold and the progress-bar width.
- **The screen state machine** (`App`, from `Expressify` in `main.py`). It moves
  menu → playing → results → menu on SPACE, stops on ESC or QUIT, and leaves
  playing only when the engine reports game over. Its invariant: the menu is
  showing exactly when the engine has no running game. The screen is a
  three-constructor datatype, so it is always menu, playing or results.

Three behaviours of the code worth knowing:

- `start_game` sets `last_expression_time` to the start time, so the cooldown
  also runs from the start. On easy nothing scores before 1.5 s, not even a
  matching detection at 0.2 s. `Game.EasyScenario` proves this.
- `set_difficulty` rewrites the settings of the engine but not its target. The
  code calls it only from `__init__`, before any game. On an engine with a game
  running it could leave a target the new difficulty does not offer
  (`Game.LiveDifficultyChangeStrandsTarget`).
- The eye and eyebrow heights are scaled by the frame height into pixels, but
  the smile metric is not: it stays in normalised units
  (`FaceDetection.SmileIgnoresFrameSize`).

Files: `wrappers.dfy` (Option/Result), `face_detector.dfy`, `game_logic.dfy`,
`leaderboard_manager.dfy`, `results_screen.dfy`, `main.dfy`.

## Model

| member | source | states |
|---|---|---|
| FaceDetection.ComputeMetrics | src/face_detector.py:115-135 | MAR is defined and non-negative, because the width plus 1e-6 is positive. Eye opening and mouth height are non-negative. MAR times (width + 1e-6) equals the mouth height. The smile is the lip-centre y minus the mean corner y, in normalised units. |
| FaceDetection.Classify | src/face_detector.py:151-166 | The result is always one of the four labels. It is surprised iff the surprised rule holds. It is happy iff surprised fails and the happy rule holds. It is sad iff both fail and the sad rule holds. Otherwise it is neutral. |
| FaceDetection.FirstMatchIsFirst | src/face_detector.py:151-166 | First-match-wins over any rule list returns a firing rule with no firing rule before it. It returns neutral exactly when no rule fires. |
| FaceDetection.ClassifyIsFirstMatch | src/face_detector.py:151-166 | The if/elif chain equals first-match-wins over the priority list [surprised, happy, sad]. |
| FaceDetection.SurprisedOverridesSmile | src/face_detector.py:153-158 | When both the surprised and the happy rule hold, the label is surprised. |
| FaceDetection.HappySadExclusive | src/face_detector.py:157-162 | The happy and the sad rule never hold together. |
| FaceDetection.SmileIgnoresFrameSize | src/face_detector.py:121-125 | The smile metric is the same for every frame height and width. |
| FaceDetection.HeightsScaleWithFrame | src/face_detector.py:127-135 | Eye and eyebrow heights scale linearly with the frame height. |
| FaceDetection.DetectedLabel | src/face_detector.py:38-66 | A frame's label is always one of the four. It is neutral when no face was found. |
| FaceDetection.ExpressionTips | src/face_detector.py:172-180 | Each of the four labels gets its own tip. Any other key gets the fixed fallback prompt. |
| FaceDetection.FaceDetector.constructor | src/face_detector.py:12-28 | A new detector has no stored metrics and keeps the debug flag, off by default. |
| FaceDetection.FaceDetector.AnalyzeLandmarks | src/face_detector.py:68-166 | Stores the metrics of these landmarks. Returns the classification of those metrics, whatever was stored before. |
| FaceDetection.FaceDetector.DetectExpression | src/face_detector.py:38-66 | With no face, returns neutral and leaves the stored metrics alone. Otherwise it analyses the first face. |
| Game.SettingsFor | src/game_logic.py:23-61 | A table name selects its row. Any other name selects medium. Every profile has a positive duration and cooldown and a non-empty list of valid labels. |
| Game.UnknownDifficultyIsMedium | src/game_logic.py:55-61 | An unknown name gives duration 20, all four expressions and cooldown 1.0. |
| Game.MaxScoreFor | src/game_logic.py:70 | The estimate is the largest n with 3n ≤ duration. |
| Game.MaxScoreTable | src/game_logic.py:23-70 | The estimates are 10 for easy, 6 for medium and 5 for hard. |
| Game.Remaining | src/game_logic.py:94-101 | Before a start it is the full duration. It is never negative. It is 0 iff the elapsed time is at least the duration. It is at most the duration once the clock has passed the start. While positive it equals duration minus elapsed. |
| Game.RemainingAsWritten | src/game_logic.py:94-101 | With the truthiness test as written, a 0.0 start time reads as not started and gives the full duration. Otherwise it agrees with `Remaining`. |
| Game.RemainingNonIncreasing | src/game_logic.py:94-101 | Remaining time never grows as the clock advances. |
| Game.GameOver | src/game_logic.py:103-105 | `is_game_over` over plain values. With a positive duration it holds iff a game was started and the elapsed time is at least the duration. Before a start it holds iff the duration is not positive. |
| Game.ClockZeroGameNeverEndsAsWritten | src/game_logic.py:77-97 | As written, a game started when the clock reads 0.0 keeps its full duration forever, so it never ends, and no update scores in it. |
| Game.ClockZeroGameEnds | src/game_logic.py:94-105 | With the corrected test, a game started at 0.0 is over once the duration has elapsed. |
| Game.UpdateScoresAtMostOne | src/game_logic.py:83-92 | An update adds at most one point. It adds one exactly when the detection matches the target and the cooldown has passed. |
| Game.NoRescoreWithinCooldown | src/game_logic.py:83-92 | After a scoring update at t1, an update at t2 with t2 - t1 < cooldown changes nothing. |
| Game.ChallengeText | src/game_logic.py:107-111 | With no target, or an empty target, the text is "". For a valid label it is that label's display name, which is not empty and not "UNKNOWN". Any other non-empty target gives "UNKNOWN". |
| Game.LiveDifficultyChangeStrandsTarget | src/game_logic.py:55-61 | On a valid engine aiming at surprised, `set_difficulty("easy")` keeps the target and the timers, and the target is then outside easy's expressions, so the engine invariant fails. |
| Game.FreshStartNotOver | src/game_logic.py:63-105 | Right after a start with a positive duration, the game is not over. No point can be scored within one cooldown of the start. |
| Game.GameLogic.constructor | src/game_logic.py:11-45 | The engine starts idle. Its settings are those of the difficulty name, medium by default. The duration argument, 20 by default, is overwritten. |
| Game.GameLogic.SetDifficulty | src/game_logic.py:55-61 | Stores the name, even an unknown one. Loads that name's duration, expressions and cooldown, or medium's. Scores, target and timers are untouched. The engine invariant then holds iff the kept target is among the new expressions, so always before a game is started. |
| Game.GameLogic.StartGame | src/game_logic.py:63-70 | Score 0, start time and last-score time equal to now, a target from the eligible list, estimate floor(duration / 3). Settings are unchanged. |
| Game.GameLogic.Update | src/game_logic.py:72-92 | Returns true iff a game is running, the detection equals the target and now - last score ≥ cooldown. Then it adds one point, sets last score to now and picks a new eligible target. Otherwise it returns false and changes nothing. |
| Game.GameLogic.GetRemainingTime | src/game_logic.py:94-101 | The remaining time of the current fields. It is never negative. |
| Game.GameLogic.IsGameOver | src/game_logic.py:103-105 | True iff started and now - start ≥ duration. It is false before any start. |
| Game.GameLogic.GetCurrentChallenge | src/game_logic.py:107-111 | The challenge text of the current target. |
| Game.GameLogic.Reset | src/game_logic.py:113-119 | Score and estimate become 0. Target, start and last-score times become None. Settings are kept. The challenge text becomes "". |
| Game.EasyScenario | src/game_logic.py:63-105 | Easy game started at clock 100.0. The first target is happy or sad. A match at 100.2 does not score (inside the 1.5 s cooldown). A match at 101.6 scores iff happy was the target. A repeat at 102.0 never scores. The game is over at 130.0, exactly 30 s after the start. |
| Leaderboard.CreateDefaultLeaderboard | src/leaderboard_manager.py:28-34 | The keys are exactly easy, medium and hard, each with an empty list. |
| Leaderboard.InsertPos | src/leaderboard_manager.py:53-56 | A stably sorted new last entry lands after the longest leading run of entries scoring at least as much. |
| Leaderboard.InsertLastKeepsSortSpec | src/leaderboard_manager.py:56 | Inserting the last entry into a sorted, stable permutation of the others gives a sorted, stable permutation of the whole list. |
| Leaderboard.StableSortDesc | src/leaderboard_manager.py:56 | `sort(key=score, reverse=True)`: the result is sorted best first and a permutation of its input. For every score, the entries with that score keep their input order. |
| Leaderboard.SortedIsFixpoint | src/leaderboard_manager.py:56 | Sorting an already sorted list leaves it unchanged. |
| Leaderboard.AppendThenSortIsInsert | src/leaderboard_manager.py:53-56 | For a sorted list, append then sort equals one insertion at the insertion point. |
| Leaderboard.AddEntry | src/leaderboard_manager.py:53-59 | The updated list has min(10, old length + 1) entries and is sorted best first. |
| Leaderboard.AddEntryKeepsOrder | src/leaderboard_manager.py:53-59 | Every kept entry is an old entry or the new one. For each score, the kept entries with it are a prefix of the input's entries with it. |
| Leaderboard.NewEntryAfterEqualScores | src/leaderboard_manager.py:53-56 | After sorting, the new entry follows every existing entry with the same score. |
| Leaderboard.HighScoreIffKept | src/leaderboard_manager.py:53-78 | On a sorted list of at most ten entries, `is_high_score` holds iff adding the score keeps the new entry. The kept entry then sits at its insertion point. |
| Leaderboard.FindRank | src/leaderboard_manager.py:65-67 | Returns None when no entry has this score and name. Otherwise returns r with entry r-1 matching and no earlier entry matching. |
| Leaderboard.RankOfKeptEntry | src/leaderboard_manager.py:53-67 | When `is_high_score` held, a rank is reported. It is between 1 and the new entry's position + 1, which is at most 10. |
| Leaderboard.SlicePrefix | src/leaderboard_manager.py:71 | Python's `[:limit]` returns a prefix. Its length is min(limit, n) for limit ≥ 0. A negative limit drops that many entries from the end. |
| Leaderboard.LeaderboardManager.constructor | src/leaderboard_manager.py:7-26 | With no stored file, the table is the default table. It satisfies the invariant: sorted and at most ten entries per list. |
| Leaderboard.LeaderboardManager.AddScore | src/leaderboard_manager.py:44-67 | An unknown difficulty gives KeyError and leaves the table unchanged. Otherwise only that difficulty's list changes, to the append-sort-truncate of the old list, and the result is its rank. The player name defaults to "Player". The invariant is preserved. |
| Leaderboard.LeaderboardManager.GetTopScores | src/leaderboard_manager.py:69-71 | A prefix of the difficulty's list, at most `limit` long (10 by default), and empty for an unknown difficulty. |
| Leaderboard.LeaderboardManager.IsHighScore | src/leaderboard_manager.py:73-78 | True with fewer than ten entries, including an unknown difficulty. Otherwise true iff the score beats the last entry. |
| ResultsScreen.Percentage | src/ui/results_screen.py:53 | It is 0 without a positive estimate, else score·100/estimate. It is non-negative for non-negative scores. It is at most 100 when score ≤ estimate and at least 100 when score ≥ estimate. |
| ResultsScreen.DisplayPercentage | src/ui/results_screen.py:54 | The percentage clamped to at most 100. |
| ResultsScreen.GetRankInfo | src/ui/results_screen.py:83-120 | S for ≥ 80, A for [60, 80), B for [40, 60), C below 40. The stars are 5, 4, 3 and 1. |
| ResultsScreen.TiersPartition | src/ui/results_screen.py:83-120 | Every percentage gets one of the four tiers and one of the four star counts. |
| ResultsScreen.StarsMonotone | src/ui/results_screen.py:83-120 | A higher percentage never earns fewer stars. |
| ResultsScreen.ShowConfetti | src/ui/results_screen.py:80-81 | Confetti is shown iff the tier is S or A. |
| ResultsScreen.Trunc | src/ui/results_screen.py:285 | Python's `int()` truncates toward zero. |
| ResultsScreen.FillWidth | src/ui/results_screen.py:285-286 | At most 500 pixels, never negative for a non-negative percentage, and equal to floor(5 × percentage) within [0, 100]. |
| ResultsScreen.Grade | src/ui/results_screen.py:53-57 | What `draw` derives from the score: the percentage times the estimate is 100 × score when there is an estimate, else 0. The shown percentage is at most 100 and the bar at most 500. Confetti shows iff the tier is S or A. Tier S has a bar of at least 400 pixels, tier C less than 200. |
| ResultsScreen.GradeBounded | src/ui/results_screen.py:53-54 | For a non-negative score, the shown percentage is within [0, 100]. The bar width of lines 285-286 is then within [0, 500]. |
| ResultsScreen.ScoreAtOrAboveEstimate | src/ui/results_screen.py:53-81 | Meeting or beating the estimate grades S with 5 stars and confetti. The shown percentage is 100 and the bar is full. |
| ResultsScreen.NoEstimateIsC | src/ui/results_screen.py:53 | A zero estimate grades C with one star, an empty bar and no confetti. |
| App.Expressify.constructor | src/main.py:8-29 | The loop is running on the menu. A medium engine is idle. |
| App.PlayingIgnoresEvents | src/main.py:86-96 | No sequence of key presses leaves the playing screen. |
| App.EventsNeverShowResults | src/main.py:86-96 | Key presses never lead to the results screen from another screen. |
| App.NoSpaceKeepsScreen | src/main.py:36-41 | Events without a SPACE press leave the screen where it was. |
| App.PlayingTick | src/main.py:31-84 | A loop pass that begins on the playing screen leaves the engine alone during its events, and ends on playing or results. It ends on results iff a frame was read and the game is then over. |
| App.TickReachesResultsOnlyByGameOver | src/main.py:31-84 | A pass that begins off the results screen and ends on it went through the playing screen, read a frame and found the game over. |
| App.Expressify.HandleKeypress | src/main.py:86-96 | The screen moves as one SPACE step says. SPACE in the menu starts a game and shows playing. SPACE on the results resets the engine and shows the menu. SPACE while playing and other keys change nothing. ESC clears `running` and leaves screen and engine alone. |
| App.Expressify.PlayGame | src/main.py:58-84 | A failed read changes nothing. Otherwise it makes one engine update with the frame's label. It moves to results iff the game is then over. |
| App.Expressify.HandleEvents | src/main.py:36-41 | `running` is cleared iff a QUIT or ESC event occurs. The screen is the fold of the events' SPACE presses. The engine changes only with the screen: a game started at this tick's time on entering playing, an idle engine on entering the menu. While playing, nothing changes. |
| App.ExtendTrace | src/main.py:35-55 | A valid trace followed by one more loop pass that starts where it ended is still a valid trace. |
| App.Expressify.RunTick | src/main.py:36-55 | One loop pass: the event loop as above, then `play_game` exactly when the playing screen is up. |
| App.Expressify.Run | src/main.py:31-55 | Ticks run while `running` is set. The loop stops early only after a tick with QUIT or ESC, and no earlier tick had one. The returned trace chains the passes from the old state to the new one, each pass as `RunTick` states. The menu is showing iff no game is running. |

## Left out

- Camera capture, the mirror flip, colour conversion, landmark drawing and the face-mesh model are external libraries. A frame reaches the model as the list of faces found and the pixel size.
- All pygame rendering, fonts, animations, the debug `print`, sound and icon creation are presentation only.
- The leaderboard's JSON load and save are file I/O. The manager starts from the default table, as when no file exists. The entry's date is passed in instead of read from `datetime`.
- IEEE float rounding is not modelled. Metrics, times and percentages are exact `real`s.
- Game.GameLogic.StartGame: only says the target is in the eligible list. The uniform distribution of `random.choice` is not modelled.
- Game.GameLogic.Update: only says the new target is in the eligible list. A repeat of the old target is allowed, as in the code. The distribution is not modelled.
- Game.GameLogic.Update: uses the corrected `start_time is None` test from the finding below. The code's `not self.start_time` is modelled separately (`Game.StartedAsWritten`).
- Game.GameLogic.GetRemainingTime: uses the same corrected test, so a game started at clock 0.0 counts down. `Game.RemainingAsWritten` keeps the code's test.
- Game.GameLogic.IsGameOver: inherits the corrected test through `GetRemainingTime`.
- App.Expressify.PlayGame: relies on the corrected test through `Update` and `IsGameOver`, as does the menu condition in `App.Expressify.Valid`.
- App.Expressify.Run: runs over a finite sequence of ticks instead of forever. The 30 Hz frame pacing is not modelled. All calls in one tick share one clock reading, where the code reads `time.time()` at each call.
- FaceDetection.ComputeMetrics: requires at least 387 landmarks, the highest index read plus one. The face mesh always supplies 478, and an `IndexError` on a shorter list is not modelled.
- `FaceDetector.get_last_metrics`, the unused `expressions` dictionary of `FaceDetector`, and `Expressify.cleanup` have no behaviour to prove.
- The display names of `GameLogic.expression_names` are kept as the file's text has them, with a mis-decoded emoji prefix.

## Findings

| source | as written | input that shows it | evidently intended | confidence | as-written member | corrected member |
|---|---|---|---|---|---|---|
| src/game_logic.py:77-78 | `if not self.start_time` treats a start time of 0.0 as "not started", in `update` and in `get_remaining_time` (line 96) | a clock that reads 0.0 when `start_game` runs: `update` never scores and the remaining time stays at the full duration, so the game never ends | test `self.start_time is None` | low; not executed. `time.time()` never returns 0.0, but a monotonic clock starting at zero does | Game.ClockZeroGameNeverEndsAsWritten | Game.ClockZeroGameEnds |
