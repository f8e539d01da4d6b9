/**
 * The challenge and scoring engine `GameLogic` (src/game_logic.py).
 *
 * The wall clock becomes a `now: real` argument and `random.choice` a
 * nondeterministic pick from the eligible expressions. The pure functions
 * and relations of the first half specify what the class's methods do.
 */
module Game {
  import opened Wrappers
  import opened FaceDetection

  /** One row of the difficulty table. */
  datatype DifficultyProfile = DifficultyProfile(duration: int, expressions: seq<string>, cooldown: real, name: string)

  const AllExpressions: seq<string> := [HappyLabel, SadLabel, SurprisedLabel, NeutralLabel]

  const DifficultySettings: map<string, DifficultyProfile> := map[
    "easy" := DifficultyProfile(30, [HappyLabel, SadLabel], 1.5, "MUDAH"),
    "medium" := DifficultyProfile(20, AllExpressions, 1.0, "SEDANG"),
    "hard" := DifficultyProfile(15, AllExpressions, 0.5, "SULIT")
  ]

  /** Nominal seconds per challenge, used only to estimate the best score. */
  const ExpressionDuration: int := 3

  /** The profile a difficulty name selects; names outside the table select medium. */
  function SettingsFor(difficulty: string): (p: DifficultyProfile)
    ensures p.duration > 0 && p.cooldown > 0.0 && |p.expressions| > 0
    ensures forall e | e in p.expressions :: IsExpressionLabel(e)
    ensures difficulty in DifficultySettings ==> p == DifficultySettings[difficulty]
    ensures difficulty !in DifficultySettings ==> p == DifficultySettings["medium"]
  {
    if difficulty in DifficultySettings then DifficultySettings[difficulty] else DifficultySettings["medium"]
  }

  /** An unknown difficulty plays exactly like medium. */
  lemma UnknownDifficultyIsMedium(difficulty: string)
    requires difficulty != "easy" && difficulty != "medium" && difficulty != "hard"
    ensures SettingsFor(difficulty).duration == 20
    ensures SettingsFor(difficulty).expressions == [HappyLabel, SadLabel, SurprisedLabel, NeutralLabel]
    ensures SettingsFor(difficulty).cooldown == 1.0
  {
  }

  /** `int(duration / 3)`: the largest whole number of nominal challenges that fit. */
  function MaxScoreFor(duration: int): (n: int)
    requires duration >= 0
    ensures n >= 0 && n * ExpressionDuration <= duration < (n + 1) * ExpressionDuration
  {
    duration / ExpressionDuration
  }

  /** The estimates per difficulty: 10 for easy, 6 for medium, 5 for hard. */
  lemma MaxScoreTable()
    ensures MaxScoreFor(SettingsFor("easy").duration) == 10
    ensures MaxScoreFor(SettingsFor("medium").duration) == 6
    ensures MaxScoreFor(SettingsFor("hard").duration) == 5
  {
  }

  /** The engine's mutable fields other than the difficulty settings. */
  datatype EngineState = EngineState(score: int, maxScore: int, currentExpression: Option<string>,
                                     startTime: Option<real>, lastExpressionTime: Option<real>)

  /** Scores are never negative; a start time, a last-score time and a target exist together. */
  predicate WellFormed(st: EngineState) {
    && st.score >= 0 && st.maxScore >= 0
    && (st.startTime.Some? <==> st.lastExpressionTime.Some?)
    && (st.startTime.Some? <==> st.currentExpression.Some?)
  }

  /** The state after construction or `reset`. */
  const IdleState: EngineState := EngineState(0, 0, None, None, None)

  /** A game is running once a start time has been recorded. */
  predicate Started(startTime: Option<real>) {
    startTime.Some?
  }

  /** Python's `if not self.start_time`: a start time of 0.0 is falsy and reads as "not started". */
  predicate StartedAsWritten(startTime: Option<real>) {
    startTime.Some? && startTime.value != 0.0
  }

  /** Time left: the full duration before a start, then counting down and clamped at zero. */
  function Remaining(duration: int, startTime: Option<real>, now: real): (r: real)
    ensures !Started(startTime) ==> r == duration as real
    ensures duration >= 0 ==> r >= 0.0
    ensures Started(startTime) ==> (r == 0.0 <==> now - startTime.value >= duration as real)
    ensures Started(startTime) && duration >= 0 && now >= startTime.value ==> r <= duration as real
    ensures Started(startTime) && r > 0.0 ==> r + (now - startTime.value) == duration as real
  {
    if !Started(startTime) then duration as real
    else
      var elapsed := now - startTime.value;
      if duration as real - elapsed > 0.0 then duration as real - elapsed else 0.0
  }

  /** `get_remaining_time` as written, with the truthiness test on the start time. */
  function RemainingAsWritten(duration: int, startTime: Option<real>, now: real): (r: real)
    ensures StartedAsWritten(startTime) ==> r == Remaining(duration, startTime, now)
    ensures !StartedAsWritten(startTime) ==> r == duration as real
  {
    if !StartedAsWritten(startTime) then duration as real else Remaining(duration, startTime, now)
  }

  /** Remaining time never goes up as the clock advances. */
  lemma RemainingNonIncreasing(duration: int, startTime: Option<real>, t1: real, t2: real)
    requires t1 <= t2
    ensures Remaining(duration, startTime, t2) <= Remaining(duration, startTime, t1)
  {
  }

  /**
   * `is_game_over` over plain values: no time left. With a positive duration
   * this is exactly "started, and the full duration has elapsed since".
   */
  predicate GameOver(duration: int, startTime: Option<real>, now: real)
    ensures duration > 0 ==>
              (GameOver(duration, startTime, now) <==> Started(startTime) && now - startTime.value >= duration as real)
    ensures !Started(startTime) ==> (GameOver(duration, startTime, now) <==> duration <= 0)
  {
    Remaining(duration, startTime, now) <= 0.0
  }

  /**
   * With the code as written, a game started when the clock reads 0.0 never
   * ends, since its remaining time stays at the full duration, and no update
   * ever scores in it.
   */
  lemma ClockZeroGameNeverEndsAsWritten(st: EngineState, cooldown: real, detected: string, duration: int, now: real)
    requires duration > 0 && st.startTime == Some(0.0)
    ensures RemainingAsWritten(duration, st.startTime, now) == duration as real
    ensures RemainingAsWritten(duration, st.startTime, now) > 0.0
    ensures !CanScoreAsWritten(st, cooldown, detected, now)
  {
  }

  /** With the corrected test, a game started at 0.0 is over once the duration has elapsed. */
  lemma ClockZeroGameEnds(duration: int, now: real)
    requires duration > 0 && now >= duration as real
    ensures GameOver(duration, Some(0.0), now)
  {
  }

  /** `update` scores when running, the detection matches the target and the cooldown has passed. */
  predicate CanScore(st: EngineState, cooldown: real, detected: string, now: real) {
    && Started(st.startTime)
    && st.currentExpression == Some(detected)
    && st.lastExpressionTime.Some?
    && now - st.lastExpressionTime.value >= cooldown
  }

  /** The scoring test of `update` as written, with the truthiness test on the start time. */
  predicate CanScoreAsWritten(st: EngineState, cooldown: real, detected: string, now: real) {
    && StartedAsWritten(st.startTime)
    && st.currentExpression == Some(detected)
    && st.lastExpressionTime.Some?
    && now - st.lastExpressionTime.value >= cooldown
  }

  /** The effect of `start_game` at time `now` under profile `p`. */
  ghost predicate IsStart(after: EngineState, p: DifficultyProfile, now: real) {
    && after.score == 0
    && after.startTime == Some(now)
    && after.lastExpressionTime == Some(now)
    && after.currentExpression.Some? && after.currentExpression.value in p.expressions
    && p.duration >= 0 && after.maxScore == MaxScoreFor(p.duration)
  }

  /** The effect of `update(detected)` at time `now`: one point and a fresh target, or nothing at all. */
  ghost predicate IsUpdate(before: EngineState, after: EngineState, p: DifficultyProfile, detected: string, now: real) {
    if CanScore(before, p.cooldown, detected, now) then
      && after.score == before.score + 1
      && after.lastExpressionTime == Some(now)
      && after.currentExpression.Some? && after.currentExpression.value in p.expressions
      && after.startTime == before.startTime
      && after.maxScore == before.maxScore
    else
      after == before
  }

  /** A point is only ever added one at a time. */
  lemma UpdateScoresAtMostOne(before: EngineState, after: EngineState, p: DifficultyProfile, detected: string, now: real)
    requires IsUpdate(before, after, p, detected, now)
    ensures after.score == before.score || after.score == before.score + 1
    ensures after.score == before.score + 1 <==> CanScore(before, p.cooldown, detected, now)
  {
  }

  /** After a point, a second update strictly inside the cooldown window never scores. */
  lemma NoRescoreWithinCooldown(s0: EngineState, s1: EngineState, s2: EngineState, p: DifficultyProfile,
                                d1: string, t1: real, d2: string, t2: real)
    requires IsUpdate(s0, s1, p, d1, t1) && CanScore(s0, p.cooldown, d1, t1)
    requires t2 - t1 < p.cooldown
    requires IsUpdate(s1, s2, p, d2, t2)
    ensures s2 == s1
  {
  }

  /** Names shown for each target, kept as the source text has them (a mis-decoded emoji prefix). */
  const ExpressionNames: map<string, string> := map[
    HappyLabel := "\U{F0}\U{178}\U{2DC}\U{160} SENYUM LEBAR!",
    SadLabel := "\U{F0}\U{178}\U{2DC}\U{A2} CEMBERUT SEDIH!",
    SurprisedLabel := "\U{F0}\U{178}\U{2DC}\U{B2} KAGET MAKSIMAL!",
    NeutralLabel := "\U{F0}\U{178}\U{2DC} WAJAH DATAR!"
  ]

  /** The challenge text: empty with no target, the target's name, or "UNKNOWN". */
  function ChallengeText(currentExpression: Option<string>): (text: string)
    ensures currentExpression.None? ==> text == ""
    ensures currentExpression == Some("") ==> text == ""
    ensures currentExpression.Some? && IsExpressionLabel(currentExpression.value) ==>
              text == ExpressionNames[currentExpression.value] && text != "" && text != "UNKNOWN"
    ensures currentExpression.Some? && currentExpression.value != "" && !IsExpressionLabel(currentExpression.value) ==>
              text == "UNKNOWN"
  {
    if currentExpression.Some? && currentExpression.value != "" then
      if currentExpression.value in ExpressionNames then ExpressionNames[currentExpression.value] else "UNKNOWN"
    else ""
  }

  class GameLogic {
    var difficulty: string
    var gameDuration: int
    var expressions: seq<string>
    var cooldown: real
    var score: int
    var maxScore: int
    var currentExpression: Option<string>
    var startTime: Option<real>
    var lastExpressionTime: Option<real>

    /**
     * The settings fields follow the difficulty name; start, last score and
     * target are set together; a target is always one of the eligible expressions.
     */
    ghost predicate Valid()
      reads this
    {
      && Profile() == SettingsFor(difficulty).(name := "")
      && WellFormed(State())
      && TargetEligible()
    }

    predicate TargetEligible()
      reads this
    {
      currentExpression.Some? ==> currentExpression.value in expressions
    }

    /** The settings currently in force (the display name is not stored). */
    function Profile(): DifficultyProfile
      reads this
    {
      DifficultyProfile(gameDuration, expressions, cooldown, "")
    }

    function State(): EngineState
      reads this
    {
      EngineState(score, maxScore, currentExpression, startTime, lastExpressionTime)
    }

    /** The `game_duration` argument is overwritten by the difficulty's duration. */
    constructor (gameDuration: int := 20, difficulty: string := "medium")
      ensures Valid()
      ensures this.difficulty == difficulty && Profile() == SettingsFor(difficulty).(name := "")
      ensures State() == IdleState
    {
      this.difficulty := difficulty;
      this.gameDuration := gameDuration;
      score := 0;
      maxScore := 0;
      currentExpression := None;
      startTime := None;
      lastExpressionTime := None;
      new;
      SetDifficulty(difficulty);
    }

    /** Stores the name and loads its settings, medium's for an unknown name. */
    method SetDifficulty(difficulty: string)
      modifies this
      ensures this.difficulty == difficulty
      ensures gameDuration == SettingsFor(difficulty).duration
      ensures expressions == SettingsFor(difficulty).expressions
      ensures cooldown == SettingsFor(difficulty).cooldown
      ensures State() == old(State())
      ensures WellFormed(State()) ==> (Valid() <==> TargetEligible())
      ensures WellFormed(State()) && !Started(startTime) ==> Valid()
    {
      this.difficulty := difficulty;
      var settings := SettingsFor(difficulty);
      gameDuration := settings.duration;
      expressions := settings.expressions;
      cooldown := settings.cooldown;
    }

    /** Starts the clock, zeroes the score and draws the first target. */
    method StartGame(now: real)
      requires Valid()
      modifies this
      ensures Valid()
      ensures difficulty == old(difficulty) && Profile() == old(Profile())
      ensures IsStart(State(), Profile(), now)
    {
      score := 0;
      startTime := Some(now);
      lastExpressionTime := Some(now);
      assert expressions[0] in expressions;
      var target :| target in expressions;
      currentExpression := Some(target);
      maxScore := gameDuration / ExpressionDuration;
    }

    /** Compares the detected label with the target; reports whether a point was scored. */
    method Update(detected: string, now: real) returns (scored: bool)
      requires Valid()
      modifies this
      ensures Valid()
      ensures difficulty == old(difficulty) && Profile() == old(Profile())
      ensures scored == CanScore(old(State()), cooldown, detected, now)
      ensures IsUpdate(old(State()), State(), Profile(), detected, now)
    {
      if !Started(startTime) {
        return false;
      }
      if Some(detected) == currentExpression {
        if now - lastExpressionTime.value >= cooldown {
          score := score + 1;
          lastExpressionTime := Some(now);
          assert expressions[0] in expressions;
          var target :| target in expressions;
          currentExpression := Some(target);
          return true;
        }
      }
      return false;
    }

    function GetRemainingTime(now: real): (r: real)
      reads this
      requires Valid()
      ensures r >= 0.0
      ensures r == Remaining(gameDuration, startTime, now)
    {
      Remaining(gameDuration, startTime, now)
    }

    predicate IsGameOver(now: real)
      reads this
      requires Valid()
      ensures IsGameOver(now) <==> Started(startTime) && now - startTime.value >= gameDuration as real
    {
      GetRemainingTime(now) <= 0.0
    }

    function GetCurrentChallenge(): (text: string)
      reads this
      ensures text == ChallengeText(currentExpression)
    {
      ChallengeText(currentExpression)
    }

    /** Back to idle; the difficulty settings are kept. */
    method Reset()
      requires Valid()
      modifies this
      ensures Valid()
      ensures difficulty == old(difficulty) && Profile() == old(Profile())
      ensures State() == IdleState
      ensures GetCurrentChallenge() == ""
    {
      score := 0;
      maxScore := 0;
      currentExpression := None;
      startTime := None;
      lastExpressionTime := None;
    }
  }

  /** Just after a start the game is not over, and no point can be scored before one cooldown. */
  lemma FreshStartNotOver(st: EngineState, p: DifficultyProfile, now: real, detected: string, later: real)
    requires IsStart(st, p, now) && p.duration > 0 && p.cooldown > 0.0
    requires later - now < p.cooldown
    ensures !GameOver(p.duration, st.startTime, now)
    ensures !CanScore(st, p.cooldown, detected, later)
  {
  }

  /**
   * `set_difficulty` on a running engine keeps the old target even when the
   * new difficulty does not offer it: a game aimed at "surprised" switched to
   * easy is left with a target outside easy's expressions.
   */
  method LiveDifficultyChangeStrandsTarget(game: GameLogic)
    requires game.Valid() && game.currentExpression == Some(SurprisedLabel)
    modifies game
    ensures game.difficulty == "easy" && game.State() == old(game.State())
    ensures !game.TargetEligible() && !game.Valid()
  {
    game.SetDifficulty("easy");
  }

  /**
   * The easy-difficulty walk-through: start at 100.0; a matching detection at
   * 100.2 is still inside the 1.5 s cooldown, one at 101.6 scores exactly when
   * it is the target, a repeat at 102.0 never scores, and at 130.0 the game is over.
   * The clock is non-zero, so this holds for the truthiness test as written too.
   */
  method EasyScenario() returns (target: string, scoredEarly: bool, scoredAfterCooldown: bool, scoredAgain: bool, overAtEnd: bool)
    ensures target == HappyLabel || target == SadLabel
    ensures !scoredEarly
    ensures scoredAfterCooldown <==> target == HappyLabel
    ensures !scoredAgain
    ensures overAtEnd
  {
    var game := new GameLogic(20, "easy");
    game.StartGame(100.0);
    target := game.currentExpression.value;
    scoredEarly := game.Update(HappyLabel, 100.2);
    scoredAfterCooldown := game.Update(HappyLabel, 101.6);
    scoredAgain := game.Update(HappyLabel, 102.0);
    overAtEnd := game.IsGameOver(130.0);
  }
}
