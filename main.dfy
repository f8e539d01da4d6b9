/**
 * The screen state machine of `Expressify` (src/main.py): menu, playing and
 * results screens driven by the SPACE and ESC keys, the window's QUIT event
 * and the engine's game-over signal.
 *
 * Camera reads, pygame events and the clock arrive as a sequence of ticks;
 * all calls made during one tick share that tick's clock reading. Drawing is
 * left out.
 */
module App {
  import opened Wrappers
  import opened FaceDetection
  import opened Game

  datatype GameState = Menu | Playing | Results

  datatype Key = Space | Escape | OtherKey

  datatype Event = Quit | KeyDown(key: Key) | OtherEvent

  /** A camera frame as the face mesh sees it: the faces found and the pixel size. */
  datatype Frame = Frame(faces: seq<seq<Point>>, height: nat, width: nat)

  /** One pass of the main loop: pending events, the camera read (none when it failed) and the clock. */
  datatype Tick = Tick(events: seq<Event>, frame: Option<Frame>, now: real)

  /** The face mesh supplies every landmark the classifier reads. */
  predicate FrameOk(frame: Option<Frame>) {
    frame.Some? && frame.value.faces != [] ==> |frame.value.faces[0]| >= LandmarkCount
  }

  /** QUIT and ESC are the two ways to stop the loop. */
  predicate StopsGame(ev: Event) {
    ev == Quit || ev == KeyDown(Escape)
  }

  predicate StopRequested(events: seq<Event>) {
    exists i | 0 <= i < |events| :: StopsGame(events[i])
  }

  /** `GAME_DURATION`, passed to the engine and then replaced by the difficulty's duration. */
  const GameDurationSetting: int := 20

  /** The screen after one event: SPACE leads menu to playing and results to menu; nothing else moves it. */
  function ScreenStep(s: GameState, ev: Event): GameState {
    if ev == KeyDown(Space) then
      match s
      case Menu => Playing
      case Results => Menu
      case Playing => Playing
    else s
  }

  /** The screen after a tick's events, handled in order. */
  function ScreenAfter(s: GameState, events: seq<Event>): GameState
    decreases |events|
  {
    if events == [] then s
    else ScreenStep(ScreenAfter(s, events[..|events| - 1]), events[|events| - 1])
  }

  /** No key press leaves the playing screen: only the engine's game-over does. */
  lemma {:induction false} PlayingIgnoresEvents(events: seq<Event>)
    ensures ScreenAfter(Playing, events) == Playing
    decreases |events|
  {
    if events != [] {
      PlayingIgnoresEvents(events[..|events| - 1]);
    }
  }

  /** Key presses never reach the results screen: they can only leave it. */
  lemma {:induction false} EventsNeverShowResults(s: GameState, events: seq<Event>)
    ensures ScreenAfter(s, events) == Results ==> s == Results
    decreases |events|
  {
    if events != [] {
      EventsNeverShowResults(s, events[..|events| - 1]);
    }
  }

  /** Without a SPACE press the screen stays where it was. */
  lemma {:induction false} NoSpaceKeepsScreen(s: GameState, events: seq<Event>)
    requires KeyDown(Space) !in events
    ensures ScreenAfter(s, events) == s
    decreases |events|
  {
    if events != [] {
      assert events[..|events| - 1] + [events[|events| - 1]] == events;
      NoSpaceKeepsScreen(s, events[..|events| - 1]);
    }
  }

  /** What the loop state looks like between two steps: the loop flag, the screen and the engine. */
  datatype Snapshot = Snapshot(running: bool, screen: GameState, engine: EngineState)

  /**
   * The effect of one tick's event loop: QUIT or ESC clear `running`, the
   * screen follows the SPACE presses, and the engine is touched only by the
   * screen changes: entering the playing screen starts a game at `now`,
   * entering the menu resets it.
   */
  ghost predicate EventsEffect(before: Snapshot, after: Snapshot, p: DifficultyProfile, events: seq<Event>, now: real) {
    && after.running == (before.running && !StopRequested(events))
    && after.screen == ScreenAfter(before.screen, events)
    && (after.screen == before.screen ==> after.engine == before.engine)
    && (after.screen == Playing && before.screen != Playing ==> IsStart(after.engine, p, now))
    && (after.screen == Menu && before.screen != Menu ==> after.engine == IdleState)
  }

  /**
   * The effect of `play_game`: a failed camera read changes nothing; otherwise
   * the engine makes one update with the detected expression and the results
   * screen appears exactly when the time is up.
   */
  ghost predicate PlayEffect(before: Snapshot, after: Snapshot, p: DifficultyProfile, frame: Option<Frame>, now: real) {
    if frame.None? then after == before
    else
      && FrameOk(frame)
      && after.running == before.running
      && IsUpdate(before.engine, after.engine, p,
                  DetectedLabel(frame.value.faces, frame.value.height, frame.value.width), now)
      && after.screen == (if GameOver(p.duration, after.engine.startTime, now) then Results else before.screen)
  }

  /** One pass of the main loop, with the state between the event loop and the dispatch on the screen. */
  datatype TickRecord = TickRecord(start: Snapshot, afterEvents: Snapshot, end: Snapshot)

  ghost predicate TickStep(r: TickRecord, p: DifficultyProfile, tick: Tick) {
    && EventsEffect(r.start, r.afterEvents, p, tick.events, tick.now)
    && (if r.afterEvents.screen == Playing then PlayEffect(r.afterEvents, r.end, p, tick.frame, tick.now)
        else r.end == r.afterEvents)
  }

  /** A run's record: one step per tick, each starting where the one before ended. */
  ghost predicate TraceOk(trace: seq<TickRecord>, p: DifficultyProfile, ticks: seq<Tick>) {
    && |trace| <= |ticks|
    && (forall k | 0 <= k < |trace| :: TickStep(trace[k], p, ticks[k]))
    && (forall k | 0 < k < |trace| :: trace[k].start == trace[k - 1].end)
  }

  lemma ExtendTrace(trace: seq<TickRecord>, record: TickRecord, p: DifficultyProfile, ticks: seq<Tick>)
    requires TraceOk(trace, p, ticks) && |trace| < |ticks|
    requires TickStep(record, p, ticks[|trace|])
    requires trace != [] ==> record.start == trace[|trace| - 1].end
    ensures TraceOk(trace + [record], p, ticks)
  {
  }

  /**
   * A tick that begins on the playing screen stays there or shows the
   * results, and shows them exactly when a frame was read and the time is up;
   * its events do not touch the engine.
   */
  lemma PlayingTick(r: TickRecord, p: DifficultyProfile, tick: Tick)
    requires TickStep(r, p, tick) && r.start.screen == Playing
    ensures r.afterEvents.engine == r.start.engine
    ensures r.end.screen == Playing || r.end.screen == Results
    ensures r.end.screen == Results <==> tick.frame.Some? && GameOver(p.duration, r.end.engine.startTime, tick.now)
  {
    PlayingIgnoresEvents(tick.events);
  }

  /** A tick that begins off the results screen ends on it only through the playing screen and a game over. */
  lemma TickReachesResultsOnlyByGameOver(r: TickRecord, p: DifficultyProfile, tick: Tick)
    requires TickStep(r, p, tick) && r.start.screen != Results && r.end.screen == Results
    ensures r.afterEvents.screen == Playing && tick.frame.Some?
    ensures GameOver(p.duration, r.end.engine.startTime, tick.now)
  {
    EventsNeverShowResults(r.start.screen, tick.events);
  }

  class Expressify {
    var running: bool
    var gameState: GameState
    const gameLogic: GameLogic
    const faceDetector: FaceDetector

    /** The menu is shown exactly when no game has been started since the last reset. */
    ghost predicate Valid()
      reads this, gameLogic
    {
      gameLogic.Valid() && (gameState == Menu <==> !Started(gameLogic.startTime))
    }

    function Snap(): Snapshot
      reads this, gameLogic
    {
      Snapshot(running, gameState, gameLogic.State())
    }

    constructor ()
      ensures Valid() && running && gameState == Menu
      ensures fresh(gameLogic) && fresh(faceDetector)
      ensures gameLogic.difficulty == "medium" && gameLogic.State() == IdleState
    {
      faceDetector := new FaceDetector();
      gameLogic := new GameLogic(GameDurationSetting);
      running := true;
      gameState := Menu;
    }

    /** SPACE starts a game from the menu or returns to the menu from the results; ESC stops the loop. */
    method HandleKeypress(key: Key, now: real)
      requires Valid()
      modifies this, gameLogic
      ensures Valid()
      ensures gameLogic.difficulty == old(gameLogic.difficulty) && gameLogic.Profile() == old(gameLogic.Profile())
      ensures gameState == ScreenStep(old(gameState), KeyDown(key))
      ensures key == Space && old(gameState) == Menu ==>
                gameState == Playing && running == old(running) && IsStart(gameLogic.State(), gameLogic.Profile(), now)
      ensures key == Space && old(gameState) == Results ==>
                gameState == Menu && running == old(running) && gameLogic.State() == IdleState
      ensures key == Escape ==>
                !running && gameState == old(gameState) && gameLogic.State() == old(gameLogic.State())
      ensures key == OtherKey || (key == Space && old(gameState) == Playing) ==>
                running == old(running) && gameState == old(gameState) && gameLogic.State() == old(gameLogic.State())
    {
      if key == Space {
        if gameState == Menu {
          gameState := Playing;
          gameLogic.StartGame(now);
        } else if gameState == Results {
          gameState := Menu;
          gameLogic.Reset();
        }
      } else if key == Escape {
        running := false;
      }
    }

    /**
     * One playing tick: classify the frame, update the engine once, and move
     * to the results when the time is up. A failed camera read does nothing.
     */
    method PlayGame(frame: Option<Frame>, now: real)
      requires Valid() && FrameOk(frame)
      modifies this, gameLogic, faceDetector
      ensures Valid()
      ensures running == old(running)
      ensures gameLogic.difficulty == old(gameLogic.difficulty) && gameLogic.Profile() == old(gameLogic.Profile())
      ensures frame.None? ==>
                gameState == old(gameState) && gameLogic.State() == old(gameLogic.State())
                && faceDetector.lastMetrics == old(faceDetector.lastMetrics)
      ensures frame.Some? ==>
                && IsUpdate(old(gameLogic.State()), gameLogic.State(), gameLogic.Profile(),
                            DetectedLabel(frame.value.faces, frame.value.height, frame.value.width), now)
                && gameState == (if gameLogic.IsGameOver(now) then Results else old(gameState))
      ensures PlayEffect(old(Snap()), Snap(), gameLogic.Profile(), frame, now)
    {
      if frame.None? {
        return;
      }
      var f := frame.value;
      var detected := faceDetector.DetectExpression(f.faces, f.height, f.width);
      var _ := gameLogic.Update(detected, now);
      if gameLogic.IsGameOver(now) {
        gameState := Results;
      }
    }

    /**
     * The event loop of one tick: QUIT or ESC clear `running`, key presses are
     * handled in order, so the screen is the fold of the SPACE presses and the
     * engine changes only when the screen does.
     */
    method HandleEvents(events: seq<Event>, now: real)
      requires Valid()
      modifies this, gameLogic
      ensures Valid()
      ensures gameLogic.difficulty == old(gameLogic.difficulty) && gameLogic.Profile() == old(gameLogic.Profile())
      ensures running <==> old(running) && !StopRequested(events)
      ensures gameState == ScreenAfter(old(gameState), events)
      ensures old(gameState) == Playing ==> gameState == Playing && gameLogic.State() == old(gameLogic.State())
      ensures KeyDown(Space) !in events ==> gameState == old(gameState) && gameLogic.State() == old(gameLogic.State())
      ensures EventsEffect(old(Snap()), Snap(), gameLogic.Profile(), events, now)
    {
      for i := 0 to |events|
        invariant Valid()
        invariant gameLogic.difficulty == old(gameLogic.difficulty) && gameLogic.Profile() == old(gameLogic.Profile())
        invariant EventsEffect(old(Snap()), Snap(), gameLogic.Profile(), events[..i], now)
        invariant old(gameState) == Playing ==> gameState == Playing
        invariant gameState == Results ==> old(gameState) == Results
        invariant KeyDown(Space) !in events[..i] ==> gameState == old(gameState)
      {
        assert events[..i + 1] == events[..i] + [events[i]];
        assert events[..i + 1][..i] == events[..i];
        match events[i]
        case Quit =>
          running := false;
        case KeyDown(key) =>
          HandleKeypress(key, now);
        case OtherEvent =>
      }
      assert events[..|events|] == events;
    }

    /** One pass of the loop body: the events, then `play_game` if the playing screen is up. */
    method RunTick(tick: Tick) returns (ghost record: TickRecord)
      requires Valid() && FrameOk(tick.frame)
      modifies this, gameLogic, faceDetector
      ensures Valid()
      ensures gameLogic.difficulty == old(gameLogic.difficulty) && gameLogic.Profile() == old(gameLogic.Profile())
      ensures running <==> old(running) && !StopRequested(tick.events)
      ensures record.start == old(Snap()) && record.end == Snap()
      ensures TickStep(record, gameLogic.Profile(), tick)
    {
      ghost var start := Snap();
      HandleEvents(tick.events, tick.now);
      ghost var afterEvents := Snap();
      if gameState == Playing {
        PlayGame(tick.frame, tick.now);
      }
      record := TickRecord(start, afterEvents, Snap());
    }

    /**
     * `run`: repeat ticks while `running`. Returns how many ticks ran; the
     * loop stops early only because a QUIT or ESC was seen. The ghost `trace`
     * records each tick: its events as `EventsEffect` says, then `play_game`
     * when the playing screen is up, each tick starting where the last ended.
     */
    method Run(ticks: seq<Tick>) returns (iterations: nat, ghost trace: seq<TickRecord>)
      requires Valid()
      requires forall t | t in ticks :: FrameOk(t.frame)
      modifies this, gameLogic, faceDetector
      ensures Valid()
      ensures gameLogic.difficulty == old(gameLogic.difficulty) && gameLogic.Profile() == old(gameLogic.Profile())
      ensures iterations <= |ticks|
      ensures running ==> iterations == |ticks|
      ensures !old(running) ==> iterations == 0
      ensures old(running) && !running ==> exists i | 0 <= i < iterations :: StopRequested(ticks[i].events)
      ensures old(running) ==> forall i | 0 <= i < iterations - 1 :: !StopRequested(ticks[i].events)
      ensures |trace| == iterations
      ensures forall k | 0 <= k < |trace| :: TickStep(trace[k], gameLogic.Profile(), ticks[k])
      ensures forall k | 0 < k < |trace| :: trace[k].start == trace[k - 1].end
      ensures trace == [] ==> Snap() == old(Snap())
      ensures trace != [] ==> trace[0].start == old(Snap()) && trace[|trace| - 1].end == Snap()
    {
      ghost var profile := gameLogic.Profile();
      iterations := 0;
      trace := [];
      while running && iterations < |ticks|
        invariant Valid()
        invariant gameLogic.difficulty == old(gameLogic.difficulty) && gameLogic.Profile() == old(gameLogic.Profile())
        invariant iterations <= |ticks|
        invariant !old(running) ==> iterations == 0 && !running
        invariant old(running) && running ==> forall i | 0 <= i < iterations :: !StopRequested(ticks[i].events)
        invariant old(running) && !running ==>
                    && iterations > 0 && StopRequested(ticks[iterations - 1].events)
                    && forall i | 0 <= i < iterations - 1 :: !StopRequested(ticks[i].events)
        invariant |trace| == iterations
        invariant TraceOk(trace, profile, ticks)
        invariant trace == [] ==> Snap() == old(Snap())
        invariant trace != [] ==> trace[0].start == old(Snap()) && trace[|trace| - 1].end == Snap()
        decreases |ticks| - iterations
      {
        var tick := ticks[iterations];
        assert tick in ticks;
        ghost var record := RunTick(tick);
        ExtendTrace(trace, record, profile, ticks);
        trace := trace + [record];
        iterations := iterations + 1;
      }
      if old(running) && !running {
        assert StopRequested(ticks[iterations - 1].events);
      }
    }
  }
}
