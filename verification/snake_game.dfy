/** The challenge-cycle engine of the snake game: a sliding window of two
    challenge sets ("current" and "next"), a cycle counter, a per-cycle
    completion flag and a coarse lifecycle state. No engine operation awaits
    anything between reading and writing this state, and asyncio runs one
    task at a time, so each is modelled here as one atomic transition on an
    immutable `Game` record. */
module SnakeGame {
  import opened Results
  import BoundedDeque

  /** Game settings, with the program's defaults. */
  datatype Settings = Settings(cycleLength: int, warningTime: int, numChallenges: int)

  const DefaultSettings := Settings(120, 5, 3)

  /** One challenge; the engine treats it as opaque. */
  datatype Challenge = Challenge(title: string, description: string)

  type ChallengeSet = seq<Challenge>

  /** The coarse lifecycle state. `Paused` is declared but never entered. */
  datatype GameState = Initial | Playing | Paused | Ended

  /** The window holds at most this many challenge sets. */
  const WindowSize: nat := 2

  /** Why an engine call fails. The first five are the engine's own
      `GameError`s; `IndexOutOfRange` is the interpreter's indexing error and
      `NoLoopTask` its failed `assert`. */
  datatype EngineError =
    | NotInitial          // start_game outside INITIAL
    | NotActive           // end_game's guard refused
    | ExpiredSet          // completion against a set id that is not current
    | AlreadyCompleted    // the current set has already been won
    | InvalidChallengeId  // challenge index outside [0, num_challenges)
    | IndexOutOfRange     // current set shorter than num_challenges
    | NoLoopTask          // end_game before any timer loop was spawned

  /** The engine's state.
      `window` is the challenge deque (index 0 current, index 1 next);
      `setId` the cycle counter; `setComplete` the per-cycle flag;
      `loopTasks` the timer loops spawned so far, in spawn order, each `true`
      while it has not been cancelled; the last one is the task the engine
      keeps a handle to. */
  datatype Game = Game(
    settings: Settings,
    state: GameState,
    window: seq<ChallengeSet>,
    setId: nat,
    setComplete: bool,
    loopTasks: seq<bool>)

  /** The window has its steady-state shape: exactly two sets. */
  predicate Wf(g: Game) {
    |g.window| == WindowSize
  }

  /** Every set in the window has the configured number of challenges.
      This is what the challenge generator is assumed to deliver. */
  predicate Sized(g: Game) {
    forall i :: 0 <= i < |g.window| ==> |g.window[i]| == g.settings.numChallenges
  }

  /** The number of timer loops that have been spawned and not cancelled. */
  function LiveLoops(tasks: seq<bool>): (n: nat)
    ensures n <= |tasks|
  {
    if tasks == [] then 0
    else LiveLoops(tasks[..|tasks| - 1]) + (if tasks[|tasks| - 1] then 1 else 0)
  }

  /** A new game: two freshly generated sets appended to an empty deque of
      length two, cycle 0, not completed, no timer loop yet. */
  function NewGame(settings: Settings, first: ChallengeSet, second: ChallengeSet): (g: Game)
    ensures Wf(g)
    ensures g.window == [first, second]
    ensures g.setId == 0 && !g.setComplete
    ensures g.state == Initial && g.loopTasks == [] && g.settings == settings
    ensures |first| == settings.numChallenges && |second| == settings.numChallenges ==> Sized(g)
  {
    var once := BoundedDeque.Append([], first, WindowSize);
    BoundedDeque.AppendNotFull([], first, WindowSize);
    assert once == [first];
    var twice := BoundedDeque.Append(once, second, WindowSize);
    BoundedDeque.AppendNotFull(once, second, WindowSize);
    assert twice == [first, second];
    Game(settings, Initial, twice, 0, false, [])
  }

  /** Whether the game counts as running: neither before the start nor
      after the end. */
  function IsActive(g: Game): (b: bool)
    ensures b ==> g.state != Initial && g.state != Ended
    ensures !b ==> g.state == Initial || g.state == Ended
  {
    g.state == Playing || g.state == Paused
  }

  /** The set players are racing on in this cycle. */
  function CurrentChallenges(g: Game): (cs: ChallengeSet)
    requires Wf(g)
    ensures Sized(g) ==> |cs| == g.settings.numChallenges
    ensures cs in g.window
  {
    g.window[0]
  }

  /** The set that becomes current at the next shift. */
  function NextChallenges(g: Game): (cs: ChallengeSet)
    requires Wf(g)
    ensures Sized(g) ==> |cs| == g.settings.numChallenges
    ensures cs in g.window
  {
    g.window[1]
  }

  /** Start the game: allowed only in `Initial`. On success one more timer
      loop is spawned and the current set is returned. The state is NOT moved
      to `Playing`: the program never assigns it. */
  function StartGame(g: Game): (r: Result<(Game, ChallengeSet), EngineError>)
    requires Wf(g)
    ensures r.Ok? <==> g.state == Initial
    ensures r.Err? ==> r.error == NotInitial
    ensures r.Ok? ==> r.value.1 == CurrentChallenges(g)
    ensures r.Ok? ==> var g' := r.value.0;
      && g'.state == g.state
      && g'.loopTasks == g.loopTasks + [true]
      && LiveLoops(g'.loopTasks) == LiveLoops(g.loopTasks) + 1
      && g' == g.(loopTasks := g'.loopTasks)
  {
    if g.state != Initial then Err(NotInitial)
    else
      var tasks := g.loopTasks + [true];
      assert tasks[..|tasks| - 1] == g.loopTasks;
      Ok((g.(loopTasks := tasks), g.window[0]))
  }

  /** End the game. The guard, as written, refuses exactly the `Playing`
      state; in every other state the last spawned timer loop must exist and
      is cancelled, and the state becomes `Ended`. */
  function EndGame(g: Game): (r: Result<Game, EngineError>)
    ensures g.state == Playing ==> r == Err(NotActive)
    ensures g.state != Playing && g.loopTasks == [] ==> r == Err(NoLoopTask)
    ensures r.Ok? <==> g.state != Playing && g.loopTasks != []
    ensures r.Ok? ==> var g' := r.value;
      && g'.state == Ended
      && |g'.loopTasks| == |g.loopTasks|
      && !g'.loopTasks[|g'.loopTasks| - 1]
      && g'.loopTasks[..|g'.loopTasks| - 1] == g.loopTasks[..|g.loopTasks| - 1]
      && g' == g.(state := Ended, loopTasks := g'.loopTasks)
  {
    if g.state == Playing then Err(NotActive)
    else if g.loopTasks == [] then Err(NoLoopTask)
    else
      var last := |g.loopTasks| - 1;
      Ok(g.(state := Ended, loopTasks := g.loopTasks[last := false]))
  }

  /** Whether `challengeId` passes the range check against the settings. */
  predicate InRange(g: Game, challengeId: int) {
    0 <= challengeId < g.settings.numChallenges
  }

  /** Claim a challenge of cycle `setId`. The checks run in this order:
      stale set id, already completed, index out of range. Only a call that
      passes all three sets the flag, and it returns the claimed challenge of
      the current set together with the whole next set. */
  function CompleteChallenge(g: Game, challengeId: int, setId: int)
    : (r: Result<(Game, (Challenge, ChallengeSet)), EngineError>)
    requires Wf(g)
    ensures setId != g.setId ==> r == Err(ExpiredSet)
    ensures setId == g.setId && g.setComplete ==> r == Err(AlreadyCompleted)
    ensures setId == g.setId && !g.setComplete && !InRange(g, challengeId) ==> r == Err(InvalidChallengeId)
    ensures (setId == g.setId && !g.setComplete && InRange(g, challengeId)
             && challengeId >= |CurrentChallenges(g)|) ==> r == Err(IndexOutOfRange)
    ensures Sized(g) ==> r != Err(IndexOutOfRange)
    ensures r.Ok? <==> setId == g.setId && !g.setComplete && InRange(g, challengeId)
                       && challengeId < |CurrentChallenges(g)|
    ensures r.Ok? ==>
      && r.value.0 == g.(setComplete := true)
      && r.value.1.0 == CurrentChallenges(g)[challengeId]
      && r.value.1.1 == NextChallenges(g)
  {
    if g.setId != setId then Err(ExpiredSet)
    else if g.setComplete then Err(AlreadyCompleted)
    else if !(0 <= challengeId < g.settings.numChallenges) then Err(InvalidChallengeId)
    else if challengeId >= |g.window[0]| then Err(IndexOutOfRange)
    else Ok((g.(setComplete := true), (g.window[0][challengeId], g.window[1])))
  }

  /** Rotate the window at the end of a cycle: append a newly generated set
      to the deque, advance the cycle counter and clear the completion flag. */
  function ShiftChallenges(g: Game, newSet: ChallengeSet): (g': Game)
    requires Wf(g)
    ensures Wf(g')
    ensures CurrentChallenges(g') == NextChallenges(g) && NextChallenges(g') == newSet
    ensures g'.setId == g.setId + 1 && !g'.setComplete
    ensures g'.settings == g.settings && g'.state == g.state && g'.loopTasks == g.loopTasks
    ensures Sized(g) && |newSet| == g.settings.numChallenges ==> Sized(g')
  {
    BoundedDeque.AppendFullPair(g.window, newSet);
    g.(window := BoundedDeque.Append(g.window, newSet, WindowSize),
       setId := g.setId + 1,
       setComplete := false)
  }
}
