/** Runs of the engine as sequences of atomic steps. Start and end take the
    state lock, completion and shift take the challenge lock, and no lock
    orders the two groups against each other. The steps are still atomic:
    none of these locked sections awaits anything (the shift's broadcast is
    awaited after its lock is released), and asyncio runs one task at a
    time. So any interleaving of concurrent callers (two teams pressing
    "complete", the timer loop shifting, lifecycle commands) is one of these
    sequences. Failed calls raise to their caller and leave the engine
    untouched. */
module GameSteps {
  import opened Results
  import opened SnakeGame

  /** One engine call. `Shift` carries the set the generator produced. */
  datatype Step =
    | Start
    | End
    | Complete(challengeId: int, setId: int)
    | Shift(newSet: ChallengeSet)

  /** What a successful call hands back to its caller. */
  datatype Reply =
    | StartedWith(current: ChallengeSet)
    | Stopped
    | Won(challenge: Challenge, next: ChallengeSet)
    | Rotated

  type Outcome = Result<Reply, EngineError>

  /** Perform one step: the next engine state and what the caller sees. */
  function Apply(g: Game, s: Step): (r: (Game, Outcome))
    requires Wf(g)
    ensures Wf(r.0)
    ensures r.1.Err? ==> r.0 == g
    ensures !s.Shift? ==> r.0.window == g.window && r.0.setId == g.setId && r.0.settings == g.settings
    ensures !s.Shift? && g.setComplete ==> r.0.setComplete
    ensures s.Shift? ==> r.0.setId == g.setId + 1 && !r.0.setComplete && r.0.state == g.state
    ensures r.1.Ok? && r.1.value.Won? <==> s.Complete? && r.1.Ok?
    ensures r.1.Ok? && r.1.value.Won? ==> !g.setComplete && r.0.setComplete
    ensures !s.End? ==> r.0.state == g.state
    ensures s.End? ==> r.0.state == g.state || r.0.state == Ended
  {
    match s
    case Start =>
      (match StartGame(g)
       case Ok((g', current)) => (g', Ok(StartedWith(current)))
       case Err(e) => (g, Err(e)))
    case End =>
      (match EndGame(g)
       case Ok(g') => (g', Ok(Stopped))
       case Err(e) => (g, Err(e)))
    case Complete(c, id) =>
      (match CompleteChallenge(g, c, id)
       case Ok((g', (challenge, next))) => (g', Ok(Won(challenge, next)))
       case Err(e) => (g, Err(e)))
    case Shift(newSet) =>
      (ShiftChallenges(g, newSet), Ok(Rotated))
  }

  /** The engine state after a run of steps. */
  function Run(g: Game, steps: seq<Step>): (g': Game)
    requires Wf(g)
    ensures Wf(g')
    decreases |steps|
  {
    if steps == [] then g else Run(Apply(g, steps[0]).0, steps[1..])
  }

  /** What each caller of a run sees, in order. */
  function Trace(g: Game, steps: seq<Step>): (t: seq<Outcome>)
    requires Wf(g)
    ensures |t| == |steps|
    decreases |steps|
  {
    if steps == [] then []
    else [Apply(g, steps[0]).1] + Trace(Apply(g, steps[0]).0, steps[1..])
  }

  /** How many outcomes in a trace are successful completions. */
  function CountWins(t: seq<Outcome>): nat
  {
    if t == [] then 0
    else (if t[0].Ok? && t[0].value.Won? then 1 else 0) + CountWins(t[1..])
  }

  /** How many shifts a run contains. */
  function CountShifts(steps: seq<Step>): nat
  {
    if steps == [] then 0
    else (if steps[0].Shift? then 1 else 0) + CountShifts(steps[1..])
  }

  /** Every generated set in a run has the configured size. */
  predicate ShiftsSized(steps: seq<Step>, numChallenges: int) {
    forall i :: 0 <= i < |steps| && steps[i].Shift? ==> |steps[i].newSet| == numChallenges
  }

  /** A completion attempt that would pass every check of the engine `g`. */
  predicate WinningAttempt(g: Game, s: Step)
    requires Wf(g)
  {
    s.Complete? && s.setId == g.setId && InRange(g, s.challengeId)
    && s.challengeId < |CurrentChallenges(g)|
  }

  /** The cycle counter advances by exactly the number of shifts: it never
      moves backward and nothing but a shift moves it. */
  lemma {:induction false} RunAdvancesSetId(g: Game, steps: seq<Step>)
    requires Wf(g)
    ensures Run(g, steps).setId == g.setId + CountShifts(steps)
    decreases |steps|
  {
    if steps != [] {
      RunAdvancesSetId(Apply(g, steps[0]).0, steps[1..]);
    }
  }

  /** Between two shifts at most one completion succeeds, and none once the
      cycle has been won. */
  lemma {:induction false} AtMostOneWinner(g: Game, steps: seq<Step>)
    requires Wf(g)
    requires CountShifts(steps) == 0
    ensures CountWins(Trace(g, steps)) <= (if g.setComplete then 0 else 1)
    decreases |steps|
  {
    if steps != [] {
      var (g', o) := Apply(g, steps[0]);
      AtMostOneWinner(g', steps[1..]);
      assert Trace(g, steps) == [o] + Trace(g', steps[1..]);
      assert ([o] + Trace(g', steps[1..]))[1..] == Trace(g', steps[1..]);
    }
  }

  /** Between two shifts, if the cycle is not yet won and some caller makes
      an attempt that passes every check, exactly one completion succeeds:
      racing teams never both win and never both lose. */
  lemma {:induction false} ExactlyOneWinner(g: Game, steps: seq<Step>, k: nat)
    requires Wf(g)
    requires CountShifts(steps) == 0
    requires !g.setComplete
    requires k < |steps| && WinningAttempt(g, steps[k])
    ensures CountWins(Trace(g, steps)) == 1
    decreases |steps|
  {
    var (g', o) := Apply(g, steps[0]);
    assert Trace(g, steps) == [o] + Trace(g', steps[1..]);
    assert ([o] + Trace(g', steps[1..]))[1..] == Trace(g', steps[1..]);
    if o.Ok? && o.value.Won? {
      AtMostOneWinner(g', steps[1..]);
    } else {
      assert k != 0;
      assert !g'.setComplete;
      ExactlyOneWinner(g', steps[1..], k - 1);
    }
  }

  /** An attempt naming a cycle older than the engine's current one fails
      with the expired-set error wherever it falls in a run, whatever its
      challenge index. */
  lemma {:induction false} StaleAttemptsExpire(g: Game, steps: seq<Step>, i: nat)
    requires Wf(g)
    requires i < |steps| && steps[i].Complete? && steps[i].setId < g.setId
    ensures Trace(g, steps)[i] == Err(ExpiredSet)
    decreases |steps|
  {
    var g' := Apply(g, steps[0]).0;
    if i > 0 {
      StaleAttemptsExpire(g', steps[1..], i - 1);
    }
  }

  /** When the generator keeps its promise of `numChallenges` per set, no
      completion in any run trips the interpreter's index check. */
  lemma {:induction false} SizedRunsNeverIndexOutOfRange(g: Game, steps: seq<Step>, i: nat)
    requires Wf(g) && Sized(g)
    requires ShiftsSized(steps, g.settings.numChallenges)
    requires i < |steps|
    ensures Trace(g, steps)[i] != Err(IndexOutOfRange)
    ensures Sized(Run(g, steps))
    decreases |steps|
  {
    var g' := Apply(g, steps[0]).0;
    assert ShiftsSized(steps[1..], g'.settings.numChallenges) by {
      forall j | 0 <= j < |steps[1..]| && steps[1..][j].Shift?
        ensures |steps[1..][j].newSet| == g'.settings.numChallenges
      {
        assert steps[1..][j] == steps[j + 1];
      }
    }
    assert Sized(g');
    if i > 0 {
      SizedRunsNeverIndexOutOfRange(g', steps[1..], i - 1);
    } else if |steps| > 1 {
      SizedRunsNeverIndexOutOfRange(g', steps[1..], 0);
    }
  }

  /** The lifecycle never reaches `Playing` or `Paused` from `Initial` or
      `Ended`: no engine call assigns either state. */
  lemma {:induction false} NeverActive(g: Game, steps: seq<Step>)
    requires Wf(g)
    requires g.state == Initial || g.state == Ended
    ensures !IsActive(Run(g, steps))
    ensures Run(g, steps).state == Initial || Run(g, steps).state == Ended
    decreases |steps|
  {
    if steps != [] {
      NeverActive(Apply(g, steps[0]).0, steps[1..]);
    }
  }

  /** Two completions racing on the same, not yet won cycle: whichever lock
      acquisition comes first wins with its challenge and the next set; the
      other is told the set is already completed. */
  lemma RaceOfTwo(g: Game, first: int, second: int)
    requires Wf(g) && !g.setComplete
    requires WinningAttempt(g, Complete(first, g.setId))
    ensures Trace(g, [Complete(first, g.setId), Complete(second, g.setId)])
         == [Ok(Won(CurrentChallenges(g)[first], NextChallenges(g))), Err(AlreadyCompleted)]
  {
  }

  /** A completion whose cycle was rotated away before the lock was taken
      fails as expired, even if the cycle had not been won. */
  lemma ClaimAfterShiftExpires(g: Game, newSet: ChallengeSet, c: int)
    requires Wf(g)
    ensures Trace(g, [Shift(newSet), Complete(c, g.setId)])[1] == Err(ExpiredSet)
  {
  }

  /** Because starting leaves the state at `Initial`, a second start is
      accepted too and spawns a second timer loop; ending then cancels only
      the loop the engine holds a handle to, so one loop keeps running. */
  lemma StartTwiceLeavesALoopRunning(settings: Settings, first: ChallengeSet, second: ChallengeSet)
    ensures var g := NewGame(settings, first, second);
      var t := Trace(g, [Start, Start, End]);
      && t[0].Ok? && t[1].Ok? && t[2].Ok?
      && Run(g, [Start, Start, End]).state == Ended
      && LiveLoops(Run(g, [Start, Start, End]).loopTasks) == 1
  {
  }

  /** Ending a game that was never started is refused by the missing timer
      loop, not by the state guard; once started, the game can be ended
      again and again. */
  lemma EndingIsRepeatable(settings: Settings, first: ChallengeSet, second: ChallengeSet)
    ensures var g := NewGame(settings, first, second);
      && Trace(g, [End])[0] == Err(NoLoopTask)
      && Trace(g, [Start, End, End])[2] == Ok(Stopped)
  {
  }
}
