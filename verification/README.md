# Snake challenge engine, modelled in Dafny

The snake game is a team race run through a chat bot. It has two teams and
repeating timed cycles. In each cycle the first team to complete one
challenge of the current set wins the cycle. The other team is "frozen"
and is shown the next cycle's challenges early.

This project models two parts of that system.

**The challenge-cycle engine** (`snake_game.py`, class `SnakeGame`):
- a deque of at most two challenge sets: "current" and "next";
- a cycle counter (`_current_set_id`) and a per-cycle completion flag
  (`_set_complete`);
- a coarse lifecycle state (`INITIAL`, `PLAYING`, `PAUSED`, `ENDED`);
- the timer loop, which sleeps out each cycle, warns, then shifts the window.

`start_game` and `end_game` take the state lock; `complete_challenge` and
`_shift_challenges` take the challenge lock. No lock orders a start against a
completion. Each engine method is still one atomic transition on an immutable
`Game` record: none of its locked sections awaits anything, and asyncio runs
one task at a time. The shift awaits its broadcast only after releasing its
lock. Races between teams, and between a team and the timer loop, then
become sequences of atomic steps (`GameSteps.Run`, `GameSteps.Trace`). The single-winner and staleness
properties are proved over all such sequences.

**The bot's pre-game bookkeeping** (`snake_bot.py`, class `DiscordSnakeGame`):
the player-to-team map, the two member lists and the settings record. It also
covers how a claim is routed to the engine and which teams get frozen. Every
chat reply becomes an `Ok` or a `Refusal`.

Files:
- `results.dfy`: the `Result` and `Option` types.
- `bounded_deque.dfy`: a deque with a maximum length, appended on the right.
- `snake_game.dfy`: the engine state and its operations.
- `game_steps.dfy`: runs of atomic engine steps, and the lemmas about them.
- `challenge_loop.dfy`: the timer loop as an event schedule.
- `snake_bot.dfy`: the bot's roster, settings, start guard and claim routing.

## Behaviour as written

The model follows the code, including behaviour that looks unintended.

- `start_game` checks for `INITIAL` but never assigns `PLAYING`
  (snake_game.py:95-99). So `PLAYING` and `PAUSED` are never entered.
  `is_active` is never true (`GameSteps.NeverActive`).
- Because the state stays `INITIAL`, a second `start_game` also succeeds and
  spawns a second timer loop. `end_game` cancels only the last loop spawned,
  so one loop keeps running (`GameSteps.StartTwiceLeavesALoopRunning`).
- The guard `not self._state is not GameState.PLAYING` refuses exactly the
  `PLAYING` state (snake_game.py:103), the one state its error message
  suggests should be endable. In every other state, `end_game` asserts
  that a timer loop exists; it then cancels that loop and sets `ENDED`. So
  ending a never-started game fails on the assertion (`NoLoopTask`), and an
  ended game can be ended again (`GameSteps.EndingIsRepeatable`).
- The bot calls `enter_starting_state` (snake_bot.py:150), which the engine
  does not define. So the engine has no starting state, and neither does the
  model.
- `_shift_challenges` calls `broadcast_challenges()` with no cycle id
  (snake_game.py:135). The bot's `_broadcast_challenges(cycle_id)`
  (snake_bot.py:248) expects an id that is never passed. The model's
  `ChallengeLoop.Broadcast` event carries no id.
- `complete_challenge` checks the index against `num_challenges` only. It
  then indexes the current set (snake_game.py:117-120). The bot shares its
  `Settings` object with the engine, and its `set_setting` can change
  `num_challenges` after the engine generated its first two sets. So a set
  can be shorter than the bound. The model keeps this as the
  `IndexOutOfRange` error. `SnakeGame.Sized` is the generator's promise
  that every set has `num_challenges` challenges. Under that promise the
  error never happens (`GameSteps.SizedRunsNeverIndexOutOfRange`).

## Model

| member | source | states |
|---|---|---|
| `BoundedDeque.Append` | snake_game.py:72-74 | appending to a deque with a maximum length keeps at most that many items, puts the new item last and keeps the newest old items in order |
| `BoundedDeque.AppendFullPair` | snake_game.py:132 | appending to the full two-set window drops the current set: the old next set moves to the front and the new set goes behind it |
| `SnakeGame.NewGame` | snake_game.py:65-79 | a new game holds exactly the two generated sets, in order, with cycle id 0, the flag cleared, state `INITIAL` and no timer loop |
| `SnakeGame.IsActive` | snake_game.py:81-83 | the game counts as active exactly when it is neither in `INITIAL` nor in `ENDED`, i.e. in `PLAYING` or `PAUSED` |
| `SnakeGame.CurrentChallenges` | snake_game.py:85-87 | the current set is one of the window's sets and, when the generator keeps set sizes, has `num_challenges` challenges |
| `SnakeGame.NextChallenges` | snake_game.py:89-91 | the next set is one of the window's sets and, when the generator keeps set sizes, has `num_challenges` challenges |
| `SnakeGame.StartGame` | snake_game.py:93-99 | start succeeds exactly in `INITIAL`; on success it returns the current set, spawns one more timer loop, and leaves the state and everything else unchanged |
| `SnakeGame.EndGame` | snake_game.py:101-107 | end is refused exactly in `PLAYING`; in other states it fails when no timer loop was ever spawned; otherwise it cancels the last loop and sets `ENDED` |
| `SnakeGame.CompleteChallenge` | snake_game.py:109-123 | checks run in order: stale set id first, then already completed, then index outside `[0, num_challenges)`; success happens exactly when all pass and the index lies inside the current set, sets only the flag, and returns the current set's challenge plus the whole next set |
| `SnakeGame.ShiftChallenges` | snake_game.py:130-134 | a shift keeps two sets: the old next set becomes current and the new set becomes next; the id goes up by exactly 1, the flag is cleared, and nothing else changes |
| `GameSteps.Apply` | snake_game.py:93-135 | each engine call is one atomic step; a failing call leaves the engine unchanged; only a shift moves the window or the id; only a shift clears the flag; a win needs the flag clear and sets it |
| `GameSteps.RunAdvancesSetId` | snake_game.py:76-77 | over any run, the cycle id grows by exactly the number of shifts, so it never goes backward |
| `GameSteps.AtMostOneWinner` | snake_game.py:114-122 | between two shifts at most one completion succeeds, and none succeeds if the cycle was already won |
| `GameSteps.ExactlyOneWinner` | snake_game.py:109-123 | between two shifts, if the cycle is not yet won and some attempt passes every check, exactly one completion succeeds |
| `GameSteps.StaleAttemptsExpire` | snake_game.py:111-113 | an attempt naming an older cycle fails with the expired-set error wherever it falls in a run, whatever its index |
| `GameSteps.SizedRunsNeverIndexOutOfRange` | snake_game.py:117-120 | if every generated set has `num_challenges` challenges, no completion in any run hits the interpreter's index error, and set sizes stay correct |
| `GameSteps.NeverActive` | snake_game.py:81-83 | starting from `INITIAL` or `ENDED`, no run reaches `PLAYING` or `PAUSED`, so `is_active` stays false |
| `GameSteps.RaceOfTwo` | snake_game.py:109-123 | of two completions racing on the same unwon cycle, the first wins with its challenge and the next set, and the second gets "already completed" |
| `GameSteps.ClaimAfterShiftExpires` | snake_game.py:111-113 | a completion that reaches the lock after a shift fails as expired |
| `GameSteps.StartTwiceLeavesALoopRunning` | snake_game.py:93-107 | start, start, end all succeed; the game ends with one timer loop still running |
| `GameSteps.EndingIsRepeatable` | snake_game.py:101-107 | ending a game that was never started fails on the missing timer loop; after a start, a second end succeeds too |
| `ChallengeLoop.Iteration` | snake_game.py:140-146 | the sleeps of one iteration add up to the cycle length, and it shifts exactly once |
| `ChallengeLoop.Schedule` | snake_game.py:137-146 | n iterations of the loop request n cycle lengths of sleep and shift exactly n times |
| `ChallengeLoop.IterationShape` | snake_game.py:137-146 | one iteration asks for sleeps summing to the cycle length and ends with one shift and then one broadcast; the warning fires once, `warning_time` seconds before the shift, exactly when the cycle is longer than the warning time |
| `ChallengeLoop.ScheduleTotals` | snake_game.py:137-146 | n iterations ask for n cycle lengths of sleep; they shift and broadcast n times, and warn n times or never |
| `ChallengeLoop.DefaultIterations` | snake_game.py:40-44 | with the default settings an iteration sleeps 115 s, warns, sleeps 5 s, shifts; with a 30 s cycle it warns after 25 s |
| `SnakeBot.NewLobby` | snake_bot.py:60-64 | a new lobby has two empty teams numbered 0 and 1, no players and default settings, and is consistent |
| `SnakeBot.IsPlayer` | snake_bot.py:114-115 | in a consistent roster, a user is a player exactly when some team lists them |
| `SnakeBot.JoinGame` | snake_bot.py:117-137 | a join is refused once started, then if already joined, then if the team number is not in 1..2; a refused join changes nothing; an accepted one maps the user to team `team_id - 1` and appends them to that team alone |
| `SnakeBot.GetTeam` | snake_bot.py:139-140 | the team exists exactly for a joined user whose mapped index names a team, and it is the team at that index |
| `SnakeBot.JoinThenGetTeam` | snake_bot.py:128-140 | after a join the user is a player; their team is the one they chose and lists them last; the same user joining again is refused |
| `SnakeBot.JoinKeepsConsistent` | snake_bot.py:124-135 | a join keeps the roster consistent: a user is listed in a team exactly when the map assigns them to it, and nobody is listed twice |
| `SnakeBot.JoinsKeepConsistent` | snake_bot.py:117-137 | any series of pre-game join requests keeps the roster consistent |
| `SnakeBot.StartGuard` | snake_bot.py:142-150 | starting is refused with no players, then if already started; it goes ahead exactly when neither holds |
| `SnakeBot.SetSetting` | snake_bot.py:185-205 | no change after start; `num_challenges` is accepted exactly in 1..5; `cycle_length` is accepted exactly from 30 up; any other name is an unknown setting; an accepted change alters only the named field |
| `SnakeBot.GetSetting` | snake_bot.py:207-215 | reading succeeds exactly for the two known names; any other name is an unknown setting |
| `SnakeBot.SetThenGet` | snake_bot.py:185-215 | an accepted change reads back as the new value, and the other setting is unchanged |
| `SnakeBot.Victims` | snake_bot.py:238-240 | the frozen teams are the team list with the winner's position removed: every other team, in order |
| `SnakeBot.VictimsAreTheOthers` | snake_bot.py:238-240 | the frozen teams are exactly the teams whose position differs from the winner's id, in order, each once |
| `SnakeBot.TwoTeamsOneVictim` | snake_bot.py:238-240 | with two teams, the one frozen team is the other team |
| `SnakeBot.ClaimChallenge` | snake_bot.py:223-246 | a non-player is refused before the engine is asked; engine errors are passed back unchanged; a player's claim the engine accepts succeeds with the engine's new state, the claimer's own team as winner, every other team frozen, and no frozen team listing the claimer |
| `SnakeBot.ClaimerIsNotFrozen` | snake_bot.py:238-240 | in a consistent roster, a player is listed in their own team and in none of the teams frozen when that team wins |

## Left out

- Timing and concurrency: asyncio sleeps, task creation and cancellation,
  the locks and the `Event`s. Each locked method is one atomic step. The
  timer loop is a list of awaited events, not real time.
- `ChallengeLoop.Iteration`: records the seconds passed to each sleep. It
  does not model that asyncio treats a negative delay as zero.
- Challenge generation: the source leaves it unimplemented. Each generated
  set is a parameter (`NewGame`'s two sets, `Shift`'s new set).
- The two notification callbacks (`broadcast_challenges`, `warning_ping`)
  are events in the schedule, with no effect modelled. The bot's broadcaster
  takes a cycle id that the engine does not pass. With the bot wired in, that
  call fails with a type error after the shift has committed. The error
  escapes `_shift_challenges` and ends `_challenge_loop` (snake_game.py:135,
  146), so the loop stops after its first shift. This failure is not
  modelled: `ChallengeLoop.Schedule` and `ChallengeLoop.ScheduleTotals` with
  more than one iteration assume callbacks that accept no arguments.
- The chat API: threads, roles, messages, the challenge buttons and their
  timeouts, the countdown, `_broadcast_challenges`, `_warning_ping`,
  `_send_freeze`, `format_challenge`, `Team.remove_roles`.
- The bot's own `end_game` (snake_bot.py:165-183): it first refuses unless
  the engine `is_active` (snake_bot.py:166-168). `is_active` is never true
  (`GameSteps.NeverActive`), so the bot refuses every end command and never
  calls the engine's `end_game`. The rest of it is chat I/O.
- `has_started`, `enter_starting_state`, `is_playing` and `has_ended` are
  called by the bot but not defined by the engine. The bot model takes
  `started` as a plain boolean parameter.
- `GameManager`, command registration, the signature rewriting and
  `bot.run`: framework plumbing.
- `main.py`, `temp_main.py` and `guild_data.py`: earlier prototypes and a
  plain record, with no logic of the core.
- `SnakeBot.GetTeam`: returns `None` both for a user missing from the map (a
  key error) and for an index past the team list (an index error). It does
  not tell the two apart.
- `SnakeGame.EndGame`: models the `assert` in `end_game` as active. Python
  run with `-O` would skip it.
- The engine and the bot each hold their own settings here. In the program
  they share one `Settings` object; that sharing is described above.
