/** The chat bot's pre-game bookkeeping around the engine: a player-to-team
    map, the two teams' member lists and the settings record. Every reply the
    bot would post is replaced by an `Ok` or by the refusal it reports. The
    engine queries the bot relies on (`has_started`) are not part of the
    engine model, so they enter here as plain boolean parameters. */
module SnakeBot {
  import opened Results
  import opened SnakeGame

  /** A chat user, identified by its numeric id. */
  type UserId = nat

  /** A team: its id (the team's position, counted from 0) and its members
      in joining order. Roles and threads are left out. */
  datatype Team = Team(id: nat, members: seq<UserId>)

  /** The bot's pre-game state. `players` maps each user who joined to the
      index of their team. */
  datatype Lobby = Lobby(players: map<UserId, nat>, teams: seq<Team>, settings: Settings)

  /** Why the bot turns a command down. All but `UnknownSetting` are replies
      to the user; `UnknownSetting` is raised as an engine `GameError`. */
  datatype Refusal =
    | GameStarted             // the game has already started
    | AlreadyJoined           // the user is already in the player map
    | InvalidTeamId           // team number outside 1..number of teams
    | NoPlayers               // starting a game nobody has joined
    | NumChallengesOutOfRange // num_challenges outside 1..5
    | CycleLengthTooShort     // cycle_length below 30
    | UnknownSetting          // neither num_challenges nor cycle_length

  const NumChallengesName := "num_challenges"
  const CycleLengthName := "cycle_length"

  /** The inclusive bounds the bot enforces on settings. */
  const MinNumChallenges := 1
  const MaxNumChallenges := 5
  const MinCycleLength := 30

  /** No value occurs twice in `s`. */
  predicate Distinct(s: seq<UserId>) {
    forall j, k :: 0 <= j < k < |s| ==> s[j] != s[k]
  }

  /** The roster agrees with itself: each team knows its own position, every
      player's team exists, a user is listed in a team exactly when the map
      assigns them to it, and nobody is listed twice. */
  ghost predicate Consistent(l: Lobby) {
    && (forall i :: 0 <= i < |l.teams| ==> l.teams[i].id == i)
    && (forall u :: u in l.players ==> l.players[u] < |l.teams|)
    && (forall u, i :: 0 <= i < |l.teams| ==>
          (u in l.teams[i].members <==> u in l.players && l.players[u] == i))
    && (forall i :: 0 <= i < |l.teams| ==> Distinct(l.teams[i].members))
  }

  /** The lobby of a new game: two empty teams, nobody joined, default
      settings. */
  function NewLobby(): (l: Lobby)
    ensures Consistent(l)
    ensures |l.teams| == 2 && l.players == map[] && l.settings == DefaultSettings
  {
    Lobby(map[], [Team(0, []), Team(1, [])], DefaultSettings)
  }

  /** Whether `user` has joined. In a consistent roster that is the same as
      being listed in some team. */
  function IsPlayer(l: Lobby, user: UserId): (b: bool)
    ensures Consistent(l) ==>
      (b <==> exists i :: 0 <= i < |l.teams| && user in l.teams[i].members)
  {
    assert Consistent(l) && user in l.players ==> user in l.teams[l.players[user]].members;
    user in l.players
  }

  /** `user` asks to join team number `teamId`, counted from 1. Refused once
      the game has started, when the user already joined, or when the number
      names no team; otherwise the user is mapped to the team's index and
      appended to that team's members. */
  function JoinGame(l: Lobby, started: bool, user: UserId, teamId: int): (r: Result<Lobby, Refusal>)
    ensures started ==> r == Err(GameStarted)
    ensures !started && IsPlayer(l, user) ==> r == Err(AlreadyJoined)
    ensures !started && !IsPlayer(l, user) && !(1 <= teamId <= |l.teams|) ==> r == Err(InvalidTeamId)
    ensures r.Ok? <==> !started && !IsPlayer(l, user) && 0 <= teamId - 1 < |l.teams|
    ensures r.Ok? ==> var l', t := r.value, teamId - 1;
      && l'.players == l.players[user := t]
      && l'.settings == l.settings
      && |l'.teams| == |l.teams|
      && l'.teams[t] == l.teams[t].(members := l.teams[t].members + [user])
      && (forall i :: 0 <= i < |l.teams| && i != t ==> l'.teams[i] == l.teams[i])
  {
    if started then Err(GameStarted)
    else if user in l.players then Err(AlreadyJoined)
    else
      var t := teamId - 1;
      if !(0 <= t < |l.teams|) then Err(InvalidTeamId)
      else
        var team := l.teams[t];
        Ok(l.(players := l.players[user := t],
              teams := l.teams[t := team.(members := team.members + [user])]))
  }

  /** The team of `user`: missing when the user never joined (a key error in
      the program) or when the map points past the team list. */
  function GetTeam(l: Lobby, user: UserId): (r: Option<Team>)
    ensures r.Some? <==> IsPlayer(l, user) && l.players[user] < |l.teams|
    ensures r.Some? ==> r.value == l.teams[l.players[user]]
  {
    if user in l.players && l.players[user] < |l.teams| then Some(l.teams[l.players[user]])
    else None
  }

  /** A join that went through is visible: the user is a player, their team
      is the one they asked for and lists them last, and a second join by
      the same user is refused. */
  lemma JoinThenGetTeam(l: Lobby, user: UserId, teamId: int)
    requires JoinGame(l, false, user, teamId).Ok?
    ensures var l' := JoinGame(l, false, user, teamId).value;
      && IsPlayer(l', user)
      && GetTeam(l', user) == Some(l'.teams[teamId - 1])
      && l'.teams[teamId - 1].id == l.teams[teamId - 1].id
      && l'.teams[teamId - 1].members[|l'.teams[teamId - 1].members| - 1] == user
      && JoinGame(l', false, user, teamId) == Err(AlreadyJoined)
  {
  }

  /** Joining keeps the roster consistent. */
  lemma JoinKeepsConsistent(l: Lobby, started: bool, user: UserId, teamId: int)
    requires Consistent(l)
    requires JoinGame(l, started, user, teamId).Ok?
    ensures Consistent(JoinGame(l, started, user, teamId).value)
  {
  }

  /** The lobby after a series of pre-game join requests `(user, team)`;
      refused requests leave it as it was. */
  function JoinAll(l: Lobby, requests: seq<(UserId, int)>): Lobby
    decreases |requests|
  {
    if requests == [] then l
    else
      var (user, teamId) := requests[0];
      match JoinGame(l, false, user, teamId)
      case Ok(l') => JoinAll(l', requests[1..])
      case Err(_) => JoinAll(l, requests[1..])
  }

  /** Whatever users ask, in whatever order, every player stays listed in
      exactly the team the map assigns, once. */
  lemma {:induction false} JoinsKeepConsistent(l: Lobby, requests: seq<(UserId, int)>)
    requires Consistent(l)
    ensures Consistent(JoinAll(l, requests))
    decreases |requests|
  {
    if requests != [] {
      var (user, teamId) := requests[0];
      match JoinGame(l, false, user, teamId)
      case Ok(l') =>
        JoinKeepsConsistent(l, false, user, teamId);
        JoinsKeepConsistent(l', requests[1..]);
      case Err(_) =>
        JoinsKeepConsistent(l, requests[1..]);
    }
  }

  /** The bot's checks before starting: at least one player, then not
      started yet. */
  function StartGuard(l: Lobby, started: bool): (r: Result<(), Refusal>)
    ensures |l.players| < 1 ==> r == Err(NoPlayers)
    ensures |l.players| >= 1 && started ==> r == Err(GameStarted)
    ensures r.Ok? <==> |l.players| >= 1 && !started
  {
    if |l.players| < 1 then Err(NoPlayers)
    else if started then Err(GameStarted)
    else Ok(())
  }

  /** Change a setting before the game starts. `num_challenges` must lie in
      1..5 inclusive; `cycle_length` must be at least 30. A refused change
      leaves the settings as they were; an accepted one changes only the
      named field. */
  function SetSetting(l: Lobby, started: bool, name: string, newVal: int): (r: Result<Lobby, Refusal>)
    ensures started ==> r == Err(GameStarted)
    ensures !started && name == NumChallengesName ==>
      (r.Ok? <==> MinNumChallenges <= newVal <= MaxNumChallenges)
      && (r.Err? ==> r.error == NumChallengesOutOfRange)
    ensures !started && name == CycleLengthName ==>
      (r.Ok? <==> newVal >= MinCycleLength)
      && (r.Err? ==> r.error == CycleLengthTooShort)
    ensures !started && name != NumChallengesName && name != CycleLengthName ==> r == Err(UnknownSetting)
    ensures r.Ok? ==> r.value.players == l.players && r.value.teams == l.teams
    ensures r.Ok? && name == NumChallengesName ==>
      r.value.settings == l.settings.(numChallenges := newVal)
    ensures r.Ok? && name == CycleLengthName ==>
      r.value.settings == l.settings.(cycleLength := newVal)
  {
    if started then Err(GameStarted)
    else if name == NumChallengesName then
      if !(MinNumChallenges <= newVal <= MaxNumChallenges) then Err(NumChallengesOutOfRange)
      else Ok(l.(settings := l.settings.(numChallenges := newVal)))
    else if name == CycleLengthName then
      if newVal < MinCycleLength then Err(CycleLengthTooShort)
      else Ok(l.(settings := l.settings.(cycleLength := newVal)))
    else Err(UnknownSetting)
  }

  /** Read a setting by name; any other name is an unknown setting. */
  function GetSetting(l: Lobby, name: string): (r: Result<int, Refusal>)
    ensures r.Ok? <==> name == NumChallengesName || name == CycleLengthName
    ensures r.Err? ==> r.error == UnknownSetting
    ensures name == NumChallengesName ==> r == Ok(l.settings.numChallenges)
    ensures name == CycleLengthName ==> r == Ok(l.settings.cycleLength)
  {
    if name == NumChallengesName then Ok(l.settings.numChallenges)
    else if name == CycleLengthName then Ok(l.settings.cycleLength)
    else Err(UnknownSetting)
  }

  /** An accepted change reads back as the new value, and the other setting
      reads back as before. */
  lemma SetThenGet(l: Lobby, name: string, newVal: int)
    requires SetSetting(l, false, name, newVal).Ok?
    ensures var l' := SetSetting(l, false, name, newVal).value;
      && GetSetting(l', name) == Ok(newVal)
      && (name == NumChallengesName ==> GetSetting(l', CycleLengthName) == GetSetting(l, CycleLengthName))
      && (name == CycleLengthName ==> GetSetting(l', NumChallengesName) == GetSetting(l, NumChallengesName))
  {
  }

  /** `s` with the element at position `k` removed; unchanged when `k` is
      not a position of `s`. */
  function Without<T>(s: seq<T>, k: int): seq<T>
  {
    if 0 <= k < |s| then s[..k] + s[k + 1..] else s
  }

  /** The teams from position `i` on whose position differs from
      `completedId`, in order. */
  function VictimsFrom(teams: seq<Team>, completedId: int, i: nat): seq<Team>
    requires i <= |teams|
    decreases |teams| - i
  {
    if i == |teams| then []
    else (if i != completedId then [teams[i]] else []) + VictimsFrom(teams, completedId, i + 1)
  }

  /** The teams frozen when team `completedId` wins a cycle: every team but
      the one at that position, in order. */
  function Victims(teams: seq<Team>, completedId: int): (vs: seq<Team>)
    ensures vs == Without(teams, completedId)
  {
    VictimsFromWithout(teams, completedId, 0);
    assert teams[0..] == teams;
    VictimsFrom(teams, completedId, 0)
  }

  lemma {:induction false} VictimsFromWithout(teams: seq<Team>, completedId: int, i: nat)
    requires i <= |teams|
    ensures VictimsFrom(teams, completedId, i) == Without(teams[i..], completedId - i)
    decreases |teams| - i
  {
    if i < |teams| {
      VictimsFromWithout(teams, completedId, i + 1);
      var s, k := teams[i..], completedId - i;
      assert s == [teams[i]] + teams[i + 1..];
      if k == 0 {
        assert Without(s, k) == teams[i + 1..];
      } else if 0 < k < |s| {
        assert s[..k] == [teams[i]] + teams[i + 1..][..k - 1];
        assert s[k + 1..] == teams[i + 1..][k..];
      }
    }
  }

  /** The victims are exactly the winning team's list with the winner taken
      out: every other team, each once, in order. */
  lemma VictimsAreTheOthers(teams: seq<Team>, completedId: int)
    ensures Victims(teams, completedId) == Without(teams, completedId)
    ensures 0 <= completedId < |teams| ==> |Victims(teams, completedId)| == |teams| - 1
  {
  }

  /** With two teams the one victim is the other team. */
  lemma TwoTeamsOneVictim(teams: seq<Team>, completedId: int)
    requires |teams| == 2 && 0 <= completedId < 2
    ensures Victims(teams, completedId) == [teams[1 - completedId]]
  {
  }

  /** Why a click on "complete challenge" achieves nothing. */
  datatype ClaimError = NotAPlayer | Engine(error: EngineError)

  /** A successful claim: the engine after it, the challenge claimed, the
      upcoming set shown to the frozen teams, the winning team and the
      frozen ones. */
  datatype Claim = Claim(
    game: Game, challenge: Challenge, next: ChallengeSet, winner: Team, victims: seq<Team>)

  /** A user clicks "complete challenge" for challenge `challengeId` of cycle
      `cycleId`. Non-players are turned away without touching the engine;
      otherwise the engine arbitrates, and on success the user's team wins
      and every other team is frozen. */
  function ClaimChallenge(l: Lobby, g: Game, user: UserId, challengeId: int, cycleId: int)
    : (r: Result<Claim, ClaimError>)
    requires Consistent(l) && Wf(g)
    ensures !IsPlayer(l, user) ==> r == Err(NotAPlayer)
    ensures IsPlayer(l, user) && CompleteChallenge(g, challengeId, cycleId).Err? ==>
      r == Err(Engine(CompleteChallenge(g, challengeId, cycleId).error))
    ensures IsPlayer(l, user) && CompleteChallenge(g, challengeId, cycleId).Ok? ==> r.Ok?
    ensures r.Ok? ==>
      && CompleteChallenge(g, challengeId, cycleId).Ok?
      && r.value.game == CompleteChallenge(g, challengeId, cycleId).value.0
      && r.value.winner == l.teams[l.players[user]]
      && r.value.game.setComplete
      && r.value.challenge == CurrentChallenges(g)[challengeId]
      && r.value.next == NextChallenges(g)
      && user in r.value.winner.members
      && r.value.victims == Without(l.teams, l.players[user])
      && (forall v :: v in r.value.victims ==> user !in v.members)
  {
    if user !in l.players then Err(NotAPlayer)
    else match CompleteChallenge(g, challengeId, cycleId)
      case Err(e) => Err(Engine(e))
      case Ok((g', (challenge, next))) =>
        var winner := l.teams[l.players[user]];
        var victims := Victims(l.teams, winner.id);
        VictimsAreTheOthers(l.teams, winner.id);
        ClaimerIsNotFrozen(l, user);
        Ok(Claim(g', challenge, next, winner, victims))
  }

  /** In a consistent roster a player belongs to no team other than their
      own, so removing their team leaves no team that lists them. */
  lemma ClaimerIsNotFrozen(l: Lobby, user: UserId)
    requires Consistent(l) && IsPlayer(l, user)
    ensures user in l.teams[l.players[user]].members
    ensures forall v :: v in Without(l.teams, l.players[user]) ==> user !in v.members
  {
  }
}
