/**
 * The pre-game lobby shared by src/commands/startgame.js and
 * src/commands/startvoicegame.js: the `players` map and the `teamInfo` map
 * of teams, each holding a set of player ids, updated by the join buttons
 * (one per team) and the leave button.
 *
 * Teams are identified by their position `0 .. numTeams - 1` (the source
 * keys them by the emoji at that position of the configured list).
 */
module PreGame {

  type UserId = string

  /** A `players` entry. */
  datatype Player = Player(name: string, team: nat, score: int)

  /** A `teamInfo` entry. */
  datatype Team = Team(name: string, members: set<UserId>, score: int)

  /** The join button of a team (custom id `"<index>"`), or the leave button. */
  datatype Button = JoinTeam(index: nat) | Leave

  /** The answer the clicking user gets. */
  datatype ClickReply =
    | AlreadyJoined(team: string)
    | NotJoined
    | Left(user: string)
    | Joined(user: string, team: string, switched: bool)

  datatype LobbyState = LobbyState(players: map<UserId, Player>, teams: seq<Team>)

  /** Only the buttons of the row for this number of teams are ever shown. */
  predicate ValidButton(b: Button, numTeams: nat) {
    b.JoinTeam? ==> b.index < numTeams
  }

  /**
   * The lobby invariant: every player is a member of the team its entry
   * records, and every team member is a player recorded on that team. So
   * each player is in exactly one team's set.
   */
  ghost predicate Consistent(s: LobbyState) {
    && (forall u :: u in s.players ==>
          s.players[u].team < |s.teams| && u in s.teams[s.players[u].team].members)
    && (forall t, u :: 0 <= t < |s.teams| && u in s.teams[t].members ==>
          u in s.players && s.players[u].team == t)
  }

  /** The teams of a new lobby: the first `numTeams` names, no members, score 0. */
  function InitialTeams(names: seq<string>, numTeams: nat): (teams: seq<Team>)
    requires numTeams <= |names|
    ensures |teams| == numTeams
    ensures forall t :: 0 <= t < numTeams ==> teams[t] == Team(names[t], {}, 0)
  {
    if numTeams == 0 then [] else InitialTeams(names, numTeams - 1) + [Team(names[numTeams - 1], {}, 0)]
  }

  /** A new lobby is consistent and has exactly `numTeams` empty teams. */
  lemma InitialConsistent(names: seq<string>, numTeams: nat)
    requires numTeams <= |names|
    ensures Consistent(LobbyState(map[], InitialTeams(names, numTeams)))
  {
  }

  /** `teams` with `user` taken out of team `t`'s set. */
  function RemoveMember(teams: seq<Team>, t: nat, user: UserId): seq<Team>
    requires t < |teams|
  {
    teams[t := teams[t].(members := teams[t].members - {user})]
  }

  /** `teams` with `user` put into team `t`'s set. */
  function AddMember(teams: seq<Team>, t: nat, user: UserId): seq<Team>
    requires t < |teams|
  {
    teams[t := teams[t].(members := teams[t].members + {user})]
  }

  /** The join-button handler of src/commands/startgame.js and src/commands/startvoicegame.js. */
  function ClickStep(s: LobbyState, user: UserId, username: string, b: Button): (r: (LobbyState, ClickReply))
    requires Consistent(s) && ValidButton(b, |s.teams|)
    ensures |r.0.teams| == |s.teams|
  {
    var joined := user in s.players;
    if joined && b == JoinTeam(s.players[user].team) then
      (s, AlreadyJoined(s.teams[b.index].name))
    else
      var out := Without(s, user);
      match b
      case Leave =>
        (out, if joined then Left(username) else NotJoined)
      case JoinTeam(i) =>
        (LobbyState(out.players[user := Player(username, i, 0)], AddMember(out.teams, i, user)),
         Joined(username, s.teams[i].name, joined))
  }

  /** Every click keeps the lobby invariant. */
  lemma ClickKeepsConsistent(s: LobbyState, user: UserId, username: string, b: Button)
    requires Consistent(s) && ValidButton(b, |s.teams|)
    ensures Consistent(ClickStep(s, user, username, b).0)
  {
    if !(user in s.players && b == JoinTeam(s.players[user].team)) {
      var out := Without(s, user);
      WithoutConsistent(s, user);
      match b
      case Leave =>
      case JoinTeam(i) =>
        WithConsistent(out, user, Player(username, i, 0));
    }
  }

  /** The lobby once `user` is taken out of `players` and out of their team. */
  function Without(s: LobbyState, user: UserId): (r: LobbyState)
    requires Consistent(s)
    ensures |r.teams| == |s.teams|
  {
    var teams := if user in s.players then RemoveMember(s.teams, s.players[user].team, user) else s.teams;
    LobbyState(s.players - {user}, teams)
  }

  lemma WithoutConsistent(s: LobbyState, user: UserId)
    requires Consistent(s)
    ensures Consistent(Without(s, user))
    ensures forall t :: 0 <= t < |s.teams| ==> user !in Without(s, user).teams[t].members
  {
  }

  lemma WithConsistent(s: LobbyState, user: UserId, p: Player)
    requires Consistent(s) && user !in s.players && p.team < |s.teams|
    requires forall t :: 0 <= t < |s.teams| ==> user !in s.teams[t].members
    ensures Consistent(LobbyState(s.players[user := p], AddMember(s.teams, p.team, user)))
  {
  }

  /** Clicking the team one is already on changes nothing. */
  lemma SameTeamNoOp(s: LobbyState, user: UserId, username: string, t: nat)
    requires Consistent(s) && t < |s.teams|
    requires user in s.players && s.players[user].team == t
    ensures ClickStep(s, user, username, JoinTeam(t)) == (s, AlreadyJoined(s.teams[t].name))
  {
  }

  /** Leaving without having joined changes nothing. */
  lemma LeaveUnjoinedNoOp(s: LobbyState, user: UserId, username: string)
    requires Consistent(s) && user !in s.players
    ensures ClickStep(s, user, username, Leave) == (s, NotJoined)
  {
    assert s.players - {user} == s.players;
  }

  /** Leaving removes the player from `players` and from every team. */
  lemma LeaveRemoves(s: LobbyState, user: UserId, username: string)
    requires Consistent(s) && user in s.players
    ensures var s' := ClickStep(s, user, username, Leave).0;
      && user !in s'.players
      && (forall t :: 0 <= t < |s'.teams| ==> user !in s'.teams[t].members)
      && ClickStep(s, user, username, Leave).1 == Left(username)
  {
    ClickKeepsConsistent(s, user, username, Leave);
  }

  /**
   * Joining or switching to team `t` records score 0 and puts the player in
   * team `t` only; on a switch the old team loses them.
   */
  lemma JoinPlaces(s: LobbyState, user: UserId, username: string, t: nat)
    requires Consistent(s) && t < |s.teams|
    requires user !in s.players || s.players[user].team != t
    ensures var s' := ClickStep(s, user, username, JoinTeam(t)).0;
      && s'.players[user] == Player(username, t, 0)
      && user in s'.teams[t].members
      && (forall k :: 0 <= k < |s'.teams| && k != t ==> user !in s'.teams[k].members)
      && ClickStep(s, user, username, JoinTeam(t)).1 == Joined(username, s.teams[t].name, user in s.players)
  {
    ClickKeepsConsistent(s, user, username, JoinTeam(t));
  }

  /** A click changes nothing about any other user, nor any team's name or score. */
  lemma ClickLeavesOthers(s: LobbyState, user: UserId, username: string, b: Button)
    requires Consistent(s) && ValidButton(b, |s.teams|)
    ensures var s' := ClickStep(s, user, username, b).0;
      && (forall u :: u != user ==> (u in s'.players <==> u in s.players))
      && (forall u :: u != user && u in s.players ==> s'.players[u] == s.players[u])
      && (forall t, u :: 0 <= t < |s.teams| && u != user ==>
            (u in s'.teams[t].members <==> u in s.teams[t].members))
      && (forall t :: 0 <= t < |s.teams| ==>
            s'.teams[t].name == s.teams[t].name && s'.teams[t].score == s.teams[t].score)
  {
  }

  lemma UpdateAfterRemove(m: map<UserId, Player>, k: UserId, v: Player)
    ensures (m - {k})[k := v] == m[k := v]
  {
  }

  /**
   * The lobby as the start commands hold it: `players` and `teamInfo`, both
   * updated in place by the click handler.
   */
  class Lobby {
    var players: map<UserId, Player>
    var teams: seq<Team>

    function State(): LobbyState
      reads this
    {
      LobbyState(players, teams)
    }

    /** The lobby set up on admission: no players, `numTeams` empty teams. */
    constructor (names: seq<string>, numTeams: nat)
      requires numTeams <= |names|
      ensures players == map[] && teams == InitialTeams(names, numTeams)
      ensures Consistent(State())
    {
      players := map[];
      teams := InitialTeams(names, numTeams);
    }

    /** One button click. */
    method Click(user: UserId, username: string, b: Button) returns (reply: ClickReply)
      requires Consistent(State()) && ValidButton(b, |teams|)
      modifies this
      ensures (State(), reply) == ClickStep(old(State()), user, username, b)
      ensures Consistent(State())
    {
      ClickKeepsConsistent(State(), user, username, b);
      var joined := user in players;
      if joined && b == JoinTeam(players[user].team) {
        return AlreadyJoined(teams[b.index].name);
      }
      ghost var out := Without(State(), user);
      var name := if b.JoinTeam? then teams[b.index].name else "";
      if joined {
        var oldTeam := players[user].team;
        teams := teams[oldTeam := teams[oldTeam].(members := teams[oldTeam].members - {user})];
      }
      assert teams == out.teams;
      if b == Leave {
        players := players - {user};
        return if joined then Left(username) else NotJoined;
      }
      var i := b.index;
      UpdateAfterRemove(players, user, Player(username, i, 0));
      teams := teams[i := teams[i].(members := teams[i].members + {user})];
      players := players[user := Player(username, i, 0)];
      reply := Joined(username, name, joined);
    }
  }
}
