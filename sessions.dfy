/**
 * Admission, the game registries and the start-of-play control of
 * src/commands/startgame.js (text games) and src/commands/startvoicegame.js
 * (voice games).
 *
 * `currGames` holds the channels with a game and `currGuilds` the guilds
 * with a voice game. Chat messages, button clicks and collector time-outs
 * arrive one at a time as events. What the environment answers (permissions,
 * the database, sending the lobby message) is an input. The game itself is
 * an abstract step that either returns or throws.
 */
module Sessions {
  import opened Types
  import opened JsText
  import opened PreGame

  type ChannelId = string
  type GuildId = string

  /** The options of the slash command. */
  datatype Request = Request(
    channel: ChannelId,
    initiator: UserId,
    setName: Option<string>,
    numTeams: nat,
    ranked: bool,
    shuffle: bool)

  /**
   * What the environment answers during admission. `pick` is the index that
   * `Math.random() * currSets.length | 0` draws when no set is named.
   */
  datatype Env = Env(
    inVoice: bool,
    canView: bool,
    canSend: bool,
    isAdmin: bool,
    sets: seq<string>,
    pick: nat,
    fetchFails: bool,
    questionsExist: bool,
    sendFails: bool)

  datatype Rejection =
    | NotInVoice
    | ChannelBusy
    | NoView
    | NoSend
    | NotAdmin
    | GuildBusy
    | UnknownSet(name: string)
    | DatabaseError
    | PrepareFailed

  /** The chosen set is `None` when no set was named and `currSets` is empty (`undefined`). */
  datatype Admission = Admitted(chosen: Option<string>) | Rejected(why: Rejection)

  /** The random draw lies in `[0, |currSets|)`. */
  predicate PickInRange(env: Env) {
    |env.sets| > 0 ==> env.pick < |env.sets|
  }

  /** The rejections issued before any registry is touched. */
  predicate EarlyRejection(why: Rejection) {
    why in {NotInVoice, ChannelBusy, NoView, NoSend, NotAdmin, GuildBusy}
  }

  /** The set to play: the named one, or a random element of `currSets`. */
  function ChosenSet(req: Request, env: Env): Option<string>
    requires PickInRange(env)
  {
    if req.setName.Some? then req.setName
    else if |env.sets| > 0 then Some(env.sets[env.pick])
    else None
  }

  /** The start checks shared by both modes, in their order. */
  function PermissionCheck(req: Request, env: Env): Option<Rejection> {
    if !env.canView then Some(NoView)
    else if !env.canSend then Some(NoSend)
    else if req.ranked && !env.isAdmin then Some(NotAdmin)
    else None
  }

  /**
   * Admission of a text game. `randomize` is not exported by
   * src/helpers/helpers.js, so with `shuffle` on, a set whose questions
   * exist throws inside the database block like a failed read.
   */
  function TextAdmission(games: set<ChannelId>, req: Request, env: Env): (r: (Admission, set<ChannelId>))
    requires PickInRange(env)
    ensures req.channel in games ==> r == (Rejected(ChannelBusy), games)
    ensures r.0.Rejected? && r.0.why != DatabaseError ==> r.1 == games
    ensures r.0 == Rejected(DatabaseError) ==> r.1 == games + {req.channel}
    ensures r.0.Admitted? ==> r.1 == games + {req.channel} && req.channel !in games
    ensures r.0.Admitted? ==> r.0.chosen == ChosenSet(req, env) && (r.0.chosen.Some? ==> r.0.chosen.value in env.sets)
    ensures r.0.Rejected? ==> r.0.why != NotInVoice && r.0.why != GuildBusy
  {
    var c := req.channel;
    if c in games then (Rejected(ChannelBusy), games)
    else if PermissionCheck(req, env).Some? then (Rejected(PermissionCheck(req, env).value), games)
    else
      var registered := games + {c};
      if req.setName.Some? && req.setName.value !in env.sets then
        (Rejected(UnknownSet(req.setName.value)), registered - {c})
      else if env.fetchFails || (req.shuffle && env.questionsExist) then
        (Rejected(DatabaseError), registered)
      else if env.sendFails then
        (Rejected(PrepareFailed), registered - {c})
      else
        (Admitted(ChosenSet(req, env)), registered)
  }

  /**
   * Admission of a voice game. Unlike the text game, the voice command
   * shuffles with its own `randomize`, and it claims the guild as well; the
   * unknown-set and failed-send paths give back only the channel.
   */
  function VoiceAdmission(games: set<ChannelId>, guilds: set<GuildId>, guild: GuildId, req: Request, env: Env)
    : (r: (Admission, set<ChannelId>, set<GuildId>))
    requires PickInRange(env)
    ensures !env.inVoice ==> r == (Rejected(NotInVoice), games, guilds)
    ensures env.inVoice && req.channel in games ==> r == (Rejected(ChannelBusy), games, guilds)
    ensures r.0.Rejected? && EarlyRejection(r.0.why) ==> r.1 == games && r.2 == guilds
    ensures r.0.Rejected? && !EarlyRejection(r.0.why) ==> guild !in guilds && r.2 == guilds + {guild}
    ensures r.0.Rejected? && r.0.why != DatabaseError ==> r.1 == games
    ensures r.0 == Rejected(DatabaseError) ==> r.1 == games + {req.channel}
    ensures r.0.Admitted? ==> r.1 == games + {req.channel} && r.2 == guilds + {guild}
    ensures r.0.Admitted? ==> req.channel !in games && guild !in guilds
    ensures r.0.Admitted? ==> r.0.chosen == ChosenSet(req, env) && (r.0.chosen.Some? ==> r.0.chosen.value in env.sets)
  {
    var c := req.channel;
    if !env.inVoice then (Rejected(NotInVoice), games, guilds)
    else if c in games then (Rejected(ChannelBusy), games, guilds)
    else if PermissionCheck(req, env).Some? then (Rejected(PermissionCheck(req, env).value), games, guilds)
    else if guild in guilds then (Rejected(GuildBusy), games, guilds)
    else
      var registered, claimed := games + {c}, guilds + {guild};
      if req.setName.Some? && req.setName.value !in env.sets then
        (Rejected(UnknownSet(req.setName.value)), registered - {c}, claimed)
      else if env.fetchFails then
        (Rejected(DatabaseError), registered, claimed)
      else if env.sendFails then
        (Rejected(PrepareFailed), registered - {c}, claimed)
      else
        (Admitted(ChosenSet(req, env)), registered, claimed)
  }

  /** With `shuffle` on, a text game on a set with questions never starts. */
  lemma TextShuffleFails(games: set<ChannelId>, req: Request, env: Env)
    requires PickInRange(env) && req.shuffle && env.questionsExist
    ensures !TextAdmission(games, req, env).0.Admitted?
  {
  }

  /** `currGames` and `currGuilds`, shared by every game of the bot. */
  class Registry {
    var games: set<ChannelId>
    var guilds: set<GuildId>

    constructor ()
      ensures games == {} && guilds == {}
    {
      games, guilds := {}, {};
    }

    /** The admission steps of src/commands/startgame.js, in place. */
    method AdmitText(req: Request, env: Env) returns (a: Admission)
      requires PickInRange(env)
      modifies this
      ensures (a, games) == TextAdmission(old(games), req, env)
      ensures guilds == old(guilds)
    {
      var c := req.channel;
      if c in games {
        return Rejected(ChannelBusy);
      }
      var denied := PermissionCheck(req, env);
      if denied.Some? {
        return Rejected(denied.value);
      }
      games := games + {c};
      if req.setName.Some? && req.setName.value !in env.sets {
        games := games - {c};
        return Rejected(UnknownSet(req.setName.value));
      }
      if env.fetchFails || (req.shuffle && env.questionsExist) {
        return Rejected(DatabaseError);
      }
      if env.sendFails {
        games := games - {c};
        return Rejected(PrepareFailed);
      }
      a := Admitted(ChosenSet(req, env));
    }

    /** The admission steps of src/commands/startvoicegame.js, in place. */
    method AdmitVoice(guild: GuildId, req: Request, env: Env) returns (a: Admission)
      requires PickInRange(env)
      modifies this
      ensures (a, games, guilds) == VoiceAdmission(old(games), old(guilds), guild, req, env)
    {
      var c := req.channel;
      if !env.inVoice {
        return Rejected(NotInVoice);
      }
      if c in games {
        return Rejected(ChannelBusy);
      }
      var denied := PermissionCheck(req, env);
      if denied.Some? {
        return Rejected(denied.value);
      }
      if guild in guilds {
        return Rejected(GuildBusy);
      }
      games := games + {c};
      guilds := guilds + {guild};
      if req.setName.Some? && req.setName.value !in env.sets {
        games := games - {c};
        return Rejected(UnknownSet(req.setName.value));
      }
      if env.fetchFails {
        return Rejected(DatabaseError);
      }
      if env.sendFails {
        games := games - {c};
        return Rejected(PrepareFailed);
      }
      a := Admitted(ChosenSet(req, env));
    }
  }

  // ---------------------------------------------------------------------
  // After admission: the join collector, the start collector and `endGame`.

  datatype Mode = Text | Voice(guild: GuildId)

  datatype Config = Config(mode: Mode, channel: ChannelId, initiator: UserId)

  datatype Event =
    | Press(user: UserId, username: string, button: Button)
    | Message(author: UserId, content: string)
    | StartTimeout
    | JoinTimeout

  datatype Control = Ready | EndTrivia

  /**
   * The state a session touches. `connected` is the voice connection with
   * its audio player; a text session never has one.
   */
  datatype SessionState = SessionState(
    lobby: LobbyState,
    joinOpen: bool,
    startOpen: bool,
    games: set<ChannelId>,
    guilds: set<GuildId>,
    connected: bool)

  /** The start collector's filter and switch: only the initiator's `ready` or `endtrivia`, in any case. */
  function ControlOf(initiator: UserId, author: UserId, content: string): (c: Option<Control>)
    ensures c.Some? ==> author == initiator
    ensures c == Some(Ready) <==> author == initiator && ToLower(content) == "ready"
    ensures c == Some(EndTrivia) <==> author == initiator && ToLower(content) == "endtrivia"
  {
    if author != initiator then None
    else if ToLower(content) == "ready" then Some(Ready)
    else if ToLower(content) == "endtrivia" then Some(EndTrivia)
    else None
  }

  /** A button press is one of the buttons on the lobby message. */
  predicate PressAllowed(s: SessionState, e: Event) {
    e.Press? ==> ValidButton(e.button, |s.lobby.teams|)
  }

  /**
   * `endGame`: stops both collectors and gives back the channel; a voice game
   * also stops its audio, leaves the voice channel and gives back the guild.
   */
  function Ended(cfg: Config, s: SessionState): SessionState {
    var s' := s.(joinOpen := false, startOpen := false, games := s.games - {cfg.channel});
    match cfg.mode
    case Text => s'
    case Voice(guild) => s'.(guilds := s.guilds - {guild}, connected := false)
  }

  /**
   * One event. `gameCompletes` says whether the game started by `ready`
   * returns (then the channel is given back) or throws.
   */
  function Step(cfg: Config, s: SessionState, e: Event, gameCompletes: bool): (s': SessionState)
    requires Consistent(s.lobby) && PressAllowed(s, e)
    ensures |s'.lobby.teams| == |s.lobby.teams|
  {
    match e
    case Press(user, username, b) =>
      if s.joinOpen then s.(lobby := ClickStep(s.lobby, user, username, b).0) else s
    case JoinTimeout => s.(joinOpen := false)
    case StartTimeout => if s.startOpen then Ended(cfg, s) else s
    case Message(author, content) =>
      if !s.startOpen then s
      else match ControlOf(cfg.initiator, author, content)
        case None => s
        case Some(Ready) =>
          if |s.lobby.players| == 0 then s
          else
            var playing := s.(joinOpen := false, startOpen := false);
            if gameCompletes then playing.(games := playing.games - {cfg.channel}) else playing
        case Some(EndTrivia) => Ended(cfg, s)
  }

  /** Every event keeps the lobby invariant. */
  lemma StepKeepsConsistent(cfg: Config, s: SessionState, e: Event, g: bool)
    requires Consistent(s.lobby) && PressAllowed(s, e)
    ensures Consistent(Step(cfg, s, e, g).lobby)
  {
    if e.Press? && s.joinOpen {
      ClickKeepsConsistent(s.lobby, e.user, e.username, e.button);
    }
  }

  /** Messages from anyone but the initiator change nothing. */
  lemma OthersCannotControl(cfg: Config, s: SessionState, author: UserId, content: string, g: bool)
    requires Consistent(s.lobby) && author != cfg.initiator
    ensures Step(cfg, s, Message(author, content), g) == s
  {
  }

  /** `ready` with no players changes nothing. */
  lemma ReadyNeedsPlayers(cfg: Config, s: SessionState, content: string, g: bool)
    requires Consistent(s.lobby) && |s.lobby.players| == 0
    requires ToLower(content) == "ready"
    ensures Step(cfg, s, Message(cfg.initiator, content), g) == s
  {
  }

  /**
   * `ready` with players closes both collectors, leaves the lobby as it is
   * and, once the game returns, gives back the channel only: the start
   * collector stops with reason `user`, so `endGame` does not run and a voice
   * game keeps its guild and connection.
   */
  lemma ReadyReleasesChannelOnly(cfg: Config, s: SessionState, content: string, g: bool)
    requires Consistent(s.lobby) && s.startOpen && |s.lobby.players| > 0
    requires ToLower(content) == "ready"
    ensures var s' := Step(cfg, s, Message(cfg.initiator, content), g);
      && !s'.startOpen && !s'.joinOpen
      && s'.lobby == s.lobby
      && s'.games == (if g then s.games - {cfg.channel} else s.games)
      && s'.guilds == s.guilds
      && s'.connected == s.connected
  {
  }

  /** `endtrivia` from the initiator and the start time-out both run `endGame`. */
  lemma EndTriviaReleases(cfg: Config, s: SessionState, content: string, g: bool)
    requires Consistent(s.lobby) && s.startOpen
    requires ToLower(content) == "endtrivia"
    ensures var s' := Step(cfg, s, Message(cfg.initiator, content), g);
      && s' == Step(cfg, s, StartTimeout, g)
      && !s'.startOpen && !s'.joinOpen
      && s'.games == s.games - {cfg.channel}
      && (cfg.mode.Text? ==> s'.guilds == s.guilds && s'.connected == s.connected)
      && (cfg.mode.Voice? ==> s'.guilds == s.guilds - {cfg.mode.guild} && !s'.connected)
  {
  }

  /** A run of events. */
  function Run(cfg: Config, s: SessionState, es: seq<Event>, g: bool): (s': SessionState)
    requires Consistent(s.lobby)
    requires forall k :: 0 <= k < |es| ==> es[k].Press? ==> ValidButton(es[k].button, |s.lobby.teams|)
    ensures Consistent(s'.lobby) && |s'.lobby.teams| == |s.lobby.teams|
    decreases |es|
  {
    if es == [] then s
    else
      StepKeepsConsistent(cfg, s, es[0], g);
      Run(cfg, Step(cfg, s, es[0], g), es[1..], g)
  }

  /** Once the start collector has closed, so has the join collector. */
  ghost predicate Settled(s: SessionState) {
    !s.startOpen ==> !s.joinOpen
  }

  lemma StepKeepsSettled(cfg: Config, s: SessionState, e: Event, g: bool)
    requires Consistent(s.lobby) && PressAllowed(s, e) && Settled(s)
    ensures Settled(Step(cfg, s, e, g))
  {
  }

  /** After both collectors have closed, no event changes anything. */
  lemma {:induction false} ClosedIsFinal(cfg: Config, s: SessionState, es: seq<Event>, g: bool)
    requires Consistent(s.lobby) && !s.startOpen && !s.joinOpen
    requires forall k :: 0 <= k < |es| ==> es[k].Press? ==> ValidButton(es[k].button, |s.lobby.teams|)
    ensures Run(cfg, s, es, g) == s
    decreases |es|
  {
    if es != [] {
      assert Step(cfg, s, es[0], g) == s;
      ClosedIsFinal(cfg, s, es[1..], g);
    }
  }

  /**
   * A voice game started with `ready` keeps its guild registered whatever
   * happens afterwards: no later event runs `endGame`.
   */
  lemma ReadyStartedKeepsGuild(cfg: Config, s: SessionState, content: string, es: seq<Event>, g: bool)
    requires Consistent(s.lobby) && s.startOpen && |s.lobby.players| > 0
    requires ToLower(content) == "ready"
    requires forall k :: 0 <= k < |es| ==> es[k].Press? ==> ValidButton(es[k].button, |s.lobby.teams|)
    ensures var s1 := Step(cfg, s, Message(cfg.initiator, content), g);
      Run(cfg, s1, es, g).guilds == s.guilds
  {
    var s1 := Step(cfg, s, Message(cfg.initiator, content), g);
    ReadyReleasesChannelOnly(cfg, s, content, g);
    ClosedIsFinal(cfg, s1, es, g);
  }

  /** A session after admission: lobby, both collectors and the voice connection. */
  class Session {
    const cfg: Config
    const registry: Registry
    const lobby: Lobby
    var joinOpen: bool
    var startOpen: bool
    var connected: bool

    function State(): SessionState
      reads this, registry, lobby
    {
      SessionState(lobby.State(), joinOpen, startOpen, registry.games, registry.guilds, connected)
    }

    /** The session an admitted request opens: an empty lobby, both collectors open. */
    constructor (cfg: Config, registry: Registry, teamNames: seq<string>, numTeams: nat)
      requires numTeams <= |teamNames|
      ensures this.cfg == cfg && this.registry == registry && fresh(lobby)
      ensures State() == SessionState(LobbyState(map[], InitialTeams(teamNames, numTeams)),
                                       true, true, registry.games, registry.guilds, cfg.mode.Voice?)
      ensures Consistent(State().lobby)
    {
      this.cfg := cfg;
      this.registry := registry;
      lobby := new Lobby(teamNames, numTeams);
      joinOpen, startOpen := true, true;
      connected := cfg.mode.Voice?;
    }

    /** `endGame`, in place. */
    method EndGame()
      modifies this, registry
      ensures State() == Ended(cfg, old(State()))
    {
      joinOpen, startOpen := false, false;
      registry.games := registry.games - {cfg.channel};
      if cfg.mode.Voice? {
        registry.guilds := registry.guilds - {cfg.mode.guild};
        connected := false;
      }
    }

    /** The collectors' handlers for one event. */
    method Handle(e: Event, gameCompletes: bool)
      requires Consistent(lobby.State()) && PressAllowed(State(), e)
      modifies this, registry, lobby
      ensures State() == Step(cfg, old(State()), e, gameCompletes)
      ensures Consistent(lobby.State())
    {
      StepKeepsConsistent(cfg, State(), e, gameCompletes);
      match e {
        case Press(user, username, b) =>
          if joinOpen {
            var _ := lobby.Click(user, username, b);
          }
        case JoinTimeout =>
          joinOpen := false;
        case StartTimeout =>
          if startOpen {
            EndGame();
          }
        case Message(author, content) =>
          if startOpen {
            var control := ControlOf(cfg.initiator, author, content);
            if control == Some(Ready) && |lobby.players| > 0 {
              joinOpen, startOpen := false, false;
              if gameCompletes {
                registry.games := registry.games - {cfg.channel};
              }
            } else if control == Some(EndTrivia) {
              EndGame();
            }
          }
      }
    }
  }
}
