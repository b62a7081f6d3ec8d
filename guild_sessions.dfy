/** The Discord bot's per-guild session coordinator
    (lol_coach_bot/discord_bot_cloud.py): the registry of `GuildState`
    objects keyed by guild id, the commands that write them, the prompt that
    `ask` assembles and the client count `status` reports. The relay
    server's `active_games`, `clients` and `user_tokens` tables are inputs. */
module GuildSessions {
  import opened Common
  import opened Text

  type GuildId = int
  type UserId = int
  type ChannelId = int
  type Token = string

  const DEFAULT_BOT_NAME := "Treinador Virtual"

  /** The value of one `GuildState`. The game analyser and the audio queue
      are not part of it. */
  datatype GuildView = GuildView(
    guildId: GuildId,
    monitoring: bool,
    voiceClient: Option<int>,
    monitoredPlayers: seq<string>,
    lastTips: seq<string>,
    botName: string,
    textChannel: Option<ChannelId>,
    userTokens: map<UserId, Token>)

  /** `GuildState(guild_id)`. */
  function DefaultView(g: GuildId): (v: GuildView)
    ensures v.guildId == g && !v.monitoring && v.voiceClient.None?
    ensures v.monitoredPlayers == [] && v.lastTips == [] && v.userTokens == map[]
    ensures v.botName == DEFAULT_BOT_NAME && v.textChannel.None?
  {
    GuildView(g, false, None, [], [], DEFAULT_BOT_NAME, None, map[])
  }

  // ---------------------------------------------------------------------
  // One guild's commands, on values

  datatype StartReply = AlreadyMonitoring | Started
  datatype StopReply = NotMonitoring | Stopped

  /** `start`: a second start only warns; otherwise monitoring begins in the
      calling channel with no tips remembered. */
  function StartView(v: GuildView, channel: ChannelId): (out: (GuildView, StartReply))
    ensures out.1 == AlreadyMonitoring <==> v.monitoring
    ensures v.monitoring ==> out.0 == v
    ensures !v.monitoring ==>
      out.0 == v.(monitoring := true, textChannel := Some(channel), lastTips := [])
  {
    if v.monitoring then (v, AlreadyMonitoring)
    else (v.(monitoring := true, textChannel := Some(channel), lastTips := []), Started)
  }

  /** `stop`: without monitoring it only warns; otherwise monitoring ends and
      the tips are forgotten (the text channel stays as it was). */
  function StopView(v: GuildView): (out: (GuildView, StopReply))
    ensures out.1 == NotMonitoring <==> !v.monitoring
    ensures !v.monitoring ==> out.0 == v
    ensures v.monitoring ==> out.0 == v.(monitoring := false, lastTips := [])
  {
    if !v.monitoring then (v, NotMonitoring)
    else (v.(monitoring := false, lastTips := []), Stopped)
  }

  /** After any start the guild is monitoring; after any stop it is not. */
  lemma {:induction false} StartStopModes(v: GuildView, channel: ChannelId)
    ensures StartView(v, channel).0.monitoring
    ensures !StopView(v).0.monitoring
    ensures StartView(StartView(v, channel).0, channel) == (StartView(v, channel).0, AlreadyMonitoring)
    ensures StopView(StopView(v).0) == (StopView(v).0, NotMonitoring)
  {
  }

  /** Starting and then stopping an idle guild gives back the idle state with
      no tips and the new text channel; nothing else changes. */
  lemma {:induction false} StartThenStop(v: GuildView, channel: ChannelId)
    requires !v.monitoring
    ensures StartView(v, channel).1 == Started
    ensures StopView(StartView(v, channel).0) ==
      (v.(lastTips := [], textChannel := Some(channel)), Stopped)
  {
  }

  /** The lifecycle as a sequence of commands. */
  datatype Command = Start(channel: ChannelId) | Stop

  function Run(v: GuildView, cs: seq<Command>): GuildView
    decreases |cs|
  {
    if cs == [] then v
    else
      var next := match cs[0]
        case Start(ch) => StartView(v, ch).0
        case Stop => StopView(v).0;
      Run(next, cs[1..])
  }

  /** Whatever the commands, they touch only `monitoring`, `text_channel`
      and `last_tips`; the mode afterwards is set by the last command; the
      tips are either never touched or cleared, and cleared whenever the
      mode changed. */
  lemma {:induction false} RunKeepsOthers(v: GuildView, cs: seq<Command>)
    ensures var w := Run(v, cs);
      && w.guildId == v.guildId && w.voiceClient == v.voiceClient
      && w.monitoredPlayers == v.monitoredPlayers && w.botName == v.botName
      && w.userTokens == v.userTokens
    ensures cs != [] ==> Run(v, cs).monitoring == cs[|cs| - 1].Start?
    ensures Run(v, cs).lastTips == v.lastTips || Run(v, cs).lastTips == []
    ensures Run(v, cs).monitoring != v.monitoring ==> Run(v, cs).lastTips == []
    decreases |cs|
  {
    if cs != [] {
      var next := match cs[0]
        case Start(ch) => StartView(v, ch).0
        case Stop => StopView(v).0;
      RunKeepsOthers(next, cs[1..]);
      if cs[1..] != [] {
        assert cs[1..][|cs[1..]| - 1] == cs[|cs| - 1];
      }
      if next != v {
        RunKeepsTipsCleared(next, cs[1..]);
      }
    }
  }

  /** From a state with no tips, tips stay empty. */
  lemma {:induction false} RunKeepsTipsCleared(v: GuildView, cs: seq<Command>)
    requires v.lastTips == []
    ensures Run(v, cs).lastTips == []
    decreases |cs|
  {
    if cs != [] {
      var next := match cs[0]
        case Start(ch) => StartView(v, ch).0
        case Stop => StopView(v).0;
      RunKeepsTipsCleared(next, cs[1..]);
    }
  }

  /** `setname`. */
  function RenameView(v: GuildView, name: string): (w: GuildView)
    ensures w.botName == name && w.(botName := v.botName) == v
  {
    v.(botName := name)
  }

  /** `gettoken`: the author's entry in this guild's token table is
      overwritten by the token the relay server issued. */
  function StoreToken(v: GuildView, author: UserId, token: Token): (w: GuildView)
    ensures author in w.userTokens && w.userTokens[author] == token
    ensures w.userTokens.Keys == v.userTokens.Keys + {author}
    ensures forall u :: u in v.userTokens && u != author ==> w.userTokens[u] == v.userTokens[u]
    ensures w.(userTokens := v.userTokens) == v
  {
    v.(userTokens := v.userTokens[author := token])
  }

  /** Asking twice for a token keeps only the second one. */
  lemma {:induction false} StoreTokenTwice(v: GuildView, author: UserId, t1: Token, t2: Token)
    ensures StoreToken(StoreToken(v, author, t1), author, t2) == StoreToken(v, author, t2)
  {
    assert StoreToken(StoreToken(v, author, t1), author, t2).userTokens
        == StoreToken(v, author, t2).userTokens;
  }

  // ---------------------------------------------------------------------
  // The registry, on values

  /** `get_guild_state`: the entry for `g` exists afterwards; a missing one
      is created with the defaults. */
  function Touch(views: map<GuildId, GuildView>, g: GuildId): (r: map<GuildId, GuildView>)
    ensures g in r && r.Keys == views.Keys + {g}
    ensures g in views ==> r[g] == views[g]
    ensures g !in views ==> r[g] == DefaultView(g)
    ensures forall h :: h in views ==> r[h] == views[h]
  {
    if g in views then views else views[g := DefaultView(g)]
  }

  /** Looking a guild up twice is looking it up once, and a lookup never
      changes an existing entry. */
  lemma {:induction false} TouchIdempotent(views: map<GuildId, GuildView>, g: GuildId, h: GuildId)
    ensures Touch(Touch(views, g), g) == Touch(views, g)
    ensures Touch(Touch(views, g), h) == Touch(Touch(views, h), g)
    ensures g in views ==> Touch(views, g) == views
  {
  }

  /** `on_guild_remove`. */
  function Forget(views: map<GuildId, GuildView>, g: GuildId): (r: map<GuildId, GuildView>)
    ensures r.Keys == views.Keys - {g}
    ensures forall h :: h in r ==> r[h] == views[h]
  {
    views - {g}
  }

  /** Removing a guild the bot holds no state for changes nothing, and a
      guild that was looked up and then left is gone as if never seen. */
  lemma {:induction false} ForgetProperties(views: map<GuildId, GuildView>, g: GuildId)
    ensures g !in views ==> Forget(views, g) == views
    ensures Forget(Touch(views, g), g) == Forget(views, g)
    ensures Forget(Forget(views, g), g) == Forget(views, g)
  {
  }

  // ---------------------------------------------------------------------
  // ask: context and messages

  /** What the relay server holds for one running game. The active player
      and the game data map a key to the text the f-string shows for its
      value. A roster entry maps a key to its string value, or to None for
      a value that is not a string (null, a number), which `join` refuses. */
  datatype GameSnapshot = GameSnapshot(
    activePlayer: map<string, string>,
    allPlayers: seq<map<string, Option<string>>>,
    gameData: map<string, string>)

  /** `d.get(key)` inside an f-string: a missing key shows as `None`. */
  function Shown(d: map<string, string>, key: string): string
  {
    if key in d then d[key] else "None"
  }

  /** What a message says; `Text` renders it as the string sent. */
  datatype Content =
    | Persona(botName: string, displayName: string)
    | GameContext(context: string)
    | Question(question: string)
  {
    function Text(): string
    {
      match this
      case Persona(botName, displayName) => SystemPrompt(botName, displayName)
      case GameContext(context) => "Contexto atual do jogo: " + context
      case Question(question) => question
    }
  }

  datatype Message = Message(role: string, content: Content)

  datatype AskResult =
    | Prompt(messages: seq<Message>)
    /** `', '.join` met a player whose `championName` is missing or not a
        string, and raised. */
    | AskFailed

  /** The snapshot `ask` consults: only through a non-empty token of the
      author's in this guild. */
  function SnapshotFor(tokens: map<UserId, Token>, author: UserId, games: map<Token, GameSnapshot>)
    : (s: Option<GameSnapshot>)
    ensures s.Some? <==> author in tokens && tokens[author] != "" && tokens[author] in games
    ensures s.Some? ==> s.value == games[tokens[author]]
  {
    if author in tokens && tokens[author] != "" && tokens[author] in games
    then Some(games[tokens[author]])
    else None
  }

  /** A roster entry whose `championName` is present and a string. */
  predicate HasChampion(p: map<string, Option<string>>)
  {
    "championName" in p && p["championName"].Some?
  }

  /** The champion names of the roster, or None when one is missing or is
      not a string. */
  function ChampionNames(players: seq<map<string, Option<string>>>): (r: Option<seq<string>>)
    ensures r.None? <==> exists i :: 0 <= i < |players| && !HasChampion(players[i])
    ensures r.Some? ==> (|r.value| == |players|
      && forall i :: 0 <= i < |players| ==> Some(r.value[i]) == players[i]["championName"])
    decreases |players|
  {
    if players == [] then Some([])
    else if !HasChampion(players[0]) then None
    else match ChampionNames(players[1..])
      case None => None
      case Some(rest) => Some([players[0]["championName"].value] + rest)
  }

  /** The sentence about the active player. */
  function ActivePlayerText(p: map<string, string>): string
  {
    "O jogador ativo é " + Shown(p, "summonerName") + " jogando com " + Shown(p, "championName") + ". "
    + "Ele está no nível " + Shown(p, "level") + " e tem " + Shown(p, "currentGold") + " de ouro. "
  }

  function GameTimeText(d: map<string, string>): string
  {
    "O tempo de jogo atual é de " + Shown(d, "gameTime") + " segundos. "
  }

  function RosterText(names: seq<string>): string
  {
    "Os campeões no jogo são: " + Join(names, ", ") + ". "
  }

  /** The context string: one part per non-empty section, in order. */
  function Context(snapshot: Option<GameSnapshot>): Option<string>
  {
    match snapshot
    case None => Some("")
    case Some(s) =>
      var a := if s.activePlayer != map[] then ActivePlayerText(s.activePlayer) else "";
      var b := if s.gameData != map[] then GameTimeText(s.gameData) else "";
      if s.allPlayers == [] then Some(a + b)
      else match ChampionNames(s.allPlayers)
        case None => None
        case Some(names) => Some(a + b + RosterText(names))
  }

  /** Without a snapshot the context is empty; with one it fails exactly
      when a roster entry lacks its champion or holds a non-string one, and
      is empty exactly when all three sections are. */
  lemma {:induction false} ContextCases(snapshot: Option<GameSnapshot>)
    ensures snapshot.None? ==> Context(snapshot) == Some("")
    ensures snapshot.Some? ==>
      (Context(snapshot).None? <==> exists i :: 0 <= i < |snapshot.value.allPlayers| &&
                                               !HasChampion(snapshot.value.allPlayers[i]))
    ensures Context(snapshot) == Some("") <==> (snapshot.None? ||
      (snapshot.value.activePlayer == map[] && snapshot.value.gameData == map[] &&
       snapshot.value.allPlayers == []))
  {
    if snapshot.Some? {
      var s := snapshot.value;
      var a := if s.activePlayer != map[] then ActivePlayerText(s.activePlayer) else "";
      var b := if s.gameData != map[] then GameTimeText(s.gameData) else "";
      assert s.activePlayer != map[] ==> |a| > 0;
      assert s.gameData != map[] ==> |b| > 0;
      if s.allPlayers != [] {
        var names := ChampionNames(s.allPlayers);
        if names.Some? {
          assert Context(snapshot) == Some(a + b + RosterText(names.value));
          assert |RosterText(names.value)| > 0;
        }
      } else {
        assert Context(snapshot) == Some(a + b);
        assert |a + b| == |a| + |b|;
      }
    }
  }

  function SystemPrompt(botName: string, displayName: string): string
  {
    "Você é um treinador virtual de League of Legends chamado " + botName
    + ". Forneça dicas e responda a perguntas de forma útil e concisa, baseando-se no contexto do jogo fornecido. "
    + "Use português do Brasil. Mantenha um tom de coach profissional e encorajador. "
    + "Ao se dirigir ao usuário, use o nome dele: " + displayName + "."
  }

  /** The message list `ask` sends: the system prompt, the game context when
      there is one, and the question. */
  function AskMessages(botName: string, tokens: map<UserId, Token>, author: UserId, displayName: string,
                       question: string, games: map<Token, GameSnapshot>): AskResult
  {
    match Context(SnapshotFor(tokens, author, games))
    case None => AskFailed
    case Some(context) =>
      var head := [Message("system", Persona(botName, displayName))];
      var middle := if context != "" then [Message("system", GameContext(context))] else [];
      Prompt(head + middle + [Message("user", Question(question))])
  }

  /** The shape of the prompt: it fails exactly when the context does;
      otherwise it is the system prompt, then the context message exactly
      when the context is non-empty, then the question. */
  lemma {:induction false} AskShape(botName: string, tokens: map<UserId, Token>, author: UserId, displayName: string,
                 question: string, games: map<Token, GameSnapshot>)
    ensures var r := AskMessages(botName, tokens, author, displayName, question, games);
      r.AskFailed? <==> Context(SnapshotFor(tokens, author, games)).None?
    ensures var r := AskMessages(botName, tokens, author, displayName, question, games);
      r.Prompt? ==>
      var ms := r.messages;
      var context := Context(SnapshotFor(tokens, author, games)).value;
      && 2 <= |ms| <= 3
      && ms[0] == Message("system", Persona(botName, displayName))
      && ms[|ms| - 1] == Message("user", Question(question))
      && (|ms| == 3 <==> context != "")
      && (|ms| == 3 ==> ms[1] == Message("system", GameContext(context)))
  {
  }

  /** Without a token of the author's in this guild, or without a snapshot
      for it, the prompt is the system message and the question alone. */
  lemma {:induction false} AskWithoutGame(botName: string, tokens: map<UserId, Token>, author: UserId, displayName: string,
                       question: string, games: map<Token, GameSnapshot>)
    requires author !in tokens || tokens[author] == "" || tokens[author] !in games
    ensures AskMessages(botName, tokens, author, displayName, question, games) ==
      Prompt([Message("system", Persona(botName, displayName)), Message("user", Question(question))])
  {
  }

  /** Other users' tokens never affect the prompt. */
  lemma {:induction false} AskReadsOnlyAuthorsToken(botName: string, tokens: map<UserId, Token>, other: map<UserId, Token>,
                                 author: UserId, displayName: string, question: string,
                                 games: map<Token, GameSnapshot>)
    requires (author in tokens) == (author in other)
    requires author in tokens ==> tokens[author] == other[author]
    ensures AskMessages(botName, tokens, author, displayName, question, games) ==
            AskMessages(botName, other, author, displayName, question, games)
  {
    assert SnapshotFor(tokens, author, games) == SnapshotFor(other, author, games);
  }

  /** The prompt as `ask` builds it: the snapshot through the author's
      token, the context, and the messages appended in order. */
  method AssemblePrompt(botName: string, tokens: map<UserId, Token>, author: UserId, displayName: string,
                        question: string, games: map<Token, GameSnapshot>) returns (r: AskResult)
    ensures r == AskMessages(botName, tokens, author, displayName, question, games)
  {
    var token: Option<Token> := if author in tokens then Some(tokens[author]) else None;
    var gameData: Option<GameSnapshot> := None;
    if token.Some? && token.value != "" && token.value in games {
      gameData := Some(games[token.value]);
    }
    assert gameData == SnapshotFor(tokens, author, games);
    var context := BuildContext(gameData);
    if context.None? {
      return AskFailed;
    }
    var messages := [Message("system", Persona(botName, displayName))];
    if context.value != "" {
      messages := messages + [Message("system", GameContext(context.value))];
    }
    messages := messages + [Message("user", Question(question))];
    r := Prompt(messages);
  }

  /** The context as `ask` accumulates it with `+=`. */
  method BuildContext(gameData: Option<GameSnapshot>) returns (r: Option<string>)
    ensures r == Context(gameData)
  {
    var context := "";
    if gameData.Some? {
      var data := gameData.value;
      if data.activePlayer != map[] {
        context := context + ActivePlayerText(data.activePlayer);
      }
      assert context == if data.activePlayer != map[] then ActivePlayerText(data.activePlayer) else "";
      if data.gameData != map[] {
        context := context + GameTimeText(data.gameData);
      }
      assert context == (if data.activePlayer != map[] then ActivePlayerText(data.activePlayer) else "")
                      + (if data.gameData != map[] then GameTimeText(data.gameData) else "");
      if data.allPlayers != [] {
        var names := ChampionNames(data.allPlayers);
        if names.None? {
          return None;
        }
        context := context + RosterText(names.value);
      }
    }
    r := Some(context);
  }

  // ---------------------------------------------------------------------
  // status: connected local clients

  /** What the relay server records for an issued token. */
  datatype TokenInfo = TokenInfo(userId: UserId, guildId: GuildId, displayName: string)

  /** The tokens issued for guild `g`. */
  function GuildTokens(issued: map<Token, TokenInfo>, g: GuildId): (r: set<Token>)
    ensures forall t :: t in r <==> t in issued && issued[t].guildId == g
  {
    set t | t in issued && issued[t].guildId == g
  }

  /** The count `status` shows: issued tokens of this guild whose client is
      connected. */
  function ConnectedClients(issued: map<Token, TokenInfo>, clients: set<Token>, g: GuildId): (n: nat)
    ensures n == |GuildTokens(issued, g) * clients|
    ensures n <= |clients| && n <= |GuildTokens(issued, g)|
  {
    var connected := set t | t in issued && issued[t].guildId == g && t in clients;
    assert connected == GuildTokens(issued, g) * clients;
    assert connected <= clients;
    assert connected <= GuildTokens(issued, g);
    SubsetCard(connected, clients);
    SubsetCard(connected, GuildTokens(issued, g));
    |connected|
  }

  lemma {:induction false} SubsetCard<T>(a: set<T>, b: set<T>)
    requires a <= b
    ensures |a| <= |b|
  {
    if a != {} {
      var x :| x in a;
      SubsetCard(a - {x}, b - {x});
    }
  }

  /** A client of another guild connecting or a token of another guild
      being issued leaves the count unchanged; one of this guild's issued
      tokens connecting raises it by one. */
  lemma {:induction false} ConnectedClientsChanges(issued: map<Token, TokenInfo>, clients: set<Token>, g: GuildId, t: Token)
    requires t !in clients
    ensures t !in issued || issued[t].guildId != g ==>
      ConnectedClients(issued, clients + {t}, g) == ConnectedClients(issued, clients, g)
    ensures t in issued && issued[t].guildId == g ==>
      ConnectedClients(issued, clients + {t}, g) == ConnectedClients(issued, clients, g) + 1
  {
    var before := GuildTokens(issued, g) * clients;
    var after := GuildTokens(issued, g) * (clients + {t});
    if t in issued && issued[t].guildId == g {
      assert after == before + {t};
    } else {
      assert after == before;
    }
  }

  // ---------------------------------------------------------------------
  // The objects

  /** One guild's mutable session state. */
  class GuildState {
    const guildId: GuildId
    var monitoring: bool
    var voiceClient: Option<int>
    var monitoredPlayers: seq<string>
    var lastTips: seq<string>
    var botName: string
    var textChannel: Option<ChannelId>
    var userTokens: map<UserId, Token>

    function View(): GuildView
      reads this
    {
      GuildView(guildId, monitoring, voiceClient, monitoredPlayers, lastTips, botName, textChannel, userTokens)
    }

    constructor (g: GuildId)
      ensures View() == DefaultView(g)
    {
      guildId := g;
      monitoring := false;
      voiceClient := None;
      monitoredPlayers := [];
      lastTips := [];
      botName := DEFAULT_BOT_NAME;
      textChannel := None;
      userTokens := map[];
    }

    /** The writes `start` makes on the state object. */
    method Start(channel: ChannelId) returns (r: StartReply)
      modifies this
      ensures (View(), r) == StartView(old(View()), channel)
    {
      if monitoring {
        r := AlreadyMonitoring;
      } else {
        monitoring := true;
        textChannel := Some(channel);
        lastTips := [];
        r := Started;
      }
    }

    /** The writes `stop` makes on the state object. */
    method Stop() returns (r: StopReply)
      modifies this
      ensures (View(), r) == StopView(old(View()))
    {
      if !monitoring {
        r := NotMonitoring;
      } else {
        monitoring := false;
        lastTips := [];
        r := Stopped;
      }
    }
  }

  /** `bot.guild_states`. */
  class Bot {
    var guildStates: map<GuildId, GuildState>

    /** Each guild has its own state object, recorded under its own id. */
    ghost predicate Valid()
      reads this
    {
      && (forall g, h :: g in guildStates && h in guildStates && g != h ==> guildStates[g] != guildStates[h])
      && (forall g :: g in guildStates ==> guildStates[g].guildId == g)
    }

    /** The registry's value. */
    function Views(): (vs: map<GuildId, GuildView>)
      reads this, guildStates.Values
      ensures vs.Keys == guildStates.Keys
      ensures forall g :: g in guildStates ==> vs[g] == guildStates[g].View()
    {
      map g | g in guildStates :: guildStates[g].View()
    }

    constructor ()
      ensures Valid() && Views() == map[]
    {
      guildStates := map[];
    }

    /** When only guild `g`'s object was written, the registry changed in
        that entry alone. */
    twostate lemma {:induction false} ViewsAfterWrite(g: GuildId)
      requires unchanged(this) && Valid() && g in guildStates
      requires forall h :: h in guildStates && h != g ==> unchanged(guildStates[h])
      ensures Views() == old(Views())[g := guildStates[g].View()]
    {
      var expected := old(Views())[g := guildStates[g].View()];
      forall h | h in guildStates
        ensures Views()[h] == expected[h]
      {
        if h != g {
          assert old(guildStates[h].View()) == guildStates[h].View();
        }
      }
      assert Views().Keys == expected.Keys;
    }

    method GetGuildState(g: GuildId) returns (s: GuildState)
      requires Valid()
      modifies this
      ensures Valid()
      ensures g in guildStates && s == guildStates[g]
      ensures Views() == Touch(old(Views()), g)
      ensures g in old(guildStates) ==> guildStates == old(guildStates)
      ensures g !in old(guildStates) ==> fresh(s) && guildStates == old(guildStates)[g := s]
    {
      if g !in guildStates {
        s := new GuildState(g);
        guildStates := guildStates[g := s];
        assert Views() == old(Views())[g := DefaultView(g)];
      } else {
        s := guildStates[g];
      }
    }

    method OnGuildRemove(g: GuildId)
      requires Valid()
      modifies this
      ensures Valid()
      ensures guildStates == old(guildStates) - {g}
      ensures Views() == Forget(old(Views()), g)
    {
      if g in guildStates {
        guildStates := guildStates - {g};
      }
      assert Views() == Forget(old(Views()), g);
    }

    /** `gettoken`; the token is the one the relay server generates. */
    method GetToken(g: GuildId, author: UserId, token: Token)
      requires Valid()
      modifies this, guildStates.Values
      ensures Valid()
      ensures var t := Touch(old(Views()), g); Views() == t[g := StoreToken(t[g], author, token)]
    {
      var s := GetGuildState(g);
      label touched:
      s.userTokens := s.userTokens[author := token];
      ViewsAfterWrite@touched(g);
    }

    method StartMonitoring(g: GuildId, channel: ChannelId) returns (r: StartReply)
      requires Valid()
      modifies this, guildStates.Values
      ensures Valid()
      ensures var t := Touch(old(Views()), g);
        (Views(), r) == (t[g := StartView(t[g], channel).0], StartView(t[g], channel).1)
    {
      var s := GetGuildState(g);
      label touched:
      r := s.Start(channel);
      ViewsAfterWrite@touched(g);
    }

    method StopMonitoring(g: GuildId) returns (r: StopReply)
      requires Valid()
      modifies this, guildStates.Values
      ensures Valid()
      ensures var t := Touch(old(Views()), g);
        (Views(), r) == (t[g := StopView(t[g]).0], StopView(t[g]).1)
    {
      var s := GetGuildState(g);
      label touched:
      r := s.Stop();
      ViewsAfterWrite@touched(g);
    }

    method SetBotName(g: GuildId, name: string)
      requires Valid()
      modifies this, guildStates.Values
      ensures Valid()
      ensures var t := Touch(old(Views()), g); Views() == t[g := RenameView(t[g], name)]
    {
      var s := GetGuildState(g);
      label touched:
      s.botName := name;
      ViewsAfterWrite@touched(g);
    }

    /** `ask` up to the model call. */
    method Ask(g: GuildId, author: UserId, displayName: string, question: string,
               games: map<Token, GameSnapshot>) returns (r: AskResult)
      requires Valid()
      modifies this
      ensures Valid()
      ensures Views() == Touch(old(Views()), g)
      ensures r == AskMessages(Views()[g].botName, Views()[g].userTokens, author, displayName, question, games)
    {
      var s := GetGuildState(g);
      r := AssemblePrompt(s.botName, s.userTokens, author, displayName, question, games);
    }

    /** `status`: the number of this guild's local clients that are connected. */
    method Status(g: GuildId, issued: map<Token, TokenInfo>, clients: set<Token>) returns (count: nat)
      requires Valid()
      modifies this
      ensures Valid()
      ensures Views() == Touch(old(Views()), g)
      ensures count == ConnectedClients(issued, clients, g)
    {
      var s := GetGuildState(g);
      count := ConnectedClients(issued, clients, g);
    }
  }
}
