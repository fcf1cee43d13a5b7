/** The game: a registry of actions keyed by the command that triggers them, the players
    online, and the loop that reads a command and executes its action while the
    administrator is alive. */
module Games {
  import opened Machine
  import opened Players
  import opened Actions

  type Command = seq<byte>

  // Commands are the bytes of ASCII strings.
  const QUIT: Command := [0x2F, 0x71]                                      // "/q"
  const MOVE_ADMIN: Command := [0x2F, 0x6D]                                // "/m"
  const MOVE_PREFIX: Command := [0x2F, 0x6D, 0x6F, 0x76, 0x65, 0x3A]       // "/move:"
  const JOG_PREFIX: Command := [0x2F, 0x6A, 0x6F, 0x67, 0x3A]              // "/jog:"
  const MOUNTAIN_JOG_PREFIX: Command := [0x2F, 0x6D, 0x6A, 0x6F, 0x67, 0x3A] // "/mjog:"

  /** The commands `add` registers for a nickname: a prefix, then the nickname, which can
      be read back after the prefix. */
  function MoveCommand(nickname: seq<byte>): (r: Command)
    ensures |r| == |MOVE_PREFIX| + |nickname| && r[|MOVE_PREFIX|..] == nickname
  {
    MOVE_PREFIX + nickname
  }

  function JogCommand(nickname: seq<byte>): (r: Command)
    ensures |r| == |JOG_PREFIX| + |nickname| && r[|JOG_PREFIX|..] == nickname
  {
    JOG_PREFIX + nickname
  }

  function MountainJogCommand(nickname: seq<byte>): (r: Command)
    ensures |r| == |MOUNTAIN_JOG_PREFIX| + |nickname| && r[|MOUNTAIN_JOG_PREFIX|..] == nickname
  {
    MOUNTAIN_JOG_PREFIX + nickname
  }

  /** The three commands `add` registers for a nickname are distinct from one another
      and from `/q` and `/m`, and the same command for two nicknames is the same only when
      the nicknames are. */
  lemma CommandsDistinct(n: seq<byte>, m: seq<byte>)
    ensures MoveCommand(n) != JogCommand(m) && MoveCommand(n) != MountainJogCommand(m)
    ensures JogCommand(n) != MountainJogCommand(m)
    ensures QUIT != MoveCommand(n) && QUIT != JogCommand(n) && QUIT != MountainJogCommand(n)
    ensures MOVE_ADMIN != MoveCommand(n) && MOVE_ADMIN != JogCommand(n) && MOVE_ADMIN != MountainJogCommand(n)
    ensures MoveCommand(n) == MoveCommand(m) <==> n == m
    ensures JogCommand(n) == JogCommand(m) <==> n == m
    ensures MountainJogCommand(n) == MountainJogCommand(m) <==> n == m
  {
    assert MoveCommand(n)[1] != JogCommand(m)[1];
    assert MoveCommand(n)[2] != MountainJogCommand(m)[2];
    assert JogCommand(n)[1] != MountainJogCommand(m)[1];
    assert |QUIT| == |MOVE_ADMIN| == 2;
    assert |MoveCommand(n)| > 2 && |JogCommand(n)| > 2 && |MountainJogCommand(n)| > 2;
    if MoveCommand(n) == MoveCommand(m) {
      assert n == MoveCommand(n)[|MOVE_PREFIX|..];
    }
    if JogCommand(n) == JogCommand(m) {
      assert n == JogCommand(n)[|JOG_PREFIX|..];
    }
    if MountainJogCommand(n) == MountainJogCommand(m) {
      assert n == MountainJogCommand(n)[|MOUNTAIN_JOG_PREFIX|..];
    }
  }

  /** The registry after `add`: the player's three commands map to a `Move`, a `Jog` and a
      `MountainJog` of that player, replacing what they mapped to before; every other
      command keeps its action. */
  function Register(actions: map<Command, Action>, nickname: seq<byte>, p: Player): (r: map<Command, Action>)
    ensures r.Keys == actions.Keys + {MoveCommand(nickname), JogCommand(nickname), MountainJogCommand(nickname)}
    ensures r[MoveCommand(nickname)] == Action(Move, p)
    ensures r[JogCommand(nickname)] == Action(Jog, p)
    ensures r[MountainJogCommand(nickname)] == Action(MountainJog, p)
    ensures forall k :: k in actions && k !in {MoveCommand(nickname), JogCommand(nickname), MountainJogCommand(nickname)} ==>
      r[k] == actions[k]
  {
    CommandsDistinct(nickname, nickname);
    actions[MoveCommand(nickname) := Action(Move, p)]
           [JogCommand(nickname) := Action(Jog, p)]
           [MountainJogCommand(nickname) := Action(MountainJog, p)]
  }

  /** Adding a nickname a second time overwrites its three commands: only the latest
      player added under that nickname is reachable through them. */
  lemma ReRegisterOverwrites(actions: map<Command, Action>, nickname: seq<byte>, p: Player, q: Player)
    ensures Register(Register(actions, nickname, p), nickname, q) == Register(actions, nickname, q)
  {
  }

  /** Adding a nickname not yet registered adds exactly three commands. */
  lemma RegisterAddsThree(actions: map<Command, Action>, nickname: seq<byte>, p: Player)
    requires MoveCommand(nickname) !in actions && JogCommand(nickname) !in actions
    requires MountainJogCommand(nickname) !in actions
    ensures |Register(actions, nickname, p)| == |actions| + 3
  {
    CommandsDistinct(nickname, nickname);
    var added := {MoveCommand(nickname), JogCommand(nickname), MountainJogCommand(nickname)};
    assert |added| == 3;
    assert actions.Keys !! added;
    assert |actions.Keys + added| == |actions.Keys| + |added|;
  }

  /** `/q` is the administrator's suicide and no other command leads to a suicide. */
  predicate QuitIsOnlySuicide(actions: map<Command, Action>, admin: Player)
  {
    && QUIT in actions && actions[QUIT] == Action(AdminSuicide, admin)
    && (forall k :: k in actions && k != QUIT ==> actions[k].kind != AdminSuicide)
  }

  /** What the registry promises the game loop: `/q` is the only suicide, and every
      action's subscriber is online. */
  predicate RegistryOk(actions: map<Command, Action>, admin: Player, players: seq<Player>)
  {
    && QuitIsOnlySuicide(actions, admin)
    && (forall k :: k in actions ==> actions[k].subscriber in players)
  }

  /** `add` keeps the registry's promise once the player is online. */
  lemma RegisterKeepsRegistryOk(actions: map<Command, Action>, nickname: seq<byte>, p: Player,
                                admin: Player, players: seq<Player>)
    requires RegistryOk(actions, admin, players)
    ensures RegistryOk(Register(actions, nickname, p), admin, players + [p])
  {
    CommandsDistinct(nickname, nickname);
    var r := Register(actions, nickname, p);
    forall k | k in r ensures r[k].subscriber in players + [p] {
      if k in actions && k !in {MoveCommand(nickname), JogCommand(nickname), MountainJogCommand(nickname)} {
        assert r[k].subscriber in players;
      }
    }
  }

  /** The state of every player online, by player. */
  type World = map<Player, PlayerState>

  /** The loop's view of the game on values: `/q` is the only suicide, the administrator and
      every subscriber have a state, and every state keeps the player invariant. */
  predicate WorldOk(actions: map<Command, Action>, admin: Player, w: World)
  {
    && QuitIsOnlySuicide(actions, admin)
    && admin in w
    && (forall k :: k in actions ==> actions[k].subscriber in w)
    && (forall p :: p in w ==> Consistent(w[p]))
  }

  /** Each turn's draws lie in the range of the action its command selects. */
  predicate DrawsInRange(actions: map<Command, Action>, inputs: seq<Command>, draws: seq<Draws>)
  {
    && |draws| == |inputs|
    && forall i :: 0 <= i < |inputs| && inputs[i] in actions ==> InRange(actions[inputs[i]].kind, draws[i])
  }

  /** One turn of `startGameLoop` on values: a registered command's action applies its
      effects to its subscriber's state; every other player, and every player on an
      unregistered command, keeps its state. */
  function StepWorld(actions: map<Command, Action>, w: World, input: Command, d: Draws): (r: World)
    requires input in actions ==> InRange(actions[input].kind, d) && actions[input].subscriber in w
    ensures r.Keys == w.Keys
    ensures forall p :: p in w && (input !in actions || p != actions[input].subscriber) ==> r[p] == w[p]
  {
    if input in actions then
      var a := actions[input];
      w[a.subscriber := Run(w[a.subscriber], Effects(a.kind, d))]
    else w
  }

  /** One turn keeps the loop's view of the game. */
  lemma StepWorldKeepsWorldOk(actions: map<Command, Action>, admin: Player, w: World, input: Command, d: Draws)
    requires WorldOk(actions, admin, w)
    requires input in actions ==> InRange(actions[input].kind, d)
    ensures WorldOk(actions, admin, StepWorld(actions, w, input, d))
  {
    var r := StepWorld(actions, w, input, d);
    forall p | p in r ensures Consistent(r[p]) {
      assert p in w && Consistent(w[p]);
    }
  }

  /** From a living administrator, one turn kills the administrator exactly when the command
      is `/q` and its coin says die. */
  lemma StepWorldKills(actions: map<Command, Action>, admin: Player, w: World, input: Command, d: Draws)
    requires WorldOk(actions, admin, w) && w[admin].health > 0
    requires input in actions ==> InRange(actions[input].kind, d)
    ensures StepWorld(actions, w, input, d)[admin].health == 0 <==> input == QUIT && d.first == 1
  {
    if input in actions {
      var a := actions[input];
      if a.subscriber == admin {
        OnlySuicideKills(a.kind, w[admin], d);
      }
    }
  }

  /** How `startGameLoop` ended: the state of every player, and the number of turns run. */
  datatype Played = Played(world: World, stop: nat)

  /** `startGameLoop` on values from turn `from`: while commands remain and the
      administrator's health is above 0, run the next turn. */
  function Play(actions: map<Command, Action>, admin: Player, w: World,
                inputs: seq<Command>, draws: seq<Draws>, from: nat): (r: Played)
    requires from <= |inputs| && DrawsInRange(actions, inputs, draws)
    requires admin in w && forall k :: k in actions ==> actions[k].subscriber in w
    ensures from <= r.stop <= |inputs|
    ensures r.world.Keys == w.Keys
    ensures r.stop < |inputs| ==> r.world[admin].health == 0
    ensures w[admin].health == 0 ==> r == Played(w, from)
    decreases |inputs| - from
  {
    if from == |inputs| || w[admin].health == 0 then Played(w, from)
    else Play(actions, admin, StepWorld(actions, w, inputs[from], draws[from]), inputs, draws, from + 1)
  }

  /** A turn that runs: `Play` from `from` is `Play` from the next turn, in the world that
      turn leaves, which keeps the loop's view of the game. */
  lemma PlayRunsTurn(actions: map<Command, Action>, admin: Player, w: World,
                     inputs: seq<Command>, draws: seq<Draws>, from: nat) returns (next: World)
    requires from < |inputs| && DrawsInRange(actions, inputs, draws) && WorldOk(actions, admin, w)
    requires w[admin].health > 0
    ensures next == StepWorld(actions, w, inputs[from], draws[from])
    ensures WorldOk(actions, admin, next)
    ensures Play(actions, admin, w, inputs, draws, from) == Play(actions, admin, next, inputs, draws, from + 1)
  {
    next := StepWorld(actions, w, inputs[from], draws[from]);
    StepWorldKeepsWorldOk(actions, admin, w, inputs[from], draws[from]);
  }

  /** The loop ends when the commands run out or the administrator is dead. */
  lemma PlayEnds(actions: map<Command, Action>, admin: Player, w: World,
                 inputs: seq<Command>, draws: seq<Draws>, from: nat)
    requires from <= |inputs| && DrawsInRange(actions, inputs, draws) && WorldOk(actions, admin, w)
    requires from == |inputs| || w[admin].health == 0
    ensures Play(actions, admin, w, inputs, draws, from) == Played(w, from)
  {
  }

  /** Every turn keeps the loop's view of the game. */
  lemma {:induction false} PlayKeepsWorldOk(actions: map<Command, Action>, admin: Player, w: World,
                                             inputs: seq<Command>, draws: seq<Draws>, from: nat)
    requires from <= |inputs| && DrawsInRange(actions, inputs, draws) && WorldOk(actions, admin, w)
    ensures WorldOk(actions, admin, Play(actions, admin, w, inputs, draws, from).world)
    decreases |inputs| - from
  {
    if from < |inputs| && w[admin].health > 0 {
      var next := StepWorld(actions, w, inputs[from], draws[from]);
      StepWorldKeepsWorldOk(actions, admin, w, inputs[from], draws[from]);
      PlayKeepsWorldOk(actions, admin, next, inputs, draws, from + 1);
    }
  }

  /** The loop runs no turn after the first `/q` whose coin says die. */
  lemma {:induction false} PlayStopsAtFirstDyingQuit(actions: map<Command, Action>, admin: Player, w: World,
                                                      inputs: seq<Command>, draws: seq<Draws>, from: nat)
    requires from <= |inputs| && DrawsInRange(actions, inputs, draws) && WorldOk(actions, admin, w)
    ensures forall i :: from <= i < |inputs| && inputs[i] == QUIT && draws[i].first == 1 ==>
      Play(actions, admin, w, inputs, draws, from).stop <= i + 1
    decreases |inputs| - from
  {
    if from < |inputs| && w[admin].health > 0 {
      var next := StepWorld(actions, w, inputs[from], draws[from]);
      StepWorldKeepsWorldOk(actions, admin, w, inputs[from], draws[from]);
      StepWorldKills(actions, admin, w, inputs[from], draws[from]);
      PlayStopsAtFirstDyingQuit(actions, admin, next, inputs, draws, from + 1);
      var _ := PlayRunsTurn(actions, admin, w, inputs, draws, from);
      if next[admin].health == 0 {
        PlayEnds(actions, admin, next, inputs, draws, from + 1);
      }
    }
  }

  /** A loop that kills a living administrator ends on a `/q` whose coin says die. */
  lemma {:induction false} PlayDeathCause(actions: map<Command, Action>, admin: Player, w: World,
                                           inputs: seq<Command>, draws: seq<Draws>, from: nat)
    requires from <= |inputs| && DrawsInRange(actions, inputs, draws) && WorldOk(actions, admin, w)
    requires w[admin].health > 0
    ensures var r := Play(actions, admin, w, inputs, draws, from);
      r.world[admin].health == 0 ==> from < r.stop && inputs[r.stop - 1] == QUIT && draws[r.stop - 1].first == 1
    decreases |inputs| - from
  {
    if from < |inputs| {
      var next := StepWorld(actions, w, inputs[from], draws[from]);
      StepWorldKeepsWorldOk(actions, admin, w, inputs[from], draws[from]);
      StepWorldKills(actions, admin, w, inputs[from], draws[from]);
      var _ := PlayRunsTurn(actions, admin, w, inputs, draws, from);
      if next[admin].health == 0 {
        PlayEnds(actions, admin, next, inputs, draws, from + 1);
      } else {
        PlayDeathCause(actions, admin, next, inputs, draws, from + 1);
      }
    }
  }

  /** What the loop promises, for a whole game: it runs no turn once the administrator is
      dead and otherwise every command, unless a `/q` whose coin says die kills the
      administrator, in which case it stops right after the first such command. */
  lemma PlayOutcome(actions: map<Command, Action>, admin: Player, w: World,
                    inputs: seq<Command>, draws: seq<Draws>)
    requires DrawsInRange(actions, inputs, draws) && WorldOk(actions, admin, w)
    ensures var r := Play(actions, admin, w, inputs, draws, 0);
      && (w[admin].health == 0 ==> r.stop == 0)
      && (r.stop < |inputs| ==> r.world[admin].health == 0)
      && (forall i :: 0 <= i < |inputs| && inputs[i] == QUIT && draws[i].first == 1 ==> r.stop <= i + 1)
      && (w[admin].health > 0 && r.world[admin].health == 0 ==>
            0 < r.stop && inputs[r.stop - 1] == QUIT && draws[r.stop - 1].first == 1)
  {
    PlayStopsAtFirstDyingQuit(actions, admin, w, inputs, draws, 0);
    if w[admin].health > 0 {
      PlayDeathCause(actions, admin, w, inputs, draws, 0);
    }
  }

  /** The turn `Play` stops at is the only one that runs nothing once the administrator is
      dead, runs past no `/q` whose coin says die, and stops early only right after one. */
  lemma PlayStopIsUnique(actions: map<Command, Action>, admin: Player, w: World,
                         inputs: seq<Command>, draws: seq<Draws>, t: nat)
    requires DrawsInRange(actions, inputs, draws) && WorldOk(actions, admin, w)
    requires t <= |inputs|
    requires w[admin].health == 0 ==> t == 0
    requires forall i :: 0 <= i < |inputs| && inputs[i] == QUIT && draws[i].first == 1 ==> t <= i + 1
    requires w[admin].health > 0 && t < |inputs| ==> 0 < t && inputs[t - 1] == QUIT && draws[t - 1].first == 1
    ensures t == Play(actions, admin, w, inputs, draws, 0).stop
  {
    PlayOutcome(actions, admin, w, inputs, draws);
  }

  class Game {
    var admin: Player
    var onlinePlayers: seq<Player>
    var availableActions: map<Command, Action>

    /** The administrator is the first player online, `/q` is the administrator's suicide
        and no other command leads to a suicide, every action's subscriber is online, and
        every player online keeps its own invariant. */
    predicate Valid()
      reads this, onlinePlayers
    {
      && |onlinePlayers| > 0 && onlinePlayers[0] == admin
      && RegistryOk(availableActions, admin, onlinePlayers)
      && (forall p :: p in onlinePlayers ==> p.Valid())
    }

    /** The state of every player online. */
    function States(): World
      reads this, onlinePlayers
    {
      map p | p in onlinePlayers :: p.State()
    }

    /** A valid game is a valid world for the loop: the states of its players online. */
    lemma ValidWorldOk()
      requires Valid()
      ensures WorldOk(availableActions, admin, States())
      ensures States()[admin] == admin.State()
    {
      var w := States();
      assert onlinePlayers[0] in w;
      forall k | k in availableActions ensures availableActions[k].subscriber in w {
        var i :| 0 <= i < |onlinePlayers| && onlinePlayers[i] == availableActions[k].subscriber;
        assert onlinePlayers[i] in w;
      }
      forall p | p in w ensures Consistent(w[p]) {
        assert p in onlinePlayers && p.Valid();
      }
    }

    /** `Game(admin)`: registers exactly `/q` and `/m`, both acting on the administrator. */
    constructor (admin: Player)
      requires admin.Valid()
      ensures Valid()
      ensures this.admin == admin && onlinePlayers == [admin]
      ensures availableActions.Keys == {QUIT, MOVE_ADMIN}
      ensures availableActions[QUIT] == Action(AdminSuicide, admin)
      ensures availableActions[MOVE_ADMIN] == Action(Move, admin)
    {
      this.admin := admin;
      this.onlinePlayers := [admin];
      new;
      availableActions := map[];
      availableActions := availableActions[QUIT := Action(AdminSuicide, admin)];
      availableActions := availableActions[MOVE_ADMIN := Action(Move, admin)];
    }

    /** `add(player)`: registers the player's three commands under its current nickname and
        puts the player online. */
    method Add(player: Player)
      requires Valid() && player.Valid()
      modifies this
      ensures Valid()
      ensures admin == old(admin)
      ensures availableActions == Register(old(availableActions), player.nickname, player)
      ensures onlinePlayers == old(onlinePlayers) + [player]
    {
      var nickname := player.nickname;
      RegisterKeepsRegistryOk(availableActions, nickname, player, admin, onlinePlayers);
      availableActions := availableActions[MoveCommand(nickname) := Action(Move, player)];
      availableActions := availableActions[JogCommand(nickname) := Action(Jog, player)];
      availableActions := availableActions[MountainJogCommand(nickname) := Action(MountainJog, player)];
      onlinePlayers := onlinePlayers + [player];
    }

    /** One iteration of the game loop once the command is read: the action registered for
        the command executes on its subscriber; a command that is not registered changes
        nothing. The administrator, alive before the turn, dies in it exactly on a `/q`
        whose coin says die. */
    method Step(input: Command, d: Draws)
      requires Valid()
      requires input in availableActions ==> InRange(availableActions[input].kind, d)
      modifies if input in availableActions then {availableActions[input].subscriber} else {}
      ensures Valid()
      ensures input in availableActions ==>
        var a := availableActions[input];
        a.subscriber.State() == Run(old(a.subscriber.State()), Effects(a.kind, d))
      ensures input !in availableActions ==> forall p :: p in onlinePlayers ==> p.State() == old(p.State())
      ensures old(admin.health) > 0 ==> (admin.health == 0 <==> input == QUIT && d.first == 1)
    {
      if input in availableActions {
        var a := availableActions[input];
        ghost var before := admin.State();
        Execute(a, d);
        if a.subscriber == admin && before.health > 0 {
          OnlySuicideKills(a.kind, before, d);
        }
      }
    }

    /** `startGameLoop`, over the commands typed in: runs them in turn while the
        administrator's health is above 0. It runs none when the administrator is already
        dead, and otherwise every command unless a `/q` whose coin says die kills the
        administrator, stopping right after the first such command: the turn `Play`
        stops at. */
    method StartGameLoop(inputs: seq<Command>, draws: seq<Draws>) returns (turns: nat)
      requires Valid()
      requires DrawsInRange(availableActions, inputs, draws)
      modifies onlinePlayers
      ensures Valid()
      ensures turns == Play(availableActions, admin, old(States()), inputs, draws, 0).stop
      ensures turns <= |inputs|
      ensures turns < |inputs| ==> admin.health == 0
      ensures old(admin.health) == 0 ==> turns == 0
      ensures forall i :: 0 <= i < |inputs| && inputs[i] == QUIT && draws[i].first == 1 ==> turns <= i + 1
      ensures old(admin.health) > 0 && admin.health == 0 ==>
        0 < turns && inputs[turns - 1] == QUIT && draws[turns - 1].first == 1
    {
      ghost var w := States();
      ValidWorldOk();
      turns := 0;
      while turns < |inputs| && admin.health > 0
        invariant turns <= |inputs|
        invariant Valid()
        invariant old(admin.health) == 0 ==> turns == 0
        invariant forall i :: 0 <= i < turns && inputs[i] == QUIT && draws[i].first == 1 ==> i == turns - 1
        invariant old(admin.health) > 0 && admin.health == 0 <==>
          0 < turns && inputs[turns - 1] == QUIT && draws[turns - 1].first == 1
      {
        Step(inputs[turns], draws[turns]);
        turns := turns + 1;
      }
      PlayStopIsUnique(availableActions, admin, w, inputs, draws, turns);
    }
  }

  const ADMIN_NICKNAME: seq<byte> := [0x61, 0x6C, 0x64, 0x72, 0x74, 0x32, 0x33]  // "aldrt23"
  const PLAYER2_NICKNAME: seq<byte> := [0x66, 0x65, 0x72, 0x73, 0x70, 0x36, 0x33] // "fersp63"

  /** The game `main` sets up: the administrator "aldrt23" at level 32 on (3, 2), then
      "fersp63" at level 16 on (6, 7). Neither constructor throws, and five commands are
      registered. */
  method NewDemoGame() returns (game: Game)
    ensures game.Valid()
    ensures game.availableActions.Keys == {
      QUIT, MOVE_ADMIN,
      MoveCommand(PLAYER2_NICKNAME), JogCommand(PLAYER2_NICKNAME), MountainJogCommand(PLAYER2_NICKNAME)}
    ensures |game.onlinePlayers| == 2 && game.admin.health == MAX_HEALTH
  {
    assert CastLength(ADMIN_NICKNAME) == CastLength(PLAYER2_NICKNAME) == 7;
    var admin := Player.New(ADMIN_NICKNAME, 32, Point(3, 2));
    game := new Game(admin.value);
    ghost var initial := game.availableActions;
    var player2 := Player.New(PLAYER2_NICKNAME, 16, Point(6, 7));
    game.Add(player2.value);
    assert game.availableActions.Keys == initial.Keys + {
      MoveCommand(PLAYER2_NICKNAME), JogCommand(PLAYER2_NICKNAME), MountainJogCommand(PLAYER2_NICKNAME)};
  }
}
