# OOP_Encapsulation game state, modelled in Dafny

The program is a small text game. An administrator and a second player issue
commands from a menu (`/q`, `/m`, `/move:<nickname>`, `/jog:<nickname>`,
`/mjog:<nickname>`). Each command's action changes a player's state: stats, buffs
or position. The loop reads commands until the administrator's health is 0. This
project models that state and the rules that change it. It proves what each
operation does to the state, and what it leaves alone.

Modules. `Machine` and `Errors` hold what C++ provides implicitly (integer
conversions and exceptions). The other four follow the classes of
`OOP_Encapsulation/main.cpp`:

- `Machine` (`machine.dfy`): bytes, `unsigned int` and `int`. It also holds the
  conversions the C++ arithmetic performs implicitly: wrap-around to 32 bits,
  the `(uint)` cast of a string length, and `min`.
- `Errors` (`errors.dfy`): the `domain_error`s thrown by the constructors and by
  `setNickname`, carried by `Result` and `Outcome` values.
- `Buffs` (`buffs.dfy`): `Buff` and `std::set<Buff>`. The set compares buffs by
  `operator<`, which compares only the byte length of the description. So a set
  holds at most one buff per length, and inserting a buff of a length already held
  changes nothing. A `BuffSet` is the sequence of the set's elements in iteration
  order, strictly ascending by length. Single and range insertion, removal of
  equivalent elements, and the concatenation done by `getBuffs` are functions on it.
- `Players` (`players.dfy`): the player. `PlayerState` and `ApplyDelta` describe,
  as values, what each of the three `apply` overloads does. The class `Player` has
  the same fields and updates them in place. Each `apply` method (`ApplyStats`,
  `ApplyBuffs`, `ApplyPosition`, `Apply`) is proved equal to `ApplyDelta` on the old
  state. `AddBuffs` and `RemoveBuffs` are proved equal to `InsertAll` and `RemoveAll`
  of the old buffs. Level arithmetic is written out in 32-bit unsigned
  arithmetic: the sum wraps modulo 2^32 before the reduction modulo 257. Because
  `min((uint)0, …)` is always 0, any stats delta sets health to 0.
- `Actions` (`actions.dfy`): `Move`, `Jog`, `MountainJog` and `AdminSuicide`. The
  `rand() % limit` values an `execute` uses become its `Draws`. `Effects` lists the
  `apply` calls an execution makes. The `Execute*` methods make those calls on the
  player object, and lemmas state each action's outcome.
- `Games` (`game.dfy`): the class `Game`. It holds the command registry
  (`availableActions`), the players online and the administrator. Its methods are
  the constructor, `add`, one dispatch step and the loop. It also has the setup
  that `main` performs. `StepWorld` and `Play` describe the loop on values, over
  the states of all players online. The method `StartGameLoop` is proved to run
  the number of turns `Play` runs.

## Model

| member | source | states |
|---|---|---|
| `Machine.ToUint32` | OOP_Encapsulation/main.cpp:160-161 | converting an `int` sum to `unsigned int` keeps values in [0, 2^32), adds 2^32 to a negative value and subtracts 2^32 from one past the range |
| `Machine.CastLength` | OOP_Encapsulation/main.cpp:49 | `(uint)s.length()` is the length itself for any string shorter than 2^32 bytes |
| `Machine.MinUint32` | OOP_Encapsulation/main.cpp:161 | `min` returns one of its arguments and is no larger than either |
| `Buffs.NewBuff` | OOP_Encapsulation/main.cpp:48-54 | the constructor succeeds exactly when the cast description length is at most 30; it then keeps the description, and otherwise fails with the description-length error |
| `Buffs.Less` | OOP_Encapsulation/main.cpp:64-66 | `operator<` compares description lengths only, so it never holds between two buffs that are `==` |
| `Buffs.SameDescription` | OOP_Encapsulation/main.cpp:60-62 | `operator==` compares the descriptions, which is all a buff holds, so it holds exactly for equal buffs |
| `Buffs.Equivalent` | OOP_Encapsulation/main.cpp:64-66 | two buffs are equivalent to the set (neither `operator<` the other) exactly when their descriptions have the same byte length |
| `Buffs.LessIsStrictWeakOrder` | OOP_Encapsulation/main.cpp:64-66 | `operator<` is irreflexive and transitive, and its equivalence is transitive: it is a valid `std::set` comparator |
| `Buffs.EquivalenceIsCoarserThanEquality` | OOP_Encapsulation/main.cpp:60-66 | buffs that are `==` are equivalent, but two buffs with different descriptions of equal length are equivalent too |
| `Buffs.OneBuffPerLength` | OOP_Encapsulation/main.cpp:68 | a buff set never holds two buffs whose descriptions have the same length |
| `Buffs.Insert` | OOP_Encapsulation/main.cpp:116 | inserting a buff whose length is already held leaves the set unchanged; otherwise the set gains exactly that buff; afterwards the buff always has an equivalent in the set |
| `Buffs.ContainsAfterInsert` | OOP_Encapsulation/main.cpp:116 | after an insertion a length is present exactly when it was before or it is the inserted buff's length |
| `Buffs.InsertAll` | OOP_Encapsulation/main.cpp:115-117 | range insertion keeps every held buff and adds exactly the buffs of `add` whose length was not held |
| `Buffs.FirstInsertKeepsRest` | OOP_Encapsulation/main.cpp:116 | inserting the shortest buff of a range does not change whether the longer buffs of the range have an equivalent in the set |
| `Buffs.InsertAllCovers` | OOP_Encapsulation/main.cpp:115-117 | after `addBuffs` every buff of `add` has an equivalent in the set, and no held buff is lost |
| `Buffs.RemoveAll` | OOP_Encapsulation/main.cpp:109-113 | `removeBuffs` keeps exactly the held buffs that have no equivalent in `remove` |
| `Buffs.Descriptions` | OOP_Encapsulation/main.cpp:138-144 | the `getBuffs` concatenation is empty for no buffs and at least as long as every description in it |
| `Buffs.DescriptionsConcat` | OOP_Encapsulation/main.cpp:138-144 | the `getBuffs` concatenation of two runs of buffs is the concatenation of their concatenations |
| `Buffs.DescriptionsSplit` | OOP_Encapsulation/main.cpp:138-144 | in the `getBuffs` string each buff's description appears whole, after those of the buffs before it and before those of the buffs after it |
| `Buffs.ShorterBeforeLongerAfter` | OOP_Encapsulation/main.cpp:140 | the set is iterated in ascending description length: every buff before a buff is shorter, every buff after it longer |
| `Players.NewPlayer` | OOP_Encapsulation/main.cpp:120-131 | the constructor fails on a nickname over 30 bytes (checked first) or a level over 256; otherwise health is 1000, there are no buffs, and the checkpoint equals the starting position |
| `Players.NextLevel` | OOP_Encapsulation/main.cpp:160 | the new level is at most 256 and congruent modulo 257 to `level + deltaLevel`, shifted by one when the 32-bit sum wraps below 0 or past 2^32 (as 2^32 = 1 mod 257) |
| `Players.NextLevelExamples` | OOP_Encapsulation/main.cpp:160 | worked examples of `NextLevel` at the edges: a zero delta keeps a level within bounds; level 0 with delta -1 gives 0, not 256; level 256 with delta 1 gives 0 |
| `Players.NextHealth` | OOP_Encapsulation/main.cpp:161 | health becomes 0 whatever the health delta |
| `Players.ApplyDelta` | OOP_Encapsulation/main.cpp:159-170 | each `apply` overload changes only its own fields: stats set health to 0 and keep the level at most 256; buffs add every buff of `add` and keep every held buff with no equivalent in `remove`; position moves `currentPosition` by the delta. None changes the nickname or checkpoint, and all preserve the class invariant |
| `Players.ApplyBuffsExactly` | OOP_Encapsulation/main.cpp:163-166 | after a buffs delta a buff is held exactly when it survived the removal, or it is in `add` and nothing equivalent survived |
| `Players.Run` | OOP_Encapsulation/main.cpp:86-88 | any sequence of `apply` calls keeps the nickname and checkpoint and preserves the class invariant |
| `Players.Player.Init` | OOP_Encapsulation/main.cpp:126-130 | once the checks pass, the new object satisfies the class invariant and its state is the one `NewPlayer` describes |
| `Players.Player.New` | OOP_Encapsulation/main.cpp:120-131 | constructing a player throws the error `NewPlayer` gives, or yields a fresh, valid player whose state is `NewPlayer`'s |
| `Players.Player.SetNickname` | OOP_Encapsulation/main.cpp:152-156 | a nickname over 30 bytes fails and changes nothing; otherwise only the nickname is replaced |
| `Players.Player.GetBuffs` | OOP_Encapsulation/main.cpp:138-144 | the loop returns the held buffs' descriptions concatenated in the set's order |
| `Players.Player.ApplyStats` | OOP_Encapsulation/main.cpp:159-162 | the fields after the update are `ApplyDelta` of the old state with the stats delta |
| `Players.Player.RemoveBuffs` | OOP_Encapsulation/main.cpp:109-113 | only the buffs change, to `RemoveAll` of the old buffs |
| `Players.Player.AddBuffs` | OOP_Encapsulation/main.cpp:115-117 | only the buffs change, to `InsertAll` of the old buffs |
| `Players.Player.ApplyBuffs` | OOP_Encapsulation/main.cpp:163-166 | removing then adding yields `ApplyDelta` of the old state with the buffs delta |
| `Players.Player.ApplyPosition` | OOP_Encapsulation/main.cpp:167-170 | the fields after the update are `ApplyDelta` of the old state with the position delta |
| `Players.Player.Apply` | OOP_Encapsulation/main.cpp:86-88 | a call through the subscriber interface reaches the overload for its delta |
| `Actions.GameBuffsCoexist` | OOP_Encapsulation/main.cpp:283 | the herb, coffee and bad-potion descriptions are 4, 3 and 10 bytes long, so a player can hold all three |
| `Actions.InRange` | OOP_Encapsulation/main.cpp:199-200 | a draw is in range exactly when it is its own remainder by the action's limit: 12 for `Move` (line 185), 24 for `Jog` and `MountainJog` (line 227), 2 for the one draw of `AdminSuicide` (line 274) |
| `Actions.Found` | OOP_Encapsulation/main.cpp:203-213 | `Move` finds at most one buff: the herb exactly when the direction is 0, the coffee exactly when it is 1 |
| `Actions.Effects` | OOP_Encapsulation/main.cpp:196-285 | an `execute` makes one or two `apply` calls; a move or jog ends by moving the subscriber by its two draws; no call removes a buff; the only stats call is the suicide delta, made exactly by an `AdminSuicide` whose coin says die |
| `Actions.RemoveNothing` | OOP_Encapsulation/main.cpp:204 | a buffs delta with an empty `remove` removes nothing |
| `Actions.RunOne` | OOP_Encapsulation/main.cpp:86-88 | unfolding lemma for `Run`: a single `apply` call is one step of `ApplyDelta` |
| `Actions.RunTwo` | OOP_Encapsulation/main.cpp:86-88 | unfolding lemma for `Run`: two `apply` calls are two steps of `ApplyDelta`, in order |
| `Actions.MoveOutcome` | OOP_Encapsulation/main.cpp:196-216 | with draws in [0,12), `Move` shifts the position by the draws and keeps level and health. It adds the herb iff the first draw is 0 mod 3 and the coffee iff it is 1 mod 3, each only when no buff of that length is held. At 2 mod 3 the buffs are unchanged, and no held buff is lost |
| `Actions.JogOutcome` | OOP_Encapsulation/main.cpp:232-257 | with draws in [0,24), `Jog` and `MountainJog` change only the position, by the two draws |
| `Actions.AdminSuicideOutcome` | OOP_Encapsulation/main.cpp:273-286 | on a dying coin only health changes, to 0. Otherwise the bad potion goes in unless a 10-byte buff is held, and level, health and position stay |
| `Actions.OnlySuicideKills` | OOP_Encapsulation/main.cpp:273-285 | from positive health, an action leaves health 0 exactly when it is an `AdminSuicide` whose coin says die |
| `Actions.ExecuteMove` | OOP_Encapsulation/main.cpp:196-216 | `Move::execute` leaves the subscriber in the state its two `apply` calls give |
| `Actions.ExecuteJog` | OOP_Encapsulation/main.cpp:232-241 | `Jog::execute` leaves the subscriber in the state its `apply` call gives |
| `Actions.ExecuteAdminSuicide` | OOP_Encapsulation/main.cpp:273-286 | `AdminSuicide::execute` leaves the administrator in the state its `apply` call gives |
| `Actions.Execute` | OOP_Encapsulation/main.cpp:325 | the late-bound `execute` runs the action's own class's `execute`; `MountainJog` runs `Jog`'s |
| `Games.MoveCommand` | OOP_Encapsulation/main.cpp:345 | the move command is `/move:` followed by the nickname, which can be read back after the prefix |
| `Games.JogCommand` | OOP_Encapsulation/main.cpp:346 | the jog command is `/jog:` followed by the nickname, which can be read back after the prefix |
| `Games.MountainJogCommand` | OOP_Encapsulation/main.cpp:347 | the mountain-jog command is `/mjog:` followed by the nickname, which can be read back after the prefix |
| `Games.CommandsDistinct` | OOP_Encapsulation/main.cpp:340-347 | the three per-player commands differ from each other and from `/q` and `/m`, and coincide for two nicknames only when the nicknames are equal |
| `Games.Register` | OOP_Encapsulation/main.cpp:344-347 | `add` registers exactly the player's three commands, mapped to `Move`, `Jog` and `MountainJog` of that player, and keeps every other entry |
| `Games.ReRegisterOverwrites` | OOP_Encapsulation/main.cpp:344-347 | adding a nickname again overwrites its three commands with the later player's actions |
| `Games.RegisterAddsThree` | OOP_Encapsulation/main.cpp:344-347 | adding a nickname not yet registered grows the registry by exactly three commands |
| `Games.RegisterKeepsRegistryOk` | OOP_Encapsulation/main.cpp:344-348 | after `add`, `/q` is still the administrator's suicide, no other command leads to a suicide, and every action's subscriber is online |
| `Games.StepWorld` | OOP_Encapsulation/main.cpp:323-326 | one turn on values: the same players keep a state, and every player other than the subscriber of a registered command keeps its state |
| `Games.StepWorldKeepsWorldOk` | OOP_Encapsulation/main.cpp:323-326 | a turn keeps `/q` the only suicide, keeps every subscriber's state, and preserves every player's invariant |
| `Games.StepWorldKills` | OOP_Encapsulation/main.cpp:323-326 | from a living administrator, a turn leaves the administrator's health 0 exactly on `/q` with a dying coin |
| `Games.Play` | OOP_Encapsulation/main.cpp:315-328 | the loop on values runs at most every command, keeps the same players, stops early only with the administrator at health 0, and runs nothing when the administrator starts dead |
| `Games.PlayKeepsWorldOk` | OOP_Encapsulation/main.cpp:315-328 | every turn of the loop preserves every player's invariant and the registry's promise |
| `Games.PlayStopsAtFirstDyingQuit` | OOP_Encapsulation/main.cpp:315-328 | the loop runs no turn after a `/q` with a dying coin |
| `Games.PlayDeathCause` | OOP_Encapsulation/main.cpp:315-328 | when the loop kills a living administrator, its last turn was a `/q` with a dying coin |
| `Games.PlayOutcome` | OOP_Encapsulation/main.cpp:315-328 | for a whole game: no turn when the administrator starts dead, otherwise every command up to and including the first `/q` with a dying coin, and an early stop only on such a `/q` |
| `Games.PlayStopIsUnique` | OOP_Encapsulation/main.cpp:315-328 | the turn `Play` stops at is the only count that runs nothing for a dead administrator, runs past no `/q` with a dying coin, and stops early only right after one |
| `Games.Game.ValidWorldOk` | OOP_Encapsulation/main.cpp:317 | the states of the players online of a valid game satisfy what the loop on values needs, and hold the administrator's state |
| `Games.Game.constructor` | OOP_Encapsulation/main.cpp:336-342 | the new game registers exactly `/q` (suicide) and `/m` (move), both for the administrator, who is the only player online |
| `Games.Game.Add` | OOP_Encapsulation/main.cpp:344-349 | the registry becomes `Register` of the old one under the player's current nickname, and the player is appended to the players online |
| `Games.Game.Step` | OOP_Encapsulation/main.cpp:323-326 | a registered command executes its action on its subscriber, and nothing else changes. An unregistered command changes no state. A living administrator dies in the turn exactly on `/q` with a dying coin |
| `Games.Game.StartGameLoop` | OOP_Encapsulation/main.cpp:315-328 | the loop runs while the administrator's health is above 0 and runs as many turns as `Play`: none when the administrator starts dead, otherwise every command up to and including the first `/q` with a dying coin. It stops early only with health 0, and the last command it executed was then `/q` with a dying coin |
| `Games.NewDemoGame` | OOP_Encapsulation/main.cpp:357-361 | the setup in `main` throws nothing, registers exactly five commands, puts two players online and leaves the administrator at full health |

## Left out

- Console output and input are not modelled: every `cout`, `printPlayerStats`,
  `printAvailableActions`, `printGameResults`, the `getDescription` strings and the
  messages. The commands read by `cin` are the `inputs` parameter of
  `StartGameLoop`, or the `input` parameter of `Step`.
- `rand()` is not a generator here. Each `rand() % limit` an action makes is a
  parameter (`Draws`) constrained to [0, limit).
- Buff effects (`StatsDeltaMultiply`, two floats) are not modelled, because nothing
  ever reads them.
- `Buffs.NewBuff`: does not model the second constructor check, which throws when the
  two effect multipliers sum to more than 10, because the effects are floats that are
  left out. Every buff the game creates passes that check.
- `Buffs.RemoveAll`: models the evident intent of `removeBuffs`, which is to erase the
  held buffs equivalent to an element of `remove`. As written, `removeBuffs` passes
  iterators of a temporary set to `this->buffs.erase`. That is undefined behaviour
  unless the intersection is empty. Every delta the game builds has an empty
  `remove`, where the two agree.
- `Players.ApplyDelta`: positions are unbounded integers. The C++ `int` additions
  could overflow, which is undefined behaviour. The draws the game adds are below 24.
- `Games.Game.StartGameLoop`: its contract states the number of turns run and the
  administrator's fate, not the final state of every player. That state is given
  turn by turn by `Games.Game.Step`, and for a whole game on values by `Games.Play`.
- `Games.Game.StartGameLoop`: the input is a finite sequence and the model stops when
  it runs out. At end of input the C++ loop keeps reading an empty, unregistered
  command and never terminates.
- Raw pointers and `new` without `delete` are not modelled. An action is a value: its
  class and a reference to its subscriber.
- `playersCount` is not modelled, because it is never initialised or read.
- The getters (`getCurrentPosition`, `getLevel`, `getHealth`, `getNickname`,
  `getSubscriberDescription`, `Buff::getDescription`) are reads of the fields.
- `Game::start` is `StartGameLoop` followed by printing.
