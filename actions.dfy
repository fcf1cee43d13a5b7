/** The game's actions: `Move`, `Jog`, `MountainJog` and `AdminSuicide`.

    An action is bound to one subscriber (a player) when it is created, and its `execute`
    makes one or two `apply` calls on it. The `rand()` calls an `execute` makes are its
    `Draws`, each already reduced by the action's `% limit`. `Effects` lists the `apply`
    calls an execution makes; the method `Execute` makes them on the player object. */
module Actions {
  import opened Buffs
  import opened Players

  const MOVE_RAND_LIMIT: nat := 12
  const JOG_RAND_LIMIT: nat := 24

  /** The buffs the actions hand out, as the UTF-8 bytes of their descriptions. */
  const HERB: Buff := Buff([0xF0, 0x9F, 0x8C, 0xBF])                                  // U+1F33F
  const COFFEE: Buff := Buff([0xE2, 0x98, 0x95])                                      // U+2615
  const BAD_POTION: Buff := Buff([0xF0, 0x9F, 0xA7, 0xAA, 0xE2, 0x9A, 0xB0, 0xEF, 0xB8, 0x8F]) // U+1F9EA U+26B0 U+FE0F

  /** The stats delta of a successful suicide. */
  const SUICIDE: StatsDelta := StatsDelta(0, -10000)

  datatype Kind = Move | Jog | MountainJog | AdminSuicide

  /** An action object: its class and the subscriber it was created for. */
  datatype Action = Action(kind: Kind, subscriber: Player)

  /** The values of the `rand() % limit` calls of one `execute`, in call order; an
      `AdminSuicide` makes only the first. */
  datatype Draws = Draws(first: int, second: int)

  /** The `RAND_LIMIT` of each action class; `AdminSuicide` draws `rand() % 2`. */
  function RandLimit(kind: Kind): nat
  {
    match kind
    case Move => MOVE_RAND_LIMIT
    case Jog | MountainJog => JOG_RAND_LIMIT
    case AdminSuicide => 2
  }

  /** The draws are values `rand() % limit` can yield: each draw the action makes is its
      own remainder by the action's limit. */
  predicate InRange(kind: Kind, d: Draws): (r: bool)
    ensures r <==> d.first % RandLimit(kind) == d.first
                   && (kind == AdminSuicide || d.second % RandLimit(kind) == d.second)
  {
    match kind
    case Move => 0 <= d.first < MOVE_RAND_LIMIT && 0 <= d.second < MOVE_RAND_LIMIT
    case Jog | MountainJog => 0 <= d.first < JOG_RAND_LIMIT && 0 <= d.second < JOG_RAND_LIMIT
    case AdminSuicide => 0 <= d.first < 2
  }

  /** What `Move` finds, chosen by its first draw modulo 3: the herb for 0, the coffee for
      1, nothing otherwise. */
  function Found(direction: int): (r: BuffSet)
    ensures |r| <= 1
    ensures r == [HERB] <==> direction == 0
    ensures r == [COFFEE] <==> direction == 1
  {
    if direction == 0 then [HERB] else if direction == 1 then [COFFEE] else []
  }

  /** The `apply` calls one `execute` makes on its subscriber, in order: one or two calls;
      a move or jog ends by moving the subscriber by its two draws; no call removes a buff;
      and the only stats call is the suicide, made exactly when the coin says die. */
  function Effects(kind: Kind, d: Draws): (r: seq<Delta>)
    requires InRange(kind, d)
    ensures 1 <= |r| <= 2
    ensures kind != AdminSuicide ==> r[|r| - 1] == OfPosition(PositionDelta(d.first, d.second))
    ensures forall i :: 0 <= i < |r| && r[i].OfBuffs? ==> r[i].buffs.remove == []
    ensures forall i :: 0 <= i < |r| && r[i].OfStats? ==> r[i] == OfStats(SUICIDE)
    ensures OfStats(SUICIDE) in r <==> kind == AdminSuicide && d.first == 1
  {
    match kind
    case Move =>
      [OfBuffs(BuffsDelta(Found(d.first % 3), [])), OfPosition(PositionDelta(d.first, d.second))]
    case Jog | MountainJog =>
      [OfPosition(PositionDelta(d.first, d.second))]
    case AdminSuicide =>
      if d.first != 0 then [OfStats(SUICIDE)] else [OfBuffs(BuffsDelta([BAD_POTION], []))]
  }

  /** The three buffs of the game have distinct description lengths (4, 3 and 10 bytes),
      so a player can hold all three at once. */
  lemma GameBuffsCoexist()
    ensures Key(HERB) == 4 && Key(COFFEE) == 3 && Key(BAD_POTION) == 10
    ensures |Insert(Insert(Insert([], HERB), COFFEE), BAD_POTION)| == 3
  {
    var s1 := Insert([], HERB);
    assert !Contains(s1, COFFEE);
    var s2 := Insert(s1, COFFEE);
    assert !Contains(s2, BAD_POTION);
  }

  /** One `apply` call. */
  lemma RunOne(s: PlayerState, a: Delta)
    ensures Run(s, [a]) == ApplyDelta(s, a)
  {
    assert [a][1..] == [];
  }

  /** Two `apply` calls, in order. */
  lemma RunTwo(s: PlayerState, a: Delta, b: Delta)
    ensures Run(s, [a, b]) == ApplyDelta(ApplyDelta(s, a), b)
  {
    assert [a, b][1..] == [b];
    RunOne(ApplyDelta(s, a), b);
  }

  /** Removing nothing leaves a buff set as it was. */
  lemma {:induction false} RemoveNothing(s: BuffSet)
    ensures RemoveAll(s, []) == s
  {
    if |s| > 0 {
      RemoveNothing(s[1..]);
      assert s == [s[0]] + s[1..];
    }
  }

  /** `Move`: shifts the position by the two draws, and adds the herb when the first draw
      is 0 modulo 3, the coffee when it is 1, nothing when it is 2; an added buff goes in
      only when no buff of its length is held. Level and health do not change. */
  lemma MoveOutcome(s: PlayerState, d: Draws)
    requires InRange(Move, d)
    ensures var r := Run(s, Effects(Move, d));
      && r.level == s.level && r.health == s.health
      && r.currentPosition == Point(s.currentPosition.x + d.first, s.currentPosition.y + d.second)
      && (forall x :: x in s.buffs ==> x in r.buffs)
      && (HERB in r.buffs <==> HERB in s.buffs || (d.first % 3 == 0 && !Contains(s.buffs, HERB)))
      && (COFFEE in r.buffs <==> COFFEE in s.buffs || (d.first % 3 == 1 && !Contains(s.buffs, COFFEE)))
      && (forall x :: x in r.buffs ==> x in s.buffs || x == HERB || x == COFFEE)
      && (d.first % 3 == 2 ==> r.buffs == s.buffs)
  {
    var ds := Effects(Move, d);
    RunTwo(s, ds[0], ds[1]);
    RemoveNothing(s.buffs);
    var found := Found(d.first % 3);
    assert ApplyDelta(s, ds[0]).buffs == InsertAll(s.buffs, found);
    if d.first % 3 == 2 {
      assert found == [];
      forall x ensures x in InsertAll(s.buffs, found) <==> x in s.buffs { }
      assert InsertAll(s.buffs, found) == s.buffs;
    }
  }

  /** `Jog` and `MountainJog`: only the position moves, by the two draws. */
  lemma JogOutcome(kind: Kind, s: PlayerState, d: Draws)
    requires kind == Jog || kind == MountainJog
    requires InRange(kind, d)
    ensures Run(s, Effects(kind, d))
      == s.(currentPosition := Point(s.currentPosition.x + d.first, s.currentPosition.y + d.second))
  {
    RunOne(s, Effects(kind, d)[0]);
  }

  /** `AdminSuicide`: on a dying coin health drops to 0 and nothing else changes (the level
      delta is 0); otherwise the bad potion is added when no buff of its length is held,
      and health and level stay. */
  lemma AdminSuicideOutcome(s: PlayerState, d: Draws)
    requires Consistent(s) && InRange(AdminSuicide, d)
    ensures var r := Run(s, Effects(AdminSuicide, d));
      && (d.first == 1 ==> r == s.(health := 0))
      && (d.first == 0 ==> r.health == s.health && r.level == s.level)
      && (d.first == 0 ==> r.currentPosition == s.currentPosition)
      && (d.first == 0 ==> Contains(r.buffs, BAD_POTION))
      && (d.first == 0 ==> forall x :: x in r.buffs <==> x in s.buffs || (x == BAD_POTION && !Contains(s.buffs, BAD_POTION)))
  {
    RunOne(s, Effects(AdminSuicide, d)[0]);
    if d.first == 0 {
      RemoveNothing(s.buffs);
    } else {
      assert NextLevel(s.level, 0) == s.level;
    }
  }

  /** Of all actions only a dying `AdminSuicide` changes health, so from a living player it
      is the one thing that brings health to 0. */
  lemma OnlySuicideKills(kind: Kind, s: PlayerState, d: Draws)
    requires Consistent(s) && InRange(kind, d) && s.health > 0
    ensures Run(s, Effects(kind, d)).health == 0 <==> kind == AdminSuicide && d.first == 1
  {
    match kind
    case Move => MoveOutcome(s, d);
    case Jog => JogOutcome(kind, s, d);
    case MountainJog => JogOutcome(kind, s, d);
    case AdminSuicide => AdminSuicideOutcome(s, d);
  }

  /** `Move::execute`. */
  method ExecuteMove(subscriber: Player, d: Draws)
    requires InRange(Move, d) && subscriber.Valid()
    modifies subscriber
    ensures subscriber.Valid()
    ensures subscriber.State() == Run(old(subscriber.State()), Effects(Move, d))
  {
    var direction := d.first % 3;
    var buffsDelta := BuffsDelta([], []);
    if direction == 0 {
      buffsDelta := BuffsDelta([HERB], []);
    } else if direction == 1 {
      buffsDelta := BuffsDelta([COFFEE], []);
    }
    subscriber.ApplyBuffs(buffsDelta);
    subscriber.ApplyPosition(PositionDelta(d.first, d.second));
    RunTwo(old(subscriber.State()), OfBuffs(buffsDelta), OfPosition(PositionDelta(d.first, d.second)));
  }

  /** `Jog::execute`, which `MountainJog::execute` calls before printing. */
  method ExecuteJog(subscriber: Player, d: Draws)
    requires InRange(Jog, d) && subscriber.Valid()
    modifies subscriber
    ensures subscriber.Valid()
    ensures subscriber.State() == Run(old(subscriber.State()), Effects(Jog, d))
  {
    subscriber.ApplyPosition(PositionDelta(d.first, d.second));
    RunOne(old(subscriber.State()), OfPosition(PositionDelta(d.first, d.second)));
  }

  /** `AdminSuicide::execute`. */
  method ExecuteAdminSuicide(admin: Player, d: Draws)
    requires InRange(AdminSuicide, d) && admin.Valid()
    modifies admin
    ensures admin.Valid()
    ensures admin.State() == Run(old(admin.State()), Effects(AdminSuicide, d))
  {
    var willDie := d.first != 0;
    if willDie {
      admin.ApplyStats(SUICIDE);
      RunOne(old(admin.State()), OfStats(SUICIDE));
    } else {
      admin.ApplyBuffs(BuffsDelta([BAD_POTION], []));
      RunOne(old(admin.State()), OfBuffs(BuffsDelta([BAD_POTION], [])));
    }
  }

  /** `Action::execute`, dispatched on the action's class. */
  method Execute(a: Action, d: Draws)
    requires InRange(a.kind, d) && a.subscriber.Valid()
    modifies a.subscriber
    ensures a.subscriber.Valid()
    ensures a.subscriber.State() == Run(old(a.subscriber.State()), Effects(a.kind, d))
  {
    match a.kind
    case Move => ExecuteMove(a.subscriber, d);
    case Jog => ExecuteJog(a.subscriber, d);
    case MountainJog => ExecuteJog(a.subscriber, d);
    case AdminSuicide => ExecuteAdminSuicide(a.subscriber, d);
  }
}
