/** The player: the only `ActionSubscriber`. Actions reach it through the three `apply`
    overloads, each a `Delta` here.

    `PlayerState` and `ApplyDelta` say, on values, what a player is and what one `apply`
    does to it; the class `Player` holds the same fields and changes them in place, and its
    methods are proved to do what `ApplyDelta` says. */
module Players {
  import opened Machine
  import opened Errors
  import opened Buffs

  const MAX_NICKNAME_LENGTH: uint32 := 30
  const MAX_LEVEL: uint32 := 256
  const MAX_HEALTH: uint32 := 1000

  datatype Point = Point(x: int, y: int)

  datatype StatsDelta = StatsDelta(deltaLevel: int32, deltaHealth: int32)
  datatype BuffsDelta = BuffsDelta(add: BuffSet, remove: BuffSet)
  datatype PositionDelta = PositionDelta(x: int, y: int)

  /** One call of `ActionSubscriber::apply`, whichever overload. */
  datatype Delta =
    | OfStats(stats: StatsDelta)
    | OfBuffs(buffs: BuffsDelta)
    | OfPosition(position: PositionDelta)

  datatype PlayerState = PlayerState(
    nickname: seq<byte>,
    level: uint32,
    health: uint32,
    buffs: BuffSet,
    currentPosition: Point,
    checkPoint: Point)

  /** The class invariant the `MAX_*` constants stand for. */
  predicate Consistent(s: PlayerState)
  {
    CastLength(s.nickname) <= MAX_NICKNAME_LENGTH && s.level <= MAX_LEVEL && s.health <= MAX_HEALTH
  }

  /** `Player(nickname, level, currentPosition)`: checks the nickname, then the level. */
  function NewPlayer(nickname: seq<byte>, level: uint32, position: Point): (r: Result<PlayerState>)
    ensures r.Ok? <==> CastLength(nickname) <= MAX_NICKNAME_LENGTH && level <= MAX_LEVEL
    ensures CastLength(nickname) > MAX_NICKNAME_LENGTH ==> r == Err(NicknameTooLong)
    ensures CastLength(nickname) <= MAX_NICKNAME_LENGTH && level > MAX_LEVEL ==> r == Err(LevelTooHigh)
    ensures r.Ok? ==> Consistent(r.value)
    ensures r.Ok? ==> r.value.nickname == nickname && r.value.level == level
    ensures r.Ok? ==> r.value.health == MAX_HEALTH && r.value.buffs == []
    ensures r.Ok? ==> r.value.currentPosition == position && r.value.checkPoint == position
  {
    if CastLength(nickname) > MAX_NICKNAME_LENGTH then Err(NicknameTooLong)
    else if level > MAX_LEVEL then Err(LevelTooHigh)
    else Ok(PlayerState(nickname, level, MAX_HEALTH, [], position, position))
  }

  /** `(level + deltaLevel) % (MAX_LEVEL + 1)` in `unsigned int`: the sum wraps modulo
      2^32 before the reduction modulo 257. Since 2^32 = 1 (mod 257), a sum that wraps
      below zero lands one above its residue, and one that wraps past 2^32 one below. */
  function NextLevel(level: uint32, deltaLevel: int32): (r: uint32)
    ensures r <= MAX_LEVEL
    ensures var sum := level as int + deltaLevel as int;
      && (0 <= sum < UINT32_MODULUS ==> (sum - r as int) % 257 == 0)
      && (sum < 0 ==> (sum + 1 - r as int) % 257 == 0)
      && (UINT32_MODULUS <= sum ==> (sum - 1 - r as int) % 257 == 0)
  {
    ToUint32(level as int + deltaLevel as int) % (MAX_LEVEL + 1)
  }

  /** A zero level delta keeps a level within bounds; one below zero wraps: from level 0,
      a delta of -1 gives level 0, not 256. */
  lemma NextLevelExamples(level: uint32)
    requires level <= MAX_LEVEL
    ensures NextLevel(level, 0) == level
    ensures NextLevel(0, -1) == 0
    ensures NextLevel(MAX_LEVEL, 1) == 0
  {
  }

  /** `min((uint)0, health + deltaHealth) % (MAX_HEALTH + 1)`: the minimum with 0 is 0,
      so whatever the delta, health ends at 0. */
  function NextHealth(health: uint32, deltaHealth: int32): (r: uint32)
    ensures r == 0
  {
    MinUint32(0, ToUint32(health as int + deltaHealth as int)) % (MAX_HEALTH + 1)
  }

  function Shift(p: Point, d: PositionDelta): Point
  {
    Point(p.x + d.x, p.y + d.y)
  }

  /** What one `apply` does to a player. Each overload changes only its own fields, and
      none changes the nickname or the checkpoint. */
  function ApplyDelta(s: PlayerState, d: Delta): (r: PlayerState)
    ensures r.nickname == s.nickname && r.checkPoint == s.checkPoint
    ensures Consistent(s) ==> Consistent(r)
    ensures d.OfStats? ==>
      && r.health == 0 && r.level <= MAX_LEVEL
      && r.buffs == s.buffs && r.currentPosition == s.currentPosition
    ensures d.OfBuffs? ==>
      && r.level == s.level && r.health == s.health && r.currentPosition == s.currentPosition
      && (forall b :: b in d.buffs.add ==> Contains(r.buffs, b))
      && (forall x :: x in s.buffs && !Contains(d.buffs.remove, x) ==> x in r.buffs)
      && (forall x :: x in r.buffs ==> x in s.buffs || x in d.buffs.add)
    ensures d.OfPosition? ==>
      && r.level == s.level && r.health == s.health && r.buffs == s.buffs
      && r.currentPosition.x - s.currentPosition.x == d.position.x
      && r.currentPosition.y - s.currentPosition.y == d.position.y
  {
    match d
    case OfStats(st) =>
      s.(level := NextLevel(s.level, st.deltaLevel), health := NextHealth(s.health, st.deltaHealth))
    case OfBuffs(b) =>
      InsertAllCovers(RemoveAll(s.buffs, b.remove), b.add);
      s.(buffs := InsertAll(RemoveAll(s.buffs, b.remove), b.add))
    case OfPosition(p) =>
      s.(currentPosition := Shift(s.currentPosition, p))
  }

  /** A buffs delta removes first and adds second: a held buff survives exactly when no
      element of `remove` is equivalent to it, and a buff of `add` goes in exactly when
      nothing equivalent is left after the removal. */
  lemma ApplyBuffsExactly(s: PlayerState, d: BuffsDelta, x: Buff)
    ensures var r := ApplyDelta(s, OfBuffs(d));
      x in r.buffs <==>
        (x in s.buffs && !Contains(d.remove, x))
        || (x in d.add && !Contains(RemoveAll(s.buffs, d.remove), x))
  {
  }

  /** A sequence of `apply` calls, in order. */
  function Run(s: PlayerState, ds: seq<Delta>): (r: PlayerState)
    ensures r.nickname == s.nickname && r.checkPoint == s.checkPoint
    ensures Consistent(s) ==> Consistent(r)
    decreases |ds|
  {
    if |ds| == 0 then s else Run(ApplyDelta(s, ds[0]), ds[1..])
  }

  class Player {
    var nickname: seq<byte>
    var level: uint32
    var health: uint32
    var buffs: BuffSet
    var currentPosition: Point
    var checkPoint: Point

    function State(): PlayerState
      reads this
    {
      PlayerState(nickname, level, health, buffs, currentPosition, checkPoint)
    }

    predicate Valid()
      reads this
    {
      Consistent(State())
    }

    /** The constructor proper, once `New` has checked its arguments. */
    constructor Init(nickname: seq<byte>, level: uint32, currentPosition: Point)
      requires NewPlayer(nickname, level, currentPosition).Ok?
      ensures Valid()
      ensures State() == NewPlayer(nickname, level, currentPosition).value
    {
      this.nickname := nickname;
      this.level := level;
      this.health := 1000;
      this.buffs := [];
      this.currentPosition := currentPosition;
      this.checkPoint := currentPosition;
    }

    /** `new Player(nickname, level, currentPosition)`, with its `domain_error`s. */
    static method New(nickname: seq<byte>, level: uint32, currentPosition: Point) returns (r: Result<Player>)
      ensures NewPlayer(nickname, level, currentPosition).Err? ==>
        r == Err(NewPlayer(nickname, level, currentPosition).error)
      ensures NewPlayer(nickname, level, currentPosition).Ok? ==>
        && r.Ok? && fresh(r.value) && r.value.Valid()
        && r.value.State() == NewPlayer(nickname, level, currentPosition).value
    {
      if CastLength(nickname) > MAX_NICKNAME_LENGTH {
        return Err(NicknameTooLong);
      }
      if level > MAX_LEVEL {
        return Err(LevelTooHigh);
      }
      var p := new Player.Init(nickname, level, currentPosition);
      return Ok(p);
    }

    /** `setNickname`: throws on a nickname that is too long and leaves the old one;
        otherwise replaces it. */
    method SetNickname(nickname: seq<byte>) returns (r: Outcome)
      requires Valid()
      modifies this
      ensures Valid()
      ensures r.Pass? <==> CastLength(nickname) <= MAX_NICKNAME_LENGTH
      ensures r.Fail? ==> r.error == NicknameTooLong && State() == old(State())
      ensures r.Pass? ==> State() == old(State()).(nickname := nickname)
    {
      if CastLength(nickname) > MAX_NICKNAME_LENGTH {
        return Fail(NicknameTooLong);
      }
      this.nickname := nickname;
      return Pass;
    }

    /** `getBuffs`: the held buffs' descriptions, concatenated in the set's order. */
    method GetBuffs() returns (descriptor: seq<byte>)
      ensures descriptor == Descriptions(buffs)
    {
      descriptor := [];
      for i := 0 to |buffs|
        invariant descriptor == Descriptions(buffs[..i])
      {
        assert buffs[..i + 1] == buffs[..i] + [buffs[i]];
        DescriptionsConcat(buffs[..i], [buffs[i]]);
        assert Descriptions([buffs[i]]) == buffs[i].description by {
          assert [buffs[i]][1..] == [];
        }
        descriptor := descriptor + buffs[i].description;
      }
      assert buffs[..|buffs|] == buffs;
    }

    /** `apply(StatsDelta &)`. */
    method ApplyStats(stats: StatsDelta)
      requires Valid()
      modifies this
      ensures Valid()
      ensures State() == ApplyDelta(old(State()), OfStats(stats))
    {
      level := ToUint32(level as int + stats.deltaLevel as int) % (MAX_LEVEL + 1);
      health := MinUint32(0, ToUint32(health as int + stats.deltaHealth as int)) % (MAX_HEALTH + 1);
    }

    /** `removeBuffs`. */
    method RemoveBuffs(remove: BuffSet)
      modifies this
      ensures State() == old(State()).(buffs := RemoveAll(old(buffs), remove))
    {
      buffs := RemoveAll(buffs, remove);
    }

    /** `addBuffs`. */
    method AddBuffs(add: BuffSet)
      modifies this
      ensures State() == old(State()).(buffs := InsertAll(old(buffs), add))
    {
      buffs := InsertAll(buffs, add);
    }

    /** `apply(BuffsDelta &)`: removes, then adds. */
    method ApplyBuffs(delta: BuffsDelta)
      requires Valid()
      modifies this
      ensures Valid()
      ensures State() == ApplyDelta(old(State()), OfBuffs(delta))
    {
      RemoveBuffs(delta.remove);
      AddBuffs(delta.add);
    }

    /** `apply(PositionDelta &)`: moves the current position, not the checkpoint. */
    method ApplyPosition(delta: PositionDelta)
      requires Valid()
      modifies this
      ensures Valid()
      ensures State() == ApplyDelta(old(State()), OfPosition(delta))
    {
      currentPosition := currentPosition.(x := currentPosition.x + delta.x);
      currentPosition := currentPosition.(y := currentPosition.y + delta.y);
    }

    /** A call through `ActionSubscriber &`, to whichever overload the delta selects. */
    method Apply(d: Delta)
      requires Valid()
      modifies this
      ensures Valid()
      ensures State() == ApplyDelta(old(State()), d)
    {
      match d
      case OfStats(st) => ApplyStats(st);
      case OfBuffs(b) => ApplyBuffs(b);
      case OfPosition(p) => ApplyPosition(p);
    }
  }
}
