/** An enemy: a type with fixed stats, a position that chases the player,
    and health that damage lowers but never below zero. */
module Enemies {
  import opened Common

  datatype EnemyType = Goblin | Skeleton | Orc | Demon
  {
    /** Declaration order in the enum. */
    function Ordinal(): nat
    {
      match this
      case Goblin => 0
      case Skeleton => 1
      case Orc => 2
      case Demon => 3
    }

    function Health(): real
    {
      match this
      case Goblin => 30.0
      case Skeleton => 50.0
      case Orc => 80.0
      case Demon => 120.0
    }

    function Speed(): real
    {
      match this
      case Goblin => 3.0
      case Skeleton => 2.5
      case Orc => 2.0
      case Demon => 3.5
    }

    function Damage(): real
    {
      match this
      case Goblin => 5.0
      case Skeleton => 8.0
      case Orc => 12.0
      case Demon => 15.0
    }

    function Size(): real
    {
      match this
      case Goblin => 0.8
      case Skeleton => 1.0
      case Orc => 1.2
      case Demon => 1.5
    }
  }

  /** Later types are tougher and hit harder: health, damage and sprite size
      strictly increase in declaration order, while speed does not. */
  lemma TypesGrowInOrder(a: EnemyType, b: EnemyType)
    requires a.Ordinal() < b.Ordinal()
    ensures a.Health() < b.Health() && a.Damage() < b.Damage() && a.Size() < b.Size()
  {
  }

  lemma SpeedIsNotOrdered()
    ensures Goblin.Ordinal() < Orc.Ordinal() && Goblin.Speed() > Orc.Speed()
  {
  }

  datatype EnemyState = EnemyState(kind: EnemyType, position: Vec3, health: real,
                                   maxHealth: real, speed: real, damage: real)

  /** The constructor: full health and the type's stats at a copy of the position. */
  function Spawned(kind: EnemyType, position: Vec3): (s: EnemyState)
    ensures s.health == s.maxHealth == kind.Health()
    ensures s.speed == kind.Speed() && s.damage == kind.Damage()
    ensures s.position == position && s.kind == kind
    ensures Healthy(s)
  {
    EnemyState(kind, position, kind.Health(), kind.Health(), kind.Speed(), kind.Damage())
  }

  /** update(tpf, player): one step of speed * tpf along the normalised direction to the player. */
  function Moved(s: EnemyState, tpf: real, playerPosition: Vec3, normalize: Vec3 -> Vec3): (r: EnemyState)
    ensures r.position == Add(s.position, Scale(normalize(Sub(playerPosition, s.position)), s.speed * tpf))
    ensures r == s.(position := r.position)
  {
    var direction := normalize(Sub(playerPosition, s.position));
    s.(position := Add(s.position, Scale(direction, s.speed * tpf)))
  }

  /** takeDamage: health drops by the damage, clamped at zero. */
  function Hit(s: EnemyState, damage: real): (r: EnemyState)
    ensures r.health >= 0.0
    ensures r.health == if s.health - damage > 0.0 then s.health - damage else 0.0
    ensures r == s.(health := r.health)
  {
    s.(health := Damaged(s.health, damage))
  }

  predicate Alive(s: EnemyState)
  {
    s.health > 0.0
  }

  /** What the constructor establishes and every operation keeps. */
  predicate Healthy(s: EnemyState)
  {
    0.0 <= s.health <= s.maxHealth
  }

  lemma HitKeepsHealthy(s: EnemyState, damage: real)
    requires Healthy(s) && damage >= 0.0
    ensures Healthy(Hit(s, damage))
  {
  }

  lemma MoveKeepsHealthy(s: EnemyState, tpf: real, playerPosition: Vec3, normalize: Vec3 -> Vec3)
    requires Healthy(s)
    ensures Healthy(Moved(s, tpf, playerPosition, normalize)) && Alive(Moved(s, tpf, playerPosition, normalize)) == Alive(s)
  {
  }

  function HitAll(s: EnemyState, damages: seq<real>): EnemyState
    decreases |damages|
  {
    if |damages| == 0 then s else Hit(HitAll(s, damages[..|damages| - 1]), damages[|damages| - 1])
  }

  /** A run of hits is the clamped total; a dead enemy stays dead. */
  lemma {:induction false} HitAllClamps(s: EnemyState, damages: seq<real>)
    ensures HitAll(s, damages) == s.(health := DamagedBy(s.health, damages))
    decreases |damages|
  {
    if |damages| > 0 {
      HitAllClamps(s, damages[..|damages| - 1]);
    }
  }

  /** A fresh enemy of a type dies from hits adding up to its type's health. */
  lemma KilledByTotalDamage(kind: EnemyType, position: Vec3, damages: seq<real>)
    requires AllNonNegative(damages) && Sum(damages) >= kind.Health()
    ensures !Alive(HitAll(Spawned(kind, position), damages))
  {
    HitAllClamps(Spawned(kind, position), damages);
    DamagedByBounds(kind.Health(), damages);
  }

  class Enemy
  {
    var kind: EnemyType
    var position: Vec3
    var health: real
    var maxHealth: real
    var speed: real
    var damage: real

    function State(): EnemyState
      reads this
    {
      EnemyState(kind, position, health, maxHealth, speed, damage)
    }

    constructor (kind: EnemyType, position: Vec3)
      ensures State() == Spawned(kind, position)
    {
      this.kind := kind;
      this.position := position;
      maxHealth := kind.Health();
      health := kind.Health();
      speed := kind.Speed();
      damage := kind.Damage();
    }

    method Update(tpf: real, playerPosition: Vec3, normalize: Vec3 -> Vec3)
      modifies this
      ensures State() == Moved(old(State()), tpf, playerPosition, normalize)
    {
      var direction := normalize(Sub(playerPosition, position));
      position := Add(position, Scale(direction, speed * tpf));
    }

    method TakeDamage(amount: real)
      modifies this
      ensures State() == Hit(old(State()), amount)
    {
      health := Max(0.0, health - amount);
    }

    function IsAlive(): (b: bool)
      reads this
      ensures b <==> State().health > 0.0
    {
      health > 0.0
    }

    /** A value copy: callers cannot alias the stored position. */
    function GetPosition(): (p: Vec3)
      reads this
      ensures p == State().position
    {
      position
    }

    function GetDamage(): (d: real)
      reads this
      ensures d == State().damage
    {
      damage
    }
  }
}
