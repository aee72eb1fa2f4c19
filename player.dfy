/** The player: health with clamping, experience and level-up bookkeeping,
    four stats, and the parameters derived from them. */
module Players {
  import opened Common

  const BaseMaxHealth: real := 100.0
  const BaseMoveSpeed: real := 7.0
  const BaseDamage: real := 10.0
  const BaseFireRate: real := 0.15

  /** The stat numbers levelUp understands. */
  const Strength: int := 1
  const Agility: int := 2
  const Vitality: int := 3
  const Dexterity: int := 4

  datatype PlayerState = PlayerState(
    position: Vec3, health: real, maxHealth: real,
    level: int, experience: int, experienceToNextLevel: int,
    strength: int, agility: int, vitality: int, dexterity: int)

  /** calculateMaxHealth: each vitality point beyond the first adds 20. */
  function MaxHealthFor(vitality: int): real
  {
    BaseMaxHealth + (vitality - 1) as real * 20.0
  }

  function MoveSpeedFor(agility: int): real
  {
    BaseMoveSpeed + (agility - 1) as real * 0.5
  }

  function DamageMultiplierFor(strength: int): real
  {
    1.0 + (strength - 1) as real * 0.15
  }

  /** Each dexterity point beyond the first takes 10% off, down to 30% of the base rate. */
  function FireCooldownFor(dexterity: int): real
  {
    BaseFireRate * Max(0.30, 1.0 - (dexterity - 1) as real * 0.10)
  }

  function BaseDamageFor(strength: int): real
  {
    BaseDamage * DamageMultiplierFor(strength)
  }

  /** The fire cooldown never drops below 0.045 s, never exceeds the base
      0.15 s for a real stat, shrinks as dexterity grows, and bottoms out from dexterity 8. */
  lemma FireCooldownBounds(d1: int, d2: int)
    requires 1 <= d1 <= d2
    ensures 0.045 <= FireCooldownFor(d2) <= FireCooldownFor(d1) <= BaseFireRate
    ensures d1 >= 8 ==> FireCooldownFor(d1) == 0.045
  {
  }

  /** The growth of each derived parameter per stat point. */
  lemma DerivedStatsGrowth(n: int)
    ensures MaxHealthFor(n + 1) == MaxHealthFor(n) + 20.0
    ensures MoveSpeedFor(n + 1) == MoveSpeedFor(n) + 0.5
    ensures DamageMultiplierFor(n + 1) == DamageMultiplierFor(n) + 0.15
    ensures BaseDamageFor(n + 1) == BaseDamageFor(n) + 1.5
    ensures MaxHealthFor(1) == 100.0 && MoveSpeedFor(1) == 7.0 && BaseDamageFor(1) == 10.0
  {
  }

  /** What the constructor establishes and every operation keeps. */
  predicate Valid(s: PlayerState)
  {
    s.level >= 1 && s.experienceToNextLevel == s.level * 100 &&
    s.strength >= 1 && s.agility >= 1 && s.vitality >= 1 && s.dexterity >= 1 &&
    s.maxHealth == MaxHealthFor(s.vitality)
  }

  predicate HealthInRange(s: PlayerState)
  {
    0.0 <= s.health <= s.maxHealth
  }

  function NewPlayer(): (s: PlayerState)
    ensures Valid(s) && HealthInRange(s)
    ensures s.level == 1 && s.experience == 0 && s.experienceToNextLevel == 100
    ensures s.strength == 1 && s.agility == 1 && s.vitality == 1 && s.dexterity == 1
    ensures s.health == s.maxHealth == 100.0 && s.position == Zero
  {
    PlayerState(Zero, MaxHealthFor(1), MaxHealthFor(1), 1, 0, 100, 1, 1, 1, 1)
  }

  function AfterDamage(s: PlayerState, damage: real): (r: PlayerState)
    ensures r.health >= 0.0
    ensures damage >= 0.0 && s.health >= 0.0 ==> r.health <= s.health
    ensures r == s.(health := r.health)
  {
    s.(health := Damaged(s.health, damage))
  }

  function AfterHeal(s: PlayerState, amount: real): (r: PlayerState)
    ensures r.health <= s.maxHealth
    ensures amount >= 0.0 ==> r.health >= s.health || r.health == s.maxHealth
    ensures r == s.(health := r.health)
  {
    s.(health := Min(s.maxHealth, s.health + amount))
  }

  predicate Alive(s: PlayerState)
  {
    s.health > 0.0
  }

  datatype XpGain = XpGain(state: PlayerState, levelUpReady: bool)

  /** addExperience: adds the points and reports whether a level-up is due; nothing else changes. */
  function WithExperience(s: PlayerState, xp: int): (g: XpGain)
    ensures g.state == s.(experience := s.experience + xp)
    ensures g.levelUpReady <==> s.experience + xp >= s.experienceToNextLevel
  {
    var r := s.(experience := s.experience + xp);
    XpGain(r, r.experience >= r.experienceToNextLevel)
  }

  /** levelUp(stat): pays the threshold, raises the level and the next
      threshold, and raises the chosen stat (vitality also refills health). */
  function LeveledUp(s: PlayerState, stat: int): (r: PlayerState)
    ensures r.experience == s.experience - s.experienceToNextLevel
    ensures r.level == s.level + 1 && r.experienceToNextLevel == r.level * 100
    ensures r.strength == s.strength + (if stat == Strength then 1 else 0)
    ensures r.agility == s.agility + (if stat == Agility then 1 else 0)
    ensures r.vitality == s.vitality + (if stat == Vitality then 1 else 0)
    ensures r.dexterity == s.dexterity + (if stat == Dexterity then 1 else 0)
    ensures stat == Vitality ==> r.maxHealth == MaxHealthFor(r.vitality) && r.health == r.maxHealth
    ensures stat != Vitality ==> r.maxHealth == s.maxHealth && r.health == s.health
    ensures r.position == s.position
  {
    var paid := s.(experience := s.experience - s.experienceToNextLevel, level := s.level + 1);
    var r := paid.(experienceToNextLevel := paid.level * 100);
    if stat == Strength then r.(strength := r.strength + 1)
    else if stat == Agility then r.(agility := r.agility + 1)
    else if stat == Vitality then
      var v := r.(vitality := r.vitality + 1);
      var m := v.(maxHealth := MaxHealthFor(v.vitality));
      m.(health := m.maxHealth)
    else if stat == Dexterity then r.(dexterity := r.dexterity + 1)
    else r
  }

  lemma LevelUpKeepsValid(s: PlayerState, stat: int)
    requires Valid(s)
    ensures Valid(LeveledUp(s, stat))
    ensures HealthInRange(s) ==> HealthInRange(LeveledUp(s, stat))
  {
  }

  /** Experience earned over the whole game: what is banked plus every threshold already paid. */
  function TotalExperience(s: PlayerState): int
  {
    s.experience + 50 * s.level * (s.level - 1)
  }

  /** Levelling up converts banked points into a level without losing any;
      adding experience adds exactly that much. */
  lemma ExperienceConserved(s: PlayerState, stat: int, xp: int)
    requires Valid(s)
    ensures TotalExperience(LeveledUp(s, stat)) == TotalExperience(s)
    ensures TotalExperience(WithExperience(s, xp).state) == TotalExperience(s) + xp
  {
    var r := LeveledUp(s, stat);
    assert 50 * (s.level + 1) * s.level == 50 * s.level * (s.level - 1) + 100 * s.level;
  }

  datatype Event = Damage(amount: real) | Healing(amount: real) | Level(stat: int) | Experience(xp: int)

  function Apply(s: PlayerState, e: Event): PlayerState
  {
    match e
    case Damage(d) => AfterDamage(s, d)
    case Healing(a) => AfterHeal(s, a)
    case Level(stat) => LeveledUp(s, stat)
    case Experience(xp) => WithExperience(s, xp).state
  }

  function ApplyAll(s: PlayerState, events: seq<Event>): PlayerState
    decreases |events|
  {
    if |events| == 0 then s else ApplyAll(Apply(s, events[0]), events[1..])
  }

  predicate NonNegativeAmount(e: Event)
  {
    match e
    case Damage(d) => d >= 0.0
    case Healing(a) => a >= 0.0
    case _ => true
  }

  /** With non-negative damage and healing, health stays within [0, maxHealth]
      and the structural invariant holds, whatever the order of events. */
  lemma {:induction false} HealthStaysInRange(s: PlayerState, events: seq<Event>)
    requires Valid(s) && HealthInRange(s)
    requires forall k :: 0 <= k < |events| ==> NonNegativeAmount(events[k])
    ensures Valid(ApplyAll(s, events)) && HealthInRange(ApplyAll(s, events))
    decreases |events|
  {
    if |events| > 0 {
      var r := Apply(s, events[0]);
      assert NonNegativeAmount(events[0]);
      if events[0].Level? {
        LevelUpKeepsValid(s, events[0].stat);
      }
      HealthStaysInRange(r, events[1..]);
    }
  }

  /** The fresh player dies to 100 damage and not to less. */
  lemma NewPlayerLethalDamage(d: real)
    requires d >= 0.0
    ensures !Alive(AfterDamage(NewPlayer(), d)) <==> d >= 100.0
  {
  }

  class Player
  {
    var position: Vec3
    var health: real
    var maxHealth: real
    var level: int
    var experience: int
    var experienceToNextLevel: int
    var strength: int
    var agility: int
    var vitality: int
    var dexterity: int

    function State(): PlayerState
      reads this
    {
      PlayerState(position, health, maxHealth, level, experience, experienceToNextLevel,
                  strength, agility, vitality, dexterity)
    }

    ghost predicate Invariant()
      reads this
    {
      Valid(State())
    }

    constructor ()
      ensures State() == NewPlayer() && Invariant()
    {
      position := Zero;
      level := 1;
      experience := 0;
      experienceToNextLevel := 100;
      strength := 1;
      agility := 1;
      vitality := 1;
      dexterity := 1;
      maxHealth := MaxHealthFor(1);
      health := maxHealth;
    }

    method SetPosition(p: Vec3)
      modifies this
      ensures State() == old(State()).(position := p)
    {
      position := p;
    }

    function GetPosition(): (p: Vec3)
      reads this
      ensures p == State().position
    {
      position
    }

    method Move(delta: Vec3)
      modifies this
      ensures State() == old(State()).(position := Add(old(position), delta))
    {
      position := Add(position, delta);
    }

    function GetHealth(): (h: real)
      reads this
      ensures h == State().health
    {
      health
    }

    function GetMaxHealth(): (h: real)
      reads this
      ensures h == State().maxHealth
    {
      maxHealth
    }

    method TakeDamage(damage: real)
      modifies this
      ensures State() == AfterDamage(old(State()), damage)
    {
      health := Max(0.0, health - damage);
    }

    method Heal(amount: real)
      modifies this
      ensures State() == AfterHeal(old(State()), amount)
    {
      health := Min(maxHealth, health + amount);
    }

    function IsAlive(): (b: bool)
      reads this
      ensures b <==> Alive(State())
    {
      health > 0.0
    }

    method AddExperience(xp: int) returns (levelUpReady: bool)
      modifies this
      ensures XpGain(State(), levelUpReady) == WithExperience(old(State()), xp)
    {
      experience := experience + xp;
      levelUpReady := experience >= experienceToNextLevel;
    }

    method LevelUp(stat: int)
      modifies this
      ensures State() == LeveledUp(old(State()), stat)
    {
      experience := experience - experienceToNextLevel;
      level := level + 1;
      experienceToNextLevel := level * 100;
      if stat == Strength {
        strength := strength + 1;
      } else if stat == Agility {
        agility := agility + 1;
      } else if stat == Vitality {
        vitality := vitality + 1;
        maxHealth := MaxHealthFor(vitality);
        health := maxHealth;
      } else if stat == Dexterity {
        dexterity := dexterity + 1;
      }
    }

    function GetMoveSpeed(): (v: real)
      reads this
      ensures v == MoveSpeedFor(State().agility)
    {
      MoveSpeedFor(agility)
    }

    function GetDamageMultiplier(): (m: real)
      reads this
      ensures m == DamageMultiplierFor(State().strength)
    {
      DamageMultiplierFor(strength)
    }

    function GetFireCooldown(): (c: real)
      reads this
      ensures Invariant() ==> 0.045 <= c <= BaseFireRate
    {
      FireCooldownFor(dexterity)
    }

    function GetBaseDamage(): (d: real)
      reads this
      ensures d == BaseDamageFor(State().strength)
    {
      BaseDamageFor(strength)
    }
  }
}
