/** A projectile: flies in a straight line at constant speed, expires after
    three seconds, and is used up by its first collision. */
module Projectiles {
  import opened Common

  const ProjectileSpeed: real := 15.0
  const MaxLifetime: real := 3.0

  datatype ProjState = ProjState(position: Vec3, velocity: Vec3, damage: real,
                                 lifetime: real, maxLifetime: real, active: bool)

  /** The constructor: a copy of the start position, the normalised direction
      times the speed, no time flown, and active. */
  function Launch(start: Vec3, direction: Vec3, damage: real, normalize: Vec3 -> Vec3): (s: ProjState)
    ensures s.active && s.lifetime == 0.0 && s.maxLifetime == MaxLifetime
    ensures s.position == start && s.damage == damage
    ensures s.velocity == Scale(normalize(direction), ProjectileSpeed)
    ensures Fresh(s)
  {
    ProjState(start, Scale(normalize(direction), ProjectileSpeed), damage, 0.0, MaxLifetime, true)
  }

  /** update(tpf): an inactive projectile does nothing; an active one moves
      by velocity * tpf, ages by tpf, and switches off on reaching its lifetime. */
  function Advance(s: ProjState, tpf: real): (r: ProjState)
    ensures !s.active ==> r == s
    ensures s.active ==> r.position == Add(s.position, Scale(s.velocity, tpf)) && r.lifetime == s.lifetime + tpf
    ensures s.active ==> (r.active <==> s.lifetime + tpf < s.maxLifetime)
    ensures r.velocity == s.velocity && r.damage == s.damage && r.maxLifetime == s.maxLifetime
  {
    if !s.active then s
    else
      var moved := s.(position := Add(s.position, Scale(s.velocity, tpf)), lifetime := s.lifetime + tpf);
      if moved.lifetime >= moved.maxLifetime then moved.(active := false) else moved
  }

  datatype Probe = Probe(hit: bool, after: ProjState)

  /** checkCollision(target, radius): a hit exactly when the projectile is
      active and within the radius of the target, and a hit switches it off. */
  function Collision(s: ProjState, target: Vec3, radius: real): (p: Probe)
    ensures p.hit <==> s.active && WithinRadius(s.position, target, radius)
    ensures p.after == if p.hit then s.(active := false) else s
  {
    if !s.active then Probe(false, s)
    else if WithinRadius(s.position, target, radius) then Probe(true, s.(active := false))
    else Probe(false, s)
  }

  function Deactivated(s: ProjState): (r: ProjState)
    ensures !r.active
    ensures r.position == s.position && r.lifetime == s.lifetime && r.damage == s.damage
  {
    s.(active := false)
  }

  /** Everything that can happen to a projectile. */
  datatype Event = Tick(tpf: real) | Collide(target: Vec3, radius: real) | Kill

  function Step(s: ProjState, e: Event): Probe
  {
    match e
    case Tick(tpf) => Probe(false, Advance(s, tpf))
    case Collide(target, radius) => Collision(s, target, radius)
    case Kill => Probe(false, Deactivated(s))
  }

  /** The state after a sequence of events. */
  function Replay(s: ProjState, events: seq<Event>): ProjState
    decreases |events|
  {
    if |events| == 0 then s else Replay(Step(s, events[0]).after, events[1..])
  }

  /** How many of those events were collisions that hit. */
  function HitCount(s: ProjState, events: seq<Event>): nat
    decreases |events|
  {
    if |events| == 0 then 0
    else (if Step(s, events[0]).hit then 1 else 0) + HitCount(Step(s, events[0]).after, events[1..])
  }

  /** No event turns an inactive projectile back on. */
  lemma StepNeverReactivates(s: ProjState, e: Event)
    requires !s.active
    ensures !Step(s, e).after.active && !Step(s, e).hit
  {
  }

  /** An inactive projectile never hits again, and a projectile registers at
      most one collision over any sequence of events. */
  lemma {:induction false} AtMostOneHit(s: ProjState, events: seq<Event>)
    ensures HitCount(s, events) <= (if s.active then 1 else 0)
    ensures !s.active ==> !Replay(s, events).active
    decreases |events|
  {
    if |events| > 0 {
      var r := Step(s, events[0]);
      AtMostOneHit(r.after, events[1..]);
      if r.hit {
        assert !r.after.active;
      } else if !s.active {
        StepNeverReactivates(s, events[0]);
      }
    }
  }

  /** Launched projectiles satisfy: active ones have time left. */
  predicate Fresh(s: ProjState)
  {
    s.active ==> s.lifetime < s.maxLifetime
  }

  /** Every event keeps that invariant. */
  lemma StepKeepsFresh(s: ProjState, e: Event)
    requires Fresh(s)
    ensures Fresh(Step(s, e).after)
  {
  }

  function AdvanceAll(s: ProjState, tpfs: seq<real>): ProjState
    decreases |tpfs|
  {
    if |tpfs| == 0 then s else AdvanceAll(Advance(s, tpfs[0]), tpfs[1..])
  }

  function SumFrom(xs: seq<real>): real
    decreases |xs|
  {
    if |xs| == 0 then 0.0 else xs[0] + SumFrom(xs[1..])
  }

  /** A launched projectile that is only ever ticked is gone once the frame
      times add up to its remaining lifetime. */
  lemma {:induction false} ExpiresAfterLifetime(s: ProjState, tpfs: seq<real>)
    requires Fresh(s) && s.lifetime + SumFrom(tpfs) >= s.maxLifetime
    ensures !AdvanceAll(s, tpfs).active
    decreases |tpfs|
  {
    if |tpfs| > 0 {
      var r := Advance(s, tpfs[0]);
      if r.active {
        ExpiresAfterLifetime(r, tpfs[1..]);
      } else {
        InactiveStaysInactive(r, tpfs[1..]);
      }
    }
  }

  lemma {:induction false} InactiveStaysInactive(s: ProjState, tpfs: seq<real>)
    requires !s.active
    ensures AdvanceAll(s, tpfs) == s
    decreases |tpfs|
  {
    if |tpfs| > 0 {
      InactiveStaysInactive(Advance(s, tpfs[0]), tpfs[1..]);
    }
  }

  class Projectile
  {
    var position: Vec3
    var velocity: Vec3
    var damage: real
    var lifetime: real
    var maxLifetime: real
    var active: bool

    function State(): ProjState
      reads this
    {
      ProjState(position, velocity, damage, lifetime, maxLifetime, active)
    }

    constructor (startPosition: Vec3, direction: Vec3, damage: real, normalize: Vec3 -> Vec3)
      ensures State() == Launch(startPosition, direction, damage, normalize)
    {
      position := startPosition;
      velocity := Scale(normalize(direction), ProjectileSpeed);
      this.damage := damage;
      lifetime := 0.0;
      maxLifetime := MaxLifetime;
      active := true;
    }

    method Update(tpf: real)
      modifies this
      ensures State() == Advance(old(State()), tpf)
    {
      if !active {
        return;
      }
      position := Add(position, Scale(velocity, tpf));
      lifetime := lifetime + tpf;
      if lifetime >= maxLifetime {
        active := false;
      }
    }

    method CheckCollision(targetPosition: Vec3, targetRadius: real) returns (hit: bool)
      modifies this
      ensures Probe(hit, State()) == Collision(old(State()), targetPosition, targetRadius)
    {
      if !active {
        return false;
      }
      if WithinRadius(position, targetPosition, targetRadius) {
        active := false;
        return true;
      }
      return false;
    }

    function IsActive(): (b: bool)
      reads this
      ensures b == State().active
    {
      active
    }

    method Deactivate()
      modifies this
      ensures State() == Deactivated(old(State()))
    {
      active := false;
    }

    function GetDamage(): (d: real)
      reads this
      ensures d == State().damage
    {
      damage
    }

    /** A value copy: callers cannot alias the stored position. */
    function GetPosition(): (p: Vec3)
      reads this
      ensures p == State().position
    {
      position
    }
  }
}
