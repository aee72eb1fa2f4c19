/** The combat manager: the enemy and projectile lists, the fire-rate
    cooldown, and the per-frame update (age projectiles, drop the expired
    ones, resolve hits, drop the dead). */
module Combat {
  import opened Common
  import opened Projectiles
  import opened Enemies
  import Players

  const FireRate: real := 0.15
  /** The radius checkCollision is given for every enemy. */
  const HitRadius: real := 0.5

  // ---------------------------------------------------------------------
  // The collision pass on values

  datatype Clash = Clash(enemy: EnemyState, projectiles: seq<ProjState>)

  /** The inner loop for one enemy: every projectile in turn checks the
      enemy's position, and each hit damages the enemy by that projectile's damage. */
  function HitEnemy(e: EnemyState, ps: seq<ProjState>): (c: Clash)
    ensures |c.projectiles| == |ps| && c.enemy == e.(health := c.enemy.health)
    decreases |ps|
  {
    if |ps| == 0 then Clash(e, [])
    else
      var n := |ps| - 1;
      var c := HitEnemy(e, ps[..n]);
      var probe := Collision(ps[n], c.enemy.position, HitRadius);
      Clash(if probe.hit then Hit(c.enemy, ps[n].damage) else c.enemy, c.projectiles + [probe.after])
  }

  datatype Battle = Battle(enemies: seq<EnemyState>, projectiles: seq<ProjState>)

  /** The outer loop: each enemy in list order meets every projectile. */
  function CollisionPass(es: seq<EnemyState>, ps: seq<ProjState>): (b: Battle)
    ensures |b.enemies| == |es| && |b.projectiles| == |ps|
    decreases |es|
  {
    if |es| == 0 then Battle([], ps)
    else
      var n := |es| - 1;
      var b := CollisionPass(es[..n], ps);
      var c := HitEnemy(es[n], b.projectiles);
      Battle(b.enemies + [c.enemy], c.projectiles)
  }

  predicate InReach(p: ProjState, e: EnemyState)
  {
    WithinRadius(p.position, e.position, HitRadius)
  }

  /** The first enemy in list order within reach of the projectile, or |es| if none is. */
  function FirstInReach(p: ProjState, es: seq<EnemyState>): (f: nat)
    ensures f <= |es|
    ensures f < |es| ==> InReach(p, es[f])
    ensures forall i :: 0 <= i < f ==> !InReach(p, es[i])
    decreases |es|
  {
    if |es| == 0 then 0
    else
      var n := |es| - 1;
      var f := FirstInReach(p, es[..n]);
      if f < n then f else if InReach(p, es[n]) then n else n + 1
  }

  function Damages(ps: seq<ProjState>): (ds: seq<real>)
    ensures |ds| == |ps| && forall j :: 0 <= j < |ps| ==> ds[j] == ps[j].damage
  {
    seq(|ps|, j requires 0 <= j < |ps| => ps[j].damage)
  }

  /** Projectile j lands on enemy i: it was active and enemy i is the first one in reach. */
  function LandsOn(i: int, es: seq<EnemyState>, ps: seq<ProjState>): (mask: seq<bool>)
    ensures |mask| == |ps|
    ensures forall j :: 0 <= j < |ps| ==> (mask[j] <==> ps[j].active && FirstInReach(ps[j], es) == i < |es|)
  {
    seq(|ps|, j requires 0 <= j < |ps| => ps[j].active && FirstInReach(ps[j], es) == i < |es|)
  }

  /** The damages enemy i takes in the pass, in projectile order. */
  function HitsOn(i: int, es: seq<EnemyState>, ps: seq<ProjState>): seq<real>
  {
    SelectBy(Damages(ps), LandsOn(i, es, ps))
  }

  /** A projectile after the pass: used up if it was active and some enemy was in reach. */
  function Consumed(p: ProjState, es: seq<EnemyState>): (r: ProjState)
    ensures r == p || (r == p.(active := false) && p.active)
  {
    if p.active && FirstInReach(p, es) < |es| then p.(active := false) else p
  }

  function ConsumedAll(ps: seq<ProjState>, es: seq<EnemyState>): (r: seq<ProjState>)
    ensures |r| == |ps| && forall j :: 0 <= j < |ps| ==> r[j] == Consumed(ps[j], es)
  {
    seq(|ps|, j requires 0 <= j < |ps| => Consumed(ps[j], es))
  }

  function InReachMask(pos: Vec3, ps: seq<ProjState>): (mask: seq<bool>)
    ensures |mask| == |ps|
    ensures forall j :: 0 <= j < |ps| ==> (mask[j] <==> ps[j].active && WithinRadius(ps[j].position, pos, HitRadius))
  {
    seq(|ps|, j requires 0 <= j < |ps| => ps[j].active && WithinRadius(ps[j].position, pos, HitRadius))
  }

  lemma HitEnemyStep(e: EnemyState, ps: seq<ProjState>, n: nat)
    requires n < |ps|
    ensures HitEnemy(e, ps[..n + 1]) ==
      var c := HitEnemy(e, ps[..n]);
      var probe := Collision(ps[n], c.enemy.position, HitRadius);
      Clash(if probe.hit then Hit(c.enemy, ps[n].damage) else c.enemy, c.projectiles + [probe.after])
  {
    assert ps[..n + 1][..n] == ps[..n];
  }

  /** One enemy's inner loop in closed form: the active projectiles in reach
      are used up, and their damages are applied in order. */
  lemma HitEnemyClosedForm(e: EnemyState, ps: seq<ProjState>)
    ensures HitEnemy(e, ps).enemy == HitAll(e, SelectBy(Damages(ps), InReachMask(e.position, ps)))
    ensures forall j :: 0 <= j < |ps| ==>
      HitEnemy(e, ps).projectiles[j] ==
        if ps[j].active && WithinRadius(ps[j].position, e.position, HitRadius) then ps[j].(active := false) else ps[j]
  {
    HitEnemyDamage(e, ps);
    HitEnemyUsesUp(e, ps);
  }

  lemma {:induction false} HitEnemyDamage(e: EnemyState, ps: seq<ProjState>)
    ensures HitEnemy(e, ps).enemy == HitAll(e, SelectBy(Damages(ps), InReachMask(e.position, ps)))
    decreases |ps|
  {
    if |ps| > 0 {
      var n := |ps| - 1;
      HitEnemyDamage(e, ps[..n]);
      var c := HitEnemy(e, ps[..n]);
      var mask := InReachMask(e.position, ps);
      assert Damages(ps)[..n] == Damages(ps[..n]);
      assert mask[..n] == InReachMask(e.position, ps[..n]);
      var ds := SelectBy(Damages(ps[..n]), InReachMask(e.position, ps[..n]));
      assert c.enemy == HitAll(e, ds);
      assert SelectBy(Damages(ps), mask) == ds + (if mask[n] then [ps[n].damage] else []);
      assert c.enemy.position == e.position;
      assert ps[..n + 1] == ps;
      HitEnemyStep(e, ps, n);
      if mask[n] {
        assert Collision(ps[n], c.enemy.position, HitRadius).hit;
        assert HitEnemy(e, ps).enemy == Hit(c.enemy, ps[n].damage);
        var ds' := ds + [ps[n].damage];
        assert ds'[..|ds'| - 1] == ds;
        assert HitAll(e, ds') == Hit(HitAll(e, ds), ps[n].damage);
        assert SelectBy(Damages(ps), mask) == ds';
      } else {
        assert SelectBy(Damages(ps), mask) == ds;
      }
    }
  }

  lemma {:induction false} HitEnemyUsesUp(e: EnemyState, ps: seq<ProjState>)
    ensures forall j :: 0 <= j < |ps| ==>
      HitEnemy(e, ps).projectiles[j] ==
        if ps[j].active && WithinRadius(ps[j].position, e.position, HitRadius) then ps[j].(active := false) else ps[j]
    decreases |ps|
  {
    if |ps| > 0 {
      var n := |ps| - 1;
      HitEnemyUsesUp(e, ps[..n]);
      var c := HitEnemy(e, ps[..n]);
      assert HitEnemy(e, ps).projectiles == c.projectiles + [Collision(ps[n], e.position, HitRadius).after];
    }
  }

  lemma CollisionPassStep(es: seq<EnemyState>, ps: seq<ProjState>, n: nat)
    requires n < |es|
    ensures CollisionPass(es[..n + 1], ps) ==
      var b := CollisionPass(es[..n], ps);
      var c := HitEnemy(es[n], b.projectiles);
      Battle(b.enemies + [c.enemy], c.projectiles)
  {
    assert es[..n + 1][..n] == es[..n];
  }

  lemma FirstInReachExtend(p: ProjState, es: seq<EnemyState>, k: nat)
    requires k < |es|
    ensures FirstInReach(p, es[..k + 1]) ==
      (if FirstInReach(p, es[..k]) < k then FirstInReach(p, es[..k]) else if InReach(p, es[k]) then k else k + 1)
  {
    assert es[..k + 1][..k] == es[..k];
  }

  lemma FirstInReachLast(p: ProjState, es: seq<EnemyState>)
    requires |es| > 0
    ensures FirstInReach(p, es) ==
      (if FirstInReach(p, es[..|es| - 1]) < |es| - 1 then FirstInReach(p, es[..|es| - 1])
       else if InReach(p, es[|es| - 1]) then |es| - 1 else |es|)
  {
  }

  /** After the enemies before the last, the last enemy uses up exactly the
      projectiles whose first enemy in reach is the last one. */
  lemma LastEnemyMask(es: seq<EnemyState>, ps: seq<ProjState>)
    requires |es| > 0
    ensures InReachMask(es[|es| - 1].position, ConsumedAll(ps, es[..|es| - 1])) == LandsOn(|es| - 1, es, ps)
  {
    var n := |es| - 1;
    forall j | 0 <= j < |ps|
      ensures InReachMask(es[n].position, ConsumedAll(ps, es[..n]))[j] == LandsOn(n, es, ps)[j]
    {
      FirstInReachLast(ps[j], es);
    }
  }

  lemma LastEnemyProjectiles(es: seq<EnemyState>, ps: seq<ProjState>)
    requires |es| > 0
    ensures HitEnemy(es[|es| - 1], ConsumedAll(ps, es[..|es| - 1])).projectiles == ConsumedAll(ps, es)
  {
    var n := |es| - 1;
    var mid := ConsumedAll(ps, es[..n]);
    HitEnemyClosedForm(es[n], mid);
    forall j | 0 <= j < |ps|
      ensures HitEnemy(es[n], mid).projectiles[j] == Consumed(ps[j], es)
    {
      FirstInReachLast(ps[j], es);
    }
  }

  lemma EarlierEnemyMask(es: seq<EnemyState>, ps: seq<ProjState>, i: int)
    requires 0 <= i < |es| - 1
    ensures LandsOn(i, es, ps) == LandsOn(i, es[..|es| - 1], ps)
  {
    forall j | 0 <= j < |ps|
      ensures LandsOn(i, es, ps)[j] == LandsOn(i, es[..|es| - 1], ps)[j]
    {
      FirstInReachLast(ps[j], es);
    }
  }

  /** The whole collision pass in closed form: each active projectile is used
      up by the first enemy in list order within reach (dead or alive), and
      each enemy takes exactly the damages of the projectiles it used up. */
  lemma {:induction false} CollisionPassClosedForm(es: seq<EnemyState>, ps: seq<ProjState>)
    ensures CollisionPass(es, ps).projectiles == ConsumedAll(ps, es)
    ensures forall i :: 0 <= i < |es| ==> CollisionPass(es, ps).enemies[i] == HitAll(es[i], HitsOn(i, es, ps))
    decreases |es|
  {
    if |es| > 0 {
      var n := |es| - 1;
      var pre := es[..n];
      CollisionPassClosedForm(pre, ps);
      var mid := ConsumedAll(ps, pre);
      LastEnemyProjectiles(es, ps);
      LastEnemyMask(es, ps);
      HitEnemyClosedForm(es[n], mid);
      assert Damages(mid) == Damages(ps);
      forall i | 0 <= i < n
        ensures CollisionPass(es, ps).enemies[i] == HitAll(es[i], HitsOn(i, es, ps))
      {
        EarlierEnemyMask(es, ps, i);
      }
    }
  }

  /** A projectile lands on at most one enemy, and only an active one lands at all. */
  lemma LandsOnAtMostOne(es: seq<EnemyState>, ps: seq<ProjState>, j: int, i1: int, i2: int)
    requires 0 <= j < |ps|
    requires LandsOn(i1, es, ps)[j] && LandsOn(i2, es, ps)[j]
    ensures i1 == i2 && ps[j].active && 0 <= i1 < |es|
  {
  }

  /** An enemy killed earlier still soaks up projectiles: with non-negative
      damages, its health stays 0 and every projectile that reaches it first is used up. */
  lemma DeadEnemyStillAbsorbs(es: seq<EnemyState>, ps: seq<ProjState>, i: int, j: int)
    requires 0 <= i < |es| && es[i].health == 0.0
    requires forall k :: 0 <= k < |ps| ==> ps[k].damage >= 0.0
    requires 0 <= j < |ps| && LandsOn(i, es, ps)[j]
    ensures CollisionPass(es, ps).enemies[i].health == 0.0
    ensures !CollisionPass(es, ps).projectiles[j].active
  {
    CollisionPassClosedForm(es, ps);
    var ds := HitsOn(i, es, ps);
    forall k | 0 <= k < |ds|
      ensures ds[k] >= 0.0
    {
      SelectByMembership(Damages(ps), LandsOn(i, es, ps), ds[k]);
    }
    HitAllClamps(es[i], ds);
    DeadStaysDead(ds);
  }

  // ---------------------------------------------------------------------
  // A whole frame on values

  datatype CombatState = CombatState(enemies: seq<EnemyState>, projectiles: seq<ProjState>, fireCooldown: real)

  function Advanced(ps: seq<ProjState>, tpf: real): (r: seq<ProjState>)
    ensures |r| == |ps| && forall j :: 0 <= j < |ps| ==> r[j] == Advance(ps[j], tpf)
  {
    seq(|ps|, j requires 0 <= j < |ps| => Advance(ps[j], tpf))
  }

  function StillActive(ps: seq<ProjState>): (mask: seq<bool>)
    ensures |mask| == |ps| && forall j :: 0 <= j < |ps| ==> mask[j] == ps[j].active
  {
    seq(|ps|, j requires 0 <= j < |ps| => ps[j].active)
  }

  function StillAlive(es: seq<EnemyState>): (mask: seq<bool>)
    ensures |mask| == |es| && forall i :: 0 <= i < |es| ==> mask[i] == Alive(es[i])
  {
    seq(|es|, i requires 0 <= i < |es| => Alive(es[i]))
  }

  function CooldownTick(cooldown: real, tpf: real): real
  {
    if cooldown > 0.0 then cooldown - tpf else cooldown
  }

  /** The projectile pass on values: every projectile advances and the
      inactive ones are dropped. */
  function ProjectilePass(s: CombatState, tpf: real): CombatState
  {
    var advanced := Advanced(s.projectiles, tpf);
    s.(projectiles := SelectBy(advanced, StillActive(advanced)))
  }

  /** The collision pass on values. */
  function CollisionStage(s: CombatState): CombatState
  {
    var battle := CollisionPass(s.enemies, s.projectiles);
    s.(enemies := battle.enemies, projectiles := battle.projectiles)
  }

  /** The dead-enemy pass on values. */
  function DeadRemoved(s: CombatState): CombatState
  {
    s.(enemies := SelectBy(s.enemies, StillAlive(s.enemies)))
  }

  /** update(tpf) on values: the cooldown tick, then the three passes. */
  function Frame(s: CombatState, tpf: real): CombatState
  {
    DeadRemoved(CollisionStage(ProjectilePass(s.(fireCooldown := CooldownTick(s.fireCooldown, tpf)), tpf)))
  }

  /** After a frame every enemy left is alive, no list grew, and the
      cooldown went down by tpf exactly when it was positive. */
  lemma FrameProperties(s: CombatState, tpf: real)
    ensures forall e :: e in Frame(s, tpf).enemies ==> Alive(e)
    ensures |Frame(s, tpf).enemies| <= |s.enemies| && |Frame(s, tpf).projectiles| <= |s.projectiles|
    ensures Frame(s, tpf).fireCooldown == if s.fireCooldown > 0.0 then s.fireCooldown - tpf else s.fireCooldown
  {
    var advanced := Advanced(s.projectiles, tpf);
    var kept := SelectBy(advanced, StillActive(advanced));
    var battle := CollisionPass(s.enemies, kept);
    forall e | e in Frame(s, tpf).enemies
      ensures Alive(e)
    {
      SelectByMembership(battle.enemies, StillAlive(battle.enemies), e);
    }
  }

  /** The projectiles that enter the collision pass are exactly the ones
      still active after their own update, in their original order. */
  lemma SurvivorsAreActive(ps: seq<ProjState>, tpf: real, p: ProjState)
    ensures p in SelectBy(Advanced(ps, tpf), StillActive(Advanced(ps, tpf))) <==>
      exists j :: 0 <= j < |ps| && Advance(ps[j], tpf) == p && p.active
  {
    SelectByMembership(Advanced(ps, tpf), StillActive(Advanced(ps, tpf)), p);
  }

  function CooldownAfter(cooldown: real, tpfs: seq<real>): real
    decreases |tpfs|
  {
    if |tpfs| == 0 then cooldown else CooldownAfter(CooldownTick(cooldown, tpfs[0]), tpfs[1..])
  }

  function FrameTimes(tpfs: seq<real>): real
    decreases |tpfs|
  {
    if |tpfs| == 0 then 0.0 else tpfs[0] + FrameTimes(tpfs[1..])
  }

  /** Frames shorter in total than the remaining cooldown leave it positive,
      so firing is still refused. */
  lemma {:induction false} CooldownHolds(cooldown: real, tpfs: seq<real>)
    requires forall k :: 0 <= k < |tpfs| ==> tpfs[k] >= 0.0
    requires FrameTimes(tpfs) < cooldown
    ensures CooldownAfter(cooldown, tpfs) == cooldown - FrameTimes(tpfs) > 0.0
    decreases |tpfs|
  {
    if |tpfs| > 0 {
      assert FrameTimes(tpfs[1..]) >= 0.0 by { FrameTimesNonNegative(tpfs[1..]); }
      CooldownHolds(cooldown - tpfs[0], tpfs[1..]);
    }
  }

  lemma {:induction false} FrameTimesNonNegative(tpfs: seq<real>)
    requires forall k :: 0 <= k < |tpfs| ==> tpfs[k] >= 0.0
    ensures FrameTimes(tpfs) >= 0.0
    decreases |tpfs|
  {
    if |tpfs| > 0 {
      FrameTimesNonNegative(tpfs[1..]);
    }
  }

  /** The damages the player actually takes: the positive attack results, in enemy order. */
  function Positives(ds: seq<real>): (r: seq<real>)
    ensures AllNonNegative(r) && |r| <= |ds|
    decreases |ds|
  {
    if |ds| == 0 then []
    else Positives(ds[..|ds| - 1]) + (if ds[|ds| - 1] > 0.0 then [ds[|ds| - 1]] else [])
  }

  // ---------------------------------------------------------------------
  // The objects

  function EnemyStates(es: seq<Enemy>): (r: seq<EnemyState>)
    reads es
  {
    seq(|es|, i reads es requires 0 <= i < |es| => es[i].State())
  }

  function ProjStates(ps: seq<Projectile>): (r: seq<ProjState>)
    reads ps
  {
    seq(|ps|, j reads ps requires 0 <= j < |ps| => ps[j].State())
  }

  lemma EnemyStatesPointwise(es: seq<Enemy>, r: seq<EnemyState>)
    requires |r| == |es| && forall i :: 0 <= i < |es| ==> es[i].State() == r[i]
    ensures EnemyStates(es) == r
  {
  }

  lemma ProjStatesPointwise(ps: seq<Projectile>, r: seq<ProjState>)
    requires |r| == |ps| && forall j :: 0 <= j < |ps| ==> ps[j].State() == r[j]
    ensures ProjStates(ps) == r
  {
  }

  lemma EnemyStatesSelect(es: seq<Enemy>, mask: seq<bool>)
    requires |mask| == |es|
    ensures EnemyStates(SelectBy(es, mask)) == SelectBy(EnemyStates(es), mask)
  {
    var st := EnemyStates(es);
    var at := SelectBy(Positions(|es|), mask);
    SelectByPositions(es, mask);
    SelectByPositions(st, mask);
    forall k | 0 <= k < |at|
      ensures SelectBy(es, mask)[k].State() == SelectBy(st, mask)[k]
    {
      assert SelectBy(es, mask)[k] == es[at[k]] && SelectBy(st, mask)[k] == st[at[k]];
    }
    EnemyStatesPointwise(SelectBy(es, mask), SelectBy(st, mask));
  }

  lemma ProjStatesSelect(ps: seq<Projectile>, mask: seq<bool>)
    requires |mask| == |ps|
    ensures ProjStates(SelectBy(ps, mask)) == SelectBy(ProjStates(ps), mask)
  {
    var st := ProjStates(ps);
    var at := SelectBy(Positions(|ps|), mask);
    SelectByPositions(ps, mask);
    SelectByPositions(st, mask);
    forall k | 0 <= k < |at|
      ensures SelectBy(ps, mask)[k].State() == SelectBy(st, mask)[k]
    {
      assert SelectBy(ps, mask)[k] == ps[at[k]] && SelectBy(st, mask)[k] == st[at[k]];
    }
    ProjStatesPointwise(SelectBy(ps, mask), SelectBy(st, mask));
  }

  /** The inner collision loop for one enemy. */
  method HitEnemyWith(enemy: Enemy, ps: seq<Projectile>)
    requires Distinct(ps)
    modifies enemy, ps
    ensures Clash(enemy.State(), ProjStates(ps)) == HitEnemy(old(enemy.State()), old(ProjStates(ps)))
  {
    ghost var e0 := enemy.State();
    ghost var p0 := ProjStates(ps);
    ghost var c := HitEnemy(e0, p0[..0]);
    for j := 0 to |ps|
      invariant c == HitEnemy(e0, p0[..j])
      invariant enemy.State() == c.enemy
      invariant forall m :: 0 <= m < j ==> ps[m].State() == c.projectiles[m]
      invariant forall m :: j <= m < |ps| ==> ps[m].State() == p0[m]
    {
      HitEnemyStep(e0, p0, j);
      var hit := ps[j].CheckCollision(enemy.GetPosition(), HitRadius);
      if hit {
        enemy.TakeDamage(ps[j].GetDamage());
      }
      c := HitEnemy(e0, p0[..j + 1]);
    }
    assert p0[..|ps|] == p0;
    assert ProjStates(ps) == c.projectiles;
  }

  /** The inner loop for enemy i of a list; the other enemies are untouched. */
  method HitEnemyAt(es: seq<Enemy>, ps: seq<Projectile>, i: nat)
    requires i < |es| && Distinct(es) && Distinct(ps)
    modifies es[i], ps
    ensures EnemyStates(es) == old(EnemyStates(es))[i := HitEnemy(old(es[i].State()), old(ProjStates(ps))).enemy]
    ensures ProjStates(ps) == HitEnemy(old(es[i].State()), old(ProjStates(ps))).projectiles
  {
    ghost var e0 := EnemyStates(es);
    HitEnemyWith(es[i], ps);
    EnemyStatesPointwise(es, e0[i := es[i].State()]);
  }

  /** One round of the collision pass's outer loop: enemy i meets every
      projectile, extending the pass over the enemies before it by one. */
  method CollideNext(es: seq<Enemy>, ps: seq<Projectile>, ghost e0: seq<EnemyState>, ghost p0: seq<ProjState>, i: nat)
    requires i < |es| == |e0| && Distinct(es) && Distinct(ps)
    requires ProjStates(ps) == CollisionPass(e0[..i], p0).projectiles
    requires EnemyStates(es) == CollisionPass(e0[..i], p0).enemies + e0[i..]
    modifies es[i], ps
    ensures ProjStates(ps) == CollisionPass(e0[..i + 1], p0).projectiles
    ensures EnemyStates(es) == CollisionPass(e0[..i + 1], p0).enemies + e0[i + 1..]
  {
    CollisionPassStep(e0, p0, i);
    ghost var b := CollisionPass(e0[..i], p0);
    ghost var c := HitEnemy(e0[i], b.projectiles);
    assert EnemyStates(es)[i] == e0[i];
    HitEnemyAt(es, ps, i);
    SpliceNext(b.enemies, e0[i..], c.enemy);
    assert e0[i..][1..] == e0[i + 1..];
  }

  /** Replacing the first element of the unvisited part extends the visited part. */
  lemma SpliceNext<T>(done: seq<T>, rest: seq<T>, x: T)
    requires |rest| > 0
    ensures (done + rest)[|done| := x] == done + [x] + rest[1..]
  {
  }

  /** The iterator loop of the projectile pass: each projectile is updated
      and the ones still active are kept, in order. */
  method UpdateEach(ps: seq<Projectile>, tpf: real) returns (kept: seq<Projectile>)
    requires Distinct(ps)
    modifies ps
    ensures forall m :: 0 <= m < |ps| ==> ps[m].State() == Advance(old(ps[m].State()), tpf)
    ensures kept == SelectBy(ps, StillActive(Advanced(old(ProjStates(ps)), tpf)))
    ensures Distinct(kept) && forall j :: 0 <= j < |kept| ==> kept[j] in ps
    ensures ProjStates(kept) == SelectBy(Advanced(old(ProjStates(ps)), tpf), StillActive(Advanced(old(ProjStates(ps)), tpf)))
  {
    ghost var p0 := ProjStates(ps);
    ghost var mask := StillActive(Advanced(p0, tpf));
    kept := [];
    for j := 0 to |ps|
      invariant kept == SelectBy(ps[..j], mask[..j])
      invariant forall m :: 0 <= m < j ==> ps[m].State() == Advance(p0[m], tpf)
      invariant forall m :: j <= m < |ps| ==> ps[m].State() == p0[m]
    {
      assert ps[..j + 1][..j] == ps[..j];
      assert mask[..j + 1][..j] == mask[..j];
      ps[j].Update(tpf);
      if ps[j].IsActive() {
        kept := kept + [ps[j]];
      }
    }
    assert ps[..|ps|] == ps;
    assert mask[..|ps|] == mask;
    SelectByDistinct(ps, mask);
    forall p | p in kept
      ensures p in ps
    {
      SelectByMembership(ps, mask, p);
    }
    ProjStatesPointwise(ps, Advanced(p0, tpf));
    ProjStatesSelect(ps, mask);
  }

  class CombatManager
  {
    var enemies: seq<Enemy>
    var projectiles: seq<Projectile>
    var fireCooldown: real

    /** The lists never hold the same object twice. */
    ghost predicate Valid()
      reads this
    {
      Distinct(enemies) && Distinct(projectiles)
    }

    function Snapshot(): CombatState
      reads this, enemies, projectiles
    {
      CombatState(EnemyStates(enemies), ProjStates(projectiles), fireCooldown)
    }

    constructor ()
      ensures Valid() && enemies == [] && projectiles == [] && fireCooldown == 0.0
    {
      enemies := [];
      projectiles := [];
      fireCooldown := 0.0;
    }

    /** The projectile pass: every projectile is updated, and exactly the
        ones still active afterwards stay in the list, in order. */
    method AdvanceProjectiles(tpf: real)
      requires Valid()
      modifies this, projectiles
      ensures Valid() && enemies == old(enemies) && fireCooldown == old(fireCooldown)
      ensures forall j :: 0 <= j < |projectiles| ==> projectiles[j] in old(projectiles)
      ensures Snapshot() == ProjectilePass(old(Snapshot()), tpf)
    {
      ghost var s0 := Snapshot();
      var kept := UpdateEach(projectiles, tpf);
      assert EnemyStates(enemies) == s0.enemies;
      projectiles := kept;
      assert EnemyStates(enemies) == s0.enemies;
    }

    /** The collision pass over the current lists. */
    method ResolveCollisions()
      requires Valid()
      modifies enemies, projectiles
      ensures Battle(EnemyStates(enemies), ProjStates(projectiles)) ==
        CollisionPass(old(EnemyStates(enemies)), old(ProjStates(projectiles)))
      ensures Snapshot() == CollisionStage(old(Snapshot()))
    {
      var es, ps := enemies, projectiles;
      ghost var e0 := EnemyStates(es);
      ghost var p0 := ProjStates(ps);
      for i := 0 to |es|
        invariant ProjStates(ps) == CollisionPass(e0[..i], p0).projectiles
        invariant EnemyStates(es) == CollisionPass(e0[..i], p0).enemies + e0[i..]
      {
        CollideNext(es, ps, e0, p0, i);
      }
      assert e0[..|es|] == e0;
      assert CollisionPass(e0, p0).enemies + e0[|es|..] == CollisionPass(e0, p0).enemies;
    }

    /** The dead-enemy pass: exactly the living enemies stay, in order. */
    method RemoveDead()
      requires Valid()
      modifies this
      ensures Valid() && projectiles == old(projectiles) && fireCooldown == old(fireCooldown)
      ensures enemies == SelectBy(old(enemies), StillAlive(old(EnemyStates(enemies))))
      ensures EnemyStates(enemies) == SelectBy(old(EnemyStates(enemies)), StillAlive(old(EnemyStates(enemies))))
      ensures Snapshot() == DeadRemoved(old(Snapshot()))
    {
      var es := enemies;
      var kept: seq<Enemy> := [];
      for i := 0 to |es|
        invariant enemies == es
        invariant kept == SelectBy(es[..i], StillAlive(EnemyStates(es))[..i])
      {
        assert es[..i + 1][..i] == es[..i];
        assert StillAlive(EnemyStates(es))[..i + 1][..i] == StillAlive(EnemyStates(es))[..i];
        if es[i].IsAlive() {
          kept := kept + [es[i]];
        }
      }
      assert es[..|es|] == es;
      assert StillAlive(EnemyStates(es))[..|es|] == StillAlive(EnemyStates(es));
      SelectByDistinct(es, StillAlive(EnemyStates(es)));
      EnemyStatesSelect(es, StillAlive(EnemyStates(es)));
      enemies := kept;
    }

    /** update(tpf): the cooldown tick, then the three passes. */
    method Update(tpf: real)
      requires Valid()
      modifies this, enemies, projectiles
      ensures Valid()
      ensures Snapshot() == Frame(old(Snapshot()), tpf)
    {
      ghost var s0 := Snapshot();
      if fireCooldown > 0.0 {
        fireCooldown := fireCooldown - tpf;
      }
      ghost var s1 := Snapshot();
      assert s1 == s0.(fireCooldown := CooldownTick(s0.fireCooldown, tpf));
      AdvanceProjectiles(tpf);
      ghost var s2 := Snapshot();
      assert s2 == ProjectilePass(s1, tpf);
      ResolveCollisions();
      ghost var s3 := Snapshot();
      assert s3 == CollisionStage(s2);
      RemoveDead();
      assert Snapshot() == DeadRemoved(s3);
    }

    /** updateEnemies: every enemy takes one step toward the player. */
    method UpdateEnemies(tpf: real, playerPosition: Vec3, normalize: Vec3 -> Vec3)
      requires Valid()
      modifies enemies
      ensures forall i :: 0 <= i < |enemies| ==>
        enemies[i].State() == Moved(old(enemies[i].State()), tpf, playerPosition, normalize)
    {
      for i := 0 to |enemies|
        invariant forall m :: 0 <= m < i ==>
          enemies[m].State() == Moved(old(enemies[m].State()), tpf, playerPosition, normalize)
        invariant forall m :: i <= m < |enemies| ==> enemies[m].State() == old(enemies[m].State())
      {
        enemies[i].Update(tpf, playerPosition, normalize);
      }
    }

    /** processEnemyAttacks: every enemy's attack result (tryAttack, which
        is not part of this model) that is positive damages the player, and
        the total is returned. */
    method ProcessEnemyAttacks(player: Players.Player, tryAttack: (EnemyState, Vec3) -> real) returns (totalDamage: real)
      modifies player
      ensures totalDamage == Sum(Positives(AttackResults(EnemyStates(enemies), old(player.position), tryAttack)))
      ensures player.State() == old(player.State()).(health :=
        DamagedBy(old(player.health), Positives(AttackResults(EnemyStates(enemies), old(player.position), tryAttack))))
    {
      var playerPosition := player.GetPosition();
      ghost var p0 := player.State();
      ghost var ds := AttackResults(EnemyStates(enemies), playerPosition, tryAttack);
      var es := enemies;
      totalDamage := 0.0;
      for i := 0 to |es|
        modifies player
        invariant totalDamage == Sum(Positives(ds[..i]))
        invariant player.State() == p0.(health := DamagedBy(p0.health, Positives(ds[..i])))
      {
        AttackStep(ds, i, p0.health);
        var damage := tryAttack(es[i].State(), playerPosition);
        if damage > 0.0 {
          player.TakeDamage(damage);
          totalDamage := totalDamage + damage;
        }
      }
      assert ds[..|es|] == ds;
    }

    /** spawnEnemy: one new enemy appended, at the requested position. */
    method SpawnEnemy(kind: EnemyType, position: Vec3)
      requires Valid()
      modifies this
      ensures Valid() && projectiles == old(projectiles) && fireCooldown == old(fireCooldown)
      ensures |enemies| == |old(enemies)| + 1 && enemies[..|enemies| - 1] == old(enemies)
      ensures fresh(enemies[|enemies| - 1]) && enemies[|enemies| - 1].State() == Spawned(kind, position)
    {
      var enemy := new Enemy(kind, position);
      enemies := enemies + [enemy];
    }

    /** fireProjectile: refused while the cooldown is positive; otherwise one
        new projectile and the cooldown restarts at the fixed fire rate. */
    method FireProjectile(startPosition: Vec3, direction: Vec3, damage: real, normalize: Vec3 -> Vec3)
      requires Valid()
      modifies this
      ensures Valid() && enemies == old(enemies)
      ensures old(fireCooldown) > 0.0 ==> projectiles == old(projectiles) && fireCooldown == old(fireCooldown)
      ensures old(fireCooldown) <= 0.0 ==>
        |projectiles| == |old(projectiles)| + 1 && projectiles[..|projectiles| - 1] == old(projectiles) &&
        fresh(projectiles[|projectiles| - 1]) &&
        projectiles[|projectiles| - 1].State() == Launch(startPosition, direction, damage, normalize) &&
        fireCooldown == FireRate
    {
      if fireCooldown > 0.0 {
        return;
      }
      var projectile := new Projectile(startPosition, direction, damage, normalize);
      projectiles := projectiles + [projectile];
      fireCooldown := FireRate;
    }

    function GetEnemies(): (es: seq<Enemy>)
      reads this
      ensures es == enemies
    {
      enemies
    }

    /** clear: both lists emptied. */
    method Clear()
      modifies this
      ensures Valid() && enemies == [] && projectiles == [] && fireCooldown == old(fireCooldown)
    {
      enemies := [];
      projectiles := [];
    }
  }

  function AttackResults(es: seq<EnemyState>, playerPosition: Vec3, tryAttack: (EnemyState, Vec3) -> real): (ds: seq<real>)
    ensures |ds| == |es| && forall i :: 0 <= i < |es| ==> ds[i] == tryAttack(es[i], playerPosition)
  {
    seq(|es|, i requires 0 <= i < |es| => tryAttack(es[i], playerPosition))
  }

  lemma AttackStep(ds: seq<real>, i: nat, health: real)
    requires i < |ds|
    ensures Sum(Positives(ds[..i + 1])) == Sum(Positives(ds[..i])) + (if ds[i] > 0.0 then ds[i] else 0.0)
    ensures DamagedBy(health, Positives(ds[..i + 1])) ==
      if ds[i] > 0.0 then Damaged(DamagedBy(health, Positives(ds[..i])), ds[i]) else DamagedBy(health, Positives(ds[..i]))
  {
    assert ds[..i + 1][..i] == ds[..i];
    var hs := Positives(ds[..i]);
    if ds[i] > 0.0 {
      var hs' := hs + [ds[i]];
      assert Positives(ds[..i + 1]) == hs';
      assert hs'[..|hs'| - 1] == hs;
      assert Sum(hs') == Sum(hs) + ds[i];
      assert DamagedBy(health, hs') == Damaged(DamagedBy(health, hs), ds[i]);
    } else {
      assert Positives(ds[..i + 1]) == hs + [];
      assert hs + [] == hs;
    }
  }

  /** The player's health after the attacks is one clamp of the returned total. */
  lemma AttackTotalClamps(health: real, ds: seq<real>)
    ensures Sum(Positives(ds)) >= 0.0
    ensures Positives(ds) != [] ==> DamagedBy(health, Positives(ds)) == Max(0.0, health - Sum(Positives(ds)))
    ensures Positives(ds) == [] ==> DamagedBy(health, Positives(ds)) == health && Sum(Positives(ds)) == 0.0
  {
    DamagedByBounds(health, Positives(ds));
    SumNonNegative(Positives(ds));
  }

  lemma {:induction false} SumNonNegative(xs: seq<real>)
    requires AllNonNegative(xs)
    ensures Sum(xs) >= 0.0
    decreases |xs|
  {
    if |xs| > 0 {
      SumNonNegative(xs[..|xs| - 1]);
    }
  }
}
