/**
 * What the rules of module Rules guarantee across calls: a state invariant that
 * every operation preserves, the order and accounting of the enemy and laser
 * loops, the reload delay of a turret, the lifetime of a laser, and the kill
 * reward paid once per enemy.
 */
module Laws {
  import opened Rules

  // ------------------------------------------------------------- invariant

  /** What holds of every enemy during a frame. */
  predicate SoundEnemy(e: EnemyState) {
    e.health <= e.maxHealth && e.pathIndex < |PATH| && (e.active ==> e.health > 0)
  }

  /** What holds of every enemy that is listed between frames. */
  predicate Healthy(e: EnemyState) {
    e.active && SoundEnemy(e)
  }

  predicate Armed(t: TurretState) {
    0 <= t.cooldown <= RELOAD && t.range == TURRET_RANGE
  }

  predicate AllArmed(ts: seq<TurretState>) {
    forall i :: 0 <= i < |ts| ==> Armed(ts[i])
  }

  /** What holds of the field while the turrets update. */
  predicate FieldOk(f: Field) {
    && f.gold >= 0
    && (forall i :: 0 <= i < |f.enemies| ==> SoundEnemy(f.enemies[i]))
    && (forall i :: 0 <= i < |f.projectiles| ==> 0 < f.projectiles[i].life <= LASER_LIFE)
  }

  /** The invariant of the game between any two operations. */
  predicate Consistent(w: World) {
    && w.gold >= 0
    && w.wave >= START_WAVE
    && (w.gameOver <==> w.lives <= 0)
    && (forall i :: 0 <= i < |w.enemies| ==> Healthy(w.enemies[i]))
    && AllArmed(w.towers)
    && (forall i :: 0 <= i < |w.projectiles| ==> 0 < w.projectiles[i].life < LASER_LIFE)
  }

  lemma InitialIsConsistent()
    ensures Consistent(Initial())
  {
  }

  lemma TurretUpdateKeepsOk(t: TurretState, f: Field)
    requires Armed(t) && FieldOk(f)
    ensures Armed(TurretUpdate(t, f).turret) && FieldOk(TurretUpdate(t, f).field)
  {
  }

  lemma {:induction false} TowersPhaseKeepsOk(ts: seq<TurretState>, f: Field)
    requires AllArmed(ts) && FieldOk(f)
    ensures AllArmed(TowersPhase(ts, f).towers) && FieldOk(TowersPhase(ts, f).field)
  {
    if ts != [] {
      var n := |ts| - 1;
      assert AllArmed(ts[..n]);
      TowersPhaseKeepsOk(ts[..n], f);
      var before := TowersPhase(ts[..n], f);
      TurretUpdateKeepsOk(ts[n], before.field);
    }
  }

  lemma {:induction false} AdvanceKeepsHealthy(es: seq<EnemyState>, move: Mover)
    requires forall i :: 0 <= i < |es| ==> SoundEnemy(es[i])
    ensures forall i :: 0 <= i < |Advance(es, move)| ==> Healthy(Advance(es, move)[i])
  {
    if es != [] {
      assert SoundEnemy(es[0]);
      AdvanceKeepsHealthy(es[1..], move);
    }
  }

  lemma {:induction false} ExpireBelow(ps: seq<Projectile>, m: int)
    requires forall i :: 0 <= i < |ps| ==> ps[i].life <= m
    ensures forall i :: 0 <= i < |Expire(ps)| ==> Expire(ps)[i].life < m
  {
    if ps != [] {
      assert ps[0].life <= m;
      ExpireBelow(ps[1..], m);
    }
  }

  lemma TickKeepsConsistent(w: World, move: Mover)
    requires Consistent(w)
    ensures Consistent(Tick(w, move))
  {
    if !w.gameOver {
      var f := Field(w.enemies, w.gold, w.projectiles);
      TowersPhaseKeepsOk(w.towers, f);
      var round := TowersPhase(w.towers, f);
      AdvanceKeepsHealthy(round.field.enemies, move);
      ExpireBelow(round.field.projectiles, LASER_LIFE);
    }
  }

  lemma PlaceKeepsConsistent(w: World, at: Point)
    requires Consistent(w)
    ensures Consistent(Place(w, at))
  {
  }

  lemma SpawnKeepsConsistent(w: World)
    requires Consistent(w)
    ensures Consistent(Spawn(w))
  {
  }

  lemma RaiseWaveKeepsConsistent(w: World)
    requires Consistent(w)
    ensures Consistent(RaiseWave(w))
  {
  }

  lemma ReviveKeepsConsistent(w: World, granted: bool)
    requires Consistent(w)
    ensures Consistent(Revive(w, granted))
  {
  }

  // ------------------------------------------------------------ enemy loop

  /**
   * The enemy loop acts on each enemy separately and keeps the survivors in
   * their original order.
   */
  lemma {:induction false} AdvanceAppend(a: seq<EnemyState>, b: seq<EnemyState>, move: Mover)
    ensures Advance(a + b, move) == Advance(a, move) + Advance(b, move)
  {
    if a != [] {
      assert (a + b)[0] == a[0];
      assert (a + b)[1..] == a[1..] + b;
      AdvanceAppend(a[1..], b, move);
      var e := EnemyUpdate(a[0], move);
      var head := if e.active then [e] else [];
      calc {
        Advance(a + b, move);
        head + Advance(a[1..] + b, move);
        head + (Advance(a[1..], move) + Advance(b, move));
        (head + Advance(a[1..], move)) + Advance(b, move);
      }
    } else {
      assert a + b == b;
    }
  }

  lemma AdvanceSingle(e: EnemyState, move: Mover)
    ensures Advance([e], move) == if EnemyUpdate(e, move).active then [EnemyUpdate(e, move)] else []
  {
  }

  /**
   * Every enemy that costs a life is also removed: the enemy loop on the whole
   * list is the loop on the enemies before it followed by the loop on the ones
   * after it. Hence no enemy costs more than one life.
   */
  lemma EscapeesAreRemoved(es: seq<EnemyState>, move: Mover)
    ensures forall i :: 0 <= i < |es| && Escapes(es[i]) ==>
              Advance(es, move) == Advance(es[..i], move) + Advance(es[i + 1..], move)
    ensures |Advance(es, move)| + Escapees(es) <= |es|
  {
    forall i | 0 <= i < |es| && Escapes(es[i])
      ensures Advance(es, move) == Advance(es[..i], move) + Advance(es[i + 1..], move)
    {
      EscapeeRemovedAt(es, i, move);
    }
    RemovedCount(es, move);
  }

  /** The enemy at index `i` leaves the path and is dropped from the result of the enemy loop. */
  lemma EscapeeRemovedAt(es: seq<EnemyState>, i: nat, move: Mover)
    requires i < |es| && Escapes(es[i])
    ensures Advance(es, move) == Advance(es[..i], move) + Advance(es[i + 1..], move)
  {
    var a, x, b := es[..i], es[i], es[i + 1..];
    assert es == a + ([x] + b);
    EscapeeDropped(a, x, b, move);
  }

  lemma EscapeeDropped(a: seq<EnemyState>, x: EnemyState, b: seq<EnemyState>, move: Mover)
    requires Escapes(x)
    ensures Advance(a + ([x] + b), move) == Advance(a, move) + Advance(b, move)
  {
    AdvanceAppend(a, [x] + b, move);
    AdvanceAppend([x], b, move);
    AdvanceSingle(x, move);
  }

  lemma {:induction false} RemovedCount(es: seq<EnemyState>, move: Mover)
    ensures |Advance(es, move)| + Escapees(es) <= |es|
  {
    if es != [] {
      RemovedCount(es[1..], move);
    }
  }

  // ------------------------------------------------------------ laser loop

  lemma {:induction false} ExpireAppend(a: seq<Projectile>, b: seq<Projectile>)
    ensures Expire(a + b) == Expire(a) + Expire(b)
  {
    if a != [] {
      assert (a + b)[0] == a[0];
      assert (a + b)[1..] == a[1..] + b;
      ExpireAppend(a[1..], b);
      var p := a[0].(life := a[0].life - 1);
      var head := if p.life > 0 then [p] else [];
      calc {
        Expire(a + b);
        head + Expire(a[1..] + b);
        head + (Expire(a[1..]) + Expire(b));
        (head + Expire(a[1..])) + Expire(b);
      }
    } else {
      assert a + b == b;
    }
  }

  /** The lasers after `n` laser loops; `TickLasers` shows that each frame runs one on the lasers already listed. */
  function Passes(ps: seq<Projectile>, n: nat): seq<Projectile> {
    if n == 0 then ps else Expire(Passes(ps, n - 1))
  }

  /** One pass over a single laser counts its life down, and drops it at zero. */
  lemma ExpireOne(q: Projectile)
    ensures Expire([q]) == if q.life > 1 then [q.(life := q.life - 1)] else []
  {
  }

  /**
   * A laser of life `L` is still listed after exactly the first `L - 1` laser
   * loops, with its life counted down once per loop. With `TickLasers`, a
   * laser pushed with life 8 is drawn in 8 frames.
   */
  lemma {:induction false} LaserLifetime(p: Projectile, n: nat)
    requires p.life >= 1
    ensures Passes([p], n) == if n < p.life then [p.(life := p.life - n)] else []
  {
    if n > 0 {
      LaserLifetime(p, n - 1);
      if n - 1 < p.life {
        var q := p.(life := p.life - (n - 1));
        ExpireOne(q);
        assert Passes([p], n) == Expire([q]);
      } else {
        assert Passes([p], n) == Expire([]);
      }
    }
  }

  /**
   * In a frame, the lasers already listed go through the laser loop unaffected
   * by the turret loop, which only appends the new shots after them, each with
   * life 8; so a laser shot in a frame leaves it with life 7, and `LaserLifetime`
   * counts it down over the next frames.
   */
  lemma TickLasers(w: World, move: Mover)
    requires !w.gameOver
    ensures var added := TowersStep(w).projectiles[|w.projectiles|..];
            && Tick(w, move).projectiles == Expire(w.projectiles) + Expire(added)
            && forall i :: 0 <= i < |added| ==> added[i].life == LASER_LIFE
  {
    var ps := TowersPhase(w.towers, Field(w.enemies, w.gold, w.projectiles)).field.projectiles;
    var added := ps[|w.projectiles|..];
    assert ps == w.projectiles + added;
    ExpireAppend(w.projectiles, added);
  }

  // ---------------------------------------------------------------- reload

  /** A turret after one update in each of the fields `fs`, in order. */
  function Replay(t: TurretState, fs: seq<Field>): TurretState {
    if fs == [] then t else TurretUpdate(Replay(t, fs[..|fs| - 1]), fs[|fs| - 1]).turret
  }

  /** Each update of a reloading turret takes one off its cooldown, whatever the field. */
  lemma {:induction false} Reloading(t: TurretState, fs: seq<Field>)
    requires |fs| < t.cooldown
    ensures Replay(t, fs).cooldown == t.cooldown - |fs|
  {
    if fs != [] {
      Reloading(t, fs[..|fs| - 1]);
    }
  }

  /** While its cooldown is above one, a turret fires at nothing, whatever the field. */
  lemma IdleWhileReloading(t: TurretState, fs: seq<Field>)
    requires |fs| < t.cooldown
    ensures forall i :: 0 <= i < |fs| ==> TurretUpdate(Replay(t, fs[..i]), fs[i]).target.None?
  {
    forall i | 0 <= i < |fs|
      ensures TurretUpdate(Replay(t, fs[..i]), fs[i]).target.None?
    {
      Reloading(t, fs[..i]);
    }
  }

  /**
   * After a shot, the next 34 updates of that turret fire at nothing, and the
   * 35th finds the cooldown at 1, so it fires if an enemy is in range.
   */
  lemma ReloadAfterShot(t: TurretState, f: Field, k: nat, fs: seq<Field>)
    requires k < |f.enemies| && |fs| < RELOAD
    ensures forall i :: 0 <= i < |fs| ==>
              TurretUpdate(Replay(Shoot(t, f, k).turret, fs[..i]), fs[i]).target.None?
    ensures |fs| == RELOAD - 1 ==> Replay(Shoot(t, f, k).turret, fs).cooldown == 1
  {
    Reloading(Shoot(t, f, k).turret, fs);
    IdleWhileReloading(Shoot(t, f, k).turret, fs);
  }


  // ----------------------------------------------------------- kill reward

  /** How many enemies are active in `a` and inactive at the same index of `b`. */
  function Kills(a: seq<EnemyState>, b: seq<EnemyState>): nat
    requires |a| == |b|
  {
    if a == [] then 0
    else (if a[0].active && !b[0].active then 1 else 0) + Kills(a[1..], b[1..])
  }

  /** No enemy of `a` is active again in `b`. */
  predicate NoRevival(a: seq<EnemyState>, b: seq<EnemyState>) {
    |a| == |b| && forall i :: 0 <= i < |a| && !a[i].active ==> !b[i].active
  }

  lemma {:induction false} KillsAdd(a: seq<EnemyState>, b: seq<EnemyState>, c: seq<EnemyState>)
    requires NoRevival(a, b) && NoRevival(b, c)
    ensures NoRevival(a, c)
    ensures Kills(a, c) == Kills(a, b) + Kills(b, c)
  {
    if a != [] {
      assert NoRevival(a[1..], b[1..]) by {
        forall i | 0 <= i < |a| - 1 && !a[1..][i].active ensures !b[1..][i].active {
          assert !a[i + 1].active;
        }
      }
      assert NoRevival(b[1..], c[1..]) by {
        forall i | 0 <= i < |b| - 1 && !b[1..][i].active ensures !c[1..][i].active {
          assert !b[i + 1].active;
        }
      }
      KillsAdd(a[1..], b[1..], c[1..]);
    }
  }

  lemma {:induction false} KillsOne(a: seq<EnemyState>, k: nat, x: EnemyState)
    requires k < |a|
    ensures Kills(a, a[k := x]) == if a[k].active && !x.active then 1 else 0
  {
    if k == 0 {
      KillsNone(a[1..]);
      assert a[k := x][1..] == a[1..];
    } else {
      assert a[k := x][1..] == a[1..][k - 1 := x];
      KillsOne(a[1..], k - 1, x);
    }
  }

  lemma {:induction false} KillsNone(a: seq<EnemyState>)
    ensures Kills(a, a) == 0
  {
    if a != [] {
      KillsNone(a[1..]);
    }
  }

  /** One turret update pays 10 gold per enemy it kills and kills only active enemies. */
  lemma TurretRewards(t: TurretState, f: Field)
    ensures NoRevival(f.enemies, TurretUpdate(t, f).field.enemies)
    ensures TurretUpdate(t, f).field.gold == f.gold + REWARD_GOLD * Kills(f.enemies, TurretUpdate(t, f).field.enemies)
  {
    var v := TurretUpdate(t, f);
    if v.target.None? {
      KillsNone(f.enemies);
    } else {
      var k := v.target.value;
      assert v.field.enemies == f.enemies[k := v.field.enemies[k]];
      KillsOne(f.enemies, k, v.field.enemies[k]);
    }
  }

  /**
   * Over the turret loop of a frame the gold grows by exactly 10 per enemy
   * that was active before it and is inactive after it: an enemy is paid for
   * at most once, and never after it was deactivated.
   */
  lemma {:induction false} TowersPhaseRewards(ts: seq<TurretState>, f: Field)
    ensures NoRevival(f.enemies, TowersPhase(ts, f).field.enemies)
    ensures TowersPhase(ts, f).field.gold == f.gold + REWARD_GOLD * Kills(f.enemies, TowersPhase(ts, f).field.enemies)
  {
    if ts == [] {
      KillsNone(f.enemies);
    } else {
      var n := |ts| - 1;
      TowersPhaseRewards(ts[..n], f);
      var before := TowersPhase(ts[..n], f);
      TurretRewards(ts[n], before.field);
      KillsAdd(f.enemies, before.field.enemies, TowersPhase(ts, f).field.enemies);
    }
  }

  /**
   * Over a whole frame, gold grows by 10 per enemy the turrets kill and lives
   * shrink by one per enemy that leaves the path.
   */
  lemma TickAccounting(w: World, move: Mover)
    requires !w.gameOver
    ensures var before := Field(w.enemies, w.gold, w.projectiles);
            var after := TowersPhase(w.towers, before).field;
            && Tick(w, move).gold == w.gold + REWARD_GOLD * Kills(w.enemies, after.enemies)
            && Tick(w, move).lives == w.lives - Escapees(after.enemies)
  {
    TowersPhaseRewards(w.towers, Field(w.enemies, w.gold, w.projectiles));
  }

  /** Health is not clamped: a shot at an enemy with less than 40 health leaves it negative. */
  lemma OverkillIsNotClamped(t: TurretState, f: Field, k: nat)
    requires k < |f.enemies| && f.enemies[k].health < SHOT_DAMAGE
    ensures var v := Shoot(t, f, k);
            v.field.enemies[k].health < 0 && !v.field.enemies[k].active && v.field.gold == f.gold + REWARD_GOLD
  {
  }
}
