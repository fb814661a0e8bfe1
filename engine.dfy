/**
 * The game's objects as they are updated in place: class Enemy, class Turret,
 * and class Game for the global `gameState` record together with the
 * `enemies`, `towers` and `projectiles` arrays.
 *
 * Each method is proved to change the state exactly as its function in module
 * Rules does, read through `State()` and `Snapshot()`: `Enemy.Update` as
 * `EnemyUpdate`, `Turret.Update` as `TurretUpdate`, `Game.Tick` as `Tick`, and
 * each phase of a frame as the step function of that phase.
 */
module Engine {
  import opened Rules

  predicate Distinct<T(==)>(s: seq<T>) {
    forall i, j :: 0 <= i < j < |s| ==> s[i] != s[j]
  }

  lemma DistinctWithout<T>(s: seq<T>, k: nat)
    requires Distinct(s) && k < |s|
    ensures Distinct(s[..k] + s[k + 1..])
    ensures forall x :: x in s[..k] + s[k + 1..] ==> x in s[..k] || x in s[k + 1..]
  {
  }

  /** The values of a list of enemy objects, in the current heap. */
  function EnemyStates(es: seq<Enemy>): (r: seq<EnemyState>)
    reads es
    ensures |r| == |es| && forall i :: 0 <= i < |es| ==> r[i] == es[i].State()
  {
    seq(|es|, i requires 0 <= i < |es| reads es => es[i].State())
  }

  /** The values of a list of turret objects, in the current heap. */
  function TowerStates(ts: seq<Turret>): (r: seq<TurretState>)
    reads ts
    ensures |r| == |ts| && forall i :: 0 <= i < |ts| ==> r[i] == ts[i].State()
  {
    seq(|ts|, i requires 0 <= i < |ts| reads ts => ts[i].State())
  }

  lemma EnemyStatesAt(es: seq<Enemy>, i: nat)
    requires i < |es|
    ensures EnemyStates(es[i..]) == [es[i].State()] + EnemyStates(es[i + 1..])
  {
  }

  lemma TowerStatesSnoc(ts: seq<Turret>, i: nat)
    requires i < |ts|
    ensures TowerStates(ts[..i + 1]) == TowerStates(ts[..i]) + [ts[i].State()]
  {
  }

  lemma AdvanceStep(s: seq<EnemyState>, i: nat, move: Mover)
    requires i < |s|
    ensures Advance(s[i..], move) ==
              (if EnemyUpdate(s[i], move).active then [EnemyUpdate(s[i], move)] else []) + Advance(s[i + 1..], move)
    ensures Escapees(s[i..]) == (if Escapes(s[i]) then 1 else 0) + Escapees(s[i + 1..])
  {
  }

  class Enemy {
    var pathIndex: nat
    var x: real
    var y: real
    var health: int
    var maxHealth: int
    var active: bool

    function State(): EnemyState
      reads this
    {
      EnemyState(Point(x, y), pathIndex, health, maxHealth, active)
    }

    /** A new enemy of the current wave at the first waypoint. */
    constructor (g: Game)
      ensures State() == NewEnemy(g.wave)
    {
      var hp := BASE_HEALTH + g.wave * HEALTH_PER_WAVE;
      pathIndex := 0;
      x := PATH[0].x;
      y := PATH[0].y;
      health := hp;
      maxHealth := hp;
      active := true;
    }

    /** One step toward the next waypoint, or off the end of the path at the cost of a life. */
    method Update(g: Game, move: Mover)
      modifies this, g`lives
      ensures State() == EnemyUpdate(old(State()), move)
      ensures g.lives == old(g.lives) - if Escapes(old(State())) then 1 else 0
    {
      if !active {
        return;
      }
      if pathIndex + 1 >= |PATH| {
        active := false;
        g.lives := g.lives - 1;
        return;
      }
      var target := PATH[pathIndex + 1];
      var dx := target.x - x;
      var dy := target.y - y;
      if dx * dx + dy * dy < ARRIVAL * ARRIVAL {
        pathIndex := pathIndex + 1;
      } else {
        var p := move(Point(x, y), target);
        x, y := p.x, p.y;
      }
    }
  }

  class Turret {
    var x: real
    var y: real
    var cooldown: int
    var range: real

    function State(): TurretState
      reads this
    {
      TurretState(Point(x, y), cooldown, range)
    }

    constructor (x: real, y: real)
      ensures State() == NewTurret(Point(x, y))
    {
      this.x := x;
      this.y := y;
      cooldown := 0;
      range := TURRET_RANGE;
    }

    /** Count the cooldown down; when it is over, shoot the first active enemy in range. */
    method Update(g: Game)
      requires g.Valid()
      modifies this, g`gold, g`projectiles, g.enemies
      ensures var v := TurretUpdate(old(State()), old(g.CurrentField()));
              State() == v.turret && g.CurrentField() == v.field
    {
      if cooldown > 0 {
        cooldown := cooldown - 1;
      }
      assert State() == CoolDown(old(State()));
      Fire(g);
    }

    /** The second half of an update: once the cooldown is over, shoot the first target found, if any. */
    method Fire(g: Game)
      requires g.Valid()
      modifies this, g`gold, g`projectiles, g.enemies
      ensures var v := Rules.Fire(old(State()), old(g.CurrentField()));
              State() == v.turret && g.CurrentField() == v.field
    {
      if cooldown <= 0 {
        var target := Aim(g);
        if target.Some? {
          Shoot(g.enemies[target.value], g, target.value);
        }
      }
    }

    /** The scan of `update`: the first active enemy in range, if any. */
    method Aim(g: Game) returns (target: Option<nat>)
      ensures target == FirstTarget(State(), g.CurrentField().enemies)
      ensures target.Some? ==> target.value < |g.enemies|
    {
      ghost var es := g.CurrentField().enemies;
      for i := 0 to |g.enemies|
        invariant forall j :: 0 <= j < i ==> !Targetable(State(), es[j])
      {
        var e := g.enemies[i];
        if !e.active {
          continue;
        }
        var dx := e.x - x;
        var dy := e.y - y;
        if 0.0 < range && dx * dx + dy * dy < range * range {
          assert Targetable(State(), es[i]);
          return Some(i);
        }
      }
      return None;
    }

    /** 40 damage to `e`, a laser, and the kill reward when its health is gone. */
    method Shoot(e: Enemy, g: Game, ghost k: nat)
      requires g.Valid() && k < |g.enemies| && g.enemies[k] == e
      modifies this, e, g`gold, g`projectiles
      ensures var v := Rules.Shoot(old(State()), old(g.CurrentField()), k);
              State() == v.turret && g.CurrentField() == v.field
    {
      cooldown := RELOAD;
      e.health := e.health - SHOT_DAMAGE;
      g.projectiles := g.projectiles + [Projectile(Point(x, y), Point(e.x, e.y), LASER_LIFE)];
      if e.health <= 0 {
        e.active := false;
        g.gold := g.gold + REWARD_GOLD;
      }
      assert EnemyStates(g.enemies) == old(EnemyStates(g.enemies))[k := e.State()];
    }
  }

  class Game {
    var gold: int
    var lives: int
    var wave: int
    var gameOver: bool
    var enemies: seq<Enemy>
    var towers: seq<Turret>
    var projectiles: seq<Projectile>

    /** No object is listed twice. */
    ghost predicate Valid()
      reads this
    {
      Distinct(enemies) && Distinct(towers)
    }

    function CurrentField(): Field
      reads this, enemies
    {
      Field(EnemyStates(enemies), gold, projectiles)
    }

    function Snapshot(): World
      reads this, enemies, towers
    {
      World(gold, lives, wave, gameOver, EnemyStates(enemies), TowerStates(towers), projectiles)
    }

    constructor ()
      ensures Valid() && Snapshot() == Initial()
    {
      gold := START_GOLD;
      lives := START_LIVES;
      wave := START_WAVE;
      gameOver := false;
      enemies := [];
      towers := [];
      projectiles := [];
    }

    /** The click handler: buy a turret at `at` if the game is on and the gold suffices. */
    method Place(at: Point)
      requires Valid()
      modifies this
      ensures Valid()
      ensures Snapshot() == Rules.Place(old(Snapshot()), at)
    {
      if gameOver {
        return;
      }
      if gold >= TURRET_COST {
        var t := new Turret(at.x, at.y);
        towers := towers + [t];
        gold := gold - TURRET_COST;
        assert TowerStates(towers) == old(TowerStates(towers)) + [t.State()];
      }
    }

    /** The continuation of the rewarded advert, with its outcome. */
    method WatchAdToRevive(granted: bool)
      requires Valid()
      modifies this
      ensures Valid()
      ensures Snapshot() == Rules.Revive(old(Snapshot()), granted)
    {
      if granted {
        lives := REVIVE_LIVES;
        gold := gold + REVIVE_GOLD;
        gameOver := false;
      }
    }

    /** The spawner interval. */
    method Spawn()
      requires Valid()
      modifies this
      ensures Valid()
      ensures Snapshot() == Rules.Spawn(old(Snapshot()))
    {
      if !gameOver {
        var e := new Enemy(this);
        enemies := enemies + [e];
        assert EnemyStates(enemies) == old(EnemyStates(enemies)) + [e.State()];
      }
    }

    /** The difficulty interval. */
    method RaiseWave()
      requires Valid()
      modifies this
      ensures Valid()
      ensures Snapshot() == Rules.RaiseWave(old(Snapshot()))
    {
      if !gameOver {
        wave := wave + 1;
      }
    }

    /** One frame of the main loop, without its drawing. */
    method Tick(move: Mover)
      requires Valid()
      modifies this, enemies, towers
      ensures Valid()
      ensures Snapshot() == Rules.Tick(old(Snapshot()), move)
    {
      if gameOver {
        return;
      }
      UpdateTowers();
      UpdateEnemies(move);
      UpdateProjectiles();
      CheckLoss();
    }

    /** The end of a frame: the game is over once no life is left. */
    method CheckLoss()
      modifies this`gameOver
      ensures Snapshot() == LossCheck(old(Snapshot()))
    {
      if lives <= 0 {
        gameOver := true;
      }
    }

    /** The turret loop of a frame, on the whole state: every turret updates once, in list order. */
    method UpdateTowers()
      requires Valid()
      modifies this`gold, this`projectiles, enemies, towers
      ensures Snapshot() == TowersStep(old(Snapshot()))
    {
      SweepTowers();
    }

    /** The turret loop, stated on the turrets and the field they act on. */
    method SweepTowers()
      requires Valid()
      modifies this`gold, this`projectiles, enemies, towers
      ensures var r := TowersPhase(old(TowerStates(towers)), old(CurrentField()));
              TowerStates(towers) == r.towers && CurrentField() == r.field
    {
      ghost var ts0 := TowerStates(towers);
      ghost var f0 := CurrentField();
      for i := 0 to |towers|
        invariant var r := TowersPhase(ts0[..i], f0);
                  TowerStates(towers[..i]) == r.towers && CurrentField() == r.field
        invariant forall k :: i <= k < |towers| ==> towers[k].State() == ts0[k]
      {
        assert towers[i] !in towers[..i];
        towers[i].Update(this);
        TowerStatesSnoc(towers, i);
        assert ts0[..i + 1][..i] == ts0[..i];
      }
      assert ts0[..|towers|] == ts0;
      assert towers[..|towers|] == towers;
    }

    /** The enemy loop of a frame, on the whole state. */
    method UpdateEnemies(move: Mover)
      requires Valid()
      modifies this`enemies, this`lives, enemies
      ensures Valid()
      ensures Snapshot() == EnemiesStep(old(Snapshot()), move)
    {
      ghost var ts := TowerStates(towers);
      SweepEnemies(move);
      assert TowerStates(towers) == ts;
    }

    /** The backward enemy loop: update each enemy and splice out the inactive ones. */
    method SweepEnemies(move: Mover)
      requires Valid()
      modifies this`enemies, this`lives, enemies
      ensures Valid()
      ensures EnemyStates(enemies) == Advance(old(EnemyStates(enemies)), move)
      ensures lives == old(lives) - Escapees(old(EnemyStates(enemies)))
    {
      ghost var es0 := enemies;
      ghost var s0 := EnemyStates(enemies);
      ghost var lives0 := lives;
      var i: int := |enemies| - 1;
      while i >= 0
        invariant Swept(i, es0, s0, lives0, move)
      {
        SweepStep(i, move, es0, s0, lives0);
        i := i - 1;
      }
      assert s0[0..] == s0;
      assert enemies[0..] == enemies;
    }

    /** The enemy loop has handled every enemy after index `i` and none before it. */
    ghost predicate Swept(i: int, es0: seq<Enemy>, s0: seq<EnemyState>, lives0: int, move: Mover)
      reads this, enemies, es0
    {
      && -1 <= i < |es0| == |s0| && i < |enemies|
      && enemies[..i + 1] == es0[..i + 1]
      && (forall k :: 0 <= k <= i ==> es0[k].State() == s0[k])
      && Valid()
      && EnemyStates(enemies[i + 1..]) == Advance(s0[i + 1..], move)
      && lives == lives0 - Escapees(s0[i + 1..])
    }

    /** One turn of the enemy loop. */
    method SweepStep(i: nat, move: Mover, ghost es0: seq<Enemy>, ghost s0: seq<EnemyState>, ghost lives0: int)
      requires Swept(i, es0, s0, lives0, move)
      modifies this`enemies, this`lives, es0[i]
      ensures Swept(i - 1, es0, s0, lives0, move)
    {
      assert enemies[i] == es0[i];
      AdvanceStep(s0, i, move);
      UpdateEnemyAt(i, move);
    }

    /** One pass of the enemy loop's body: update enemy `i`, then splice it out if it is inactive. */
    method UpdateEnemyAt(i: nat, move: Mover)
      requires Valid() && i < |enemies|
      modifies this`enemies, this`lives, enemies[i]
      ensures Valid()
      ensures i <= |enemies| <= old(|enemies|) && enemies[..i] == old(enemies[..i])
      ensures EnemyStates(enemies[i..]) == Advance([old(enemies[i].State())], move) + old(EnemyStates(enemies[i + 1..]))
      ensures lives == old(lives) - if Escapes(old(enemies[i].State())) then 1 else 0
    {
      var e := enemies[i];
      ghost var rest := enemies[i + 1..];
      assert e !in rest;
      e.Update(this, move);
      EnemyStatesAt(enemies, i);
      assert [old(e.State())][1..] == [];
      if !e.active {
        DistinctWithout(enemies, i);
        enemies := enemies[..i] + enemies[i + 1..];
        assert enemies[i..] == rest;
      }
    }

    /** The laser loop of a frame, on the whole state: only the laser list changes. */
    method UpdateProjectiles()
      modifies this`projectiles
      ensures Snapshot() == LasersStep(old(Snapshot()))
    {
      projectiles := SweepLasers(projectiles);
    }

    /** The backward laser loop: count every life down and splice out the expired ones. */
    static method SweepLasers(p0: seq<Projectile>) returns (ps: seq<Projectile>)
      ensures ps == Expire(p0)
    {
      ps := p0;
      var i: int := |ps| - 1;
      while i >= 0
        invariant -1 <= i < |p0| && i < |ps|
        invariant ps[..i + 1] == p0[..i + 1]
        invariant ps[i + 1..] == Expire(p0[i + 1..])
      {
        var p := ps[i];
        p := p.(life := p.life - 1);
        ps := ps[i := p];
        if p.life <= 0 {
          ps := ps[..i] + ps[i + 1..];
        }
        assert p0[i..][0] == p0[i] && p0[i..][1..] == p0[i + 1..];
        i := i - 1;
      }
      assert p0[0..] == p0;
    }
  }
}
