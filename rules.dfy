/**
 * The simulation rules of the tower-defense game, stated on plain values.
 *
 * Every operation of the game loop (enemy step, turret targeting and firing,
 * placement, one frame of the main loop, the two interval timers and the
 * revive callback) is a function here from the old state to the new one.
 * The classes of module Engine are proved to compute exactly these functions;
 * module Laws proves what the functions promise.
 */
module Rules {

  datatype Option<T> = None | Some(value: T)

  /** A point of the play area in normalised coordinates. */
  datatype Point = Point(x: real, y: real)

  /**
   * One movement step of an enemy from its position toward a waypoint.
   * The game moves by `(dx / dist) * ENEMY_SPEED` on each axis, which needs a
   * square root; the step is therefore supplied by the caller and nothing
   * else in the model depends on what it computes.
   */
  type Mover = (Point, Point) -> Point

  // Game balance
  const START_GOLD: int := 120
  const START_LIVES: int := 10
  const START_WAVE: int := 1
  const TURRET_COST: int := 50
  const TURRET_RANGE: real := 0.25
  const REWARD_GOLD: int := 10
  const SHOT_DAMAGE: int := 40
  const RELOAD: int := 35
  const LASER_LIFE: int := 8
  const BASE_HEALTH: int := 100
  const HEALTH_PER_WAVE: int := 15
  /** An enemy closer than this to its next waypoint has reached it. */
  const ARRIVAL: real := 0.01
  const REVIVE_LIVES: int := 5
  const REVIVE_GOLD: int := 150

  /** The fixed route every enemy follows. */
  const PATH: seq<Point> := [
    Point(0.0, 0.5), Point(0.4, 0.5), Point(0.4, 0.2),
    Point(0.8, 0.2), Point(0.8, 0.8), Point(1.0, 0.8)
  ]

  /** Squared Euclidean distance; `dist < r` holds exactly when `0 < r && SqDist < r * r`. */
  function SqDist(a: Point, b: Point): real {
    (b.x - a.x) * (b.x - a.x) + (b.y - a.y) * (b.y - a.y)
  }

  /** `b` is closer to `a` than `r`, that is `sqrt(SqDist(a, b)) < r`. */
  predicate Within(a: Point, b: Point, r: real) {
    0.0 < r && SqDist(a, b) < r * r
  }

  datatype EnemyState = EnemyState(pos: Point, pathIndex: nat, health: int, maxHealth: int, active: bool)

  datatype TurretState = TurretState(pos: Point, cooldown: int, range: real)

  /** A laser beam drawn from the turret to the point it hit. */
  datatype Projectile = Projectile(origin: Point, impact: Point, life: int)

  /** What one turret update reads and changes besides the turret itself. */
  datatype Field = Field(enemies: seq<EnemyState>, gold: int, projectiles: seq<Projectile>)

  /** The result of one turret update: the turret, the field, and the index it shot, if any. */
  datatype Volley = Volley(turret: TurretState, field: Field, target: Option<nat>)

  /** The result of updating every turret in turn. */
  datatype Round = Round(towers: seq<TurretState>, field: Field)

  datatype World = World(
    gold: int, lives: int, wave: int, gameOver: bool,
    enemies: seq<EnemyState>, towers: seq<TurretState>, projectiles: seq<Projectile>)

  /** The global state when the page loads. */
  function Initial(): (r: World)
    ensures r.gold == START_GOLD && r.lives == START_LIVES && r.wave == START_WAVE && !r.gameOver
    ensures r.enemies == [] && r.towers == [] && r.projectiles == []
  {
    World(START_GOLD, START_LIVES, START_WAVE, false, [], [], [])
  }

  // ---------------------------------------------------------------- enemies

  /** A new enemy at the start of the path, with health 100 + 15 per wave. */
  function NewEnemy(wave: int): (e: EnemyState)
    ensures e.pos == PATH[0] && e.pathIndex == 0 && e.active
    ensures e.health == e.maxHealth == BASE_HEALTH + HEALTH_PER_WAVE * wave
  {
    var hp := BASE_HEALTH + wave * HEALTH_PER_WAVE;
    EnemyState(PATH[0], 0, hp, hp, true)
  }

  /** An active enemy with no next waypoint leaves the path and costs a life. */
  predicate Escapes(e: EnemyState) {
    e.active && e.pathIndex + 1 >= |PATH|
  }

  /** The enemy's step of one frame. */
  function EnemyUpdate(e: EnemyState, move: Mover): (r: EnemyState)
    ensures !e.active ==> r == e
    ensures Escapes(e) ==> r == e.(active := false)
    ensures r.active != e.active <==> Escapes(e)
    ensures r.health == e.health && r.maxHealth == e.maxHealth
    ensures r.pathIndex == e.pathIndex || (r.pathIndex == e.pathIndex + 1 < |PATH| && r.pos == e.pos)
    ensures r.pathIndex == e.pathIndex + 1 ==> e.active && Within(e.pos, PATH[e.pathIndex + 1], ARRIVAL)
    ensures e.active && !Escapes(e) && Within(e.pos, PATH[e.pathIndex + 1], ARRIVAL) ==>
              r == e.(pathIndex := e.pathIndex + 1)
    ensures e.active && !Escapes(e) && !Within(e.pos, PATH[e.pathIndex + 1], ARRIVAL) ==>
              r == e.(pos := move(e.pos, PATH[e.pathIndex + 1]))
    ensures r.pos != e.pos ==>
              e.active && e.pathIndex + 1 < |PATH| && r.pathIndex == e.pathIndex &&
              r.pos == move(e.pos, PATH[e.pathIndex + 1])
  {
    if !e.active then e
    else if e.pathIndex + 1 >= |PATH| then e.(active := false)
    else
      var target := PATH[e.pathIndex + 1];
      if Within(e.pos, target, ARRIVAL) then e.(pathIndex := e.pathIndex + 1)
      else e.(pos := move(e.pos, target))
  }

  /**
   * The enemy loop of one frame: every enemy steps once and the ones that are
   * no longer active are removed, the others keeping their order.
   */
  function Advance(es: seq<EnemyState>, move: Mover): (r: seq<EnemyState>)
    ensures |r| <= |es|
    ensures forall i :: 0 <= i < |r| ==> r[i].active
  {
    if es == [] then []
    else
      var e := EnemyUpdate(es[0], move);
      (if e.active then [e] else []) + Advance(es[1..], move)
  }

  /** How many enemies of `es` leave the path during the enemy loop. */
  function Escapees(es: seq<EnemyState>): (r: nat)
    ensures r <= |es|
    ensures r == 0 <==> forall i :: 0 <= i < |es| ==> !Escapes(es[i])
  {
    if es == [] then 0 else (if Escapes(es[0]) then 1 else 0) + Escapees(es[1..])
  }

  // ---------------------------------------------------------------- turrets

  /** A new turret where the player clicked, ready to fire. */
  function NewTurret(at: Point): (t: TurretState)
    ensures t.pos == at && t.cooldown == 0 && t.range == TURRET_RANGE
  {
    TurretState(at, 0, TURRET_RANGE)
  }

  predicate Targetable(t: TurretState, e: EnemyState) {
    e.active && Within(t.pos, e.pos, t.range)
  }

  /** The first active enemy of `es`, in list order, within range of `t`. */
  function FirstTarget(t: TurretState, es: seq<EnemyState>): (r: Option<nat>)
    ensures r.Some? ==> r.value < |es| && Targetable(t, es[r.value])
    ensures r.Some? ==> forall j :: 0 <= j < r.value ==> !Targetable(t, es[j])
    ensures r.None? <==> forall j :: 0 <= j < |es| ==> !Targetable(t, es[j])
  {
    if es == [] then None
    else if Targetable(t, es[0]) then Some(0)
    else
      match FirstTarget(t, es[1..])
      case None => None
      case Some(k) => Some(k + 1)
  }

  /** Targeting depends on a turret's position and range only, not on its cooldown. */
  lemma SameAimSameTarget(t: TurretState, t': TurretState, es: seq<EnemyState>)
    requires t.pos == t'.pos && t.range == t'.range
    ensures FirstTarget(t, es) == FirstTarget(t', es)
  {
  }

  /** A shot at enemy `k`: reload, 40 damage, a laser, and a kill reward when health is gone. */
  function Shoot(t: TurretState, f: Field, k: nat): (r: Volley)
    requires k < |f.enemies|
    ensures r.turret == t.(cooldown := RELOAD) && r.target == Some(k)
    ensures |r.field.enemies| == |f.enemies|
    ensures forall j :: 0 <= j < |f.enemies| && j != k ==> r.field.enemies[j] == f.enemies[j]
    ensures var e, e' := f.enemies[k], r.field.enemies[k];
              e'.health == e.health - SHOT_DAMAGE && e'.pos == e.pos &&
              e'.pathIndex == e.pathIndex && e'.maxHealth == e.maxHealth &&
              (e'.active <==> e.active && e'.health > 0)
    ensures r.field.gold == f.gold + (if r.field.enemies[k].health <= 0 then REWARD_GOLD else 0)
    ensures r.field.projectiles == f.projectiles + [Projectile(t.pos, f.enemies[k].pos, LASER_LIFE)]
  {
    var e := f.enemies[k];
    var hit := e.(health := e.health - SHOT_DAMAGE);
    var laser := Projectile(t.pos, e.pos, LASER_LIFE);
    var t' := t.(cooldown := RELOAD);
    if hit.health <= 0 then
      Volley(t', Field(f.enemies[k := hit.(active := false)], f.gold + REWARD_GOLD, f.projectiles + [laser]), Some(k))
    else
      Volley(t', Field(f.enemies[k := hit], f.gold, f.projectiles + [laser]), Some(k))
  }

  /** The turret's step of one frame: count the cooldown down, then fire at the first target if ready. */
  function TurretUpdate(t: TurretState, f: Field): (r: Volley)
    ensures r.turret.pos == t.pos && r.turret.range == t.range
    ensures r.target.None? ==> r.field == f
    ensures r.target.None? ==> r.turret.cooldown == if t.cooldown > 0 then t.cooldown - 1 else t.cooldown
    ensures r.target.Some? ==> r.target == FirstTarget(t, f.enemies) && r.target.value < |f.enemies|
    ensures r.target.Some? ==> t.cooldown <= 1 && r == Shoot(t.(cooldown := RELOAD), f, r.target.value)
    ensures r.target.Some? <==>
              t.cooldown <= 1 && exists j :: 0 <= j < |f.enemies| && Targetable(t, f.enemies[j])
  {
    SameAimSameTarget(t, CoolDown(t), f.enemies);
    Fire(CoolDown(t), f)
  }

  /** The first half of a turret's step: a positive cooldown counts down by one. */
  function CoolDown(t: TurretState): (r: TurretState)
    ensures r.pos == t.pos && r.range == t.range
    ensures r.cooldown == if t.cooldown > 0 then t.cooldown - 1 else t.cooldown
    ensures t.cooldown >= 0 ==> r.cooldown >= 0
  {
    if t.cooldown > 0 then t.(cooldown := t.cooldown - 1) else t
  }

  /** The second half of a turret's step: when the cooldown is over, shoot the first target. */
  function Fire(t: TurretState, f: Field): (r: Volley)
    ensures r.target.None? ==> r.turret == t && r.field == f
    ensures r.target.Some? ==> r.target == FirstTarget(t, f.enemies) && r.target.value < |f.enemies|
    ensures r.target.Some? ==> r == Shoot(t, f, r.target.value)
    ensures r.target.Some? <==> t.cooldown <= 0 && FirstTarget(t, f.enemies).Some?
  {
    if t.cooldown > 0 then Volley(t, f, None)
    else
      var target := FirstTarget(t, f.enemies);
      if target.None? then Volley(t, f, None) else Shoot(t, f, target.value)
  }

  /** The turret loop of one frame: each turret in list order updates against the field the previous ones left. */
  function TowersPhase(ts: seq<TurretState>, f: Field): (r: Round)
    ensures |r.towers| == |ts|
    ensures |r.field.enemies| == |f.enemies|
    ensures r.field.gold >= f.gold
    ensures |f.projectiles| <= |r.field.projectiles| && r.field.projectiles[..|f.projectiles|] == f.projectiles
    ensures forall i :: |f.projectiles| <= i < |r.field.projectiles| ==> r.field.projectiles[i].life == LASER_LIFE
  {
    if ts == [] then Round([], f)
    else
      var before := TowersPhase(ts[..|ts| - 1], f);
      var v := TurretUpdate(ts[|ts| - 1], before.field);
      Round(before.towers + [v.turret], v.field)
  }

  // ------------------------------------------------------------ projectiles

  /** The laser loop of one frame: every life counts down and the expired ones are removed. */
  function Expire(ps: seq<Projectile>): (r: seq<Projectile>)
    ensures |r| <= |ps|
    ensures forall i :: 0 <= i < |r| ==> r[i].life > 0
  {
    if ps == [] then []
    else
      var p := ps[0].(life := ps[0].life - 1);
      (if p.life > 0 then [p] else []) + Expire(ps[1..])
  }

  // -------------------------------------------------------------- lifecycle

  /** The turret loop of a frame, on the whole state. */
  function TowersStep(w: World): (r: World)
    ensures r.lives == w.lives && r.wave == w.wave && r.gameOver == w.gameOver
    ensures |r.towers| == |w.towers| && |r.enemies| == |w.enemies| && r.gold >= w.gold
  {
    var round := TowersPhase(w.towers, Field(w.enemies, w.gold, w.projectiles));
    w.(gold := round.field.gold, enemies := round.field.enemies,
       towers := round.towers, projectiles := round.field.projectiles)
  }

  /** The enemy loop of a frame, on the whole state: one life per enemy leaving the path. */
  function EnemiesStep(w: World, move: Mover): (r: World)
    ensures r.lives <= w.lives && |r.enemies| <= |w.enemies|
    ensures forall i :: 0 <= i < |r.enemies| ==> r.enemies[i].active
    ensures r.(enemies := w.enemies, lives := w.lives) == w
  {
    w.(enemies := Advance(w.enemies, move), lives := w.lives - Escapees(w.enemies))
  }

  /** The laser loop of a frame, on the whole state. */
  function LasersStep(w: World): (r: World)
    ensures |r.projectiles| <= |w.projectiles|
    ensures forall i :: 0 <= i < |r.projectiles| ==> r.projectiles[i].life > 0
    ensures r.(projectiles := w.projectiles) == w
  {
    w.(projectiles := Expire(w.projectiles))
  }

  /** The loss check at the end of a frame. */
  function LossCheck(w: World): (r: World)
    ensures r.gameOver <==> w.gameOver || w.lives <= 0
    ensures r.(gameOver := w.gameOver) == w
  {
    if w.lives <= 0 then w.(gameOver := true) else w
  }

  /** One frame of the main loop: turrets, then enemies, then lasers, then the loss check. */
  function Tick(w: World, move: Mover): (r: World)
    ensures w.gameOver ==> r == w
    ensures !w.gameOver ==> (r.gameOver <==> r.lives <= 0)
    ensures r.wave == w.wave && |r.towers| == |w.towers|
    ensures r.gold >= w.gold && r.lives <= w.lives
    ensures !w.gameOver ==> forall i :: 0 <= i < |r.enemies| ==> r.enemies[i].active
    ensures !w.gameOver ==> forall i :: 0 <= i < |r.projectiles| ==> r.projectiles[i].life > 0
  {
    if w.gameOver then w else LossCheck(LasersStep(EnemiesStep(TowersStep(w), move)))
  }

  /** A click at `at`: buy a turret there when the player can afford it. */
  function Place(w: World, at: Point): (r: World)
    ensures var bought := !w.gameOver && w.gold >= TURRET_COST;
              && r.gold == w.gold - (if bought then TURRET_COST else 0)
              && r.towers == w.towers + (if bought then [NewTurret(at)] else [])
              && r.lives == w.lives && r.wave == w.wave && r.gameOver == w.gameOver
              && r.enemies == w.enemies && r.projectiles == w.projectiles
    ensures w.gold >= 0 ==> r.gold >= 0
  {
    if w.gameOver then w
    else if w.gold >= TURRET_COST then
      w.(towers := w.towers + [NewTurret(at)], gold := w.gold - TURRET_COST)
    else w
  }

  /** The spawner interval: a new enemy for the current wave, unless the game is over. */
  function Spawn(w: World): (r: World)
    ensures w.gameOver ==> r == w
    ensures !w.gameOver ==> |r.enemies| == |w.enemies| + 1 && r.enemies[..|w.enemies|] == w.enemies
    ensures !w.gameOver ==> r.enemies[|w.enemies|] == NewEnemy(w.wave)
    ensures r.(enemies := w.enemies) == w
  {
    if w.gameOver then w else w.(enemies := w.enemies + [NewEnemy(w.wave)])
  }

  /** The difficulty interval: the next wave, unless the game is over. */
  function RaiseWave(w: World): (r: World)
    ensures r.wave == w.wave + (if w.gameOver then 0 else 1)
    ensures r.(wave := w.wave) == w
  {
    if w.gameOver then w else w.(wave := w.wave + 1)
  }

  /** The continuation of the rewarded advert: revive when it was granted. */
  function Revive(w: World, granted: bool): (r: World)
    ensures !granted ==> r == w
    ensures granted ==> r.lives == REVIVE_LIVES && r.gold == w.gold + REVIVE_GOLD && !r.gameOver
    ensures r.enemies == w.enemies && r.towers == w.towers
    ensures r.projectiles == w.projectiles && r.wave == w.wave
  {
    if granted then w.(lives := REVIVE_LIVES, gold := w.gold + REVIVE_GOLD, gameOver := false) else w
  }
}
