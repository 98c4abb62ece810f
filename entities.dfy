/** The simulated objects: pooled bullets, patrolling enemies and the player.
    One module, because a bullet's step hits enemies and the player, and
    enemies and the player fire bullets. */
module Entities {
  import opened Geometry
  import opened Controls

  /** Bullet owners; the source encodes them as PLAYER = 0 and ENEMY = 1. */
  datatype Owner = PlayerOwned | EnemyOwned {
    function Code(): int { if PlayerOwned? then 0 else 1 }
  }

  /** Pool capacities (numOfPlayerBullets, numOfEnemyBullets). */
  const PlayerBulletCount: nat := 60
  const EnemyBulletCount: nat := 1000

  /** Width and height every bullet gets when it is launched. */
  const BulletSize: real := 8.0

  /** Everything a bullet holds apart from its fixed owner. */
  datatype BulletState = BulletState(
    active: bool, color: string, shadowColor: string,
    x: real, y: real, width: real, height: real, scale: real, vx: real, vy: real)

  /** Kinematic state of the player or of an enemy. */
  datatype Motion = Motion(x: real, y: real, vx: real, vy: real)

  /** The fixed parameters of the player or of an enemy. */
  datatype Shape = Shape(maxVx: real, maxVy: real, acceleration: real,
                         width: real, height: real, scale: real)

  /** The direction keys as the player reads them. */
  datatype Keys = Keys(left: bool, right: bool, forward: bool, backward: bool)

  /** An enemy's patrol state. */
  datatype Patrol = Patrol(x: real, y: real, vx: real, vy: real, attackState: nat, active: bool)

  // ---------------------------------------------------------------------------
  // Bullets

  /** The state Bullet.init leaves behind: active, 8 by 8, not moving sideways,
      and travelling up for the player and down for the enemies whatever the
      velocity of the shooter. */
  function Launched(owner: Owner, color: string, shadowColor: string,
                    x: real, y: real, scale: real): (r: BulletState)
    ensures r.active && r.width == BulletSize && r.height == BulletSize && r.vx == 0.0
    ensures r.x == x && r.y == y && r.scale == scale
    ensures r.color == color && r.shadowColor == shadowColor
    ensures owner == PlayerOwned ==> r.vy == -0.5
    ensures owner == EnemyOwned ==> r.vy == 0.5
  {
    BulletState(true, color, shadowColor, x, y, BulletSize, BulletSize, scale,
                0.0, -0.5 + owner.Code() as real)
  }

  /** Index of the first box that overlaps `b`, or |boxes| when none does. */
  function FirstHit(boxes: seq<Box>, b: Box): (k: nat)
    ensures k <= |boxes|
    ensures k < |boxes| ==> Overlap(boxes[k], b)
    ensures forall j :: 0 <= j < k ==> !Overlap(boxes[j], b)
  {
    if boxes == [] then 0
    else if Overlap(boxes[0], b) then 0
    else 1 + FirstHit(boxes[1..], b)
  }

  /** FirstHit is the only index with its three properties: any bound on the
      boxes that is an overlap, or the end, with no overlap before it, is it. */
  lemma {:induction false} FirstHitUnique(boxes: seq<Box>, b: Box, k: nat)
    requires k <= |boxes|
    requires k < |boxes| ==> Overlap(boxes[k], b)
    requires forall j :: 0 <= j < k ==> !Overlap(boxes[j], b)
    ensures k == FirstHit(boxes, b)
    decreases |boxes|
  {
    if boxes != [] && k > 0 {
      assert !Overlap(boxes[0], b);
      FirstHitUnique(boxes[1..], b, k - 1);
    }
  }

  /** Index of the first inactive slot, or |active| when every slot is in use. */
  function FirstInactive(active: seq<bool>): (k: nat)
    ensures k <= |active|
    ensures k < |active| ==> !active[k]
    ensures forall j :: 0 <= j < k ==> active[j]
  {
    if active == [] then 0
    else if !active[0] then 0
    else 1 + FirstInactive(active[1..])
  }

  /** FirstInactive is the only index with its three properties. */
  lemma {:induction false} FirstInactiveUnique(active: seq<bool>, k: nat)
    requires k <= |active|
    requires k < |active| ==> !active[k]
    requires forall j :: 0 <= j < k ==> active[j]
    ensures k == FirstInactive(active)
    decreases |active|
  {
    if active != [] && k > 0 {
      assert active[0];
      FirstInactiveUnique(active[1..], k - 1);
    }
  }

  /** The active flags of a run of bullets. */
  function Flags(bullets: seq<Bullet>): (r: seq<bool>)
    reads bullets
    ensures |r| == |bullets|
    ensures forall i :: 0 <= i < |bullets| ==> r[i] == bullets[i].active
  {
    if bullets == [] then [] else [bullets[0].active] + Flags(bullets[1..])
  }

  /** The hit boxes of a run of enemies. */
  function Boxes(enemies: seq<Enemy>): (r: seq<Box>)
    reads enemies
    ensures |r| == |enemies|
    ensures forall i :: 0 <= i < |enemies| ==> r[i] == enemies[i].Box()
  {
    if enemies == [] then [] else [enemies[0].Box()] + Boxes(enemies[1..])
  }

  /** A pool holds each bullet once. */
  predicate Distinct(pool: array<Bullet>)
    reads pool
  {
    forall i, j :: 0 <= i < j < pool.Length ==> pool[i] != pool[j]
  }

  class Bullet {
    const owner: Owner
    var active: bool
    var color: string
    var shadowColor: string
    var x: real
    var y: real
    var width: real
    var height: real
    var scale: real
    var vx: real
    var vy: real

    /** A spare, inactive slot. */
    constructor (owner: Owner)
      ensures this.owner == owner
      ensures State() == BulletState(false, "", "", 0.0, 0.0, 0.0, 0.0, 0.0, 0.0, 0.0)
    {
      this.owner := owner;
      active := false;
      color, shadowColor := "", "";
      x, y, width, height, scale, vx, vy := 0.0, 0.0, 0.0, 0.0, 0.0, 0.0, 0.0;
    }

    function State(): BulletState
      reads this
    {
      BulletState(active, color, shadowColor, x, y, width, height, scale, vx, vy)
    }

    function Box(): Box
      reads this`x, this`y, this`width, this`height, this`scale
    {
      Geometry.Box(x, y, width, height, scale)
    }

    /** A bullet stays in play while its centre lies in the world widened by
        one bullet width on each side and one bullet height above and below. */
    predicate InExpandedWorld(world: World)
      reads this`x, this`y, this`width, this`height
    {
      -width <= x <= world.width + width &&
      -height <= y <= world.height + height
    }

    /** Bullet.init: (re)launches the slot. The shooter's velocity vx, vy is
        accepted and ignored. */
    method Init(color: string, shadowColor: string, xPos: real, yPos: real,
                scale: real, vx: real, vy: real)
      modifies this
      ensures State() == Launched(owner, color, shadowColor, xPos, yPos, scale)
    {
      active := true;
      this.color := color;
      this.shadowColor := shadowColor;
      x := xPos;
      y := yPos;
      width := BulletSize;
      height := BulletSize;
      this.scale := scale;
      this.vx := 0.0;
      this.vy := -0.5 + owner.Code() as real;
    }

    /** Bullet.logic: move, leave play outside the widened world, then hit the
        first overlapping enemy (player bullets) or the player (enemy bullets).
        The hit test runs even when the bullet has just left the world. */
    method Logic(elapsed: real, world: World, enemies: seq<Enemy>, player: Player)
      modifies this`x, this`y, this`active, enemies
      ensures x == old(x + vx * elapsed) && y == old(y + vy * elapsed)
      ensures !InExpandedWorld(world) ==> !active
      ensures forall e :: e in enemies ==>
        unchanged(e`x, e`y, e`vx, e`vy, e`attackState, e`elapsedUntilNextFire)
      ensures owner == PlayerOwned ==>
        var k := FirstHit(old(Boxes(enemies)), Box());
        active == (old(active) && InExpandedWorld(world) && k == |enemies|) &&
        (k < |enemies| ==> !enemies[k].active) &&
        (forall e :: e in enemies && (k == |enemies| || e != enemies[k]) ==> e.active == old(e.active))
      ensures owner == EnemyOwned ==>
        active == (old(active) && InExpandedWorld(world) && !Overlap(player.Box(), Box())) &&
        (forall e :: e in enemies ==> e.active == old(e.active))
    {
      ghost var boxes := Boxes(enemies);
      MoveAndLeaveWorld(elapsed, world);
      if owner == PlayerOwned {
        assert Boxes(enemies) == boxes;
        var _ := HitFirstEnemy(enemies);
      } else {
        HitPlayer(player);
      }
    }

    /** The enemy-bullet half of Bullet.logic: overlapping the player ends the
        bullet and leaves the player as it is. */
    method HitPlayer(player: Player)
      modifies this`active
      ensures active == (old(active) && !Overlap(player.Box(), Box()))
    {
      if Overlap(player.Box(), Box()) {
        active := false;
      }
    }

    /** The move and the bounds check at the start of Bullet.logic: outside
        the widened world the bullet leaves play. */
    method MoveAndLeaveWorld(elapsed: real, world: World)
      modifies this`x, this`y, this`active
      ensures x == old(x + vx * elapsed) && y == old(y + vy * elapsed)
      ensures active == (old(active) && InExpandedWorld(world))
    {
      x := x + vx * elapsed;
      y := y + vy * elapsed;

      var widthMargin := width;
      var heightMargin := height;
      if x < -widthMargin || x > world.width + widthMargin ||
         y < -heightMargin || y > world.height + heightMargin {
        active := false;
      }
    }

    /** The player-bullet half of Bullet.logic: scan the enemies in order and
        knock out the first one that overlaps, together with the bullet. */
    method HitFirstEnemy(enemies: seq<Enemy>) returns (k: nat)
      modifies this`active, enemies
      ensures k == FirstHit(old(Boxes(enemies)), Box())
      ensures active == (old(active) && k == |enemies|)
      ensures k < |enemies| ==> !enemies[k].active
      ensures forall e :: e in enemies && (k == |enemies| || e != enemies[k]) ==> e.active == old(e.active)
      ensures forall e :: e in enemies ==>
        unchanged(e`x, e`y, e`vx, e`vy, e`attackState, e`elapsedUntilNextFire)
    {
      ghost var boxes := Boxes(enemies);
      k := 0;
      while k < |enemies| && !Overlap(enemies[k].Box(), Box())
        invariant k <= |enemies|
        invariant forall j :: 0 <= j < k ==> !Overlap(enemies[j].Box(), Box())
      {
        k := k + 1;
      }
      FirstHitUnique(boxes, Box(), k);
      if k < |enemies| {
        enemies[k].active := false;
        active := false;
      }
    }
  }

  /** The spare-slot scan of Player.logic and Enemy.logic: the first inactive
      slot is launched and nothing else changes; a full pool fires nothing. */
  method Fire(pool: array<Bullet>, color: string, shadowColor: string,
              x: real, y: real, scale: real, vx: real, vy: real)
    returns (fired: bool, slot: nat)
    requires Distinct(pool)
    modifies pool[..]
    ensures slot == FirstInactive(old(Flags(pool[..])))
    ensures fired <==> slot < pool.Length
    ensures fired ==> pool[slot].State() == Launched(pool[slot].owner, color, shadowColor, x, y, scale)
    ensures forall j :: 0 <= j < pool.Length && j != slot ==> pool[j].State() == old(pool[j].State())
  {
    fired, slot := false, 0;
    while slot < pool.Length
      invariant slot <= pool.Length
      invariant forall j :: 0 <= j < slot ==> pool[j].active
      invariant forall j :: 0 <= j < pool.Length ==> pool[j].State() == old(pool[j].State())
    {
      if !pool[slot].active {
        pool[slot].Init(color, shadowColor, x, y, scale, vx, vy);
        fired := true;
        break;
      }
      slot := slot + 1;
    }
    ghost var before := old(Flags(pool[..]));
    FirstInactiveUnique(before, slot);
  }

  /** The start-up loop that fills a pool with inactive bullets of one owner. */
  method NewPool(owner: Owner, n: nat) returns (pool: array<Bullet>)
    ensures fresh(pool) && pool.Length == n && Distinct(pool)
    ensures forall i :: 0 <= i < n ==> fresh(pool[i]) && pool[i].owner == owner && !pool[i].active
  {
    var slots: seq<Bullet> := [];
    while |slots| < n
      invariant |slots| <= n
      invariant forall i :: 0 <= i < |slots| ==> fresh(slots[i]) && slots[i].owner == owner && !slots[i].active
      invariant forall i, j :: 0 <= i < j < |slots| ==> slots[i] != slots[j]
    {
      var b := new Bullet(owner);
      slots := slots + [b];
    }
    pool := new Bullet[n](i requires 0 <= i < n => slots[i]);
  }

  /** The two pools built once at start-up: 60 player bullets and 1000 enemy
      bullets, all inactive, no bullet in both. */
  method InitPools() returns (playerBullets: array<Bullet>, enemyBullets: array<Bullet>)
    ensures playerBullets.Length == PlayerBulletCount && enemyBullets.Length == EnemyBulletCount
    ensures Distinct(playerBullets) && Distinct(enemyBullets)
    ensures forall i :: 0 <= i < PlayerBulletCount ==>
      playerBullets[i].owner == PlayerOwned && !playerBullets[i].active
    ensures forall i :: 0 <= i < EnemyBulletCount ==>
      enemyBullets[i].owner == EnemyOwned && !enemyBullets[i].active
    ensures forall i, j :: 0 <= i < PlayerBulletCount && 0 <= j < EnemyBulletCount ==>
      playerBullets[i] != enemyBullets[j]
  {
    playerBullets := NewPool(PlayerOwned, PlayerBulletCount);
    enemyBullets := NewPool(EnemyOwned, EnemyBulletCount);
  }

  // ---------------------------------------------------------------------------
  // Enemies

  /** The horizontal velocity the patrol forces for a given attack state:
      rightwards when it is even, leftwards when it is odd. */
  function PatrolVx(attackState: nat, maxVx: real): real
  {
    if attackState % 2 == 0 then maxVx else -maxVx
  }

  /** Half of a scaled size: how far the centre must stay from a wall. */
  function Margin(size: real, scale: real): real
  {
    size / 2.0 * scale
  }

  /** Friction on the vertical speed, the forced horizontal speed, and the move. */
  function Drift(p: Patrol, s: Shape, elapsed: real, damp: real): Patrol
  {
    var vx := PatrolVx(p.attackState, s.maxVx);
    var vy := p.vy * damp;
    p.(x := p.x + vx * elapsed, y := p.y + vy * elapsed, vx := vx, vy := vy)
  }

  /** The side walls: clamp, turn round, advance the attack state, restore maxVy. */
  function Turn(p: Patrol, s: Shape, world: World): Patrol
  {
    var margin := Margin(s.width, s.scale);
    if p.x < margin then
      p.(x := margin, vx := -p.vx, attackState := p.attackState + 1, vy := s.maxVy)
    else if p.x > world.width - margin then
      p.(x := world.width - margin, vx := -p.vx, attackState := p.attackState + 1, vy := s.maxVy)
    else p
  }

  /** The top and bottom: bounce one height above the top, leave play one
      height below the bottom. */
  function Bounce(p: Patrol, s: Shape, world: World): Patrol
  {
    if p.y < -s.height then p.(y := -s.height, vy := -p.vy)
    else if p.y > world.height + s.height then p.(active := false)
    else p
  }

  /** One patrol frame of Enemy.logic. `damp` stands for friction ^ elapsed.
      A frame turns the enemy round at most once, and never brings an
      inactive enemy back. */
  function PatrolStep(p: Patrol, s: Shape, elapsed: real, damp: real, world: World): (r: Patrol)
    ensures r.attackState == p.attackState || r.attackState == p.attackState + 1
    ensures r.active ==> p.active
  {
    Bounce(Turn(Drift(p, s, elapsed, damp), s, world), s, world)
  }

  /** The patrol's rules: the attack state's parity forces the horizontal
      velocity before the move and friction damps the vertical one; the left
      wall clamps x to the margin and the right wall to the width less the
      margin, and either one turns the enemy round, advances the attack state
      by one and sets the vertical speed to maxVy; the enemy bounces off the
      line one height above the top, negating its vertical speed, and leaves
      play once it is more than one height below the bottom. `d` is the state
      after the move and `t` after the side walls. */
  lemma PatrolStepRules(p: Patrol, s: Shape, elapsed: real, damp: real, world: World)
    ensures var d := Drift(p, s, elapsed, damp);
            d.vx == PatrolVx(p.attackState, s.maxVx) && d.vy == p.vy * damp &&
            d.x == p.x + d.vx * elapsed && d.y == p.y + d.vy * elapsed &&
            d.attackState == p.attackState && d.active == p.active
    ensures var d := Drift(p, s, elapsed, damp);
            var t := Turn(d, s, world);
            var margin := Margin(s.width, s.scale);
            var wall := !(margin <= d.x <= world.width - margin);
            (d.x < margin ==> t.x == margin) &&
            (margin <= d.x && d.x > world.width - margin ==> t.x == world.width - margin) &&
            (wall ==> t.vx == -d.vx && t.attackState == p.attackState + 1 && t.vy == s.maxVy) &&
            (!wall ==> t == d) &&
            t.y == d.y && t.active == p.active
    ensures var d := Drift(p, s, elapsed, damp);
            var t := Turn(d, s, world);
            var r := PatrolStep(p, s, elapsed, damp, world);
            r.x == t.x && r.vx == t.vx && r.attackState == t.attackState &&
            (d.y < -s.height ==> r.y == -s.height && r.vy == -t.vy && r.active == p.active) &&
            (-s.height <= d.y ==> r.y == d.y && r.vy == t.vy) &&
            (-s.height <= d.y <= world.height + s.height ==> r.active == p.active) &&
            (-s.height <= d.y && world.height + s.height < d.y ==> !r.active)
  {
  }

  /** What every patrol frame keeps: the direction of travel agrees with the
      parity of the attack state, the enemy is between the side walls when it
      fits between them, it never rises above one height over the top, and it
      only ever goes from active to inactive. */
  lemma PatrolStepInvariants(p: Patrol, s: Shape, elapsed: real, damp: real, world: World)
    ensures var r := PatrolStep(p, s, elapsed, damp, world);
            r.vx == PatrolVx(r.attackState, s.maxVx) &&
            (var margin := Margin(s.width, s.scale);
             margin + margin <= world.width ==> margin <= r.x <= world.width - margin) &&
            r.y >= -s.height &&
            (r.active ==> p.active) &&
            (r.active && 0.0 <= s.height && 0.0 <= world.height ==> r.y <= world.height + s.height)
  {
    var t := Turn(Drift(p, s, elapsed, damp), s, world);
    assert PatrolStep(p, s, elapsed, damp, world) == Bounce(t, s, world);
  }

  lemma ProductNonNegative(a: real, b: real)
    requires 0.0 <= a && 0.0 <= b
    ensures 0.0 <= a * b
  {
  }

  class Enemy {
    var active: bool
    var attackState: nat
    const friction: real := 0.995
    const maxVx: real := 0.5
    const maxVy: real := 0.5
    const acceleration: real := 0.005
    const fireRate: real := 1000.0
    var elapsedUntilNextFire: real
    var vx: real
    var vy: real
    const scale: real := 1.0
    const width: real := 20.0
    const height: real := 20.0
    var x: real
    var y: real

    /** A new enemy half its height above the top edge, at a horizontal
        position drawn from r in [0, 1), which puts it between the side walls. */
    constructor (world: World, r: real)
      requires 0.0 <= r < 1.0
      ensures active && attackState == 0 && elapsedUntilNextFire == fireRate
      ensures vx == 0.0 && vy == maxVy
      ensures x == r * (world.width - width) + width / 2.0 && y == -height / 2.0
      ensures world.width >= width ==> width / 2.0 <= x <= world.width - width / 2.0
    {
      active := true;
      attackState := 0;
      elapsedUntilNextFire := fireRate;
      vx := 0.0;
      vy := maxVy;
      x := r * (world.width - width) + width / 2.0;
      y := -height / 2.0;
      if world.width >= width {
        ProductNonNegative(r, world.width - width);
        ProductNonNegative(1.0 - r, world.width - width);
      }
    }

    function Box(): Box
      reads this`x, this`y
    {
      Geometry.Box(x, y, width, height, scale)
    }

    function PatrolState(): Patrol
      reads this
    {
      Patrol(x, y, vx, vy, attackState, active)
    }

    function Dimensions(): Shape
    {
      Shape(maxVx, maxVy, acceleration, width, height, scale)
    }

    /** Enemy.logic in patrol mode: count down and fire from the lower edge into
        the enemy pool, then take one patrol step. `damp` is friction ^ elapsed. */
    method Logic(elapsed: real, damp: real, world: World, pool: array<Bullet>)
      requires Distinct(pool)
      modifies this, pool[..]
      ensures PatrolState() == PatrolStep(old(PatrolState()), Dimensions(), elapsed, damp, world)
      ensures var due := old(elapsedUntilNextFire) - elapsed <= 0.0;
              var slot := FirstInactive(old(Flags(pool[..])));
              var fired := due && slot < pool.Length;
              elapsedUntilNextFire == (if fired then fireRate else old(elapsedUntilNextFire) - elapsed) &&
              (fired ==>
                 pool[slot].State() == Launched(pool[slot].owner, "#FFFFFF", "#FF0000", old(x), old(y) + width / 2.0 * scale, scale)) &&
              (forall j :: 0 <= j < pool.Length && !(fired && j == slot) ==> pool[j].State() == old(pool[j].State()))
    {
      FireWhenDue(elapsed, pool);
      PatrolMove(elapsed, damp, world);
    }

    /** The countdown and the shot from the lower edge of Enemy.logic. */
    method FireWhenDue(elapsed: real, pool: array<Bullet>)
      requires Distinct(pool)
      modifies this`elapsedUntilNextFire, pool[..]
      ensures var due := old(elapsedUntilNextFire) - elapsed <= 0.0;
              var slot := FirstInactive(old(Flags(pool[..])));
              var fired := due && slot < pool.Length;
              elapsedUntilNextFire == (if fired then fireRate else old(elapsedUntilNextFire) - elapsed) &&
              (fired ==>
                 pool[slot].State() == Launched(pool[slot].owner, "#FFFFFF", "#FF0000", old(x), old(y) + width / 2.0 * scale, scale)) &&
              (forall j :: 0 <= j < pool.Length && !(fired && j == slot) ==> pool[j].State() == old(pool[j].State()))
    {
      var remaining := elapsedUntilNextFire - elapsed;
      if remaining <= 0.0 {
        var fired, _ := Fire(pool, "#FFFFFF", "#FF0000", x, y + width / 2.0 * scale, scale, vx, vy);
        if fired {
          remaining := fireRate;
        }
      }
      elapsedUntilNextFire := remaining;
    }

    /** The patrol-mode movement of Enemy.logic. The source also damps vx, but
        the forced velocity overwrites it on the next line, so that product is
        left out. */
    method PatrolMove(elapsed: real, damp: real, world: World)
      modifies this`x, this`y, this`vx, this`vy, this`attackState, this`active
      ensures PatrolState() == PatrolStep(old(PatrolState()), Dimensions(), elapsed, damp, world)
    {
      DriftBy(elapsed, damp);
      TurnAtSideWalls(world);
      BounceOffTopAndBottom(world);
    }

    /** Friction on vy, the velocity forced by the attack state, and the move. */
    method DriftBy(elapsed: real, damp: real)
      modifies this`x, this`y, this`vx, this`vy
      ensures PatrolState() == Drift(old(PatrolState()), Dimensions(), elapsed, damp)
    {
      vy := vy * damp;

      var even := attackState % 2 == 0;
      if even {
        vx := maxVx;
      } else {
        vx := -maxVx;
      }

      x := x + vx * elapsed;
      y := y + vy * elapsed;
    }

    method TurnAtSideWalls(world: World)
      modifies this`x, this`vx, this`vy, this`attackState
      ensures PatrolState() == Turn(old(PatrolState()), Dimensions(), world)
    {
      var widthMargin := width / 2.0 * scale;
      if x < widthMargin {
        x := widthMargin;
        vx := vx * -1.0;
        attackState := attackState + 1;
        vy := maxVy;
      } else if x > world.width - widthMargin {
        x := world.width - widthMargin;
        vx := vx * -1.0;
        attackState := attackState + 1;
        vy := maxVy;
      }
    }

    method BounceOffTopAndBottom(world: World)
      modifies this`y, this`vy, this`active
      ensures PatrolState() == Bounce(old(PatrolState()), Dimensions(), world)
    {
      if y < -height {
        y := -height;
        vy := vy * -1.0;
      } else if y > world.height + height {
        active := false;
      }
    }
  }

  // ---------------------------------------------------------------------------
  // The player

  /** One axis of steering: the key towards the negative side eases the
      velocity towards -maxV, the other key towards +maxV. */
  function Steer(v: real, toNegative: bool, toPositive: bool,
                 maxV: real, acceleration: real, elapsed: real): real
  {
    var v1 := if toNegative && !toPositive then v + (-maxV - v) * acceleration * elapsed else v;
    if toPositive && !toNegative then v1 + (maxV - v1) * acceleration * elapsed else v1
  }

  /** Steering is an exponential approach: one held key shrinks the distance to
      its target speed by the factor 1 - acceleration * elapsed, and opposite
      keys held together cancel. */
  lemma SteerApproaches(v: real, toNegative: bool, toPositive: bool,
                        maxV: real, acceleration: real, elapsed: real)
    ensures var r := Steer(v, toNegative, toPositive, maxV, acceleration, elapsed);
            (toNegative == toPositive ==> r == v) &&
            (toNegative && !toPositive ==> r + maxV == (v + maxV) * (1.0 - acceleration * elapsed)) &&
            (toPositive && !toNegative ==> r - maxV == (v - maxV) * (1.0 - acceleration * elapsed))
  {
  }

  /** Friction on both velocity components. */
  function Damped(m: Motion, damp: real): Motion
  {
    m.(vx := m.vx * damp, vy := m.vy * damp)
  }

  /** Steering on both axes. */
  function Steered(m: Motion, k: Keys, s: Shape, elapsed: real): Motion
  {
    m.(vx := Steer(m.vx, k.left, k.right, s.maxVx, s.acceleration, elapsed),
       vy := Steer(m.vy, k.forward, k.backward, s.maxVy, s.acceleration, elapsed))
  }

  /** The move by the velocity over the elapsed time. */
  function Advanced(m: Motion, elapsed: real): Motion
  {
    m.(x := m.x + m.vx * elapsed, y := m.y + m.vy * elapsed)
  }

  /** Friction, steering and the move, before the walls are looked at. */
  function Glide(m: Motion, k: Keys, s: Shape, elapsed: real, damp: real): Motion
  {
    Advanced(Steered(Damped(m, damp), k, s, elapsed), elapsed)
  }

  /** The bounce off the four walls, half the player's size inside the world. */
  function Clamped(m: Motion, s: Shape, world: World): Motion
  {
    ClampedWithin(m, Margin(s.width, s.scale), Margin(s.height, s.scale), world)
  }

  /** The bounce off the four walls, the given margins inside the world. */
  function ClampedWithin(m: Motion, widthMargin: real, heightMargin: real, world: World): Motion
  {
    var xs := ClampAxis(m.x, m.vx, widthMargin, world.width - widthMargin);
    var ys := ClampAxis(m.y, m.vy, heightMargin, world.height - heightMargin);
    Motion(xs.0, ys.0, xs.1, ys.1)
  }

  /** The player's movement for one frame. `damp` is friction ^ elapsed.
      The walls reverse the velocity but never change the speed. */
  function PlayerMove(m: Motion, k: Keys, s: Shape, elapsed: real, damp: real, world: World): (r: Motion)
    ensures var g := Glide(m, k, s, elapsed, damp);
            Abs(r.vx) == Abs(g.vx) && Abs(r.vy) == Abs(g.vy)
  {
    Clamped(Glide(m, k, s, elapsed, damp), s, world)
  }

  /** After a frame the player's centre is inside the world shrunk by half its
      size, provided it fits; a velocity component is reversed exactly when the
      moved position had to be clamped on that axis, and kept otherwise. `g` is
      the motion before the wall checks, Glide of the frame. */
  lemma PlayerStaysInWorld(g: Motion, s: Shape, world: World)
    ensures var r := Clamped(g, s, world);
            var margin := Margin(s.width, s.scale);
            (margin + margin <= world.width ==> margin <= r.x <= world.width - margin) &&
            (margin <= g.x <= world.width - margin ==> r.x == g.x && r.vx == g.vx) &&
            (!(margin <= g.x <= world.width - margin) ==> r.vx == -g.vx)
    ensures var r := Clamped(g, s, world);
            var margin := Margin(s.height, s.scale);
            (margin + margin <= world.height ==> margin <= r.y <= world.height - margin) &&
            (margin <= g.y <= world.height - margin ==> r.y == g.y && r.vy == g.vy) &&
            (!(margin <= g.y <= world.height - margin) ==> r.vy == -g.vy)
  {
  }

  /** The direction keys as Player.logic tests them. */
  function HeldKeys(input: Input): Keys
    reads input
  {
    Keys(input.Down(Left), input.Down(Right), input.Down(Forward), input.Down(Backward))
  }

  class Player {
    var vx: real
    var vy: real
    const friction: real := 0.995
    const maxVx: real := 2.0
    const maxVy: real := 2.0
    const acceleration: real := 0.005
    const fireRate: real := 0.0
    var elapsedUntilNextFire: real
    var x: real
    var y: real
    const scale: real := 1.0
    const width: real := 20.0
    const height: real := 20.0

    constructor (xPos: real, yPos: real)
      ensures Kinematics() == Motion(xPos, yPos, 0.0, 0.0)
      ensures elapsedUntilNextFire == 0.0
    {
      vx, vy := 0.0, 0.0;
      elapsedUntilNextFire := 0.0;
      x, y := xPos, yPos;
    }

    function Box(): Box
      reads this`x, this`y
    {
      Geometry.Box(x, y, width, height, scale)
    }

    function Kinematics(): Motion
      reads this`x, this`y, this`vx, this`vy
    {
      Motion(x, y, vx, vy)
    }

    function Dimensions(): Shape
    {
      Shape(maxVx, maxVy, acceleration, width, height, scale)
    }

    /** Player.logic: count down and, while the fire key is down, fire from the
        top edge into the player pool; then move and bounce inside the world.
        `damp` is friction ^ elapsed. */
    method Logic(elapsed: real, damp: real, world: World, input: Input, pool: array<Bullet>)
      requires Distinct(pool)
      modifies this, pool[..]
      ensures Kinematics() == PlayerMove(old(Kinematics()), HeldKeys(input), Dimensions(), elapsed, damp, world)
      ensures var due := input.Down(Space) && old(elapsedUntilNextFire) - elapsed <= 0.0;
              var slot := FirstInactive(old(Flags(pool[..])));
              var fired := due && slot < pool.Length;
              elapsedUntilNextFire == (if fired then fireRate else old(elapsedUntilNextFire) - elapsed) &&
              (fired ==>
                 pool[slot].State() == Launched(pool[slot].owner, "#FFFF00", "#FF8800", old(x), old(y) - width / 2.0 * scale, scale)) &&
              (forall j :: 0 <= j < pool.Length && !(fired && j == slot) ==> pool[j].State() == old(pool[j].State()))
    {
      FireWhenDue(elapsed, input.Down(Space), pool);
      Move(elapsed, damp, world, input);
    }

    /** The countdown and, while the fire key is down, the shot from the top
        edge of Player.logic. */
    method FireWhenDue(elapsed: real, trigger: bool, pool: array<Bullet>)
      requires Distinct(pool)
      modifies this`elapsedUntilNextFire, pool[..]
      ensures var due := trigger && old(elapsedUntilNextFire) - elapsed <= 0.0;
              var slot := FirstInactive(old(Flags(pool[..])));
              var fired := due && slot < pool.Length;
              elapsedUntilNextFire == (if fired then fireRate else old(elapsedUntilNextFire) - elapsed) &&
              (fired ==>
                 pool[slot].State() == Launched(pool[slot].owner, "#FFFF00", "#FF8800", old(x), old(y) - width / 2.0 * scale, scale)) &&
              (forall j :: 0 <= j < pool.Length && !(fired && j == slot) ==> pool[j].State() == old(pool[j].State()))
    {
      var remaining := elapsedUntilNextFire - elapsed;
      if trigger && remaining <= 0.0 {
        var fired, _ := Fire(pool, "#FFFF00", "#FF8800", x, y - width / 2.0 * scale, scale, vx, vy);
        if fired {
          remaining := fireRate;
        }
      }
      elapsedUntilNextFire := remaining;
    }

    /** Friction, steering and the move of Player.logic, then the walls. */
    method Move(elapsed: real, damp: real, world: World, input: Input)
      modifies this`x, this`y, this`vx, this`vy
      ensures Kinematics() == PlayerMove(old(Kinematics()), HeldKeys(input), Dimensions(), elapsed, damp, world)
    {
      var keys := HeldKeys(input);
      ApplyFriction(damp);
      SteerBy(elapsed, keys);
      MoveBy(elapsed);
      KeepInWorld(world);
    }

    method ApplyFriction(damp: real)
      modifies this`vx, this`vy
      ensures Kinematics() == Damped(old(Kinematics()), damp)
    {
      vx := vx * damp;
      vy := vy * damp;
    }

    /** The four direction-key tests of Player.logic. */
    method SteerBy(elapsed: real, keys: Keys)
      modifies this`vx, this`vy
      ensures Kinematics() == Steered(old(Kinematics()), keys, Dimensions(), elapsed)
    {
      if keys.left && !keys.right {
        vx := vx + (-maxVx - vx) * acceleration * elapsed;
      }
      if keys.right && !keys.left {
        vx := vx + (maxVx - vx) * acceleration * elapsed;
      }
      if keys.forward && !keys.backward {
        vy := vy + (-maxVy - vy) * acceleration * elapsed;
      }
      if keys.backward && !keys.forward {
        vy := vy + (maxVy - vy) * acceleration * elapsed;
      }
    }

    method MoveBy(elapsed: real)
      modifies this`x, this`y
      ensures Kinematics() == Advanced(old(Kinematics()), elapsed)
    {
      x := x + vx * elapsed;
      y := y + vy * elapsed;
    }

    /** The four wall checks at the end of Player.logic. */
    method KeepInWorld(world: World)
      modifies this`x, this`y, this`vx, this`vy
      ensures Kinematics() == Clamped(old(Kinematics()), Dimensions(), world)
    {
      var widthMargin := width / 2.0 * scale;
      var heightMargin := height / 2.0 * scale;

      if x < widthMargin {
        x := widthMargin;
        vx := vx * -1.0;
      } else if x > world.width - widthMargin {
        x := world.width - widthMargin;
        vx := vx * -1.0;
      }

      if y < heightMargin {
        y := heightMargin;
        vy := vy * -1.0;
      } else if y > world.height - heightMargin {
        y := world.height - heightMargin;
        vy := vy * -1.0;
      }
    }
  }
}
