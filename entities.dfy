// The player and the zone's entities in script.js, and the passes one frame
// of update makes over them: input and physics, platform landing, droplet
// collection, enemy hits and checkpoint flags.
module Entities {
  import opened Prelude
  import opened Geometry
  import opened Tables

  const InternalW: real := 920.0
  const InternalH: real := 480.0
  const Gravity: real := 0.9
  /** How far above the bottom edge, besides its own height, a fallen player
      reappears. */
  const RespawnRise: real := 60.0
  const DropletValue: int := 10
  /** Zone completion threshold: eight droplets' worth of water. */
  const DropletsToFill: int := 8 * DropletValue
  const DropletBounce: real := -6.0
  const EnemyPenalty: int := 20
  const EnemyKnockback: real := 28.0
  const EnemyBounce: real := -8.0

  datatype Player = Player(
    x: real, y: real, w: real, h: real, vx: real, vy: real,
    speed: real, jumpPower: real, onGround: bool, lives: int)

  /** spawnPlayer */
  const Spawn: Player := Player(40.0, 360.0, 22.0, 34.0, 0.0, 0.0, 2.4, 14.0, false, 3)

  function PlayerBox(p: Player): Box {
    Box(p.x, p.y, p.w, p.h)
  }

  /** The keys held during a frame: left (arrow or a), right (arrow or d),
      jump (space, up arrow or w). */
  datatype Input = Input(left: bool, right: bool, jump: bool)

  datatype Droplet = Droplet(pos: Point, col: bool)

  /** The collection box around a droplet's anchor point. */
  function DropletBox(d: Droplet): Box {
    Box(d.pos.x - 6.0, d.pos.y - 10.0, 12.0, 14.0)
  }

  datatype Enemy = Enemy(box: Box, kind: string, hit: bool)

  datatype Flag = Flag(box: Box, triggered: bool)

  predicate IsCollected(d: Droplet) { d.col }
  predicate IsHit(e: Enemy) { e.hit }
  predicate IsTriggered(f: Flag) { f.triggered }

  // ---------------------------------------------------------------------
  // Counting one-way flags
  // ---------------------------------------------------------------------

  /** The number of elements of s that satisfy P. */
  function CountIf<T>(s: seq<T>, P: T -> bool): (n: nat)
    ensures n <= |s|
    decreases |s|
  {
    if s == [] then 0 else CountIf(s[..|s| - 1], P) + (if P(s[|s| - 1]) then 1 else 0)
  }

  /** Replacing one element changes the count by what that element
      contributes. */
  lemma {:induction false} CountIfUpdate<T>(s: seq<T>, i: nat, v: T, P: T -> bool)
    requires i < |s|
    ensures CountIf(s[i := v], P) ==
            CountIf(s, P) - (if P(s[i]) then 1 else 0) + (if P(v) then 1 else 0)
    decreases |s|
  {
    var n := |s| - 1;
    if i == n {
      assert s[i := v][..n] == s[..n];
    } else {
      assert s[i := v][..n] == s[..n][i := v];
      CountIfUpdate(s[..n], i, v, P);
    }
  }

  /** Counting over a prefix one element longer. */
  lemma CountIfPrefix<T>(s: seq<T>, i: nat, P: T -> bool)
    requires i < |s|
    ensures CountIf(s[..i + 1], P) == CountIf(s[..i], P) + (if P(s[i]) then 1 else 0)
  {
    assert s[..i + 1][..i] == s[..i];
  }

  /** Nothing is counted in a sequence none of whose elements satisfy P. */
  lemma {:induction false} CountIfNone<T>(s: seq<T>, P: T -> bool)
    requires forall i :: 0 <= i < |s| ==> !P(s[i])
    ensures CountIf(s, P) == 0
    decreases |s|
  {
    if s != [] {
      CountIfNone(s[..|s| - 1], P);
    }
  }

  /** Setting a one-way flag never lowers the count: if every element
      counted in s is counted in t, t counts at least as many. */
  lemma {:induction false} CountIfMono<T>(s: seq<T>, t: seq<T>, P: T -> bool)
    requires |s| == |t| && forall i :: 0 <= i < |s| ==> P(s[i]) ==> P(t[i])
    ensures CountIf(s, P) <= CountIf(t, P)
    decreases |s|
  {
    if s != [] {
      var n := |s| - 1;
      CountIfMono(s[..n], t[..n], P);
    }
  }

  // ---------------------------------------------------------------------
  // Input and physics
  // ---------------------------------------------------------------------

  /** The first part of a frame: the keys set the horizontal speed, a jump
      starts only from the ground, gravity pulls, the player moves, and the
      horizontal position is kept inside the world. */
  function Advance(p: Player, input: Input): (q: Player)
    requires 0.0 <= p.w <= InternalW
    ensures q.vx == if input.left then -p.speed else if input.right then p.speed else 0.0
    ensures input.jump && p.onGround ==> q.vy == Gravity - p.jumpPower && !q.onGround
    ensures !(input.jump && p.onGround) ==> q.vy == p.vy + Gravity && q.onGround == p.onGround
    ensures q.y == p.y + q.vy
    ensures 0.0 <= q.x <= InternalW - q.w
    ensures 0.0 <= p.x + q.vx <= InternalW - p.w ==> q.x == p.x + q.vx
    ensures p.x + q.vx < 0.0 ==> q.x == 0.0
    ensures p.x + q.vx + p.w > InternalW ==> q.x == InternalW - p.w
    ensures q == p.(x := q.x, y := q.y, vx := q.vx, vy := q.vy, onGround := q.onGround)
  {
    // input
    var steered := p.(vx := if input.left then -p.speed else if input.right then p.speed else 0.0);
    var jumped :=
      if input.jump && steered.onGround then steered.(vy := -steered.jumpPower, onGround := false)
      else steered;
    // physics
    var pulled := jumped.(vy := jumped.vy + Gravity);
    var moved := pulled.(x := pulled.x + pulled.vx, y := pulled.y + pulled.vy);
    // world bounds
    var fromLeft := if moved.x < 0.0 then moved.(x := 0.0) else moved;
    if fromLeft.x + fromLeft.w > InternalW then fromLeft.(x := InternalW - fromLeft.w) else fromLeft
  }

  // ---------------------------------------------------------------------
  // Platforms
  // ---------------------------------------------------------------------

  /** The landing test of one platform: falling or resting, overlapping it
      horizontally, feet below its top and head above its bottom. */
  predicate Lands(p: Player, b: Box) {
    && p.vy >= 0.0
    && p.x + p.w > b.x && p.x < b.x + b.w
    && p.y + p.h > b.y && p.y < b.y + b.h
  }

  /** The player after the platform pass over the given platforms, one
      platform after another. */
  function Land(p: Player, platforms: seq<Box>): Player
    decreases |platforms|
  {
    if platforms == [] then p.(onGround := false)
    else
      var q := Land(p, platforms[..|platforms| - 1]);
      var b := platforms[|platforms| - 1];
      if Lands(q, b) then q.(y := b.y - q.h, vy := 0.0, onGround := true) else q
  }

  /** The platform pass moves the player only vertically. */
  lemma {:induction false} LandShape(p: Player, platforms: seq<Box>)
    ensures var q := Land(p, platforms); q == p.(y := q.y, vy := q.vy, onGround := q.onGround)
    decreases |platforms|
  {
    if platforms != [] {
      LandShape(p, platforms[..|platforms| - 1]);
    }
  }

  /** The platform pass: the player ends on the ground exactly when some
      platform passes the landing test for the player as it entered the
      pass; then it stands on top of a platform at rest, and otherwise it is
      untouched but for onGround. */
  method LandOnPlatforms(p: Player, platforms: seq<Box>) returns (q: Player)
    ensures q.onGround <==> exists i :: 0 <= i < |platforms| && Lands(p, platforms[i])
    ensures !q.onGround ==> q == p.(onGround := false)
    ensures q.onGround ==> q.vy == 0.0 && exists i :: 0 <= i < |platforms| && q.y + q.h == platforms[i].y
    ensures q == p.(y := q.y, vy := q.vy, onGround := q.onGround)
    ensures q == Land(p, platforms)
  {
    q := p.(onGround := false);
    for i := 0 to |platforms|
      invariant q == Land(p, platforms[..i])
      invariant q == p.(y := q.y, vy := q.vy, onGround := q.onGround)
      invariant q.onGround <==> exists j :: 0 <= j < i && Lands(p, platforms[j])
      invariant !q.onGround ==> q == p.(onGround := false)
      invariant q.onGround ==> q.vy == 0.0 && exists j :: 0 <= j < i && q.y + q.h == platforms[j].y
    {
      assert platforms[..i + 1][..i] == platforms[..i];
      var plat := platforms[i];
      if q.vy >= 0.0 && q.x + q.w > plat.x && q.x < plat.x + plat.w {
        var foot := q.y + q.h;
        if foot > plat.y && q.y < plat.y + plat.h {
          q := q.(y := plat.y - q.h, vy := 0.0, onGround := true);
        }
      }
    }
    assert platforms[..|platforms|] == platforms;
  }

  // ---------------------------------------------------------------------
  // Droplets
  // ---------------------------------------------------------------------

  /** The droplets after the droplet pass of a player whose box is b: each
      one the box overlaps is collected. */
  function Collected(b: Box, ds: seq<Droplet>): seq<Droplet> {
    seq(|ds|, i requires 0 <= i < |ds| => ds[i].(col := ds[i].col || Aabb(b, DropletBox(ds[i]))))
  }

  /** The droplet pass: every droplet not yet collected whose box the player
      overlaps is collected, each collection adds one droplet's value to the
      score and to the water meter, and any collection bounces the player. */
  method CollectDroplets(p: Player, ds: seq<Droplet>, score: int, water: int)
    returns (q: Player, ds': seq<Droplet>, score': int, water': int)
    ensures |ds'| == |ds|
    ensures forall i :: 0 <= i < |ds| ==>
              ds'[i] == ds[i].(col := ds[i].col || Aabb(PlayerBox(p), DropletBox(ds[i])))
    ensures CountIf(ds, IsCollected) <= CountIf(ds', IsCollected)
    ensures var k := CountIf(ds', IsCollected) - CountIf(ds, IsCollected);
              && score' == score + DropletValue * k
              && water' == water + DropletValue * k
              && q == if k > 0 then p.(vy := DropletBounce) else p
    ensures PlayerBox(q) == PlayerBox(p)
    ensures ds' == Collected(PlayerBox(p), ds)
  {
    q, ds', score', water' := p, ds, score, water;
    var k := 0;
    for i := 0 to |ds|
      invariant |ds'| == |ds|
      invariant forall j :: 0 <= j < i ==>
                  ds'[j] == ds[j].(col := ds[j].col || Aabb(PlayerBox(p), DropletBox(ds[j])))
      invariant forall j :: i <= j < |ds| ==> ds'[j] == ds[j]
      invariant k >= 0 && CountIf(ds', IsCollected) == CountIf(ds, IsCollected) + k
      invariant score' == score + DropletValue * k && water' == water + DropletValue * k
      invariant q == if k > 0 then p.(vy := DropletBounce) else p
    {
      var d := ds'[i];
      if !d.col && Aabb(PlayerBox(q), DropletBox(d)) {
        CountIfUpdate(ds', i, d.(col := true), IsCollected);
        ds' := ds'[i := d.(col := true)];
        score' := score' + DropletValue;
        water' := water' + DropletValue;
        q := q.(vy := DropletBounce);
        k := k + 1;
      }
    }
    assert ds' == Collected(PlayerBox(p), ds);
  }

  // ---------------------------------------------------------------------
  // Enemies
  // ---------------------------------------------------------------------

  /** The horizontal position after n knockbacks, none of which goes past
      the left edge. */
  function Knocked(x: real, n: int): real {
    if n <= 0 then x else MaxReal(0.0, x - EnemyKnockback * (n as real))
  }

  /** The score after n hits, none of which takes it below 0. */
  function Penalized(score: int, n: int): int {
    if n <= 0 then score else Max(0, score - EnemyPenalty * n)
  }

  /** How many enemies among the first i the pass has newly hit. */
  function HitsBefore(es: seq<Enemy>, es': seq<Enemy>, i: nat): int
    requires i <= |es| && i <= |es'|
  {
    CountIf(es'[..i], IsHit) - CountIf(es[..i], IsHit)
  }

  lemma KnockedStep(x: real, k: int)
    requires k >= 0
    ensures Knocked(x, k + 1) == MaxReal(0.0, Knocked(x, k) - EnemyKnockback)
  {
  }

  lemma PenalizedStep(score: int, k: int)
    requires k >= 0
    ensures Penalized(score, k + 1) == Max(0, Penalized(score, k) - EnemyPenalty)
  {
  }

  /** A knockback followed by m more is m + 1 knockbacks. */
  lemma KnockedShift(x: real, m: int)
    requires m >= 0
    ensures Knocked(MaxReal(0.0, x - EnemyKnockback), m) == Knocked(x, m + 1)
  {
  }

  /** Counting over a sequence split after its first element. */
  lemma {:induction false} CountIfCons<T>(x: T, s: seq<T>, P: T -> bool)
    ensures CountIf([x] + s, P) == (if P(x) then 1 else 0) + CountIf(s, P)
    decreases |s|
  {
    if s != [] {
      var n := |s| - 1;
      assert ([x] + s)[..|s|] == [x] + s[..n];
      CountIfCons(x, s[..n], P);
    }
  }

  /** The player's box b when the pass reaches enemy j: shifted by the
      knockbacks of the hits before j. */
  function BoxAt(b: Box, es: seq<Enemy>, es': seq<Enemy>, j: nat): Box
    requires j <= |es| && j <= |es'|
  {
    b.(x := Knocked(b.x, HitsBefore(es, es', j)))
  }

  /** Enemy j is newly hit exactly when it was not hit and overlaps the
      player's box at that point of the pass, for a pass that began with
      the player's box b. */
  predicate HitRule(b: Box, es: seq<Enemy>, es': seq<Enemy>, j: nat)
    requires j < |es| && j < |es'|
  {
    es'[j].hit && !es[j].hit <==> !es[j].hit && Aabb(BoxAt(b, es, es', j), es[j].box)
  }

  /** The player after k hits of one pass. */
  function Struck(p: Player, k: int): Player {
    if k > 0 then p.(x := Knocked(p.x, k), vy := EnemyBounce) else p
  }

  lemma StruckStep(p: Player, k: int)
    requires k >= 0
    ensures Struck(p, k + 1) == Struck(p, k).(vy := EnemyBounce, x := MaxReal(0.0, Struck(p, k).x - EnemyKnockback))
  {
    KnockedStep(p.x, k);
  }

  /** The enemies after the enemy pass of a player whose box is b as the pass
      begins, one enemy after another: an enemy not yet hit that the box
      overlaps is hit, and the hit knocks the box back before the next one
      is tested. */
  function Strike(b: Box, es: seq<Enemy>): (r: seq<Enemy>)
    ensures |r| == |es|
    decreases |es|
  {
    if es == [] then []
    else
      var hitNow := !es[0].hit && Aabb(b, es[0].box);
      var next := if hitNow then b.(x := MaxReal(0.0, b.x - EnemyKnockback)) else b;
      [es[0].(hit := es[0].hit || hitNow)] + Strike(next, es[1..])
  }

  /** Strike unfolded at enemy i, with the box c the pass has reached. */
  lemma StrikeAt(c: Box, es: seq<Enemy>, i: nat)
    requires i < |es|
    ensures var hitNow := !es[i].hit && Aabb(c, es[i].box);
            var next := if hitNow then c.(x := MaxReal(0.0, c.x - EnemyKnockback)) else c;
            Strike(c, es[i..]) == [es[i].(hit := es[i].hit || hitNow)] + Strike(next, es[i + 1..])
  {
    assert es[i..][1..] == es[i + 1..];
  }

  /** The enemy pass changes nothing but the hit marks, and a hit enemy
      stays hit. */
  lemma {:induction false} StrikeShape(b: Box, es: seq<Enemy>)
    ensures forall i :: 0 <= i < |es| ==>
              Strike(b, es)[i] == es[i].(hit := Strike(b, es)[i].hit) && (es[i].hit ==> Strike(b, es)[i].hit)
    decreases |es|
  {
    if es != [] {
      var hitNow := !es[0].hit && Aabb(b, es[0].box);
      var next := if hitNow then b.(x := MaxReal(0.0, b.x - EnemyKnockback)) else b;
      StrikeShape(next, es[1..]);
    }
  }

  /** The hits among the first j enemies of a pass, counted over the rest
      of the pass once its first enemy is done. */
  lemma HitsBeforeCons(es: seq<Enemy>, r: seq<Enemy>, j: nat)
    requires |r| == |es| && 0 < j <= |es|
    ensures HitsBefore(es, r, j) ==
            (if r[0].hit then 1 else 0) - (if es[0].hit then 1 else 0) + HitsBefore(es[1..], r[1..], j - 1)
  {
    assert r[..j] == [r[0]] + r[1..][..j - 1];
    assert es[..j] == [es[0]] + es[1..][..j - 1];
    CountIfCons(r[0], r[1..][..j - 1], IsHit);
    CountIfCons(es[0], es[1..][..j - 1], IsHit);
  }

  /** The hits of a pass over a prefix are never fewer than before it. */
  lemma StrikeHitsBefore(b: Box, es: seq<Enemy>, j: nat)
    requires j <= |es|
    ensures HitsBefore(es, Strike(b, es), j) >= 0
  {
    StrikeShape(b, es);
    CountIfMono(es[..j], Strike(b, es)[..j], IsHit);
  }

  /** Enemy j is newly hit by the pass exactly when it was not hit and
      overlaps the player's box as the hits before it have shifted it. */
  lemma {:induction false} StrikeHitRule(b: Box, es: seq<Enemy>)
    ensures forall j :: 0 <= j < |es| ==> HitRule(b, es, Strike(b, es), j)
    decreases |es|
  {
    if es != [] {
      var hitNow := !es[0].hit && Aabb(b, es[0].box);
      var next := if hitNow then b.(x := MaxReal(0.0, b.x - EnemyKnockback)) else b;
      var r := Strike(b, es);
      var r' := Strike(next, es[1..]);
      assert r[0] == es[0].(hit := es[0].hit || hitNow) && r[1..] == r';
      StrikeHitRule(next, es[1..]);
      forall j | 0 <= j < |es|
        ensures HitRule(b, es, r, j)
      {
        if j == 0 {
          assert r[..0] == [] && es[..0] == [];
        } else {
          assert HitRule(next, es[1..], r', j - 1);
          HitsBeforeCons(es, r, j);
          StrikeHitsBefore(next, es[1..], j - 1);
          if hitNow {
            KnockedShift(b.x, HitsBefore(es[1..], r', j - 1));
          }
        }
      }
    }
  }

  /** One more enemy done: the pass of the whole is the part done, now
      including enemy i as marked against the box c, followed by the pass
      over the rest from the box after enemy i. */
  lemma StrikeStep(b: Box, es: seq<Enemy>, es': seq<Enemy>, c: Box, i: nat, hitNow: bool, next: Box)
    requires |es'| == |es| && i < |es| && es'[i] == es[i]
    requires Strike(b, es) == es'[..i] + Strike(c, es[i..])
    requires hitNow == (!es[i].hit && Aabb(c, es[i].box))
    requires next == if hitNow then c.(x := MaxReal(0.0, c.x - EnemyKnockback)) else c
    ensures Strike(b, es) == es'[i := es[i].(hit := es[i].hit || hitNow)][..i + 1] + Strike(next, es[i + 1..])
  {
    var v := es[i].(hit := es[i].hit || hitNow);
    StrikeAt(c, es, i);
    assert es'[i := v][..i + 1] == es'[..i] + [v];
    assert es'[..i] + ([v] + Strike(next, es[i + 1..])) == (es'[..i] + [v]) + Strike(next, es[i + 1..]);
  }

  /** The enemy pass. Each enemy not yet hit is hit when it overlaps the
      player as the earlier hits of this pass have left it (each hit knocks
      the player 28 to the left, not past 0); every hit costs 20 points, not
      below 0, and any hit throws the player upwards. */
  method StrikeEnemies(p: Player, es: seq<Enemy>, score: int)
    returns (q: Player, es': seq<Enemy>, score': int)
    ensures es' == Strike(PlayerBox(p), es)
    ensures CountIf(es, IsHit) <= CountIf(es', IsHit)
    ensures var k := CountIf(es', IsHit) - CountIf(es, IsHit);
              && score' == Penalized(score, k)
              && q == Struck(p, k)
  {
    q, es', score' := p, es, score;
    var k := 0;
    for i := 0 to |es|
      invariant |es'| == |es|
      invariant forall j :: i <= j < |es| ==> es'[j] == es[j]
      invariant Strike(PlayerBox(p), es) == es'[..i] + Strike(PlayerBox(q), es[i..])
      invariant k >= 0 && HitsBefore(es, es', i) == k
      invariant score' == Penalized(score, k)
      invariant q == Struck(p, k)
    {
      CountIfPrefix(es, i, IsHit);
      var e := es'[i];
      var hitNow := !e.hit && Aabb(PlayerBox(q), e.box);
      ghost var next := if hitNow then PlayerBox(q).(x := MaxReal(0.0, q.x - EnemyKnockback)) else PlayerBox(q);
      ghost var marked := es'[i := es[i].(hit := es[i].hit || hitNow)];
      StrikeStep(PlayerBox(p), es, es', PlayerBox(q), i, hitNow, next);
      if hitNow {
        es' := es'[i := e.(hit := true)];
        CountIfPrefix(es', i, IsHit);
        StruckStep(p, k);
        PenalizedStep(score, k);
        score' := Max(0, score' - EnemyPenalty);
        q := q.(vy := EnemyBounce, x := MaxReal(0.0, q.x - EnemyKnockback));
        k := k + 1;
      } else {
        CountIfPrefix(es', i, IsHit);
      }
      assert es' == marked && PlayerBox(q) == next;
    }
    assert es'[..|es|] == es' && es[..|es|] == es;
  }

  // ---------------------------------------------------------------------
  // Checkpoint flags
  // ---------------------------------------------------------------------

  /** The flags after the flag pass of a player whose box is b: each one the
      box overlaps is triggered. */
  function Reached(b: Box, fs: seq<Flag>): seq<Flag> {
    seq(|fs|, i requires 0 <= i < |fs| => fs[i].(triggered := fs[i].triggered || Aabb(b, fs[i].box)))
  }

  /** The flag pass: every flag not yet triggered that the player overlaps
      is triggered; each trigger picks a fact by ChooseFact from the facts
      seen so far, adds its text to them and shows it. */
  method ReachFlags(p: Player, fs: seq<Flag>, facts: seq<FactEntry>, seen: set<string>, fallback: nat)
    returns (fs': seq<Flag>, seen': set<string>, shown: Option<string>)
    requires fallback < |facts|
    ensures |fs'| == |fs|
    ensures forall i :: 0 <= i < |fs| ==>
              fs'[i] == fs[i].(triggered := fs[i].triggered || Aabb(PlayerBox(p), fs[i].box))
    ensures CountIf(fs, IsTriggered) <= CountIf(fs', IsTriggered)
    ensures var k := CountIf(fs', IsTriggered) - CountIf(fs, IsTriggered);
              && seen' == Reveal(facts, seen, k, fallback)
              && (shown.Some? <==> k > 0)
              && (k > 0 ==> shown.value == ChooseFact(facts, Reveal(facts, seen, k - 1, fallback), fallback).text)
    ensures fs' == Reached(PlayerBox(p), fs)
  {
    fs', seen', shown := fs, seen, None;
    var k := 0;
    for i := 0 to |fs|
      invariant |fs'| == |fs|
      invariant forall j :: 0 <= j < i ==>
                  fs'[j] == fs[j].(triggered := fs[j].triggered || Aabb(PlayerBox(p), fs[j].box))
      invariant forall j :: i <= j < |fs| ==> fs'[j] == fs[j]
      invariant k >= 0 && CountIf(fs', IsTriggered) == CountIf(fs, IsTriggered) + k
      invariant seen' == Reveal(facts, seen, k, fallback)
      invariant shown.Some? <==> k > 0
      invariant k > 0 ==> shown.value == ChooseFact(facts, Reveal(facts, seen, k - 1, fallback), fallback).text
    {
      var f := fs'[i];
      if !f.triggered && Aabb(PlayerBox(p), f.box) {
        CountIfUpdate(fs', i, f.(triggered := true), IsTriggered);
        fs' := fs'[i := f.(triggered := true)];
        var candidate := ChooseFact(facts, seen', fallback);
        RevealNext(facts, seen, k, fallback);
        seen' := seen' + {candidate.text};
        shown := Some(candidate.text);
        k := k + 1;
      }
    }
    assert fs' == Reached(PlayerBox(p), fs);
  }
}
