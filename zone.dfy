// The zone state of script.js: the globals one zone of the platformer keeps,
// the frame step over them, the end-of-zone screen, and the handlers that
// move from zone to zone.
module Zone {
  import opened Prelude
  import opened Geometry
  import opened Tables
  import opened Entities

  /** What the end overlay shows: a completed zone with its name, the water
      percentage and the number of facts found, or a failure with the
      number of facts found. */
  datatype EndScreen =
    | Completed(zoneName: string, percent: int, factsFound: nat)
    | Failed(factsFound: nat)

  /** The water meter: Math.round(water / 80 * 100), at most 100. */
  function WaterPercent(water: int): (r: int)
    ensures water >= 0 ==> 0 <= r <= 100
    ensures water >= 0 ==> (r == 100 <==> water >= DropletsToFill)
  {
    RoundHalfUpSpec(water * 100, DropletsToFill);
    Min(100, RoundHalfUp(water * 100, DropletsToFill))
  }

  /** A fuller meter never shows a smaller percentage. */
  lemma WaterPercentMonotone(a: int, b: int)
    requires a <= b
    ensures WaterPercent(a) <= WaterPercent(b)
  {
    var ra := RoundHalfUp(a * 100, DropletsToFill);
    var rb := RoundHalfUp(b * 100, DropletsToFill);
    RoundHalfUpSpec(a * 100, DropletsToFill);
    RoundHalfUpSpec(b * 100, DropletsToFill);
    assert 2 * ra * 80 - 80 <= 200 * a && 200 * b < 2 * rb * 80 + 80;
  }

  /** The player after the fall-off rule: below the bottom edge it is put
      back above it, at rest, with one life fewer. */
  function FallOff(p: Player): (q: Player)
    ensures p.y > InternalH ==> q.lives == p.lives - 1 && q.vy == 0.0 && q.y + q.h + RespawnRise == InternalH
    ensures p.y <= InternalH ==> q == p
    ensures q == p.(y := q.y, vy := q.vy, lives := q.lives)
  {
    if p.y > InternalH then p.(y := InternalH - p.h - RespawnRise, vy := 0.0, lives := p.lives - 1) else p
  }

  /** The zone's droplets as loaded, none collected. */
  function FreshDroplets(ps: seq<Point>): (ds: seq<Droplet>)
    ensures |ds| == |ps| && forall i :: 0 <= i < |ps| ==> ds[i].pos == ps[i]
    ensures CountIf(ds, IsCollected) == 0
  {
    var ds := seq(|ps|, i requires 0 <= i < |ps| => Droplet(ps[i], false));
    CountIfNone(ds, IsCollected);
    ds
  }

  /** The zone's enemies as loaded, none hit. */
  function FreshEnemies(specs: seq<EnemySpec>): (es: seq<Enemy>)
    ensures |es| == |specs|
    ensures forall i :: 0 <= i < |specs| ==> es[i].box == specs[i].box && es[i].kind == specs[i].kind
    ensures CountIf(es, IsHit) == 0
  {
    var es := seq(|specs|, i requires 0 <= i < |specs| => Enemy(specs[i].box, specs[i].kind, false));
    CountIfNone(es, IsHit);
    es
  }

  /** The zone's flags as loaded, none triggered. */
  function FreshFlags(boxes: seq<Box>): (fs: seq<Flag>)
    ensures |fs| == |boxes| && forall i :: 0 <= i < |boxes| ==> fs[i].box == boxes[i]
    ensures CountIf(fs, IsTriggered) == 0
  {
    var fs := seq(|boxes|, i requires 0 <= i < |boxes| => Flag(boxes[i], false));
    CountIfNone(fs, IsTriggered);
    fs
  }

  /** The zone the next button moves to among count zones: the following
      one, and the first again after the last. */
  function NextZone(i: nat, count: nat): (j: nat)
    requires i < count
    ensures j < count && j == (i + 1) % count
  {
    if i + 1 >= count then
      assert (i + 1) % count == 0 by { assert i + 1 == count * 1; }
      0
    else
      assert (i + 1) % count == i + 1 by { assert i + 1 == count * 0 + (i + 1); }
      i + 1
  }

  /** The entities hold the layout of the level: its platforms, and its
      droplets, enemies and flags in order, whatever their one-way flags. */
  ghost predicate LayoutOf(lvl: Level, platforms: seq<Box>, ds: seq<Droplet>, es: seq<Enemy>, fs: seq<Flag>) {
    && platforms == lvl.platforms
    && |ds| == |lvl.droplets|
    && (forall i :: 0 <= i < |ds| ==> ds[i].pos == lvl.droplets[i])
    && |es| == |lvl.enemies|
    && (forall i :: 0 <= i < |es| ==> es[i].box == lvl.enemies[i].box && es[i].kind == lvl.enemies[i].kind)
    && |fs| == |lvl.flags|
    && (forall i :: 0 <= i < |fs| ==> fs[i].box == lvl.flags[i])
  }

  /** The water meter counts the collected droplets, the score is between 0
      and the water, and the facts seen are facts of the table, no more of
      them than flags triggered. */
  predicate Accounts(facts: seq<FactEntry>, ds: seq<Droplet>, fs: seq<Flag>, water: int, score: int, seen: set<string>) {
    && water == DropletValue * CountIf(ds, IsCollected)
    && 0 <= score <= water
    && seen <= TextsOf(facts)
    && |seen| <= CountIf(fs, IsTriggered)
  }

  /** The player keeps the shape spawnPlayer gives it, stays inside the
      world horizontally and never has more lives than at spawn. */
  predicate PlayerOk(p: Player) {
    && p.w == Spawn.w && p.h == Spawn.h
    && p.speed == Spawn.speed && p.jumpPower == Spawn.jumpPower
    && 0.0 <= p.x <= InternalW - p.w
    && p.lives <= Spawn.lives
  }

  /** However the droplets of the Library zone are collected, they hold
      less water than a full meter: that zone can never be completed. */
  lemma LibraryNeverFills(ds: seq<Droplet>)
    requires |ds| == |Levels[1].droplets|
    ensures DropletValue * CountIf(ds, IsCollected) <= 60 < DropletsToFill
  {
    assert |Levels[1].droplets| == 6;
  }

  /** A frame in the Library zone never fills the meter: the water stays
      below a full meter, so the zone is never completed by play. */
  lemma LibraryStepNeverFills(s: Play, platforms: seq<Box>, name: string, facts: seq<FactEntry>,
                              input: Input, fallback: nat)
    requires Inv(Levels[1], platforms, facts, s) && fallback < |facts|
    ensures Step(s, platforms, name, facts, input, fallback).water < DropletsToFill
  {
    var t := Step(s, platforms, name, facts, input, fallback);
    StepKeepsInvariant(Levels[1], s, platforms, name, facts, input, fallback);
    LibraryNeverFills(t.droplets);
  }

  /** The globals one frame of update reads and writes. */
  datatype Play = Play(
    running: bool, player: Player, droplets: seq<Droplet>, enemies: seq<Enemy>, flags: seq<Flag>,
    water: int, score: int, seen: set<string>, shown: Option<string>, endScreen: Option<EndScreen>)

  /** The invariant of a zone in play: the entities have the layout of the
      level, the accounts hold and the player is in shape. */
  ghost predicate Inv(lvl: Level, platforms: seq<Box>, facts: seq<FactEntry>, s: Play) {
    && LayoutOf(lvl, platforms, s.droplets, s.enemies, s.flags)
    && Accounts(facts, s.droplets, s.flags, s.water, s.score, s.seen)
    && PlayerOk(s.player)
  }

  // ---------------------------------------------------------------------
  // The passes of one frame of update
  // ---------------------------------------------------------------------

  /** Keys, physics and world bounds, then the fall-off rule, which ends
      the zone as failed when the last life is lost (the frame goes on),
      then the platform pass. */
  function MovePass(s: Play, platforms: seq<Box>, input: Input): Play
    requires 0.0 <= s.player.w <= InternalW
  {
    var moved := Advance(s.player, input);
    var p := FallOff(moved);
    var failed := moved.y > InternalH && p.lives <= 0;
    s.(player := Land(p, platforms),
       running := s.running && !failed,
       endScreen := if failed then Some(Failed(|s.seen|)) else s.endScreen)
  }

  /** The droplet pass: kd droplets collected add kd droplets' worth to the
      score and to the meter, and bounce the player. */
  function CollectPass(s: Play): Play {
    var ds := Collected(PlayerBox(s.player), s.droplets);
    var kd := CountIf(ds, IsCollected) - CountIf(s.droplets, IsCollected);
    s.(player := if kd > 0 then s.player.(vy := DropletBounce) else s.player,
       droplets := ds,
       water := s.water + DropletValue * kd,
       score := s.score + DropletValue * kd)
  }

  /** The enemy pass: ke enemies hit cost ke penalties and knock the player
      back ke times. */
  function StrikePass(s: Play): Play {
    var es := Strike(PlayerBox(s.player), s.enemies);
    var ke := CountIf(es, IsHit) - CountIf(s.enemies, IsHit);
    s.(player := Struck(s.player, ke), enemies := es, score := Penalized(s.score, ke))
  }

  /** The flag pass: kf flags triggered reveal kf facts by ChooseFact, and
      the overlay shows the last of them. */
  function FlagPass(s: Play, facts: seq<FactEntry>, fallback: nat): Play
    requires fallback < |facts|
  {
    var fs := Reached(PlayerBox(s.player), s.flags);
    CountIfMono(s.flags, fs, IsTriggered);
    var kf := CountIf(fs, IsTriggered) - CountIf(s.flags, IsTriggered);
    s.(flags := fs,
       seen := Reveal(facts, s.seen, kf, fallback),
       shown := if kf > 0 then Some(ChooseFact(facts, Reveal(facts, s.seen, kf - 1, fallback), fallback).text)
                else s.shown)
  }

  /** The zone-complete test: a full meter ends the zone as completed in the
      zone called name. */
  function CompletePass(s: Play, name: string): Play {
    if s.water >= DropletsToFill
    then s.(running := false, endScreen := Some(Completed(name, WaterPercent(s.water), |s.seen|)))
    else s
  }

  /** One frame of update in the zone called name with the given platforms.
      fallback stands for the random pick among the facts. */
  function Step(s: Play, platforms: seq<Box>, name: string, facts: seq<FactEntry>, input: Input, fallback: nat): Play
    requires 0.0 <= s.player.w <= InternalW && fallback < |facts|
  {
    CompletePass(FlagPass(StrikePass(CollectPass(MovePass(s, platforms, input))), facts, fallback), name)
  }

  // ---------------------------------------------------------------------
  // What each pass keeps and promises
  // ---------------------------------------------------------------------

  /** The move pass keeps the invariant. */
  lemma MovePassKeeps(lvl: Level, platforms: seq<Box>, facts: seq<FactEntry>, s: Play, input: Input)
    requires Inv(lvl, platforms, facts, s)
    ensures Inv(lvl, platforms, facts, MovePass(s, platforms, input))
  {
    LandShape(FallOff(Advance(s.player, input)), platforms);
  }

  /** The droplet pass keeps the invariant. */
  lemma CollectPassKeeps(lvl: Level, platforms: seq<Box>, facts: seq<FactEntry>, s: Play)
    requires Inv(lvl, platforms, facts, s)
    ensures Inv(lvl, platforms, facts, CollectPass(s))
  {
    CountIfMono(s.droplets, CollectPass(s).droplets, IsCollected);
  }

  /** The enemy pass keeps the invariant. */
  lemma StrikePassKeeps(lvl: Level, platforms: seq<Box>, facts: seq<FactEntry>, s: Play)
    requires Inv(lvl, platforms, facts, s)
    ensures Inv(lvl, platforms, facts, StrikePass(s))
  {
    var t := StrikePass(s);
    StrikeShape(PlayerBox(s.player), s.enemies);
    CountIfMono(s.enemies, t.enemies, IsHit);
  }

  /** The flag pass keeps the invariant. */
  lemma FlagPassKeeps(lvl: Level, platforms: seq<Box>, facts: seq<FactEntry>, s: Play, fallback: nat)
    requires Inv(lvl, platforms, facts, s) && fallback < |facts|
    ensures Inv(lvl, platforms, facts, FlagPass(s, facts, fallback))
  {
    var t := FlagPass(s, facts, fallback);
    CountIfMono(s.flags, t.flags, IsTriggered);
    RevealBounds(facts, s.seen, CountIf(t.flags, IsTriggered) - CountIf(s.flags, IsTriggered), fallback);
  }

  /** The four passes before the zone-complete test keep the invariant. */
  lemma PassesKeep(lvl: Level, platforms: seq<Box>, facts: seq<FactEntry>, s: Play, input: Input, fallback: nat)
    requires Inv(lvl, platforms, facts, s) && fallback < |facts|
    ensures Inv(lvl, platforms, facts, FlagPass(StrikePass(CollectPass(MovePass(s, platforms, input))), facts, fallback))
  {
    var s1 := MovePass(s, platforms, input);
    MovePassKeeps(lvl, platforms, facts, s, input);
    var s2 := CollectPass(s1);
    CollectPassKeeps(lvl, platforms, facts, s1);
    StrikePassKeeps(lvl, platforms, facts, s2);
    FlagPassKeeps(lvl, platforms, facts, StrikePass(s2), fallback);
  }

  /** The frame keeps the invariant of a zone in play. */
  lemma StepKeepsInvariant(lvl: Level, s: Play, platforms: seq<Box>, name: string, facts: seq<FactEntry>,
                           input: Input, fallback: nat)
    requires Inv(lvl, platforms, facts, s) && fallback < |facts|
    ensures Inv(lvl, platforms, facts, Step(s, platforms, name, facts, input, fallback))
  {
    PassesKeep(lvl, platforms, facts, s, input, fallback);
  }

  /** The move pass changes only the player, play and the end overlay, and
      takes a life exactly when the player falls off. */
  lemma MovePassSpec(s: Play, platforms: seq<Box>, input: Input)
    requires 0.0 <= s.player.w <= InternalW
    ensures var t := MovePass(s, platforms, input);
            && t.player.lives == s.player.lives - (if Advance(s.player, input).y > InternalH then 1 else 0)
            && t == s.(player := t.player, running := t.running, endScreen := t.endScreen)
  {
    LandShape(FallOff(Advance(s.player, input)), platforms);
  }

  /** The droplet pass collects exactly the droplets the player overlaps,
      only ever sets collection flags, and leaves the player's box. */
  lemma CollectPassSpec(s: Play)
    ensures var t := CollectPass(s);
            && |t.droplets| == |s.droplets|
            && (forall i :: 0 <= i < |s.droplets| ==>
                  t.droplets[i] == s.droplets[i].(col := t.droplets[i].col)
                  && (t.droplets[i].col <==> s.droplets[i].col || Aabb(PlayerBox(s.player), DropletBox(s.droplets[i]))))
            && s.water <= t.water && PlayerBox(t.player) == PlayerBox(s.player)
            && t == s.(player := t.player, droplets := t.droplets, water := t.water, score := t.score)
  {
    CountIfMono(s.droplets, CollectPass(s).droplets, IsCollected);
  }

  /** The enemy pass follows the hit rule and only ever sets hit flags. */
  lemma StrikePassSpec(s: Play)
    ensures var t := StrikePass(s);
            && |t.enemies| == |s.enemies|
            && (forall i :: 0 <= i < |s.enemies| ==>
                  t.enemies[i] == s.enemies[i].(hit := t.enemies[i].hit) && (s.enemies[i].hit ==> t.enemies[i].hit))
            && (forall j :: 0 <= j < |s.enemies| ==> HitRule(PlayerBox(s.player), s.enemies, t.enemies, j))
            && t == s.(player := t.player, enemies := t.enemies, score := t.score)
  {
    StrikeShape(PlayerBox(s.player), s.enemies);
    StrikeHitRule(PlayerBox(s.player), s.enemies);
  }

  /** The flag pass triggers exactly the flags the player overlaps and only
      ever sets trigger flags. */
  lemma FlagPassSpec(s: Play, facts: seq<FactEntry>, fallback: nat)
    requires fallback < |facts|
    ensures var t := FlagPass(s, facts, fallback);
            && |t.flags| == |s.flags|
            && (forall i :: 0 <= i < |s.flags| ==>
                  t.flags[i] == s.flags[i].(triggered := t.flags[i].triggered)
                  && (t.flags[i].triggered <==> s.flags[i].triggered || Aabb(PlayerBox(s.player), s.flags[i].box)))
            && t == s.(flags := t.flags, seen := t.seen, shown := t.shown)
  {
  }

  /** The facts the flag pass reveals: one new fact per flag triggered
      while the table lasts, never more; the overlay shows the last one. */
  lemma FlagPassFacts(s: Play, facts: seq<FactEntry>, fallback: nat)
    requires fallback < |facts| && s.seen <= TextsOf(facts)
    ensures var t := FlagPass(s, facts, fallback);
            var kf := CountIf(t.flags, IsTriggered) - CountIf(s.flags, IsTriggered);
            && s.seen <= t.seen && |t.seen| <= |s.seen| + kf
            && (|s.seen| + kf <= |TextsOf(facts)| ==> |t.seen| == |s.seen| + kf)
            && (kf > 0 ==> t.shown.Some? && t.shown.value in t.seen)
            && (kf == 0 ==> t.seen == s.seen && t.shown == s.shown)
  {
    var t := FlagPass(s, facts, fallback);
    CountIfMono(s.flags, t.flags, IsTriggered);
    var kf := CountIf(t.flags, IsTriggered) - CountIf(s.flags, IsTriggered);
    RevealBounds(facts, s.seen, kf, fallback);
    if |s.seen| + kf <= |TextsOf(facts)| {
      RevealDistinct(facts, s.seen, kf, fallback);
    }
    if kf > 0 {
      RevealNext(facts, s.seen, kf - 1, fallback);
    }
  }

  /** How a frame ends the zone: the player loses a life exactly when
      falling off; play stops when the last life is lost or the meter is
      full; a full meter shows the zone completed at 100 percent with the
      facts seen, otherwise a lost last life shows it failed with the facts
      seen before the frame, and a frame that goes on leaves the overlay. */
  lemma StepEnds(lvl: Level, s: Play, platforms: seq<Box>, name: string, facts: seq<FactEntry>,
                 input: Input, fallback: nat)
    requires Inv(lvl, platforms, facts, s) && fallback < |facts|
    ensures var t := Step(s, platforms, name, facts, input, fallback);
            var fell := Advance(s.player, input).y > InternalH;
            && t.player.lives == s.player.lives - (if fell then 1 else 0)
            && (t.running <==> s.running && !(fell && t.player.lives <= 0) && t.water < DropletsToFill)
            && (t.water >= DropletsToFill ==> t.endScreen == Some(Completed(name, 100, |t.seen|)))
            && (t.water < DropletsToFill && fell && t.player.lives <= 0 ==> t.endScreen == Some(Failed(|s.seen|)))
            && (t.running ==> t.endScreen == s.endScreen)
  {
    var s1 := MovePass(s, platforms, input);
    MovePassSpec(s, platforms, input);
    var s2 := CollectPass(s1);
    CollectPassSpec(s1);
    var s3 := StrikePass(s2);
    StrikePassSpec(s2);
    FlagPassSpec(s3, facts, fallback);
    PassesKeep(lvl, platforms, facts, s, input, fallback);
  }

  /** The droplet pass of update, run by its loop on a snapshot. */
  method RunCollect(s: Play) returns (t: Play)
    ensures t == CollectPass(s)
  {
    var p, ds, sc, wc := CollectDroplets(s.player, s.droplets, s.score, s.water);
    t := s.(player := p, droplets := ds, water := wc, score := sc);
  }

  /** The enemy pass of update, run by its loop on a snapshot. */
  method RunStrike(s: Play) returns (t: Play)
    ensures t == StrikePass(s)
  {
    var p, es, sc := StrikeEnemies(s.player, s.enemies, s.score);
    t := s.(player := p, enemies := es, score := sc);
  }

  /** The flag pass of update, run by its loop on a snapshot. */
  method RunFlags(s: Play, facts: seq<FactEntry>, fallback: nat) returns (t: Play)
    requires fallback < |facts|
    ensures t == FlagPass(s, facts, fallback)
  {
    var fs, seen, shown := ReachFlags(s.player, s.flags, facts, s.seen, fallback);
    t := s.(flags := fs, seen := seen, shown := if shown.Some? then shown else s.shown);
  }

  /** The globals of script.js that one zone of play uses. */
  class World {
    var running: bool
    var zoneIndex: nat
    var factsSeen: set<string>
    /** The text the fact overlay shows, None when it is hidden. */
    var shownFact: Option<string>
    var player: Player
    var platforms: seq<Box>
    var droplets: seq<Droplet>
    var enemies: seq<Enemy>
    var flags: seq<Flag>
    var waterCollected: int
    var score: int
    /** The end overlay, None when it is hidden. */
    var endScreen: Option<EndScreen>
    /** The level whose layout is loaded. */
    ghost var layoutIndex: nat
    /** The fixed tables LEVELS and FACTS. */
    const levels: seq<Level>
    const facts: seq<FactEntry>

    /** The globals one frame of update reads and writes, as a value. */
    function Snapshot(): Play
      reads this
    {
      Play(running, player, droplets, enemies, flags, waterCollected, score, factsSeen, shownFact, endScreen)
    }

    /** The entities are those of the loaded level, the accounts hold and
        the player is in shape. */
    ghost predicate Valid()
      reads this
    {
      && |facts| > 0
      && zoneIndex < |levels|
      && layoutIndex == zoneIndex
      && Inv(levels[layoutIndex], platforms, facts, Snapshot())
    }

    /** init: the first zone is loaded and the player placed, but nothing
        runs until the start button is pressed. */
    constructor ()
      ensures Valid()
      ensures levels == Levels && facts == Facts
      ensures !running && zoneIndex == 0 && layoutIndex == 0
      ensures player == Spawn && score == 0 && waterCollected == 0 && factsSeen == {}
      ensures shownFact.None? && endScreen.None?
      ensures droplets == FreshDroplets(Levels[0].droplets)
      ensures enemies == FreshEnemies(Levels[0].enemies)
      ensures flags == FreshFlags(Levels[0].flags)
    {
      levels, facts := Levels, Facts;
      running := false;
      zoneIndex := 0;
      shownFact := None;
      endScreen := None;
      var lvl := Levels[0];
      platforms := lvl.platforms;
      droplets := FreshDroplets(lvl.droplets);
      enemies := FreshEnemies(lvl.enemies);
      flags := FreshFlags(lvl.flags);
      waterCollected := 0;
      score := 0;
      factsSeen := {};
      layoutIndex := 0;
      player := Spawn;
    }

    /** loadZone: copies the level's layout with every one-way flag false
        and clears the water, the score and the facts seen. */
    method LoadZone(index: nat)
      requires index < |levels|
      modifies this
      ensures layoutIndex == index
      ensures platforms == levels[index].platforms
      ensures droplets == FreshDroplets(levels[index].droplets)
      ensures enemies == FreshEnemies(levels[index].enemies)
      ensures flags == FreshFlags(levels[index].flags)
      ensures waterCollected == 0 && score == 0 && factsSeen == {}
      ensures running == old(running) && zoneIndex == old(zoneIndex) && player == old(player)
      ensures shownFact == old(shownFact) && endScreen == old(endScreen)
    {
      var lvl := levels[index];
      platforms := lvl.platforms;
      droplets := FreshDroplets(lvl.droplets);
      enemies := FreshEnemies(lvl.enemies);
      flags := FreshFlags(lvl.flags);
      waterCollected := 0;
      score := 0;
      factsSeen := {};
      layoutIndex := index;
    }

    /** spawnPlayer */
    method SpawnPlayer()
      modifies this
      ensures player == Spawn
      ensures running == old(running) && zoneIndex == old(zoneIndex) && layoutIndex == old(layoutIndex)
      ensures platforms == old(platforms) && droplets == old(droplets)
      ensures enemies == old(enemies) && flags == old(flags)
      ensures waterCollected == old(waterCollected) && score == old(score) && factsSeen == old(factsSeen)
      ensures shownFact == old(shownFact) && endScreen == old(endScreen)
    {
      player := Spawn;
    }

    /** endZone: play stops and the end overlay reports the zone completed,
        with its water percentage and facts found, or failed. */
    method EndZone(success: bool)
      requires zoneIndex < |levels|
      modifies this
      ensures zoneIndex == old(zoneIndex) && layoutIndex == old(layoutIndex) && platforms == old(platforms)
      ensures !running
      ensures endScreen == Some(
                if success then Completed(levels[zoneIndex].name, WaterPercent(waterCollected), |factsSeen|)
                else Failed(|factsSeen|))
      ensures success ==> (endScreen.value.percent == 100 <==> waterCollected >= DropletsToFill)
      ensures Snapshot() == old(Snapshot()).(running := false, endScreen := endScreen)
    {
      running := false;
      if success {
        endScreen := Some(Completed(levels[zoneIndex].name, WaterPercent(waterCollected), |factsSeen|));
      } else {
        endScreen := Some(Failed(|factsSeen|));
      }
    }

    /** startZone: hides the fact and the end overlay, loads the zone,
        places the player and starts play. Every caller passes the current
        zone. */
    method StartZone(index: nat)
      requires |facts| > 0 && index == zoneIndex < |levels|
      modifies this
      ensures Valid()
      ensures running && shownFact.None? && endScreen.None?
      ensures layoutIndex == index && zoneIndex == old(zoneIndex)
      ensures player == Spawn
      ensures platforms == levels[index].platforms
      ensures droplets == FreshDroplets(levels[index].droplets)
      ensures enemies == FreshEnemies(levels[index].enemies)
      ensures flags == FreshFlags(levels[index].flags)
      ensures waterCollected == 0 && score == 0 && factsSeen == {}
    {
      shownFact := None;
      endScreen := None;
      LoadZone(index);
      SpawnPlayer();
      running := true;
    }

    /** The start button: play begins from the first zone. */
    method Start()
      requires Valid()
      modifies this
      ensures Valid()
      ensures zoneIndex == 0 && layoutIndex == 0 && running
      ensures player == Spawn && waterCollected == 0 && score == 0 && factsSeen == {}
      ensures shownFact.None? && endScreen.None?
      ensures droplets == FreshDroplets(levels[zoneIndex].droplets)
      ensures enemies == FreshEnemies(levels[zoneIndex].enemies)
      ensures flags == FreshFlags(levels[zoneIndex].flags)
    {
      zoneIndex := 0;
      StartZone(zoneIndex);
    }

    /** The restart button: play begins again from the first zone. */
    method Restart()
      requires Valid()
      modifies this
      ensures Valid()
      ensures zoneIndex == 0 && layoutIndex == 0 && running
      ensures player == Spawn && waterCollected == 0 && score == 0 && factsSeen == {}
      ensures shownFact.None? && endScreen.None?
      ensures droplets == FreshDroplets(levels[zoneIndex].droplets)
      ensures enemies == FreshEnemies(levels[zoneIndex].enemies)
      ensures flags == FreshFlags(levels[zoneIndex].flags)
    {
      zoneIndex := 0;
      StartZone(zoneIndex);
    }

    /** The next button: play moves on to the following zone, or, after the
        last one, announces that all zones are complete and begins again from
        the first. */
    method Next() returns (allComplete: bool)
      requires Valid()
      modifies this
      ensures Valid()
      ensures zoneIndex == NextZone(old(zoneIndex), |levels|) && layoutIndex == zoneIndex && running
      ensures allComplete <==> old(zoneIndex) == |levels| - 1
      ensures player == Spawn && waterCollected == 0 && score == 0 && factsSeen == {}
      ensures shownFact.None? && endScreen.None?
      ensures droplets == FreshDroplets(levels[zoneIndex].droplets)
      ensures enemies == FreshEnemies(levels[zoneIndex].enemies)
      ensures flags == FreshFlags(levels[zoneIndex].flags)
    {
      var next := zoneIndex + 1;
      allComplete := false;
      if next >= |levels| {
        allComplete := true;
        next := 0;
      }
      zoneIndex := next;
      StartZone(zoneIndex);
    }

    /** Writes the globals of a frame back from a snapshot. */
    method Restore(t: Play)
      modifies this
      ensures Snapshot() == t
      ensures zoneIndex == old(zoneIndex) && layoutIndex == old(layoutIndex) && platforms == old(platforms)
    {
      running, player, droplets, enemies, flags := t.running, t.player, t.droplets, t.enemies, t.flags;
      waterCollected, score, factsSeen, shownFact, endScreen := t.water, t.score, t.seen, t.shown, t.endScreen;
    }

    /** update: one frame of play, in the order of the source's passes
        (keys and physics, fall off, platforms, droplets, enemies, flags,
        zone complete). The fallback index stands for the random pick among
        the facts. */
    method Update(input: Input, fallback: nat)
      requires Valid() && fallback < |facts|
      modifies this
      ensures Valid()
      ensures Snapshot() == Step(old(Snapshot()), platforms, levels[zoneIndex].name, facts, input, fallback)
      ensures zoneIndex == old(zoneIndex) && layoutIndex == old(layoutIndex) && platforms == old(platforms)
    {
      ghost var s0 := Snapshot();
      // input, physics, world bounds, fall off
      var p := Advance(player, input);
      if p.y > InternalH {
        p := FallOff(p);
        if p.lives <= 0 {
          EndZone(false);
        }
      }
      // platform collision
      p := LandOnPlatforms(p, platforms);
      player := p;
      ghost var s1 := MovePass(s0, platforms, input);
      assert Snapshot() == s1;
      // droplets, enemies, flags
      var t := RunCollect(Snapshot());
      t := RunStrike(t);
      t := RunFlags(t, facts, fallback);
      ghost var s4 := FlagPass(StrikePass(CollectPass(s1)), facts, fallback);
      assert t == s4;
      PassesKeep(levels[layoutIndex], platforms, facts, s0, input, fallback);
      Restore(t);
      ghost var s5 := CompletePass(s4, levels[zoneIndex].name);
      assert s5 == Step(s0, platforms, levels[zoneIndex].name, facts, input, fallback);
      // zone complete?
      if waterCollected >= DropletsToFill {
        EndZone(true);
        assert Snapshot() == s5;
      } else {
        assert Snapshot() == s5;
      }
    }
  }
}
