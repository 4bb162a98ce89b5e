// The falling-drop game of game.js: the shared gameState record, the drop
// spawner's guard, the click rule for clean and polluted drops, the progress
// meter with its one-shot confetti, the one-second countdown and the
// game-over message.
module DropGame {
  import opened Prelude

  // CONFIG, and the literals handleDropClick and updateDisplays use
  const GameDuration: int := 60
  const CleanDropPoints: int := 10
  const PollutedDropPenalty: int := 15
  const StreakBonusEvery: int := 5
  const StreakBonus: int := 20
  const TargetDrops: int := 50

  /** A drop element: its colour, chosen at random when it is created, and
      whether it is still attached to the game container (its parentNode). */
  datatype Drop = Drop(isPolluted: bool, present: bool)

  /** The counters a click on a drop updates. */
  datatype Stats = Stats(score: int, streak: int, bestStreak: int, clean: int, polluted: int)

  const Fresh: Stats := Stats(0, 0, 0, 0, 0)

  /** What the game keeps true of its counters. */
  predicate StatsOk(s: Stats) {
    && s.score >= 0
    && 0 <= s.streak <= s.bestStreak
    && s.clean >= 0
    && s.polluted >= 0
  }

  // ---------------------------------------------------------------------
  // The click rule
  // ---------------------------------------------------------------------

  /** The effect of clicking an attached drop on the counters. */
  function Click(s: Stats, isPolluted: bool): (r: Stats)
    ensures StatsOk(s) ==> StatsOk(r)
    ensures r.bestStreak >= s.bestStreak
    ensures r.clean + r.polluted == s.clean + s.polluted + 1
  {
    if isPolluted then
      s.(score := Max(0, s.score - PollutedDropPenalty), streak := 0, polluted := s.polluted + 1)
    else
      var streak := s.streak + 1;
      var best := if streak > s.bestStreak then streak else s.bestStreak;
      var bonus := if streak > 0 && streak % StreakBonusEvery == 0 then StreakBonus else 0;
      s.(score := s.score + CleanDropPoints + bonus, clean := s.clean + 1,
         streak := streak, bestStreak := best)
  }

  /** A clean drop pays 10, and 20 more when the new streak is a positive
      multiple of 5; it extends the streak, which the best streak follows. */
  lemma CleanClick(s: Stats)
    ensures var r := Click(s, false);
      && r.clean == s.clean + 1
      && r.streak == s.streak + 1
      && r.bestStreak == Max(s.bestStreak, r.streak)
      && r.polluted == s.polluted
      && (r.score == s.score + 30 <==> r.streak > 0 && r.streak % 5 == 0)
      && (r.score == s.score + 10 <==> !(r.streak > 0 && r.streak % 5 == 0))
  {
  }

  /** A polluted drop costs 15 points but never takes the score below 0, ends
      the streak and leaves the best streak and the clean count alone. */
  lemma PollutedClick(s: Stats)
    ensures var r := Click(s, true);
      && r.score == Max(0, s.score - 15)
      && r.streak == 0
      && r.polluted == s.polluted + 1
      && r.bestStreak == s.bestStreak
      && r.clean == s.clean
  {
  }

  /** The counters after a run of clicks on attached drops; clicks[i] tells
      whether the i-th clicked drop was polluted. */
  function Run(s: Stats, clicks: seq<bool>): Stats
    decreases |clicks|
  {
    if clicks == [] then s else Click(Run(s, clicks[..|clicks| - 1]), clicks[|clicks| - 1])
  }

  /** The number of clean clicks since the last polluted one. */
  function TrailingClean(clicks: seq<bool>): nat
    decreases |clicks|
  {
    if clicks == [] || clicks[|clicks| - 1] then 0 else TrailingClean(clicks[..|clicks| - 1]) + 1
  }

  /** The streak counts the clean clicks since the last polluted click, or
      since the start when there was none. */
  lemma {:induction false} StreakIsTrailingCleanRun(s: Stats, clicks: seq<bool>)
    ensures Run(s, clicks).streak ==
            if true in clicks then TrailingClean(clicks) else s.streak + |clicks|
    decreases |clicks|
  {
    if clicks != [] {
      var init := clicks[..|clicks| - 1];
      assert clicks == init + [clicks[|clicks| - 1]];
      StreakIsTrailingCleanRun(s, init);
    }
  }

  /** Over any run the counters stay well formed (score at least 0, streak
      at most best streak), and the best streak never decreases. */
  lemma {:induction false} RunKeepsStats(s: Stats, clicks: seq<bool>)
    requires StatsOk(s)
    ensures StatsOk(Run(s, clicks))
    ensures Run(s, clicks).bestStreak >= s.bestStreak
    decreases |clicks|
  {
    if clicks != [] {
      RunKeepsStats(s, clicks[..|clicks| - 1]);
    }
  }

  /** n clean clicks from a fresh game: 10 points each and a 20 point bonus
      for every fifth. */
  lemma {:induction false} CleanRunScore(n: nat)
    ensures Run(Fresh, seq(n, _ => false)).score == 10 * n + 20 * (n / 5)
    ensures Run(Fresh, seq(n, _ => false)).streak == n
    ensures Run(Fresh, seq(n, _ => false)).bestStreak == n
    ensures Run(Fresh, seq(n, _ => false)).clean == n
    ensures Run(Fresh, seq(n, _ => false)).polluted == 0
  {
    if n > 0 {
      CleanRunScore(n - 1);
      var clicks := seq(n, _ => false);
      assert clicks[..n - 1] == seq(n - 1, _ => false);
    }
  }

  /** Five clean drops then a polluted one: 70 points, then 55; the best
      streak stays 5. */
  lemma StreakThenPollution()
    ensures Run(Fresh, [false, false, false, false, false]).score == 70
    ensures Run(Fresh, [false, false, false, false, false, true]) == Stats(55, 0, 5, 5, 1)
  {
    CleanRunScore(5);
    assert seq(5, _ => false) == [false, false, false, false, false];
    var five := [false, false, false, false, false];
    var six := [false, false, false, false, false, true];
    assert six[..5] == five;
    assert Run(Fresh, six) == Click(Run(Fresh, five), true);
  }

  // ---------------------------------------------------------------------
  // Progress meter and game-over message
  // ---------------------------------------------------------------------

  /** The progress meter: the share of the 50-drop target collected,
      rounded, capped at 100. */
  function Percentage(clean: int): (r: int)
    ensures r == Min(100, 2 * clean)
    ensures clean >= 0 ==> 0 <= r <= 100
    ensures r == 100 <==> clean >= TargetDrops
  {
    RoundHalfUpSpec(clean * 100, TargetDrops);
    Min(100, RoundHalfUp(clean * 100, TargetDrops))
  }

  /** The five performance messages, best first. */
  datatype Tier = Outstanding | Excellent | GreatJob | GoodEffort | KeepTrying

  function Rank(t: Tier): nat {
    match t
    case Outstanding => 4
    case Excellent => 3
    case GreatJob => 2
    case GoodEffort => 1
    case KeepTrying => 0
  }

  const TierThresholds: seq<int> := [100, 200, 300, 400]

  /** How many of the thresholds ts the score reaches. */
  function ThresholdsMet(score: int, ts: seq<int>): nat
    decreases |ts|
  {
    if ts == [] then 0 else (if ts[0] <= score then 1 else 0) + ThresholdsMet(score, ts[1..])
  }

  /** The message is picked by the first threshold the score reaches, from
      the highest down; its rank is the number of thresholds reached. */
  function TierOf(score: int): (t: Tier)
    ensures Rank(t) == ThresholdsMet(score, TierThresholds)
  {
    assert TierThresholds[1..][1..][1..][1..] == [];
    if score >= 400 then Outstanding
    else if score >= 300 then Excellent
    else if score >= 200 then GreatJob
    else if score >= 100 then GoodEffort
    else KeepTrying
  }

  lemma {:induction false} ThresholdsMetMonotone(a: int, b: int, ts: seq<int>)
    requires a <= b
    ensures ThresholdsMet(a, ts) <= ThresholdsMet(b, ts)
    decreases |ts|
  {
    if ts != [] {
      ThresholdsMetMonotone(a, b, ts[1..]);
    }
  }

  /** A higher score never gets a lower message. */
  lemma TierMonotone(a: int, b: int)
    requires a <= b
    ensures Rank(TierOf(a)) <= Rank(TierOf(b))
  {
    ThresholdsMetMonotone(a, b, TierThresholds);
  }

  function Message(t: Tier): string {
    match t
    case Outstanding => "\U{1F31F} Outstanding! You're a water conservation champion!"
    case Excellent => "\U{1F389} Excellent! You understand the value of clean water!"
    case GreatJob => "\U{1F44F} Great job! Keep fighting for clean water access!"
    case GoodEffort => "\U{1F4AA} Good effort! Every drop makes a difference!"
    case KeepTrying => "\U{1F499} Keep trying! Together we can bring clean water to all!"
  }

  // ---------------------------------------------------------------------
  // The session: gameState, the two interval handles and the container
  // ---------------------------------------------------------------------

  class Session {
    var running: bool
    var score: int
    var timeLeft: int
    var streak: int
    var bestStreak: int
    var cleanDropsCollected: int
    var pollutedHit: int
    var confettiTriggered: bool
    /** Whether the drop-spawning interval (dropMaker) is registered. */
    var dropMaker: bool
    /** Whether the one-second countdown interval (gameTimer) is registered. */
    var gameTimer: bool
    /** Every drop element created so far, oldest first. */
    var drops: seq<Drop>
    /** The percentage last written to the progress meter. */
    var percentShown: int
    /** The game-over modal: hidden, or showing the message of a tier. */
    var gameOver: Option<Tier>
    /** How many times the confetti burst has been fired. */
    ghost var confettiBursts: nat

    ghost predicate Valid()
      reads this
    {
      && StatsOk(Counters())
      && dropMaker == running && gameTimer == running
      && 0 <= timeLeft <= GameDuration
      && (running ==> timeLeft > 0)
      && (!running ==> forall i :: 0 <= i < |drops| ==> !drops[i].present)
      && confettiBursts == (if confettiTriggered then 1 else 0)
    }

    function Counters(): Stats
      reads this
    {
      Stats(score, streak, bestStreak, cleanDropsCollected, pollutedHit)
    }

    /** The performance message the game-over modal shows, if it is open. */
    function ModalMessage(): (m: Option<string>)
      reads this
      ensures m.Some? <==> gameOver.Some?
    {
      if gameOver.Some? then Some(Message(gameOver.value)) else None
    }

    /** The page as loaded: nothing running, no drops, a full clock. */
    constructor ()
      ensures Valid()
      ensures !running && Counters() == Fresh && timeLeft == GameDuration
      ensures !confettiTriggered && drops == [] && gameOver == None
    {
      running := false;
      score, timeLeft, streak, bestStreak := 0, GameDuration, 0, 0;
      cleanDropsCollected, pollutedHit := 0, 0;
      confettiTriggered := false;
      dropMaker, gameTimer := false, false;
      drops := [];
      percentShown := 0;
      gameOver := None;
      confettiBursts := 0;
    }

    /** Detaches every drop from the container. */
    method RemoveAllDrops()
      modifies this`drops
      ensures |drops| == |old(drops)|
      ensures forall i :: 0 <= i < |drops| ==> drops[i] == old(drops[i]).(present := false)
      ensures (forall i :: 0 <= i < |old(drops)| ==> !old(drops[i]).present) ==> drops == old(drops)
    {
      var i := 0;
      while i < |drops|
        invariant 0 <= i <= |drops| == |old(drops)|
        invariant forall j :: 0 <= j < i ==> drops[j] == old(drops[j]).(present := false)
        invariant forall j :: i <= j < |drops| ==> drops[j] == old(drops[j])
      {
        drops := drops[i := drops[i].(present := false)];
        i := i + 1;
      }
    }

    /** Writes the progress meter and fires the confetti the first time it
        shows 100%. */
    method UpdateDisplays()
      modifies this`percentShown, this`confettiTriggered, this`confettiBursts
      ensures percentShown == Percentage(cleanDropsCollected)
      ensures confettiTriggered == (old(confettiTriggered) || cleanDropsCollected >= TargetDrops)
      ensures confettiBursts ==
              old(confettiBursts) + if !old(confettiTriggered) && confettiTriggered then 1 else 0
    {
      var percentage := Percentage(cleanDropsCollected);
      percentShown := percentage;
      if percentage == 100 && !confettiTriggered {
        confettiTriggered := true;
        confettiBursts := confettiBursts + 1;
      }
    }

    /** The start button: ignored while a game runs; otherwise resets the
        counters and the clock, empties the container, refreshes the
        displays, registers both intervals and creates the first drop. The
        confetti flag is kept. */
    method StartGame(firstIsPolluted: bool)
      requires Valid()
      modifies this`running, this`score, this`timeLeft, this`streak, this`bestStreak
      modifies this`cleanDropsCollected, this`pollutedHit, this`drops, this`percentShown
      modifies this`confettiTriggered, this`confettiBursts, this`dropMaker, this`gameTimer
      ensures Valid()
      ensures old(running) ==> unchanged(this)
      ensures !old(running) ==> running && dropMaker && gameTimer
      ensures !old(running) ==> Counters() == Fresh && timeLeft == GameDuration && percentShown == 0
      ensures !old(running) ==> drops == old(drops) + [Drop(firstIsPolluted, true)]
      ensures confettiTriggered == old(confettiTriggered) && gameOver == old(gameOver)
    {
      if running {
        return;
      }
      ghost var drops0 := drops;
      ResetState();
      RemoveAllDrops();
      assert drops == drops0;
      assert Percentage(0) == Min(100, 0);
      UpdateDisplays();
      assert percentShown == 0 && confettiTriggered == old(confettiTriggered);
      RegisterIntervals();
      CreateDrop(firstIsPolluted);
    }

    /** The Object.assign of startGame: play is on, the counters are zero
        and the clock is full. */
    method ResetState()
      modifies this`running, this`score, this`timeLeft, this`streak, this`bestStreak
      modifies this`cleanDropsCollected, this`pollutedHit
      ensures running && Counters() == Fresh && timeLeft == GameDuration
    {
      running, score, timeLeft, streak, bestStreak := true, 0, GameDuration, 0, 0;
      cleanDropsCollected, pollutedHit := 0, 0;
    }

    /** The two setInterval calls of startGame. */
    method RegisterIntervals()
      modifies this`dropMaker, this`gameTimer
      ensures dropMaker && gameTimer
    {
      dropMaker, gameTimer := true, true;
    }

    /** The spawner's callback: adds an attached drop only while a game runs. */
    method CreateDrop(isPolluted: bool)
      requires Valid()
      modifies this`drops
      ensures Valid()
      ensures drops == if running then old(drops) + [Drop(isPolluted, true)] else old(drops)
    {
      if !running {
        return;
      }
      drops := drops + [Drop(isPolluted, true)];
    }

    /** A drop leaves the container: its fall animation ended, or the
        removal scheduled 200 ms after a click ran. */
    method RemoveDrop(i: nat)
      requires Valid() && i < |drops|
      modifies this`drops
      ensures Valid()
      ensures drops == old(drops)[i := old(drops[i]).(present := false)]
    {
      drops := drops[i := drops[i].(present := false)];
    }

    /** A click on the i-th drop. A drop already detached changes nothing;
        otherwise the counters follow Click and the displays are refreshed.
        The drop itself is only detached later, by RemoveDrop. */
    method HandleDropClick(i: nat)
      requires Valid() && i < |drops|
      modifies this
      ensures Valid()
      ensures drops == old(drops) && running == old(running) && timeLeft == old(timeLeft)
      ensures dropMaker == old(dropMaker) && gameTimer == old(gameTimer) && gameOver == old(gameOver)
      ensures Counters() == if old(drops[i].present) then Click(old(Counters()), drops[i].isPolluted) else old(Counters())
      ensures !old(drops[i].present) ==>
                confettiTriggered == old(confettiTriggered) && percentShown == old(percentShown)
      ensures old(drops[i].present) ==> percentShown == Percentage(cleanDropsCollected)
      ensures old(drops[i].present) ==>
                confettiTriggered == (old(confettiTriggered) || cleanDropsCollected >= TargetDrops)
      ensures !old(running) ==> Counters() == old(Counters())
    {
      if !drops[i].present {
        return;
      }
      var isPolluted := drops[i].isPolluted;
      if isPolluted {
        score := Max(0, score - PollutedDropPenalty);
        streak := 0;
        pollutedHit := pollutedHit + 1;
      } else {
        score := score + CleanDropPoints;
        cleanDropsCollected := cleanDropsCollected + 1;
        streak := streak + 1;
        if streak > bestStreak {
          bestStreak := streak;
        }
        if streak > 0 && streak % StreakBonusEvery == 0 {
          score := score + StreakBonus;
        }
      }
      UpdateDisplays();
    }

    /** The countdown's callback: one second less; at zero the game ends. */
    method UpdateTimer()
      requires Valid() && gameTimer
      modifies this
      ensures Valid()
      ensures timeLeft == old(timeLeft) - 1
      ensures running == (timeLeft > 0)
      ensures Counters() == old(Counters()) && confettiTriggered == old(confettiTriggered)
      ensures percentShown == old(percentShown)
      ensures running ==> drops == old(drops) && gameOver == old(gameOver)
      ensures !running ==> |drops| == |old(drops)|
      ensures !running ==> forall i :: 0 <= i < |drops| ==> drops[i] == old(drops[i]).(present := false)
      ensures !running ==> gameOver == Some(TierOf(score))
    {
      timeLeft := timeLeft - 1;
      if timeLeft <= 0 {
        EndGame();
      }
    }

    /** Stops the game: both intervals are cleared, every drop is detached
        and the game-over modal shows the message for the final score. */
    method EndGame()
      modifies this`running, this`dropMaker, this`gameTimer, this`drops
      modifies this`gameOver
      ensures !running && !dropMaker && !gameTimer
      ensures |drops| == |old(drops)|
      ensures forall i :: 0 <= i < |drops| ==> drops[i] == old(drops[i]).(present := false)
      ensures gameOver == Some(TierOf(score))
      ensures Counters() == old(Counters()) && timeLeft == old(timeLeft)
      ensures percentShown == old(percentShown)
      ensures confettiTriggered == old(confettiTriggered) && confettiBursts == old(confettiBursts)
    {
      running := false;
      dropMaker, gameTimer := false, false;
      RemoveAllDrops();
      ShowGameOver();
    }

    /** Picks the message for the final score and opens the modal. */
    method ShowGameOver()
      modifies this`gameOver
      ensures gameOver == Some(TierOf(score))
    {
      var tier;
      if score >= 400 {
        tier := Outstanding;
      } else if score >= 300 {
        tier := Excellent;
      } else if score >= 200 {
        tier := GreatJob;
      } else if score >= 100 {
        tier := GoodEffort;
      } else {
        tier := KeepTrying;
      }
      gameOver := Some(tier);
    }

    /** The play-again button: closes the modal and starts a new game. */
    method RestartGame(firstIsPolluted: bool)
      requires Valid()
      modifies this
      ensures Valid() && running
      ensures !old(running) ==> dropMaker && gameTimer
      ensures !old(running) ==> Counters() == Fresh && timeLeft == GameDuration && percentShown == 0
      ensures !old(running) ==> drops == old(drops) + [Drop(firstIsPolluted, true)]
      ensures old(running) ==> Counters() == old(Counters()) && timeLeft == old(timeLeft)
      ensures old(running) ==> drops == old(drops) && percentShown == old(percentShown)
      ensures gameOver == None
      ensures confettiTriggered == old(confettiTriggered)
    {
      gameOver := None;
      StartGame(firstIsPolluted);
    }

    /** The countdown left to itself after a start: the game ends on the
        60th tick and not before. */
    method RunClock() returns (ticks: nat)
      requires Valid() && running && timeLeft == GameDuration
      modifies this
      ensures Valid() && !running && timeLeft == 0
      ensures ticks == GameDuration
      ensures Counters() == old(Counters()) && confettiTriggered == old(confettiTriggered)
      ensures gameOver == Some(TierOf(score))
      ensures percentShown == old(percentShown) && |drops| == |old(drops)|
      ensures forall i :: 0 <= i < |drops| ==> drops[i] == old(drops[i]).(present := false)
    {
      ticks := 0;
      while running
        invariant Valid()
        invariant ticks + timeLeft == GameDuration
        invariant running == (timeLeft > 0)
        invariant Counters() == old(Counters()) && confettiTriggered == old(confettiTriggered)
        invariant !running ==> gameOver == Some(TierOf(score))
        invariant percentShown == old(percentShown) && |drops| == |old(drops)|
        invariant running ==> drops == old(drops)
        invariant !running ==> forall i :: 0 <= i < |drops| ==> drops[i] == old(drops[i]).(present := false)
        decreases timeLeft
      {
        UpdateTimer();
        ticks := ticks + 1;
      }
    }
  }
}
