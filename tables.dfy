// The fixed tables of script.js, LEVELS and FACTS, and the rule that picks
// the fact a checkpoint flag shows.
module Tables {
  import opened Prelude
  import opened Geometry

  datatype Point = Point(x: real, y: real)

  /** An enemy as a level lists it: its box and its kind of litter. */
  datatype EnemySpec = EnemySpec(box: Box, kind: string)

  /** A zone's layout. Flags are listed by their boxes. */
  datatype Level = Level(
    id: string, name: string,
    platforms: seq<Box>, droplets: seq<Point>, enemies: seq<EnemySpec>, flags: seq<Box>,
    hint: string)

  const Levels: seq<Level> := [
    Level("zone-quad", "The Quad (Tutorial)",
      [Box(0.0, 420.0, 920.0, 60.0), Box(140.0, 340.0, 160.0, 14.0),
       Box(360.0, 300.0, 160.0, 14.0), Box(620.0, 260.0, 160.0, 14.0)],
      [Point(180.0, 300.0), Point(400.0, 260.0), Point(660.0, 220.0), Point(90.0, 380.0),
       Point(240.0, 380.0), Point(520.0, 360.0), Point(780.0, 380.0), Point(430.0, 360.0)],
      [EnemySpec(Box(460.0, 388.0, 28.0, 28.0), "plastic")],
      [Box(860.0, 200.0, 28.0, 60.0)],
      "Tutorial: collect droplets to fill the meter."),
    Level("zone-library", "Library Zone",
      [Box(0.0, 420.0, 920.0, 60.0), Box(200.0, 330.0, 120.0, 14.0),
       Box(360.0, 290.0, 120.0, 14.0), Box(520.0, 250.0, 120.0, 14.0),
       Box(720.0, 320.0, 120.0, 14.0)],
      [Point(220.0, 290.0), Point(380.0, 250.0), Point(540.0, 210.0), Point(760.0, 290.0),
       Point(120.0, 380.0), Point(480.0, 350.0)],
      [EnemySpec(Box(300.0, 388.0, 28.0, 28.0), "paper"),
       EnemySpec(Box(660.0, 388.0, 28.0, 28.0), "plastic")],
      [Box(860.0, 180.0, 28.0, 60.0)],
      "More drops and pollution \U{2014} careful timing.")
  ]

  // ---------------------------------------------------------------------
  // Facts
  // ---------------------------------------------------------------------

  datatype FactKind = Fact | Motivation

  datatype FactEntry = FactEntry(text: string, kind: FactKind)

  const Facts: seq<FactEntry> := [
    FactEntry("771 million people lack access to clean water. (1 in 10)", Fact),
    FactEntry("Every $1 invested in clean water returns ~$4 in increased productivity.", Fact),
    FactEntry("Clean water reduces disease and improves education outcomes.", Fact),
    FactEntry("Keep going \U{2014} every drop you collect makes a difference!", Motivation),
    FactEntry("Access to clean water supports health and opportunity.", Fact)
  ]

  /** The texts of the entries of a fact table. */
  function TextsOf(facts: seq<FactEntry>): set<string> {
    set i | 0 <= i < |facts| :: facts[i].text
  }

  /** The predicate the fact search tests: not yet seen and, when wantFact
      holds, of kind Fact. */
  predicate Eligible(f: FactEntry, seen: set<string>, wantFact: bool) {
    f.text !in seen && (wantFact ==> f.kind == Fact)
  }

  /** Array find from index i on: the index of the first eligible entry,
      if any. */
  function FindFrom(facts: seq<FactEntry>, seen: set<string>, wantFact: bool, i: nat): (r: Option<nat>)
    requires i <= |facts|
    ensures r.Some? ==> i <= r.value < |facts|
    decreases |facts| - i
  {
    if i == |facts| then None
    else if Eligible(facts[i], seen, wantFact) then Some(i)
    else FindFrom(facts, seen, wantFact, i + 1)
  }

  /** The search finds an eligible entry with none before it, or reports
      that there is none. */
  lemma {:induction false} FindFromSpec(facts: seq<FactEntry>, seen: set<string>, wantFact: bool, i: nat)
    requires i <= |facts|
    ensures var r := FindFrom(facts, seen, wantFact, i);
            && (r.Some? ==> Eligible(facts[r.value], seen, wantFact))
            && (r.Some? ==> forall j :: i <= j < r.value ==> !Eligible(facts[j], seen, wantFact))
            && (r.None? ==> forall j :: i <= j < |facts| ==> !Eligible(facts[j], seen, wantFact))
    decreases |facts| - i
  {
    if i < |facts| && !Eligible(facts[i], seen, wantFact) {
      FindFromSpec(facts, seen, wantFact, i + 1);
    }
  }

  /** The fact a checkpoint shows: the first unseen entry of kind Fact, else
      the first unseen entry, else the entry the random index picks. */
  function ChooseFact(facts: seq<FactEntry>, seen: set<string>, fallback: nat): (f: FactEntry)
    requires fallback < |facts|
  {
    match FindFrom(facts, seen, true, 0)
    case Some(i) => facts[i]
    case None =>
      match FindFrom(facts, seen, false, 0)
      case Some(i) => facts[i]
      case None => facts[fallback]
  }

  /** The chosen entry comes from the table; it is an unseen Fact whenever
      one is left, an unseen entry whenever one is left, and the random
      pick only once every text has been seen. */
  lemma ChooseFactSpec(facts: seq<FactEntry>, seen: set<string>, fallback: nat)
    requires fallback < |facts|
    ensures var f := ChooseFact(facts, seen, fallback);
            && f in facts && f.text in TextsOf(facts)
            && ((exists i :: 0 <= i < |facts| && Eligible(facts[i], seen, true)) ==>
                  f.text !in seen && f.kind == Fact)
            && (!(TextsOf(facts) <= seen) ==> f.text !in seen)
            && (TextsOf(facts) <= seen ==> f == facts[fallback])
  {
    FindFromSpec(facts, seen, true, 0);
    FindFromSpec(facts, seen, false, 0);
    var f := ChooseFact(facts, seen, fallback);
    if !(TextsOf(facts) <= seen) {
      var t :| t in TextsOf(facts) && t !in seen;
      var k :| 0 <= k < |facts| && facts[k].text == t;
      assert Eligible(facts[k], seen, false);
    }
  }

  /** The preferred entry is the FIRST unseen one of kind Fact. */
  lemma ChooseFactIsFirst(facts: seq<FactEntry>, seen: set<string>, fallback: nat, i: nat)
    requires fallback < |facts| && i < |facts| && Eligible(facts[i], seen, true)
    ensures exists k :: 0 <= k <= i && ChooseFact(facts, seen, fallback) == facts[k]
              && Eligible(facts[k], seen, true)
              && forall j :: 0 <= j < k ==> !Eligible(facts[j], seen, true)
  {
    FindFromSpec(facts, seen, true, 0);
    var r := FindFrom(facts, seen, true, 0);
    assert r.Some?;
  }

  /** With no unseen entry of kind Fact left, the entry chosen is the FIRST
      unseen entry. */
  lemma ChooseFactIsFirstUnseen(facts: seq<FactEntry>, seen: set<string>, fallback: nat, i: nat)
    requires fallback < |facts| && i < |facts|
    requires forall j :: 0 <= j < |facts| ==> !Eligible(facts[j], seen, true)
    requires Eligible(facts[i], seen, false)
    ensures exists k :: 0 <= k <= i && ChooseFact(facts, seen, fallback) == facts[k]
              && Eligible(facts[k], seen, false)
              && forall j :: 0 <= j < k ==> !Eligible(facts[j], seen, false)
  {
    FindFromSpec(facts, seen, true, 0);
    FindFromSpec(facts, seen, false, 0);
    var r := FindFrom(facts, seen, false, 0);
    assert r.Some?;
  }

  /** The seen set after n checkpoints are reached one after another. */
  function Reveal(facts: seq<FactEntry>, seen: set<string>, n: nat, fallback: nat): set<string>
    requires fallback < |facts|
  {
    if n == 0 then seen
    else
      var before := Reveal(facts, seen, n - 1, fallback);
      before + {ChooseFact(facts, before, fallback).text}
  }

  /** One more checkpoint adds the text ChooseFact picks. */
  lemma RevealNext(facts: seq<FactEntry>, seen: set<string>, n: nat, fallback: nat)
    requires fallback < |facts|
    ensures Reveal(facts, seen, n + 1, fallback) ==
            Reveal(facts, seen, n, fallback) + {ChooseFact(facts, Reveal(facts, seen, n, fallback), fallback).text}
  {
  }

  /** The seen set only grows, never leaves the table's texts, and gains at
      most one text per checkpoint. */
  lemma {:induction false} RevealBounds(facts: seq<FactEntry>, seen: set<string>, n: nat, fallback: nat)
    requires fallback < |facts|
    ensures seen <= Reveal(facts, seen, n, fallback)
    ensures seen <= TextsOf(facts) ==> Reveal(facts, seen, n, fallback) <= TextsOf(facts)
    ensures |Reveal(facts, seen, n, fallback)| <= |seen| + n
  {
    if n > 0 {
      RevealBounds(facts, seen, n - 1, fallback);
      var before := Reveal(facts, seen, n - 1, fallback);
      var t := ChooseFact(facts, before, fallback).text;
      assert Reveal(facts, seen, n, fallback) == before + {t};
      ChooseFactSpec(facts, before, fallback);
    }
  }

  /** While unseen entries remain, every checkpoint shows a new one: n
      checkpoints add n distinct texts as long as there are that many left. */
  lemma {:induction false} RevealDistinct(facts: seq<FactEntry>, seen: set<string>, n: nat, fallback: nat)
    requires fallback < |facts|
    requires seen <= TextsOf(facts) && |seen| + n <= |TextsOf(facts)|
    ensures |Reveal(facts, seen, n, fallback)| == |seen| + n
  {
    if n > 0 {
      RevealDistinct(facts, seen, n - 1, fallback);
      RevealBounds(facts, seen, n - 1, fallback);
      var before := Reveal(facts, seen, n - 1, fallback);
      RevealStepIsNew(facts, before, fallback);
    }
  }

  lemma RevealStepIsNew(facts: seq<FactEntry>, before: set<string>, fallback: nat)
    requires fallback < |facts|
    requires before <= TextsOf(facts) && |before| < |TextsOf(facts)|
    ensures ChooseFact(facts, before, fallback).text !in before
  {
    var rest := TextsOf(facts) - before;
    assert |rest| == |TextsOf(facts)| - |before|;
    assert rest != {};
    ChooseFactSpec(facts, before, fallback);
  }

  /** The five texts of FACTS are distinct, so a zone can show five
      different facts before any repeats. */
  lemma FactTextsCount()
    ensures |TextsOf(Facts)| == 5
  {
    assert TextsOf(Facts) == {Facts[0].text, Facts[1].text, Facts[2].text, Facts[3].text, Facts[4].text};
  }
}
