/**
 * The onboarding set-up screen (src/components/onboarding/OnboardingLoading.tsx):
 * the seven steps run in order with the progress each one reports, the level
 * stored from the user's stated knowledge, the stocks put in the first
 * watchlist from the chosen sectors, and the text fallbacks of the step
 * descriptions and motivation labels. The steps' store calls and delays are
 * left out; which step throws, if any, is a parameter.
 */
module Onboarding {
  import opened Common

  /** The progress each step reports once its action has completed, in step order. */
  const StepProgress: seq<int> := [15, 25, 55, 70, 85, 95, 100]

  /** The step values climb strictly and the last one is 100. */
  lemma StepProgressClimbsToHundred()
    ensures |StepProgress| == 7
    ensures forall i, j :: 0 <= i < j < |StepProgress| ==> StepProgress[i] < StepProgress[j]
    ensures StepProgress[|StepProgress| - 1] == 100
    ensures forall i :: 0 <= i < |StepProgress| ==> 0 < StepProgress[i] <= 100
  {
  }

  /** The screen once the steps have run: the bar, the step shown, the error, and whether completion was scheduled. */
  datatype Run = Run(progress: int, currentStep: nat, failed: bool, completed: bool)

  /**
   * `configureUserExperience`: each step is shown, its action runs, and then
   * the bar takes the step's value; a step whose action throws stops the run
   * with the error shown and the bar at the previous step's value (0 for the
   * first step); otherwise completion is scheduled after the last step.
   */
  method ConfigureUserExperience(throwsAt: Option<nat>) returns (r: Run)
    ensures throwsAt.Some? && throwsAt.value < |StepProgress| ==>
              && r.failed && !r.completed
              && r.currentStep == throwsAt.value
              && r.progress == (if throwsAt.value == 0 then 0 else StepProgress[throwsAt.value - 1])
    ensures throwsAt.None? || throwsAt.value >= |StepProgress| ==>
              r == Run(100, |StepProgress| - 1, false, true)
  {
    var progress := 0;
    var current: nat := 0;
    var i := 0;
    while i < |StepProgress|
      invariant 0 <= i <= |StepProgress|
      invariant progress == (if i == 0 then 0 else StepProgress[i - 1])
      invariant i > 0 ==> current == i - 1
      invariant throwsAt.Some? ==> i <= throwsAt.value
    {
      current := i;
      if throwsAt == Some(i) {
        return Run(progress, current, true, false);
      }
      progress := StepProgress[i];
      i := i + 1;
    }
    return Run(progress, current, false, true);
  }

  /** `levelMap[currentKnowledge] || 'beginner'`. */
  function LevelFromKnowledge(knowledge: string): (level: string)
    ensures level == "intermediate" <==> knowledge == "intermediate"
    ensures level == "advanced" <==> knowledge == "advanced"
    ensures level == "beginner" <==> knowledge != "intermediate" && knowledge != "advanced"
  {
    if knowledge == "zero" || knowledge == "basic" then "beginner"
    else if knowledge == "intermediate" then "intermediate"
    else if knowledge == "advanced" then "advanced"
    else "beginner"
  }

  /** `sectorStocks[sector] || []`. */
  function SectorStocks(sector: string): (stocks: seq<string>)
    ensures sector !in {"tech", "finance", "healthcare", "energy", "consumer"} ==> stocks == []
  {
    if sector == "tech" then ["AAPL", "MSFT", "GOOGL", "NVDA"]
    else if sector == "finance" then ["JPM", "BAC", "GS", "V"]
    else if sector == "healthcare" then ["JNJ", "PFE", "UNH", "ABBV"]
    else if sector == "energy" then ["XOM", "CVX", "NEE", "SLB"]
    else if sector == "consumer" then ["AMZN", "WMT", "NKE", "SBUX"]
    else []
  }

  predicate Distinct(s: seq<string>) {
    forall i, j :: 0 <= i < j < |s| ==> s[i] != s[j]
  }

  /** A symbol is among the stocks `stocks` gives one of the sectors. */
  predicate OfferedBy(stocks: string -> seq<string>, sectors: seq<string>, symbol: string) {
    exists k :: 0 <= k < |sectors| && symbol in stocks(sectors[k])
  }

  /** A symbol is offered by one of the sectors. */
  predicate Offered(sectors: seq<string>, symbol: string) {
    OfferedBy(SectorStocks, sectors, symbol)
  }

  /** `set.add` for each symbol in turn: a JavaScript `Set` keeps first-insertion order. */
  function AddAll(acc: seq<string>, symbols: seq<string>): (r: seq<string>)
    requires Distinct(acc)
    ensures Distinct(r)
    ensures forall x :: x in r <==> x in acc || x in symbols
    ensures |acc| <= |r| && r[..|acc|] == acc
    decreases |symbols|
  {
    if |symbols| == 0 then acc
    else if symbols[0] in acc then AddAll(acc, symbols[1..])
    else
      var next := acc + [symbols[0]];
      var r := AddAll(next, symbols[1..]);
      assert r[..|acc|] == r[..|next|][..|acc|];
      r
  }

  /** The `stocksToAdd` set built over the sectors processed so far, in insertion order. */
  function Collect(sectors: seq<string>): (r: seq<string>)
    ensures Distinct(r)
    ensures forall x :: x in r <==> Offered(sectors, x)
    decreases |sectors|
  {
    if |sectors| == 0 then []
    else
      var before := Collect(sectors[..|sectors| - 1]);
      var r := AddAll(before, SectorStocks(sectors[|sectors| - 1]));
      forall x
        ensures x in r <==> Offered(sectors, x)
      {
        OfferedSnoc(SectorStocks, sectors, x);
      }
      r
  }

  /** A symbol offered by some sectors comes from the last one or from those before it. */
  lemma OfferedSnoc(stocks: string -> seq<string>, sectors: seq<string>, x: string)
    requires |sectors| > 0
    ensures OfferedBy(stocks, sectors, x) <==>
              OfferedBy(stocks, sectors[..|sectors| - 1], x) || x in stocks(sectors[|sectors| - 1])
  {
    var init := sectors[..|sectors| - 1];
    if OfferedBy(stocks, sectors, x) {
      var k :| 0 <= k < |sectors| && x in stocks(sectors[k]);
      if k < |sectors| - 1 {
        assert init[k] == sectors[k];
      }
    }
    if OfferedBy(stocks, init, x) {
      var k :| 0 <= k < |init| && x in stocks(init[k]);
      assert sectors[k] == init[k];
    }
  }

  /** `data.sectors || []`: the stocks of the chosen sectors, without repeats. */
  function StocksToAdd(sectors: Option<seq<string>>): (r: seq<string>)
    ensures Distinct(r)
    ensures forall x :: x in r <==> sectors.Some? && Offered(sectors.value, x)
  {
    if sectors.Some? then Collect(sectors.value) else []
  }

  /**
   * The watchlist items upserted: with a watchlist id and at least one stock,
   * the first six stocks in insertion order, each paired with that id;
   * otherwise none.
   */
  function WatchlistItems(watchlistId: Option<string>, sectors: Option<seq<string>>): (items: seq<(string, string)>)
    ensures |items| <= 6 && |items| <= |StocksToAdd(sectors)|
    ensures |items| == 0 <==> OrStr(watchlistId, "") == "" || |StocksToAdd(sectors)| == 0
    ensures forall i :: 0 <= i < |items| ==>
              items[i] == (watchlistId.value, StocksToAdd(sectors)[i])
    ensures |items| > 0 ==> |items| == Min(6, |StocksToAdd(sectors)|)
  {
    var stocks := StocksToAdd(sectors);
    if OrStr(watchlistId, "") != "" && |stocks| > 0 then
      var n := Min(6, |stocks|);
      seq(n, i requires 0 <= i < n => (watchlistId.value, stocks[i]))
    else []
  }

  function Min(a: int, b: int): int {
    if a <= b then a else b
  }

  /** No symbol is upserted twice, and every upserted symbol comes from a chosen sector. */
  lemma ItemsDistinctAndOffered(watchlistId: Option<string>, sectors: Option<seq<string>>)
    ensures var items := WatchlistItems(watchlistId, sectors);
            && (forall i, j :: 0 <= i < j < |items| ==> items[i].1 != items[j].1)
            && (forall i :: 0 <= i < |items| ==> sectors.Some? && Offered(sectors.value, items[i].1))
  {
    var items := WatchlistItems(watchlistId, sectors);
    var stocks := StocksToAdd(sectors);
    forall i | 0 <= i < |items|
      ensures sectors.Some? && Offered(sectors.value, items[i].1)
    {
      assert items[i].1 == stocks[i];
      assert stocks[i] in stocks;
    }
  }

  /** A sector the table does not know adds no stock. */
  lemma {:induction false} UnknownSectorAddsNothing(sectors: seq<string>, sector: string)
    requires SectorStocks(sector) == []
    ensures StocksToAdd(Some(sectors + [sector])) == StocksToAdd(Some(sectors))
  {
    var s := sectors + [sector];
    assert s[..|s| - 1] == sectors;
  }

  /** The loading fallback shown for a step outside the seven. */
  const Loading: string := "Chargement..."

  /** Step 1's text names the level it configures for. */
  function LevelStepText(level: string): (d: string)
    ensures d != Loading && Contains(d, level)
  {
    var d := "Configuration pour niveau " + level + "...";
    assert d[1] != Loading[1];
    ContainsAt(d, level, 26);
    d
  }

  /** Step 4's text names the number of sectors. */
  function SectorStepText(count: nat): (d: string)
    ensures d != Loading && Contains(d, NatStr(count))
  {
    var d := "Ajout de " + NatStr(count) + " secteurs à ta watchlist...";
    assert d[0] != Loading[0];
    ContainsAt(d, NatStr(count), 9);
    d
  }

  /** Step 5's text names the goal. */
  function GoalStepText(goal: string): (d: string)
    ensures d != Loading && Contains(d, goal)
  {
    var d := "Personnalisation basée sur ton objectif: " + goal + "...";
    assert d[0] != Loading[0];
    ContainsAt(d, goal, 41);
    d
  }

  /** `getStepDescription`: a step outside the seven shows the loading fallback. */
  function StepDescription(step: int, knowledge: string, sectorCount: Option<int>, motivation: string): (d: string)
    ensures d == Loading <==> !(0 <= step <= 6)
    ensures step == 1 ==> Contains(d, OrStr(Some(knowledge), "débutant"))
    ensures step == 4 ==> Contains(d, NatStr(if sectorCount.Some? && sectorCount.value > 0 then sectorCount.value else 3))
    ensures step == 5 ==> Contains(d, MotivationLabel(motivation))
  {
    if step == 1 then LevelStepText(OrStr(Some(knowledge), "débutant"))
    else if step == 4 then SectorStepText(if sectorCount.Some? && sectorCount.value > 0 then sectorCount.value else 3)
    else if step == 5 then GoalStepText(MotivationLabel(motivation))
    else if step == 0 || step == 2 || step == 3 || step == 6 then FixedStepText(step)
    else Loading
  }

  /** The texts of the steps that show no data; none is the loading fallback. */
  function FixedStepText(step: int): (d: string)
    requires step == 0 || step == 2 || step == 3 || step == 6
    ensures d != Loading
  {
    if step == 0 then LongerThanLoading("On enregistre tout ce que tu nous as dit...")
    else if step == 2 then LongerThanLoading("Génération de ton parcours personnalisé...")
    else if step == 3 then LongerThanLoading("Initialisation de ton compte simulateur avec $100,000 virtuels...")
    else LongerThanLoading("Derniers ajustements...")
  }

  /** A text longer than the loading fallback is not the fallback. */
  function LongerThanLoading(d: string): (r: string)
    requires |d| > |Loading|
    ensures r == d && r != Loading
  {
    d
  }

  /** The labels of the known motivations. */
  const MotivationLabels: map<string, string> := map[
    "financial_freedom" := "liberté financière",
    "master_skill" := "maîtrise des compétences",
    "help_family" := "sécurité familiale",
    "prove_myself" := "réussite personnelle",
    "fun_challenge" := "challenge intellectuel"
  ]

  /** `getMotivationLabel`: a known motivation's label, and the generic label for any other. */
  function MotivationLabel(motivation: string): (l: string)
    ensures motivation in MotivationLabels ==> l == MotivationLabels[motivation]
    ensures l == "tes objectifs" <==> motivation !in MotivationLabels
  {
    if motivation in MotivationLabels then MotivationLabels[motivation] else "tes objectifs"
  }
}
