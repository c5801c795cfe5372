/** The spider history table (src/spiders.js): the statistics of the latest
    runs are re-pivoted into one row per spider, `[spider, stability, count in
    run 1, count in run 2, ...]`; each row gets a stability score that is drawn
    as a colour; and each count cell links to an artefact of its run in the
    format chosen by the `link_format` URL parameter.

    `Math.sqrt` is the parameter `sqrt`, and `new URL(rel, base).toString()`
    is the parameter `resolve(rel, base)`. Arithmetic is exact (reals). */
module Spiders {
  import opened Common
  import opened Strings
  import History

  const NumBuilds: nat := 5
  const NormalisedMaxPois: real := 10000.0

  /** `historyList.splice(NUM_BUILDS)`: only the newest NumBuilds runs are shown. */
  function TruncateHistory<T>(historyList: seq<T>): (kept: seq<T>)
    ensures |kept| <= NumBuilds
    ensures |historyList| <= NumBuilds ==> kept == historyList
    ensures |historyList| > NumBuilds ==> |kept| == NumBuilds
    ensures kept == historyList[..|kept|]
  {
    if |historyList| <= NumBuilds then historyList else historyList[..NumBuilds]
  }

  // ---------------------------------------------------------------------------
  // Colour of a stability score (getColorGradient).

  datatype Rgb = Rgb(red: real, green: real, blue: real)

  const Inflection: real := 90.0

  function ColorGradient(percentage: real): (c: Rgb)
    ensures percentage > 98.0 ==> c == Rgb(0.0, 255.0, 0.0)
    ensures percentage < 70.0 ==> c == Rgb(255.0, 0.0, 0.0)
    ensures c.blue == 0.0
  {
    if percentage > 98.0 then Rgb(0.0, 255.0, 0.0)
    else if percentage < 70.0 then Rgb(255.0, 0.0, 0.0)
    else
      var red := (if percentage > Inflection then 1.0 - 2.0 * (percentage - Inflection) / 100.0 else 1.0) * 255.0;
      var green := (if percentage > Inflection then 1.0 else 2.0 * percentage / 100.0) * 255.0;
      Rgb(red, green, 0.0)
  }

  /** A CSS colour channel is clamped into 0..255 when it is drawn. */
  function Channel(x: real): real
  {
    if x < 0.0 then 0.0 else if x > 255.0 then 255.0 else x
  }

  /** Within the gradient band 70..98 the red channel fades from 255 to 214.2
      as the score rises above 90, while the green channel computed for scores
      at or below 90 already exceeds 255 and is drawn as full green: every
      score in the band is drawn as (red, 255, 0). */
  lemma GradientBand(p: real)
    requires 70.0 <= p <= 98.0
    ensures var c := ColorGradient(p);
      && 214.2 <= c.red <= 255.0
      && c.green >= 255.0
      && (p <= Inflection ==> c.red == 255.0 && c.green >= 357.0)
      && Channel(c.green) == 255.0 && Channel(c.red) == c.red
  {
  }

  /** As drawn (each channel clamped), a higher score never has more red nor
      less green: below 70 pure red, from 70 full green with fading red, and
      above 98 pure green. */
  lemma GradientMonotone(p: real, q: real)
    requires p <= q
    ensures Channel(ColorGradient(q).red) <= Channel(ColorGradient(p).red)
    ensures Channel(ColorGradient(p).green) <= Channel(ColorGradient(q).green)
  {
    if 70.0 <= p <= 98.0 {
      GradientBand(p);
    }
    if 70.0 <= q <= 98.0 {
      GradientBand(q);
    }
  }

  // ---------------------------------------------------------------------------
  // Stability score (calculateStability).

  /** The counts `calculateStability` reads at row[2] .. row[NUM_BUILDS + 1];
      past the end of a shorter row it reads `undefined`, which counts as null. */
  function Window(counts: seq<Option<int>>): (w: seq<Option<int>>)
  {
    seq(NumBuilds, i requires 0 <= i < NumBuilds => if i < |counts| then counts[i] else None)
  }

  /** The largest present count, or 0 when none is positive. */
  function MaxFeatures(w: seq<Option<int>>): (m: int)
    ensures m >= 0
    ensures forall i :: 0 <= i < |w| && w[i].Some? ==> w[i].value <= m
    ensures m == 0 || exists i :: 0 <= i < |w| && w[i] == Some(m)
  {
    if w == [] then 0
    else
      var m := MaxFeatures(w[..|w| - 1]);
      var last := w[|w| - 1];
      assert forall i :: 0 <= i < |w| - 1 ==> w[..|w| - 1][i] == w[i];
      if last.Some? && last.value > m then last.value else m
  }

  /** How many counts are present. */
  function RunCount(w: seq<Option<int>>): (n: nat)
    ensures n <= |w|
  {
    if w == [] then 0
    else RunCount(w[..|w| - 1]) + if w[|w| - 1].Some? then 1 else 0
  }

  function Deviation(count: int, multiplier: real): real
  {
    NormalisedMaxPois - multiplier * count as real
  }

  /** Sum of the squared deviations of the present (normalised) counts from the
      normalised maximum. */
  function SumSqDeviations(w: seq<Option<int>>, multiplier: real): (s: real)
    ensures s >= 0.0
  {
    if w == [] then 0.0
    else
      var rest := SumSqDeviations(w[..|w| - 1], multiplier);
      var last := w[|w| - 1];
      if last.Some? then
        var dev := Deviation(last.value, multiplier);
        assert dev * dev >= 0.0;
        rest + dev * dev
      else rest
  }

  lemma {:induction false} RunCountPositive(w: seq<Option<int>>, i: nat)
    requires i < |w| && w[i].Some?
    ensures RunCount(w) >= 1
  {
    if i < |w| - 1 {
      RunCountPositive(w[..|w| - 1], i);
    }
  }

  /** There is at least one present count whenever the maximum is positive. */
  lemma MaxPositiveHasRun(w: seq<Option<int>>)
    requires MaxFeatures(w) > 0
    ensures RunCount(w) >= 1
  {
    var i :| 0 <= i < |w| && w[i] == Some(MaxFeatures(w));
    RunCountPositive(w, i);
  }

  /** The stored score: 100 minus the clamped root-mean-square deviation from
      the maximum, as a percentage. It is never negative, and it is 100
      exactly when that deviation is 0. */
  function StabilityScore(w: seq<Option<int>>, sqrt: real -> real): (score: real)
    requires MaxFeatures(w) > 0
    ensures score >= 0.0
    ensures (MaxPositiveHasRun(w);
      score == 100.0 <==>
        sqrt(SumSqDeviations(w, NormalisedMaxPois / MaxFeatures(w) as real) / RunCount(w) as real) == 0.0)
  {
    MaxPositiveHasRun(w);
    var multiplier := NormalisedMaxPois / MaxFeatures(w) as real;
    var stDev := sqrt(SumSqDeviations(w, multiplier) / RunCount(w) as real);
    100.0 - (Min(stDev, NormalisedMaxPois) / NormalisedMaxPois) * 100.0
  }

  /** The score always lies in 0..100, because the deviation is clamped to the
      normalised maximum (and a square root is never negative). */
  lemma StabilityInRange(w: seq<Option<int>>, sqrt: real -> real)
    requires MaxFeatures(w) > 0
    requires forall x :: 0.0 <= x ==> 0.0 <= sqrt(x)
    ensures 0.0 <= StabilityScore(w, sqrt) <= 100.0
  {
    MaxPositiveHasRun(w);
    var multiplier := NormalisedMaxPois / MaxFeatures(w) as real;
    var v := SumSqDeviations(w, multiplier) / RunCount(w) as real;
    assert 0.0 <= v;
    assert 0.0 <= sqrt(v);
  }

  lemma {:induction false} SumSqZero(w: seq<Option<int>>, m: int)
    requires m > 0
    requires forall i :: 0 <= i < |w| && w[i].Some? ==> w[i].value == m
    ensures SumSqDeviations(w, NormalisedMaxPois / m as real) == 0.0
  {
    if w != [] {
      SumSqZero(w[..|w| - 1], m);
      if w[|w| - 1].Some? {
        assert Deviation(m, NormalisedMaxPois / m as real) == 0.0;
      }
    }
  }

  lemma {:induction false} SumSqPositive(w: seq<Option<int>>, m: int, i: nat)
    requires m > 0
    requires i < |w| && w[i].Some? && w[i].value != m
    ensures SumSqDeviations(w, NormalisedMaxPois / m as real) > 0.0
  {
    var multiplier := NormalisedMaxPois / m as real;
    if i == |w| - 1 {
      var c := w[i].value;
      var dev := Deviation(c, multiplier);
      assert multiplier * m as real == NormalisedMaxPois;
      assert dev == multiplier * (m - c) as real;
      assert multiplier > 0.0 && (m - c) as real != 0.0;
      assert dev != 0.0;
      assert dev * dev > 0.0;
    } else {
      SumSqPositive(w[..|w| - 1], m, i);
    }
  }

  lemma QuotientPositive(a: real, b: real)
    requires a > 0.0 && b > 0.0
    ensures a / b > 0.0
  {
    assert a / b * b == a;
  }

  /** A spider scores exactly 100 when every run it appears in produced the
      maximum count, and (for a square root that is positive on positive
      numbers) only then. */
  lemma StabilityPerfect(w: seq<Option<int>>, sqrt: real -> real)
    requires MaxFeatures(w) > 0
    requires sqrt(0.0) == 0.0
    requires forall x :: 0.0 < x ==> 0.0 < sqrt(x)
    ensures StabilityScore(w, sqrt) == 100.0 <==>
      forall i :: 0 <= i < |w| && w[i].Some? ==> w[i].value == MaxFeatures(w)
  {
    var m := MaxFeatures(w);
    MaxPositiveHasRun(w);
    var total := SumSqDeviations(w, NormalisedMaxPois / m as real);
    var n := RunCount(w) as real;
    var v := total / n;
    assert StabilityScore(w, sqrt) == 100.0 <==> sqrt(v) == 0.0;
    if forall i :: 0 <= i < |w| && w[i].Some? ==> w[i].value == m {
      SumSqZero(w, m);
      assert v == 0.0;
    } else {
      var i :| 0 <= i < |w| && w[i].Some? && w[i].value != m;
      SumSqPositive(w, m, i);
      QuotientPositive(total, n);
    }
  }

  /** Colour of the stability cell: only a finite score is coloured, a score
      above 98 in green and one below 70 in red. */
  function StabilityColour(stability: Option<real>): (colour: Option<Rgb>)
    ensures colour.Some? <==> stability.Some?
    ensures stability.Some? && stability.value > 98.0 ==> colour == Some(Rgb(0.0, 255.0, 0.0))
    ensures stability.Some? && stability.value < 70.0 ==> colour == Some(Rgb(255.0, 0.0, 0.0))
  {
    if stability.Some? then Some(ColorGradient(stability.value)) else None
  }

  // ---------------------------------------------------------------------------
  // Pivoting the runs' results into one row per spider.

  /** One entry of a run's `results` list (errors and elapsed time are not shown). */
  datatype SpiderEntry = SpiderEntry(spider: string, filename: string, features: Option<int>)

  /** A run's statistics, named after its history entry. */
  datatype StatsRun = StatsRun(name: string, results: seq<SpiderEntry>)

  /** A table row `[spider, stability, count per run]`. */
  datatype SpiderRow = SpiderRow(spider: string, stability: Option<real>, counts: seq<Option<int>>)

  /** The first loop of `calculateStability`: the largest count, starting from 0. */
  method FindMaxFeatures(w: seq<Option<int>>) returns (maxFeatures: int)
    ensures maxFeatures == MaxFeatures(w)
  {
    maxFeatures := 0;
    for i := 0 to |w|
      invariant maxFeatures == MaxFeatures(w[..i])
    {
      assert w[..i + 1][..i] == w[..i];
      if w[i].Some? && w[i].value > maxFeatures {
        maxFeatures := w[i].value;
      }
    }
    assert w[..|w|] == w;
  }

  /** The second loop of `calculateStability`: squared deviations of the present
      counts, and how many there are. */
  method SumDeviations(w: seq<Option<int>>, multiplier: real) returns (sumSqDeviations: real, runCount: int)
    ensures sumSqDeviations == SumSqDeviations(w, multiplier)
    ensures runCount == RunCount(w)
  {
    sumSqDeviations := 0.0;
    runCount := 0;
    for i := 0 to |w|
      invariant sumSqDeviations == SumSqDeviations(w[..i], multiplier)
      invariant runCount == RunCount(w[..i])
    {
      assert w[..i + 1][..i] == w[..i];
      if w[i].Some? {
        var dev := NormalisedMaxPois - (multiplier * w[i].value as real);
        sumSqDeviations := sumSqDeviations + dev * dev;
        runCount := runCount + 1;
      }
    }
    assert w[..|w|] == w;
  }

  /** `calculateStability(row)`: sets row[1] when some count is positive and
      otherwise leaves it as it was. */
  method CalculateStability(row: SpiderRow, sqrt: real -> real) returns (updated: SpiderRow)
    ensures updated.spider == row.spider && updated.counts == row.counts
    ensures MaxFeatures(Window(row.counts)) == 0 ==> updated.stability == row.stability
    ensures MaxFeatures(Window(row.counts)) > 0 ==>
      updated.stability == Some(StabilityScore(Window(row.counts), sqrt))
  {
    var w := Window(row.counts);
    var maxFeatures := FindMaxFeatures(w);
    updated := row;
    if maxFeatures > 0 {
      var multiplier := NormalisedMaxPois / maxFeatures as real;
      var sumSqDeviations, runCount := SumDeviations(w, multiplier);
      MaxPositiveHasRun(w);
      var stDev := sqrt(sumSqDeviations / runCount as real);
      updated := row.(stability := Some(100.0 - (Min(stDev, NormalisedMaxPois) / NormalisedMaxPois) * 100.0));
    }
  }

  /** The two dictionaries the pivot fills, with the insertion order of
      `buildsBySpider`'s keys (which is the row order). */
  datatype Pivot = Pivot(order: seq<string>, builds: map<string, map<string, Option<int>>>,
                         filenames: map<string, string>)

  /** One spider entry of a run: its cell for the run becomes the entry's
      features and its filename the entry's; a new spider is appended to the
      order; every other cell stays as it was. */
  function AddEntry(p: Pivot, runName: string, e: SpiderEntry): (q: Pivot)
    ensures forall s, n ::
              Lookup(q.builds, s, n) == if s == e.spider && n == runName then e.features else Lookup(p.builds, s, n)
    ensures e.spider in q.filenames && q.filenames[e.spider] == e.filename
    ensures forall s :: s != e.spider ==> (s in q.filenames <==> s in p.filenames)
    ensures p.order <= q.order && |q.order| <= |p.order| + 1
  {
    var known := e.spider in p.builds;
    var byRun := if known then p.builds[e.spider] else map[];
    Pivot(if known then p.order else p.order + [e.spider],
          p.builds[e.spider := byRun[runName := e.features]],
          p.filenames[e.spider := e.filename])
  }

  function AddEntries(p: Pivot, runName: string, es: seq<SpiderEntry>): Pivot
  {
    if es == [] then p else AddEntry(AddEntries(p, runName, es[..|es| - 1]), runName, es[|es| - 1])
  }

  /** The dictionaries after the nested `forEach` over all runs and results:
      the order lists each spider once, and exactly the spiders that have a
      cell and a filename. */
  function PivotRuns(runs: seq<StatsRun>): (p: Pivot)
    ensures WellFormed(p)
  {
    if runs == [] then Pivot([], map[], map[])
    else
      var before := PivotRuns(runs[..|runs| - 1]);
      AddEntriesWellFormed(before, runs[|runs| - 1].name, runs[|runs| - 1].results);
      AddEntries(before, runs[|runs| - 1].name, runs[|runs| - 1].results)
  }

  /** `entry[1][runName]?.features ?? null` */
  function Lookup(builds: map<string, map<string, Option<int>>>, spider: string, runName: string): Option<int>
  {
    if spider in builds && runName in builds[spider] then builds[spider][runName] else None
  }

  /** The last entry of a run's results for a spider: the one the pivot keeps,
      since each later entry overwrites the cell. */
  function LastEntry(es: seq<SpiderEntry>, spider: string): (r: Option<SpiderEntry>)
    ensures r.Some? ==> r.value in es && r.value.spider == spider
    ensures r.Some? ==>
      exists i :: 0 <= i < |es| && es[i] == r.value && forall j :: i < j < |es| ==> es[j].spider != spider
    ensures r.None? <==> forall e :: e in es ==> e.spider != spider
  {
    if es == [] then None
    else if es[|es| - 1].spider == spider then Some(es[|es| - 1])
    else
      assert forall e :: e in es ==> e in es[..|es| - 1] || e == es[|es| - 1];
      LastEntry(es[..|es| - 1], spider)
  }

  /** The count a run reports for a spider, null when the spider is not in it. */
  function FeaturesIn(es: seq<SpiderEntry>, spider: string): Option<int>
  {
    match LastEntry(es, spider)
    case None => None
    case Some(e) => e.features
  }

  ghost predicate Appears(runs: seq<StatsRun>, spider: string)
  {
    exists k, e :: 0 <= k < |runs| && e in runs[k].results && e.spider == spider
  }

  ghost predicate DistinctNames(runs: seq<StatsRun>)
  {
    forall i, j :: 0 <= i < j < |runs| ==> runs[i].name != runs[j].name
  }

  ghost predicate WellFormed(p: Pivot)
  {
    && (forall i, j :: 0 <= i < j < |p.order| ==> p.order[i] != p.order[j])
    && (forall s :: s in p.order <==> s in p.builds)
    && p.filenames.Keys == p.builds.Keys
  }

  lemma AddEntryWellFormed(p: Pivot, runName: string, e: SpiderEntry)
    requires WellFormed(p)
    ensures WellFormed(AddEntry(p, runName, e))
    ensures forall s :: s in AddEntry(p, runName, e).builds <==> s in p.builds || s == e.spider
  {
  }

  /** Adding a run's results keeps the pivot well formed and adds exactly the
      spiders of those results. */
  lemma {:induction false} AddEntriesWellFormed(p: Pivot, runName: string, es: seq<SpiderEntry>)
    requires WellFormed(p)
    ensures WellFormed(AddEntries(p, runName, es))
    ensures forall s :: s in AddEntries(p, runName, es).builds <==>
      s in p.builds || exists e :: e in es && e.spider == s
  {
    if es != [] {
      var init := es[..|es| - 1];
      AddEntriesWellFormed(p, runName, init);
      AddEntryWellFormed(AddEntries(p, runName, init), runName, es[|es| - 1]);
      assert forall e :: e in es <==> e in init || e == es[|es| - 1];
    }
  }

  /** Adding a run's results sets the cells of that run for the spiders in
      them, to the count of the spider's last entry, and changes nothing else. */
  lemma {:induction false} AddEntriesCell(p: Pivot, runName: string, es: seq<SpiderEntry>, s: string, n: string)
    ensures Lookup(AddEntries(p, runName, es).builds, s, n) ==
      if n == runName && LastEntry(es, s).Some? then FeaturesIn(es, s) else Lookup(p.builds, s, n)
  {
    if es != [] {
      AddEntriesCell(p, runName, es[..|es| - 1], s, n);
    }
  }

  /** The pivot holds one key per spider that appears in any run, each once. */
  lemma {:induction false} PivotSpiders(runs: seq<StatsRun>)
    ensures forall s :: s in PivotRuns(runs).builds <==> Appears(runs, s)
  {
    if runs != [] {
      var init := runs[..|runs| - 1];
      var last := runs[|runs| - 1];
      PivotSpiders(init);
      AddEntriesWellFormed(PivotRuns(init), last.name, last.results);
      forall s
        ensures s in PivotRuns(runs).builds <==> Appears(runs, s)
      {
        if Appears(runs, s) {
          var k, e :| 0 <= k < |runs| && e in runs[k].results && e.spider == s;
          if k < |runs| - 1 {
            assert init[k] == runs[k];
          }
        }
        if Appears(init, s) {
          var k, e :| 0 <= k < |init| && e in init[k].results && e.spider == s;
          assert runs[k] == init[k];
        }
      }
    }
  }

  /** Only the names of runs can be found in the pivot. */
  lemma {:induction false} PivotNames(runs: seq<StatsRun>, s: string, n: string)
    requires forall k :: 0 <= k < |runs| ==> runs[k].name != n
    ensures Lookup(PivotRuns(runs).builds, s, n) == None
  {
    if runs != [] {
      var init := runs[..|runs| - 1];
      PivotNames(init, s, n);
      AddEntriesCell(PivotRuns(init), runs[|runs| - 1].name, runs[|runs| - 1].results, s, n);
    }
  }

  /** When run names are distinct, the pivot's cell for a spider and a run is
      the count that run reports for the spider (a count of 0 stays 0), or null
      when the spider is not in that run. */
  lemma {:induction false} PivotCell(runs: seq<StatsRun>, s: string, k: nat)
    requires DistinctNames(runs) && k < |runs|
    ensures Lookup(PivotRuns(runs).builds, s, runs[k].name) == FeaturesIn(runs[k].results, s)
  {
    var init := runs[..|runs| - 1];
    var last := runs[|runs| - 1];
    AddEntriesCell(PivotRuns(init), last.name, last.results, s, runs[k].name);
    if k < |runs| - 1 {
      assert init[k] == runs[k];
      PivotCell(init, s, k);
    } else {
      PivotNames(init, s, last.name);
    }
  }

  /** Runs are told apart by name only: two runs with the same name (two runs
      started on the same day from the same history) share one column value,
      that of the later run. */
  lemma PivotSameNameCollision()
    ensures var runs := [StatsRun("2024-01-01 (ATP)", [SpiderEntry("a", "a.py", Some(1))]),
                         StatsRun("2024-01-01 (ATP)", [SpiderEntry("a", "a.py", Some(2))])];
      && FeaturesIn(runs[0].results, "a") == Some(1)
      && Lookup(PivotRuns(runs).builds, "a", runs[0].name) == Some(2)
  {
    var runs := [StatsRun("2024-01-01 (ATP)", [SpiderEntry("a", "a.py", Some(1))]),
                 StatsRun("2024-01-01 (ATP)", [SpiderEntry("a", "a.py", Some(2))])];
    assert runs[..1] == [runs[0]];
    assert runs[..1][..0] == [];
    assert runs[0].results[..0] == [];
    assert runs[1].results[..0] == [];
  }

  /** The row a spider gets before its stability is computed. */
  function InitialRow(p: Pivot, runs: seq<StatsRun>, spider: string): SpiderRow
  {
    SpiderRow(spider, None, seq(|runs|, k requires 0 <= k < |runs| => Lookup(p.builds, spider, runs[k].name)))
  }

  /** The first loop: fill `buildsBySpider` and `spiderToFilename`. */
  method FillBuilds(statsList: seq<StatsRun>) returns (p: Pivot)
    ensures p == PivotRuns(statsList)
  {
    p := Pivot([], map[], map[]);
    for i := 0 to |statsList|
      invariant p == PivotRuns(statsList[..i])
    {
      assert statsList[..i + 1][..i] == statsList[..i];
      p := FillRun(p, statsList[i].name, statsList[i].results);
    }
    assert statsList[..|statsList|] == statsList;
  }

  /** The inner `forEach` over one run's results (src/spiders.js:89-97). */
  method FillRun(p0: Pivot, runName: string, results: seq<SpiderEntry>) returns (p: Pivot)
    ensures p == AddEntries(p0, runName, results)
  {
    p := p0;
    for j := 0 to |results|
      invariant p == AddEntries(p0, runName, results[..j])
    {
      assert results[..j + 1][..j] == results[..j];
      p := FillEntry(p, runName, results[j]);
    }
    assert results[..|results|] == results;
  }

  /** The body of the inner `forEach` (src/spiders.js:90-96). */
  method FillEntry(p0: Pivot, runName: string, entry: SpiderEntry) returns (p: Pivot)
    ensures p == AddEntry(p0, runName, entry)
  {
    var spiderName := entry.spider;
    p := p0.(filenames := p0.filenames[spiderName := entry.filename]);
    if spiderName !in p.builds {
      p := p.(order := p.order + [spiderName], builds := p.builds[spiderName := map[]]);
    }
    p := p.(builds := p.builds[spiderName := p.builds[spiderName][runName := entry.features]]);
  }

  /** A finished row for `spider`: its name, its count in every run (null
      where the spider has none), and its stability score, which stays null
      when no run counted any feature. */
  ghost predicate IsRow(row: SpiderRow, p: Pivot, runs: seq<StatsRun>, spider: string, sqrt: real -> real)
  {
    var counts := InitialRow(p, runs, spider).counts;
    && row.spider == spider
    && row.counts == counts
    && (MaxFeatures(Window(counts)) == 0 ==> row.stability.None?)
    && (MaxFeatures(Window(counts)) > 0 ==> row.stability == Some(StabilityScore(Window(counts), sqrt)))
  }

  /** The second loop: one row per spider, in the order of `buildsBySpider`. */
  method BuildRows(p: Pivot, statsList: seq<StatsRun>, sqrt: real -> real) returns (data: seq<SpiderRow>)
    ensures |data| == |p.order|
    ensures forall r :: 0 <= r < |data| ==> IsRow(data[r], p, statsList, p.order[r], sqrt)
  {
    data := [];
    for r := 0 to |p.order|
      invariant |data| == r
      invariant forall q :: 0 <= q < r ==> IsRow(data[q], p, statsList, p.order[q], sqrt)
    {
      var spider := p.order[r];
      var counts := RunCounts(p, statsList, spider);
      var row := CalculateStability(SpiderRow(spider, None, counts), sqrt);
      data := data + [row];
    }
  }

  /** The spider's count in each run, null where it has none
      (src/spiders.js:107-110). */
  method RunCounts(p: Pivot, statsList: seq<StatsRun>, spider: string) returns (counts: seq<Option<int>>)
    ensures counts == InitialRow(p, statsList, spider).counts
  {
    counts := [];
    var byRun := if spider in p.builds then p.builds[spider] else map[];
    for k := 0 to |statsList|
      invariant counts == InitialRow(p, statsList, spider).counts[..k]
    {
      counts := counts + [if statsList[k].name in byRun then byRun[statsList[k].name] else None];
    }
  }

  /** The re-pivot of the runs' statistics: one row per spider seen in any
      run, each with one count per run and its stability score. */
  method PivotBySpider(statsList: seq<StatsRun>, sqrt: real -> real)
    returns (data: seq<SpiderRow>, spiderToFilename: map<string, string>)
    ensures var p := PivotRuns(statsList);
      && |data| == |p.order|
      && spiderToFilename == p.filenames
      && forall r :: 0 <= r < |data| ==> IsRow(data[r], p, statsList, p.order[r], sqrt)
    ensures forall r1, r2 :: 0 <= r1 < r2 < |data| ==> data[r1].spider != data[r2].spider
    ensures forall s :: (exists r :: 0 <= r < |data| && data[r].spider == s) <==> Appears(statsList, s)
    ensures spiderToFilename.Keys == set r | 0 <= r < |data| :: data[r].spider
    ensures forall r :: 0 <= r < |data| ==> |data[r].counts| == |statsList|
    ensures DistinctNames(statsList) ==>
      forall r, k :: 0 <= r < |data| && 0 <= k < |statsList| ==>
        data[r].counts[k] == FeaturesIn(statsList[k].results, data[r].spider)
  {
    var p := FillBuilds(statsList);
    spiderToFilename := p.filenames;
    data := BuildRows(p, statsList, sqrt);
    PivotSpiders(statsList);
    forall s
      ensures (exists r :: 0 <= r < |data| && data[r].spider == s) <==> Appears(statsList, s)
    {
      if s in p.order {
        var r :| 0 <= r < |p.order| && p.order[r] == s;
        assert data[r].spider == s;
      }
    }
    if DistinctNames(statsList) {
      forall r, k | 0 <= r < |data| && 0 <= k < |statsList|
        ensures data[r].counts[k] == FeaturesIn(statsList[k].results, data[r].spider)
      {
        PivotCell(statsList, data[r].spider, k);
      }
    }
  }

  // ---------------------------------------------------------------------------
  // Link format and count-cell links.

  const LinkFormatOptions: seq<string> := ["map", "geojson", "statistics", "logs"]

  /** `LINK_FORMAT_OPTIONS[index]?.[0]` */
  function OptionAt(index: real): Option<string>
  {
    if index == index.Floor as real && 0 <= index.Floor < |LinkFormatOptions|
    then Some(LinkFormatOptions[index.Floor]) else None
  }

  /** Decoding of the `link_format` URL parameter (`None` when it is missing):
      a finite number n selects option n (1..4), any other number and any
      empty value fall back to "geojson", and anything else is trimmed and
      used as it is. */
  function DecodeLinkFormat(param: Option<string>): (format: string)
    ensures format != ""
    ensures param.None? ==> format == "geojson"
    ensures format in LinkFormatOptions || (param.Some? && ParseFloat(param.value).None? && format == Trim(param.value))
  {
    var decoded :=
      if param.Some? && ParseFloat(param.value).Some? then OptionAt(ParseFloat(param.value).value - 1.0)
      else if param.Some? then Some(Trim(param.value))
      else None;
    if decoded.None? || decoded.value == "" then "geojson" else decoded.value
  }

  /** Any value that `parseFloat` reads as a number v picks option v when v
      is a whole number in 1..4, and falls back to "geojson" otherwise
      (negative, fractional, zero or too large). */
  lemma DecodeNumber(p: string)
    ensures ParseFloat(p).Some? ==>
      var v := ParseFloat(p).value;
      DecodeLinkFormat(Some(p)) ==
        if v == v.Floor as real && 1 <= v.Floor <= 4 then LinkFormatOptions[v.Floor - 1] else "geojson"
  {
    if ParseFloat(p).Some? {
      var v := ParseFloat(p).value;
      OptionAtShift(v);
      assert DecodeLinkFormat(Some(p)) == if OptionAt(v - 1.0).None? then "geojson" else OptionAt(v - 1.0).value;
    }
  }

  /** Option v - 1 exists exactly for a whole v in 1..4, and is then the v-th
      option, which is never empty. */
  lemma OptionAtShift(v: real)
    ensures OptionAt(v - 1.0) ==
      if v == v.Floor as real && 1 <= v.Floor <= 4 then Some(LinkFormatOptions[v.Floor - 1]) else None
    ensures OptionAt(v - 1.0).Some? ==> OptionAt(v - 1.0).value != ""
  {
    assert (v - 1.0).Floor == v.Floor - 1;
  }

  /** `?link_format=n` for a natural number n written in decimal picks the
      n-th option, and falls back to "geojson" outside 1..4. */
  lemma DecodeNumeral(n: nat)
    ensures DecodeLinkFormat(Some(Decimal(n))) ==
      if 1 <= n <= 4 then LinkFormatOptions[n - 1] else "geojson"
  {
    ParseFloatDecimal(n);
    DecodeNumber(Decimal(n));
  }

  /** A value that is not a number is used trimmed, and a format read back from
      the page is stable: decoding it again changes nothing. */
  lemma DecodeTextual(p: string)
    requires ParseFloat(p).None?
    ensures DecodeLinkFormat(Some(p)) == if Trim(p) == "" then "geojson" else Trim(p)
    ensures Trim(DecodeLinkFormat(Some(p))) == DecodeLinkFormat(Some(p))
  {
    var t := Trim(p);
    assert DecodeLinkFormat(Some(p)) == if t == "" then "geojson" else t;
    if t == "" {
      TrimUnchanged("geojson");
    } else {
      TrimIdempotent(p);
    }
  }

  /** The URL fields of a normalised history run: a string or null. */
  ghost predicate UrlShapes(run: History.RawRun)
  {
    forall f :: f in ["output_url", "stats_url"] && f in run.fields ==>
      run.fields[f].Text? || run.fields[f].Null?
  }

  /** A field of a run; a missing key reads as `undefined`. */
  function FieldOf(run: History.RawRun, field: string): Json
  {
    if field in run.fields then run.fields[field] else Absent
  }

  /** A base URL field, when it is truthy. */
  function UrlBase(run: History.RawRun, field: string): Option<string>
  {
    if field in run.fields && run.fields[field].Text? && run.fields[field].s != ""
    then Some(run.fields[field].s) else None
  }

  datatype CellLink = MapViewer(show: string) | Href(url: string)

  /** The link a count cell gets in `rowCallback` (src/spiders.js:214-225):
      only for one of the four formats, a map-viewer link only for "map", and
      only when the base URL the format needs is truthy. */
  function LinkFor(format: string, spider: string, run: History.RawRun,
                   resolve: (string, string) -> string): (link: Option<CellLink>)
    ensures link.Some? ==> format in LinkFormatOptions
    ensures link.Some? ==> (link.value.MapViewer? <==> format == "map")
    ensures link.Some? ==> UrlBase(run, if format == "statistics" then "stats_url" else "output_url").Some?
  {
    var output := UrlBase(run, "output_url");
    var stats := UrlBase(run, "stats_url");
    if format == "map" && output.Some? then
      Some(MapViewer(resolve("output/" + spider + ".geojson", output.value)))
    else if format == "geojson" && output.Some? then
      Some(Href(resolve("output/" + spider + ".geojson", output.value)))
    else if format == "statistics" && stats.Some? then
      Some(Href(resolve(spider + ".json", stats.value)))
    else if format == "logs" && output.Some? then
      Some(Href(resolve("logs/" + spider + ".txt", output.value)))
    else None
  }

  /** A count cell gets a link exactly when the format is one of the four and
      the base URL it needs (`stats_url` for statistics, `output_url` for the
      others) is truthy. */
  lemma LinkForExists(format: string, spider: string, run: History.RawRun,
                      resolve: (string, string) -> string)
    requires UrlShapes(run)
    ensures LinkFor(format, spider, run, resolve).Some? <==>
      && format in LinkFormatOptions
      && Truthy(FieldOf(run, if format == "statistics" then "stats_url" else "output_url"))
  {
  }

  /** A rendered count cell: its count, its link if any, and whether the JOSM
      remote-control link is appended. */
  datatype CountCell = CountCell(count: int, link: Option<CellLink>, josm: bool)

  /** `rowCallback`: cells 2..7 of a row; `None` for a cell left untouched. */
  method RowCallback(row: SpiderRow, historyList: seq<History.RawRun>, linkFormat: string,
                     josmAvailable: bool, resolve: (string, string) -> string)
    returns (cells: seq<Option<CountCell>>)
    requires |row.counts| <= |historyList|
    ensures |cells| == 6
    ensures forall k :: 0 <= k < 6 ==> (cells[k].Some? <==> k < |row.counts| && row.counts[k].Some?)
    ensures forall k :: 0 <= k < 6 && cells[k].Some? ==>
      var link := LinkFor(linkFormat, row.spider, historyList[k], resolve);
      cells[k].value == CountCell(row.counts[k].value, link, link.Some? && linkFormat == "geojson" && josmAvailable)
  {
    cells := [];
    for i := 2 to 8
      invariant |cells| == i - 2
      invariant forall k :: 0 <= k < i - 2 ==> (cells[k].Some? <==> k < |row.counts| && row.counts[k].Some?)
      invariant forall k :: 0 <= k < i - 2 && cells[k].Some? ==>
        var link := LinkFor(linkFormat, row.spider, historyList[k], resolve);
        cells[k].value == CountCell(row.counts[k].value, link, link.Some? && linkFormat == "geojson" && josmAvailable)
    {
      var k := i - 2;
      if k < |row.counts| && row.counts[k].Some? {
        var linkUrl := LinkFor(linkFormat, row.spider, historyList[k], resolve);
        var josm := false;
        if linkUrl.Some? {
          josm := linkFormat == "geojson" && josmAvailable;
        }
        cells := cells + [Some(CountCell(row.counts[k].value, linkUrl, josm))];
      } else {
        cells := cells + [None];
      }
    }
  }

  /** `rowCallback` as written assigns to `linkHtml`, which is declared
      nowhere; module code is strict, so that assignment throws a
      ReferenceError. This is the count column (0..5, counting from the first
      count cell) at which the callback as written throws, scanning from
      column `k`: the first cell with a count that gets a link. `None` means
      it runs to the end. */
  function ThrowingColumn(row: SpiderRow, historyList: seq<History.RawRun>, linkFormat: string,
                          resolve: (string, string) -> string, k: nat): (c: Option<nat>)
    requires |row.counts| <= |historyList|
    requires k <= 6
    ensures c.Some? ==>
      && k <= c.value < 6 && c.value < |row.counts| && row.counts[c.value].Some?
      && LinkFor(linkFormat, row.spider, historyList[c.value], resolve).Some?
    ensures c.Some? ==>
      forall j :: k <= j < c.value && j < |row.counts| && row.counts[j].Some? ==>
        LinkFor(linkFormat, row.spider, historyList[j], resolve).None?
    ensures c.None? <==>
      forall j :: k <= j < 6 && j < |row.counts| && row.counts[j].Some? ==>
        LinkFor(linkFormat, row.spider, historyList[j], resolve).None?
    decreases 6 - k
  {
    if k == 6 then None
    else if k < |row.counts| && row.counts[k].Some? && LinkFor(linkFormat, row.spider, historyList[k], resolve).Some?
    then Some(k)
    else ThrowingColumn(row, historyList, linkFormat, resolve, k + 1)
  }

  /** A spider with 3 features in a run whose output URL is known, shown with
      the default GeoJSON links: the callback as written throws at its first
      count cell, where `RowCallback` renders a link. */
  lemma RowCallbackAsWrittenThrows(resolve: (string, string) -> string)
    ensures var run := History.RawRun("r1", map["output_url" := Text("https://data.example/runs/r1/")]);
      ThrowingColumn(SpiderRow("shop", None, [Some(3)]), [run], "geojson", resolve, 0) == Some(0)
  {
    var run := History.RawRun("r1", map["output_url" := Text("https://data.example/runs/r1/")]);
    assert UrlBase(run, "output_url") == Some("https://data.example/runs/r1/");
  }

  /** A spider that produced its maximum count in every run it was in is drawn
      in pure green. */
  lemma PerfectSpiderIsGreen(row: SpiderRow, sqrt: real -> real)
    requires MaxFeatures(Window(row.counts)) > 0
    requires sqrt(0.0) == 0.0
    requires forall x :: 0.0 < x ==> 0.0 < sqrt(x)
    requires forall i :: 0 <= i < |row.counts| && i < NumBuilds && row.counts[i].Some? ==>
      row.counts[i].value == MaxFeatures(Window(row.counts))
    ensures StabilityColour(Some(StabilityScore(Window(row.counts), sqrt))) == Some(Rgb(0.0, 255.0, 0.0))
  {
    StabilityPerfect(Window(row.counts), sqrt);
  }
}
