/**
 * The charts of the software list: a bar and a pie chart of how many
 * releases each owner has, and a trend line of releases per publication day
 * limited to the latest seven days that have any.
 */
module SoftwareChart {
  import opened Seqs
  import opened Strings
  import opened SoftwareTypes
  import opened Histogram
  import opened SoftwareList

  /** The publication day of each release, the key of `dailyStats`. */
  function PublishDays(softwares: seq<Software>): seq<string> {
    seq(|softwares|, i requires 0 <= i < |softwares| => PublishDay(softwares[i]))
  }

  /** One bar: the label cut to ten characters, the full owner for the tooltip, and the count. */
  datatype OwnerBar = OwnerBar(owner: string, fullOwner: string, count: nat)

  /** One pie slice: the label cut to eight characters, the count and the fill. */
  datatype OwnerSlice = OwnerSlice(name: string, value: nat, color: string)

  /** `COLORS`. */
  const PieColors: seq<string> := ["#8884d8", "#82ca9d", "#ffc658", "#ff7c7c", "#8dd1e1", "#d084d0"]

  /** The number of trend-line points kept by `slice(-7)`. */
  const LineDays := 7

  /**
   * `barData` of an owner histogram: one bar per entry, keeping the full
   * owner for the tooltip and its count, labelled with the owner cut to ten
   * characters, so no label is longer than thirteen.
   */
  function BarData(stats: Histogram<string>): (d: seq<OwnerBar>)
    ensures |d| == |stats|
    ensures forall i :: 0 <= i < |d| ==> d[i].fullOwner == stats[i].0 && d[i].count == stats[i].1
    ensures forall i :: 0 <= i < |d| ==> d[i].owner == Ellipsize(d[i].fullOwner, 10) && |d[i].owner| <= 13
  {
    seq(|stats|, i requires 0 <= i < |stats| => OwnerBar(Ellipsize(stats[i].0, 10), stats[i].0, stats[i].1))
  }

  /**
   * `pieData` of an owner histogram: one slice per entry with its count,
   * labelled with the owner cut to eight characters, so no label is longer
   * than eleven; slice i is filled `COLORS[i % 6]`.
   */
  function PieData(stats: Histogram<string>): (d: seq<OwnerSlice>)
    ensures |d| == |stats|
    ensures forall i :: 0 <= i < |d| ==> d[i].value == stats[i].1 && d[i].name == Ellipsize(stats[i].0, 8)
    ensures forall i :: 0 <= i < |d| ==> |d[i].name| <= 11 && d[i].color == PieColors[i % 6]
  {
    seq(|stats|, i requires 0 <= i < |stats| => OwnerSlice(Ellipsize(stats[i].0, 8), stats[i].1, PieColors[i % |PieColors|]))
  }

  /**
   * The trend line of a day histogram: at most seven points, showing the last
   * entries of the sorted histogram, in ascending day order, each an entry of
   * the histogram.
   */
  lemma LineKept(stats: Histogram<string>)
    ensures var all := SortByKey(stats); var d := DayPoints(LastN(all, LineDays));
      && |d| == (if |stats| <= LineDays then |stats| else LineDays)
      && |d| <= |all| && DayEntries(d) == all[|all| - |d|..]
      && (forall i, j :: 0 <= i < j < |d| ==> LexLe(d[i].date, d[j].date))
      && (forall i :: 0 <= i < |d| ==> (d[i].date, d[i].count) in stats)
  {
    var all := SortByKey(stats);
    PermutationMembers(all, stats);
    var kept := LastN(all, LineDays);
    var d := DayPoints(kept);
    var off := |all| - |kept|;
    AscendingTail(all, off);
    forall i | 0 <= i < |d| ensures (d[i].date, d[i].count) == kept[i] == all[off + i] {
      assert DayEntries(d)[i] == kept[i];
    }
  }

  /**
   * `lineData` of a day histogram: sorted by day, then the last seven. The
   * points show the last min(7, entries) entries of the sorted histogram, in
   * ascending day order, each an entry of the histogram.
   */
  function LineData(stats: Histogram<string>): (d: seq<DayPoint>)
    ensures |d| == if |stats| <= LineDays then |stats| else LineDays
    ensures var all := SortByKey(stats); |d| <= |all| && DayEntries(d) == all[|all| - |d|..]
    ensures forall i, j :: 0 <= i < j < |d| ==> LexLe(d[i].date, d[j].date)
    ensures forall i :: 0 <= i < |d| ==> (d[i].date, d[i].count) in stats
  {
    LineKept(stats);
    DayPoints(LastN(SortByKey(stats), LineDays))
  }

  function BarChart(softwares: seq<Software>): seq<OwnerBar> {
    BarData(TallyOf(OwnerNames(softwares)))
  }

  function PieChart(softwares: seq<Software>): seq<OwnerSlice> {
    PieData(TallyOf(OwnerNames(softwares)))
  }

  function LineChart(softwares: seq<Software>): seq<DayPoint> {
    LineData(TallyOf(PublishDays(softwares)))
  }

  /** The count a bar shows. */
  function OwnerCount(b: OwnerBar): nat { b.count }

  /** The three chart series of the component. */
  datatype Charts = Charts(barData: seq<OwnerBar>, pieData: seq<OwnerSlice>, lineData: seq<DayPoint>)

  /**
   * The component body: the owner reduce and the day reduce, each an
   * accumulation into an object, then the series built from their results.
   */
  method BuildCharts(softwares: seq<Software>) returns (charts: Charts)
    ensures charts == Charts(BarChart(softwares), PieChart(softwares), LineChart(softwares))
  {
    var ownerStats := Tally(OwnerNames(softwares));
    var dailyStats := Tally(PublishDays(softwares));
    charts := Charts(BarData(ownerStats), PieData(ownerStats), LineData(dailyStats));
  }

  /**
   * The bar chart has one bar per distinct owner, as many as the list's
   * owner count, and the bars add up to the number of releases. Each bar
   * counts its owner's releases and is not empty; its label is the owner cut
   * to ten characters (and an ellipsis), so at most thirteen long.
   */
  lemma BarChartBars(softwares: seq<Software>)
    ensures var d := BarChart(softwares);
      && |d| == UniqueOwners(softwares)
      && Total(d, OwnerCount) == |softwares|
      && (forall i, j :: 0 <= i < j < |d| ==> d[i].fullOwner != d[j].fullOwner)
      && (forall i :: 0 <= i < |d| ==> d[i].count == multiset(OwnerNames(softwares))[d[i].fullOwner] && d[i].count >= 1)
      && (forall i :: 0 <= i < |d| ==> d[i].owner == Ellipsize(d[i].fullOwner, 10) && |d[i].owner| <= 13)
  {
    var ks := OwnerNames(softwares);
    var h := TallyOf(ks);
    TallyKeySet(ks);
    TallyCounts(ks);
    TallyEntries(ks);
    TotalIsSum(BarChart(softwares), OwnerCount, h);
  }

  /** The bars come in the order the owners first occur, and every release's owner has one. */
  lemma BarChartOrder(softwares: seq<Software>)
    ensures var d := BarChart(softwares);
      && InFirstOccurrenceOrder(seq(|d|, i requires 0 <= i < |d| => d[i].fullOwner), OwnerNames(softwares))
      && (forall o :: o in OwnerNames(softwares) <==> exists i :: 0 <= i < |d| && d[i].fullOwner == o)
  {
    var ks := OwnerNames(softwares);
    var d := BarChart(softwares);
    var h := TallyOf(ks);
    TallyKeys(ks);
    assert seq(|d|, i requires 0 <= i < |d| => d[i].fullOwner) == Keys(h);
    forall o ensures o in ks <==> exists i :: 0 <= i < |d| && d[i].fullOwner == o {
      if o in ks {
        var i :| 0 <= i < |h| && Keys(h)[i] == o;
        assert d[i].fullOwner == o;
      }
      if exists i :: 0 <= i < |d| && d[i].fullOwner == o {
        var i :| 0 <= i < |d| && d[i].fullOwner == o;
        assert Keys(h)[i] == o;
      }
    }
  }

  /**
   * The pie has a slice for each bar, in the same order and with the same
   * count; its label is the owner cut to eight characters; slice i is filled
   * `COLORS[i % 6]`, so slices fewer than six apart never share a colour.
   */
  lemma PieChartSlices(softwares: seq<Software>)
    ensures var pie, bar := PieChart(softwares), BarChart(softwares);
      && |pie| == |bar|
      && (forall i :: 0 <= i < |pie| ==> pie[i].value == bar[i].count && pie[i].name == Ellipsize(bar[i].fullOwner, 8))
      && (forall i :: 0 <= i < |pie| ==> |pie[i].name| <= 11 && pie[i].color == PieColors[i % 6])
      && (forall i, j :: 0 <= i < j < |pie| && j - i < 6 ==> pie[i].color != pie[j].color)
  {
    var pie := PieChart(softwares);
    forall i, j | 0 <= i < j < |pie| && j - i < 6 ensures pie[i].color != pie[j].color {
      PieColorsDistinct(i % 6, j % 6);
    }
  }

  /** The six pie colours are pairwise different. */
  lemma PieColorsDistinct(a: nat, b: nat)
    requires a < 6 && b < 6 && a != b
    ensures PieColors[a] != PieColors[b]
  {
    var x, y := PieColors[a], PieColors[b];
    assert x[1] != y[1] || x[2] != y[2] || x[3] != y[3];
  }

  /**
   * Points showing the tail of a strictly ascending series: each shows its
   * entry of the tail, their days strictly ascend, and every day of the
   * series left out comes before every day shown.
   */
  lemma LatestOfSorted(all: Histogram<string>, d: seq<DayPoint>)
    requires Ascending(all) && DistinctKeys(all)
    requires |d| <= |all| && DayEntries(d) == all[|all| - |d|..]
    ensures forall i :: 0 <= i < |d| ==> d[i] == DayPoint(all[|all| - |d| + i].0, all[|all| - |d| + i].1)
    ensures forall i, j :: 0 <= i < j < |d| ==> LexLe(d[i].date, d[j].date) && d[i].date != d[j].date
    ensures forall j, i :: 0 <= j < |all| - |d| && 0 <= i < |d| ==> LexLe(all[j].0, d[i].date) && all[j].0 != d[i].date
  {
    forall i | 0 <= i < |d| ensures d[i] == DayPoint(all[|all| - |d| + i].0, all[|all| - |d| + i].1) {
      assert DayEntries(d)[i] == all[|all| - |d| + i];
    }
  }

  /**
   * The trend line has at most seven points, one per distinct day, and all
   * of them when there are at most seven days; its days strictly ascend.
   */
  lemma LineChartPoints(softwares: seq<Software>)
    ensures var d, days := LineChart(softwares), |set k | k in PublishDays(softwares)|;
      && |d| == (if days <= LineDays then days else LineDays)
      && (forall i, j :: 0 <= i < j < |d| ==> LexLe(d[i].date, d[j].date) && d[i].date != d[j].date)
  {
    var ks := PublishDays(softwares);
    SortedTally(ks);
    LatestOfSorted(SortByKey(TallyOf(ks)), LineChart(softwares));
  }

  /** Each point of the trend line counts the releases published on its day. */
  lemma LineChartCounts(softwares: seq<Software>)
    ensures var d := LineChart(softwares);
      forall i :: 0 <= i < |d| ==> d[i].count == multiset(PublishDays(softwares))[d[i].date] && d[i].count >= 1
  {
    var ks := PublishDays(softwares);
    var all := SortByKey(TallyOf(ks));
    var d := LineChart(softwares);
    assert |d| <= |all| && DayEntries(d) == all[|all| - |d|..];
    forall i | 0 <= i < |d| ensures d[i].count == multiset(ks)[d[i].date] && d[i].count >= 1 {
      var k := |all| - |d| + i;
      assert (d[i].date, d[i].count) == DayEntries(d)[i] == all[k];
      SortedTallyEntry(ks, k);
    }
  }

  /**
   * `slice(-7)` keeps the latest days: the line is the tail of the full
   * sorted series, and every day it drops comes before every day it keeps.
   */
  lemma LineChartKeepsLatest(softwares: seq<Software>)
    ensures var d, all := LineChart(softwares), SortByKey(TallyOf(PublishDays(softwares)));
      && (forall i :: 0 <= i < |d| ==> d[i] == DayPoint(all[|all| - |d| + i].0, all[|all| - |d| + i].1))
      && (forall j, i :: 0 <= j < |all| - |d| && 0 <= i < |d| ==> LexLe(all[j].0, d[i].date) && all[j].0 != d[i].date)
  {
    SortedTally(PublishDays(softwares));
    LatestOfSorted(SortByKey(TallyOf(PublishDays(softwares))), LineChart(softwares));
  }

  /** The reduce over the keys a, b, a, c, step by step. */
  lemma TallyABAC(a: string, b: string, c: string)
    requires a != b && a != c && b != c
    ensures TallyOf([a, b, a, c]) == [(a, 2), (b, 1), (c, 1)]
  {
    var h1: Histogram<string> := [(a, 1)];
    var h2: Histogram<string> := [(a, 1), (b, 1)];
    var h3: Histogram<string> := [(a, 2), (b, 1)];
    assert [a][..0] == [] && [a, b][..1] == [a] && [a, b, a][..2] == [a, b] && [a, b, a, c][..3] == [a, b, a];
    BumpAppends([], a);
    assert TallyOf([a]) == h1;
    BumpAppends(h1, b);
    assert TallyOf([a, b]) == h2;
    BumpInPlace(h2, a, 0);
    assert TallyOf([a, b, a]) == h3;
    BumpAppends(h3, c);
  }

  /**
   * Owners in the order a, b, a, c give the counts 2, 1, 1 in that order:
   * the repeated owner is counted twice at its first position.
   */
  lemma OwnerStatsScenario(s: seq<Software>)
    requires |s| == 4 && s[0].owner == s[2].owner
    requires s[0].owner != s[1].owner && s[0].owner != s[3].owner && s[1].owner != s[3].owner
    ensures TallyOf(OwnerNames(s)) == [(s[0].owner, 2), (s[1].owner, 1), (s[3].owner, 1)]
  {
    assert OwnerNames(s) == [s[0].owner, s[1].owner, s[0].owner, s[3].owner];
    TallyABAC(s[0].owner, s[1].owner, s[3].owner);
  }
}
