/**
 * The deployment-task charts of the detail page: a status pie, an action bar
 * chart and a per-day trend line, each fed by a count-per-key reduce over the
 * tasks.
 */
module DeploymentChart {
  import opened Seqs
  import opened Strings
  import opened SoftwareTypes
  import opened Histogram

  /** The status of each task, as the string key the reduce files it under. */
  function StatusKeys(tasks: seq<DeploymentTask>): seq<string> {
    seq(|tasks|, i requires 0 <= i < |tasks| => tasks[i].taskStatus.Name())
  }

  /** The action of each task, as the string key the reduce files it under. */
  function ActionKeys(tasks: seq<DeploymentTask>): seq<string> {
    seq(|tasks|, i requires 0 <= i < |tasks| => tasks[i].action.Name())
  }

  /**
   * `task.updateDate.split(' ')[0]`: the date part of "YYYY-MM-DD HH:MM:SS",
   * that is, the text before the first space, or the whole string when it has
   * no space.
   */
  function TaskDay(task: DeploymentTask): (day: string)
    ensures day <= task.updateDate && ' ' !in day
    ensures day == task.updateDate || task.updateDate[|day|] == ' '
  {
    PrefixBefore(task.updateDate, ' ')
  }

  /** The day of each task. */
  function TaskDays(tasks: seq<DeploymentTask>): seq<string> {
    seq(|tasks|, i requires 0 <= i < |tasks| => TaskDay(tasks[i]))
  }

  /** The grey that `getStatusColor` falls back to. */
  const DefaultStatusColor := "#6b7280"

  /**
   * `getStatusColor`: a colour of its own for each of the four statuses and
   * grey for any other string.
   */
  function StatusColor(status: string): (color: string)
    ensures status !in StatusNames <==> color == DefaultStatusColor
  {
    if status == "SUCCEED" then "#10b981"
    else if status == "FAILED" then "#ef4444"
    else if status == "PENDING" then "#f59e0b"
    else if status == "RUNNING" then "#3b82f6"
    else DefaultStatusColor
  }

  /** No two statuses share a colour. */
  lemma StatusColorsDistinct(a: TaskStatus, b: TaskStatus)
    requires a != b
    ensures StatusColor(a.Name()) != StatusColor(b.Name())
  {
    var ca, cb := StatusColor(a.Name()), StatusColor(b.Name());
    assert ca[1] != cb[1] || ca[2] != cb[2];
  }

  /** `ACTION_COLORS`. */
  const ActionColors: seq<string> := ["#8884d8", "#82ca9d", "#ffc658"]

  /** One slice of the status pie. */
  datatype StatusSlice = StatusSlice(status: string, count: nat, color: string)

  /** One bar of the action chart, with the fill its `Cell` gets. */
  datatype ActionBar = ActionBar(action: string, count: nat, color: string)

  /**
   * `statusData`: one slice per histogram entry, with its status and count,
   * coloured by `getStatusColor` of its status, so grey exactly when the
   * status is none of the four.
   */
  function StatusData(stats: Histogram<string>): (d: seq<StatusSlice>)
    ensures |d| == |stats|
    ensures forall i :: 0 <= i < |d| ==> d[i].status == stats[i].0 && d[i].count == stats[i].1
    ensures forall i :: 0 <= i < |d| ==> d[i].color == StatusColor(d[i].status)
    ensures forall i :: 0 <= i < |d| ==> (d[i].color == DefaultStatusColor <==> d[i].status !in StatusNames)
  {
    seq(|stats|, i requires 0 <= i < |stats| => StatusSlice(stats[i].0, stats[i].1, StatusColor(stats[i].0)))
  }

  /** The three action colours are pairwise different. */
  lemma ActionColorsDistinct(a: nat, b: nat)
    requires a < 3 && b < 3 && a != b
    ensures ActionColors[a] != ActionColors[b]
  {
    var x, y := ActionColors[a], ActionColors[b];
    assert x[1] != y[1] || x[2] != y[2];
  }

  /**
   * `actionData`: one bar per histogram entry, with its action and count;
   * bar i is filled `ACTION_COLORS[i % 3]`, so neighbouring bars differ.
   */
  function ActionData(stats: Histogram<string>): (d: seq<ActionBar>)
    ensures |d| == |stats|
    ensures forall i :: 0 <= i < |d| ==> d[i].action == stats[i].0 && d[i].count == stats[i].1
    ensures forall i :: 0 <= i < |d| ==> d[i].color == ActionColors[i % 3]
    ensures forall i :: 0 < i < |d| ==> d[i].color != d[i - 1].color
  {
    var d := seq(|stats|, i requires 0 <= i < |stats| => ActionBar(stats[i].0, stats[i].1, ActionColors[i % |ActionColors|]));
    forall i | 0 < i < |d| ensures d[i].color != d[i - 1].color {
      ActionColorsDistinct(i % 3, (i - 1) % 3);
    }
    d
  }

  /**
   * `dailyData`: the entries sorted by day; the points show the sorted
   * histogram, so its entries rearranged, each exactly as often, in ascending
   * day order.
   */
  function DailyData(stats: Histogram<string>): (d: seq<DayPoint>)
    ensures |d| == |stats|
    ensures DayEntries(d) == SortByKey(stats)
    ensures multiset(DayEntries(d)) == multiset(stats)
    ensures forall i, j :: 0 <= i < j < |d| ==> LexLe(d[i].date, d[j].date)
    ensures forall i :: 0 <= i < |d| ==> (d[i].date, d[i].count) in stats
  {
    var sorted := SortByKey(stats);
    PermutationMembers(sorted, stats);
    var d := DayPoints(sorted);
    assert forall i :: 0 <= i < |d| ==> (d[i].date, d[i].count) == DayEntries(d)[i] == sorted[i];
    d
  }

  /** The count a slice, a bar or a point shows. */
  function SliceCount(s: StatusSlice): nat { s.count }

  function BarCount(b: ActionBar): nat { b.count }

  function PointCount(p: DayPoint): nat { p.count }

  /** `statusData` of the tasks. */
  function StatusChart(tasks: seq<DeploymentTask>): seq<StatusSlice> {
    StatusData(TallyOf(StatusKeys(tasks)))
  }

  /** `actionData` of the tasks, with the bar fills. */
  function ActionChart(tasks: seq<DeploymentTask>): seq<ActionBar> {
    ActionData(TallyOf(ActionKeys(tasks)))
  }

  /** `dailyData` of the tasks. */
  function DailyChart(tasks: seq<DeploymentTask>): seq<DayPoint> {
    DailyData(TallyOf(TaskDays(tasks)))
  }

  /** The three chart series of the component. */
  datatype Charts = Charts(statusData: seq<StatusSlice>, actionData: seq<ActionBar>, dailyData: seq<DayPoint>)

  /**
   * The component body: three reduces over the tasks, each an accumulation
   * into an object, then the series built from their results.
   */
  method BuildCharts(tasks: seq<DeploymentTask>) returns (charts: Charts)
    ensures charts == Charts(StatusChart(tasks), ActionChart(tasks), DailyChart(tasks))
  {
    var statusStats := Tally(StatusKeys(tasks));
    var actionStats := Tally(ActionKeys(tasks));
    var dailyStats := Tally(TaskDays(tasks));
    charts := Charts(StatusData(statusStats), ActionData(actionStats), DailyData(dailyStats));
  }

  /** The pie's slices add up to the number of tasks, and there are none exactly when there are no tasks. */
  lemma StatusChartTotal(tasks: seq<DeploymentTask>)
    ensures Total(StatusChart(tasks), SliceCount) == |tasks|
    ensures StatusChart(tasks) == [] <==> tasks == []
  {
    var h := TallyOf(StatusKeys(tasks));
    TallyCounts(StatusKeys(tasks));
    TallyEntries(StatusKeys(tasks));
    TotalIsSum(StatusData(h), SliceCount, h);
  }

  /**
   * Each slice counts the tasks with its status and is not empty; its status
   * is one of the four, so it is never grey; no status has two slices.
   */
  lemma StatusChartSlices(tasks: seq<DeploymentTask>)
    ensures var d := StatusChart(tasks);
      && (forall i :: 0 <= i < |d| ==> d[i].count == multiset(StatusKeys(tasks))[d[i].status] && d[i].count >= 1)
      && (forall i :: 0 <= i < |d| ==> d[i].status in StatusNames && d[i].color != DefaultStatusColor)
      && (forall i, j :: 0 <= i < j < |d| ==> d[i].status != d[j].status)
  {
    var ks := StatusKeys(tasks);
    var h := TallyOf(ks);
    TallyKeySet(ks);
    TallyEntries(ks);
    forall i | 0 <= i < |h| ensures h[i].0 in StatusNames {
      assert Keys(h)[i] in ks;
    }
  }

  /** A key of the tallied sequence has an entry in the tally. */
  lemma TallyHasKey(ks: seq<string>, m: nat) returns (i: nat)
    requires m < |ks|
    ensures i < |TallyOf(ks)| && TallyOf(ks)[i].0 == ks[m]
  {
    TallyKeySet(ks);
    assert ks[m] in Keys(TallyOf(ks));
    i :| 0 <= i < |TallyOf(ks)| && Keys(TallyOf(ks))[i] == ks[m];
  }

  /** Every task's status has a slice. */
  lemma StatusChartCovers(tasks: seq<DeploymentTask>)
    ensures var d := StatusChart(tasks);
      forall t :: t in tasks ==> exists i :: 0 <= i < |d| && d[i].status == t.taskStatus.Name()
  {
    var d := StatusChart(tasks);
    forall t | t in tasks ensures exists i :: 0 <= i < |d| && d[i].status == t.taskStatus.Name() {
      var m :| 0 <= m < |tasks| && tasks[m] == t;
      var i := TallyHasKey(StatusKeys(tasks), m);
      assert d[i].status == t.taskStatus.Name();
    }
  }

  /** There are at most four slices, one per status. */
  lemma StatusChartBounded(tasks: seq<DeploymentTask>)
    ensures |StatusChart(tasks)| <= 4
  {
    var ks := StatusKeys(tasks);
    var h := TallyOf(ks);
    TallyKeySet(ks);
    forall i | 0 <= i < |h| ensures Keys(h)[i] in StatusNames {
      assert Keys(h)[i] in ks;
    }
    DistinctWithin(Keys(h), StatusNames);
  }

  /** The bars add up to the number of tasks, and there are none exactly when there are no tasks. */
  lemma ActionChartTotal(tasks: seq<DeploymentTask>)
    ensures Total(ActionChart(tasks), BarCount) == |tasks|
    ensures ActionChart(tasks) == [] <==> tasks == []
  {
    var h := TallyOf(ActionKeys(tasks));
    TallyCounts(ActionKeys(tasks));
    TallyEntries(ActionKeys(tasks));
    TotalIsSum(ActionData(h), BarCount, h);
  }

  /** Each bar counts the tasks with its action and is not empty; no action has two bars. */
  lemma ActionChartBars(tasks: seq<DeploymentTask>)
    ensures var d := ActionChart(tasks);
      && (forall i :: 0 <= i < |d| ==> d[i].count == multiset(ActionKeys(tasks))[d[i].action] && d[i].count >= 1)
      && (forall i, j :: 0 <= i < j < |d| ==> d[i].action != d[j].action)
  {
    TallyKeySet(ActionKeys(tasks));
    TallyEntries(ActionKeys(tasks));
  }

  /** The bars come in the order in which their actions first occur among the tasks. */
  lemma ActionChartOrder(tasks: seq<DeploymentTask>)
    ensures var d, ks := ActionChart(tasks), ActionKeys(tasks);
      && (forall i :: 0 <= i < |d| ==> d[i].action in ks)
      && (forall i, j :: 0 <= i < j < |d| ==> FirstIndex(ks, d[i].action) < FirstIndex(ks, d[j].action))
  {
    var ks := ActionKeys(tasks);
    var d := ActionChart(tasks);
    TallyKeyOrder(ks);
    assert forall i :: 0 <= i < |d| ==> d[i].action == Keys(TallyOf(ks))[i];
  }

  /** Every task's action has a bar. */
  lemma ActionChartCovers(tasks: seq<DeploymentTask>)
    ensures var d := ActionChart(tasks);
      forall t :: t in tasks ==> exists i :: 0 <= i < |d| && d[i].action == t.action.Name()
  {
    var d := ActionChart(tasks);
    forall t | t in tasks ensures exists i :: 0 <= i < |d| && d[i].action == t.action.Name() {
      var m :| 0 <= m < |tasks| && tasks[m] == t;
      var i := TallyHasKey(ActionKeys(tasks), m);
      assert d[i].action == t.action.Name();
    }
  }

  /**
   * There are at most three bars, one per action; bar i is filled
   * `ACTION_COLORS[i % 3]`, so neighbouring bars never share a colour.
   */
  lemma ActionChartColors(tasks: seq<DeploymentTask>)
    ensures var d := ActionChart(tasks);
      && |d| <= 3
      && (forall i :: 0 <= i < |d| ==> d[i].color == ActionColors[i % 3])
      && (forall i :: 0 < i < |d| ==> d[i].color != d[i - 1].color)
  {
    var ks := ActionKeys(tasks);
    var h := TallyOf(ks);
    var d := ActionChart(tasks);
    TallyKeySet(ks);
    forall i | 0 <= i < |h| ensures Keys(h)[i] in ActionNames {
      assert Keys(h)[i] in ks;
    }
    DistinctWithin(Keys(h), ActionNames);
  }

  /**
   * The trend line: the points add up to the number of tasks and are in
   * strictly ascending day order, one per distinct day.
   */
  lemma DailyChartSeries(tasks: seq<DeploymentTask>)
    ensures var d := DailyChart(tasks);
      && Total(d, PointCount) == |tasks|
      && (forall i, j :: 0 <= i < j < |d| ==> LexLe(d[i].date, d[j].date) && d[i].date != d[j].date)
      && |d| == |set k | k in TaskDays(tasks)|
  {
    var ks := TaskDays(tasks);
    var sorted := SortByKey(TallyOf(ks));
    var d := DailyChart(tasks);
    SortedTally(ks);
    assert DayEntries(d) == sorted;
    TotalIsSum(d, PointCount, sorted);
  }

  /** Each point of the trend line counts the tasks updated on its day, and is not empty. */
  lemma DailyChartCounts(tasks: seq<DeploymentTask>)
    ensures var d := DailyChart(tasks);
      forall i :: 0 <= i < |d| ==> d[i].count == multiset(TaskDays(tasks))[d[i].date] && d[i].count >= 1
  {
    var ks := TaskDays(tasks);
    var sorted := SortByKey(TallyOf(ks));
    var d := DailyChart(tasks);
    forall i | 0 <= i < |d| ensures d[i].count == multiset(ks)[d[i].date] && d[i].count >= 1 {
      assert d[i].date == sorted[i].0 && d[i].count == sorted[i].1;
      SortedTallyEntry(ks, i);
    }
  }

  /** Every task's day has a point. */
  lemma DailyChartCovers(tasks: seq<DeploymentTask>)
    ensures var d := DailyChart(tasks);
      forall t :: t in tasks ==> exists i :: 0 <= i < |d| && d[i].date == TaskDay(t)
  {
    var ks := TaskDays(tasks);
    var sorted := SortByKey(TallyOf(ks));
    var d := DailyChart(tasks);
    forall t | t in tasks ensures exists i :: 0 <= i < |d| && d[i].date == TaskDay(t) {
      var m :| 0 <= m < |tasks| && tasks[m] == t;
      TallyKeySet(ks);
      assert ks[m] in Keys(sorted);
      var i :| 0 <= i < |sorted| && Keys(sorted)[i] == ks[m];
      assert d[i].date == TaskDay(t);
    }
  }
}
