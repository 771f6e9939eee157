/**
 * The deployment detail page: the software id being searched and the guard
 * on searching it, the tasks taken from the response, the task counters, and
 * the badge classes of the table rows.
 */
module SoftwareDetail {
  import opened Seqs
  import opened Strings
  import opened SoftwareTypes
  import opened DeploymentChart

  /** `softwareId || ''`: the route parameter, or nothing. */
  function InitialSearchId(softwareId: Option<string>): (id: string)
    ensures softwareId.Some? ==> id == softwareId.value
    ensures id == "" <==> softwareId.None? || softwareId.value == ""
  {
    match softwareId
    case None => ""
    case Some(s) => s
  }

  /**
   * `enabled: !!searchId`: the query runs automatically for any non-empty
   * id, so in particular for every id that can be searched.
   */
  predicate QueryEnabled(searchId: string)
    ensures CanSearch(searchId) ==> QueryEnabled(searchId)
  {
    searchId != ""
  }

  /**
   * `searchId.trim()` is truthy: the id has a character other than white
   * space. This both guards `handleSearch` and enables the search button.
   */
  function CanSearch(searchId: string): (b: bool)
    ensures b <==> exists i :: 0 <= i < |searchId| && !IsTrimmable(searchId[i])
  {
    Trim(searchId) != []
  }

  /** A blank id enables the query although the search button stays disabled. */
  lemma BlankIdQueriesButCannotSearch()
    ensures QueryEnabled(" ") && !CanSearch(" ")
  {
    assert IsTrimmable(" "[0]);
  }

  /**
   * `response?.data || []`: the payload whenever there is a response, an
   * error response included (its payload is an array, which is truthy even
   * when empty), and no tasks when there is none.
   */
  function TasksOf(response: Option<ApiResponse<seq<DeploymentTask>>>): (tasks: seq<DeploymentTask>)
    ensures response.None? ==> tasks == []
    ensures response.Some? ==> tasks == response.value.data
  {
    match response
    case None => []
    case Some(r) => r.data
  }

  /** The predicate of `t => t.taskStatus === st`. */
  function StatusIs(st: TaskStatus): DeploymentTask -> bool {
    (t: DeploymentTask) => t.taskStatus == st
  }

  /** The predicate of `t => t.taskStatus === 'PENDING' || t.taskStatus === 'RUNNING'`. */
  function InProgress(): DeploymentTask -> bool {
    (t: DeploymentTask) => t.taskStatus == Pending || t.taskStatus == Running
  }

  /** The four counter cards. */
  datatype TaskSummary = TaskSummary(total: nat, success: nat, failed: nat, pending: nat)

  /**
   * `totalTasks`, `successTasks`, `failedTasks`, `pendingTasks`: the last
   * three split the tasks, so they add up to the first.
   */
  function Summarize(tasks: seq<DeploymentTask>): (s: TaskSummary)
    ensures s.total == |tasks|
    ensures s.success + s.failed + s.pending == s.total
  {
    CountsPartition(tasks);
    TaskSummary(|tasks|, |Filter(tasks, StatusIs(Succeed))|, |Filter(tasks, StatusIs(Failed))|, |Filter(tasks, InProgress())|)
  }

  /** Every task is counted by exactly one of the three status counters. */
  lemma {:induction false} CountsPartition(tasks: seq<DeploymentTask>)
    ensures |Filter(tasks, StatusIs(Succeed))| + |Filter(tasks, StatusIs(Failed))| + |Filter(tasks, InProgress())| == |tasks|
  {
    if tasks != [] {
      CountsPartition(tasks[1..]);
      FilterLengthCons(tasks, StatusIs(Succeed));
      FilterLengthCons(tasks, StatusIs(Failed));
      FilterLengthCons(tasks, InProgress());
    }
  }

  /** Counting the tasks with one status is counting its name among the status keys. */
  lemma {:induction false} StatusCount(tasks: seq<DeploymentTask>, st: TaskStatus)
    ensures |Filter(tasks, StatusIs(st))| == multiset(StatusKeys(tasks))[st.Name()]
  {
    if tasks != [] {
      StatusCount(tasks[1..], st);
      var ks, rest := StatusKeys(tasks), StatusKeys(tasks[1..]);
      assert ks == [ks[0]] + rest;
      assert multiset(ks) == multiset{ks[0]} + multiset(rest);
      FilterLengthCons(tasks, StatusIs(st));
      StatusNamesRoundTrip(tasks[0].taskStatus, st);
    }
  }

  /**
   * Without a response, or with an empty payload (the error envelope of the
   * service carries `data: []`), every counter is zero and every chart is
   * empty; conversely the counters are all zero only for an empty payload.
   */
  lemma NoResponseIsEmpty(response: Option<ApiResponse<seq<DeploymentTask>>>)
    ensures Summarize(TasksOf(response)) == TaskSummary(0, 0, 0, 0)
      <==> response.None? || response.value.data == []
    ensures response.None? || response.value.data == [] ==>
      StatusChart(TasksOf(response)) == [] && ActionChart(TasksOf(response)) == []
      && DailyChart(TasksOf(response)) == []
  {
    var tasks := TasksOf(response);
    if tasks == [] {
      assert StatusKeys(tasks) == [] && ActionKeys(tasks) == [] && TaskDays(tasks) == [];
    }
  }

  /** The in-progress counter counts the pending tasks and the running ones. */
  lemma InProgressCount(tasks: seq<DeploymentTask>)
    ensures |Filter(tasks, InProgress())| == |Filter(tasks, StatusIs(Pending))| + |Filter(tasks, StatusIs(Running))|
  {
    FilterCountDisjointUnion(tasks, StatusIs(Pending), StatusIs(Running), InProgress());
  }

  /**
   * The counters agree with the status pie: the success and failure cards
   * show the counts of the SUCCEED and FAILED slices, and the in-progress
   * card the PENDING and RUNNING tasks together.
   */
  lemma SummaryMatchesStatusChart(tasks: seq<DeploymentTask>)
    ensures var s, d := Summarize(tasks), StatusChart(tasks);
      && (forall i :: 0 <= i < |d| && d[i].status == "SUCCEED" ==> d[i].count == s.success)
      && (forall i :: 0 <= i < |d| && d[i].status == "FAILED" ==> d[i].count == s.failed)
      && s.pending == multiset(StatusKeys(tasks))["PENDING"] + multiset(StatusKeys(tasks))["RUNNING"]
  {
    StatusChartSlices(tasks);
    StatusCount(tasks, Succeed);
    StatusCount(tasks, Failed);
    StatusCount(tasks, Pending);
    StatusCount(tasks, Running);
    InProgressCount(tasks);
  }

  /** The classes every badge starts with. */
  const BaseClasses := "px-2 py-1 rounded text-xs font-medium"

  /** The badge of a value that is not in the known set. */
  const GrayBadge := BaseClasses + " bg-gray-100 text-gray-800"

  /**
   * `getStatusBadge`: the base classes followed by green, red, yellow or
   * blue for the four statuses, and by grey for any other string.
   */
  function StatusBadge(status: string): (cls: string)
    ensures BaseClasses <= cls
    ensures cls == GrayBadge <==> status !in StatusNames
  {
    var colour :=
      if status == "SUCCEED" then " bg-green-100 text-green-800"
      else if status == "FAILED" then " bg-red-100 text-red-800"
      else if status == "PENDING" then " bg-yellow-100 text-yellow-800"
      else if status == "RUNNING" then " bg-blue-100 text-blue-800"
      else " bg-gray-100 text-gray-800";
    assert (BaseClasses + colour)[|BaseClasses| + 5] == colour[5];
    BaseClasses + colour
  }

  /**
   * `getActionBadge`: the base classes followed by green, red or blue for
   * the three actions, and by grey for any other string.
   */
  function ActionBadge(action: string): (cls: string)
    ensures BaseClasses <= cls
    ensures cls == GrayBadge <==> action !in ActionNames
  {
    var colour :=
      if action == "install" then " bg-green-100 text-green-800"
      else if action == "uninstall" then " bg-red-100 text-red-800"
      else if action == "update" then " bg-blue-100 text-blue-800"
      else " bg-gray-100 text-gray-800";
    assert (BaseClasses + colour)[|BaseClasses| + 5] == colour[5];
    BaseClasses + colour
  }

  /** The first letter of the colour name in a status badge. */
  function StatusTone(st: TaskStatus): char {
    match st
    case Succeed => 'g'
    case Failed => 'r'
    case Pending => 'y'
    case Running => 'b'
  }

  /** The first letter of the colour name in an action badge. */
  function ActionTone(a: Action): char {
    match a
    case Install => 'g'
    case Uninstall => 'r'
    case Update => 'b'
  }

  /** A status badge names green, red, yellow or blue right after the base classes and " bg-". */
  lemma StatusBadgeTone(st: TaskStatus)
    ensures |StatusBadge(st.Name())| > |BaseClasses| + 4
    ensures StatusBadge(st.Name())[|BaseClasses| + 4] == StatusTone(st)
  {
    var colour :=
      match st
      case Succeed => " bg-green-100 text-green-800"
      case Failed => " bg-red-100 text-red-800"
      case Pending => " bg-yellow-100 text-yellow-800"
      case Running => " bg-blue-100 text-blue-800";
    assert StatusBadge(st.Name()) == BaseClasses + colour;
    assert (BaseClasses + colour)[|BaseClasses| + 4] == colour[4];
  }

  /** An action badge names green, red or blue right after the base classes and " bg-". */
  lemma ActionBadgeTone(a: Action)
    ensures |ActionBadge(a.Name())| > |BaseClasses| + 4
    ensures ActionBadge(a.Name())[|BaseClasses| + 4] == ActionTone(a)
  {
    var colour :=
      match a
      case Install => " bg-green-100 text-green-800"
      case Uninstall => " bg-red-100 text-red-800"
      case Update => " bg-blue-100 text-blue-800";
    assert ActionBadge(a.Name()) == BaseClasses + colour;
    assert (BaseClasses + colour)[|BaseClasses| + 4] == colour[4];
  }

  /** Different statuses get different badges, and so do different actions. */
  lemma BadgesDistinct(a: TaskStatus, b: TaskStatus, x: Action, y: Action)
    ensures a != b ==> StatusBadge(a.Name()) != StatusBadge(b.Name())
    ensures x != y ==> ActionBadge(x.Name()) != ActionBadge(y.Name())
  {
    StatusBadgeTone(a);
    StatusBadgeTone(b);
    ActionBadgeTone(x);
    ActionBadgeTone(y);
  }

  /**
   * Every task's action and status are among the known values, so no row
   * of the task table gets the grey badge.
   */
  lemma TaskBadgesNeverGray(t: DeploymentTask)
    ensures ActionBadge(t.action.Name()) != GrayBadge
    ensures StatusBadge(t.taskStatus.Name()) != GrayBadge
  {
  }
}
