/**
 * The records the dashboard receives: software releases, per-host deployment
 * tasks with their closed `action` and `taskStatus` enumerations, and the
 * status envelope every data-source call returns.
 */
module SoftwareTypes {

  /** An optional value: an optional field, a parse that may fail, a missing response. */
  datatype Option<+T> = None | Some(value: T)

  /** A published software release; `publishedAt` is an ISO-8601 timestamp. */
  datatype Software = Software(
    softwareId: string,
    version: string,
    name: string,
    owner: string,
    publishedAt: string)

  /** `'install' | 'uninstall' | 'update'`. */
  datatype Action = Install | Uninstall | Update {
    /** The string literal that stands for the action. */
    function Name(): (s: string)
      ensures s in ActionNames
    {
      match this
      case Install => "install"
      case Uninstall => "uninstall"
      case Update => "update"
    }
  }

  /** `'SUCCEED' | 'FAILED' | 'PENDING' | 'RUNNING'`. */
  datatype TaskStatus = Succeed | Failed | Pending | Running {
    /** The string literal that stands for the status. */
    function Name(): (s: string)
      ensures s in StatusNames
    {
      match this
      case Succeed => "SUCCEED"
      case Failed => "FAILED"
      case Pending => "PENDING"
      case Running => "RUNNING"
    }
  }

  const ActionNames: set<string> := {"install", "uninstall", "update"}
  const StatusNames: set<string> := {"SUCCEED", "FAILED", "PENDING", "RUNNING"}

  /** One install, uninstall or update attempt on one host; `updateDate` is "YYYY-MM-DD HH:MM:SS". */
  datatype DeploymentTask = DeploymentTask(
    taskId: string,
    hostname: string,
    owner: string,
    action: Action,
    taskStatus: TaskStatus,
    updateDate: string)

  /** `'SUCCESS' | 'ERROR'`. */
  datatype ResponseStatus = Success | Error

  /** The envelope of every data-source call: the payload is always present. */
  datatype ApiResponse<T> = ApiResponse(status: ResponseStatus, errMsg: string, data: T)

  /**
   * Which strings the `action` literal union admits: exactly the three action
   * names, each standing for one action.
   */
  function ParseAction(s: string): (r: Option<Action>)
    ensures r.Some? <==> s in ActionNames
    ensures r.Some? ==> r.value.Name() == s
  {
    if s == "install" then Some(Install)
    else if s == "uninstall" then Some(Uninstall)
    else if s == "update" then Some(Update)
    else None
  }

  /**
   * Which strings the `taskStatus` literal union admits: exactly the four
   * status names, each standing for one status.
   */
  function ParseStatus(s: string): (r: Option<TaskStatus>)
    ensures r.Some? <==> s in StatusNames
    ensures r.Some? ==> r.value.Name() == s
  {
    if s == "SUCCEED" then Some(Succeed)
    else if s == "FAILED" then Some(Failed)
    else if s == "PENDING" then Some(Pending)
    else if s == "RUNNING" then Some(Running)
    else None
  }

  /** Distinct actions have distinct names, and parsing a name gives its action back. */
  lemma ActionNamesRoundTrip(a: Action, b: Action)
    ensures ParseAction(a.Name()) == Some(a)
    ensures a != b ==> a.Name() != b.Name()
  {
    assert ParseAction(a.Name()).value.Name() == a.Name();
  }

  /** Distinct statuses have distinct names, and parsing a name gives its status back. */
  lemma StatusNamesRoundTrip(a: TaskStatus, b: TaskStatus)
    ensures ParseStatus(a.Name()) == Some(a)
    ensures a != b ==> a.Name() != b.Name()
  {
    assert ParseStatus(a.Name()).value.Name() == a.Name();
  }
}
