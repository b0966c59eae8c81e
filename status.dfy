/**
 * The status side of the systemd controller (src/controller/linux.rs):
 * the normalised service states, the `ServiceStatus` record, and the pure
 * part of `get_status` that turns the outputs of three `systemctl` queries
 * into a status.
 */
module Status {
  import opened Wrappers
  import opened Text
  import opened Lib

  datatype ActiveState = Running | Exited | Waiting | Dead

  datatype InactiveState = Dead | Exited | Waiting | Resetting

  datatype ServiceState = Active(active: ActiveState) | Inactive(inactive: InactiveState)

  datatype ServiceStatus = ServiceStatus(
    state: ServiceState,
    cmdline: string,
    pid: u32,
    isFailed: bool,
    details: string)
  {
    /** `is_active`. */
    predicate IsActive()
      ensures IsActive() <==> state.Active?
    {
      match state
      case Active(_) => true
      case Inactive(_) => false
    }

    /** `is_inactive`. */
    predicate IsInactive()
      ensures IsInactive() <==> !IsActive()
    {
      match state
      case Active(_) => false
      case Inactive(_) => true
    }

    /** `is_running`: active, and in the running sub-state. */
    predicate IsRunning()
      ensures IsRunning() ==> IsActive()
      ensures IsRunning() <==> state == Active(ActiveState.Running)
    {
      match state
      case Active(a) => a == ActiveState.Running
      case Inactive(_) => false
    }
  }

  /** The marker that selects the active branch. It is also a substring of
      `"inactive ("`. */
  const ActiveMarker: string := "active ("

  /** The sub-state markers of each branch, in the order they are tried. */
  const ActiveTable: seq<(string, ActiveState)> := [
    (" (running)", ActiveState.Running),
    (" (exited)", ActiveState.Exited),
    (" (waiting)", ActiveState.Waiting),
    (" (dead)", ActiveState.Dead)]

  const InactiveTable: seq<(string, InactiveState)> := [
    (" (dead)", InactiveState.Dead),
    (" (exited)", InactiveState.Exited),
    (" (waiting)", InactiveState.Waiting),
    (" (resetting)", InactiveState.Resetting)]

  /** The message of the error for an unrecognised status text. */
  function InvalidState(text: string): Error
  {
    NewError("Invalid ActiveState : " + text)
  }

  /** The sub-state classification inside `get_status`: an ordered chain of
      substring tests on the output of `systemctl status`. */
  function Classify(text: string): (r: Result<ServiceState, Error>)
    ensures r.Err? ==> r.error == InvalidState(text)
    ensures r.Ok? ==> (r.value.Active? <==> Contains(text, ActiveMarker))
    ensures r.Ok? && r.value == Active(ActiveState.Running) ==> Contains(text, " (running)")
  {
    if Contains(text, "active (") then
      if Contains(text, " (running)") then Ok(Active(ActiveState.Running))
      else if Contains(text, " (exited)") then Ok(Active(ActiveState.Exited))
      else if Contains(text, " (waiting)") then Ok(Active(ActiveState.Waiting))
      else if Contains(text, " (dead)") then Ok(Active(ActiveState.Dead))
      else Err(NewError("Invalid ActiveState : " + text))
    else
      if Contains(text, " (dead)") then Ok(Inactive(InactiveState.Dead))
      else if Contains(text, " (exited)") then Ok(Inactive(InactiveState.Exited))
      else if Contains(text, " (waiting)") then Ok(Inactive(InactiveState.Waiting))
      else if Contains(text, " (resetting)") then Ok(Inactive(InactiveState.Resetting))
      else Err(NewError("Invalid ActiveState : " + text))
  }

  /** The index of the first entry of `table` whose marker occurs in
      `text`, or `|table|` when none does. */
  function FirstMatch<V>(text: string, table: seq<(string, V)>): (k: nat)
    ensures k <= |table|
    ensures k < |table| ==> Contains(text, table[k].0)
    ensures forall j :: 0 <= j < k ==> !Contains(text, table[j].0)
  {
    if |table| == 0 then 0
    else if Contains(text, table[0].0) then 0
    else
      var k := FirstMatch(text, table[1..]);
      assert forall j :: 1 <= j < |table| ==> table[j] == table[1..][j - 1];
      k + 1
  }

  /** The status classification as a priority table: pick the branch by
      `ActiveMarker`, then take the value of the first marker of that
      branch's table that occurs in the text. */
  function ClassifyByTable(text: string): Result<ServiceState, Error>
  {
    if Contains(text, ActiveMarker) then
      var k := FirstMatch(text, ActiveTable);
      if k < |ActiveTable| then Ok(Active(ActiveTable[k].1)) else Err(InvalidState(text))
    else
      var k := FirstMatch(text, InactiveTable);
      if k < |InactiveTable| then Ok(Inactive(InactiveTable[k].1)) else Err(InvalidState(text))
  }

  /** The if-chain of `get_status` is the table lookup. */
  lemma ClassifyIsTableLookup(text: string)
    ensures Classify(text) == ClassifyByTable(text)
  {
    var ka, ki := FirstMatch(text, ActiveTable), FirstMatch(text, InactiveTable);
    assert ActiveTable[0].0 == " (running)" && ActiveTable[1].0 == " (exited)";
    assert ActiveTable[2].0 == " (waiting)" && ActiveTable[3].0 == " (dead)";
    assert InactiveTable[0].0 == " (dead)" && InactiveTable[1].0 == " (exited)";
    assert InactiveTable[2].0 == " (waiting)" && InactiveTable[3].0 == " (resetting)";
  }

  /** With the active marker present the result is never an inactive state,
      and the running, exited, waiting and dead markers are tried in this
      priority order. */
  lemma ClassifyActivePriority(text: string)
    requires Contains(text, ActiveMarker)
    ensures Classify(text).Ok? ==> Classify(text).value.Active?
    ensures Contains(text, " (running)") ==> Classify(text) == Ok(Active(ActiveState.Running))
    ensures !Contains(text, " (running)") && Contains(text, " (exited)") ==> Classify(text) == Ok(Active(ActiveState.Exited))
    ensures !Contains(text, " (running)") && !Contains(text, " (exited)") && Contains(text, " (waiting)")
            ==> Classify(text) == Ok(Active(ActiveState.Waiting))
    ensures !Contains(text, " (running)") && !Contains(text, " (exited)") && !Contains(text, " (waiting)")
            && Contains(text, " (dead)")
            ==> Classify(text) == Ok(Active(ActiveState.Dead))
  {
  }

  /** `"inactive ("` contains `"active ("`. */
  lemma InactiveMarkerContainsActiveMarker()
    ensures Contains("inactive (", ActiveMarker)
  {
    ContainsAt("inactive (", ActiveMarker, 2);
  }

  /** A status text reporting `inactive (dead)` takes the active branch: it is
      classified as an active state (`Active(Dead)` unless an earlier active
      marker also occurs), never as `Inactive(Dead)`, and never as an error. */
  lemma InactiveDeadReadsAsActive(text: string)
    requires Contains(text, "inactive (dead)")
    ensures Classify(text).Ok? && Classify(text).value.Active?
    ensures !Contains(text, " (running)") && !Contains(text, " (exited)") && !Contains(text, " (waiting)")
            ==> Classify(text) == Ok(Active(ActiveState.Dead))
  {
    ContainsAt("inactive (dead)", ActiveMarker, 2);
    ContainsTransitive(text, "inactive (dead)", ActiveMarker);
    ContainsAt("inactive (dead)", " (dead)", 8);
    ContainsTransitive(text, "inactive (dead)", " (dead)");
  }

  /** An inactive state is returned only for a text that holds neither
      `"active ("` nor, therefore, `"inactive ("`. */
  lemma InactiveOnlyWithoutMarkers(text: string)
    requires Classify(text).Ok? && Classify(text).value.Inactive?
    ensures !Contains(text, ActiveMarker) && !Contains(text, "inactive (")
  {
    if Contains(text, "inactive (") {
      InactiveMarkerContainsActiveMarker();
      ContainsTransitive(text, "inactive (", ActiveMarker);
    }
  }

  /** Without the active marker the dead, exited, waiting and resetting
      markers are tried in this priority order. */
  lemma ClassifyInactivePriority(text: string)
    requires !Contains(text, ActiveMarker)
    ensures Classify(text).Ok? ==> Classify(text).value.Inactive?
    ensures Contains(text, " (dead)") ==> Classify(text) == Ok(Inactive(InactiveState.Dead))
    ensures !Contains(text, " (dead)") && Contains(text, " (exited)") ==> Classify(text) == Ok(Inactive(InactiveState.Exited))
    ensures !Contains(text, " (dead)") && !Contains(text, " (exited)") && Contains(text, " (waiting)")
            ==> Classify(text) == Ok(Inactive(InactiveState.Waiting))
    ensures !Contains(text, " (dead)") && !Contains(text, " (exited)") && !Contains(text, " (waiting)")
            && Contains(text, " (resetting)")
            ==> Classify(text) == Ok(Inactive(InactiveState.Resetting))
  {
  }

  /** There is no default state: the classification fails exactly when no
      marker of the selected branch occurs, and then reports the whole text. */
  lemma ClassifyFailsOnlyWithoutMarker(text: string)
    ensures Classify(text).Err? <==>
      if Contains(text, ActiveMarker)
      then forall k :: 0 <= k < |ActiveTable| ==> !Contains(text, ActiveTable[k].0)
      else forall k :: 0 <= k < |InactiveTable| ==> !Contains(text, InactiveTable[k].0)
    ensures Classify(text).Err? ==> Classify(text).error.message == "Invalid ActiveState : " + text
  {
    ClassifyIsTableLookup(text);
  }

  /** A status text with a line `active (running)` anywhere in it (such as
      `"   Active: active (running) since ..."`) is classified as `Active(Running)`. */
  lemma ClassifyRunningLine(before: string, after: string)
    ensures Classify(before + "active (running)" + after) == Ok(Active(ActiveState.Running))
  {
    var t := before + "active (running)" + after;
    ContainsMiddle(before, "active (running)", after);
    ContainsAt("active (running)", ActiveMarker, 0);
    ContainsAt("active (running)", " (running)", 6);
    ContainsTransitive(t, "active (running)", ActiveMarker);
    ContainsTransitive(t, "active (running)", " (running)");
  }

  /** A status text such as `"Active: inactive (dead)"`, with no running,
      exited or waiting marker anywhere in it, is classified as
      `Active(Dead)`. */
  lemma ClassifyInactiveDeadLine(before: string, after: string)
    requires var t := before + "inactive (dead)" + after;
             !Contains(t, " (running)") && !Contains(t, " (exited)") && !Contains(t, " (waiting)")
    ensures Classify(before + "inactive (dead)" + after) == Ok(Active(ActiveState.Dead))
  {
    ContainsMiddle(before, "inactive (dead)", after);
    InactiveDeadReadsAsActive(before + "inactive (dead)" + after);
  }

  /** The process id in the output of `systemctl show -p MainPID <unit>`:
      every leading `"MainPID="` is stripped, then surrounding whitespace,
      and the rest is read as a `u32`. `None` stands for the failed parse
      that `get_status` unwraps. */
  function ParseMainPid(output: string): (r: Option<u32>)
    ensures r.Some? ==> var t := Trim(TrimStartMatches(output, "MainPID="));
                        |t| > 0 && (IsDigit(t[0]) || t[0] == '+') && forall i :: 0 < i < |t| ==> IsDigit(t[i])
  {
    ParseU32(Trim(TrimStartMatches(output, "MainPID=")))
  }

  lemma {:induction false} TrimDigitsNewline(d: string)
    requires |d| > 0 && AllDigits(d)
    ensures Trim(d + "\n") == d
  {
    assert !IsWhitespace(d[0]);
    assert TrimStart(d + "\n") == d + "\n";
    assert (d + "\n")[..|d|] == d;
    assert !IsWhitespace(d[|d| - 1]);
  }

  /** The line `systemctl show` prints for a process id reads back as that
      process id. */
  lemma MainPidRoundTrip(pid: u32)
    ensures ParseMainPid("MainPID=" + Decimal(pid as nat) + "\n") == Some(pid)
  {
    var d := Decimal(pid as nat);
    assert !("MainPID=" <= d + "\n") by { assert (d + "\n")[0] == d[0]; }
    assert Repeat("MainPID=", 1) + (d + "\n") == "MainPID=" + d + "\n";
    TrimStartMatchesRepeat("MainPID=", 1, d + "\n");
    TrimDigitsNewline(d);
    ParseDecimal(pid);
  }

  /** The failed flag: the `is-failed` query succeeded and its output says
      `failed`; a failed query counts as not failed. */
  function IsFailed(query: Result<string, Error>): (r: bool)
    ensures r <==> query.Ok? && exists i :: OccursAt(query.value, "failed", i)
  {
    if query.Ok? then Contains(query.value, "failed") else false
  }

  /** Both unwraps of `get_status` succeed: a successful process-id query
      parses as a `u32`, and the command line of that process can be read
      as UTF-8 (`cmdlineOf` is `None` where reading `/proc/<pid>/cmdline`
      fails, as it does for the process id 0 of a unit without a main
      process). `get_status` panics otherwise. */
  predicate Unwraps(pidQuery: Result<string, Error>, cmdlineOf: u32 -> Option<string>)
  {
    pidQuery.Ok? ==> ParseMainPid(pidQuery.value).Some? && cmdlineOf(ParseMainPid(pidQuery.value).value).Some?
  }

  /** The pure part of `get_status`, given the results of the three
      `systemctl` queries in the order they are issued (MainPID, is-failed,
      status) and the command line of each process id (standing for the file
      `/proc/<pid>/cmdline`), read for the parsed one. */
  function GetStatus(pidQuery: Result<string, Error>, failedQuery: Result<string, Error>,
                     cmdlineOf: u32 -> Option<string>, statusQuery: Result<string, Error>): (r: Result<ServiceStatus, Error>)
    requires Unwraps(pidQuery, cmdlineOf)
    ensures pidQuery.Err? ==> r == Err(pidQuery.error)
    ensures pidQuery.Ok? && statusQuery.Err? ==> r == Err(statusQuery.error)
    ensures pidQuery.Ok? && statusQuery.Ok? ==>
      (r.Ok? <==> Classify(statusQuery.value).Ok?) &&
      (r.Err? ==> r.error == InvalidState(statusQuery.value))
    ensures r.Ok? ==>
      && Ok(r.value.state) == Classify(statusQuery.value)
      && r.value.details == statusQuery.value
      && Some(r.value.pid) == ParseMainPid(pidQuery.value)
      && r.value.isFailed == IsFailed(failedQuery)
      && Some(r.value.cmdline) == cmdlineOf(r.value.pid)
  {
    match pidQuery
    case Err(e) => Err(e)
    case Ok(pidText) =>
      var pid := ParseMainPid(pidText).value;
      var failed := IsFailed(failedQuery);
      match statusQuery
      case Err(e) => Err(e)
      case Ok(result) =>
        match Classify(result)
        case Err(e) => Err(e)
        case Ok(state) => Ok(ServiceStatus(state, cmdlineOf(pid).value, pid, failed, result))
  }

  /** A status reports active exactly when the status text holds the
      active marker, and running exactly when it also holds the running
      marker; the failed flag has no bearing on either. */
  lemma GetStatusActiveIffMarker(pidQuery: Result<string, Error>, failedQuery: Result<string, Error>,
                                 cmdlineOf: u32 -> Option<string>, statusQuery: Result<string, Error>)
    requires Unwraps(pidQuery, cmdlineOf)
    requires GetStatus(pidQuery, failedQuery, cmdlineOf, statusQuery).Ok?
    ensures GetStatus(pidQuery, failedQuery, cmdlineOf, statusQuery).value.IsActive()
            <==> Contains(statusQuery.value, ActiveMarker)
    ensures GetStatus(pidQuery, failedQuery, cmdlineOf, statusQuery).value.IsRunning()
            <==> Contains(statusQuery.value, ActiveMarker) && Contains(statusQuery.value, " (running)")
  {
    var r := GetStatus(pidQuery, failedQuery, cmdlineOf, statusQuery);
    var text := statusQuery.value;
    assert Ok(r.value.state) == Classify(text);
    if Contains(text, ActiveMarker) && Contains(text, " (running)") {
      ClassifyActivePriority(text);
    }
  }

  /** When the process id parses and the status text is recognised, the
      status holds the classified state, the command line, the process id
      and the failed flag unchanged, and the raw status text as details. */
  lemma GetStatusCopies(pidText: string, failedQuery: Result<string, Error>, cmdlineOf: u32 -> Option<string>, statusText: string)
    requires Unwraps(Ok(pidText), cmdlineOf) && Classify(statusText).Ok?
    ensures GetStatus(Ok(pidText), failedQuery, cmdlineOf, Ok(statusText))
         == Ok(ServiceStatus(Classify(statusText).value, cmdlineOf(ParseMainPid(pidText).value).value, ParseMainPid(pidText).value,
                             IsFailed(failedQuery), statusText))
  {
  }

  /** End-to-end, for any process id whose command line can be read: a
      running unit whose `is-failed` query fails is reported
      `Active(Running)` and not failed. */
  lemma GetStatusRunningExample(pid: u32, cmdlineOf: u32 -> Option<string>, failure: Error, before: string, after: string)
    requires cmdlineOf(pid).Some?
    ensures ParseMainPid("MainPID=" + Decimal(pid as nat) + "\n") == Some(pid)
    ensures var r := GetStatus(Ok("MainPID=" + Decimal(pid as nat) + "\n"), Err(failure), cmdlineOf,
                               Ok(before + "active (running)" + after));
            r.Ok? && r.value.state == Active(ActiveState.Running) && !r.value.isFailed && r.value.pid == pid
  {
    MainPidRoundTrip(pid);
    ClassifyRunningLine(before, after);
    GetStatusCopies("MainPID=" + Decimal(pid as nat) + "\n", Err(failure), cmdlineOf,
                    before + "active (running)" + after);
  }

  /** End-to-end, for any process id whose command line can be read: a
      unit reported `inactive (dead)`, with no running, exited or waiting
      marker in its status text, whose `is-failed` query says `failed` is
      reported failed and `Active(Dead)`, not `Inactive(Dead)`. */
  lemma GetStatusInactiveDeadExample(pid: u32, cmdlineOf: u32 -> Option<string>, failedText: string, before: string, after: string)
    requires cmdlineOf(pid).Some?
    requires Contains(failedText, "failed")
    requires var t := before + "inactive (dead)" + after;
             !Contains(t, " (running)") && !Contains(t, " (exited)") && !Contains(t, " (waiting)")
    ensures ParseMainPid("MainPID=" + Decimal(pid as nat) + "\n") == Some(pid)
    ensures var r := GetStatus(Ok("MainPID=" + Decimal(pid as nat) + "\n"), Ok(failedText), cmdlineOf,
                               Ok(before + "inactive (dead)" + after));
            r.Ok? && r.value.state == Active(ActiveState.Dead) && r.value.isFailed && r.value.pid == pid
  {
    MainPidRoundTrip(pid);
    ClassifyInactiveDeadLine(before, after);
    GetStatusCopies("MainPID=" + Decimal(pid as nat) + "\n", Ok(failedText), cmdlineOf,
                    before + "inactive (dead)" + after);
  }
}
