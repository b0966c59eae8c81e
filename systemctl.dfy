/**
 * The systemd controller's commands (src/controller/linux.rs): how the
 * outcome of one `systemctl` run becomes a result, and which commands
 * create, delete, start, stop and query a service issue, in which order,
 * and which of their failures are reported.
 *
 * Running a process is not modelled: a `Systemd` object stands for the
 * system. It answers the n-th command with `reply(n, args)` and records
 * every argument vector it is given, and every file removal asked of it.
 */
module Systemctl {
  import opened Wrappers
  import opened Text
  import opened Lib
  import opened Status
  import opened Units

  /** What running `systemctl` produced. `code` is `None` when the process
      was ended by a signal; `stderr` is `None` when it is not valid UTF-8. */
  datatype ProcessOutput =
    | SpawnFailed(cause: string)
    | Finished(code: Option<int>, stdout: string, stderr: Option<string>)

  predicate Succeeded(o: ProcessOutput)
  {
    o.Finished? && o.code == Some(0)
  }

  /** The case `systemctl_execute_with_result` does not handle: it panics on it. */
  predicate KilledBySignal(o: ProcessOutput)
  {
    o.Finished? && o.code.None?
  }

  /** The decision shared by `systemctl_execute_with_result` and
      `systemctl_execute`: a spawn failure and a non-zero exit are errors
      naming the subcommand (`args[0]`); otherwise the result is the
      standard output. */
  function CommandOutcome(args: seq<string>, o: ProcessOutput): (r: Result<string, Error>)
    requires |args| > 0
    requires !KilledBySignal(o)
    ensures r.Ok? <==> Succeeded(o)
    ensures r.Ok? ==> r.value == o.stdout
    ensures o.SpawnFailed? ==> r.error.message == "Failed to execute command " + args[0] + ": " + o.cause
    ensures o.Finished? && r.Err? ==>
      r.error.message == "Command \"" + args[0] + "\" failed (" + IntToString(o.code.value) + "): "
                         + (if o.stderr.Some? then o.stderr.value else "")
  {
    match o
    case SpawnFailed(cause) => Err(NewError("Failed to execute command " + args[0] + ": " + cause))
    case Finished(code, stdout, stderr) =>
      if code == Some(0) then Ok(stdout)
      else
        var err := if stderr.Some? then stderr.value else "";
        Err(NewError("Command \"" + args[0] + "\" failed (" + IntToString(code.value) + "): " + err))
  }

  /** A spawn failure is never reported as a failed command, and a failed
      command never as a spawn failure: the two messages start differently. */
  lemma SpawnFailureIsNotCommandFailure(args: seq<string>, o: ProcessOutput)
    requires |args| > 0 && !KilledBySignal(o)
    requires CommandOutcome(args, o).Err?
    ensures var m := CommandOutcome(args, o).error.message;
            o.SpawnFailed? <==> "Failed to execute command " <= m
    ensures var m := CommandOutcome(args, o).error.message;
            o.Finished? <==> "Command \"" <= m
  {
    var m := CommandOutcome(args, o).error.message;
    assert |m| > 0;
    if o.SpawnFailed? {
      assert m[0] == 'F';
      assert m[..26] == "Failed to execute command ";
    } else {
      assert m[0] == 'C';
      assert m[..9] == "Command \"";
    }
  }

  /** `Result<(), Error>` from a result whose value is dropped. */
  function DropValue<T>(r: Result<T, Error>): (u: Result<(), Error>)
    ensures u.Ok? <==> r.Ok?
    ensures u.Err? ==> u.error == r.error
  {
    match r
    case Ok(_) => Ok(())
    case Err(e) => Err(e)
  }

  /** An outcome `systemctl_execute_with_result` handles: every one except termination by a
      signal, on which it panics. */
  type Handled = o: ProcessOutput | !KilledBySignal(o) witness SpawnFailed("")

  /** A file-system removal that `delete` asks for. */
  datatype Removal = RemoveFile(path: string) | RemoveDirAll(path: string)

  const DaemonReload: seq<string> := ["daemon-reload"]
  const ResetFailed: seq<string> := ["reset-failed"]

  class Systemd {
    /** The system's answer to the n-th command issued, given its arguments. */
    const reply: (nat, seq<string>) -> Handled
    /** The argument vectors of the `systemctl` runs so far, in order. */
    var issued: seq<seq<string>>
    /** The removals asked for so far, in order. */
    var removals: seq<Removal>

    /** The result of issuing `args` as the k-th command. */
    ghost function Answer(k: nat, args: seq<string>): Result<string, Error>
      requires |args| > 0
    {
      CommandOutcome(args, reply(k, args))
    }

    constructor (reply: (nat, seq<string>) -> Handled)
      ensures this.reply == reply && issued == [] && removals == []
    {
      this.reply := reply;
      issued := [];
      removals := [];
    }

    /** `systemctl_execute_with_result`. */
    method ExecuteWithResult(args: seq<string>) returns (r: Result<string, Error>)
      requires |args| > 0
      modifies this
      ensures issued == old(issued) + [args] && removals == old(removals)
      ensures r == Answer(|old(issued)|, args)
    {
      var o := reply(|issued|, args);
      issued := issued + [args];
      r := CommandOutcome(args, o);
    }

    /** `systemctl_execute`: the same decision, the output dropped. */
    method Execute(args: seq<string>) returns (r: Result<(), Error>)
      requires |args| > 0
      modifies this
      ensures issued == old(issued) + [args] && removals == old(removals)
      ensures r == DropValue(Answer(|old(issued)|, args))
    {
      var out := ExecuteWithResult(args);
      r := DropValue(out);
    }
  }

  /** `systemd_install_daemon`: reload, then enable; a failed reload stops
      the sequence and is reported. */
  method InstallDaemon(sys: Systemd, name: string) returns (r: Result<(), Error>)
    modifies sys
    ensures sys.removals == old(sys.removals)
    ensures sys.Answer(|old(sys.issued)|, DaemonReload).Err? ==>
      sys.issued == old(sys.issued) + [DaemonReload] && r == Err(sys.Answer(|old(sys.issued)|, DaemonReload).error)
    ensures sys.Answer(|old(sys.issued)|, DaemonReload).Ok? ==>
      sys.issued == old(sys.issued) + [DaemonReload, ["enable", name]]
      && r == DropValue(sys.Answer(|old(sys.issued)| + 1, ["enable", name]))
  {
    var reload := sys.Execute(DaemonReload);
    if reload.Err? {
      return Err(reload.error);
    }
    r := sys.Execute(["enable", name]);
  }

  /** `systemd_uninstall_daemon`: disable, then reload and reset the failed
      state. Only a failed disable is reported; it stops the sequence. The
      failures of the other two are swallowed. */
  method UninstallDaemon(sys: Systemd, name: string) returns (r: Result<(), Error>)
    modifies sys
    ensures sys.removals == old(sys.removals)
    ensures r.Err? <==> sys.Answer(|old(sys.issued)|, ["disable", name]).Err?
    ensures r.Err? ==> r.error == sys.Answer(|old(sys.issued)|, ["disable", name]).error
    ensures r.Err? ==> sys.issued == old(sys.issued) + [["disable", name]]
    ensures r.Ok? ==> sys.issued == old(sys.issued) + [["disable", name], DaemonReload, ResetFailed]
  {
    var disable := sys.Execute(["disable", name]);
    if disable.Err? {
      return Err(disable.error);
    }
    var _ := sys.Execute(DaemonReload);
    var _ := sys.Execute(ResetFailed);
    r := Ok(());
  }

  /** `systemd_start_daemon`. */
  method StartDaemon(sys: Systemd, name: string) returns (r: Result<(), Error>)
    modifies sys
    ensures sys.issued == old(sys.issued) + [["start", name]] && sys.removals == old(sys.removals)
    ensures r == DropValue(sys.Answer(|old(sys.issued)|, ["start", name]))
  {
    r := sys.Execute(["start", name]);
  }

  /** `systemd_stop_daemon`. */
  method StopDaemon(sys: Systemd, name: string) returns (r: Result<(), Error>)
    modifies sys
    ensures sys.issued == old(sys.issued) + [["stop", name]] && sys.removals == old(sys.removals)
    ensures r == DropValue(sys.Answer(|old(sys.issued)|, ["stop", name]))
  {
    r := sys.Execute(["stop", name]);
  }

  /** `create`: write the unit files (`Units.WriteServiceConfig`, whose file
      operations have the outcomes given), then install. A failed write
      stops before any command. */
  method Create(sys: Systemd, c: Controller, exe: ExeLink, unitWrite: Option<string>,
                dirCreate: Option<string>, configWrite: Option<string>) returns (r: Result<(), Error>)
    modifies sys
    ensures sys.removals == old(sys.removals)
    ensures var written := WriteServiceConfig(c, exe, unitWrite, dirCreate, configWrite);
            written.Err? ==> r == written && sys.issued == old(sys.issued)
    ensures var written := WriteServiceConfig(c, exe, unitWrite, dirCreate, configWrite);
            written.Ok? && sys.Answer(|old(sys.issued)|, DaemonReload).Err? ==>
              sys.issued == old(sys.issued) + [DaemonReload] && r == Err(sys.Answer(|old(sys.issued)|, DaemonReload).error)
    ensures var written := WriteServiceConfig(c, exe, unitWrite, dirCreate, configWrite);
            written.Ok? && sys.Answer(|old(sys.issued)|, DaemonReload).Ok? ==>
              sys.issued == old(sys.issued) + [DaemonReload, ["enable", c.serviceName]]
              && r == DropValue(sys.Answer(|old(sys.issued)| + 1, ["enable", c.serviceName]))
  {
    var written := WriteServiceConfig(c, exe, unitWrite, dirCreate, configWrite);
    if written.Err? {
      return written;
    }
    r := InstallDaemon(sys, c.serviceName);
  }

  /** `delete`: uninstall; only when that succeeds, remove the unit file
      and the drop-in directory, whose failures are swallowed. The result
      is exactly the result of the disable command. */
  method Delete(sys: Systemd, c: Controller) returns (r: Result<(), Error>)
    modifies sys
    ensures r.Err? <==> sys.Answer(|old(sys.issued)|, ["disable", c.serviceName]).Err?
    ensures r.Err? ==> r.error == sys.Answer(|old(sys.issued)|, ["disable", c.serviceName]).error
    ensures r.Err? ==> sys.issued == old(sys.issued) + [["disable", c.serviceName]]
                       && sys.removals == old(sys.removals)
    ensures r.Ok? ==> sys.issued == old(sys.issued) + [["disable", c.serviceName], DaemonReload, ResetFailed]
                      && sys.removals == old(sys.removals) + [RemoveFile(c.UnitPath()), RemoveDirAll(c.DropinDir())]
  {
    var u := UninstallDaemon(sys, c.serviceName);
    if u.Err? {
      return u;
    }
    sys.removals := sys.removals + [RemoveFile(c.UnitPath())];
    sys.removals := sys.removals + [RemoveDirAll(c.DropinDir())];
    r := Ok(());
  }

  /** `start`. */
  method Start(sys: Systemd, c: Controller) returns (r: Result<(), Error>)
    modifies sys
    ensures sys.issued == old(sys.issued) + [["start", c.serviceName]] && sys.removals == old(sys.removals)
    ensures r == DropValue(sys.Answer(|old(sys.issued)|, ["start", c.serviceName]))
  {
    r := StartDaemon(sys, c.serviceName);
  }

  /** `stop`. */
  method Stop(sys: Systemd, c: Controller) returns (r: Result<(), Error>)
    modifies sys
    ensures sys.issued == old(sys.issued) + [["stop", c.serviceName]] && sys.removals == old(sys.removals)
    ensures r == DropValue(sys.Answer(|old(sys.issued)|, ["stop", c.serviceName]))
  {
    r := StopDaemon(sys, c.serviceName);
  }

  function ShowMainPid(name: string): seq<string>
  {
    ["show", "-p", "MainPID", name]
  }

  function IsFailedQuery(name: string): seq<string>
  {
    ["is-failed", name]
  }

  function StatusQuery(name: string): seq<string>
  {
    ["status", name]
  }

  /** The three queries of `get_status`, in order: the main process id, the
      failed flag and the status text. A failed process-id query stops
      before the other two, which are not issued; their out-parameters then
      repeat that error and are not read by `Status.GetStatus`. */
  method StatusQueries(sys: Systemd, c: Controller)
    returns (pidQuery: Result<string, Error>, failedQuery: Result<string, Error>, statusQuery: Result<string, Error>)
    modifies sys
    ensures sys.removals == old(sys.removals)
    ensures pidQuery == sys.Answer(|old(sys.issued)|, ShowMainPid(c.serviceName))
    ensures pidQuery.Err? ==> sys.issued == old(sys.issued) + [ShowMainPid(c.serviceName)]
                              && failedQuery == pidQuery && statusQuery == pidQuery
    ensures pidQuery.Ok? ==>
      && sys.issued == old(sys.issued) + [ShowMainPid(c.serviceName), IsFailedQuery(c.serviceName), StatusQuery(c.serviceName)]
      && failedQuery == sys.Answer(|old(sys.issued)| + 1, IsFailedQuery(c.serviceName))
      && statusQuery == sys.Answer(|old(sys.issued)| + 2, StatusQuery(c.serviceName))
  {
    ghost var n := |sys.issued|;
    pidQuery := sys.ExecuteWithResult(ShowMainPid(c.serviceName));
    if pidQuery.Err? {
      return pidQuery, pidQuery, pidQuery;
    }
    failedQuery := sys.ExecuteWithResult(IsFailedQuery(c.serviceName));
    statusQuery := sys.ExecuteWithResult(StatusQuery(c.serviceName));
    assert failedQuery == sys.Answer(n + 1, IsFailedQuery(c.serviceName));
  }

  /** `get_status`: the failure of the process-id query is reported, a
      failed `is-failed` query means "not failed", the failure of the status
      query is reported, and the command line is read for the process id
      (`cmdlineOf`, standing for `/proc/<pid>/cmdline`). The status itself is
      `Status.GetStatus` of the three results. The process id must parse and
      its command line must be readable, as `get_status` unwraps both. */
  method GetStatusOf(sys: Systemd, c: Controller, cmdlineOf: u32 -> Option<string>) returns (r: Result<ServiceStatus, Error>)
    requires Unwraps(sys.Answer(|sys.issued|, ShowMainPid(c.serviceName)), cmdlineOf)
    modifies sys
    ensures sys.removals == old(sys.removals)
    ensures var n := |old(sys.issued)|;
            var pidQuery := sys.Answer(n, ShowMainPid(c.serviceName));
            && (pidQuery.Err? ==> sys.issued == old(sys.issued) + [ShowMainPid(c.serviceName)])
            && (pidQuery.Ok? ==>
                 sys.issued == old(sys.issued) + [ShowMainPid(c.serviceName), IsFailedQuery(c.serviceName), StatusQuery(c.serviceName)])
            && r == GetStatus(pidQuery, sys.Answer(n + 1, IsFailedQuery(c.serviceName)), cmdlineOf,
                              sys.Answer(n + 2, StatusQuery(c.serviceName)))
  {
    var pidQuery, failedQuery, statusQuery := StatusQueries(sys, c);
    r := GetStatus(pidQuery, failedQuery, cmdlineOf, statusQuery);
  }
}
