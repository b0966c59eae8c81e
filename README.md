# ceviche-rs — the systemd controller, modelled in Dafny

ceviche-rs lets a Rust program run as a system service. On Linux, its
controller (`src/controller/linux.rs`) does the following:

- installs a service by writing a systemd unit file and calling `systemctl`;
- removes, starts and stops the service the same way;
- reads the service's status back from `systemctl` output;
- forwards login-session changes to the service as events.

The crate root (`src/lib.rs`) defines the crate's error type and the events a
service receives, and how both are displayed.

This project models that core and proves properties of the model. It has
these modules:

- `Wrappers`: `Option` and `Result`.
- `Text`: the parts of Rust's `str` that the controller relies on, with the
  same semantics:
  - `contains`;
  - `trim_start_matches`, which strips every repetition;
  - `trim`, over Unicode White_Space;
  - `parse::<u32>`, which takes an optional `+`, at least one digit, and a
    value below 2^32;
  - decimal rendering with `{}`.
- `Lib`: `Error`, its constructors and `Display`; `ServiceEvent` and its
  `Display`.
- `Status`: the `ServiceState` and `ServiceStatus` types and their
  predicates. It also holds the pure part of `get_status`: classifying the
  `systemctl status` text, parsing the `MainPID`, and deriving the failed
  flag.
- `Units`: the unit file's name, its path and the drop-in paths; the unit
  file's content; and the control flow of `write_service_config`.
- `Systemctl`: the success or failure decision of
  `systemctl_execute_with_result` and `systemctl_execute`. A `Systemd` object
  stands for the system:
  - it answers the k-th `systemctl` run with `reply(k, args)`;
  - it records every argument vector issued;
  - it records every file removal asked of it.

  On this object, the module models the command sequences of install,
  uninstall, create, delete, start, stop and `get_status`, including which
  failures are reported and which are swallowed.
- `Monitor`: the session-monitor callback that `run_monitor` registers. It is
  a class whose slot `current` is the captured `current_session`. Its
  `events` sequence stands for the channel. A receiver's view of the events
  (`View`) is the invariant the class keeps: after every notification, a
  receiver that reads all events knows the slot.

The model follows the code on one point that an intuitive reading gets wrong.
Every text that contains `"inactive ("` also contains `"active ("`, so a
status such as `Active: inactive (dead)` takes the active branch. It is
reported as `Active(Dead)`, never as `Inactive(Dead)`
(`Status.InactiveDeadReadsAsActive`, `Status.GetStatusInactiveDeadExample`).

## Model

| member | source | states |
|---|---|---|
| Lib.NewError | src/lib.rs:110-116 | the error built from a message holds exactly that message |
| Lib.ErrorFrom | src/lib.rs:90-96 | the `From<&str>` conversion gives the same error as `Error::new` |
| Lib.DisplayError | src/lib.rs:98-102 | an error displays as exactly its message |
| Lib.Description | src/lib.rs:104-108 | `description` is the same text as the display |
| Lib.DisplayRoundTrip | src/lib.rs:90-116 | displaying an error made from `m`, by either constructor, gives back `m` |
| Lib.DisplayEvent | src/lib.rs:134-153 | `Continue`, `Pause`, `Stop` and `Custom` display as their fixed names; every session-carrying variant displays as its name, `(`, the session's display, `)` |
| Lib.CustomIgnoresPayload | src/lib.rs:150 | `Custom(x)` displays as `Custom`, whatever the payload |
| Lib.DisplayParenIffSession | src/lib.rs:136-151 | a displayed event holds a parenthesis exactly when the event carries a session |
| Lib.DisplayEventInjective | src/lib.rs:140-149 | two session-carrying events that display alike are the same variant (each is the other with its session replaced), and their sessions display alike |
| Status.ServiceStatus.IsActive | src/controller/linux.rs:135-137 | true exactly for an `Active` state |
| Status.ServiceStatus.IsInactive | src/controller/linux.rs:138-140 | true exactly when the status is not active |
| Status.ServiceStatus.IsRunning | src/controller/linux.rs:144-146 | true exactly for `Active(Running)`, which implies active |
| Status.Classify | src/controller/linux.rs:277-307 | an error is always `Invalid ActiveState : ` plus the whole text; the result is active exactly when the text holds `active (`; `Active(Running)` only when ` (running)` occurs |
| Status.ClassifyIsTableLookup | src/controller/linux.rs:277-307 | the if-chain equals a lookup: the branch is chosen by `active (`, and the value comes from the first marker of that branch's priority table that occurs |
| Status.ClassifyActivePriority | src/controller/linux.rs:277-289 | with `active (` present the result is never inactive, and running, exited, waiting and dead are tried in that order |
| Status.InactiveDeadReadsAsActive | src/controller/linux.rs:277-286 | a text holding `inactive (dead)` is always classified active, never as an error; it is `Active(Dead)` when no running, exited or waiting marker occurs |
| Status.InactiveOnlyWithoutMarkers | src/controller/linux.rs:277-304 | an inactive state is returned only for a text holding neither `active (` nor `inactive (` |
| Status.ClassifyInactivePriority | src/controller/linux.rs:295-304 | without `active (`, dead, exited, waiting and resetting are tried in that order, and the result is never active |
| Status.ClassifyFailsOnlyWithoutMarker | src/controller/linux.rs:277-307 | the classification fails exactly when no marker of the selected branch occurs, so there is no default state; the message is `Invalid ActiveState : ` plus the text |
| Status.ClassifyRunningLine | src/controller/linux.rs:277-280 | any text with `active (running)` in it is `Active(Running)` |
| Status.ClassifyInactiveDeadLine | src/controller/linux.rs:277-286 | every text with `inactive (dead)` in it and no running, exited or waiting marker anywhere is `Active(Dead)` |
| Status.ParseMainPid | src/controller/linux.rs:261-265 | a pid is read only from what is left after stripping every leading `MainPID=` and the surrounding whitespace, and only when that rest is an optional `+` followed by digits |
| Status.MainPidRoundTrip | src/controller/linux.rs:261-265 | for every `u32` pid, the line `MainPID=<pid>\n` parses back to that pid |
| Status.IsFailed | src/controller/linux.rs:267-272 | true exactly when the `is-failed` query succeeded and its output contains `failed`; a failed query gives false |
| Status.GetStatus | src/controller/linux.rs:260-314 | a failed pid query and a failed status query are reported as they are; otherwise the result is Ok exactly when the classification is Ok, and it then holds the classified state, the raw text as details, the parsed pid, the failed flag and the command line of that pid; it requires (`Status.Unwraps`) the pid to parse and its command line to be readable, the two unwraps of `get_status` |
| Status.GetStatusActiveIffMarker | src/controller/linux.rs:277-313 | a returned status is active exactly when the text holds `active (`, and running exactly when it also holds ` (running)` |
| Status.GetStatusCopies | src/controller/linux.rs:290-293 | with a parsable pid and a recognised text, the status is the state, the command line for the pid, the pid, the failed flag and the text, unchanged |
| Status.GetStatusRunningExample | src/controller/linux.rs:260-294 | for every pid whose command line can be read and every failed `is-failed` query, a running unit is reported `Active(Running)`, not failed, with that pid |
| Status.GetStatusInactiveDeadExample | src/controller/linux.rs:260-294 | for every pid whose command line can be read, a unit whose status says `inactive (dead)`, with no running, exited or waiting marker, and whose `is-failed` output says `failed` is reported failed and `Active(Dead)` |
| Text.Contains | src/controller/linux.rs:277 | `contains` is true exactly when the pattern occurs at some index |
| Text.TrimStartMatches | src/controller/linux.rs:262 | the result is a suffix of the text that no longer starts with the (non-empty) pattern |
| Text.Trim | src/controller/linux.rs:263 | the result is no longer than the text and neither starts nor ends with whitespace |
| Text.ParseU32 | src/controller/linux.rs:264 | a parsed text is an optional `+` followed by at least one digit, and the value is that of the digits |
| Text.IntToString | src/controller/linux.rs:32-37 | the rendering is non-empty and starts with `-` exactly for a negative exit code |
| Text.TrimStartMatchesRepeat | src/controller/linux.rs:262 | stripping leading repetitions removes every copy of the prefix, and stops at the first text that does not start with it |
| Text.ParseDecimal | src/controller/linux.rs:264 | parsing the decimal rendering of a `u32` gives it back |
| Units.NewController | src/controller/linux.rs:157-164 | the controller keeps its three names and has no configuration |
| Units.Join | src/controller/linux.rs:178-184 | an absolute component replaces the base; otherwise exactly one separator joins them, none added after an empty base or one that ends with `/` |
| Units.Controller.FileName | src/controller/linux.rs:174-176 | the unit's file name is the service name followed by `.service` |
| Units.Controller.UnitPath | src/controller/linux.rs:178-180 | the file name inside `/lib/systemd/system/`, unless the service name is absolute, in which case the file name alone |
| Units.Controller.DropinDir | src/controller/linux.rs:182-184 | for every name, the drop-in directory is the unit path followed by `.d` |
| Units.Controller.DropinConfigPath | src/controller/linux.rs:214-216 | for a relative name, `<name>.conf` inside the drop-in directory |
| Units.UnitPathShape | src/controller/linux.rs:174-180 | for a relative name, the unit file is `/lib/systemd/system/<name>.service` |
| Units.DropinConfigShape | src/controller/linux.rs:213-216 | for a relative name, the drop-in configuration is `/lib/systemd/system/<name>.service.d/<name>.conf` |
| Units.UnitContent | src/controller/linux.rs:186-203 | a failed read of `/proc/self/exe` and a non-Unicode target give their two errors |
| Units.UnitContentLines | src/controller/linux.rs:186-197 | for a name and executable without line breaks, the unit file is exactly nine lines: an empty line, `[Unit]`, `Description=<service name>`, an empty line, `[Service]`, `ExecStart=<exe>`, an empty line, `[Install]`, `WantedBy=multi-user.target` |
| Units.UnitContentIgnoresDescription | src/controller/linux.rs:186-197 | the unit file depends on the service name and the executable only, not on the display name, the description or the configuration |
| Units.WriteServiceConfig | src/controller/linux.rs:205-226 | Ok exactly when the content is built and every required write succeeds; the drop-in steps run only with a configuration; each failure gives its own message, and the directory-creation message names the `.conf` path |
| Units.WriteWithoutConfigIgnoresDropin | src/controller/linux.rs:213-223 | without a configuration the drop-in outcomes do not matter |
| Systemctl.CommandOutcome | src/controller/linux.rs:23-45 | Ok exactly when the process ran and exited with 0, and then the value is its output; a spawn failure and a non-zero exit give their two messages, naming the subcommand, the exit code and the error output (empty when not UTF-8) |
| Systemctl.SpawnFailureIsNotCommandFailure | src/controller/linux.rs:27-37 | a spawn failure's message never reads as a failed command's, and the reverse |
| Systemctl.Systemd.ExecuteWithResult | src/controller/linux.rs:23-45 | issues exactly one command; the result is the outcome of the system's answer to it |
| Systemctl.Systemd.Execute | src/controller/linux.rs:47-69 | as above, with the output dropped |
| Systemctl.InstallDaemon | src/controller/linux.rs:71-74 | reload, then enable; a failed reload is reported and nothing else runs |
| Systemctl.UninstallDaemon | src/controller/linux.rs:76-86 | Err exactly when disable fails, and then only disable ran; otherwise reload and reset-failed both ran and their failures are swallowed |
| Systemctl.StartDaemon | src/controller/linux.rs:88-90 | issues `start <name>` only, and reports its outcome |
| Systemctl.StopDaemon | src/controller/linux.rs:92-94 | issues `stop <name>` only, and reports its outcome |
| Systemctl.Create | src/controller/linux.rs:230-234 | a failed write is reported before any command runs; otherwise the result is that of install |
| Systemctl.Delete | src/controller/linux.rs:236-250 | Err exactly when disable fails, and then nothing is removed; otherwise the unit file and then the drop-in directory are removed, and the result is Ok |
| Systemctl.Start | src/controller/linux.rs:252-254 | the result of starting the unit of the service name |
| Systemctl.Stop | src/controller/linux.rs:256-258 | the result of stopping the unit of the service name |
| Systemctl.StatusQueries | src/controller/linux.rs:261-276 | issues the pid, is-failed and status queries in that order; after a failed pid query, none of the others, and the two results then repeat the pid error |
| Systemctl.GetStatusOf | src/controller/linux.rs:260-314 | issues the pid, is-failed and status queries (only the first when it fails); the result is `Status.GetStatus` of their answers |
| Monitor.ActiveSession | src/controller/linux.rs:331-337 | a failed session query counts as no session |
| Monitor.Transition | src/controller/linux.rs:339-357 | nothing is sent exactly when previous and observed agree; a new session sends exactly its connect, a lost one exactly its disconnect, and a switch exactly the connect of the new session followed by the disconnect of the old one |
| Monitor.ViewOfTransition | src/controller/linux.rs:339-357 | a receiver that knows the previous session learns the observed one from one notification's events, in the order they are sent |
| Monitor.ReplayKnowsLast | src/controller/linux.rs:330-360 | after any run of notifications, a receiver that reads every event knows the last session observed |
| Monitor.SessionMonitor.constructor | src/controller/linux.rs:322-328 | the slot starts with the active session, or none when the query fails, and nothing is sent |
| Monitor.SessionMonitor.Notify | src/controller/linux.rs:330-360 | the slot is overwritten with the observed session in every case; the events sent are exactly the transition's events; the receiver's view stays equal to the slot |

## Left out

- Process spawning is not modelled. Capturing stdout and stderr, and the lossy UTF-8 decoding of stdout, are replaced by the answers `reply(k, args)` of the `Systemd` object. Logging of the output with `info!` is left out too.
- Systemctl.Systemd.ExecuteWithResult: a `systemctl` run ended by a signal is excluded by the answer's type (`Handled`), because `systemctl_execute_with_result` panics on it.
- Status.GetStatus: requires (`Status.Unwraps`) the `MainPID` output to parse and the command line of that pid to be readable. `get_status` unwraps both and panics otherwise. The second panic happens for the pid 0 that systemd reports for a unit without a main process, before the status query is issued.
- Systemctl.GetStatusOf: has the same requirement on the system's answer to the pid query, for the same reason.
- The `/proc/<pid>/cmdline` read is the partial function `cmdlineOf`. It is `None` where the read fails or the contents are not UTF-8.
- Text.Trim: states that the result has no whitespace at either end. It does not state that the result is the middle slice of the text with only whitespace removed around it. `Trim` is `TrimEnd(TrimStart(s))`, and each of those two states its full slice contract. Stating the combined slice contract on `Trim` itself was too costly for the verifier.
- The `/proc/self/exe` read is the parameter `exe`.
- File writes, directory creation and removals are not performed. Their outcomes are parameters, and removals are only recorded. Failures of the removals are swallowed by `delete`, so nothing depends on them.
- Logging with `debug!` and `info!` is left out.
- `dispatch`, the Ctrl-C handler, the channel's threading, and `Monitor::new`/`Monitor::init` registration with the systemd library are left out. They are concurrency and foreign-library plumbing; only the callback body is modelled.
- `register` and the `Service!` macro only forward to the entry point, and are left out.
- `Session`'s `Display` and `Session::new` live in `src/session`, which is not part of this model. The display is the parameter `show`.
- A session is its identifier only. The monitor's comparison of login sessions is modelled as a comparison of identifiers.
- The test module of `src/lib.rs` uses environment variables and a live systemd, and is left out.
- `is_failed` and `get_cmdline` of `BasicServiceStatus` return the fields `isFailed` and `cmdline` unchanged, and have no members of their own.
- Paths are strings. `Path::join` is modelled for Unix separators only.
