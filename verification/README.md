# DCTimer technique engine in Dafny

DCTimer runs one command with the system clock, or the clock a single
process sees, moved to the time of a domain controller's NTP server. These
modules model its core:

- the virtual NTP clock: `get_virtual_ntp_time` and `update_ntp_reference`;
- the configuration backup and restore helpers: `backup_file` and
  `restore_file`;
- the six techniques, each with `is_available`, `sync_time` and `reset`:
  1. ntpdate
  2. ntpd
  3. systemd-timesyncd
  4. openntpd
  5. the Dynamic Date Loop
  6. faketime
- the fallback search `DCTimer.try_techniques` and `validate_port`;
- the `try`/`finally` of `DCTimer.execute_command`, which runs the user's
  command under the winning technique and resets that technique afterwards.

The operating system is a fixed oracle, `Host.Env`. It answers these
questions:

- Are we on Linux? Are we root?
- Is a tool on the PATH? Does a path exist?
- What does a command exit with, and what does it print to stderr?
- Can a configuration file be written? Does a copy succeed?
- What is the local clock reading?
- What do `shlex.split` and the launch of the user's command return?

The filesystem is a map from path to contents. The program's visible actions
form a trace of events:

- a probe (`is_available`);
- an attempt (`sync_time`);
- a tool run;
- a launch of the user's command;
- a call to `reset`.

Module by module:

- `VirtualClock`: the reference time and the instant it was captured.
- `Decimal`: the `@<epoch seconds>` argument of `date -s` and faketime, with
  its round trip.
- `Files`: the backups.
- `Host`: the oracle, `run_command` and the trace.
- `Techniques`: the six techniques.
- `Runner`: `try_techniques`.
- `Session`: `execute_command`.

## Model

| member | source | states |
|---|---|---|
| VirtualClock.Now | DCTimer.py:39-44 | None exactly while the clock has never been seeded; once seeded, the reading minus the local instant equals the reference minus its capture instant, so the offset never changes |
| VirtualClock.Update | DCTimer.py:46-50 | right after update_ntp_reference the clock reads the new reference, and at any later instant the reference plus the elapsed time, whatever it held before |
| VirtualClock.NowAfterUpdate | DCTimer.py:46-50 | after update_ntp_reference the clock reads the new reference at the capture instant and reference + elapsed later, whatever it held before |
| VirtualClock.NowMonotone | DCTimer.py:39-44 | between updates the virtual time never runs backwards and advances exactly as fast as the local clock |
| Decimal.AtEpochRoundTrip | DCTimer.py:442-443 | the `@<seconds>` argument parses back to the seconds it was built from, so different instants give different arguments |
| Files.BackupFile | DCTimer.py:158-173 | an existing backup is returned and nothing changes; otherwise the file is copied beside itself when it exists and the copy works; otherwise None and nothing changes; no other path is ever touched |
| Files.RestoreFile | DCTimer.py:175-188 | True exactly when a backup exists and the copy works; then the file holds the backup's contents and the backup is gone; without a backup, False and nothing changes |
| Files.BackupTwiceKeepsFirst | DCTimer.py:160-163 | a second backup_file after the file was rewritten returns the same path and keeps the first backup's contents |
| Files.BackupRestoreRoundTrip | DCTimer.py:158-188 | backup, overwrite, restore gives back exactly the original filesystem, backup removed |
| Host.RunCommand | DCTimer.py:124-156 | None exactly when check=True and the tool exits nonzero (CalledProcessError caught); otherwise the tool's exit status and stderr |
| Host.RunCommandFailure | DCTimer.py:124-156 | a caller sees a failure exactly when the tool exits nonzero; with check=True the failure comes back as None, without stderr |
| Techniques.Text | DCTimer.py:262-470 | every last_error message is non-empty, so a set last_error is always truthy |
| Techniques.IsAvailable | DCTimer.py:262-463 | available exactly when the technique's prerequisites hold (tool on PATH, install path, Linux, root for the Dynamic Date Loop); on failure only last_error changes and is set; on success nothing changes |
| Techniques.NtpdateSyncWith | DCTimer.py:270-292 | succeeds exactly with root and a zero exit of `ntpdate -u server`; disabling system NTP always runs first; without root last_error is "Root required for ntpdate"; no file changes |
| Techniques.NtpdateSyncAsWritten | DCTimer.py:284-290 | as written, every failed ntpdate run as root is reported as "ntpdate command failed" |
| Techniques.NtpdateSync | DCTimer.py:284-289 | corrected: a failed run as root reports the systemd-less message exactly when ntpdate's stderr holds the systemd signature, and "ntpdate command failed" otherwise |
| Techniques.NtpdateVersionsAgree | DCTimer.py:284-290 | the as-written and corrected ntpdate steps agree on the result, the files, the tools run and the technique, except last_error, which differs exactly on a root host where ntpdate fails with the systemd signature |
| Techniques.SystemdSignatureIgnored | DCTimer.py:279-289 | on a root host without systemd the two versions disagree: ntpdate command failed as written, the container message corrected |
| Techniques.FirstFailing | DCTimer.py:319-327 | the first service step with a nonzero exit: all earlier steps exit 0, and None exactly when every step exits 0 |
| Techniques.ServiceCommands | DCTimer.py:319-331 | the service steps run in order until one fails; that step's text plus " failed" becomes last_error and nothing after it runs; when all pass the technique becomes active |
| Techniques.ServiceSync | DCTimer.py:308-331 | succeeds exactly with root, a writable config and every step exiting 0; a failure always sets last_error; only the config and its backup change |
| Techniques.ServiceSyncOrder | DCTimer.py:349-378 | without root nothing is touched or run; a failed write keeps the backup and runs no step; after the write, the first failing step decides last_error |
| Techniques.DateLoopSync | DCTimer.py:437-449 | an unseeded clock fails with "No virtual NTP time available" and runs nothing; otherwise runs `date -s @<virtual seconds>` once and succeeds exactly on exit 0, which alone arms the reset |
| Techniques.FaketimeSync | DCTimer.py:464-471 | succeeds exactly when the clock is seeded; then it stores `@<virtual seconds>`; it never touches the system or the files |
| Techniques.Sync | DCTimer.py:256 | for every technique: success depends only on the environment and clock, active is set exactly on success, a failure sets last_error, only tools run, and only the technique's own config and backup can change; ntpdate runs in its corrected form (see "## Left out") |
| Techniques.PortIsSoftWarning | DCTimer.py:282-283 | a non-default port never changes whether sync_time succeeds; for techniques 1 to 4 a success on such a port leaves the custom-port message in last_error (also at 312-313, 353-354, 399-400) |
| Techniques.Reset | DCTimer.py:293-294 | reset re-enables system NTP for 1 to 4, and for 5 only when armed; faketime does nothing; 2 to 4 restore their config from the backup; active is never cleared (the other resets are at 333-335, 379-381, 421-423, 450-453, 472-473) |
| Techniques.DateLoopResetOnlyAfterSet | DCTimer.py:444-453 | the Dynamic Date Loop's reset runs something exactly when its sync succeeded, and a second reset runs nothing |
| Techniques.ServiceRollback | DCTimer.py:308-335 | whatever point a service sync_time reached, its reset restores the filesystem exactly, given an existing config, no stale backup and working copies |
| Runner.Initial | DCTimer.py:479-486 | the constructor's six techniques in order, fresh, with no active technique, an empty failure list, the given filesystem and an empty trace |
| Runner.PyIndex | DCTimer.py:505 | Python list indexing: defined exactly for -len <= i < len, and negative positions count from the end |
| Runner.Candidates | DCTimer.py:505 | the candidates are distinct positions; a forced number has one candidate, and none (IndexError) exactly outside -5..6 |
| Runner.AllCandidates | DCTimer.py:505 | without a forced number the candidates are all six, in order |
| Runner.ForcedCandidate | DCTimer.py:505 | forcing n in 1..6 makes techniques[n-1] the only candidate |
| Runner.TryOne | DCTimer.py:507-529 | one loop turn probes first; it wins exactly when the candidate is available and syncs; a winner becomes active; a loser yields the row (number, name, last_error); no other technique changes |
| Runner.TryFrom | DCTimer.py:507-529 | the loop: no winner means one row per candidate; a winner means fewer rows and an active technique |
| Runner.TryFromLosers | DCTimer.py:507-529 | the rows are, in candidate order, the candidates before the winner (all of them without one), none of which could win, with their numbers and names |
| Runner.TryFromWinner | DCTimer.py:509-511 | a winner is the candidate right after the failed ones and becomes active_technique |
| Runner.TryOneProbes | DCTimer.py:508 | one turn adds exactly one probe, of its own candidate |
| Runner.TryFromTrace | DCTimer.py:507-529 | the search only appends probe, attempt and tool events to the trace |
| Runner.TryFromProbes | DCTimer.py:507-529 | exactly the candidates up to the winner, or all of them, are probed, once each, in candidate order; later candidates are never probed |
| Runner.TryFromUntouched | DCTimer.py:507-529 | techniques that are not candidates are left unchanged |
| Runner.TryFromActive | DCTimer.py:509-511 | the search sets active on the winner and on no other technique |
| Runner.TryFromReasons | DCTimer.py:520-528 | each row's reason is the last_error its technique holds afterwards |
| Runner.TryFromFiles | DCTimer.py:507-529 | the search changes no file outside the configs and backups of its candidates |
| Runner.TryTechniques | DCTimer.py:500-529 | technique 7 stops before any probe; an out-of-range number raises; in both cases the failure list is empty and nothing else changes; the list is cleared on every run and has at most six rows |
| Runner.SearchWinner | DCTimer.py:500-529 | a search either wins with the candidate after the failed ones, now active, or has one row per candidate |
| Runner.SearchFailureRows | DCTimer.py:500-529 | the failure list holds one row per failed candidate, in candidate order, with number, name and that technique's last_error |
| Runner.SearchProbes | DCTimer.py:500-529 | the probes made are exactly the tried candidates' numbers, in order |
| Runner.SearchTrace | DCTimer.py:500-529 | the search appends only its own events and leaves non-candidates unchanged |
| Runner.SearchWinsFirst | DCTimer.py:507-511 | the search succeeds exactly when some candidate can win, and the winner is the first such candidate |
| Runner.FallbackListsAllSix | DCTimer.py:505 | with no forced technique and no winner, the failure rows are techniques 1 to 6 in order |
| Runner.ForcedIsOnlyCandidate | DCTimer.py:505 | forcing n in 1..6: success exactly when technique n can win, with no rows; otherwise a single row for n; only n is probed; the others are untouched |
| Runner.ForcedTurn | DCTimer.py:505-529 | forcing n: the technique and the files are what its is_available and, when available, its sync_time left |
| Runner.SingleActiveTechnique | DCTimer.py:509-511 | on a fresh DCTimer at most one technique is active after a search, and it is active_technique |
| Runner.ForcedNtpdateWithoutRoot | DCTimer.py:279-281 | forcing ntpdate without root fails with the single row (1, ntpdate, "Root required for ntpdate") and changes no file |
| Runner.ValidatePort | DCTimer.py:494-498 | a port is accepted exactly when it is in 1..65535, and is returned unchanged |
| Session.RunTask | DCTimer.py:578-636 | faketime launches `faketime <stored time>` followed by the split command once and returns its status, or gives status 1 and launches nothing without a stored time or when the split fails; any other technique hands the command to the shell and returns its status; nothing but the trace changes |
| Session.Finally | DCTimer.py:637-639 | resets the active technique exactly once, if there is one; the reset event comes first and only EnableNtp runs after it; nothing changes without an active technique |
| Session.Attempt | DCTimer.py:569-636 | no winner or technique 7 exits with status 1; an out-of-range number raises; a winner runs the command: under ntpdate, the service techniques or the date loop it goes to the shell once and its status is returned; under faketime `faketime <stored time> <args>` is launched once and its status returned, or nothing is launched and the status is 1 without a stored time or a split; at most one launch is appended after the search |
| Session.ExecuteCommand | DCTimer.py:568-639 | returns exactly when the search succeeds, and then returns the command's status (the shell's, or faketime's launch, or 1 when faketime has no stored time or the split fails), exits with 1 when no technique wins or technique 7 is asked for, raises on an out-of-range number; it launches the user's command at most once, and keeps the earlier trace as a prefix; reset runs exactly once when a technique is active after the search, and never otherwise |
| Session.SearchHasNoReset | DCTimer.py:500-529 | the search never calls reset |
| Session.AttemptHasNoReset | DCTimer.py:569-636 | nothing before the finally calls reset |
| Session.ResetOncePerActive | DCTimer.py:568-639 | on every way out (return, sys.exit, exception) reset runs exactly once when a technique is active after the search, and never otherwise |
| Session.FreshResetsOnlyWinner | DCTimer.py:568-639 | on a fresh DCTimer reset runs once when the search succeeds and never when it fails |
| Session.ResetAfterCommand | DCTimer.py:637-639 | no launch follows the reset, and only the active technique is reset |
| Session.FinallyComesLast | DCTimer.py:637-639 | the finally adds at most one reset, of the active technique, with no launch after it |
| Session.FaketimeWrapsCommand | DCTimer.py:580-602 | forcing faketime with a seeded clock launches `faketime @<virtual seconds> <args>` and no other task (at most one task event in the whole trace), returns its status, touches no file, and resets once |
| Session.ServiceWinnerRestored | DCTimer.py:637-639 | a winning forced service technique leaves the filesystem exactly as it found it once the finally restores its config |
| Session.FailedServiceKeepsConfig | DCTimer.py:570-574 | a forced service technique whose service step fails exits with status 1, is never reset, and its new config stays in place |
| Session.FailedServiceSearch | DCTimer.py:507-529 | that candidate loses after writing its config, and no technique is active |

## Left out

- shell_mode, reset_all, main and its argument parsing, signal_handler, print_failure_matrix, print_success, get_target_ip: outside the modelled core.
- Logging and console output: run_command's verbose output and the container advisories in try_techniques only print, so they are not modelled.
- get_ntp_time and ntplib: the network is out of scope. The virtual clock is seeded through VirtualClock.Update.
- The lock around the two clock globals: the model is sequential.
- datetime arithmetic: times are whole epoch seconds and the local instant is `Env.now`. Sub-second offsets, and the truncation done by `int(vntp.timestamp())`, are not modelled.
- Processes and files are the `Env` oracle. The `OSError` a missing tool would raise from `subprocess.run` inside run_command (it is not caught there) is not modelled.
- restore_file whose copy succeeds but whose `os.remove` then fails is not modelled. The model treats copy and remove as one step governed by `copyOk`.
- Files.BackupFile: a copy is all or nothing in the model. shutil.copy2 is a copy followed by copystat, so a raise can leave a partial or complete backup behind; backup_file (DCTimer.py:164-170) would then treat that leftover as an existing backup and keep it from then on. The model does not promise anything about that case.
- Files.RestoreFile: a copy2 that raises partway through the restore (DCTimer.py:181-188) can leave the config truncated; the model leaves the config unchanged instead.
- Host.Env: `now` is one local instant for a whole run, so when the Dynamic Date Loop loses and faketime is tried next, both read the virtual clock at the same instant, whereas DCTimer.py calls get_virtual_ntp_time separately at :438 and :465, moments apart.
- Host.Env: `copyOk` is one flag for every copy of a run, so a backup copy that works followed by a restore copy that fails cannot be expressed.
- os.makedirs before the timesyncd and openntpd config writes is folded into `canWrite`.
- execute_command chooses how to launch the command by testing for the faketime class (DCTimer.py:580), and so does Session.RunTask. supports_shell and the other capability flags are never read by the modelled functions and are not modelled.
- Techniques.Reset: reset never sets active back to False (DCTimer.py:293-294, 333-335, 379-381, 421-423, 450-453, 472-473), and neither does the model.
- Techniques.Reset: candidates that failed are never reset. A service candidate that wrote its config and then failed leaves that config in place (Session.FailedServiceKeepsConfig).
- Techniques.DateLoopSync: the Dynamic Date Loop checks root only in is_available (DCTimer.py:433-435), not in sync_time (DCTimer.py:437-449), and so does the model.
- Session.Finally: the finally resets only when active_technique is set (DCTimer.py:638-639), so a run with no winner resets nothing, and the model does the same.
- last_error is a symbolic `Message`, and `Techniques.Text` gives its exact wording. The "Not available" and "Unknown error" defaults of the failure list are modelled, but no path reaches them, because every failure sets a message.
- Techniques.Sync: ntpdate runs in its corrected form, Techniques.NtpdateSync (see "## Findings"), so the whole search and execute_command are modelled with it. On a root host where ntpdate exits nonzero with the systemd signature on stderr, the model's failure row carries the container message where DCTimer.py writes "ntpdate command failed". Techniques.NtpdateVersionsAgree proves that this last_error value is the only difference, so every search and session property that does not name a reason holds for the code as written too.
- Runner.TryTechniques: models `self.techniques[technique_num-1]` for any integer. argparse limits the number to 1..7, but the method itself does not; negative numbers wrap around and out-of-range numbers raise IndexError.

## Findings

| source | as written | input that shows it | evidently intended | confidence | as-written member | corrected member |
|---|---|---|---|---|---|---|
| DCTimer.py:284-289 | ntpdate runs through run_command with check=True, so a nonzero exit comes back as None and the test of its stderr for "System has not been booted with systemd" can never succeed | root on Linux, ntpdate on the PATH, ntpdate exits 1 printing the systemd signature on stderr | such a host reports "Systemd is not available (container or minimal OS). Technique not supported." | not executed | Techniques.NtpdateSyncAsWritten (with Techniques.SystemdSignatureIgnored) | Techniques.NtpdateSync |
