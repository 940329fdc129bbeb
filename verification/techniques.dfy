/** The six time-synchronisation techniques: their availability checks, their
    sync_time step and their reset, each as a pure function from the technique's
    state, the environment, the virtual clock and the filesystem. */
module Techniques {
  import opened Wrappers
  import opened VirtualClock
  import opened Decimal
  import opened Files
  import opened Host

  const DefaultNtpPort := 123

  /** DEFAULT_NTP_SERVERS joined by single spaces. */
  const FallbackNtp := "pool.ntp.org time.nist.gov time.google.com"

  /** The daemons behind the three persistent, service-backed techniques. */
  datatype Daemon = Ntpd | Timesyncd | OpenNtpd

  /** The six techniques. */
  datatype Kind = Ntpdate | Service(daemon: Daemon) | DateLoop | Faketime
  {
    function Number(): int
    {
      match this
      case Ntpdate => 1
      case Service(Ntpd) => 2
      case Service(Timesyncd) => 3
      case Service(OpenNtpd) => 4
      case DateLoop => 5
      case Faketime => 6
    }

    function Name(): string
    {
      match this
      case Ntpdate => "ntpdate"
      case Service(Ntpd) => "ntpd"
      case Service(Timesyncd) => "systemd-timesyncd"
      case Service(OpenNtpd) => "openntpd"
      case DateLoop => "Dynamic Date Loop"
      case Faketime => "faketime"
    }
  }

  /** The values last_error takes. `Text` gives the exact message of each;
      keeping them symbolic lets the model compare messages without spelling
      them out. */
  datatype Message =
    | NotInPath(kind: Kind)
    | NotFound(kind: Kind)
    | LinuxOnly(kind: Kind)
    | RootRequired(kind: Kind)
    | CustomPort(kind: Kind)
    | SystemdUnavailable
    | NtpdateFailed
    | WriteFailed(daemon: Daemon, detail: string)
    | StepFailed(argv: Argv)
    | NoVirtualTime
    | DateFailed
    | NotAvailable
    | UnknownError

  /** Which config file a write failure names. */
  function ConfigLabel(d: Daemon): string
  {
    match d
    case Ntpd => "ntpd"
    case Timesyncd => "timesyncd"
    case OpenNtpd => "openntpd"
  }

  /** The text of a message. Every text is non-empty, so a last_error that is
      set is always truthy. */
  function Text(m: Message): (s: string)
    ensures |s| > 0
  {
    match m
    case NotInPath(k) => k.Name() + " not found in PATH"
    case NotFound(k) => k.Name() + " not found"
    case LinuxOnly(k) => k.Name() + " is only supported on Linux"
    case RootRequired(k) => "Root required for " + k.Name()
    case CustomPort(k) => k.Name() + " does not support custom ports"
    case SystemdUnavailable => "Systemd is not available (container or minimal OS). Technique not supported."
    case NtpdateFailed => "ntpdate command failed"
    case WriteFailed(d, detail) => "Failed to write " + ConfigLabel(d) + " config: " + detail
    case StepFailed(argv) => Join(argv) + " failed"
    case NoVirtualTime => "No virtual NTP time available"
    case DateFailed => "date command failed"
    case NotAvailable => "Not available"
    case UnknownError => "Unknown error"
  }

  /** A technique object's mutable state. `resetNeeded` is only ever set by the
      Dynamic Date Loop and `fakeTime` only by faketime. */
  datatype Technique = Technique(
    kind: Kind,
    active: bool,
    lastError: Option<Message>,
    resetNeeded: bool,
    fakeTime: Option<string>)

  /** A technique as the DCTimer constructor creates it. */
  function Fresh(k: Kind): Technique
  {
    Technique(k, false, None, false, None)
  }

  // ---------------------------------------------------------------------------
  // is_available

  /** What a technique needs before it is tried, as a set of conditions. */
  predicate Available(k: Kind, env: Env)
  {
    match k
    case Ntpdate => env.onPath("ntpdate") && env.isLinux
    case Service(Ntpd) => env.onPath("ntpd") && env.isLinux
    case Service(Timesyncd) => env.pathExists("/lib/systemd/systemd-timesyncd") && env.isLinux
    case Service(OpenNtpd) => env.onPath("ntpd") && env.pathExists("/etc/openntpd") && env.isLinux
    case DateLoop => env.isLinux && env.isRoot
    case Faketime => env.onPath("faketime")
  }

  /** The checks of is_available in the order DCTimer.py makes them; the
      first that fails gives the message. */
  function MissingPrerequisite(k: Kind, env: Env): Option<Message>
  {
    match k
    case Ntpdate =>
      if !env.onPath("ntpdate") then Some(NotInPath(k))
      else if !env.isLinux then Some(LinuxOnly(k))
      else None
    case Service(Ntpd) =>
      if !env.onPath("ntpd") then Some(NotInPath(k))
      else if !env.isLinux then Some(LinuxOnly(k))
      else None
    case Service(Timesyncd) =>
      if !env.pathExists("/lib/systemd/systemd-timesyncd") then Some(NotFound(k))
      else if !env.isLinux then Some(LinuxOnly(k))
      else None
    case Service(OpenNtpd) =>
      if !env.onPath("ntpd") || !env.pathExists("/etc/openntpd") then Some(NotFound(k))
      else if !env.isLinux then Some(LinuxOnly(k))
      else None
    case DateLoop =>
      if !env.isLinux then Some(LinuxOnly(k))
      else if !env.isRoot then Some(RootRequired(k))
      else None
    case Faketime =>
      if !env.onPath("faketime") then Some(NotInPath(k))
      else None
  }

  /** The answer of is_available and the technique afterwards. */
  datatype Probe = Probe(available: bool, tech: Technique)

  /** is_available: on failure it records why in last_error and touches
      nothing else; on success it changes nothing at all. */
  function IsAvailable(t: Technique, env: Env): (r: Probe)
    ensures r.available <==> Available(t.kind, env)
    ensures r.available ==> r.tech == t
    ensures !r.available ==> r.tech == t.(lastError := r.tech.lastError) && r.tech.lastError.Some?
    ensures t.kind == DateLoop && env.isLinux && !env.isRoot
            ==> r.tech.lastError == Some(RootRequired(DateLoop))
  {
    var missing := MissingPrerequisite(t.kind, env);
    if missing.Some? then Probe(false, t.(lastError := missing)) else Probe(true, t)
  }

  // ---------------------------------------------------------------------------
  // sync_time

  /** The outcome of sync_time: its boolean result, the technique, the
      filesystem and the tools it ran, in order. */
  datatype Step = Step(ok: bool, tech: Technique, files: Files, events: seq<Event>)

  /** The port check of techniques 1 to 4: a non-default port is recorded in
      last_error and the attempt goes on. */
  function PortWarning(t: Technique, port: int): Technique
  {
    if port != DefaultNtpPort then t.(lastError := Some(CustomPort(t.kind)))
    else t
  }

  /** Every successful attempt succeeds in the same way, whatever the port. */
  predicate Succeeds(k: Kind, env: Env, clock: Clock, server: string)
  {
    match k
    case Ntpdate => env.isRoot && env.exitCode(NtpdateArgv(server)) == 0
    case Service(d) =>
      && env.isRoot
      && env.canWrite(ConfigPath(d))
      && forall i :: 0 <= i < |ServiceSteps(d)| ==> env.exitCode(ServiceSteps(d)[i]) == 0
    case DateLoop =>
      clock.Seeded? && env.exitCode(DateArgv(clock.reference + (env.now - clock.capturedAt))) == 0
    case Faketime => clock.Seeded?
  }

  // --- technique 1: ntpdate

  const DisableNtp: Argv := ["timedatectl", "set-ntp", "off"]
  const EnableNtp: Argv := ["timedatectl", "set-ntp", "true"]

  const SystemdSignature := "System has not been booted with systemd"

  function NtpdateArgv(server: string): Argv
  {
    ["ntpdate", "-u", server]
  }

  /** The message chosen for a failed ntpdate run from the result run_command
      handed back: the container message when stderr carries the systemd
      signature. */
  function NtpdateFailure(result: Option<Completed>): Message
  {
    if result.Some? && result.value.stderr != "" && Contains(result.value.stderr, SystemdSignature)
    then SystemdUnavailable
    else NtpdateFailed
  }

  /** NTPDateTechnique.sync_time with the ntpdate run made through run_command
      with the given `check`. The attempt to disable system NTP runs first,
      before the root check, and its failure is only warned about. */
  function NtpdateSyncWith(t: Technique, env: Env, files: Files, server: string, port: int, check: bool): (r: Step)
    requires t.kind == Ntpdate
    ensures r.ok <==> Succeeds(Ntpdate, env, Unseeded, server)
    ensures r.tech.kind == t.kind && r.tech.active == (t.active || r.ok)
    ensures r.tech.resetNeeded == t.resetNeeded && r.tech.fakeTime == t.fakeTime
    ensures !r.ok ==> r.tech.lastError.Some?
    ensures !env.isRoot ==> r.tech.lastError == Some(RootRequired(Ntpdate))
    ensures r.files == files
    ensures |r.events| > 0 && r.events[0] == Ran(DisableNtp)
    ensures forall i :: 0 <= i < |r.events| ==> r.events[i].Ran?
  {
    if !env.isRoot then
      Step(false, t.(lastError := Some(RootRequired(Ntpdate))), files, [Ran(DisableNtp)])
    else
      var t1 := PortWarning(t, port);
      var argv := NtpdateArgv(server);
      var result := RunCommand(env, argv, check);
      RunCommandFailure(env, argv, check);
      if CommandFailed(result) then
        Step(false, t1.(lastError := Some(NtpdateFailure(result))), files, [Ran(DisableNtp), Ran(argv)])
      else
        Step(true, t1.(active := true), files, [Ran(DisableNtp), Ran(argv)])
  }

  /** sync_time of ntpdate as DCTimer.py writes it: ntpdate runs with
      check=True, so a failed run reaches the stderr test as None and the
      systemd signature can never be recognised. */
  function NtpdateSyncAsWritten(t: Technique, env: Env, files: Files, server: string, port: int): (r: Step)
    requires t.kind == Ntpdate
    ensures env.isRoot && !r.ok ==> r.tech.lastError == Some(NtpdateFailed)
  {
    NtpdateSyncWith(t, env, files, server, port, true)
  }

  /** sync_time of ntpdate with the failed run's stderr inspected, as the
      reclassification of a systemd-less host evidently intends; this is the
      version the rest of the model uses. */
  function NtpdateSync(t: Technique, env: Env, files: Files, server: string, port: int): (r: Step)
    requires t.kind == Ntpdate
    ensures env.isRoot && !r.ok ==>
              (r.tech.lastError == Some(SystemdUnavailable)
               <==> Contains(env.stderrOf(NtpdateArgv(server)), SystemdSignature))
    ensures env.isRoot && !r.ok ==>
              r.tech.lastError == Some(SystemdUnavailable) || r.tech.lastError == Some(NtpdateFailed)
  {
    NtpdateSyncWith(t, env, files, server, port, false)
  }

  /** The input that separates the two: ntpdate fails on a host without
      systemd. As written the failure is reported as a plain command failure;
      the corrected version reports the container message. */
  lemma SystemdSignatureIgnored(t: Technique, env: Env, files: Files, server: string, port: int)
    requires t.kind == Ntpdate && env.isRoot
    requires env.exitCode(NtpdateArgv(server)) != 0
    requires Contains(env.stderrOf(NtpdateArgv(server)), SystemdSignature)
    ensures NtpdateSyncAsWritten(t, env, files, server, port).tech.lastError == Some(NtpdateFailed)
    ensures NtpdateSync(t, env, files, server, port).tech.lastError == Some(SystemdUnavailable)
  {
  }

  /** The two versions differ in nothing but last_error, and in that only on
      a root host where ntpdate fails with the systemd signature: the result,
      the files, the tools run and every other field agree. */
  lemma NtpdateVersionsAgree(t: Technique, env: Env, files: Files, server: string, port: int)
    requires t.kind == Ntpdate
    ensures var a := NtpdateSyncAsWritten(t, env, files, server, port);
            var c := NtpdateSync(t, env, files, server, port);
            && a.ok == c.ok && a.files == c.files && a.events == c.events
            && a.tech == c.tech.(lastError := a.tech.lastError)
            && (a.tech.lastError != c.tech.lastError
                <==> env.isRoot && env.exitCode(NtpdateArgv(server)) != 0
                     && Contains(env.stderrOf(NtpdateArgv(server)), SystemdSignature))
  {
    assert |SystemdSignature| > 0;
  }

  // --- techniques 2 to 4: ntpd, systemd-timesyncd, openntpd

  function ConfigPath(d: Daemon): string
  {
    match d
    case Ntpd => "/etc/ntp.conf"
    case Timesyncd => "/etc/systemd/timesyncd.conf"
    case OpenNtpd => "/etc/openntpd/ntpd.conf"
  }

  /** The configuration written for `server`. */
  function ConfigContent(d: Daemon, server: string): string
  {
    match d
    case Ntpd => "server " + server + " iburst\n"
    case Timesyncd => "[Time]\nNTP=" + server + "\nFallbackNTP=" + FallbackNtp + "\n"
    case OpenNtpd => "servers " + server + "\n"
  }

  /** The service commands, in the order they are run. When one exits
      nonzero, last_error is the command followed by " failed". */
  function ServiceSteps(d: Daemon): seq<Argv>
  {
    match d
    case Ntpd => [["systemctl", "restart", "ntp"], ["systemctl", "enable", "ntp"]]
    case Timesyncd => [["systemctl", "enable", "systemd-timesyncd"], ["systemctl", "restart", "systemd-timesyncd"], EnableNtp]
    case OpenNtpd => [["systemctl", "restart", "openntpd"], ["systemctl", "enable", "openntpd"]]
  }

  /** The position of the first step that exits nonzero, if any. */
  function FirstFailing(steps: seq<Argv>, env: Env): (r: Option<nat>)
    ensures r.Some? ==> r.value < |steps| && env.exitCode(steps[r.value]) != 0
    ensures r.Some? ==> forall j :: 0 <= j < r.value ==> env.exitCode(steps[j]) == 0
    ensures r.None? <==> forall j :: 0 <= j < |steps| ==> env.exitCode(steps[j]) == 0
  {
    if steps == [] then None
    else if env.exitCode(steps[0]) != 0 then Some(0)
    else match FirstFailing(steps[1..], env)
      case None => None
      case Some(i) => Some(i + 1)
  }

  /** The Ran events of running `steps` one after another. */
  function Runs(steps: seq<Argv>): (r: seq<Event>)
  {
    seq(|steps|, i requires 0 <= i < |steps| => Ran(steps[i]))
  }

  /** The files sync_time and reset of a technique may touch. */
  function Touched(k: Kind): set<string>
  {
    if k.Service? then {ConfigPath(k.daemon), BackupPath(ConfigPath(k.daemon))} else {}
  }

  /** The service commands of `d` run in order until one exits nonzero: that
      step's message becomes last_error and later steps are not run; when
      all exit 0 the technique becomes active. They touch no file. */
  function ServiceCommands(t: Technique, d: Daemon, env: Env, files: Files): (r: Step)
    ensures r.files == files
    ensures r.ok <==> FirstFailing(ServiceSteps(d), env).None?
    ensures r.ok ==> r.tech == t.(active := true) && r.events == Runs(ServiceSteps(d))
    ensures !r.ok ==>
              var i := FirstFailing(ServiceSteps(d), env).value;
              r.tech == t.(lastError := Some(StepFailed(ServiceSteps(d)[i])))
              && r.events == Runs(ServiceSteps(d)[..i + 1])
    ensures forall i :: 0 <= i < |r.events| ==> r.events[i].Ran?
  {
    var steps := ServiceSteps(d);
    match FirstFailing(steps, env)
    case Some(i) => Step(false, t.(lastError := Some(StepFailed(steps[i]))), files, Runs(steps[..i + 1]))
    case None => Step(true, t.(active := true), files, Runs(steps))
  }

  /** sync_time of a service-backed technique: root check, port warning,
      backup of the configuration, the write of the new configuration, then
      the service commands. The backup's result is ignored, so a missing
      configuration or a failed copy does not stop the attempt. */
  function ServiceSync(t: Technique, d: Daemon, env: Env, files: Files, server: string, port: int): (r: Step)
    requires t.kind == Service(d)
    ensures r.ok <==> Succeeds(t.kind, env, Unseeded, server)
    ensures r.tech.kind == t.kind && r.tech.active == (t.active || r.ok)
    ensures r.tech.resetNeeded == t.resetNeeded && r.tech.fakeTime == t.fakeTime
    ensures !r.ok ==> r.tech.lastError.Some?
    ensures forall i :: 0 <= i < |r.events| ==> r.events[i].Ran?
    ensures AgreeExcept(files, r.files, Touched(t.kind))
  {
    if !env.isRoot then
      Step(false, t.(lastError := Some(RootRequired(t.kind))), files, [])
    else
      var t1 := PortWarning(t, port);
      var cfg := ConfigPath(d);
      var saved := BackupFile(files, cfg, env.copyOk).files;
      if !env.canWrite(cfg) then
        Step(false, t1.(lastError := Some(WriteFailed(d, env.writeError))), saved, [])
      else
        ServiceCommands(t1, d, env, saved[cfg := ConfigContent(d, server)])
  }

  /** The order of the checks in a service-backed sync_time: without root
      nothing is touched or run; a failed write leaves the backup in place and
      runs no service command; after a successful write the first failing
      service command decides last_error and nothing after it runs. */
  lemma ServiceSyncOrder(t: Technique, d: Daemon, env: Env, files: Files, server: string, port: int)
    requires t.kind == Service(d)
    ensures var r := ServiceSync(t, d, env, files, server, port);
            && (!env.isRoot ==> r.tech.lastError == Some(RootRequired(t.kind))
                                && r.files == files && r.events == [])
            && (env.isRoot && !env.canWrite(ConfigPath(d)) ==>
                  && r.tech.lastError == Some(WriteFailed(d, env.writeError))
                  && r.files == BackupFile(files, ConfigPath(d), env.copyOk).files
                  && r.events == [])
            && (env.isRoot && env.canWrite(ConfigPath(d)) ==>
                  && r.files == BackupFile(files, ConfigPath(d), env.copyOk).files[ConfigPath(d) := ConfigContent(d, server)]
                  && r.events == ServiceCommands(PortWarning(t, port), d, env, files).events)
            && (env.isRoot && env.canWrite(ConfigPath(d)) && FirstFailing(ServiceSteps(d), env).Some? ==>
                  r.tech.lastError == Some(StepFailed(ServiceSteps(d)[FirstFailing(ServiceSteps(d), env).value])))
  {
  }

  // --- technique 5: Dynamic Date Loop

  function DateArgv(seconds: int): Argv
  {
    ["date", "-s", AtEpoch(seconds)]
  }

  /** DynamicDateLoopTechnique.sync_time: set the system clock to the virtual
      time with `date -s`; only a successful set makes a later reset do
      anything. The root check of this technique is in is_available. */
  function DateLoopSync(t: Technique, env: Env, clock: Clock, files: Files): (r: Step)
    requires t.kind == DateLoop
    ensures r.ok <==> Succeeds(t.kind, env, clock, "")
    ensures r.tech.kind == t.kind && r.tech.active == (t.active || r.ok)
    ensures r.tech.fakeTime == t.fakeTime
    ensures r.tech.resetNeeded == (t.resetNeeded || r.ok)
    ensures !r.ok ==> r.tech.lastError.Some?
    ensures clock.Unseeded? ==> r.tech.lastError == Some(NoVirtualTime) && r.events == []
    ensures clock.Seeded? ==>
              && |r.events| == 1 && r.events[0].Ran? && |r.events[0].argv| == 3
              && r.events[0].argv[..2] == ["date", "-s"]
              && ParseAtEpoch(r.events[0].argv[2]) == Now(clock, env.now)
    ensures r.files == files
  {
    match Now(clock, env.now)
    case None => Step(false, t.(lastError := Some(NoVirtualTime)), files, [])
    case Some(v) =>
      var argv := DateArgv(v);
      AtEpochRoundTrip(v);
      if env.exitCode(argv) != 0 then Step(false, t.(lastError := Some(DateFailed)), files, [Ran(argv)])
      else Step(true, t.(active := true, resetNeeded := true), files, [Ran(argv)])
  }

  // --- technique 6: faketime

  /** FaketimeTechnique.sync_time: store the virtual time as faketime's
      "@<seconds>" argument for wrapping the user's command later; nothing on
      the system changes. */
  function FaketimeSync(t: Technique, env: Env, clock: Clock, files: Files): (r: Step)
    requires t.kind == Faketime
    ensures r.ok <==> Succeeds(t.kind, env, clock, "")
    ensures r.tech.kind == t.kind && r.tech.active == (t.active || r.ok)
    ensures r.tech.resetNeeded == t.resetNeeded
    ensures !r.ok ==> r.tech.lastError == Some(NoVirtualTime) && r.tech.fakeTime == t.fakeTime
    ensures r.ok ==> Truthy(r.tech.fakeTime) && ParseAtEpoch(r.tech.fakeTime.value) == Now(clock, env.now)
    ensures r.ok ==> r.tech.lastError == t.lastError
    ensures r.files == files && r.events == []
  {
    match Now(clock, env.now)
    case None => Step(false, t.(lastError := Some(NoVirtualTime)), files, [])
    case Some(v) =>
      AtEpochRoundTrip(v);
      Step(true, t.(fakeTime := Some(AtEpoch(v)), active := true), files, [])
  }

  // --- dispatch

  /** sync_time of any technique. Whether it succeeds depends only on the
      environment and the clock, never on the port, the filesystem or the
      technique's earlier state; active is set exactly on success; a failure
      always leaves a non-empty last_error; only tools are run; and only the
      technique's own configuration and its backup can change. ntpdate
      runs in its corrected form, NtpdateSync; NtpdateVersionsAgree bounds
      how far that is from DCTimer.py as written. */
  function Sync(t: Technique, env: Env, clock: Clock, files: Files, server: string, port: int): (r: Step)
    ensures r.ok <==> Succeeds(t.kind, env, clock, server)
    ensures r.tech.kind == t.kind && r.tech.active == (t.active || r.ok)
    ensures !r.ok ==> r.tech.lastError.Some?
    ensures forall i :: 0 <= i < |r.events| ==> r.events[i].Ran?
    ensures AgreeExcept(files, r.files, Touched(t.kind))
  {
    match t.kind
    case Ntpdate => NtpdateSync(t, env, files, server, port)
    case Service(d) => ServiceSync(t, d, env, files, server, port)
    case DateLoop => DateLoopSync(t, env, clock, files)
    case Faketime => FaketimeSync(t, env, clock, files)
  }

  /** A non-default port is only a warning: the attempt succeeds or fails
      exactly as it would on port 123, and for techniques 1 to 4 a success on
      another port leaves the warning in last_error. */
  lemma PortIsSoftWarning(t: Technique, env: Env, clock: Clock, files: Files, server: string, port: int)
    ensures Sync(t, env, clock, files, server, port).ok == Sync(t, env, clock, files, server, DefaultNtpPort).ok
    ensures (t.kind.Ntpdate? || t.kind.Service?) && port != DefaultNtpPort && Sync(t, env, clock, files, server, port).ok
            ==> Sync(t, env, clock, files, server, port).tech.lastError
                == Some(CustomPort(t.kind))
  {
  }

  // ---------------------------------------------------------------------------
  // reset

  /** The technique, filesystem and tool runs after reset. */
  datatype Undo = Undo(tech: Technique, files: Files, events: seq<Event>)

  /** reset: re-enable system NTP (techniques 1 to 4, and 5 only when its
      `date -s` went through), restore the configuration of techniques 2 to 4
      from its backup, nothing at all for faketime. reset never clears active. */
  function Reset(t: Technique, env: Env, files: Files): (r: Undo)
    ensures r.tech.kind == t.kind && r.tech.active == t.active
    ensures t.kind != DateLoop ==> r.tech == t
    ensures t.kind == DateLoop ==> r.tech == t.(resetNeeded := false)
    ensures (Ran(EnableNtp) in r.events) <==> (t.kind != Faketime && (t.kind == DateLoop ==> t.resetNeeded))
    ensures forall i :: 0 <= i < |r.events| ==> r.events[i] == Ran(EnableNtp)
    ensures AgreeExcept(files, r.files, Touched(t.kind))
    ensures t.kind.Service? && BackupPath(ConfigPath(t.kind.daemon)) in files && env.copyOk
            ==> ConfigPath(t.kind.daemon) in r.files
                && r.files[ConfigPath(t.kind.daemon)] == files[BackupPath(ConfigPath(t.kind.daemon))]
                && BackupPath(ConfigPath(t.kind.daemon)) !in r.files
  {
    match t.kind
    case Ntpdate => Undo(t, files, [Ran(EnableNtp)])
    case Service(d) => Undo(t, RestoreFile(files, ConfigPath(d), env.copyOk).files, [Ran(EnableNtp)])
    case DateLoop =>
      if t.resetNeeded then Undo(t.(resetNeeded := false), files, [Ran(EnableNtp)])
      else Undo(t, files, [])
    case Faketime => Undo(t, files, [])
  }

  /** The Dynamic Date Loop's reset does something only after a successful
      `date -s`, and at most once: a fresh technique whose sync failed resets
      to nothing, and a second reset never runs anything. */
  lemma DateLoopResetOnlyAfterSet(env: Env, clock: Clock, files: Files, server: string, port: int)
    ensures var s := Sync(Fresh(DateLoop), env, clock, files, server, port);
            var u := Reset(s.tech, env, s.files);
            && (u.events != [] <==> s.ok)
            && Reset(u.tech, env, u.files).events == []
  {
  }

  /** Rollback of a service-backed technique: whatever point its sync_time
      reached, a reset afterwards puts the filesystem back exactly as it was,
      provided the configuration existed, had no stale backup, and copying
      works. */
  lemma {:induction false} ServiceRollback(d: Daemon, t: Technique, env: Env, files: Files, server: string, port: int)
    requires t.kind == Service(d)
    requires ConfigPath(d) in files && BackupPath(ConfigPath(d)) !in files && env.copyOk
    ensures var s := Sync(t, env, Unseeded, files, server, port);
            Reset(s.tech, env, s.files).files == files
  {
    var cfg := ConfigPath(d);
    var bp := BackupPath(cfg);
    assert bp != cfg by {
      assert |bp| > |cfg|;
    }
    var s := Sync(t, env, Unseeded, files, server, port);
    var saved := BackupFile(files, cfg, true);
    if env.isRoot {
      assert saved.files == files[bp := files[cfg]];
      if env.canWrite(cfg) {
        BackupRestoreRoundTrip(files, cfg, ConfigContent(d, server));
      } else {
        var back := RestoreFile(saved.files, cfg, true);
        assert back.files.Keys == files.Keys;
      }
    }
  }
}
