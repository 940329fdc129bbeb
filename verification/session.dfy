/** DCTimer.execute_command: search for a technique, run the user's command
    under it, and reset the active technique on every way out. */
module Session {
  import opened Wrappers
  import opened VirtualClock
  import opened Decimal
  import opened Files
  import opened Host
  import opened Techniques
  import opened Runner

  /** How execute_command ends: it returns the command's exit status, it
      calls sys.exit, or an exception (the IndexError of a forced number out
      of range) escapes it. */
  datatype Exit = Returned(code: int) | SystemExit(code: int) | Raised

  /** The way out and the machine left behind. */
  datatype Run = Run(exit: Exit, machine: Machine)

  /** The user's command once a technique is active. Under faketime it is
      split with shlex and launched as `faketime <time> <args>`; under any
      other technique it goes to the shell as it is. A command that cannot be
      split or launched, or a faketime technique without a stored time, gives
      exit status 1. Nothing but the trace changes. */
  function RunTask(m: Machine, env: Env, command: string): (r: Run)
    requires Valid(m) && m.active.Some?
    ensures r.exit.Returned?
    ensures r.machine == m.(trace := r.machine.trace)
    ensures |m.trace| <= |r.machine.trace| <= |m.trace| + 1 && r.machine.trace[..|m.trace|] == m.trace
    ensures forall i :: |m.trace| <= i < |r.machine.trace| ==> r.machine.trace[i].IsTask()
    ensures m.techs[m.active.value].kind != Faketime ==>
              r.machine.trace == m.trace + [Shell(command)] && r.exit.code == env.shell(command).GetOr(1)
    ensures m.techs[m.active.value].kind == Faketime && |r.machine.trace| > |m.trace| ==>
              && Truthy(m.techs[m.active.value].fakeTime)
              && r.machine.trace[|m.trace|].Wrapped? && |r.machine.trace[|m.trace|].argv| >= 2
              && r.machine.trace[|m.trace|].argv[..2] == ["faketime", m.techs[m.active.value].fakeTime.value]
    ensures |r.machine.trace| == |m.trace| ==> r.exit == Returned(1)
    ensures m.techs[m.active.value].kind == Faketime && Truthy(m.techs[m.active.value].fakeTime)
            && env.split(command).Some? ==>
              var argv := ["faketime", m.techs[m.active.value].fakeTime.value] + env.split(command).value;
              r.machine.trace == m.trace + [Wrapped(argv)] && r.exit.code == env.launch(argv).GetOr(1)
    ensures m.techs[m.active.value].kind == Faketime
            && (!Truthy(m.techs[m.active.value].fakeTime) || env.split(command).None?) ==>
              r == Run(Returned(1), m)
  {
    var tech := m.techs[m.active.value];
    if tech.kind == Faketime then
      if Truthy(tech.fakeTime) then
        match env.split(command)
        case None => Run(Returned(1), m)
        case Some(args) =>
          var argv := ["faketime", tech.fakeTime.value] + args;
          assert argv[..2] == ["faketime", tech.fakeTime.value];
          Run(Returned(env.launch(argv).GetOr(1)), m.(trace := m.trace + [Wrapped(argv)]))
      else Run(Returned(1), m)
    else
      Run(Returned(env.shell(command).GetOr(1)), m.(trace := m.trace + [Shell(command)]))
  }

  /** The `finally` of execute_command: reset the active technique, if there
      is one, and leave everything else to reset itself. */
  function Finally(m: Machine, env: Env): (r: Machine)
    requires Valid(m)
    ensures Valid(r) && r.active == m.active && r.failed == m.failed
    ensures ResetCount(r.trace) == ResetCount(m.trace) + (if m.active.Some? then 1 else 0)
    ensures |m.trace| <= |r.trace| && r.trace[..|m.trace|] == m.trace
    ensures m.active.None? ==> r == m
    ensures m.active.Some? ==>
              && |r.trace| > |m.trace| && r.trace[|m.trace|] == ResetCalled(m.active.value + 1)
              && forall i :: |m.trace| < i < |r.trace| ==> r.trace[i] == Ran(EnableNtp)
    ensures m.active.Some? ==> AgreeExcept(m.files, r.files, Touched(Order[m.active.value]))
    ensures forall j :: 0 <= j < 6 && m.active != Some(j) ==> r.techs[j] == m.techs[j]
  {
    match m.active
    case None => m
    case Some(k) =>
      var undo := Reset(m.techs[k], env, m.files);
      OrderNumbers();
      var tail := [ResetCalled(k + 1)] + undo.events;
      RunsOnly(undo.events);
      ResetCountAppend([ResetCalled(k + 1)], undo.events);
      ResetCountAppend(m.trace, tail);
      m.(techs := m.techs[k := undo.tech], files := undo.files, trace := m.trace + tail)
  }

  /** The `try` block of execute_command: a failed search (no winner, or
      technique 7) exits with status 1, an out-of-range forced number raises,
      and a successful one runs the command. */
  function Attempt(m: Machine, env: Env, clock: Clock, command: string, server: string, port: int, forced: Option<int>): (r: Run)
    requires Valid(m)
    ensures var o := TryTechniques(m, env, clock, server, port, forced).0;
            && (o == Succeeded <==> r.exit.Returned?)
            && (o == Exhausted || o == Unsupported <==> r.exit == SystemExit(1))
            && (o == NoSuchTechnique <==> r.exit == Raised)
    ensures var s := TryTechniques(m, env, clock, server, port, forced).1;
            && Valid(r.machine) && r.machine.active == s.active
            && |s.trace| <= |r.machine.trace| <= |s.trace| + 1 && r.machine.trace[..|s.trace|] == s.trace
            && (forall i :: |s.trace| <= i < |r.machine.trace| ==> r.machine.trace[i].IsTask())
    ensures var s := TryTechniques(m, env, clock, server, port, forced).1;
            r.exit.Returned? && s.techs[s.active.value].kind != Faketime ==>
              r.machine.trace == s.trace + [Shell(command)] && r.exit.code == env.shell(command).GetOr(1)
    ensures var s := TryTechniques(m, env, clock, server, port, forced).1;
            r.exit.Returned? && s.techs[s.active.value].kind == Faketime ==>
              var t := s.techs[s.active.value];
              if Truthy(t.fakeTime) && env.split(command).Some? then
                var argv := ["faketime", t.fakeTime.value] + env.split(command).value;
                r.machine.trace == s.trace + [Wrapped(argv)] && r.exit.code == env.launch(argv).GetOr(1)
              else
                r.machine.trace == s.trace && r.exit.code == 1
  {
    var (outcome, searched) := TryTechniques(m, env, clock, server, port, forced);
    match outcome
    case Succeeded => RunTask(searched, env, command)
    case Exhausted => Run(SystemExit(1), searched)
    case Unsupported => Run(SystemExit(1), searched)
    case NoSuchTechnique => Run(Raised, searched)
  }

  /** execute_command: the `try` block, then the `finally` that resets the
      active technique on every way out. */
  function ExecuteCommand(m: Machine, env: Env, clock: Clock, command: string, server: string, port: int, forced: Option<int>): (r: Run)
    requires Valid(m)
    ensures Valid(r.machine)
    ensures var o := TryTechniques(m, env, clock, server, port, forced).0;
            && (o == Succeeded <==> r.exit.Returned?)
            && (o == Exhausted || o == Unsupported <==> r.exit == SystemExit(1))
            && (o == NoSuchTechnique <==> r.exit == Raised)
    ensures var s := TryTechniques(m, env, clock, server, port, forced).1;
            ResetCount(r.machine.trace) == ResetCount(m.trace) + (if s.active.Some? then 1 else 0)
    ensures var s := TryTechniques(m, env, clock, server, port, forced).1;
            r.exit.Returned? && s.techs[s.active.value].kind != Faketime ==>
              r.exit.code == env.shell(command).GetOr(1)
    ensures var s := TryTechniques(m, env, clock, server, port, forced).1;
            r.exit.Returned? && s.techs[s.active.value].kind == Faketime ==>
              var t := s.techs[s.active.value];
              r.exit.code == if Truthy(t.fakeTime) && env.split(command).Some?
                             then env.launch(["faketime", t.fakeTime.value] + env.split(command).value).GetOr(1)
                             else 1
    ensures |m.trace| <= |r.machine.trace| && r.machine.trace[..|m.trace|] == m.trace
    ensures forall i, j :: |m.trace| <= i < j < |r.machine.trace| && r.machine.trace[i].IsTask() ==> !r.machine.trace[j].IsTask()
  {
    var body := Attempt(m, env, clock, command, server, port, forced);
    AttemptHasNoReset(m, env, clock, command, server, port, forced);
    SearchHasNoReset(m, env, clock, server, port, forced);
    var after := Finally(body.machine, env);
    AtMostOneTask(m.trace, TryTechniques(m, env, clock, server, port, forced).1.trace, body.machine.trace, after.trace);
    Run(body.exit, after)
  }

  /** The search itself never resets a technique. */
  lemma SearchHasNoReset(m: Machine, env: Env, clock: Clock, server: string, port: int, forced: Option<int>)
    requires Valid(m)
    ensures var s := TryTechniques(m, env, clock, server, port, forced).1;
            && EngineExtends(m.trace, s.trace)
            && ResetCount(s.trace) == ResetCount(m.trace)
  {
    SearchTrace(m, env, clock, server, port, forced);
    EngineKeepsResets(m.trace, TryTechniques(m, env, clock, server, port, forced).1.trace);
  }

  /** Nothing before the `finally` resets a technique: the search adds
      only its own events and the command only its launch. */
  lemma AttemptHasNoReset(m: Machine, env: Env, clock: Clock, command: string, server: string, port: int, forced: Option<int>)
    requires Valid(m)
    ensures var b := Attempt(m, env, clock, command, server, port, forced).machine;
            && |m.trace| <= |b.trace| && b.trace[..|m.trace|] == m.trace
            && (forall i :: |m.trace| <= i < |b.trace| ==> !b.trace[i].ResetCalled?)
            && ResetCount(b.trace) == ResetCount(m.trace)
  {
    SearchHasNoReset(m, env, clock, server, port, forced);
    var s := TryTechniques(m, env, clock, server, port, forced).1;
    var b := Attempt(m, env, clock, command, server, port, forced).machine;
    ExtendNoReset(m.trace, s.trace, b.trace);
  }

  /** A trace extended first by search events and then by launches gains no
      reset. */
  lemma ExtendNoReset(a: seq<Event>, s: seq<Event>, b: seq<Event>)
    requires |a| <= |s| <= |b| && s[..|a|] == a && b[..|s|] == s
    requires forall i :: |a| <= i < |s| ==> s[i].IsEngine()
    requires forall i :: |s| <= i < |b| ==> b[i].IsTask()
    ensures b[..|a|] == a
    ensures forall i :: |a| <= i < |b| ==> !b[i].ResetCalled?
    ensures ResetCount(b) == ResetCount(a)
  {
    assert b[..|a|] == b[..|s|][..|a|];
    forall i | |a| <= i < |b|
      ensures !b[i].ResetCalled?
    {
      if i < |s| {
        assert b[i] == b[..|s|][i];
      }
    }
    var searched := s[|a|..];
    var launched := b[|s|..];
    assert s == a + searched;
    assert b == s + launched;
    EngineHasNoReset(searched);
    TasksHaveNoReset(launched);
    ResetCountAppend(a, searched);
    ResetCountAppend(s, launched);
  }

  lemma {:induction false} TasksHaveNoReset(s: seq<Event>)
    requires forall i :: 0 <= i < |s| ==> s[i].IsTask()
    ensures ResetCount(s) == 0
  {
    if s != [] {
      TasksHaveNoReset(s[1..]);
    }
  }

  /** reset is called exactly once per execute_command when a technique is
      active at the end of the search, and not at all otherwise, on every way
      out: a returned command, sys.exit or an escaping exception. */
  lemma ResetOncePerActive(m: Machine, env: Env, clock: Clock, command: string, server: string, port: int, forced: Option<int>)
    requires Valid(m)
    ensures var s := TryTechniques(m, env, clock, server, port, forced).1;
            var r := ExecuteCommand(m, env, clock, command, server, port, forced);
            ResetCount(r.machine.trace) == ResetCount(m.trace) + (if s.active.Some? then 1 else 0)
  {
    AttemptHasNoReset(m, env, clock, command, server, port, forced);
  }

  /** On a freshly constructed DCTimer, reset runs exactly once when the
      search succeeds and never when it does not. */
  lemma FreshResetsOnlyWinner(files: Files, env: Env, clock: Clock, command: string, server: string, port: int, forced: Option<int>)
    ensures var o := TryTechniques(Initial(files), env, clock, server, port, forced).0;
            var r := ExecuteCommand(Initial(files), env, clock, command, server, port, forced);
            ResetCount(r.machine.trace) == (if o == Succeeded then 1 else 0)
  {
    SingleActiveTechnique(files, env, clock, server, port, forced);
    ResetOncePerActive(Initial(files), env, clock, command, server, port, forced);
  }

  /** The reset comes after the user's command: once execute_command has
      called reset, nothing of the command is launched any more, and only
      the active technique is reset. */
  lemma ResetAfterCommand(m: Machine, env: Env, clock: Clock, command: string, server: string, port: int, forced: Option<int>)
    requires Valid(m)
    ensures var s := TryTechniques(m, env, clock, server, port, forced).1;
            var t := ExecuteCommand(m, env, clock, command, server, port, forced).machine.trace;
            && |m.trace| <= |t| && t[..|m.trace|] == m.trace
            && (forall i, j :: |m.trace| <= i < j < |t| && t[i].ResetCalled? ==> !t[j].IsTask())
            && (forall i :: |m.trace| <= i < |t| && t[i].ResetCalled? ==> s.active.Some? && t[i].number == s.active.value + 1)
  {
    var b := Attempt(m, env, clock, command, server, port, forced).machine;
    AttemptHasNoReset(m, env, clock, command, server, port, forced);
    FinallyComesLast(b, env, |m.trace|);
  }

  /** After a trace without resets past `base`, the `finally` adds at most
      one reset, of the active technique, and no launch after it. */
  lemma FinallyComesLast(b: Machine, env: Env, base: nat)
    requires Valid(b) && base <= |b.trace|
    requires forall i :: base <= i < |b.trace| ==> !b.trace[i].ResetCalled?
    ensures var t := Finally(b, env).trace;
            && t[..base] == b.trace[..base]
            && (forall i, j :: base <= i < j < |t| && t[i].ResetCalled? ==> !t[j].IsTask())
            && (forall i :: base <= i < |t| && t[i].ResetCalled? ==> b.active.Some? && t[i].number == b.active.value + 1)
  {
    var t := Finally(b, env).trace;
    assert t[..base] == t[..|b.trace|][..base];
    assert forall i :: base <= i < |b.trace| ==> t[i] == b.trace[i];
  }

  /** Search events, then at most one more event, then no launch: at most one
      launch past the start. */
  lemma AtMostOneTask(a: seq<Event>, s: seq<Event>, b: seq<Event>, t: seq<Event>)
    requires EngineExtends(a, s)
    requires |s| <= |b| <= |s| + 1 && b[..|s|] == s
    requires |b| <= |t| && t[..|b|] == b && forall i :: |b| <= i < |t| ==> !t[i].IsTask()
    ensures |a| <= |t| && t[..|a|] == a
    ensures forall i, j :: |a| <= i < j < |t| && t[i].IsTask() ==> !t[j].IsTask()
  {
    assert t[..|a|] == b[..|s|][..|a|];
    assert forall k :: |a| <= k < |s| ==> t[k] == s[k];
  }

  /** Forcing faketime with a seeded virtual clock: the command is split and
      launched once as `faketime @<virtual seconds> <args>`, its status is
      returned, the filesystem is untouched, and faketime's reset is called
      once after it. */
  lemma FaketimeWrapsCommand(files: Files, env: Env, clock: Clock, command: string, server: string, port: int, args: seq<string>)
    requires env.onPath("faketime") && clock.Seeded? && env.split(command) == Some(args)
    ensures var r := ExecuteCommand(Initial(files), env, clock, command, server, port, Some(6));
            var argv := ["faketime", AtEpoch(Now(clock, env.now).value)] + args;
            && r.exit == Returned(env.launch(argv).GetOr(1))
            && Wrapped(argv) in r.machine.trace
            && (forall i, j :: 0 <= i < j < |r.machine.trace| && r.machine.trace[i].IsTask() ==> !r.machine.trace[j].IsTask())
            && r.machine.files == files
            && ResetCount(r.machine.trace) == 1
  {
    var m := Initial(files);
    ForcedIsOnlyCandidate(m, env, clock, server, port, 6);
    ForcedTurn(m, env, clock, server, port, 6);
    FreshResetsOnlyWinner(files, env, clock, command, server, port, Some(6));
    var s := TryTechniques(m, env, clock, server, port, Some(6)).1;
    var b := Attempt(m, env, clock, command, server, port, Some(6)).machine;
    var argv := ["faketime", AtEpoch(Now(clock, env.now).value)] + args;
    assert b.trace == s.trace + [Wrapped(argv)];
    assert b.trace[|s.trace|] == Wrapped(argv);
  }

  /** Forcing a service-backed technique that wins: its reset restores the
      configuration from the backup its sync_time made, so the run leaves
      the filesystem exactly as it found it (given an existing configuration,
      no stale backup, and working copies). */
  lemma ServiceWinnerRestored(files: Files, env: Env, clock: Clock, command: string, server: string, port: int, n: int)
    requires 2 <= n <= 4
    requires ConfigPath(Order[n - 1].daemon) in files && BackupPath(ConfigPath(Order[n - 1].daemon)) !in files
    requires env.copyOk
    ensures var o := TryTechniques(Initial(files), env, clock, server, port, Some(n)).0;
            var r := ExecuteCommand(Initial(files), env, clock, command, server, port, Some(n));
            o == Succeeded ==> r.machine.files == files
  {
    var m := Initial(files);
    var d := Order[n - 1].daemon;
    var t := Fresh(Service(d));
    ForcedIsOnlyCandidate(m, env, clock, server, port, n);
    ForcedTurn(m, env, clock, server, port, n);
    assert Sync(t, env, clock, files, server, port) == Sync(t, env, Unseeded, files, server, port);
    ServiceRollback(d, t, env, files, server, port);
  }

  /** A service-backed candidate that writes its configuration and then
      fails is never reset: the run exits with status 1 and the new
      configuration stays in place. */
  lemma FailedServiceKeepsConfig(files: Files, env: Env, clock: Clock, command: string, server: string, port: int, n: int)
    requires 2 <= n <= 4
    requires Available(Order[n - 1], env) && env.isRoot && env.canWrite(ConfigPath(Order[n - 1].daemon))
    requires FirstFailing(ServiceSteps(Order[n - 1].daemon), env).Some?
    ensures var r := ExecuteCommand(Initial(files), env, clock, command, server, port, Some(n));
            var d := Order[n - 1].daemon;
            && r.exit == SystemExit(1)
            && ConfigPath(d) in r.machine.files && r.machine.files[ConfigPath(d)] == ConfigContent(d, server)
            && ResetCount(r.machine.trace) == 0
  {
    var m := Initial(files);
    FailedServiceSearch(m, env, clock, server, port, n);
    FreshResetsOnlyWinner(files, env, clock, command, server, port, Some(n));
    assert Attempt(m, env, clock, command, server, port, Some(n)).machine
        == TryTechniques(m, env, clock, server, port, Some(n)).1;
  }

  /** The search part of the above: the forced service candidate loses after
      writing its configuration, and no technique is active. */
  lemma FailedServiceSearch(m: Machine, env: Env, clock: Clock, server: string, port: int, n: int)
    requires Valid(m) && m.active.None? && 2 <= n <= 4
    requires m.techs[n - 1] == Fresh(Order[n - 1])
    requires Available(Order[n - 1], env) && env.isRoot && env.canWrite(ConfigPath(Order[n - 1].daemon))
    requires FirstFailing(ServiceSteps(Order[n - 1].daemon), env).Some?
    ensures var r := TryTechniques(m, env, clock, server, port, Some(n));
            var d := Order[n - 1].daemon;
            && r.0 == Exhausted && r.1.active.None?
            && ConfigPath(d) in r.1.files && r.1.files[ConfigPath(d)] == ConfigContent(d, server)
  {
    var d := Order[n - 1].daemon;
    var t := Fresh(Order[n - 1]);
    ForcedIsOnlyCandidate(m, env, clock, server, port, n);
    ForcedTurn(m, env, clock, server, port, n);
    assert IsAvailable(t, env).tech == t;
    ServiceSyncOrder(t, d, env, m.files, server, port);
  }
}
