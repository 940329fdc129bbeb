/** The world outside the engine: an oracle for everything DCTimer.py asks of
    the operating system, run_command over that oracle, and the trace of
    observable actions the engine performs. */
module Host {
  import opened Wrappers

  /** An argument vector, as passed to subprocess.run without a shell. */
  type Argv = seq<string>

  /** One fixed environment for a whole run.
      - isLinux, isRoot: sys.platform and the effective user id
      - onPath: shutil.which(name) is not None
      - pathExists: os.path.exists for the installation probes
      - exitCode, stderrOf: what a tool invocation exits with and prints
      - canWrite, writeError: whether writing a config file succeeds, and the
        exception text when it does not
      - copyOk: whether shutil.copy2 succeeds
      - now: the local wall-clock instant (epoch seconds) at which the virtual
        clock is read
      - split: shlex.split, None when it raises
      - launch, shell: the user's command run as an argument vector or as a
        shell string; None when subprocess.run raises */
  datatype Env = Env(
    isLinux: bool,
    isRoot: bool,
    onPath: string -> bool,
    pathExists: string -> bool,
    exitCode: Argv -> int,
    stderrOf: Argv -> string,
    canWrite: string -> bool,
    writeError: string,
    copyOk: bool,
    now: int,
    split: string -> Option<seq<string>>,
    launch: Argv -> Option<int>,
    shell: string -> Option<int>)

  /** A finished process as run_command hands it back. */
  datatype Completed = Completed(returncode: int, stderr: string)

  /** run_command: with `check`, a nonzero exit raises CalledProcessError,
      which run_command catches and turns into None. */
  function RunCommand(env: Env, argv: Argv, check: bool): (r: Option<Completed>)
    ensures r.None? <==> check && env.exitCode(argv) != 0
    ensures r.Some? ==> r.value.returncode == env.exitCode(argv) && r.value.stderr == env.stderrOf(argv)
  {
    if check && env.exitCode(argv) != 0 then None
    else Some(Completed(env.exitCode(argv), env.stderrOf(argv)))
  }

  /** The callers' test `result is None or result.returncode != 0`. */
  predicate CommandFailed(result: Option<Completed>)
  {
    result.None? || result.value.returncode != 0
  }

  /** Whichever way it is called, run_command reports a failure exactly when
      the tool exits nonzero; with `check` the failed result carries nothing,
      not even stderr. */
  lemma RunCommandFailure(env: Env, argv: Argv, check: bool)
    ensures CommandFailed(RunCommand(env, argv, check)) <==> env.exitCode(argv) != 0
    ensures check && env.exitCode(argv) != 0 ==> RunCommand(env, argv, check).None?
    ensures RunCommand(env, argv, false).value.stderr == env.stderrOf(argv)
  {
  }

  /** Python's `sub in s` on strings. */
  predicate Contains(s: string, sub: string)
    decreases |s|
  {
    |sub| <= |s| && (s[..|sub|] == sub || (|s| > 0 && Contains(s[1..], sub)))
  }

  /** Python's `" ".join(words)`. */
  function Join(words: seq<string>): string
  {
    if words == [] then "" else if |words| == 1 then words[0] else words[0] + " " + Join(words[1..])
  }

  /** Python truthiness of an optional string: present and non-empty. */
  predicate Truthy(o: Option<string>)
  {
    o.Some? && o.value != ""
  }

  /** What the engine visibly does, in order.
      - Probed(n): is_available of technique n is called
      - Attempted(n): sync_time of technique n is called
      - Ran(argv): a tool is run through run_command
      - Wrapped(argv), Shell(command): the user's command is launched
      - ResetCalled(n): reset of technique n is called */
  datatype Event =
    | Probed(number: int)
    | Attempted(number: int)
    | Ran(argv: Argv)
    | Wrapped(argv: Argv)
    | Shell(command: string)
    | ResetCalled(number: int)
  {
    /** Events of the technique search itself. */
    predicate IsEngine() {
      Probed? || Attempted? || Ran?
    }

    /** The user's command being launched. */
    predicate IsTask() {
      Wrapped? || Shell?
    }
  }

  /** The technique numbers whose is_available was called, in call order. */
  function Probes(trace: seq<Event>): seq<int>
  {
    if trace == [] then []
    else (if trace[0].Probed? then [trace[0].number] else []) + Probes(trace[1..])
  }

  /** How many times a reset was called. */
  function ResetCount(trace: seq<Event>): nat
  {
    if trace == [] then 0
    else (if trace[0].ResetCalled? then 1 else 0) + ResetCount(trace[1..])
  }

  lemma {:induction false} ProbesAppend(a: seq<Event>, b: seq<Event>)
    ensures Probes(a + b) == Probes(a) + Probes(b)
  {
    if a != [] {
      assert (a + b)[1..] == a[1..] + b;
      ProbesAppend(a[1..], b);
    } else {
      assert a + b == b;
    }
  }

  lemma {:induction false} ResetCountAppend(a: seq<Event>, b: seq<Event>)
    ensures ResetCount(a + b) == ResetCount(a) + ResetCount(b)
  {
    if a != [] {
      assert (a + b)[1..] == a[1..] + b;
      ResetCountAppend(a[1..], b);
    } else {
      assert a + b == b;
    }
  }

  /** Tool runs alone neither probe a technique nor reset one. */
  lemma {:induction false} RunsOnly(s: seq<Event>)
    requires forall i :: 0 <= i < |s| ==> s[i].Ran?
    ensures Probes(s) == [] && ResetCount(s) == 0
  {
    if s != [] {
      RunsOnly(s[1..]);
    }
  }

  /** The search's own events never count as a reset. */
  lemma {:induction false} EngineHasNoReset(s: seq<Event>)
    requires forall i :: 0 <= i < |s| ==> s[i].IsEngine()
    ensures ResetCount(s) == 0
  {
    if s != [] {
      EngineHasNoReset(s[1..]);
    }
  }

  /** `after` is `before` followed only by search events. */
  predicate EngineExtends(before: seq<Event>, after: seq<Event>)
  {
    && |before| <= |after| && after[..|before|] == before
    && forall i :: |before| <= i < |after| ==> after[i].IsEngine()
  }

  lemma EngineExtendsTrans(a: seq<Event>, b: seq<Event>, c: seq<Event>)
    requires EngineExtends(a, b) && EngineExtends(b, c)
    ensures EngineExtends(a, c)
  {
    assert c[..|a|] == c[..|b|][..|a|];
    forall i | |a| <= i < |c|
      ensures c[i].IsEngine()
    {
      if i < |b| {
        assert c[i] == c[..|b|][i];
      }
    }
  }

  /** Search events never reset a technique. */
  lemma EngineKeepsResets(before: seq<Event>, after: seq<Event>)
    requires EngineExtends(before, after)
    ensures ResetCount(after) == ResetCount(before)
  {
    var added := after[|before|..];
    assert after == before + added;
    assert forall i :: 0 <= i < |added| ==> added[i] == after[|before| + i];
    EngineHasNoReset(added);
    ResetCountAppend(before, added);
  }
}
