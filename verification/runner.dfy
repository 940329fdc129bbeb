/** DCTimer's technique search: the six techniques in their fixed order, the
    candidate selection for a forced technique, and try_techniques, which
    stops at the first successful sync_time and otherwise lists why every
    candidate failed. */
module Runner {
  import opened Wrappers
  import opened VirtualClock
  import opened Files
  import opened Host
  import opened Techniques

  /** The technique list of the DCTimer constructor. */
  const Order: seq<Kind> := [Ntpdate, Service(Ntpd), Service(Timesyncd), Service(OpenNtpd), DateLoop, Faketime]

  /** One row of failed_techniques. */
  datatype Failure = Failure(number: int, name: string, reason: Message)

  /** The DCTimer object together with the filesystem and the trace of what
      it has done. `active` is the position of active_technique in `techs`. */
  datatype Machine = Machine(
    techs: seq<Technique>,
    active: Option<nat>,
    failed: seq<Failure>,
    files: Files,
    trace: seq<Event>)

  /** Six techniques in constructor order, and an active technique among them. */
  predicate Valid(m: Machine)
  {
    && |m.techs| == 6
    && (forall i :: 0 <= i < 6 ==> m.techs[i].kind == Order[i])
    && (m.active.Some? ==> m.active.value < 6)
  }

  /** A freshly constructed DCTimer on the given filesystem. */
  function Initial(files: Files): (m: Machine)
    ensures Valid(m)
    ensures forall i :: 0 <= i < 6 ==> m.techs[i] == Fresh(Order[i])
    ensures m.active.None? && m.failed == [] && m.files == files && m.trace == []
  {
    Machine(seq(6, i requires 0 <= i < 6 => Fresh(Order[i])), None, [], files, [])
  }

  /** Position i holds technique number i + 1. */
  lemma OrderNumbers()
    ensures forall i :: 0 <= i < 6 ==> Order[i].Number() == i + 1
  {
  }

  /** Candidate positions are positions of the technique list. */
  predicate Positions(ks: seq<nat>)
  {
    forall i :: 0 <= i < |ks| ==> ks[i] < 6
  }

  /** No position is a candidate twice. */
  predicate Distinct(ks: seq<nat>)
  {
    forall i, j :: 0 <= i < j < |ks| ==> ks[i] != ks[j]
  }

  /** The technique numbers of a run of candidate positions. */
  function Numbers(ks: seq<nat>): seq<int>
    requires Positions(ks)
  {
    seq(|ks|, i requires 0 <= i < |ks| => Order[ks[i]].Number())
  }

  /** Whether the candidate at position k gets through both is_available and
      sync_time. */
  predicate Wins(k: nat, env: Env, clock: Clock, server: string)
    requires k < 6
  {
    Available(Order[k], env) && Succeeds(Order[k], env, clock, server)
  }

  /** Python's `x or default` for last_error: a set message is never empty,
      so it is truthy exactly when it is set. */
  function OrDefault(lastError: Option<Message>, default: Message): Message
  {
    if lastError.Some? then lastError.value else default
  }

  /** Python's `xs[i]` on a list of length `len`: negative positions count
      from the end, anything else out of range raises IndexError (None). */
  function PyIndex(len: nat, i: int): (r: Option<nat>)
    ensures r.Some? <==> -(len as int) <= i < len
    ensures r.Some? ==> r.value < len && r.value % len == i % len
  {
    if 0 <= i < len then Some(i) else if -(len as int) <= i < 0 then Some(len + i) else None
  }

  /** The candidates of try_techniques: every technique in order, or
      techniques[forced - 1]; None when that index raises IndexError. */
  function Candidates(forced: Option<int>): (r: Option<seq<nat>>)
    ensures r.Some? ==> Positions(r.value) && Distinct(r.value) && 0 < |r.value|
    ensures forced.Some? ==> (r.None? <==> !(-6 <= forced.value - 1 < 6))
    ensures forced.Some? && r.Some? ==> |r.value| == 1
  {
    match forced
    case None => Some([0, 1, 2, 3, 4, 5])
    case Some(n) =>
      match PyIndex(6, n - 1)
      case None => None
      case Some(k) => Some([k])
  }

  /** Without a forced number every technique is a candidate, in order. */
  lemma AllCandidates()
    ensures Candidates(None) == Some([0, 1, 2, 3, 4, 5])
  {
  }

  /** Forcing technique n, 1 to 6, makes techniques[n - 1] the only candidate. */
  lemma ForcedCandidate(n: int)
    requires 1 <= n <= 6
    ensures Candidates(Some(n)) == Some([n - 1])
  {
  }

  /** The result of one turn of the loop: whether the candidate won, the
      machine afterwards, and the failure row it appends when it did not. */
  datatype Turn = Won(machine: Machine) | Lost(machine: Machine, failure: Failure)

  /** One turn of the loop in try_techniques: probe the candidate at position
      k, attempt it if it is available, and either make it the active
      technique or produce its failure row. */
  function TryOne(m: Machine, k: nat, env: Env, clock: Clock, server: string, port: int): (r: Turn)
    requires Valid(m) && k < 6
    ensures Valid(r.machine) && r.machine.failed == m.failed
    ensures r.Won? <==> Wins(k, env, clock, server)
    ensures r.Won? ==> r.machine.active == Some(k)
    ensures r.Lost? ==> r.machine.active == m.active
    ensures r.Lost? ==> (r.machine.techs[k].lastError.Some?
                         && r.failure == Failure(Order[k].Number(), Order[k].Name(), r.machine.techs[k].lastError.value))
    ensures forall j :: 0 <= j < 6 && j != k ==> r.machine.techs[j] == m.techs[j]
    ensures r.machine.techs[k].active == (m.techs[k].active || r.Won?)
    ensures |r.machine.trace| > |m.trace| && r.machine.trace[..|m.trace|] == m.trace
    ensures r.machine.trace[|m.trace|] == Probed(Order[k].Number())
    ensures forall i :: |m.trace| < i < |r.machine.trace| ==> r.machine.trace[i].Attempted? || r.machine.trace[i].Ran?
    ensures AgreeExcept(m.files, r.machine.files, Touched(Order[k]))
  {
    var t := m.techs[k];
    var n := t.kind.Number();
    var probe := IsAvailable(t, env);
    var probed := m.trace + [Probed(n)];
    if !probe.available then
      Lost(m.(techs := m.techs[k := probe.tech], trace := probed),
           Failure(n, t.kind.Name(), OrDefault(probe.tech.lastError, NotAvailable)))
    else
      var s := Sync(probe.tech, env, clock, m.files, server, port);
      var after := m.(techs := m.techs[k := s.tech], files := s.files, trace := probed + [Attempted(n)] + s.events);
      if s.ok then Won(after.(active := Some(k)))
      else Lost(after, Failure(n, t.kind.Name(), OrDefault(s.tech.lastError, UnknownError)))
  }

  /** The outcome of the loop: whether a candidate won, the machine
      afterwards, and the failure rows in the order they were appended. */
  datatype Search = Search(won: bool, machine: Machine, failures: seq<Failure>)

  /** The loop of try_techniques over the remaining candidates. */
  function TryFrom(m: Machine, cands: seq<nat>, env: Env, clock: Clock, server: string, port: int): (r: Search)
    requires Valid(m) && Positions(cands)
    ensures Valid(r.machine) && r.machine.failed == m.failed
    ensures |r.failures| <= |cands|
    ensures r.won ==> |r.failures| < |cands| && r.machine.active.Some?
    ensures !r.won ==> |r.failures| == |cands| && r.machine.active == m.active
    decreases |cands|
  {
    if cands == [] then Search(false, m, [])
    else
      var one := TryOne(m, cands[0], env, clock, server, port);
      if one.Won? then Search(true, one.machine, [])
      else
        var rest := TryFrom(one.machine, cands[1..], env, clock, server, port);
        rest.(failures := [one.failure] + rest.failures)
  }

  /** The rows of `failures` belong, in order, to candidates that cannot win,
      and carry their numbers and names. */
  predicate LosersInOrder(cands: seq<nat>, failures: seq<Failure>, env: Env, clock: Clock, server: string)
    requires Positions(cands)
  {
    && |failures| <= |cands|
    && forall i :: 0 <= i < |failures| ==>
         && !Wins(cands[i], env, clock, server)
         && failures[i].number == Order[cands[i]].Number()
         && failures[i].name == Order[cands[i]].Name()
  }

  /** The search stops at the first candidate that wins: every candidate
      before it failed and has a failure row with its number and name, in
      candidate order. When nobody wins, every candidate has its row. */
  lemma {:induction false} TryFromLosers(m: Machine, cands: seq<nat>, env: Env, clock: Clock, server: string, port: int)
    requires Valid(m) && Positions(cands)
    ensures LosersInOrder(cands, TryFrom(m, cands, env, clock, server, port).failures, env, clock, server)
    decreases |cands|
  {
    if cands != [] && TryOne(m, cands[0], env, clock, server, port).Lost? {
      var one := TryOne(m, cands[0], env, clock, server, port);
      var rest := TryFrom(one.machine, cands[1..], env, clock, server, port);
      TryFromLosers(one.machine, cands[1..], env, clock, server, port);
      assert TryFrom(m, cands, env, clock, server, port).failures == [one.failure] + rest.failures;
      LosersCons(cands, one.failure, rest.failures, env, clock, server);
    }
  }

  lemma LosersCons(cands: seq<nat>, first: Failure, rest: seq<Failure>, env: Env, clock: Clock, server: string)
    requires Positions(cands) && cands != []
    requires !Wins(cands[0], env, clock, server)
    requires first.number == Order[cands[0]].Number() && first.name == Order[cands[0]].Name()
    requires LosersInOrder(cands[1..], rest, env, clock, server)
    ensures LosersInOrder(cands, [first] + rest, env, clock, server)
  {
    var fs := [first] + rest;
    forall i | 1 <= i < |fs|
      ensures !Wins(cands[i], env, clock, server)
      ensures fs[i].number == Order[cands[i]].Number()
      ensures fs[i].name == Order[cands[i]].Name()
    {
      assert cands[1..][i - 1] == cands[i];
      assert fs[i] == rest[i - 1];
    }
  }

  /** When the search finds a winner, it is the candidate right after the
      failed ones, and it becomes the active technique. */
  predicate WinnerFirst(cands: seq<nat>, r: Search, env: Env, clock: Clock, server: string)
    requires Positions(cands)
  {
    r.won ==> |r.failures| < |cands| && Wins(cands[|r.failures|], env, clock, server)
              && r.machine.active == Some(cands[|r.failures|])
  }

  lemma {:induction false} TryFromWinner(m: Machine, cands: seq<nat>, env: Env, clock: Clock, server: string, port: int)
    requires Valid(m) && Positions(cands)
    ensures WinnerFirst(cands, TryFrom(m, cands, env, clock, server, port), env, clock, server)
    decreases |cands|
  {
    if cands != [] && TryOne(m, cands[0], env, clock, server, port).Lost? {
      var one := TryOne(m, cands[0], env, clock, server, port);
      var rest := TryFrom(one.machine, cands[1..], env, clock, server, port);
      TryFromWinner(one.machine, cands[1..], env, clock, server, port);
      assert TryFrom(m, cands, env, clock, server, port) == rest.(failures := [one.failure] + rest.failures);
      WinnerCons(cands, rest, one.failure, env, clock, server);
    }
  }

  lemma WinnerCons(cands: seq<nat>, rest: Search, first: Failure, env: Env, clock: Clock, server: string)
    requires Positions(cands) && cands != []
    requires WinnerFirst(cands[1..], rest, env, clock, server)
    ensures WinnerFirst(cands, rest.(failures := [first] + rest.failures), env, clock, server)
  {
    if rest.won {
      assert cands[1..][|rest.failures|] == cands[|rest.failures| + 1];
    }
  }

  /** One turn probes exactly its own candidate. */
  lemma TryOneProbes(m: Machine, k: nat, env: Env, clock: Clock, server: string, port: int)
    requires Valid(m) && k < 6
    ensures Probes(TryOne(m, k, env, clock, server, port).machine.trace) == Probes(m.trace) + [Order[k].Number()]
  {
    var m1 := TryOne(m, k, env, clock, server, port).machine;
    var events := m1.trace[|m.trace|..];
    assert m1.trace == m.trace + events;
    assert events == [Probed(Order[k].Number())] + events[1..];
    RunsAndAttemptsHaveNoProbes(events[1..]);
    ProbesAppend(m.trace, events);
    ProbesAppend([Probed(Order[k].Number())], events[1..]);
  }

  /** The search only appends to the trace, and only probes, attempts and
      tool runs. */
  lemma {:induction false} TryFromTrace(m: Machine, cands: seq<nat>, env: Env, clock: Clock, server: string, port: int)
    requires Valid(m) && Positions(cands)
    ensures EngineExtends(m.trace, TryFrom(m, cands, env, clock, server, port).machine.trace)
    decreases |cands|
  {
    if cands != [] {
      var one := TryOne(m, cands[0], env, clock, server, port);
      assert EngineExtends(m.trace, one.machine.trace);
      if one.Lost? {
        TryFromTrace(one.machine, cands[1..], env, clock, server, port);
        EngineExtendsTrans(m.trace, one.machine.trace, TryFrom(one.machine, cands[1..], env, clock, server, port).machine.trace);
      }
    } else {
      assert m.trace[..|m.trace|] == m.trace;
    }
  }

  /** How many candidates a search probed: the failed ones and the winner. */
  function Tried(r: Search): nat
  {
    |r.failures| + (if r.won then 1 else 0)
  }

  /** The probes a search added to the trace are the numbers of its first
      Tried(r) candidates, in candidate order. */
  predicate ProbedInOrder(before: seq<Event>, cands: seq<nat>, r: Search)
    requires Positions(cands)
  {
    Tried(r) <= |cands| && Probes(r.machine.trace) == Probes(before) + Numbers(cands[..Tried(r)])
  }

  /** Exactly the candidates up to and including the winner (all of them when
      nobody wins) were probed, in candidate order. */
  lemma {:induction false} TryFromProbes(m: Machine, cands: seq<nat>, env: Env, clock: Clock, server: string, port: int)
    requires Valid(m) && Positions(cands)
    ensures ProbedInOrder(m.trace, cands, TryFrom(m, cands, env, clock, server, port))
    decreases |cands|
  {
    if cands == [] {
      assert Numbers(cands[..0]) == [];
    } else {
      var one := TryOne(m, cands[0], env, clock, server, port);
      TryOneProbes(m, cands[0], env, clock, server, port);
      if one.Won? {
        assert TryFrom(m, cands, env, clock, server, port) == Search(true, one.machine, []);
        assert Numbers(cands[..1]) == [Order[cands[0]].Number()];
      } else {
        var rest := TryFrom(one.machine, cands[1..], env, clock, server, port);
        TryFromProbes(one.machine, cands[1..], env, clock, server, port);
        assert TryFrom(m, cands, env, clock, server, port) == rest.(failures := [one.failure] + rest.failures);
        ProbesCons(m.trace, one.machine.trace, cands, rest, one.failure);
      }
    }
  }

  lemma ProbesCons(before: seq<Event>, mid: seq<Event>, cands: seq<nat>, rest: Search, first: Failure)
    requires Positions(cands) && cands != []
    requires Probes(mid) == Probes(before) + [Order[cands[0]].Number()]
    requires ProbedInOrder(mid, cands[1..], rest)
    ensures ProbedInOrder(before, cands, rest.(failures := [first] + rest.failures))
  {
    var tried := Tried(rest);
    NumbersCons(cands, tried);
    ProbesShift(Probes(before), Order[cands[0]].Number(), Numbers(cands[1..][..tried]), Numbers(cands[..tried + 1]));
  }

  lemma ProbesShift(before: seq<int>, n0: int, rest: seq<int>, all: seq<int>)
    requires all == [n0] + rest
    ensures (before + [n0]) + rest == before + all
  {
  }

  lemma NumbersCons(cands: seq<nat>, n: nat)
    requires Positions(cands) && 0 < |cands| && n < |cands|
    ensures Numbers(cands[..n + 1]) == [Order[cands[0]].Number()] + Numbers(cands[1..][..n])
  {
    assert cands[..n + 1] == [cands[0]] + cands[1..][..n];
  }

  lemma {:induction false} RunsAndAttemptsHaveNoProbes(s: seq<Event>)
    requires forall i :: 0 <= i < |s| ==> s[i].Attempted? || s[i].Ran?
    ensures Probes(s) == []
  {
    if s != [] {
      RunsAndAttemptsHaveNoProbes(s[1..]);
    }
  }

  /** Techniques that were not candidates are left exactly as they were. */
  lemma {:induction false} TryFromUntouched(m: Machine, cands: seq<nat>, env: Env, clock: Clock, server: string, port: int)
    requires Valid(m) && Positions(cands)
    ensures var r := TryFrom(m, cands, env, clock, server, port);
            forall j :: 0 <= j < 6 && j !in cands ==> r.machine.techs[j] == m.techs[j]
    decreases |cands|
  {
    if cands != [] {
      var one := TryOne(m, cands[0], env, clock, server, port);
      if !one.Won? {
        TryFromUntouched(one.machine, cands[1..], env, clock, server, port);
        var r := TryFrom(m, cands, env, clock, server, port);
        forall j | 0 <= j < 6 && j !in cands
          ensures r.machine.techs[j] == m.techs[j]
        {
          assert j !in cands[1..];
        }
      }
    }
  }

  /** active is set on the winner and on no other technique. */
  lemma {:induction false} TryFromActive(m: Machine, cands: seq<nat>, env: Env, clock: Clock, server: string, port: int)
    requires Valid(m) && Positions(cands)
    ensures var r := TryFrom(m, cands, env, clock, server, port);
            forall j :: 0 <= j < 6 ==>
              r.machine.techs[j].active == (m.techs[j].active || (r.won && r.machine.active == Some(j)))
    decreases |cands|
  {
    if cands != [] {
      var one := TryOne(m, cands[0], env, clock, server, port);
      if !one.Won? {
        TryFromActive(one.machine, cands[1..], env, clock, server, port);
      }
    }
  }

  /** When no candidate repeats, each failure row's reason is the last_error
      its technique was left with. */
  lemma {:induction false} TryFromReasons(m: Machine, cands: seq<nat>, env: Env, clock: Clock, server: string, port: int)
    requires Valid(m) && Positions(cands) && Distinct(cands)
    ensures var r := TryFrom(m, cands, env, clock, server, port);
            ReasonsKept(cands, r.failures, r.machine.techs)
    decreases |cands|
  {
    if cands != [] {
      var one := TryOne(m, cands[0], env, clock, server, port);
      if one.Lost? {
        var rest := TryFrom(one.machine, cands[1..], env, clock, server, port);
        assert TryFrom(m, cands, env, clock, server, port) == rest.(failures := [one.failure] + rest.failures);
        assert Distinct(cands[1..]);
        TryFromReasons(one.machine, cands[1..], env, clock, server, port);
        TryFromUntouched(one.machine, cands[1..], env, clock, server, port);
        assert cands[0] !in cands[1..];
        ReasonsCons(cands, one.failure, rest.failures, rest.machine.techs);
      }
    }
  }

  /** Each failure row's reason is the last_error its candidate holds. */
  predicate ReasonsKept(cands: seq<nat>, failures: seq<Failure>, techs: seq<Technique>)
    requires Positions(cands) && |techs| == 6
  {
    forall i :: 0 <= i < |failures| && i < |cands| ==> techs[cands[i]].lastError == Some(failures[i].reason)
  }

  lemma ReasonsCons(cands: seq<nat>, first: Failure, rest: seq<Failure>, techs: seq<Technique>)
    requires Positions(cands) && cands != [] && |techs| == 6
    requires techs[cands[0]].lastError == Some(first.reason)
    requires ReasonsKept(cands[1..], rest, techs)
    ensures ReasonsKept(cands, [first] + rest, techs)
  {
    forall i | 0 < i < |[first] + rest| && i < |cands|
      ensures techs[cands[i]].lastError == Some(([first] + rest)[i].reason)
    {
      assert cands[1..][i - 1] == cands[i];
    }
  }

  /** The files the candidates in `ks` may touch. */
  function TouchedBy(ks: seq<nat>): set<string>
    requires Positions(ks)
  {
    if ks == [] then {} else Touched(Order[ks[0]]) + TouchedBy(ks[1..])
  }

  /** The search touches no file outside the configurations and backups of
      the candidates it tried. */
  lemma {:induction false} TryFromFiles(m: Machine, cands: seq<nat>, env: Env, clock: Clock, server: string, port: int)
    requires Valid(m) && Positions(cands)
    ensures AgreeExcept(m.files, TryFrom(m, cands, env, clock, server, port).machine.files, TouchedBy(cands))
    decreases |cands|
  {
    if cands != [] {
      var one := TryOne(m, cands[0], env, clock, server, port);
      if !one.Won? {
        TryFromFiles(one.machine, cands[1..], env, clock, server, port);
        AgreeExceptTrans(m.files, one.machine.files, TryFrom(one.machine, cands[1..], env, clock, server, port).machine.files,
                         Touched(Order[cands[0]]), TouchedBy(cands[1..]));
      }
    }
  }

  /** How try_techniques ends: a winner, every candidate failed, technique 7
      refused (sys.exit(1)), or the forced number is no index of the list
      (IndexError). */
  datatype Outcome = Succeeded | Exhausted | Unsupported | NoSuchTechnique

  /** DCTimer.try_techniques: clear the failure list, refuse technique 7
      before anything is probed, pick the candidates, and search them. */
  function TryTechniques(m: Machine, env: Env, clock: Clock, server: string, port: int, forced: Option<int>): (r: (Outcome, Machine))
    requires Valid(m)
    ensures Valid(r.1)
    ensures r.0 == Unsupported <==> forced == Some(7)
    ensures r.0 == NoSuchTechnique <==> forced.Some? && forced.value != 7 && !(-5 <= forced.value <= 6)
    ensures r.0 == Unsupported || r.0 == NoSuchTechnique ==>
              r.1.failed == [] && r.1.trace == m.trace && r.1.techs == m.techs && r.1.files == m.files
    ensures r.0 == Succeeded ==> r.1.active.Some?
    ensures r.0 != Succeeded ==> r.1.active == m.active
    ensures |r.1.failed| <= 6
  {
    var cleared := m.(failed := []);
    if forced == Some(7) then (Unsupported, cleared)
    else
      match Candidates(forced)
      case None => (NoSuchTechnique, cleared)
      case Some(cands) =>
        var s := TryFrom(cleared, cands, env, clock, server, port);
        (if s.won then Succeeded else Exhausted, s.machine.(failed := s.failures))
  }

  /** A search over the candidates of `forced` either finds a winner, which
      becomes the active technique and comes right after the failed
      candidates, or has a failure row for every candidate. */
  lemma SearchWinner(m: Machine, env: Env, clock: Clock, server: string, port: int, forced: Option<int>)
    requires Valid(m) && forced != Some(7) && Candidates(forced).Some?
    ensures var cands := Candidates(forced).value;
            var r := TryTechniques(m, env, clock, server, port, forced);
            && (r.0 == Succeeded || r.0 == Exhausted)
            && (r.0 == Succeeded ==> |r.1.failed| < |cands| && Wins(cands[|r.1.failed|], env, clock, server)
                                     && r.1.active == Some(cands[|r.1.failed|]))
            && (r.0 == Exhausted ==> |r.1.failed| == |cands|)
  {
    TryFromWinner(m.(failed := []), Candidates(forced).value, env, clock, server, port);
  }

  /** The failure list holds one row per failed candidate, in candidate
      order, with the candidate's number, its name and its last_error, and
      none of those candidates could have won. */
  lemma SearchFailureRows(m: Machine, env: Env, clock: Clock, server: string, port: int, forced: Option<int>)
    requires Valid(m) && forced != Some(7) && Candidates(forced).Some?
    ensures var cands := Candidates(forced).value;
            var r := TryTechniques(m, env, clock, server, port, forced);
            && |r.1.failed| <= |cands|
            && forall i :: 0 <= i < |r.1.failed| ==>
                 && !Wins(cands[i], env, clock, server)
                 && r.1.failed[i].number == Order[cands[i]].Number()
                 && r.1.failed[i].name == Order[cands[i]].Name()
                 && r.1.techs[cands[i]].lastError == Some(r.1.failed[i].reason)
  {
    var cands := Candidates(forced).value;
    var s := TryFrom(m.(failed := []), cands, env, clock, server, port);
    TryFromLosers(m.(failed := []), cands, env, clock, server, port);
    TryFromReasons(m.(failed := []), cands, env, clock, server, port);
    SearchIs(m, env, clock, server, port, forced, cands);
    RowsOf(cands, s.failures, s.machine.techs, env, clock, server);
  }

  /** A search over the candidates of `forced` is the candidate walk started
      with an empty failure list. */
  lemma SearchIs(m: Machine, env: Env, clock: Clock, server: string, port: int, forced: Option<int>, cands: seq<nat>)
    requires Valid(m) && forced != Some(7) && Candidates(forced) == Some(cands)
    ensures var s := TryFrom(m.(failed := []), cands, env, clock, server, port);
            TryTechniques(m, env, clock, server, port, forced) == (if s.won then Succeeded else Exhausted, s.machine.(failed := s.failures))
  {
  }

  lemma RowsOf(cands: seq<nat>, failures: seq<Failure>, techs: seq<Technique>, env: Env, clock: Clock, server: string)
    requires Positions(cands) && |techs| == 6
    requires LosersInOrder(cands, failures, env, clock, server) && ReasonsKept(cands, failures, techs)
    ensures |failures| <= |cands|
    ensures forall i :: 0 <= i < |failures| ==>
              && !Wins(cands[i], env, clock, server)
              && failures[i].number == Order[cands[i]].Number()
              && failures[i].name == Order[cands[i]].Name()
              && techs[cands[i]].lastError == Some(failures[i].reason)
  {
  }

  /** Exactly the candidates up to the winner, or all of them, are probed, in
      candidate order; the trace only grows, by search events; techniques
      that are not candidates are left as they were. */
  lemma SearchProbes(m: Machine, env: Env, clock: Clock, server: string, port: int, forced: Option<int>)
    requires Valid(m) && forced != Some(7) && Candidates(forced).Some?
    ensures var cands := Candidates(forced).value;
            var r := TryTechniques(m, env, clock, server, port, forced);
            var tried := |r.1.failed| + (if r.0 == Succeeded then 1 else 0);
            && tried <= |cands|
            && Probes(r.1.trace) == Probes(m.trace) + Numbers(cands[..tried])
  {
    var cands := Candidates(forced).value;
    var s := TryFrom(m.(failed := []), cands, env, clock, server, port);
    TryFromProbes(m.(failed := []), cands, env, clock, server, port);
    SearchIs(m, env, clock, server, port, forced, cands);
    ProbesOf(m.trace, cands, s, TryTechniques(m, env, clock, server, port, forced));
  }

  lemma ProbesOf(before: seq<Event>, cands: seq<nat>, s: Search, r: (Outcome, Machine))
    requires Positions(cands) && ProbedInOrder(before, cands, s)
    requires r == (if s.won then Succeeded else Exhausted, s.machine.(failed := s.failures))
    ensures var tried := |r.1.failed| + (if r.0 == Succeeded then 1 else 0);
            && tried <= |cands|
            && Probes(r.1.trace) == Probes(before) + Numbers(cands[..tried])
  {
    assert |r.1.failed| + (if r.0 == Succeeded then 1 else 0) == Tried(s);
  }

  /** A search only appends its own events to the trace and leaves every
      technique that is not a candidate as it was. */
  lemma SearchTrace(m: Machine, env: Env, clock: Clock, server: string, port: int, forced: Option<int>)
    requires Valid(m)
    ensures var r := TryTechniques(m, env, clock, server, port, forced);
            && EngineExtends(m.trace, r.1.trace)
            && (Candidates(forced).Some? ==>
                  forall j :: 0 <= j < 6 && j !in Candidates(forced).value ==> r.1.techs[j] == m.techs[j])
  {
    if forced != Some(7) && Candidates(forced).Some? {
      var cands := Candidates(forced).value;
      TryFromTrace(m.(failed := []), cands, env, clock, server, port);
      TryFromUntouched(m.(failed := []), cands, env, clock, server, port);
    } else {
      assert m.trace[..|m.trace|] == m.trace;
    }
  }

  /** A search succeeds exactly when some candidate can win, and the winner
      is the first such candidate. */
  lemma SearchWinsFirst(m: Machine, env: Env, clock: Clock, server: string, port: int, forced: Option<int>)
    requires Valid(m) && forced != Some(7) && Candidates(forced).Some?
    ensures var cands := Candidates(forced).value;
            var r := TryTechniques(m, env, clock, server, port, forced);
            && (r.0 == Succeeded <==> exists i :: 0 <= i < |cands| && Wins(cands[i], env, clock, server))
            && (r.0 == Succeeded ==> r.1.active.value in cands
                                     && forall i :: 0 <= i < |cands| && cands[i] == r.1.active.value ==>
                                          forall j :: 0 <= j < i ==> !Wins(cands[j], env, clock, server))
  {
    var cands := Candidates(forced).value;
    var r := TryTechniques(m, env, clock, server, port, forced);
    SearchWinner(m, env, clock, server, port, forced);
    SearchFailureRows(m, env, clock, server, port, forced);
    if r.0 == Succeeded {
      var w := |r.1.failed|;
      assert Wins(cands[w], env, clock, server);
    }
  }

  /** Without a forced technique, a run in which nothing wins lists
      techniques 1 to 6 in that order. */
  lemma FallbackListsAllSix(m: Machine, env: Env, clock: Clock, server: string, port: int, forced: Option<int>)
    requires Valid(m) && forced.None?
    ensures var r := TryTechniques(m, env, clock, server, port, forced);
            r.0 == Exhausted ==> |r.1.failed| == 6 && forall i :: 0 <= i < 6 ==> r.1.failed[i].number == i + 1
  {
    var cands := Candidates(forced).value;
    assert cands == [0, 1, 2, 3, 4, 5];
    assert forall i :: 0 <= i < 6 ==> cands[i] == i;
    OrderNumbers();
    SearchWinner(m, env, clock, server, port, forced);
    SearchFailureRows(m, env, clock, server, port, forced);
  }

  /** A forced technique 1..6 is the only candidate: it alone is probed, and
      the run fails with a single row for it exactly when it cannot win. */
  lemma ForcedIsOnlyCandidate(m: Machine, env: Env, clock: Clock, server: string, port: int, n: int)
    requires Valid(m) && 1 <= n <= 6
    ensures var r := TryTechniques(m, env, clock, server, port, Some(n));
            && (r.0 == Succeeded <==> Wins(n - 1, env, clock, server))
            && (r.0 == Succeeded ==> r.1.active == Some(n - 1) && r.1.failed == [])
            && (r.0 == Exhausted ==> |r.1.failed| == 1 && r.1.failed[0].number == n)
            && Probes(r.1.trace) == Probes(m.trace) + [n]
            && (forall j :: 0 <= j < 6 && j != n - 1 ==> r.1.techs[j] == m.techs[j])
  {
    var cands := [n - 1];
    ForcedCandidate(n);
    OrderNumbers();
    assert cands[..1] == cands && Numbers(cands) == [n];
    SearchWinner(m, env, clock, server, port, Some(n));
    SearchFailureRows(m, env, clock, server, port, Some(n));
    SearchProbes(m, env, clock, server, port, Some(n));
    SearchTrace(m, env, clock, server, port, Some(n));
  }

  /** A forced technique's turn is the whole search: afterwards the
      technique and the filesystem are what its is_available and, when it is
      available, its sync_time left behind. */
  lemma ForcedTurn(m: Machine, env: Env, clock: Clock, server: string, port: int, n: int)
    requires Valid(m) && 1 <= n <= 6
    ensures var r := TryTechniques(m, env, clock, server, port, Some(n));
            var p := IsAvailable(m.techs[n - 1], env);
            var s := Sync(p.tech, env, clock, m.files, server, port);
            && r.1.techs[n - 1] == (if p.available then s.tech else p.tech)
            && r.1.files == (if p.available then s.files else m.files)
  {
    var cands := [n - 1];
    assert Candidates(Some(n)) == Some(cands);
    var one := TryOne(m.(failed := []), n - 1, env, clock, server, port);
    assert TryFrom(m.(failed := []), cands, env, clock, server, port).machine == one.machine by {
      if one.Lost? {
        assert cands[1..] == [];
      }
    }
  }

  /** On a freshly constructed DCTimer at most one technique is active after
      a search, and it is the one recorded as active_technique. */
  lemma SingleActiveTechnique(files: Files, env: Env, clock: Clock, server: string, port: int, forced: Option<int>)
    ensures var r := TryTechniques(Initial(files), env, clock, server, port, forced);
            && (r.1.active.Some? <==> r.0 == Succeeded)
            && forall j :: 0 <= j < 6 ==> (r.1.techs[j].active <==> r.1.active == Some(j))
  {
    var m := Initial(files);
    var r := TryTechniques(m, env, clock, server, port, forced);
    if forced != Some(7) && Candidates(forced).Some? {
      TryFromActive(m.(failed := []), Candidates(forced).value, env, clock, server, port);
    }
  }

  /** The example of a forced ntpdate without root: the single failure row
      reads (1, "ntpdate", "Root required for ntpdate") and no file changes. */
  lemma ForcedNtpdateWithoutRoot(files: Files, env: Env, clock: Clock, server: string, port: int)
    requires env.onPath("ntpdate") && env.isLinux && !env.isRoot
    ensures var r := TryTechniques(Initial(files), env, clock, server, port, Some(1));
            && r.0 == Exhausted
            && r.1.failed == [Failure(1, "ntpdate", RootRequired(Ntpdate))]
            && Text(r.1.failed[0].reason) == "Root required for ntpdate"
            && r.1.files == files
  {
  }

  /** DCTimer.validate_port: a port outside 1..65535 ends the program with
      status 1 (None); any other is returned unchanged. */
  function ValidatePort(port: int): (r: Option<int>)
    ensures r.Some? <==> 1 <= port <= 65535
    ensures r.Some? ==> r.value == port
  {
    if !(1 <= port <= 65535) then None else Some(port)
  }
}
