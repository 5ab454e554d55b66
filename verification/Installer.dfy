/** The resumable controller installer of internal/controller/install.go: an ordered list
    of steps, each skipped by mode or by the sentinel an earlier run left on disk. */
module Installer {
  import opened Common

  datatype Name =
    | Preflight | Download | Pki | PkiFromLeader | BaoInit | BaoJoin | Ziti | StoreCreds
    | Caddy | Schmutz | Identities | Fabric | Acl | Verify

  datatype Rule = Always | LeaderOnly | JoinOnly | Never

  datatype Step = Step(name: Name, rule: Rule)

  /** From the checks to the PKI. */
  const FIRST_STEPS: seq<Step> :=
    [Step(Preflight, Always), Step(Download, Always), Step(Pki, LeaderOnly), Step(PkiFromLeader, JoinOnly)]

  /** The vault, the overlay, and the credentials kept in the vault. */
  const MIDDLE_STEPS: seq<Step> :=
    [Step(BaoInit, LeaderOnly), Step(BaoJoin, JoinOnly), Step(Ziti, Always), Step(StoreCreds, LeaderOnly)]

  const LAST_STEPS: seq<Step> :=
    [Step(Caddy, Never), Step(Schmutz, Always), Step(Identities, LeaderOnly), Step(Fabric, LeaderOnly),
     Step(Acl, LeaderOnly), Step(Verify, Always)]

  function BuildSteps(): seq<Step> {
    FIRST_STEPS + MIDDLE_STEPS + LAST_STEPS
  }

  predicate Skipped(rule: Rule, joinMode: bool) {
    match rule
    case Always => false
    case LeaderOnly => joinMode
    case JoinOnly => !joinMode
    case Never => true
  }

  function Names(steps: seq<Step>, joinMode: bool): seq<Name> {
    if steps == [] then []
    else if Skipped(steps[0].rule, joinMode) then Names(steps[1..], joinMode)
    else [steps[0].name] + Names(steps[1..], joinMode)
  }

  /** The steps that apply in a mode, in order. */
  function Applicable(joinMode: bool): seq<Name> {
    Names(BuildSteps(), joinMode)
  }

  // --------------------------------------------------------------- effects

  /** The config field that preflight fills in memory and pki reads: NodePublicIP. */
  type Memory = Option<string>

  /** What steps do to the disk. A successful step makes exec of the disk and of what is
      in memory; a failed or interrupted one leaves one of many residues. */
  datatype Semantics<!D(!new)> = Semantics(exec: (Name, D, Memory) -> D, residue: (Name, D, int) -> D)

  /** How the world treats one step. */
  datatype Attempt =
    | Succeeds(ip: string)   // and the sentinel is written; ip is what preflight detects
    | Unrecorded             // it succeeds, but a crash or a write error loses the sentinel
    | Fails(residue: int)    // it fails, or crashes midway

  datatype Execution = Execution(name: Name, memory: Memory, sentinels: set<Name>, atStart: set<Name>)

  datatype Host<D> = Host(disk: D, sentinels: set<Name>, log: seq<Execution>)

  function Remember(name: Name, memory: Memory, ip: string): Memory {
    if name.Preflight? then Some(ip) else memory
  }

  function Logged<D>(h: Host<D>, name: Name, memory: Memory, atStart: set<Name>): Host<D> {
    h.(log := h.log + [Execution(name, memory, h.sentinels, atStart)])
  }

  /** One run over the applicable steps still to be looked at. A run whose attempts are
      used up is killed before its next step. */
  function Walk<D(!new)>(sem: Semantics<D>, names: seq<Name>, h: Host<D>, memory: Memory, atStart: set<Name>,
      attempts: seq<Attempt>)
    : (Host<D>, bool)
  {
    if names == [] then (h, true)
    else if names[0] in h.sentinels then Walk(sem, names[1..], h, memory, atStart, attempts)
    else if attempts == [] then (h, false)
    else
      var name, h1 := names[0], Logged(h, names[0], memory, atStart);
      match attempts[0]
      case Fails(r) => (h1.(disk := sem.residue(name, h.disk, r)), false)
      case Unrecorded => (h1.(disk := sem.exec(name, h.disk, memory)), false)
      case Succeeds(ip) =>
        Walk(sem, names[1..], h1.(disk := sem.exec(name, h.disk, memory), sentinels := h.sentinels + {name}),
             Remember(name, memory, ip), atStart, attempts[1..])
  }

  /** A run of the installer: memory is blank when it starts. */
  function OneRun<D(!new)>(sem: Semantics<D>, joinMode: bool, h: Host<D>, attempts: seq<Attempt>): (Host<D>, bool) {
    Walk(sem, Applicable(joinMode), h, None, h.sentinels, attempts)
  }

  /** Runs one after the other, in one mode. */
  function Series<D(!new)>(sem: Semantics<D>, joinMode: bool, h: Host<D>, runs: seq<seq<Attempt>>): Host<D> {
    if runs == [] then h
    else OneRun(sem, joinMode, Series(sem, joinMode, h, runs[..|runs| - 1]), runs[|runs| - 1]).0
  }

  // -------------------------------------------------------- the step loop

  class Machine<D(!new)> {
    var disk: D
    var sentinels: set<Name>
    var log: seq<Execution>

    ghost function View(): Host<D>
      reads this
    {
      Host(disk, sentinels, log)
    }

    constructor (disk: D)
      ensures View() == Host(disk, {}, [])
    {
      this.disk, sentinels, log := disk, {}, [];
    }

    /** One step that applies and has no sentinel. */
    method TryStep(sem: Semantics<D>, name: Name, attempt: Attempt, memory: Memory, started: set<Name>)
      returns (done: bool)
      modifies this
      ensures done == attempt.Succeeds?
      ensures var h, h1 := old(View()), Logged(old(View()), name, memory, started);
              View() == match attempt
                        case Fails(r) => h1.(disk := sem.residue(name, h.disk, r))
                        case Unrecorded => h1.(disk := sem.exec(name, h.disk, memory))
                        case Succeeds(_) => h1.(disk := sem.exec(name, h.disk, memory),
                            sentinels := h.sentinels + {name})
    {
      log := log + [Execution(name, memory, sentinels, started)];
      match attempt {
        case Fails(r) =>
          disk := sem.residue(name, disk, r);
          return false;
        case Unrecorded =>
          disk := sem.exec(name, disk, memory);
          return false;
        case Succeeds(_) =>
          disk := sem.exec(name, disk, memory);
          sentinels := sentinels + {name};
          return true;
      }
    }

    /** The loop of Install. */
    method RunSteps(sem: Semantics<D>, steps: seq<Step>, joinMode: bool, attempts: seq<Attempt>) returns (ok: bool)
      modifies this
      ensures (View(), ok) == Walk(sem, Names(steps, joinMode), old(View()), None, old(sentinels), attempts)
    {
      ghost var goal := Walk(sem, Names(steps, joinMode), View(), None, sentinels, attempts);
      var started, nodePublicIP, used := sentinels, None, 0;
      assert steps[0..] == steps && attempts[0..] == attempts;
      for i := 0 to |steps|
        invariant used <= |attempts|
        invariant Walk(sem, Names(steps[i..], joinMode), View(), nodePublicIP, started, attempts[used..]) == goal
      {
        var s := steps[i];
        NamesFrom(steps, i, joinMode);
        if Skipped(s.rule, joinMode) {
          continue;
        }
        WalkNext(sem, s.name, Names(steps[i + 1..], joinMode), View(), nodePublicIP, started, attempts[used..]);
        if s.name in sentinels {
          continue;
        }
        if used == |attempts| {
          return false;
        }
        assert attempts[used..][1..] == attempts[used + 1..];
        var done := TryStep(sem, s.name, attempts[used], nodePublicIP, started);
        if !done {
          return false;
        }
        if s.name.Preflight? {
          nodePublicIP := Some(attempts[used].ip);
        }
        used := used + 1;
      }
      assert steps[|steps|..] == [];
      return true;
    }

    method Install(sem: Semantics<D>, joinMode: bool, attempts: seq<Attempt>) returns (ok: bool)
      modifies this
      ensures (View(), ok) == OneRun(sem, joinMode, old(View()), attempts)
    {
      ok := RunSteps(sem, BuildSteps(), joinMode, attempts);
    }
  }

  lemma NamesFrom(steps: seq<Step>, i: nat, joinMode: bool)
    requires i < |steps|
    ensures Names(steps[i..], joinMode)
         == if Skipped(steps[i].rule, joinMode) then Names(steps[i + 1..], joinMode)
            else [steps[i].name] + Names(steps[i + 1..], joinMode)
  {
    assert steps[i..][1..] == steps[i + 1..];
  }

  lemma WalkNext<D(!new)>(sem: Semantics<D>, name: Name, rest: seq<Name>, h: Host<D>, memory: Memory,
      atStart: set<Name>, attempts: seq<Attempt>)
    ensures Walk(sem, [name] + rest, h, memory, atStart, attempts)
         == if name in h.sentinels then Walk(sem, rest, h, memory, atStart, attempts)
            else if attempts == [] then (h, false)
            else
              var h1 := Logged(h, name, memory, atStart);
              match attempts[0]
              case Fails(r) => (h1.(disk := sem.residue(name, h.disk, r)), false)
              case Unrecorded => (h1.(disk := sem.exec(name, h.disk, memory)), false)
              case Succeeds(ip) =>
                Walk(sem, rest, h1.(disk := sem.exec(name, h.disk, memory), sentinels := h.sentinels + {name}),
                     Remember(name, memory, ip), atStart, attempts[1..])
  {
    assert ([name] + rest)[1..] == rest;
  }

  // -------------------------------------------------------------- sentinels

  /** The first k steps of a list. */
  function Done(app: seq<Name>, k: nat): set<Name>
    requires k <= |app|
  {
    set i | 0 <= i < k :: app[i]
  }

  ghost predicate Distinct(app: seq<Name>) {
    forall i, j :: 0 <= i < j < |app| ==> app[i] != app[j]
  }

  lemma DoneNext(app: seq<Name>, k: nat)
    requires Distinct(app) && k < |app|
    ensures app[k] !in Done(app, k) && Done(app, k + 1) == Done(app, k) + {app[k]}
  {
  }

  /** A step was run when exactly the steps before it had sentinels. */
  ghost predicate InTurn(app: seq<Name>, e: Execution) {
    exists k :: 0 <= k < |app| && app[k] == e.name && e.sentinels == Done(app, k)
  }

  /** The address is in memory exactly if preflight ran earlier in the same run. */
  ghost predicate Remembers(e: Execution) {
    e.memory.Some? <==> Preflight in e.sentinels && Preflight !in e.atStart
  }

  ghost predicate Orderly(app: seq<Name>, log: seq<Execution>) {
    forall i :: 0 <= i < |log| ==> InTurn(app, log[i]) && Remembers(log[i])
  }

  lemma LoggedInTurn<D(!new)>(app: seq<Name>, j: nat, h: Host<D>, memory: Memory, atStart: set<Name>)
    requires j < |app| && h.sentinels == Done(app, j) && Orderly(app, h.log)
    requires memory.Some? <==> Preflight in h.sentinels && Preflight !in atStart
    ensures Orderly(app, Logged(h, app[j], memory, atStart).log)
  {
    assert InTurn(app, Execution(app[j], memory, h.sentinels, atStart));
  }

  /** A run that does not complete the step it is at. */
  lemma StopsInTurn<D(!new)>(sem: Semantics<D>, app: seq<Name>, j: nat, h: Host<D>, memory: Memory,
      atStart: set<Name>, attempts: seq<Attempt>)
    requires Distinct(app) && j < |app| && h.sentinels == Done(app, j) && Orderly(app, h.log)
    requires memory.Some? <==> Preflight in h.sentinels && Preflight !in atStart
    requires attempts == [] || !attempts[0].Succeeds?
    ensures var (h', ok) := Walk(sem, app[j..], h, memory, atStart, attempts);
            h'.sentinels == Done(app, j) && !ok && Orderly(app, h'.log)
  {
    assert app[j..] == [app[j]] + app[j + 1..];
    WalkNext(sem, app[j], app[j + 1..], h, memory, atStart, attempts);
    DoneNext(app, j);
    LoggedInTurn(app, j, h, memory, atStart);
  }

  /** A step that has its sentinel is passed over. */
  lemma PassesOver<D(!new)>(sem: Semantics<D>, app: seq<Name>, j: nat, k: nat, h: Host<D>, memory: Memory,
      atStart: set<Name>, attempts: seq<Attempt>)
    requires j < k <= |app| && h.sentinels == Done(app, k)
    ensures Walk(sem, app[j..], h, memory, atStart, attempts) == Walk(sem, app[j + 1..], h, memory, atStart, attempts)
  {
    assert app[j..] == [app[j]] + app[j + 1..];
    WalkNext(sem, app[j], app[j + 1..], h, memory, atStart, attempts);
    assert app[j] in h.sentinels;
  }

  /** A run that completes the step it is at. */
  lemma GoesOnInTurn<D(!new)>(sem: Semantics<D>, app: seq<Name>, j: nat, h: Host<D>, memory: Memory,
      atStart: set<Name>, attempts: seq<Attempt>) returns (h2: Host<D>, memory2: Memory)
    requires Distinct(app) && j < |app| && h.sentinels == Done(app, j) && Orderly(app, h.log)
    requires memory.Some? <==> Preflight in h.sentinels && Preflight !in atStart
    requires atStart <= h.sentinels && attempts != [] && attempts[0].Succeeds?
    ensures Walk(sem, app[j..], h, memory, atStart, attempts)
         == Walk(sem, app[j + 1..], h2, memory2, atStart, attempts[1..])
    ensures h2.sentinels == Done(app, j + 1) && Orderly(app, h2.log) && atStart <= h2.sentinels
    ensures memory2.Some? <==> Preflight in h2.sentinels && Preflight !in atStart
  {
    assert app[j..] == [app[j]] + app[j + 1..];
    WalkNext(sem, app[j], app[j + 1..], h, memory, atStart, attempts);
    DoneNext(app, j);
    LoggedInTurn(app, j, h, memory, atStart);
    h2 := Logged(h, app[j], memory, atStart).(disk := sem.exec(app[j], h.disk, memory),
        sentinels := h.sentinels + {app[j]});
    memory2 := Remember(app[j], memory, attempts[0].ip);
  }

  /** One run, from the j-th step on, when the first k have sentinels. */
  lemma {:induction false} WalkInTurn<D(!new)>(sem: Semantics<D>, app: seq<Name>, j: nat, k: nat, h: Host<D>,
      memory: Memory, atStart: set<Name>, attempts: seq<Attempt>)
    returns (k': nat)
    requires Distinct(app) && j <= k <= |app| && h.sentinels == Done(app, k) && Orderly(app, h.log)
    requires memory.Some? <==> Preflight in h.sentinels && Preflight !in atStart
    requires atStart <= h.sentinels
    ensures var (h', ok) := Walk(sem, app[j..], h, memory, atStart, attempts);
            k <= k' <= |app| && h'.sentinels == Done(app, k') && (ok <==> k' == |app|) && Orderly(app, h'.log) &&
            (attempts != [] && attempts[0].Succeeds? && k < |app| ==> k < k')
    decreases |app| - j
  {
    if j == |app| {
      k' := k;
    } else {
      if j < k {
        PassesOver(sem, app, j, k, h, memory, atStart, attempts);
        k' := WalkInTurn(sem, app, j + 1, k, h, memory, atStart, attempts);
      } else if attempts != [] && attempts[0].Succeeds? {
        var h2, memory2 := GoesOnInTurn(sem, app, j, h, memory, atStart, attempts);
        k' := WalkInTurn(sem, app, j + 1, j + 1, h2, memory2, atStart, attempts[1..]);
      } else {
        StopsInTurn(sem, app, j, h, memory, atStart, attempts);
        k' := k;
      }
    }
  }

  function Rank(name: Name): nat {
    match name
    case Preflight => 0 case Download => 1 case Pki => 2 case PkiFromLeader => 3 case BaoInit => 4
    case BaoJoin => 5 case Ziti => 6 case StoreCreds => 7 case Caddy => 8 case Schmutz => 9
    case Identities => 10 case Fabric => 11 case Acl => 12 case Verify => 13
  }

  ghost predicate Ranked(names: seq<Name>, low: int) {
    (forall i :: 0 <= i < |names| ==> low <= Rank(names[i])) &&
    forall i, j :: 0 <= i < j < |names| ==> Rank(names[i]) < Rank(names[j])
  }

  lemma {:induction false} NamesRanked(steps: seq<Step>, joinMode: bool, low: int)
    requires forall i :: 0 <= i < |steps| ==> Rank(steps[i].name) == low + i
    ensures Ranked(Names(steps, joinMode), low)
  {
    if steps != [] {
      NamesRanked(steps[1..], joinMode, low + 1);
    }
  }

  lemma ApplicableDistinct(joinMode: bool)
    ensures Distinct(Applicable(joinMode))
  {
    NamesRanked(BuildSteps(), joinMode, 0);
  }

  /** A host on which some first steps are done, and nothing else. */
  ghost predicate Begun<D>(app: seq<Name>, h: Host<D>, k: nat) {
    k <= |app| && h.sentinels == Done(app, k) && Orderly(app, h.log)
  }

  lemma {:induction false} SeriesBegun<D(!new)>(sem: Semantics<D>, joinMode: bool, h: Host<D>, k0: nat,
      runs: seq<seq<Attempt>>)
    returns (k: nat)
    requires Begun(Applicable(joinMode), h, k0)
    ensures Begun(Applicable(joinMode), Series(sem, joinMode, h, runs), k)
    ensures (forall i :: 0 <= i < |runs| ==> runs[i] != [] && runs[i][0].Succeeds?) ==>
              k == |Applicable(joinMode)| || k >= k0 + |runs|
  {
    var app := Applicable(joinMode);
    ApplicableDistinct(joinMode);
    if runs == [] {
      k := k0;
    } else {
      var before, last := runs[..|runs| - 1], runs[|runs| - 1];
      var h1 := Series(sem, joinMode, h, before);
      var k1 := SeriesBegun(sem, joinMode, h, k0, before);
      assert app[0..] == app;
      k := WalkInTurn(sem, app, 0, k1, h1, None, h1.sentinels, last);
    }
  }

  function OwnName(s: Step, joinMode: bool): seq<Name> {
    if Skipped(s.rule, joinMode) then [] else [s.name]
  }

  lemma NamesHead(steps: seq<Step>, joinMode: bool)
    requires steps != []
    ensures Names(steps, joinMode) == OwnName(steps[0], joinMode) + Names(steps[1..], joinMode)
  {
  }

  lemma {:induction false} NamesConcat(a: seq<Step>, b: seq<Step>, c: seq<Step>, joinMode: bool)
    requires c == a + b
    ensures Names(c, joinMode) == Names(a, joinMode) + Names(b, joinMode)
  {
    if a == [] {
      assert c == b;
    } else {
      assert c[0] == a[0] && c[1..] == a[1..] + b;
      NamesConcat(a[1..], b, c[1..], joinMode);
      NamesHead(a, joinMode);
      NamesHead(c, joinMode);
      ConcatAssoc(OwnName(a[0], joinMode), Names(a[1..], joinMode), Names(b, joinMode));
    }
  }

  lemma TwoNames(s: seq<Step>, joinMode: bool)
    requires |s| == 2
    ensures Names(s, joinMode) == OwnName(s[0], joinMode) + OwnName(s[1], joinMode)
  {
    NamesHead(s, joinMode);
    NamesHead(s[1..], joinMode);
    assert s[1..][0] == s[1] && s[1..][1..] == [];
  }

  lemma FourNames(s: seq<Step>, joinMode: bool)
    requires |s| == 4
    ensures Names(s, joinMode)
         == OwnName(s[0], joinMode) + OwnName(s[1], joinMode) + (OwnName(s[2], joinMode) + OwnName(s[3], joinMode))
  {
    NamesConcat(s[..2], s[2..], s, joinMode);
    TwoNames(s[..2], joinMode);
    TwoNames(s[2..], joinMode);
  }

  lemma FirstNames(joinMode: bool)
    ensures Names(FIRST_STEPS, joinMode) == [Preflight, Download] + if joinMode then [PkiFromLeader] else [Pki]
  {
    var s := FIRST_STEPS;
    FourNames(s, joinMode);
  }

  lemma MiddleNames(joinMode: bool)
    ensures Names(MIDDLE_STEPS, joinMode) == if joinMode then [BaoJoin, Ziti] else [BaoInit, Ziti, StoreCreds]
  {
    var s := MIDDLE_STEPS;
    FourNames(s, joinMode);
  }

  lemma LastNames(joinMode: bool)
    ensures Names(LAST_STEPS, joinMode) == if joinMode then
        [Schmutz, Verify] else [Schmutz, Identities, Fabric, Acl, Verify]
  {
    var s := LAST_STEPS;
    NamesConcat(s[..4], s[4..], s, joinMode);
    FourNames(s[..4], joinMode);
    TwoNames(s[4..], joinMode);
  }

  /** The steps by mode: a leader makes the PKI and the first vault, a joining node
      fetches the one and joins the other, in that order; neither runs caddy. */
  lemma ApplicableSteps(joinMode: bool)
    ensures Applicable(joinMode) ==
            if joinMode then [Preflight, Download, PkiFromLeader] + [BaoJoin, Ziti] + [Schmutz, Verify]
            else [Preflight, Download, Pki] + [BaoInit, Ziti, StoreCreds] + [Schmutz, Identities, Fabric, Acl, Verify]
  {
    NamesOfAll(joinMode);
    FirstNames(joinMode);
    MiddleNames(joinMode);
    LastNames(joinMode);
  }

  lemma NamesOfAll(joinMode: bool)
    ensures Applicable(joinMode) == Names(FIRST_STEPS, joinMode) + Names(MIDDLE_STEPS, joinMode) + Names(LAST_STEPS,
        joinMode)
  {
    NamesConcat(FIRST_STEPS + MIDDLE_STEPS, LAST_STEPS, BuildSteps(), joinMode);
    NamesConcat(FIRST_STEPS, MIDDLE_STEPS, FIRST_STEPS + MIDDLE_STEPS, joinMode);
  }

  /** Whatever happens in a series of runs in one mode, the sentinels on disk are those
      of the first steps that apply; a step is only ever run when all the steps before
      it that apply have sentinels and it has none itself; and it finds the address in
      memory exactly if preflight ran before it in the same run. */
  lemma SeriesInTurn<D(!new)>(sem: Semantics<D>, joinMode: bool, disk: D, runs: seq<seq<Attempt>>)
    ensures var app, h := Applicable(joinMode), Series(sem, joinMode, Host(disk, {}, []), runs);
            (exists k :: 0 <= k <= |app| && h.sentinels == Done(app, k)) && Orderly(app, h.log)
  {
    assert Begun(Applicable(joinMode), Host(disk, {}, []), 0);
    var _ := SeriesBegun(sem, joinMode, Host(disk, {}, []), 0, runs);
  }

  /** If every run completes at least one step, no more runs are needed than sentinels
      are missing. */
  lemma EnoughRuns<D(!new)>(sem: Semantics<D>, joinMode: bool, h: Host<D>, k: nat, runs: seq<seq<Attempt>>)
    requires Begun(Applicable(joinMode), h, k)
    requires forall i :: 0 <= i < |runs| ==> runs[i] != [] && runs[i][0].Succeeds?
    requires |runs| >= |Applicable(joinMode)| - k
    ensures var app := Applicable(joinMode); Series(sem, joinMode, h, runs).sentinels == Done(app, |app|)
  {
    var _ := SeriesBegun(sem, joinMode, h, k, runs);
  }

  // ---------------------------------------------------------- one attempt

  /** What one attempt at a step makes of the disk, and whether it writes the sentinel, in
      a run that starts with it. */
  function Tried<D(!new)>(sem: Semantics<D>, name: Name, disk: D, a: Attempt): (D, bool) {
    match a
    case Succeeds(_) => (sem.exec(name, disk, None), true)
    case Unrecorded => (sem.exec(name, disk, None), false)
    case Fails(r) => (sem.residue(name, disk, r), false)
  }

  lemma {:induction false} WalkPastDone<D(!new)>(sem: Semantics<D>, names: seq<Name>, j: nat, h: Host<D>,
      attempts: seq<Attempt>)
    requires j <= |names| && forall i :: 0 <= i < j ==> names[i] in h.sentinels
    ensures Walk(sem, names, h, None, h.sentinels, attempts) == Walk(sem, names[j..], h, None, h.sentinels, attempts)
    decreases j
  {
    if j == 0 {
      assert names[0..] == names;
    } else {
      WalkPastDone(sem, names[1..], j - 1, h, attempts);
      assert names[1..][j - 1..] == names[j..];
    }
  }

  /** Without an attempt nothing happens. */
  lemma WalkWithout<D(!new)>(sem: Semantics<D>, names: seq<Name>, h: Host<D>, memory: Memory, atStart: set<Name>)
    requires names != [] && names[0] !in h.sentinels
    ensures Walk(sem, names, h, memory, atStart, []) == (h, false)
  {
  }

  /** The outcome of a run that gets this one attempt, at a step with others to follow. */
  ghost predicate AfterAttempt<D(!new)>(sem: Semantics<D>, name: Name, rest: seq<Name>, h: Host<D>, a: Attempt,
      outcome: (Host<D>, bool))
  {
    var (disk, recorded) := Tried(sem, name, h.disk, a);
    outcome.0.disk == disk &&
    outcome.0.sentinels == (if recorded then h.sentinels + {name} else h.sentinels) &&
    (outcome.1 <==> recorded && rest == [])
  }

  lemma AttemptHere<D(!new)>(sem: Semantics<D>, name: Name, rest: seq<Name>, h: Host<D>, a: Attempt)
    requires name !in h.sentinels && (rest == [] || (rest[0] != name && rest[0] !in h.sentinels))
    ensures AfterAttempt(sem, name, rest, h, a, Walk(sem, [name] + rest, h, None, h.sentinels, [a]))
  {
    WalkNext(sem, name, rest, h, None, h.sentinels, [a]);
    if a.Succeeds? {
      assert [a][1..] == [];
      var h2 := Logged(h, name, None, h.sentinels).(disk := sem.exec(name, h.disk, None),
          sentinels := h.sentinels + {name});
      if rest != [] {
        WalkWithout(sem, rest, h2, Remember(name, None, a.ip), h.sentinels);
      }
    }
  }

  lemma NextNotDone(app: seq<Name>, k: nat)
    requires Distinct(app) && k + 1 < |app|
    ensures app[k + 1] != app[k] && app[k + 1] !in Done(app, k)
  {
    DoneNext(app, k);
    DoneNext(app, k + 1);
  }

  lemma ReachesStep<D(!new)>(sem: Semantics<D>, app: seq<Name>, h: Host<D>, k: nat, attempts: seq<Attempt>)
    requires k < |app| && h.sentinels == Done(app, k)
    ensures Walk(sem, app, h, None, h.sentinels, attempts)
         == Walk(sem, [app[k]] + app[k + 1..], h, None, h.sentinels, attempts)
  {
    assert forall i :: 0 <= i < k ==> app[i] in h.sentinels;
    WalkPastDone(sem, app, k, h, attempts);
    assert app[k..] == [app[k]] + app[k + 1..];
  }

  /** A run that gets one attempt, on a host where the first k steps have sentinels, makes
      it at the next one: a success leaves that step's work and its sentinel, a success
      that is lost leaves the work without the sentinel, and a failure its residue. */
  lemma OneAttempt<D(!new)>(sem: Semantics<D>, joinMode: bool, h: Host<D>, k: nat, a: Attempt)
    requires Begun(Applicable(joinMode), h, k) && k < |Applicable(joinMode)|
    ensures var name := Applicable(joinMode)[k];
            var (h', ok) := OneRun(sem, joinMode, h, [a]);
            var (disk, recorded) := Tried(sem, name, h.disk, a);
            h'.disk == disk && h'.sentinels == (if recorded then h.sentinels + {name} else h.sentinels) &&
            (ok <==> recorded && k + 1 == |Applicable(joinMode)|)
  {
    var app := Applicable(joinMode);
    var rest := app[k + 1..];
    ApplicableDistinct(joinMode);
    ReachesStep(sem, app, h, k, [a]);
    DoneNext(app, k);
    if k + 1 < |app| {
      NextNotDone(app, k);
    }
    AttemptHere(sem, app[k], rest, h, a);
  }

  // -------------------------------------------------------------- the disk

  /** Only pki looks at what an earlier step left in memory. */
  ghost predicate OnlyPkiReads<D(!new)>(sem: Semantics<D>) {
    forall n, d, m :: n != Pki ==> sem.exec(n, d, m) == sem.exec(n, d, None)
  }

  /** A successful attempt makes up for failed or unrecorded ones before it. */
  ghost predicate Absorbs<D(!new)>(sem: Semantics<D>) {
    (forall n, d, r, m :: sem.exec(n, sem.residue(n, d, r), m) == sem.exec(n, d, m)) &&
    (forall n, d, m, m' :: sem.exec(n, sem.exec(n, d, m), m') == sem.exec(n, d, m'))
  }

  /** The disk after the first k steps, each run once, when pki finds m in memory. */
  function Clean<D(!new)>(sem: Semantics<D>, app: seq<Name>, k: nat, disk: D, m: Memory): D
    requires k <= |app|
  {
    if k == 0 then disk
    else sem.exec(app[k - 1], Clean(sem, app, k - 1, disk, m), if app[k - 1] == Pki then m else None)
  }

  /** What the last execution of pki found in memory. */
  function PkiMemory(log: seq<Execution>): Memory {
    if log == [] then None
    else if log[|log| - 1].name == Pki then log[|log| - 1].memory
    else PkiMemory(log[..|log| - 1])
  }

  lemma {:induction false} CleanBeforePki<D(!new)>(sem: Semantics<D>, app: seq<Name>, k: nat, disk: D, m: Memory,
      m': Memory)
    requires k <= |app| && Pki !in app[..k]
    ensures Clean(sem, app, k, disk, m) == Clean(sem, app, k, disk, m')
  {
    if k > 0 {
      assert app[..k][k - 1] == app[k - 1] && app[..k - 1] == app[..k][..k - 1];
      CleanBeforePki(sem, app, k - 1, disk, m, m');
    }
  }

  /** Up to residue of the next step, the disk is a clean one. */
  ghost predicate AsIfClean<D(!new)>(sem: Semantics<D>, app: seq<Name>, disk0: D, disk: D, k: nat, m: Memory)
    requires k <= |app|
  {
    if k == |app| then disk == Clean(sem, app, k, disk0, m)
    else forall m' :: sem.exec(app[k], disk, m') == sem.exec(app[k], Clean(sem, app, k, disk0, m), m')
  }

  /** One attempt keeps it so, whatever comes of it. */
  lemma AttemptAsIfClean<D(!new)>(sem: Semantics<D>, app: seq<Name>, k: nat, disk0: D, h: Host<D>, memory: Memory,
      atStart: set<Name>)
    requires OnlyPkiReads(sem) && Absorbs(sem) && Distinct(app)
    requires k < |app| && AsIfClean(sem, app, disk0, h.disk, k, PkiMemory(h.log))
    ensures var m1 := PkiMemory(Logged(h, app[k], memory, atStart).log);
            m1 == (if app[k] == Pki then memory else PkiMemory(h.log)) &&
            (forall r :: AsIfClean(sem, app, disk0, sem.residue(app[k], h.disk, r), k, m1)) &&
            AsIfClean(sem, app, disk0, sem.exec(app[k], h.disk, memory), k, m1) &&
            sem.exec(app[k], h.disk, memory) == Clean(sem, app, k + 1, disk0, m1)
  {
    var m, log := PkiMemory(h.log), Logged(h, app[k], memory, atStart).log;
    assert log[..|log| - 1] == h.log;
    var m1 := PkiMemory(log);
    if app[k] == Pki {
      CleanBeforePki(sem, app, k, disk0, m, m1);
    }
  }

  lemma {:induction false} WalkAsIfClean<D(!new)>(sem: Semantics<D>, app: seq<Name>, j: nat, k: nat, disk0: D,
      h: Host<D>, memory: Memory, atStart: set<Name>, attempts: seq<Attempt>)
    returns (k': nat)
    requires OnlyPkiReads(sem) && Absorbs(sem) && Distinct(app)
    requires j <= k <= |app| && h.sentinels == Done(app, k) && AsIfClean(sem, app, disk0, h.disk, k, PkiMemory(h.log))
    ensures var h' := Walk(sem, app[j..], h, memory, atStart, attempts).0;
            k' <= |app| && h'.sentinels == Done(app, k') && AsIfClean(sem, app, disk0, h'.disk, k', PkiMemory(h'.log))
    decreases |app| - j
  {
    if j == |app| {
      k' := k;
    } else {
      assert app[j..] == [app[j]] + app[j + 1..];
      WalkNext(sem, app[j], app[j + 1..], h, memory, atStart, attempts);
      if j < k {
        assert app[j] in h.sentinels;
        k' := WalkAsIfClean(sem, app, j + 1, k, disk0, h, memory, atStart, attempts);
      } else {
        assert app[j] !in h.sentinels;
        AttemptAsIfClean(sem, app, k, disk0, h, memory, atStart);
        k' := k;
        if attempts != [] && attempts[0].Succeeds? {
          var h2 := Logged(h, app[j], memory, atStart).(disk := sem.exec(app[j], h.disk, memory),
              sentinels := h.sentinels + {app[j]});
          assert h2.sentinels == Done(app, j + 1);
          k' := WalkAsIfClean(sem, app, j + 1, j + 1, disk0, h2, Remember(app[j], memory, attempts[0].ip), atStart,
              attempts[1..]);
        }
      }
    }
  }

  lemma {:induction false} SeriesAsIfClean<D(!new)>(sem: Semantics<D>, joinMode: bool, disk: D, runs: seq<seq<Attempt>>)
    returns (k: nat)
    requires OnlyPkiReads(sem) && Absorbs(sem)
    ensures var app, h := Applicable(joinMode), Series(sem, joinMode, Host(disk, {}, []), runs);
            k <= |app| && h.sentinels == Done(app, k) && AsIfClean(sem, app, disk, h.disk, k, PkiMemory(h.log))
  {
    var app := Applicable(joinMode);
    ApplicableDistinct(joinMode);
    if runs == [] {
      k := 0;
      assert Clean(sem, app, 0, disk, None) == disk;
    } else {
      var h := Series(sem, joinMode, Host(disk, {}, []), runs[..|runs| - 1]);
      var k0 := SeriesAsIfClean(sem, joinMode, disk, runs[..|runs| - 1]);
      assert app[0..] == app;
      k := WalkAsIfClean(sem, app, 0, k0, disk, h, None, h.sentinels, runs[|runs| - 1]);
    }
  }

  lemma DoneGrows(app: seq<Name>)
    requires Distinct(app)
    ensures forall k :: 0 <= k < |app| ==> Done(app, k) != Done(app, |app|)
  {
    forall k | 0 <= k < |app|
      ensures Done(app, k) != Done(app, |app|)
    {
      assert app[k] in Done(app, |app|) && app[k] !in Done(app, k);
    }
  }

  ghost predicate Complete<D>(joinMode: bool, h: Host<D>) {
    h.sentinels == Done(Applicable(joinMode), |Applicable(joinMode)|)
  }

  /** A completed series leaves a clean disk, but for what pki found in memory. */
  lemma SeriesComplete<D(!new)>(sem: Semantics<D>, joinMode: bool, disk: D, runs: seq<seq<Attempt>>)
    requires OnlyPkiReads(sem) && Absorbs(sem)
    requires Complete(joinMode, Series(sem, joinMode, Host(disk, {}, []), runs))
    ensures var app, h := Applicable(joinMode), Series(sem, joinMode, Host(disk, {}, []), runs);
            h.disk == Clean(sem, app, |app|, disk, PkiMemory(h.log))
  {
    ApplicableDistinct(joinMode);
    DoneGrows(Applicable(joinMode));
    var k := SeriesAsIfClean(sem, joinMode, disk, runs);
  }

  /** Every step succeeds; preflight detects ip. */
  function Fold<D(!new)>(sem: Semantics<D>, names: seq<Name>, disk: D, memory: Memory, ip: string): D {
    if names == [] then disk
    else Fold(sem, names[1..], sem.exec(names[0], disk, memory), Remember(names[0], memory, ip), ip)
  }

  function Smooth(n: nat, ip: string): seq<Attempt> {
    if n == 0 then [] else [Succeeds(ip)] + Smooth(n - 1, ip)
  }

  lemma {:induction false} WalkSmooth<D(!new)>(sem: Semantics<D>, names: seq<Name>, h: Host<D>, memory: Memory,
      atStart: set<Name>, ip: string)
    requires Distinct(names) && forall i :: 0 <= i < |names| ==> names[i] !in h.sentinels
    ensures Walk(sem, names, h, memory, atStart, Smooth(|names|, ip)).0.disk == Fold(sem, names, h.disk, memory, ip)
    ensures Walk(sem, names, h, memory, atStart, Smooth(|names|, ip)).1
  {
    if names != [] {
      var name, rest := names[0], names[1..];
      assert names == [name] + rest;
      var attempts := Smooth(|names|, ip);
      assert attempts[1..] == Smooth(|rest|, ip);
      WalkNext(sem, name, rest, h, memory, atStart, attempts);
      var h2 := Logged(h, name, memory, atStart).(disk := sem.exec(name, h.disk, memory),
          sentinels := h.sentinels + {name});
      WalkSmooth(sem, rest, h2, Remember(name, memory, ip), atStart, ip);
    }
  }

  /** A run in which every step succeeds completes. */
  lemma SmoothCompletes<D(!new)>(sem: Semantics<D>, joinMode: bool, disk: D, ip: string)
    ensures var app := Applicable(joinMode);
            var (h, ok) := OneRun(sem, joinMode, Host(disk, {}, []), Smooth(|app|, ip));
            ok && Complete(joinMode, h) && Orderly(app, h.log)
  {
    var app, h0: Host<D> := Applicable(joinMode), Host(disk, {}, []);
    ApplicableDistinct(joinMode);
    assert app[0..] == app && h0.sentinels == Done(app, 0);
    WalkSmooth(sem, app, h0, None, {}, ip);
    var _ := WalkInTurn(sem, app, 0, 0, h0, None, {}, Smooth(|app|, ip));
  }

  /** Steps that read nothing from memory. */
  ghost predicate ReadsDiskOnly<D(!new)>(sem: Semantics<D>) {
    forall n, d, m :: sem.exec(n, d, m) == sem.exec(n, d, None)
  }

  lemma {:induction false} CleanWhateverMemory<D(!new)>(sem: Semantics<D>, app: seq<Name>, k: nat, disk: D, m: Memory)
    requires k <= |app| && ReadsDiskOnly(sem)
    ensures Clean(sem, app, k, disk, m) == Clean(sem, app, k, disk, None)
  {
    if k > 0 {
      CleanWhateverMemory(sem, app, k - 1, disk, m);
    }
  }

  lemma SeriesOfOne<D(!new)>(sem: Semantics<D>, joinMode: bool, disk: D, run: seq<Attempt>)
    ensures Series(sem, joinMode, Host(disk, {}, []), [run]) == OneRun(sem, joinMode, Host(disk, {}, []), run).0
  {
    assert [run][..0] == [];
  }

  /** If steps read only the disk and absorb residues, then any series of runs that
      completes, however interrupted, leaves the disk of one uninterrupted run. */
  lemma SameDiskAsClean<D(!new)>(sem: Semantics<D>, joinMode: bool, disk: D, runs: seq<seq<Attempt>>, ip: string)
    requires ReadsDiskOnly(sem) && Absorbs(sem)
    requires Complete(joinMode, Series(sem, joinMode, Host(disk, {}, []), runs))
    ensures Series(sem, joinMode, Host(disk, {}, []), runs).disk
         == OneRun(sem, joinMode, Host(disk, {}, []), Smooth(|Applicable(joinMode)|, ip)).0.disk
  {
    var app := Applicable(joinMode);
    var smooth := Smooth(|app|, ip);
    SmoothCompletes(sem, joinMode, disk, ip);
    SeriesOfOne(sem, joinMode, disk, smooth);
    SeriesComplete(sem, joinMode, disk, runs);
    SeriesComplete(sem, joinMode, disk, [smooth]);
    CleanWhateverMemory(sem, app, |app|, disk, PkiMemory(Series(sem, joinMode, Host(disk, {}, []), runs).log));
    CleanWhateverMemory(sem, app, |app|, disk, PkiMemory(Series(sem, joinMode, Host(disk, {}, []), [smooth]).log));
  }

  // ------------------------------------------------- the address in memory

  /** Preflight detects the same address whenever it succeeds. */
  ghost predicate Detects(attempts: seq<Attempt>, ip: string) {
    forall i :: 0 <= i < |attempts| && attempts[i].Succeeds? ==> attempts[i].ip == ip
  }

  predicate BlankOr(memory: Memory, ip: string) {
    memory.None? || memory == Some(ip)
  }

  lemma {:induction false} WalkPkiMemory<D(!new)>(sem: Semantics<D>, names: seq<Name>, h: Host<D>, memory: Memory,
      atStart: set<Name>, attempts: seq<Attempt>, ip: string)
    requires Detects(attempts, ip) && BlankOr(memory, ip) && BlankOr(PkiMemory(h.log), ip)
    ensures BlankOr(PkiMemory(Walk(sem, names, h, memory, atStart, attempts).0.log), ip)
  {
    if names != [] {
      var name, rest := names[0], names[1..];
      assert names == [name] + rest;
      WalkNext(sem, name, rest, h, memory, atStart, attempts);
      if name in h.sentinels {
        WalkPkiMemory(sem, rest, h, memory, atStart, attempts, ip);
      } else if attempts != [] {
        var h1 := Logged(h, name, memory, atStart);
        assert h1.log[..|h1.log| - 1] == h.log;
        if attempts[0].Succeeds? {
          var h2 := h1.(disk := sem.exec(name, h.disk, memory), sentinels := h.sentinels + {name});
          WalkPkiMemory(sem, rest, h2, Remember(name, memory, attempts[0].ip), atStart, attempts[1..], ip);
        }
      }
    }
  }

  lemma {:induction false} SeriesPkiMemory<D(!new)>(sem: Semantics<D>, joinMode: bool, h: Host<D>,
      runs: seq<seq<Attempt>>, ip: string)
    requires forall i :: 0 <= i < |runs| ==> Detects(runs[i], ip)
    requires h.log == []
    ensures BlankOr(PkiMemory(Series(sem, joinMode, h, runs).log), ip)
  {
    if runs != [] {
      var h1 := Series(sem, joinMode, h, runs[..|runs| - 1]);
      SeriesPkiMemory(sem, joinMode, h, runs[..|runs| - 1], ip);
      WalkPkiMemory(sem, Applicable(joinMode), h1, None, h1.sentinels, runs[|runs| - 1], ip);
    }
  }

  /** The last time pki ran, it was in a run that started before preflight was done. */
  predicate PkiWithPreflight(log: seq<Execution>) {
    log != [] &&
    if log[|log| - 1].name == Pki then Preflight !in log[|log| - 1].atStart
    else PkiWithPreflight(log[..|log| - 1])
  }

  /** So, and only so, did it find the address. */
  lemma {:induction false} PkiMemoryMeans(joinMode: bool, log: seq<Execution>)
    requires !joinMode
    requires Orderly(Applicable(joinMode), log)
    ensures PkiMemory(log).Some? <==> PkiWithPreflight(log)
  {
    if log != [] {
      var e := log[|log| - 1];
      if e.name == Pki {
        LeaderSteps(joinMode);
        var app := Applicable(joinMode);
        var k :| 0 <= k < |app| && app[k] == e.name && e.sentinels == Done(app, k);
        assert app[0] in Done(app, k);
        assert Remembers(e);
      } else {
        PkiMemoryMeans(joinMode, log[..|log| - 1]);
      }
    }
  }

  /** A run decides the matter when it completes pki, and leaves it alone afterwards. */
  lemma {:induction false} WalkPki<D(!new)>(sem: Semantics<D>, names: seq<Name>, h: Host<D>, memory: Memory,
      atStart: set<Name>, attempts: seq<Attempt>)
    ensures var h' := Walk(sem, names, h, memory, atStart, attempts).0;
            h.sentinels <= h'.sentinels &&
            (Pki in h.sentinels ==> (PkiWithPreflight(h'.log) <==> PkiWithPreflight(h.log))) &&
            (Pki !in h.sentinels && Pki in h'.sentinels ==> (PkiWithPreflight(h'.log) <==> Preflight !in atStart))
  {
    if names != [] {
      var name, rest := names[0], names[1..];
      assert names == [name] + rest;
      WalkNext(sem, name, rest, h, memory, atStart, attempts);
      if name in h.sentinels {
        WalkPki(sem, rest, h, memory, atStart, attempts);
      } else if attempts != [] {
        var h1 := Logged(h, name, memory, atStart);
        assert h1.log[..|h1.log| - 1] == h.log;
        if attempts[0].Succeeds? {
          var h2 := h1.(disk := sem.exec(name, h.disk, memory), sentinels := h.sentinels + {name});
          WalkPki(sem, rest, h2, Remember(name, memory, attempts[0].ip), atStart, attempts[1..]);
        }
      }
    }
  }

  /** The run that completed pki began without preflight's sentinel on disk. */
  ghost predicate PkiRunFresh<D(!new)>(sem: Semantics<D>, joinMode: bool, h: Host<D>, runs: seq<seq<Attempt>>) {
    runs != [] &&
    (var h1 := Series(sem, joinMode, h, runs[..|runs| - 1]);
     if Pki in h1.sentinels then PkiRunFresh(sem, joinMode, h, runs[..|runs| - 1])
     else Pki in Series(sem, joinMode, h, runs).sentinels && Preflight !in h1.sentinels)
  }

  lemma {:induction false} PkiRunFreshMeans<D(!new)>(sem: Semantics<D>, joinMode: bool, h: Host<D>,
      runs: seq<seq<Attempt>>)
    requires Pki !in h.sentinels && Pki in Series(sem, joinMode, h, runs).sentinels
    ensures PkiWithPreflight(Series(sem, joinMode, h, runs).log) <==> PkiRunFresh(sem, joinMode, h, runs)
  {
    var before := runs[..|runs| - 1];
    var h1 := Series(sem, joinMode, h, before);
    WalkPki(sem, Applicable(joinMode), h1, None, h1.sentinels, runs[|runs| - 1]);
    if Pki in h1.sentinels {
      PkiRunFreshMeans(sem, joinMode, h, before);
    }
  }

  /** What a completed series on a leader leaves, by the run that completed pki. */
  lemma LeaderDisk<D(!new)>(sem: Semantics<D>, joinMode: bool, disk: D, runs: seq<seq<Attempt>>, ip: string)
    requires OnlyPkiReads(sem) && Absorbs(sem) && forall i :: 0 <= i < |runs| ==> Detects(runs[i], ip)
    requires !joinMode && Complete(joinMode, Series(sem, joinMode, Host(disk, {}, []), runs))
    ensures Series(sem, joinMode, Host(disk, {}, []), runs).disk
         == Clean(sem, Applicable(joinMode), |Applicable(joinMode)|, disk,
                  if PkiRunFresh(sem, joinMode, Host(disk, {}, []), runs) then Some(ip) else None)
  {
    var h0: Host<D> := Host(disk, {}, []);
    LeaderSteps(joinMode);
    var app := Applicable(joinMode);
    SeriesInTurn(sem, joinMode, disk, runs);
    SeriesComplete(sem, joinMode, disk, runs);
    SeriesPkiMemory(sem, joinMode, h0, runs, ip);
    PkiMemoryMeans(joinMode, Series(sem, joinMode, h0, runs).log);
    var i :| 0 <= i < |app[1..]| && app[1..][i] == Pki;
    assert app[i + 1] in Done(app, |app|);
    PkiRunFreshMeans(sem, joinMode, h0, runs);
  }

  lemma {:induction false} SmoothDetects(n: nat, ip: string)
    ensures Detects(Smooth(n, ip), ip)
  {
    if n > 0 {
      SmoothDetects(n - 1, ip);
    }
  }

  /** A joining node fetches its PKI, so nothing it runs looks at the address. */
  lemma JoinerDisk<D(!new)>(sem: Semantics<D>, joinMode: bool, disk: D, runs: seq<seq<Attempt>>)
    requires joinMode && OnlyPkiReads(sem) && Absorbs(sem)
    requires Complete(joinMode, Series(sem, joinMode, Host(disk, {}, []), runs))
    ensures Series(sem, joinMode, Host(disk, {}, []), runs).disk
         == Clean(sem, Applicable(joinMode), |Applicable(joinMode)|, disk, None)
  {
    var app := Applicable(joinMode);
    SeriesComplete(sem, joinMode, disk, runs);
    NoPki(joinMode);
    assert app[..|app|] == app;
    CleanBeforePki(sem, app, |app|, disk, PkiMemory(Series(sem, joinMode, Host(disk, {}, []), runs).log), None);
  }

  lemma NoPki(joinMode: bool)
    requires joinMode
    ensures Pki !in Applicable(joinMode)
  {
    ApplicableSteps(joinMode);
  }

  /** An uninterrupted run leaves the clean disk, with the address where it is looked at. */
  lemma SmoothDisk<D(!new)>(sem: Semantics<D>, joinMode: bool, disk: D, ip: string)
    requires OnlyPkiReads(sem) && Absorbs(sem)
    ensures var app := Applicable(joinMode);
            OneRun(sem, joinMode, Host(disk, {}, []), Smooth(|app|, ip)).0.disk ==
            Clean(sem, app, |app|, disk, if joinMode then None else Some(ip))
  {
    var n := |Applicable(joinMode)|;
    var smooth := Smooth(n, ip);
    SmoothCompletes(sem, joinMode, disk, ip);
    SeriesOfOne(sem, joinMode, disk, smooth);
    if joinMode {
      JoinerDisk(sem, joinMode, disk, [smooth]);
    } else {
      SmoothDetects(n, ip);
      LeaderDisk(sem, joinMode, disk, [smooth], ip);
      SmoothRunFresh(sem, joinMode, disk, smooth);
    }
  }

  ghost predicate AlwaysDetects(runs: seq<seq<Attempt>>, ip: string) {
    forall i :: 0 <= i < |runs| ==> Detects(runs[i], ip)
  }

  /** With the address in it, a leader's disk is not the same as without. */
  ghost predicate AddressShows<D(!new)>(sem: Semantics<D>, disk: D, app: seq<Name>, ip: string) {
    Clean(sem, app, |app|, disk, None) != Clean(sem, app, |app|, disk, Some(ip))
  }

  /** Where pki, and only pki, reads the address that preflight left in memory, an
      interrupted series that completes leaves the disk of an uninterrupted run always on a
      joining node; and on a leader, if the address shows on disk at all and preflight
      always detects it, exactly if the run that completed pki began without preflight's
      sentinel. */
  lemma SameDiskExactly<D(!new)>(sem: Semantics<D>, joinMode: bool, disk: D, runs: seq<seq<Attempt>>, ip: string)
    requires OnlyPkiReads(sem) && Absorbs(sem)
    requires Complete(joinMode, Series(sem, joinMode, Host(disk, {}, []), runs))
    ensures joinMode || (AddressShows(sem, disk, Applicable(joinMode), ip) && AlwaysDetects(runs, ip)) ==>
              (Series(sem, joinMode, Host(disk, {}, []), runs).disk
            == OneRun(sem, joinMode, Host(disk, {}, []), Smooth(|Applicable(joinMode)|, ip)).0.disk
          <==> joinMode || PkiRunFresh(sem, joinMode, Host(disk, {}, []), runs))
  {
    SmoothDisk(sem, joinMode, disk, ip);
    if joinMode {
      JoinerDisk(sem, joinMode, disk, runs);
    } else if AlwaysDetects(runs, ip) {
      LeaderDisk(sem, joinMode, disk, runs, ip);
    }
  }

  lemma SmoothRunFresh<D(!new)>(sem: Semantics<D>, joinMode: bool, disk: D, run: seq<Attempt>)
    requires !joinMode && Complete(joinMode, Series(sem, joinMode, Host(disk, {}, []), [run]))
    ensures PkiRunFresh(sem, joinMode, Host(disk, {}, []), [run])
  {
    LeaderSteps(joinMode);
    var app := Applicable(joinMode);
    var i :| 0 <= i < |app[1..]| && app[1..][i] == Pki;
    assert app[i + 1] in Done(app, |app|);
    assert [run][..0] == [];
  }

  /** A world in which all that counts is the address pki puts into the certificate. */
  function Certificate(): Semantics<Memory> {
    Semantics((n: Name, d: Memory, m: Memory) => if n == Pki then m else d, (n: Name, d: Memory, r: int) => d)
  }

  lemma {:induction false} FoldCertificate(names: seq<Name>, disk: Memory, memory: Memory, ip: string)
    requires Preflight !in names
    ensures Fold(Certificate(), names, disk, memory, ip) == if Pki in names then memory else disk
  {
    if names != [] {
      var sem := Certificate();
      FoldCertificate(names[1..], sem.exec(names[0], disk, memory), memory, ip);
      assert names == [names[0]] + names[1..];
    }
  }

  lemma LeaderSteps(joinMode: bool)
    requires !joinMode
    ensures var app := Applicable(joinMode);
            Distinct(app) && app != [] && app[0] == Preflight && Pki in app[1..] && Preflight !in app[1..]
  {
    var steps := BuildSteps();
    assert steps[0..] == steps;
    NamesFrom(steps, 0, joinMode);
    NamesFrom(steps, 1, joinMode);
    NamesFrom(steps, 2, joinMode);
    ApplicableDistinct(joinMode);
    var app := Applicable(joinMode);
    assert app[2] == Pki && app[1..][1] == Pki;
    forall i | 0 <= i < |app[1..]|
      ensures app[1..][i] != Preflight
    {
      assert app[1..][i] == app[i + 1];
    }
  }

  lemma RunsOfOne<D(!new)>(sem: Semantics<D>, joinMode: bool, h: Host<D>, first: seq<Attempt>, second: seq<Attempt>)
    ensures var h1 := OneRun(sem, joinMode, h, first).0;
            Series(sem, joinMode, h, [first]) == h1 &&
            Series(sem, joinMode, h, [first, second]) == OneRun(sem, joinMode, h1, second).0
  {
    assert [first][..0] == [] && [first, second][..1] == [first];
  }

  /** A run killed right after preflight. */
  lemma KilledAfterPreflight(rest: seq<Name>, h: Host<Memory>, ip: string)
    requires h.sentinels == {} && Preflight !in rest && rest != []
    ensures var h1 := Walk(Certificate(), [Preflight] + rest, h, None, {}, [Succeeds(ip)]).0;
            h1.disk == h.disk && h1.sentinels == {Preflight}
  {
    var sem := Certificate();
    WalkNext(sem, Preflight, rest, h, None, {}, [Succeeds(ip)]);
    var h1 := Logged(h, Preflight, None, {}).(disk := sem.exec(Preflight, h.disk, None), sentinels := {} + {Preflight});
    assert rest[0] in rest && [Succeeds(ip)][1..] == [];
    WalkWithout(sem, rest, h1, Some(ip), {});
  }

  lemma SmoothTwice(rest: seq<Name>, ip: string)
    requires Distinct(rest) && Pki in rest && Preflight !in rest
    ensures var sem, h0 := Certificate(), Host(None, {}, []);
            var h1 := Walk(sem, [Preflight] + rest, h0, None, {}, [Succeeds(ip)]).0;
            Walk(sem, [Preflight] + rest, h1, None, h1.sentinels, Smooth(|rest|, ip)).0.disk == None
  {
    var sem, h0: Host<Memory> := Certificate(), Host(None, {}, []);
    KilledAfterPreflight(rest, h0, ip);
    var h1 := Walk(sem, [Preflight] + rest, h0, None, {}, [Succeeds(ip)]).0;
    WalkNext(sem, Preflight, rest, h1, None, h1.sentinels, Smooth(|rest|, ip));
    WalkSmooth(sem, rest, h1, None, h1.sentinels, ip);
    FoldCertificate(rest, None, None, ip);
  }

  lemma FoldNext<D(!new)>(sem: Semantics<D>, name: Name, rest: seq<Name>, disk: D, memory: Memory, ip: string)
    ensures Fold(sem, [name] + rest, disk, memory, ip)
         == Fold(sem, rest, sem.exec(name, disk, memory), Remember(name, memory, ip), ip)
  {
    assert ([name] + rest)[1..] == rest;
  }

  lemma SmoothOnce(app: seq<Name>, h0: Host<Memory>, ip: string)
    requires Distinct(app) && app != [] && app[0] == Preflight && Pki in app[1..] && Preflight !in app[1..]
    requires h0 == Host(None, {}, [])
    ensures Walk(Certificate(), app, h0, None, {}, Smooth(|app|, ip)).0.disk == Some(ip)
  {
    WalkSmooth(Certificate(), app, h0, None, {}, ip);
    assert Fold(Certificate(), app, None, None, ip) == Some(ip) by {
      assert app == [Preflight] + app[1..];
      FoldNext(Certificate(), Preflight, app[1..], None, None, ip);
      FoldCertificate(app[1..], None, Some(ip), ip);
    }
  }

  ghost predicate Lost(app: seq<Name>, ip: string) {
    var sem, h0 := Certificate(), Host(None, {}, []);
    var h1 := Walk(sem, app, h0, None, {}, [Succeeds(ip)]).0;
    app != [] &&
    Walk(sem, app, h0, None, {}, Smooth(|app|, ip)).0.disk == Some(ip) &&
    Walk(sem, app, h1, None, h1.sentinels, Smooth(|app| - 1, ip)).0.disk == None
  }

  lemma LostBetween(app: seq<Name>, ip: string)
    requires Distinct(app) && app != [] && app[0] == Preflight && Pki in app[1..] && Preflight !in app[1..]
    ensures Lost(app, ip)
  {
    assert app == [Preflight] + app[1..];
    SmoothOnce(app, Host(None, {}, []), ip);
    SmoothTwice(app[1..], ip);
  }

  lemma CertificateAbsorbs()
    ensures Absorbs(Certificate())
  {
  }

  lemma LostOnLeader(joinMode: bool, h0: Host<Memory>, ip: string)
    requires !joinMode && h0 == Host(None, {}, [])
    ensures var sem, n := Certificate(), |Applicable(joinMode)|;
            n > 0 && Series(sem, joinMode, h0, [Smooth(n, ip)]).disk == Some(ip) &&
            Series(sem, joinMode, h0, [[Succeeds(ip)], Smooth(n - 1, ip)]).disk == None
  {
    var app := Applicable(joinMode);
    assert Lost(app, ip) by {
      LeaderSteps(joinMode);
      LostBetween(app, ip);
    }
    RunsOfOne(Certificate(), joinMode, h0, Smooth(|app|, ip), []);
    RunsOfOne(Certificate(), joinMode, h0, [Succeeds(ip)], Smooth(|app| - 1, ip));
  }

  /** Where a step does read memory, interrupted runs need not leave the clean disk: on a
      leader killed between preflight and pki, the certificate lacks the address. */
  lemma AddressLost(ip: string)
    ensures var sem, n := Certificate(), |Applicable(false)|;
            n > 0 && Absorbs(sem) &&
            Series(sem, false, Host(None, {}, []), [Smooth(n, ip)]).disk == Some(ip) &&
            Series(sem, false, Host(None, {}, []), [[Succeeds(ip)], Smooth(n - 1, ip)]).disk == None
  {
    CertificateAbsorbs();
    LostOnLeader(false, Host(None, {}, []), ip);
  }
}
