/**
  * What the trace harness does, told on a table of at most two entries: who holds which
  * paths of which worktree. For a trace of any length the registry's claims are exactly
  * the entries the table reaches.
  */
module HarnessTable {
  import opened Wrappers
  import opened Strings
  import opened Scoping
  import opened PathIdentity
  import opened Lease
  import opened LeaseInvariants
  import opened LeaseGuarantees
  import opened LeaseVerdicts
  import opened CoordinationHarness

  datatype Hold = Hold(owner: string, worktree: string, paths: seq<string>)

  type Table = map<string, Hold>

  function TableOf(h: Hub): Table {
    map t | t in h.claims :: Hold(h.claims[t].owner, h.claims[t].scope.worktree, h.claims[t].scope.paths)
  }

  // ---------------------------------------------------------------- the table's own rules

  /** Two of the harness's path lists share a file. */
  predicate Meets(a: seq<string>, b: seq<string>) {
    a == [] || b == [] || a == b || {a, b} == {["src"], ["src/a.py"]}
  }

  /** Nobody else works where the hold would. */
  predicate Clear(table: Table, task: string, hold: Hold) {
    forall t :: t in table && t != task && table[t].owner != hold.owner ==>
      !(table[t].worktree == hold.worktree && Meets(table[t].paths, hold.paths))
  }

  /** A free or own task is taken wherever nobody else works. */
  function Claimed(table: Table, task: string, hold: Hold): Table {
    if (task in table ==> table[task].owner == hold.owner) && Clear(table, task, hold)
    then table[task := hold] else table
  }

  /** The task changes hands wherever the recipient meets nobody else. */
  function HandedOver(table: Table, task: string): Table {
    if task !in table then table
    else
      var hold := table[task].(owner := if table[task].owner == "A" then "B" else "A");
      if Clear(table, task, hold) then table[task := hold] else table
  }

  function Next(table: Table, action: Action): Table {
    match action
    case ClaimAT1Root => Claimed(table, "T1", Hold("A", "main", []))
    case ClaimAT1Src => Claimed(table, "T1", Hold("A", "main", ["src"]))
    case ClaimBT1Src => Claimed(table, "T1", Hold("B", "main", ["src"]))
    case ClaimBT2SrcChild => Claimed(table, "T2", Hold("B", "main", ["src/a.py"]))
    case ClaimBT2Tests => Claimed(table, "T2", Hold("B", "main", ["tests"]))
    case ClaimBT2SideSrc => table["T2" := Hold("B", "side", ["src"])]
    case HandoffT1 => HandedOver(table, "T1")
    case ReleaseT1 => table - {"T1"}
    case Expire => map[]
    case RenewT1 | UpdateT1 | StaleReleaseT1 | StaleUpdateT1 => table
  }

  // ---------------------------------------------------------------- paths that meet

  lemma MeetingPaths(a: string, b: string)
    requires a in {"src", "src/a.py", "tests"} && b in {"src", "src/a.py", "tests"}
    ensures PathsOverlap(a, b) <==> a == b || {a, b} == {"src", "src/a.py"}
  {
    hide Normalized;
    OneSegment("src");
    OneSegment("tests");
    TwoSegments();
    assert "src/a.py"[..4] == "src" + "/";
    assert ("tests" + "/")[0] == 't' && ("src/a.py" + "/")[0] == 's' && ("src" + "/")[0] == 's';
    assert a != b ==> a[0] == 't' || b[0] == 't' || {a, b} == {"src", "src/a.py"};
  }

  lemma MeetingScopes(worktree: string, a: seq<string>, other: string, b: seq<string>)
    requires a in SCOPES && b in SCOPES
    ensures ScopesConflict(worktree, a, other, b) <==> worktree == other && Meets(a, b)
  {
    hide PathsOverlap;
    if a != [] && b != [] {
      MeetingPaths(a[0], b[0]);
      assert a == [a[0]] && b == [b[0]];
      assert {a, b} == {["src"], ["src/a.py"]} <==> {a[0], b[0]} == {"src", "src/a.py"};
      assert ScopesConflict(worktree, a, other, b) <==> worktree == other && PathsOverlap(a[0], b[0]);
    }
  }

  // ---------------------------------------------------------------- each action follows its rule

  /** Between the harness's actions every claim runs, nothing is retained, and there is room. */
  lemma Roomy(cfg: Config, h: Hub, now: real, task: string, scope: Scope, principal: string)
    requires HarnessConfig(cfg) && Modelled(cfg, h, now)
    ensures forall t :: Running(h, t, now) <==> t in h.claims
    ensures !Retained(h, task) && !RetainedFiles(h, scope, cfg.u) && |Charges(h, principal, now)| < cfg.maxClaims
  {
    hide Inv, Modest, Conflict, SpellsPlainly;
    assert Charges(h, principal, now) <= {T1, T2} by {
      forall t | t in Charges(h, principal, now) ensures t in {T1, T2} { assert Modest(t, h.claims[t]); ModestTask(t, h.claims[t]); }
    }
    SubsetSize(Charges(h, principal, now), {T1, T2});
  }

  lemma ModestTask(t: string, c: Claim)
    requires Modest(t, c)
    ensures t in {T1, T2}
  {
  }

  lemma TakenIsNotClear(cfg: Config, h: Hub, now: real, task: string, agent: string, scope: Scope)
    requires Modelled(cfg, h, now) && scope.identity.None? && scope.paths in SCOPES
    ensures TakenFiles(h, task, agent, scope, now, cfg.u) <==> !Clear(TableOf(h), task, Hold(agent, scope.worktree, scope.paths))
  {
    hide Inv, Conflict, ScopesConflict, Meets;
    forall t | t in h.claims
      ensures Conflict(scope, h.claims[t].scope, cfg.u) <==>
              h.claims[t].scope.worktree == scope.worktree && Meets(h.claims[t].scope.paths, scope.paths)
    {
      var other := h.claims[t].scope;
      assert Modest(t, h.claims[t]);
      PlainConflict(scope, other, cfg.u);
      MeetingScopes(scope.worktree, scope.paths, other.worktree, other.paths);
      assert Meets(scope.paths, other.paths) == Meets(other.paths, scope.paths) by { MeetsSymmetric(scope.paths, other.paths); }
      assert Running(h, t, now);
    }
    var table, hold := TableOf(h), Hold(agent, scope.worktree, scope.paths);
    if TakenFiles(h, task, agent, scope, now, cfg.u) {
      var t :| Running(h, t, now) && t != task && h.claims[t].owner != agent && Conflict(scope, h.claims[t].scope, cfg.u);
      assert t in table && table[t].owner != hold.owner && Meets(table[t].paths, hold.paths);
    }
    if !Clear(table, task, hold) {
      var t :| t in table && t != task && table[t].owner != agent &&
               table[t].worktree == hold.worktree && Meets(table[t].paths, hold.paths);
      assert Running(h, t, now) && Conflict(scope, h.claims[t].scope, cfg.u);
    }
  }

  lemma MeetsSymmetric(a: seq<string>, b: seq<string>)
    ensures Meets(a, b) == Meets(b, a)
  {
    assert {a, b} == {b, a};
  }

  /** A refused request leaves the table alone. */
  lemma RefusedFollows(cfg: Config, h: Hub, op: Op, now: real)
    requires Modelled(cfg, h, now) && Apply(cfg, h, op, now).1.Refused?
    ensures TableOf(Apply(cfg, h, op, now).0) == TableOf(h)
  {
    hide Inv, Apply, Sweep, AllModest;
    LiveSweep(h, now);
    RefusalChangesNothing(cfg, h, op, now);
  }

  /** A granted one that leaves the other tasks alone changes the table at its own task only. */
  lemma OthersFollow(h: Hub, h': Hub, task: string, now: real)
    requires OthersAsSwept(h, h', task, now) && forall t :: Running(h, t, now) <==> t in h.claims
    ensures TableOf(h') - {task} == TableOf(h) - {task}
  {
  }

  lemma GrantedClaimFollows(cfg: Config, h: Hub, now: real, r: ClaimRequest)
    requires Apply(cfg, h, Acquire(r), now).1.Granted? && forall t :: Running(h, t, now) <==> t in h.claims
    requires Strip(r.task) == r.task && StoredScope(cfg, r.scope) == r.scope
    ensures TableOf(Apply(cfg, h, Acquire(r), now).0) ==
            TableOf(h)[r.task := Hold(r.agent, r.scope.worktree, r.scope.paths)]
  {
    hide Apply, Strip, NormalizedPaths, PrincipalOf, Running, LeaseSeconds;
    AcquireEffect(cfg, h, r, now);
    var h' := Apply(cfg, h, Acquire(r), now).0;
    OthersFollow(h, h', r.task, now);
    assert TableOf(h') == (TableOf(h') - {r.task})[r.task := Hold(r.agent, r.scope.worktree, r.scope.paths)];
  }

  lemma ClaimFollows(cfg: Config, h: Hub, now: real, agent: string, task: string, worktree: string, paths: seq<string>)
    requires HarnessConfig(cfg) && Modelled(cfg, h, now) && HarnessOp(Acquire(Ask(agent, task, worktree, paths)))
    ensures TableOf(Apply(cfg, h, Acquire(Ask(agent, task, worktree, paths)), now).0) ==
            Claimed(TableOf(h), task, Hold(agent, worktree, paths))
  {
    hide Modelled, HarnessConfig, Apply, Strip, NormalizedPaths, TakenFiles, Clear, Retained, RetainedFiles, Charges, PrincipalOf, Running;
    var r := Ask(agent, task, worktree, paths);
    Names();
    StoredVerbatim(cfg, paths);
    assert StoredScope(cfg, r.scope) == r.scope;
    Roomy(cfg, h, now, task, r.scope, PrincipalOf(agent, None));
    TakenIsNotClear(cfg, h, now, task, agent, r.scope);
    AcquireVerdict(cfg, h, r, now);
    if Apply(cfg, h, Acquire(r), now).1.Granted? {
      GrantedClaimFollows(cfg, h, now, r);
    } else {
      RefusedFollows(cfg, h, Acquire(r), now);
    }
  }

  lemma HandoffFollows(cfg: Config, h: Hub, now: real)
    requires HarnessConfig(cfg) && Modelled(cfg, h, now) && T1 in h.claims
    ensures TableOf(Enact(cfg, h, now, HandoffT1)) == HandedOver(TableOf(h), T1)
  {
    hide Modelled, HarnessConfig, Apply, Strip, TakenFiles, Clear, Retained, RetainedFiles, Charges, Running;
    var op := OnT1(h.claims[T1], HandoffT1);
    var c, target := h.claims[T1], if h.claims[T1].owner == "A" then "B" else "A";
    Names();
    assert c.scope.identity.None? && c.scope.paths in SCOPES by { HeldScope(cfg, h, now); }
    Roomy(cfg, h, now, T1, c.scope, target);
    TakenIsNotClear(cfg, h, now, T1, target, c.scope);
    HandoffVerdict(cfg, h, op, now);
    if Apply(cfg, h, op, now).1.Granted? {
      GrantedHandoffFollows(cfg, h, now, op, target);
    } else {
      RefusedFollows(cfg, h, op, now);
    }
  }

  lemma HeldScope(cfg: Config, h: Hub, now: real)
    requires Modelled(cfg, h, now) && T1 in h.claims
    ensures h.claims[T1].scope.identity.None? && h.claims[T1].scope.paths in SCOPES
  {
    hide Inv;
    assert Modest(T1, h.claims[T1]);
  }

  lemma GrantedHandoffFollows(cfg: Config, h: Hub, now: real, op: Op, target: string)
    requires op.Handoff? && op.task == T1 && Strip(T1) == T1 && Strip(op.target) == target
    requires Apply(cfg, h, op, now).1.Granted? && forall t :: Running(h, t, now) <==> t in h.claims
    ensures T1 in h.claims && TableOf(Apply(cfg, h, op, now).0) == TableOf(h)[T1 := TableOf(h)[T1].(owner := target)]
  {
    hide Apply, Strip, Running;
    HandoffEffect(cfg, h, op, now);
    var h' := Apply(cfg, h, op, now).0;
    OthersFollow(h, h', T1, now);
    assert h'.claims[T1].scope == h.claims[T1].scope;
    assert TableOf(h') == (TableOf(h') - {T1})[T1 := TableOf(h)[T1].(owner := target)];
  }

  /** The owner's signed release drops T1. */
  lemma ReleaseFollows(cfg: Config, h: Hub, now: real)
    requires Modelled(cfg, h, now) && T1 in h.claims
    ensures TableOf(Enact(cfg, h, now, ReleaseT1)) == TableOf(h) - {T1}
  {
    hide Modelled, Apply, Strip, Running;
    Names();
    AllRun(cfg, h, now);
    OwnerActsHold(cfg, h, now);
    var release := OnT1(h.claims[T1], ReleaseT1);
    ReleaseEffect(cfg, h, release, now);
    OthersFollow(h, Apply(cfg, h, release, now).0, T1, now);
  }

  /** Its signed update keeps the entry. */
  lemma UpdateFollows(cfg: Config, h: Hub, now: real)
    requires Modelled(cfg, h, now) && T1 in h.claims
    ensures TableOf(Enact(cfg, h, now, UpdateT1)) == TableOf(h)
  {
    hide Modelled, Apply, Strip, Running;
    AllRun(cfg, h, now);
    OwnerActsHold(cfg, h, now);
    var update := OnT1(h.claims[T1], UpdateT1);
    UpdateEffect(cfg, h, update, now);
    OthersFollow(h, Apply(cfg, h, update, now).0, T1, now);
    assert TableOf(Apply(cfg, h, update, now).0)[T1] == TableOf(h)[T1];
  }

  lemma AllRun(cfg: Config, h: Hub, now: real)
    requires Modelled(cfg, h, now)
    ensures forall t :: Running(h, t, now) <==> t in h.claims
  {
    hide Inv, Modest;
  }

  lemma RenewalFollows(cfg: Config, h: Hub, now: real)
    requires HarnessConfig(cfg) && Modelled(cfg, h, now) && T1 in h.claims
    ensures TableOf(Enact(cfg, h, now, RenewT1)) == TableOf(h)
  {
    hide Modelled, HarnessConfig, Apply, Strip, NormalizedPaths, Running;
    var c := h.claims[T1];
    HeldScope(cfg, h, now);
    AllRun(cfg, h, now);
    RenewalHolds(cfg, h, now);
    Names();
    StoredVerbatim(cfg, c.scope.paths);
    GrantedClaimFollows(cfg, h, now, OnT1(c, RenewT1).request);
  }

  /** B's claim in the side worktree, where only B works, always goes through. */
  lemma SideFollows(cfg: Config, h: Hub, now: real)
    requires HarnessConfig(cfg) && Modelled(cfg, h, now)
    ensures TableOf(Enact(cfg, h, now, ClaimBT2SideSrc)) == TableOf(h)[T2 := Hold("B", "side", ["src"])]
  {
    hide Modelled, HarnessConfig, Apply, Strip, NormalizedPaths, Running;
    AllRun(cfg, h, now);
    SideClaimHolds(cfg, h, now);
    Names();
    StoredVerbatim(cfg, ["src"]);
    GrantedClaimFollows(cfg, h, now, Ask("B", T2, "side", ["src"]));
  }

  lemma StepFollows(cfg: Config, h: Hub, now: real, action: Action)
    requires HarnessConfig(cfg) && Modelled(cfg, h, now)
    ensures TableOf(Enact(cfg, h, now, action)) == Next(TableOf(h), action)
  {
    hide Modelled, HarnessConfig, Apply, Claimed, Sweep;
    match action
    case ClaimAT1Root => ClaimFollows(cfg, h, now, "A", T1, "main", []);
    case ClaimAT1Src => ClaimFollows(cfg, h, now, "A", T1, "main", ["src"]);
    case ClaimBT1Src => ClaimFollows(cfg, h, now, "B", T1, "main", ["src"]);
    case ClaimBT2SrcChild => ClaimFollows(cfg, h, now, "B", T2, "main", ["src/a.py"]);
    case ClaimBT2Tests => ClaimFollows(cfg, h, now, "B", T2, "main", ["tests"]);
    case ClaimBT2SideSrc => SideFollows(cfg, h, now);
    case Expire => ExpiryFollows(cfg, h, now);
    case _ => if T1 in h.claims { HeldFollows(cfg, h, now, action); }
  }

  /** The clock moves past every lease, and nothing is left. */
  lemma ExpiryFollows(cfg: Config, h: Hub, now: real)
    requires HarnessConfig(cfg) && Modelled(cfg, h, now)
    ensures After(now, Expire) == now + 2592001.0 && TableOf(Enact(cfg, h, now, Expire)) == map[]
    ensures Modelled(cfg, Enact(cfg, h, now, Expire), After(now, Expire))
  {
    hide Sweep, Modelled, HarnessConfig;
    ConfigIsValid(cfg);
    FarSweep(cfg, h, now);
    ExpiryIsSweep(cfg, h, now);
  }

  lemma ExpiryIsSweep(cfg: Config, h: Hub, now: real)
    ensures Enact(cfg, h, now, Expire) == Sweep(h, now + (MAXIMUM_TTL_SECONDS + 1.0))
  {
    hide Sweep;
  }

  lemma HeldFollows(cfg: Config, h: Hub, now: real, action: Action)
    requires HarnessConfig(cfg) && Modelled(cfg, h, now) && T1 in h.claims
    requires action in {RenewT1, HandoffT1, ReleaseT1, StaleReleaseT1, UpdateT1, StaleUpdateT1}
    ensures TableOf(Enact(cfg, h, now, action)) == Next(TableOf(h), action)
  {
    hide Modelled, HarnessConfig, Apply, HandedOver, OnT1;
    if action.RenewT1? {
      RenewalFollows(cfg, h, now);
    } else if action.HandoffT1? {
      HandoffFollows(cfg, h, now);
    } else if action.ReleaseT1? {
      ReleaseFollows(cfg, h, now);
    } else if action.UpdateT1? {
      UpdateFollows(cfg, h, now);
    } else {
      StaleIsRefused(cfg, h, now, action);
      RefusedFollows(cfg, h, OnT1(h.claims[T1], action), now);
    }
  }

  // ---------------------------------------------------------------- whole traces

  lemma StepStaysModelled(cfg: Config, h: Hub, now: real, action: Action)
    requires HarnessConfig(cfg) && Modelled(cfg, h, now) && !action.Expire?
    ensures After(now, action) == now && Modelled(cfg, Enact(cfg, h, now, action), now)
  {
    hide Modelled, HarnessConfig, Apply, Sweep;
    if ActionOp(h, action).Some? {
      if T1 in h.claims {
        OwnScopeIsHarnessScope(cfg, h, now);
      }
      StepKeepsModelled(cfg, h, ActionOp(h, action).value, now);
    }
  }

  /** The table a trace ends in. */
  function Tabled(table: Table, trace: seq<Action>): Table
    decreases trace
  {
    if trace == [] then table else Tabled(Next(table, trace[0]), trace[1..])
  }

  /**
    * The registry follows the table through every trace: its claims are the table's entries,
    * and its clock has moved by one step past the longest lease for each expiry.
    */
  lemma {:induction false} TraceFollows(cfg: Config, h: Hub, now: real, trace: seq<Action>)
    requires HarnessConfig(cfg) && Modelled(cfg, h, now)
    ensures TableOf(Enacted(cfg, h, now, trace)) == Tabled(TableOf(h), trace)
    ensures ClockAfter(now, trace) == now + multiset(trace)[Expire] as real * 2592001.0
    decreases trace
  {
    hide Modelled, HarnessConfig, Enact, Enacted, ClockAfter, After, Next;
    EnactedStep(cfg, h, now, trace);
    if trace != [] {
      var action := trace[0];
      StepFollows(cfg, h, now, action);
      if action.Expire? {
        ExpiryFollows(cfg, h, now);
      } else {
        StepStaysModelled(cfg, h, now, action);
      }
      assert multiset(trace) == multiset{action} + multiset(trace[1..]) by { assert trace == [action] + trace[1..]; }
      TraceFollows(cfg, Enact(cfg, h, now, action), After(now, action), trace[1..]);
    }
  }

  // ---------------------------------------------------------------- which tables are reached

  /** T1 is A's or B's, at the root of main or at src; T2 is B's, in one of three places; no two owners meet. */
  predicate Fits(table: Table) {
    && table.Keys <= {"T1", "T2"}
    && ("T1" in table ==> table["T1"] in {Hold("A", "main", []), Hold("A", "main", ["src"]),
                                          Hold("B", "main", []), Hold("B", "main", ["src"])})
    && ("T2" in table ==> table["T2"] in {Hold("B", "main", ["src/a.py"]), Hold("B", "main", ["tests"]),
                                          Hold("B", "side", ["src"])})
    && ("T1" in table && "T2" in table && table["T1"].owner == "A" && table["T2"].worktree == "main" ==>
          table["T1"].paths == ["src"] && table["T2"].paths == ["tests"])
  }

  lemma NextFits(table: Table, action: Action)
    requires Fits(table)
    ensures Fits(Next(table, action))
  {
    assert {["src"], ["tests"]} != {["src"], ["src/a.py"]} by { assert ["src/a.py"] !in {["src"], ["tests"]}; }
  }

  lemma {:induction false} RunFits(table: Table, trace: seq<Action>)
    requires Fits(table)
    ensures Fits(Tabled(table, trace))
    decreases trace
  {
    hide Fits, Next;
    if trace != [] {
      NextFits(table, trace[0]);
      RunFits(Next(table, trace[0]), trace[1..]);
    }
  }

  lemma EmptyFits()
    ensures Fits(map[])
  {
  }

  function TraceToT1(table: Table): seq<Action> {
    if "T1" !in table then []
    else
      [if table["T1"].paths == [] then ClaimAT1Root else ClaimAT1Src] +
      (if table["T1"].owner == "B" then [HandoffT1] else [])
  }

  function TraceToT2(table: Table): seq<Action> {
    if "T2" !in table then []
    else if table["T2"].worktree == "side" then [ClaimBT2SideSrc]
    else if table["T2"].paths == ["tests"] then [ClaimBT2Tests] else [ClaimBT2SrcChild]
  }

  lemma {:induction false} TabledInTurn(table: Table, first: seq<Action>, rest: seq<Action>)
    ensures Tabled(table, first + rest) == Tabled(Tabled(table, first), rest)
    decreases first
  {
    hide Next;
    if first == [] {
      assert first + rest == rest;
    } else {
      assert (first + rest)[1..] == first[1..] + rest;
      TabledInTurn(Next(table, first[0]), first[1..], rest);
    }
  }

  lemma BuildsT1(table: Table)
    requires Fits(table)
    ensures Tabled(map[], TraceToT1(table)) == table - {"T2"}
  {
    if "T1" in table {
      var claim := TraceToT1(table)[0];
      var taken: Table := map["T1" := table["T1"].(owner := "A")];
      assert Next(map[], claim) == taken;
      if table["T1"].owner == "B" {
        assert TraceToT1(table) == [claim] + [HandoffT1];
        TabledInTurn(map[], [claim], [HandoffT1]);
        assert Next(taken, HandoffT1) == map["T1" := table["T1"]];
      }
      assert table - {"T2"} == map["T1" := table["T1"]];
    }
  }

  lemma BuildsT2(table: Table)
    requires Fits(table)
    ensures Tabled(table - {"T2"}, TraceToT2(table)) == table
  {
    if "T2" in table {
      assert table == (table - {"T2"})["T2" := table["T2"]];
      assert {["src"], ["tests"]} != {["src"], ["src/a.py"]} by { assert ["src/a.py"] !in {["src"], ["tests"]}; }
      assert Next(table - {"T2"}, TraceToT2(table)[0]) == table;
    } else {
      assert table - {"T2"} == table;
    }
  }

  /**
    * Exactly the tables that fit are reached, and three actions reach any of them: traces up
    * to depth four perform every action on every table a trace of any length can meet.
    */
  lemma ReachedIff(table: Table)
    ensures (exists trace :: Tabled(map[], trace) == table) <==> Fits(table)
    ensures Fits(table) ==> exists trace :: |trace| <= 3 && Tabled(map[], trace) == table
  {
    hide Tabled, Next, Fits;
    assert Fits(map[]) by { EmptyFits(); }
    if trace :| Tabled(map[], trace) == table {
      RunFits(map[], trace);
    }
    if Fits(table) {
      BuildsT1(table);
      BuildsT2(table);
      TabledInTurn(map[], TraceToT1(table), TraceToT2(table));
      assert |TraceToT1(table) + TraceToT2(table)| <= 3 && Tabled(map[], TraceToT1(table) + TraceToT2(table)) == table;
    }
  }

  /** Of the registry: whatever claims a trace leaves, one of at most three actions leaves too. */
  lemma DepthFourCovers(cfg: Config, trace: seq<Action>)
    requires HarnessConfig(cfg)
    ensures Fits(TableOf(Enacted(cfg, EMPTY, START_TIME, trace)))
    ensures exists short: seq<Action> :: |short| <= 3 &&
              TableOf(Enacted(cfg, EMPTY, START_TIME, short)) == TableOf(Enacted(cfg, EMPTY, START_TIME, trace))
  {
    hide Modelled, HarnessConfig, Tabled, Fits, Enacted, ClockAfter;
    ConfigIsValid(cfg);
    EmptyIsModelled(cfg);
    assert TableOf(EMPTY) == map[];
    TraceFollows(cfg, EMPTY, START_TIME, trace);
    ReachedIff(Tabled(map[], trace));
    var short :| |short| <= 3 && Tabled(map[], short) == Tabled(map[], trace);
    TraceFollows(cfg, EMPTY, START_TIME, short);
  }
}
