/**
  * The repository's trace harness over the registry: thirteen fixed actions, the
  * invariants it asserts after each, and the proof that no trace, however long, raises a
  * violation. The harness itself enumerates traces up to depth four.
  */
module CoordinationHarness {
  import opened Wrappers
  import opened PathIdentity
  import opened Strings
  import opened Scoping
  import opened Lease
  import opened LeaseIndex
  import opened LeaseInvariants
  import opened LeaseGuarantees
  import opened LeaseLiveness
  import S = SynapseState

  const START_TIME := 1000.0

  datatype Action =
    | ClaimAT1Root | ClaimAT1Src | ClaimBT1Src | ClaimBT2SrcChild | ClaimBT2Tests | ClaimBT2SideSrc
    | RenewT1 | HandoffT1 | ReleaseT1 | StaleReleaseT1 | UpdateT1 | StaleUpdateT1 | Expire

  datatype Verdict = Held | Violated(law: string, detail: string)

  // ---------------------------------------------------------------- what the harness asserts

  ghost predicate ClaimChecks(h: Hub, now: real, t: string)
    requires t in h.claims
  {
    var c := h.claims[t];
    c.task == t && c.expiresAt > now && 1 <= c.epoch <= h.epochSeq
  }

  predicate PairCheck(a: Claim, b: Claim) {
    a.owner == b.owner || !ScopesConflict(a.scope.worktree, a.scope.paths, b.scope.worktree, b.scope.paths)
  }

  ghost predicate Checks(h: Hub, now: real) {
    && (forall t :: t in h.claims ==> ClaimChecks(h, now, t))
    && (forall s, t :: s in h.claims && t in h.claims && s != t ==> PairCheck(h.claims[s], h.claims[t]))
  }

  lemma PairCheckSymmetric(a: Claim, b: Claim)
    ensures PairCheck(a, b) == PairCheck(b, a)
  {
    hide PathsOverlap;
    forall p, q ensures PathsOverlap(p, q) == PathsOverlap(q, p) { OverlapSymmetric(p, q); }
  }

  /** The authority the harness compares before and after a refusal. */
  datatype Row = Row(owner: string, worktree: string, paths: seq<string>, epoch: nat, version: nat,
                     status: string, expiresAt: real)
  datatype Fingerprint = Fingerprint(now: real, epochSeq: nat, claims: map<string, Row>)

  function RowOf(c: Claim): Row {
    Row(c.owner, c.scope.worktree, c.scope.paths, c.epoch, c.version, c.status, c.expiresAt)
  }

  function FingerprintOf(h: Hub, now: real): Fingerprint {
    Fingerprint(now, h.epochSeq, map t | t in h.claims :: RowOf(h.claims[t]))
  }

  /** Each claim on its own, over the swept registry. */
  method AssertClaims(state: S.SynapseState, now: real) returns (v: Verdict)
    ensures v.Held? <==> forall t :: t in state.claims ==> ClaimChecks(state.View(), now, t)
  {
    var left := state.claims.Keys;
    while left != {}
      invariant left <= state.claims.Keys
      invariant forall t :: t in state.claims && t !in left ==> ClaimChecks(state.View(), now, t)
      decreases left
    {
      var t :| t in left;
      var c := state.claims[t];
      assert ClaimChecks(state.View(), now, t) <==> c.task == t && c.expiresAt > now && 1 <= c.epoch <= state.epochSeq;
      if c.task != t {
        return Violated("INV-ME-1", "claim key differs from task id");
      }
      if c.expiresAt <= now {
        return Violated("INV-LL-1", "live lease is not future");
      }
      if !(1 <= c.epoch <= state.epochSeq) {
        return Violated("INV-EF-1", "epoch is unissued");
      }
      left := left - {t};
    }
    v := Held;
  }

  /** Each pair of claims once, whichever comes first. */
  method AssertPairs(state: S.SynapseState) returns (v: Verdict)
    ensures v.Held? <==>
              forall s, t :: s in state.claims && t in state.claims && s != t ==> PairCheck(state.claims[s], state.claims[t])
  {
    hide PairCheck;
    var left := state.claims.Keys;
    while left != {}
      invariant left <= state.claims.Keys
      invariant forall s, t :: s in state.claims && t in state.claims && s != t && s !in left ==>
                  PairCheck(state.claims[s], state.claims[t]) && PairCheck(state.claims[t], state.claims[s])
      decreases left
    {
      var first :| first in left;
      left := left - {first};
      var rest := left;
      while rest != {}
        invariant rest <= left
        invariant forall t :: t in left && t !in rest ==>
                    PairCheck(state.claims[first], state.claims[t]) && PairCheck(state.claims[t], state.claims[first])
        decreases rest
      {
        var second :| second in rest;
        PairCheckSymmetric(state.claims[first], state.claims[second]);
        if !PairCheck(state.claims[first], state.claims[second]) {
          return Violated("INV-ME-2/3/4", "different owners hold overlapping scopes");
        }
        rest := rest - {second};
      }
    }
    v := Held;
  }

  method AssertInvariants(state: S.SynapseState, now: real) returns (v: Verdict)
    requires state.Valid()
    modifies state`claims, state`expired, state.index
    ensures state.Valid() && state.View() == Sweep(old(state.View()), now)
    ensures v.Held? <==> Checks(state.View(), now)
  {
    hide Sweep, ClaimChecks, PairCheck;
    state.ExpireClaims(now);
    v := AssertClaims(state, now);
    if v.Held? {
      v := AssertPairs(state);
    }
  }

  // ---------------------------------------------------------------- the actions as operations

  const T1 := "T1"
  const T2 := "T2"

  /** The request an action makes of the registry it finds; none when T1 is not held. */
  function ActionOp(h: Hub, action: Action): Option<Op> {
    match action
    case ClaimAT1Root => Some(Acquire(Ask("A", T1, "main", [])))
    case ClaimAT1Src => Some(Acquire(Ask("A", T1, "main", ["src"])))
    case ClaimBT1Src => Some(Acquire(Ask("B", T1, "main", ["src"])))
    case ClaimBT2SrcChild => Some(Acquire(Ask("B", T2, "main", ["src/a.py"])))
    case ClaimBT2Tests => Some(Acquire(Ask("B", T2, "main", ["tests"])))
    case ClaimBT2SideSrc => Some(Acquire(Ask("B", T2, "side", ["src"])))
    case Expire => Some(Op.Snapshot)
    case _ => if T1 in h.claims then Some(OnT1(h.claims[T1], action)) else None
  }

  function OnT1(c: Claim, action: Action): Op {
    match action
    case RenewT1 => Acquire(Ask(c.owner, T1, c.scope.worktree, c.scope.paths))
    case HandoffT1 => Handoff(c.owner, T1, if c.owner == "A" then "B" else "A", None, Some(c.epoch))
    case ReleaseT1 => Release(c.owner, T1, Some(c.epoch))
    case StaleReleaseT1 => Release(c.owner, T1, Some(c.epoch + 1))
    case UpdateT1 => Update(c.owner, T1, None, Some("bounded-model"), None, Some(c.epoch), Some(c.version))
    case _ => Update(c.owner, T1, None, Some("must-not-apply"), None, Some(c.epoch), Some(c.version + 1))
  }

  function After(now: real, action: Action): real {
    if action.Expire? then now + (MAXIMUM_TTL_SECONDS + 1.0) else now
  }

  /** The state and clock an action leaves. */
  function Enact(cfg: Config, h: Hub, now: real, action: Action): Hub {
    match ActionOp(h, action)
    case None => h
    case Some(op) => Apply(cfg, h, op, After(now, action)).0
  }

  // ---------------------------------------------------------------- what holds between actions

  const SCOPES: set<seq<string>> := {[], ["src"], ["src/a.py"], ["tests"]}

  /** T1 stays on main; T2 is only ever B's. */
  predicate Modest(t: string, c: Claim) {
    && c.scope.identity.None? && c.scope.paths in SCOPES
    && ((t == T1 && c.scope.worktree == "main") || (t == T2 && c.owner == "B"))
  }

  ghost predicate AllModest(h: Hub, now: real) {
    forall t :: t in h.claims ==> Modest(t, h.claims[t]) && h.claims[t].expiresAt > now
  }

  ghost predicate Modelled(cfg: Config, h: Hub, now: real) {
    && Inv(cfg, h) && ClaimedBy(h, now) && h.custody == map[] && AllModest(h, now)
  }

  predicate HarnessConfig(cfg: Config) {
    ValidConfig(cfg) && cfg.maxClaims > 2 && forall paths :: paths in SCOPES ==> SpellsPlainly(paths, cfg.u)
  }

  predicate SpellsPlainly(paths: seq<string>, u: Unicode) {
    u.printable('/') && forall p :: p in paths ==> AllPrintable(p, u.printable)
  }

  lemma LiveSweep(h: Hub, now: real)
    requires AllModest(h, now)
    ensures Sweep(h, now) == h
  {
    hide Modest;
    assert Unexpired(h.claims, now) == h.claims;
    assert Lapsing(h.claims, now) == map[];
  }

  /** The invariant is what the harness asserts: between actions its checks pass. */
  lemma ModelledPassesChecks(cfg: Config, h: Hub, now: real)
    requires Modelled(cfg, h, now)
    ensures Sweep(h, now) == h && Checks(h, now)
  {
    hide Conflict, ScopesConflict, CustodySafe, CustodyApart, WithinQuota, PathsStored;
    LiveSweep(h, now);
    forall s, t | s in h.claims && t in h.claims && s != t ensures PairCheck(h.claims[s], h.claims[t]) {
      assert Modest(s, h.claims[s]) && Modest(t, h.claims[t]);
      PlainConflict(h.claims[s].scope, h.claims[t].scope, cfg.u);
    }
  }

  lemma OneSegment(name: string)
    requires name in {"src", "tests"}
    ensures Normalized(name) == name
  {
    hide Components, Split, Strip;
    KeptAll([name]);
    SegmentsOfJoin(name, [name]);
  }

  lemma TwoSegments()
    ensures Normalized("src/a.py") == "src/a.py"
  {
    hide Components, Split, Strip, Kept;
    var parts := ["src", "a.py"];
    KeptAll(parts);
    assert parts[1..] == ["a.py"];
    assert Join(parts, '/') == "src/a.py";
    SegmentsOfJoin("src/a.py", parts);
  }

  lemma StoredVerbatim(cfg: Config, paths: seq<string>)
    requires HarnessConfig(cfg) && paths in SCOPES
    ensures NormalizedPaths(paths, cfg.maxPaths, cfg.u.printable) == paths
  {
    hide Normalized, NormalizedPaths;
    OneSegment("src");
    OneSegment("tests");
    TwoSegments();
    assert SpellsPlainly(paths, cfg.u);
    if paths == [] {
      assert NormalizedPaths([], cfg.maxPaths, cfg.u.printable) == [];
    } else {
      assert paths[0] in paths && paths == [paths[0]];
      StoredAs(paths[0], paths[0], cfg.maxPaths, cfg.u.printable);
    }
  }

  // ---------------------------------------------------------------- each request keeps it

  /** The requests the harness makes of a registry. */
  predicate HarnessOp(op: Op) {
    match op
    case Acquire(r) =>
      && r.scope.identity.None? && r.scope.paths in SCOPES && !r.requireUnclaimed && r.principal.None?
      && ((r.task == T1 && r.scope.worktree == "main") || (r.task == T2 && r.agent == "B"))
    case Handoff(_, task, _, _, _) => task == T1
    case Release(_, task, _) => task == T1
    case Update(_, task, _, _, _, _, _) => task == T1
    case Snapshot => true
    case _ => false
  }

  lemma Names()
    ensures Strip(T1) == T1 && Strip(T2) == T2 && Strip("A") == "A" && Strip("B") == "B"
  {
    StripTrimmed(T1);
    StripTrimmed(T2);
    StripTrimmed("A");
    StripTrimmed("B");
  }

  lemma StepStaysModest(cfg: Config, h: Hub, op: Op, now: real)
    requires HarnessConfig(cfg) && AllModest(h, now) && HarnessOp(op)
    ensures AllModest(Apply(cfg, h, op, now).0, now)
  {
    hide AllModest, HarnessConfig, DoAcquire, DoHandoff, DoUpdate, DoRelease;
    if op.Acquire? {
      AcquireIsModest(cfg, h, op, now);
    } else if op.Handoff? {
      HandoffIsModest(cfg, h, op, now);
    } else {
      OthersAreModest(cfg, h, op, now);
    }
  }

  lemma AcquireIsModest(cfg: Config, h: Hub, op: Op, now: real)
    requires HarnessConfig(cfg) && AllModest(h, now) && HarnessOp(op) && op.Acquire?
    ensures AllModest(DoAcquire(cfg, h, op.request, now).0, now)
  {
    hide Modest, Strip, NormalizedPaths, AcquireRefusal, Lapsing, PrincipalOf, HarnessOp, HarnessConfig, LeaseSeconds;
    var r := op.request;
    var s := Beat(h, r.agent, now);
    RequestIsModest(cfg, s, op, now);
    StoredVerbatim(cfg, r.scope.paths);
    assert StoredScope(cfg, r.scope) == r.scope;
    assert LeaseSeconds(cfg, r.ttl) > 0.0 by { LeasesArePositive(cfg, r.ttl); }
  }

  lemma LeasesArePositive(cfg: Config, ttl: Option<real>)
    requires HarnessConfig(cfg)
    ensures LeaseSeconds(cfg, ttl) > 0.0
  {
  }

  lemma UpdateIsModest(h: Hub, op: Op, now: real)
    requires AllModest(h, now) && op.Update?
    ensures AllModest(DoUpdate(h, op, now).0, now)
  {
    hide Strip, Lapsing, CustodyHoldsTask, CanTransition;
  }

  lemma OthersAreModest(cfg: Config, h: Hub, op: Op, now: real)
    requires AllModest(h, now) && HarnessOp(op) && (op.Update? || op.Release? || op.Snapshot?)
    ensures AllModest(Apply(cfg, h, op, now).0, now)
  {
    hide Strip, Lapsing, DoUpdate, ReleaseRefusal;
    if op.Update? {
      UpdateIsModest(h, op, now);
    }
  }

  lemma ConfigIsValid(cfg: Config)
    requires HarnessConfig(cfg)
    ensures ValidConfig(cfg)
  {
  }

  lemma RequestIsModest(cfg: Config, h: Hub, op: Op, now: real)
    requires HarnessOp(op) && op.Acquire?
    ensures var r := op.request;
            && r.scope.paths in SCOPES && Strip(r.task) == r.task && r.task != ""
            && Modest(r.task, GrantedClaim(cfg, h, r, r.task, r.scope, now))
  {
    hide Strip, PrincipalOf;
    Names();
  }

  lemma HandoffIsModest(cfg: Config, h: Hub, op: Op, now: real)
    requires HarnessConfig(cfg) && AllModest(h, now) && HarnessOp(op) && op.Handoff?
    ensures AllModest(DoHandoff(cfg, h, op, now).0, now)
  {
    hide Strip, Lapsing, CustodyHoldsTask, CustodyBlocksScope, ScopeBlocked, ChargedTo;
    Names();
    ConfigIsValid(cfg);
  }

  /** Nothing the harness asks for touches custody. */
  lemma StepKeepsCustody(cfg: Config, h: Hub, op: Op, now: real)
    requires HarnessOp(op)
    ensures Apply(cfg, h, op, now).0.custody == h.custody
  {
    hide Strip, Unexpired, Lapsing, NormalizedPaths, AcquireRefusal, HandoffRefusal, ReleaseRefusal, OwnerRefusal;
  }

  lemma StepKeepsModelled(cfg: Config, h: Hub, op: Op, now: real)
    requires HarnessConfig(cfg) && Modelled(cfg, h, now) && HarnessOp(op)
    ensures Modelled(cfg, Apply(cfg, h, op, now).0, now)
  {
    hide Inv, ClaimedBy, AllModest, Apply, HarnessOp, HarnessConfig;
    ConfigIsValid(cfg);
    StepKeepsInvariant(cfg, h, op, now);
    StepClaimedBy(cfg, h, op, now, now);
    StepStaysModest(cfg, h, op, now);
    StepKeepsCustody(cfg, h, op, now);
  }

  /** The far-future sweep: every lease is over. */
  lemma FarSweep(cfg: Config, h: Hub, now: real)
    requires Modelled(cfg, h, now)
    ensures var s := Sweep(h, now + (MAXIMUM_TTL_SECONDS + 1.0));
            s.claims == map[] && (ValidConfig(cfg) ==> Modelled(cfg, s, now + (MAXIMUM_TTL_SECONDS + 1.0)))
  {
    hide CustodySafe, CustodyApart, Exclusive, WithinQuota, Identified, PathsStored, Lapsing, Modest;
    var later := now + (MAXIMUM_TTL_SECONDS + 1.0);
    SweepKeeps(cfg, h, later);
  }

  // ---------------------------------------------------------------- what the actions expect

  lemma FewCharges(h: Hub, principal: string, now: real)
    requires AllModest(h, now)
    ensures |ChargedTo(h.claims, principal)| <= 2
  {
    SubsetSize(ChargedTo(h.claims, principal), {T1, T2});
  }

  /** INV-LL-4: re-claiming T1 with its own scope is granted. */
  lemma RenewalHolds(cfg: Config, h: Hub, now: real)
    requires HarnessConfig(cfg) && Modelled(cfg, h, now) && T1 in h.claims
    ensures Apply(cfg, h, OnT1(h.claims[T1], RenewT1), now).1.Granted?
  {
    hide Inv, Strip, PrincipalOf, ChargedTo, CustodyBlocksScope, DoAcquire, Sweep;
    var c := h.claims[T1];
    var r := Ask(c.owner, T1, c.scope.worktree, c.scope.paths);
    Names();
    assert Modest(T1, c);
    assert cfg.u.printable('/') by { assert SpellsPlainly([], cfg.u); }
    ReachIsNeverTaken(cfg, h, r, T1, now) by { ShortPathsSettled(c); }
    assert Unexpired(h.claims, now) == h.claims;
    FewCharges(h, PrincipalOf(r.agent, r.principal), now);
    NoCustody(T1, StoredScope(cfg, r.scope), cfg.u);
  }

  lemma ShortPathsSettled(c: Claim)
    requires c.scope.paths in SCOPES
    ensures KeepsReach(c)
  {
    hide Normalized;
    OneSegment("src");
    OneSegment("tests");
    TwoSegments();
  }

  lemma NoCustody(task: string, scope: Scope, u: Unicode)
    ensures !CustodyBlocksScope(map[], task, scope, u) && !CustodyHoldsTask(map[], task)
  {
  }

  /** INV-ME-3: B's claim in the side worktree, where nobody else works, is granted. */
  lemma SideClaimHolds(cfg: Config, h: Hub, now: real)
    requires HarnessConfig(cfg) && Modelled(cfg, h, now)
    ensures Apply(cfg, h, Acquire(Ask("B", T2, "side", ["src"])), now).1.Granted?
  {
    hide Strip, PrincipalOf, ChargedTo, CustodyBlocksScope, Inv, NormalizedPaths, Lapsing, PathsOverlap;
    var r := Ask("B", T2, "side", ["src"]);
    var s := Beat(h, "B", now);
    Names();
    StoredVerbatim(cfg, ["src"]);
    NoCustody(T2, r.scope, cfg.u);
    assert StoredScope(cfg, r.scope) == r.scope;
    assert s.claims == h.claims;
    FewCharges(h, PrincipalOf("B", None), now);
    assert !ScopeBlocked(s.claims, T2, "B", r.scope, cfg.u) by { SideIsFree(h, now, cfg.u); }
  }

  lemma SideIsFree(h: Hub, now: real, u: Unicode)
    requires AllModest(h, now)
    ensures !ScopeBlocked(h.claims, T2, "B", Scope("side", ["src"], None), u)
  {
    hide PathsOverlap;
    forall t | t in h.claims ensures !Contends(h.claims, t, T2, "B", Scope("side", ["src"], None), u) {
      assert Modest(t, h.claims[t]);
    }
  }

  /** INV-ME-1 and INV-EF-3: the owner's signed release and update are granted. */
  lemma OwnerActsHold(cfg: Config, h: Hub, now: real)
    requires Modelled(cfg, h, now) && T1 in h.claims
    ensures var (h', o) := Apply(cfg, h, OnT1(h.claims[T1], ReleaseT1), now); o.Granted? && T1 !in h'.claims
    ensures var (h', o) := Apply(cfg, h, OnT1(h.claims[T1], UpdateT1), now);
            o.Granted? && T1 in h'.claims && h'.claims[T1].version == h.claims[T1].version + 1 &&
            h'.claims[T1].note == "bounded-model"
  {
    hide Inv, Strip, Lapsing, CustodyHoldsTask, Modest;
    Names();
    StripTrimmed("bounded-model");
    NoCustody(T1, h.claims[T1].scope, cfg.u);
    assert Unexpired(h.claims, now) == h.claims;
  }

  /** INV-EF-2 and INV-EF-3: a mismatched epoch or version is refused and moves no authority. */
  lemma StaleActsAreRefused(cfg: Config, h: Hub, now: real, action: Action)
    requires Modelled(cfg, h, now) && T1 in h.claims && (action.StaleReleaseT1? || action.StaleUpdateT1?)
    ensures var (h', o) := Apply(cfg, h, OnT1(h.claims[T1], action), now);
            o.Refused? && FingerprintOf(h', now) == FingerprintOf(h, now)
  {
    hide Inv, Apply, Sweep, RowOf, AllModest;
    LiveSweep(h, now);
    StaleIsRefused(cfg, h, now, action);
    RefusalChangesNothing(cfg, h, OnT1(h.claims[T1], action), now);
  }

  lemma StaleIsRefused(cfg: Config, h: Hub, now: real, action: Action)
    requires T1 in h.claims && (action.StaleReleaseT1? || action.StaleUpdateT1?)
    ensures Apply(cfg, h, OnT1(h.claims[T1], action), now).1.Refused?
  {
    hide Strip, Lapsing, CustodyHoldsTask, CanTransition;
    Names();
  }

  /** INV-CR-2: a granted handoff moves owner and resets version. */
  lemma HandoffHolds(cfg: Config, h: Hub, now: real)
    requires ValidConfig(cfg) && Modelled(cfg, h, now) && T1 in h.claims
    ensures var (h', o) := Apply(cfg, h, OnT1(h.claims[T1], HandoffT1), now);
            o.Granted? ==> T1 in h'.claims && h'.claims[T1].version == 0 &&
                           h'.claims[T1].owner == if h.claims[T1].owner == "A" then "B" else "A"
  {
    hide Inv, Apply, NoLiveAnchor, ScopeBlocked, Strip;
    Names();
    var op := OnT1(h.claims[T1], HandoffT1);
    if Apply(cfg, h, op, now).1.Granted? {
      HandoffIsAtomic(cfg, h, op, now);
    }
  }

  // ---------------------------------------------------------------- the harness, statement by statement

  function Require(condition: bool, law: string, detail: string): Verdict {
    if condition then Held else Violated(law, detail)
  }

  /** Of an epoch counter that never falls: it moved exactly when the request was granted. */
  function AssertEpochAdvanced(epochSeq: nat, before: nat, ok: bool): (v: Verdict)
    ensures before <= epochSeq ==> (v.Held? <==> (ok <==> before != epochSeq))
    ensures v.Violated? ==> v.law == "INV-EF-1"
  {
    if ok then Require(epochSeq > before, "INV-EF-1", "successful lease mutation reused epoch")
    else Require(epochSeq == before, "INV-EF-1", "refused mutation consumed epoch")
  }

  /** One claim of the harness: the epoch moves with the verdict, and some claims must be granted. */
  method ClaimScope(state: S.SynapseState, now: real, r: ClaimRequest, required: Option<string>) returns (v: Verdict)
    requires state.Valid() && HarnessConfig(state.cfg) && Modelled(state.cfg, state.View(), now)
    requires HarnessOp(Acquire(r))
    requires required.Some? ==> Apply(state.cfg, state.View(), Acquire(r), now).1.Granted?
    modifies state`claims, state`epochSeq, state`expired, state`lastSeen, state.index
    ensures state.Valid() && Modelled(state.cfg, state.View(), now)
    ensures v.Held? && state.View() == Apply(state.cfg, old(state.View()), Acquire(r), now).0
  {
    hide DoAcquire, Modelled, HarnessOp, HarnessConfig, Tracked;
    StepEpoch(state.cfg, state.View(), Acquire(r), now);
    StepKeepsModelled(state.cfg, state.View(), Acquire(r), now);
    var before := state.epochSeq;
    var o := state.Acquire(r, now);
    v := AssertEpochAdvanced(state.epochSeq, before, o.Granted?);
    if v.Held? && required.Some? {
      v := Require(o.Granted?, required.value, "non-conflicting scope was refused");
    }
  }

  method HandOver(state: S.SynapseState, now: real) returns (v: Verdict)
    requires state.Valid() && HarnessConfig(state.cfg) && Modelled(state.cfg, state.View(), now) && T1 in state.claims
    modifies state`claims, state`epochSeq, state`expired, state`lastSeen, state.index
    ensures state.Valid() && Modelled(state.cfg, state.View(), now)
    ensures v.Held? && state.View() == Enact(state.cfg, old(state.View()), now, HandoffT1)
  {
    hide DoHandoff, Modelled, HarnessConfig, Tracked;
    var c := state.claims[T1];
    var op := OnT1(c, HandoffT1);
    ConfigIsValid(state.cfg);
    StepEpoch(state.cfg, state.View(), op, now);
    HandoffHolds(state.cfg, state.View(), now);
    StepKeepsModelled(state.cfg, state.View(), op, now);
    var before := state.epochSeq;
    var target := if c.owner == "A" then "B" else "A";
    var o := state.Handoff(op, now);
    v := AssertEpochAdvanced(state.epochSeq, before, o.Granted?);
    if v.Held? && o.Granted? {
      var moved := state.claims[T1];
      v := Require(moved.owner == target, "INV-CR-2", "handoff did not transfer owner");
      if v.Held? {
        v := Require(moved.version == 0, "INV-CR-2", "handoff did not reset version");
      }
    }
  }

  /** An action whose request must be granted: the owner's signed release or update. */
  method OwnerAct(state: S.SynapseState, now: real, action: Action) returns (v: Verdict)
    requires state.Valid() && HarnessConfig(state.cfg) && Modelled(state.cfg, state.View(), now) && T1 in state.claims
    requires action.ReleaseT1? || action.UpdateT1?
    modifies state`claims, state`epochSeq, state`expired, state`lastSeen, state`custody, state`retained, state.index
    ensures state.Valid() && Modelled(state.cfg, state.View(), now)
    ensures v.Held? && state.View() == Enact(state.cfg, old(state.View()), now, action)
  {
    hide DoRelease, DoUpdate, Modelled, HarnessConfig, Tracked;
    var op := OnT1(state.claims[T1], action);
    OwnerActsHold(state.cfg, state.View(), now);
    StepKeepsModelled(state.cfg, state.View(), op, now);
    var before := state.claims[T1].version;
    var o := state.Perform(op, now);
    if action.ReleaseT1? {
      v := Require(o.Granted? && T1 !in state.claims, "INV-ME-1", "release retained claim");
    } else {
      v := Require(o.Granted?, "INV-EF-3", "current version update was refused");
      if v.Held? {
        v := Require(state.claims[T1].version == before + 1, "INV-EF-3", "version did not bump");
      }
    }
  }

  method TakeFingerprint(state: S.SynapseState, now: real) returns (v: Verdict, f: Fingerprint)
    requires state.Valid()
    modifies state`claims, state`expired, state.index
    ensures state.Valid() && state.View() == Sweep(old(state.View()), now)
    ensures f == FingerprintOf(state.View(), now) && (v.Held? <==> Checks(state.View(), now))
  {
    hide Sweep, Checks, RowOf;
    v := AssertInvariants(state, now);
    f := FingerprintOf(state.View(), now);
  }

  /** A request signed with the wrong epoch or version: refused, with authority exactly as before. */
  method StaleAct(state: S.SynapseState, now: real, action: Action) returns (v: Verdict)
    requires state.Valid() && HarnessConfig(state.cfg) && Modelled(state.cfg, state.View(), now) && T1 in state.claims
    requires action.StaleReleaseT1? || action.StaleUpdateT1?
    modifies state`claims, state`epochSeq, state`expired, state`lastSeen, state`custody, state`retained, state.index
    ensures state.Valid() && Modelled(state.cfg, state.View(), now)
    ensures v.Held? && state.View() == Enact(state.cfg, old(state.View()), now, action)
  {
    hide Apply, Modelled, HarnessConfig, Tracked, Sweep, Checks, FingerprintOf;
    var law := if action.StaleReleaseT1? then "INV-EF-2" else "INV-EF-3";
    var op := OnT1(state.claims[T1], action);
    StaleActsAreRefused(state.cfg, state.View(), now, action);
    StepKeepsModelled(state.cfg, state.View(), op, now);
    ModelledPassesChecks(state.cfg, state.View(), now);
    var before, after;
    v, before := TakeFingerprint(state, now);
    var o := state.Perform(op, now);
    ModelledPassesChecks(state.cfg, state.View(), now);
    if v.Held? {
      v := Require(o.Refused?, law, "mismatched request was granted");
    }
    if v.Held? {
      v, after := TakeFingerprint(state, now);
      if v.Held? {
        v := Require(after == before, law, "mismatched request changed authority");
      }
    }
  }

  method ExpireAll(state: S.SynapseState, now: real) returns (later: real, v: Verdict)
    requires state.Valid() && HarnessConfig(state.cfg) && Modelled(state.cfg, state.View(), now)
    modifies state`claims, state`expired, state.index
    ensures later == After(now, Expire) && state.Valid() && Modelled(state.cfg, state.View(), later)
    ensures v.Held? && state.View() == Enact(state.cfg, old(state.View()), now, Expire)
  {
    hide Modelled, HarnessConfig, Tracked, Sweep;
    ConfigIsValid(state.cfg);
    FarSweep(state.cfg, state.View(), now);
    later := now + (MAXIMUM_TTL_SECONDS + 1.0);
    state.ExpireClaims(later);
    v := Require(state.claims == map[], "INV-LL-2", "far-future sweep retained a live claim");
  }

  /** The actions that speak of the claim T1, when there is one. */
  method ActOnT1(state: S.SynapseState, now: real, action: Action) returns (v: Verdict)
    requires state.Valid() && HarnessConfig(state.cfg) && Modelled(state.cfg, state.View(), now) && T1 in state.claims
    requires action in {RenewT1, HandoffT1, ReleaseT1, StaleReleaseT1, UpdateT1, StaleUpdateT1}
    modifies state`claims, state`epochSeq, state`expired, state`lastSeen, state`custody, state`retained, state.index
    ensures state.Valid() && Modelled(state.cfg, state.View(), now)
    ensures v.Held? && state.View() == Enact(state.cfg, old(state.View()), now, action)
  {
    hide Modelled, HarnessConfig, Tracked, Sweep, Checks, Apply;
    if action.RenewT1? {
      RenewalHolds(state.cfg, state.View(), now);
      OwnScopeIsHarnessScope(state.cfg, state.View(), now);
      v := ClaimScope(state, now, OnT1(state.claims[T1], RenewT1).request, Some("INV-LL-4"));
    } else if action.HandoffT1? {
      v := HandOver(state, now);
    } else if action.ReleaseT1? || action.UpdateT1? {
      v := OwnerAct(state, now, action);
    } else {
      v := StaleAct(state, now, action);
    }
  }

  method ApplyAction(state: S.SynapseState, now: real, action: Action) returns (later: real, v: Verdict)
    requires state.Valid() && HarnessConfig(state.cfg) && Modelled(state.cfg, state.View(), now)
    modifies state`claims, state`epochSeq, state`expired, state`lastSeen, state`custody, state`retained, state.index
    ensures later == After(now, action) && state.Valid() && Modelled(state.cfg, state.View(), later)
    ensures v.Held? && state.View() == Enact(state.cfg, old(state.View()), now, action)
  {
    hide Modelled, HarnessConfig, Tracked, Sweep, Checks, Apply;
    later, v := now, Held;
    if action.Expire? {
      later, v := ExpireAll(state, now);
    } else if action in {RenewT1, HandoffT1, ReleaseT1, StaleReleaseT1, UpdateT1, StaleUpdateT1} {
      if T1 in state.claims {
        v := ActOnT1(state, now, action);
      }
    } else {
      SideClaimHolds(state.cfg, state.View(), now);
      var required := if action.ClaimBT2SideSrc? then Some("INV-ME-3") else None;
      v := ClaimScope(state, now, ActionOp(state.View(), action).value.request, required);
    }
    ModelledPassesChecks(state.cfg, state.View(), later);
    if v.Held? {
      v := AssertInvariants(state, later);
    }
  }

  lemma OwnScopeIsHarnessScope(cfg: Config, h: Hub, now: real)
    requires Modelled(cfg, h, now) && T1 in h.claims
    ensures HarnessOp(OnT1(h.claims[T1], RenewT1))
  {
    assert Modest(T1, h.claims[T1]);
  }

  // ---------------------------------------------------------------- traces of any length

  function ClockAfter(now: real, trace: seq<Action>): real
    decreases trace
  {
    if trace == [] then now else ClockAfter(After(now, trace[0]), trace[1..])
  }

  function Enacted(cfg: Config, h: Hub, now: real, trace: seq<Action>): Hub
    decreases trace
  {
    if trace == [] then h else Enacted(cfg, Enact(cfg, h, now, trace[0]), After(now, trace[0]), trace[1..])
  }

  lemma EnactedStep(cfg: Config, h: Hub, now: real, trace: seq<Action>)
    ensures Enacted(cfg, h, now, []) == h && ClockAfter(now, []) == now
    ensures trace != [] ==>
              && Enacted(cfg, h, now, trace) == Enacted(cfg, Enact(cfg, h, now, trace[0]), After(now, trace[0]), trace[1..])
              && ClockAfter(now, trace) == ClockAfter(After(now, trace[0]), trace[1..])
  {
    hide Enact, After;
  }

  /**
    * Replays one trace from an empty registry, checking after every action. It never
    * raises a violation, for any trace of any length.
    */
  method ReplayTrace(cfg: Config, trace: seq<Action>) returns (state: S.SynapseState, now: real, v: Verdict)
    requires HarnessConfig(cfg)
    ensures v.Held?
    ensures fresh(state) && state.Valid() && state.cfg == cfg && Modelled(cfg, state.View(), now)
    ensures state.View() == Enacted(cfg, EMPTY, START_TIME, trace) && now == ClockAfter(START_TIME, trace)
  {
    hide Modelled, HarnessConfig, Tracked, Sweep, Checks, Enact, Enacted, ClockAfter, After;
    ConfigIsValid(cfg);
    state := new S.SynapseState(cfg);
    now := START_TIME;
    EmptyIsModelled(cfg);
    ModelledPassesChecks(cfg, state.View(), now);
    v := AssertInvariants(state, now);
    for i := 0 to |trace|
      invariant v.Held? && fresh(state) && fresh(state.index) && state.Valid() && state.cfg == cfg
      invariant Modelled(cfg, state.View(), now)
      invariant Enacted(cfg, state.View(), now, trace[i..]) == Enacted(cfg, EMPTY, START_TIME, trace)
      invariant ClockAfter(now, trace[i..]) == ClockAfter(START_TIME, trace)
    {
      EnactedStep(cfg, state.View(), now, trace[i..]);
      assert trace[i..][1..] == trace[i + 1..];
      now, v := ApplyAction(state, now, trace[i]);
    }
    EnactedStep(cfg, state.View(), now, trace[|trace|..]);
  }

  lemma EmptyIsModelled(cfg: Config)
    requires ValidConfig(cfg)
    ensures Modelled(cfg, EMPTY, START_TIME)
  {
    hide Inv;
    EmptyHub(cfg);
  }
}
