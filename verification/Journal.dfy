/**
  * The durable event log of the lease protocol and its replay. Expiries are never
  * logged: recovery folds the snapshots and releases and then sweeps once.
  */
module Journal {
  import opened Wrappers
  import opened PathIdentity
  import opened Strings
  import opened Scoping
  import opened Lease
  import opened LeaseIndex
  import opened LeaseInvariants
  import opened LeaseGuarantees
  import S = SynapseState

  /** Claims, renewals, updates, checkpoints and handoffs all log the claim they leave behind. */
  datatype Event = Snapshotted(claim: Claim) | Released(task: string) | ProtectedWrite

  datatype Memory =
    | Rebuilt(claims: map<string, Claim>, lastSeen: map<string, real>, epochSeq: nat)
    | Unsupported
    | Malformed

  const NOTHING := Rebuilt(map[], map[], 0)

  // ---------------------------------------------------------------- writing

  /** The task a granted operation leaves a snapshot of. */
  function SnapshotTask(op: Op): Option<string> {
    match op
    case Acquire(r) => Some(Strip(r.task))
    case Renew(_, task, _, _) => Some(Strip(task))
    case Update(_, task, _, _, _, _, _) => Some(task)
    case Checkpoint(_, task, _, _) => Some(Strip(task))
    case Handoff(_, task, _, _, _) => Some(Strip(task))
    case _ => None
  }

  /** What the hub appends for one request; a refusal appends nothing that replay reads. */
  function Logged(op: Op, h': Hub, o: Outcome): (events: seq<Event>)
    ensures |events| <= 1
  {
    if o.Refused? then []
    else if SnapshotTask(op).Some? then
      var task := SnapshotTask(op).value;
      if task in h'.claims then [Snapshotted(h'.claims[task])] else []
    else match op
      case Release(_, task, _) => [Released(Strip(task))]
      case ForceRelease(task) => [Released(Strip(task))]
      case OpenCustody(_, _, _) => [ProtectedWrite]
      case SettleCustody(_) => [ProtectedWrite]
      case _ => []
  }

  /** The log of a whole run. */
  function Log(cfg: Config, h: Hub, steps: seq<Step>): seq<Event>
    decreases steps
  {
    if steps == [] then []
    else
      var (h', o) := Apply(cfg, h, steps[0].op, steps[0].now);
      Logged(steps[0].op, h', o) + Log(cfg, h', steps[1..])
  }

  // ---------------------------------------------------------------- reading

  const AUTO_RELEASE_MODES := {"manual", "commit", "merge"}

  function DecodedGit(g: GitContext): GitContext {
    g.(base := if g.base == "" then "main" else g.base,
       autoReleaseOn := if g.autoReleaseOn in AUTO_RELEASE_MODES then g.autoReleaseOn else "manual")
  }

  /** The claim a persisted snapshot reads back as. */
  function Decoded(c: Claim): Claim {
    c.(principal := Payer(c), git := if c.git.Some? then Some(DecodedGit(c.git.value)) else None)
  }

  predicate Decodes(c: Claim, u: Unicode) {
    && (c.scope.identity.Some? ==> ValidatesDisplayScope(c.scope.identity.value, c.scope.worktree, c.scope.paths, u))
    && c.ownershipEpoch <= c.epoch
  }

  function Max(a: nat, b: nat): nat {
    if a < b then b else a
  }

  function ApplyEvent(u: Unicode, m: Memory, e: Event): Memory {
    if !m.Rebuilt? then m
    else match e
      case Snapshotted(c) =>
        if !Decodes(c, u) then Malformed
        else m.(claims := m.claims[c.task := Decoded(c)], lastSeen := m.lastSeen[c.owner := c.claimedAt],
                epochSeq := Max(m.epochSeq, c.epoch))
      case Released(task) => m.(claims := m.claims - {task})
      case ProtectedWrite => Unsupported
  }

  function Fold(u: Unicode, m: Memory, log: seq<Event>): Memory
    decreases log
  {
    if log == [] then m else Fold(u, ApplyEvent(u, m, log[0]), log[1..])
  }

  /** The hub a replay hands back: the fold, swept once. */
  function Recovered(m: Memory, now: real): Hub
    requires m.Rebuilt?
  {
    Sweep(Hub(m.claims, m.epochSeq, map[], m.lastSeen, map[], {}), now)
  }

  lemma FoldStep(u: Unicode, m: Memory, log: seq<Event>)
    ensures Fold(u, m, []) == m
    ensures log != [] ==> Fold(u, m, log) == Fold(u, ApplyEvent(u, m, log[0]), log[1..])
  {
    hide ApplyEvent;
  }

  lemma {:induction false} FoldAppend(u: Unicode, m: Memory, a: seq<Event>, b: seq<Event>)
    ensures Fold(u, m, a + b) == Fold(u, Fold(u, m, a), b)
    decreases a
  {
    hide Fold, ApplyEvent;
    FoldStep(u, m, a);
    FoldStep(u, m, a + b);
    if a == [] {
      assert a + b == b;
    } else {
      assert (a + b)[1..] == a[1..] + b;
      FoldAppend(u, ApplyEvent(u, m, a[0]), a[1..], b);
    }
  }

  lemma FoldNext(u: Unicode, m: Memory, log: seq<Event>, i: nat)
    requires i < |log|
    ensures Fold(u, m, log[..i + 1]) == ApplyEvent(u, Fold(u, m, log[..i]), log[i])
  {
    hide ApplyEvent, Fold;
    assert log[..i + 1] == log[..i] + [log[i]] && [log[i]][1..] == [];
    FoldAppend(u, m, log[..i], [log[i]]);
    FoldStep(u, Fold(u, m, log[..i]), [log[i]]);
    FoldStep(u, ApplyEvent(u, Fold(u, m, log[..i]), log[i]), []);
  }

  lemma {:induction false} BadStaysBad(u: Unicode, m: Memory, log: seq<Event>)
    requires !m.Rebuilt?
    ensures Fold(u, m, log) == m
    decreases log
  {
    if log != [] {
      BadStaysBad(u, m, log[1..]);
    }
  }

  // ---------------------------------------------------------------- any log at all

  /** A snapshot that replay accepts: its identity, if any, fits its scope, and its anchor is no newer than its epoch. */
  predicate Acceptable(e: Event, u: Unicode) {
    match e
    case Snapshotted(c) =>
      && c.ownershipEpoch <= c.epoch
      && (c.scope.identity.Some? ==> ValidatesDisplayScope(c.scope.identity.value, c.scope.worktree, c.scope.paths, u))
    case Released(_) => true
    case ProtectedWrite => false
  }

  predicate IsAbout(e: Event, t: string) {
    e == Released(t) || (e.Snapshotted? && e.claim.task == t)
  }

  /** The event at `k` is the last of the log about the task. */
  ghost predicate LastAbout(log: seq<Event>, k: int, t: string) {
    0 <= k < |log| && IsAbout(log[k], t) && forall j :: k < j < |log| ==> !IsAbout(log[j], t)
  }

  ghost predicate LastBy(log: seq<Event>, k: int, agent: string) {
    && 0 <= k < |log| && log[k].Snapshotted? && log[k].claim.owner == agent
    && forall j :: k < j < |log| && log[j].Snapshotted? ==> log[j].claim.owner != agent
  }

  /**
    * Replay of any log is refused exactly when some event is protected or a snapshot that
    * does not hold together.
    */
  lemma {:induction false} AcceptedLogs(u: Unicode, log: seq<Event>)
    ensures Fold(u, NOTHING, log).Rebuilt? <==> forall e :: e in log ==> Acceptable(e, u)
  {
    hide Fold, Decoded, ValidatesDisplayScope;
    if log == [] {
      FoldStep(u, NOTHING, []);
    } else {
      var n := |log| - 1;
      AcceptedLogs(u, log[..n]);
      FoldNext(u, NOTHING, log, n);
      assert log[..n + 1] == log && log == log[..n] + [log[n]];
      assert (forall e :: e in log ==> Acceptable(e, u)) <==>
             (forall e :: e in log[..n] ==> Acceptable(e, u)) && Acceptable(log[n], u);
    }
  }

  ghost predicate ClaimsAre(m: Memory, log: seq<Event>)
    requires m.Rebuilt?
  {
    && (forall t :: t in m.claims ==> exists k :: LastAbout(log, k, t) && log[k].Snapshotted?)
    && (forall k, t :: LastAbout(log, k, t) && log[k].Snapshotted? ==> t in m.claims && ReadsBack(log[k].claim, m.claims[t]))
  }

  ghost predicate PresenceIs(m: Memory, log: seq<Event>)
    requires m.Rebuilt?
  {
    && (forall agent :: agent in m.lastSeen ==> exists k :: LastBy(log, k, agent))
    && (forall k, agent :: LastBy(log, k, agent) ==> agent in m.lastSeen && m.lastSeen[agent] == log[k].claim.claimedAt)
  }

  ghost predicate CounterIs(m: Memory, log: seq<Event>)
    requires m.Rebuilt?
  {
    && (forall e :: e in log && e.Snapshotted? ==> e.claim.epoch <= m.epochSeq)
    && (m.epochSeq > 0 ==> exists e :: e in log && e.Snapshotted? && e.claim.epoch == m.epochSeq)
  }

  lemma ClaimsNext(u: Unicode, m: Memory, before: seq<Event>, last: Event)
    requires m.Rebuilt? && ApplyEvent(u, m, last).Rebuilt? && ClaimsAre(m, before)
    ensures ClaimsAre(ApplyEvent(u, m, last), before + [last])
  {
    hide Decoded, Decodes, ReadsBack, LastAbout;
    AboutNext(before, last);
    var m', log := ApplyEvent(u, m, last), before + [last];
    assert forall j :: 0 <= j < |before| ==> log[j] == before[j];
    if last.Snapshotted? {
      DecodedReadsBack(last.claim, Decoded(last.claim));
    }
    forall k, t | LastAbout(before, k, t) ensures 0 <= k < |before| { InLog(before, k, t); }
    forall t | t in m'.claims ensures exists k :: LastAbout(log, k, t) && log[k].Snapshotted? {
      if IsAbout(last, t) {
        assert LastAbout(log, |before|, t);
      } else {
        var k :| LastAbout(before, k, t) && before[k].Snapshotted?;
        assert LastAbout(log, k, t);
      }
    }
    forall k, t | LastAbout(log, k, t) ensures 0 <= k < |log| { InLog(log, k, t); }
    forall k, t | LastAbout(log, k, t) && log[k].Snapshotted? ensures t in m'.claims && ReadsBack(log[k].claim, m'.claims[t]) {
      if !IsAbout(last, t) {
        assert LastAbout(before, k, t);
      }
    }
  }

  lemma InLog(log: seq<Event>, k: int, t: string)
    requires LastAbout(log, k, t)
    ensures 0 <= k < |log|
  {
  }

  lemma PresenceNext(u: Unicode, m: Memory, before: seq<Event>, last: Event)
    requires m.Rebuilt? && ApplyEvent(u, m, last).Rebuilt? && PresenceIs(m, before)
    ensures PresenceIs(ApplyEvent(u, m, last), before + [last])
  {
    hide Decoded, Decodes, LastBy;
    ByNext(before, last);
    var m', log := ApplyEvent(u, m, last), before + [last];
    assert forall j :: 0 <= j < |before| ==> log[j] == before[j];
    forall k, agent | LastBy(before, k, agent) ensures 0 <= k < |before| && before[k].Snapshotted? { ByInLog(before, k, agent); }
    forall agent | agent in m'.lastSeen ensures exists k :: LastBy(log, k, agent) {
      if last.Snapshotted? && last.claim.owner == agent {
        assert LastBy(log, |before|, agent);
      } else {
        var k :| LastBy(before, k, agent);
        assert LastBy(log, k, agent);
      }
    }
    forall k, agent | LastBy(log, k, agent) ensures 0 <= k < |log| && log[k].Snapshotted? { ByInLog(log, k, agent); }
  }

  lemma ByInLog(log: seq<Event>, k: int, agent: string)
    requires LastBy(log, k, agent)
    ensures 0 <= k < |log| && log[k].Snapshotted?
  {
  }

  lemma CounterNext(u: Unicode, m: Memory, before: seq<Event>, last: Event)
    requires m.Rebuilt? && ApplyEvent(u, m, last).Rebuilt? && CounterIs(m, before)
    ensures CounterIs(ApplyEvent(u, m, last), before + [last])
  {
    hide Decoded, Decodes;
    var log := before + [last];
    assert forall e :: e in log <==> e in before || e == last;
  }

  /**
    * What replay makes of an accepted log: a task is held exactly when its last event is a
    * snapshot, and as that snapshot; an agent was last seen when its last snapshot was
    * claimed; and the epoch counter is the largest epoch of any snapshot.
    */
  lemma {:induction false} FoldMeans(u: Unicode, log: seq<Event>)
    requires Fold(u, NOTHING, log).Rebuilt?
    ensures var m := Fold(u, NOTHING, log);
            ClaimsAre(m, log) && PresenceIs(m, log) && CounterIs(m, log)
  {
    hide Fold, ApplyEvent, ClaimsAre, PresenceIs, CounterIs;
    if log == [] {
      FoldStep(u, NOTHING, []);
      assert ClaimsAre(NOTHING, []) && PresenceIs(NOTHING, []) && CounterIs(NOTHING, []) by { NothingFolds(); }
    } else {
      var n := |log| - 1;
      var before, last := log[..n], log[n];
      FoldNext(u, NOTHING, log, n);
      assert log[..n + 1] == log && log == before + [last];
      var m := Fold(u, NOTHING, before);
      if m.Rebuilt? {
        FoldMeans(u, before);
        ClaimsNext(u, m, before, last);
        PresenceNext(u, m, before, last);
        CounterNext(u, m, before, last);
      } else {
        BadStep(u, m, last);
      }
    }
  }

  lemma NothingFolds()
    ensures ClaimsAre(NOTHING, []) && PresenceIs(NOTHING, []) && CounterIs(NOTHING, [])
  {
  }

  lemma BadStep(u: Unicode, m: Memory, e: Event)
    requires !m.Rebuilt?
    ensures ApplyEvent(u, m, e) == m
  {
  }

  lemma AboutNext(before: seq<Event>, last: Event)
    ensures forall k, t :: LastAbout(before + [last], k, t) <==>
              if IsAbout(last, t) then k == |before| else LastAbout(before, k, t)
  {
    hide IsAbout;
    var log := before + [last];
    assert log[|before|] == last && forall j :: 0 <= j < |before| ==> log[j] == before[j];
    forall k, t ensures LastAbout(log, k, t) <==> if IsAbout(last, t) then k == |before| else LastAbout(before, k, t) {
      if LastAbout(log, k, t) && k < |before| {
        forall j | k < j < |before| ensures !IsAbout(before[j], t) {
          assert !IsAbout(log[j], t);
        }
      }
    }
  }

  lemma ByNext(before: seq<Event>, last: Event)
    ensures forall k, agent :: LastBy(before + [last], k, agent) <==>
              if last.Snapshotted? && last.claim.owner == agent then k == |before| else LastBy(before, k, agent)
  {
    var log := before + [last];
    assert log[|before|] == last && forall j :: 0 <= j < |before| ==> log[j] == before[j];
    forall k, agent
      ensures LastBy(log, k, agent) <==>
              if last.Snapshotted? && last.claim.owner == agent then k == |before| else LastBy(before, k, agent)
    {
      if LastBy(log, k, agent) && k < |before| {
        forall j | k < j < |before| && before[j].Snapshotted? ensures before[j].claim.owner != agent {
          assert log[j].claim.owner != agent;
        }
      }
    }
  }

  /** The restart loop: a fresh registry filled event by event, indexed once, then swept; null where it raises. */
  method Replay(cfg: Config, log: seq<Event>, now: real) returns (state: S.SynapseState?)
    requires ValidConfig(cfg)
    ensures state != null <==> Fold(cfg.u, NOTHING, log).Rebuilt?
    ensures state != null ==>
              && fresh(state) && state.Valid() && state.cfg == cfg
              && state.View() == Recovered(Fold(cfg.u, NOTHING, log), now)
  {
    hide Fold, Decoded, Decodes, Tracked, Sweep;
    state := new S.SynapseState(cfg);
    var epochSeq: nat := 0;
    FoldStep(cfg.u, NOTHING, []);
    for i := 0 to |log|
      invariant state != null && fresh(state) && fresh(state.index) && state.cfg == cfg && S.TasksKeyed(state.claims)
      invariant state.View() == Hub(state.claims, 0, map[], state.lastSeen, map[], {})
      invariant Fold(cfg.u, NOTHING, log[..i]) == Rebuilt(state.claims, state.lastSeen, epochSeq)
    {
      FoldNext(cfg.u, NOTHING, log, i);
      assert log == log[..i + 1] + log[i + 1..];
      FoldAppend(cfg.u, NOTHING, log[..i + 1], log[i + 1..]);
      match log[i] {
        case Snapshotted(c) =>
          if !Decodes(c, cfg.u) {
            BadStaysBad(cfg.u, Malformed, log[i + 1..]);
            return null;
          }
          assert Decoded(c).task == c.task by { KeepsTask(c); }
          state.claims := state.claims[c.task := Decoded(c)];
          state.lastSeen := state.lastSeen[c.owner := c.claimedAt];
          epochSeq := Max(epochSeq, c.epoch);
        case Released(task) =>
          state.claims := state.claims - {task};
        case ProtectedWrite =>
          BadStaysBad(cfg.u, Unsupported, log[i + 1..]);
          return null;
      }
    }
    assert log[..|log|] == log;
    state.epochSeq := epochSeq;
    state.index.Rebuild(state.claims);
    state.ExpireClaims(now);
  }

  lemma KeepsTask(c: Claim)
    ensures Decoded(c).task == c.task
  {
  }

  // ---------------------------------------------------------------- the log mirrors the hub

  /**
    * What the fold knows of the live hub: every live claim as last logged, and besides
    * them only leases that lapsed by `high`, whose checkpoints the hub still retains.
    */
  ghost predicate Mirrors(h: Hub, m: Memory, high: real) {
    && m.Rebuilt? && m.epochSeq == h.epochSeq
    && (forall t :: t in h.claims ==> t in m.claims && m.claims[t] == Decoded(h.claims[t]))
    && (forall t :: t in m.claims && t !in h.claims ==> m.claims[t].expiresAt <= high && KeptToken(h, t, m.claims[t]))
    && (forall t :: t in h.expired ==> t in m.claims && t !in h.claims)
  }

  /** The checkpoint of a lapsed lease is retained, unless there was none. */
  ghost predicate KeptToken(h: Hub, t: string, lapsed: Claim) {
    if lapsed.checkpoint == "" then t !in h.expired else t in h.expired && h.expired[t] == lapsed.checkpoint
  }

  /**
    * A claim as it must come back from the log: every field as it was, the payer spelled
    * out, and a branch context with its two defaults filled in.
    */
  predicate ReadsBack(c: Claim, d: Claim) {
    && d.task == c.task && d.owner == c.owner && d.note == c.note
    && d.claimedAt == c.claimedAt && d.expiresAt == c.expiresAt
    && d.status == c.status && d.dataRef == c.dataRef && d.scope == c.scope
    && d.epoch == c.epoch && d.ownershipEpoch == c.ownershipEpoch && d.version == c.version
    && d.checkpoint == c.checkpoint
    && d.principal == (if c.principal == "" then c.owner else c.principal)
    && (c.git.None? <==> d.git.None?)
    && (c.git.Some? ==> GitReadsBack(c.git.value, d.git.value))
  }

  predicate GitReadsBack(g: GitContext, r: GitContext) {
    && r.branch == g.branch
    && (g.base != "" ==> r.base == g.base) && (g.base == "" ==> r.base == "main")
    && (g.autoReleaseOn in {"manual", "commit", "merge"} ==> r.autoReleaseOn == g.autoReleaseOn)
    && (g.autoReleaseOn !in {"manual", "commit", "merge"} ==> r.autoReleaseOn == "manual")
  }

  /** The same tasks, each claim as it must come back. */
  ghost predicate ComesBack(live: map<string, Claim>, back: map<string, Claim>) {
    back.Keys == live.Keys && forall t :: t in live ==> ReadsBack(live[t], back[t])
  }

  lemma DecodedReadsBack(c: Claim, d: Claim)
    ensures ReadsBack(c, d) <==> d == Decoded(c)
  {
  }

  lemma DecodedComesBack(live: map<string, Claim>, back: map<string, Claim>)
    ensures ComesBack(live, back) <==> back == DecodedEach(live)
  {
    hide Decoded, ReadsBack;
    forall t | t in live && t in back ensures ReadsBack(live[t], back[t]) <==> back[t] == Decoded(live[t]) {
      DecodedReadsBack(live[t], back[t]);
    }
  }

  lemma DecodedKeeps(c: Claim)
    ensures var d := Decoded(c); ReadsBack(c, d) && Payer(d) == Payer(c) && Decoded(d) == d
  {
  }

  lemma SweepMirrors(h: Hub, m: Memory, now: real, high: real)
    requires Mirrors(h, m, high) && now <= high
    ensures Mirrors(Sweep(h, now), m, high)
  {
    hide Decoded;
    var s := Sweep(h, now);
    forall t | t in m.claims && t !in s.claims ensures m.claims[t].expiresAt <= high && KeptToken(s, t, m.claims[t]) {
      if t in h.claims {
        DecodedKeeps(h.claims[t]);
      }
    }
  }

  /** A stored snapshot: the hub's claim is new, and the fold reads the same claim back. */
  lemma StoreMirrors(u: Unicode, h: Hub, m: Memory, high: real, c: Claim, h': Hub)
    requires Mirrors(h, m, high) && Decodes(c, u)
    requires h'.claims == h.claims[c.task := c] && h'.epochSeq == Max(h.epochSeq, c.epoch)
    requires h'.expired == h.expired - {c.task}
    ensures Mirrors(h', ApplyEvent(u, m, Snapshotted(c)), high)
  {
    hide Decoded, Decodes, KeptToken;
    var m' := ApplyEvent(u, m, Snapshotted(c));
    forall t | t in m'.claims && t !in h'.claims
      ensures m'.claims[t].expiresAt <= high && KeptToken(h', t, m'.claims[t])
    {
      SameToken(h, h', t, m.claims[t]);
    }
  }

  lemma SameToken(h: Hub, h': Hub, t: string, lapsed: Claim)
    requires KeptToken(h, t, lapsed)
    requires t in h.expired <==> t in h'.expired
    requires t in h.expired ==> h'.expired[t] == h.expired[t]
    ensures KeptToken(h', t, lapsed)
  {
  }

  lemma DropMirrors(u: Unicode, h: Hub, m: Memory, high: real, task: string)
    requires Mirrors(h, m, high)
    ensures Mirrors(Drop(h, task), ApplyEvent(u, m, Released(task)), high)
  {
    hide Decoded, Decodes;
  }

  /** A granted, snapshotting step changes one claim of the swept hub, and logs it. */
  ghost predicate StoresOne(s: Hub, t: string, h': Hub) {
    && t in h'.claims && h'.claims == s.claims[t := h'.claims[t]] && h'.claims[t].task == t
    && h'.epochSeq == Max(s.epochSeq, h'.claims[t].epoch) && h'.expired == s.expired - {t}
  }

  lemma AcquireStoresOne(cfg: Config, h: Hub, r: ClaimRequest, now: real)
    requires CheckpointsApart(Beat(h, r.agent, now)) && DoAcquire(cfg, h, r, now).1.Granted?
    ensures StoresOne(Beat(h, r.agent, now), Strip(r.task), DoAcquire(cfg, h, r, now).0)
  {
    hide Sweep, Strip, NormalizedPaths, ValidatesDisplayScope, AcquireRefusal, PrincipalOf;
  }

  lemma HandoffStoresOne(cfg: Config, h: Hub, op: Op, now: real)
    requires op.Handoff? && CheckpointsApart(Beat(h, op.agent, now)) && DoHandoff(cfg, h, op, now).1.Granted?
    requires Keyed(Beat(h, op.agent, now))
    ensures StoresOne(Beat(h, op.agent, now), Strip(op.task), DoHandoff(cfg, h, op, now).0)
  {
    hide Sweep, Strip, HandoffRefusal;
    assert HandoffRefusal(cfg, Beat(h, op.agent, now), op.agent, Strip(op.task), Strip(op.target), op.epoch).None?;
    HandoffNeedsClaim(cfg, Beat(h, op.agent, now), op);
  }

  lemma EditStoresOne(cfg: Config, h: Hub, op: Op, now: real)
    requires op.Renew? || op.Update? || op.Checkpoint?
    requires var s := Beat(h, op.agent, now); CheckpointsApart(s) && Keyed(s) && EpochsIssued(s)
    requires Apply(cfg, h, op, now).1.Granted?
    ensures StoresOne(Beat(h, op.agent, now), SnapshotTask(op).value, Apply(cfg, h, op, now).0)
  {
    hide Sweep, Strip, CustodyHoldsTask, CanTransition;
  }

  predicate TouchesCustody(op: Op) {
    op.OpenCustody? || op.SettleCustody?
  }

  lemma InvParts(cfg: Config, h: Hub)
    requires Inv(cfg, h)
    ensures CheckpointsApart(h) && Keyed(h) && EpochsIssued(h)
    ensures forall t :: t in h.claims ==> Decodes(h.claims[t], cfg.u)
  {
    hide Exclusive, WithinQuota, CustodySafe, CustodyApart, PathsStored, ValidatesDisplayScope;
  }

  lemma SnapshotMirrors(cfg: Config, h: Hub, m: Memory, high: real, op: Op, now: real)
    requires ValidConfig(cfg) && Inv(cfg, h) && Mirrors(h, m, high) && now <= high
    requires SnapshotTask(op).Some? && Apply(cfg, h, op, now).1.Granted?
    ensures var (h', o) := Apply(cfg, h, op, now);
            && |Logged(op, h', o)| == 1 && Mirrors(h', ApplyEvent(cfg.u, m, Logged(op, h', o)[0]), high)
  {
    hide Inv, Mirrors, Sweep, Apply, DoAcquire, DoHandoff, ApplyEvent, Strip, CheckpointsApart, Keyed, EpochsIssued, Decodes;
    var h' := Apply(cfg, h, op, now).0;
    var agent := if op.Acquire? then op.request.agent else op.agent;
    var s := Beat(h, agent, now);
    BeatKeeps(cfg, h, agent, now);
    StepKeepsInvariant(cfg, h, op, now);
    InvParts(cfg, s);
    InvParts(cfg, h');
    ShapeOfSnapshot(cfg, h, op, now, agent);
    SweepMirrors(h.(lastSeen := h.lastSeen[agent := now]), m, now, high) by { PresenceIsNotMirrored(h, m, high, agent, now); }
    StoreMirrors(cfg.u, s, m, high, h'.claims[SnapshotTask(op).value], h');
  }

  lemma PresenceIsNotMirrored(h: Hub, m: Memory, high: real, agent: string, now: real)
    requires Mirrors(h, m, high)
    ensures Mirrors(h.(lastSeen := h.lastSeen[agent := now]), m, high)
  {
    hide Decoded;
  }

  lemma ShapeOfSnapshot(cfg: Config, h: Hub, op: Op, now: real, agent: string)
    requires SnapshotTask(op).Some? && Apply(cfg, h, op, now).1.Granted?
    requires agent == if op.Acquire? then op.request.agent else op.agent
    requires var s := Beat(h, agent, now); CheckpointsApart(s) && Keyed(s) && EpochsIssued(s)
    ensures StoresOne(Beat(h, agent, now), SnapshotTask(op).value, Apply(cfg, h, op, now).0)
  {
    hide DoAcquire, DoHandoff, DoRenew, DoUpdate, DoCheckpoint, Sweep, Strip, CheckpointsApart, Keyed, EpochsIssued, StoresOne;
    if op.Acquire? {
      AcquireStoresOne(cfg, h, op.request, now);
    } else if op.Handoff? {
      HandoffStoresOne(cfg, h, op, now);
    } else {
      EditStoresOne(cfg, h, op, now);
    }
  }

  /** Whatever a step outside protected custody does, the log keeps mirroring the hub. */
  lemma StepMirrors(cfg: Config, h: Hub, m: Memory, high: real, op: Op, now: real)
    requires ValidConfig(cfg) && Inv(cfg, h) && Mirrors(h, m, high) && now <= high
    requires var (h', o) := Apply(cfg, h, op, now); ProtectedWrite !in Logged(op, h', o)
    ensures var (h', o) := Apply(cfg, h, op, now);
            Mirrors(h', Fold(cfg.u, m, Logged(op, h', o)), high)
  {
    hide Inv, Mirrors, Apply, Fold, ApplyEvent;
    var (h', o) := Apply(cfg, h, op, now);
    FoldStep(cfg.u, m, Logged(op, h', o));
    if o.Refused? {
      RefusalChangesNothing(cfg, h, op, now);
      SweptMirrors(h, m, high, now, h');
    } else if SnapshotTask(op).Some? {
      SnapshotMirrors(cfg, h, m, high, op, now);
      assert Logged(op, h', o) == [Logged(op, h', o)[0]];
      OneEvent(cfg.u, m, Logged(op, h', o)[0]);
    } else {
      QuietMirrors(cfg, h, m, high, op, now);
    }
  }

  lemma SweptMirrors(h: Hub, m: Memory, high: real, now: real, h': Hub)
    requires Mirrors(h, m, high) && now <= high && OnlySwept(h, h', now)
    ensures Mirrors(h', m, high)
  {
    hide Decoded, Sweep;
    SweepMirrors(h, m, now, high);
  }

  /** Releases log themselves; heartbeats and snapshots only sweep. */
  lemma QuietMirrors(cfg: Config, h: Hub, m: Memory, high: real, op: Op, now: real)
    requires Mirrors(h, m, high) && now <= high && !TouchesCustody(op) && SnapshotTask(op).None?
    requires Apply(cfg, h, op, now).1.Granted?
    ensures var (h', o) := Apply(cfg, h, op, now);
            Mirrors(h', Fold(cfg.u, m, Logged(op, h', o)), high)
  {
    hide Mirrors, Fold, ApplyEvent, Strip, Drop, CustodyHoldsTask, ReleaseRefusal;
    FoldStep(cfg.u, m, []);
    if op.ForceRelease? {
      DropMirrors(cfg.u, h, m, high, Strip(op.task));
      OneEvent(cfg.u, m, Released(Strip(op.task)));
    } else {
      var agent := if op.Snapshot? then "" else op.agent;
      var s := if op.Snapshot? then Sweep(h, now) else Beat(h, agent, now);
      if op.Snapshot? {
        SweepMirrors(h, m, now, high);
      } else {
        PresenceIsNotMirrored(h, m, high, agent, now);
        SweepMirrors(h.(lastSeen := h.lastSeen[agent := now]), m, now, high);
      }
      if op.Release? {
        DropMirrors(cfg.u, s, m, high, Strip(op.task));
        OneEvent(cfg.u, m, Released(Strip(op.task)));
      }
    }
  }

  lemma OneEvent(u: Unicode, m: Memory, e: Event)
    ensures Fold(u, m, [e]) == ApplyEvent(u, m, e)
  {
    hide ApplyEvent, Fold;
    assert [e][1..] == [];
    FoldStep(u, m, [e]);
    FoldStep(u, ApplyEvent(u, m, e), []);
  }

  predicate ClockedBy(steps: seq<Step>, high: real) {
    forall s :: s in steps ==> s.now <= high
  }

  lemma {:induction false} RunMirrors(cfg: Config, h: Hub, m: Memory, high: real, steps: seq<Step>)
    requires ValidConfig(cfg) && Inv(cfg, h) && Mirrors(h, m, high)
    requires ProtectedWrite !in Log(cfg, h, steps) && ClockedBy(steps, high)
    ensures Mirrors(Run(cfg, h, steps), Fold(cfg.u, m, Log(cfg, h, steps)), high)
    decreases steps
  {
    hide Inv, Mirrors, Apply, Fold, Logged, Run;
    RunStep(cfg, h, steps);
    FoldStep(cfg.u, m, []);
    if steps != [] {
      var (h', o) := Apply(cfg, h, steps[0].op, steps[0].now);
      var events := Logged(steps[0].op, h', o);
      StepKeepsInvariant(cfg, h, steps[0].op, steps[0].now);
      StepMirrors(cfg, h, m, high, steps[0].op, steps[0].now);
      RunMirrors(cfg, h', Fold(cfg.u, m, events), high, steps[1..]);
      FoldAppend(cfg.u, m, events, Log(cfg, h', steps[1..]));
    }
  }

  // ---------------------------------------------------------------- recovery

  function DecodedEach(claims: map<string, Claim>): map<string, Claim> {
    map t | t in claims :: Decoded(claims[t])
  }

  function Remembered(cfg: Config, steps: seq<Step>): Memory {
    Fold(cfg.u, NOTHING, Log(cfg, EMPTY, steps))
  }

  lemma RunIsMirrored(cfg: Config, steps: seq<Step>, high: real)
    requires ValidConfig(cfg) && ProtectedWrite !in Log(cfg, EMPTY, steps) && ClockedBy(steps, high)
    ensures Inv(cfg, Run(cfg, EMPTY, steps)) && Mirrors(Run(cfg, EMPTY, steps), Remembered(cfg, steps), high)
  {
    hide Run, Fold, Log, Inv;
    EmptyHub(cfg);
    RunKeepsInvariant(cfg, EMPTY, steps);
    RunMirrors(cfg, EMPTY, NOTHING, high, steps);
  }

  /** Folded leases that the live hub has already let go of. */
  ghost predicate AllLapsed(h: Hub, m: Memory, now: real)
    requires m.Rebuilt?
  {
    forall t :: t in m.claims && t !in h.claims ==> m.claims[t].expiresAt <= now
  }

  lemma RecoveredClaims(h: Hub, m: Memory, high: real, now: real)
    requires m.Rebuilt? && Mirrors(h, m, high)
    ensures Recovered(m, now).claims == DecodedEach(Unexpired(h.claims, now)) <==> AllLapsed(h, m, now)
  {
    hide Decoded, Lapsing, Mirrors, DecodedEach, Unexpired;
    var left, right := Unexpired(m.claims, now), DecodedEach(Unexpired(h.claims, now));
    assert Recovered(m, now).claims == left;
    forall t
      ensures t in right ==> t in left && left[t] == right[t]
      ensures t in left && t !in right <==> t in m.claims && t !in h.claims && m.claims[t].expiresAt > now
    {
      RecoveredClaim(h, m, high, now, t);
    }
  }

  lemma RecoveredClaim(h: Hub, m: Memory, high: real, now: real, t: string)
    requires Mirrors(h, m, high)
    ensures var left, right := Unexpired(m.claims, now), DecodedEach(Unexpired(h.claims, now));
            && (t in right ==> t in left && left[t] == right[t])
            && (t in left && t !in right <==> t in m.claims && t !in h.claims && m.claims[t].expiresAt > now)
  {
    hide Decoded, KeptToken;
    if t in h.claims {
      DecodedKeeps(h.claims[t]);
    }
  }

  lemma RecoveredTokens(h: Hub, m: Memory, high: real, now: real)
    requires Mirrors(h, m, high) && AllLapsed(h, m, now)
    ensures Recovered(m, now).expired == Sweep(h, now).expired
  {
    hide Decoded, Lapsing;
    LapsingAgree(h, m, high, now);
    assert map[] + Lapsing(m.claims, now) == Lapsing(m.claims, now);
  }

  lemma LapsingAgree(h: Hub, m: Memory, high: real, now: real)
    requires Mirrors(h, m, high) && AllLapsed(h, m, now)
    ensures Lapsing(m.claims, now) == h.expired + Lapsing(h.claims, now)
  {
    hide Decoded;
    var left, right := Lapsing(m.claims, now), h.expired + Lapsing(h.claims, now);
    forall t ensures (t in left <==> t in right) && (t in left ==> left[t] == right[t]) {
      if t in h.claims {
        DecodedKeeps(h.claims[t]);
      } else if t in m.claims {
        assert KeptToken(h, t, m.claims[t]);
      }
    }
  }

  /**
    * Crash recovery refines the live hub: replayed no earlier than any reading the hub
    * saw, the log gives back exactly the claims, resume tokens and epoch counter that the
    * live hub would have after sweeping at the same moment, though expiries are never logged.
    */
  lemma RecoveryIsExact(cfg: Config, steps: seq<Step>, now: real)
    requires ValidConfig(cfg) && ProtectedWrite !in Log(cfg, EMPTY, steps) && ClockedBy(steps, now)
    ensures Remembered(cfg, steps).Rebuilt?
    ensures var r, s := Recovered(Remembered(cfg, steps), now), Sweep(Run(cfg, EMPTY, steps), now);
            ComesBack(s.claims, r.claims) && r.expired == s.expired && r.epochSeq == s.epochSeq
  {
    hide Remembered, Run, Log, Inv, Recovered, DecodedEach, Unexpired, Lapsing, ComesBack;
    RunIsMirrored(cfg, steps, now);
    var h, m := Run(cfg, EMPTY, steps), Remembered(cfg, steps);
    AllLapsedByHigh(h, m, now);
    RecoveredClaims(h, m, now, now);
    DecodedComesBack(Sweep(h, now).claims, Recovered(m, now).claims);
    RecoveredTokens(h, m, now, now);
    RecoveredEpoch(m, now);
  }

  lemma AllLapsedByHigh(h: Hub, m: Memory, now: real)
    requires Mirrors(h, m, now)
    ensures AllLapsed(h, m, now) && m.epochSeq == h.epochSeq
  {
    hide Decoded, KeptToken;
  }

  lemma RecoveredEpoch(m: Memory, now: real)
    requires m.Rebuilt?
    ensures Recovered(m, now).epochSeq == m.epochSeq
  {
  }

  function Latest(steps: seq<Step>): (high: real)
    ensures ClockedBy(steps, high)
    decreases steps
  {
    if steps == [] then 0.0
    else
      var rest := Latest(steps[1..]);
      if steps[0].now > rest then steps[0].now else rest
  }

  lemma {:induction false} ProtectedLogIsRefused(u: Unicode, m: Memory, log: seq<Event>)
    requires ProtectedWrite in log
    ensures !Fold(u, m, log).Rebuilt?
    decreases log
  {
    hide Decodes, Decoded;
    if log[0] == ProtectedWrite {
      BadStaysBad(u, ApplyEvent(u, m, log[0]), log[1..]);
    } else {
      ProtectedLogIsRefused(u, ApplyEvent(u, m, log[0]), log[1..]);
    }
  }

  /** A log the hub wrote is refused exactly when protected custody was ever granted in it. */
  lemma ReplayAcceptsIff(cfg: Config, steps: seq<Step>)
    requires ValidConfig(cfg)
    ensures Remembered(cfg, steps).Rebuilt? <==> ProtectedWrite !in Log(cfg, EMPTY, steps)
  {
    hide Log, Fold, Run;
    if ProtectedWrite in Log(cfg, EMPTY, steps) {
      ProtectedLogIsRefused(cfg.u, NOTHING, Log(cfg, EMPTY, steps));
    } else {
      RunIsMirrored(cfg, steps, Latest(steps));
    }
  }

  // ---------------------------------------------------------------- after the restart

  lemma DecodedKeepsClaims(cfg: Config, h: Hub, r: Hub)
    requires ClaimsInv(cfg, h) && ComesBack(h.claims, r.claims)
    requires r.epochSeq == h.epochSeq && r.expired == h.expired
    ensures ClaimsInv(cfg, r)
  {
    hide Conflict, ValidatesDisplayScope, IsStored, WithinQuota;
    forall t | t in h.claims ensures SameAuthorityAndLease(h.claims[t], r.claims[t]) {
      assert ReadsBack(h.claims[t], r.claims[t]);
    }
    QuotaShrinks(cfg, h.claims, r.claims);
  }

  predicate SameAuthorityAndLease(c: Claim, d: Claim) {
    && d.task == c.task && d.owner == c.owner && d.scope == c.scope && d.epoch == c.epoch
    && d.ownershipEpoch == c.ownershipEpoch && d.claimedAt == c.claimedAt && d.expiresAt == c.expiresAt
    && Payer(d) == Payer(c)
  }

  /** The recovered hub is as safe as the live one, so every run from it stays safe. */
  lemma RecoveredIsSafe(cfg: Config, steps: seq<Step>, now: real)
    requires ValidConfig(cfg) && ProtectedWrite !in Log(cfg, EMPTY, steps) && ClockedBy(steps, now)
    ensures Remembered(cfg, steps).Rebuilt? && Inv(cfg, Recovered(Remembered(cfg, steps), now))
  {
    hide Remembered, Run, Log, ClaimsInv, DecodedEach, Unexpired, Lapsing, ClockedBy, ComesBack;
    EmptyHub(cfg);
    RunKeepsInvariant(cfg, EMPTY, steps);
    SweepKeeps(cfg, Run(cfg, EMPTY, steps), now);
    RecoveryIsExact(cfg, steps, now);
    DecodedKeepsClaims(cfg, Sweep(Run(cfg, EMPTY, steps), now), Recovered(Remembered(cfg, steps), now));
  }

  /**
    * Fencing survives the restart: an epoch superseded before the crash is refused at
    * every point of every run of the recovered hub.
    */
  lemma FencingSurvivesRestart(cfg: Config, steps: seq<Step>, now: real, more: seq<Step>, e: int, op: Op, at: real)
    requires ValidConfig(cfg) && ProtectedWrite !in Log(cfg, EMPTY, steps) && ClockedBy(steps, now)
    requires e <= Run(cfg, EMPTY, steps).epochSeq && NoLiveEpoch(Run(cfg, EMPTY, steps), e) && Fenced(op, e)
    ensures Remembered(cfg, steps).Rebuilt?
    ensures var later := Run(cfg, Recovered(Remembered(cfg, steps), now), more);
            Apply(cfg, later, op, at).1.Refused?
  {
    hide Remembered, Run, Log, Inv, DecodedEach, Recovered, Apply, ClockedBy, Fenced, OnlySwept, ComesBack;
    RecoveryIsExact(cfg, steps, now);
    RecoveredIsSafe(cfg, steps, now);
    var h, r := Run(cfg, EMPTY, steps), Recovered(Remembered(cfg, steps), now);
    StillNoLiveEpoch(h, r, now, e);
    StaleHolderIsFencedOut(cfg, r, more, e, op, at);
  }

  lemma StillNoLiveEpoch(h: Hub, r: Hub, now: real, e: int)
    requires NoLiveEpoch(h, e) && ComesBack(Sweep(h, now).claims, r.claims)
    ensures NoLiveEpoch(r, e)
  {
    forall t | t in r.claims ensures r.claims[t].epoch != e {
      assert ReadsBack(h.claims[t], r.claims[t]);
    }
  }
}
