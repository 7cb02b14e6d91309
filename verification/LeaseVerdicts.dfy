/**
  * When each request is granted and what it writes, told on the claims, leases and custody
  * of the hub it meets. Lapsed leases never count: every verdict but the operator's speaks
  * of the claims that still run.
  */
module LeaseVerdicts {
  import opened Wrappers
  import opened PathIdentity
  import opened Strings
  import opened Scoping
  import opened Lease

  predicate Running(h: Hub, t: string, now: real) {
    t in h.claims && h.claims[t].expiresAt > now
  }

  predicate RunningFor(h: Hub, t: string, now: real, agent: string) {
    Running(h, t, now) && h.claims[t].owner == agent
  }

  /** Some reservation retains a claim on the task. */
  predicate Retained(h: Hub, task: string) {
    exists id, w :: id in h.custody && w in h.custody[id] && w.task == task
  }

  /** Some reservation retains a claim whose files contend with the scope. */
  predicate RetainedFiles(h: Hub, scope: Scope, u: Unicode) {
    exists id, w :: id in h.custody && w in h.custody[id] && Conflict(scope, w.scope, u)
  }

  /** A claim of somebody else that still runs contends with the scope. */
  ghost predicate TakenFiles(h: Hub, task: string, agent: string, scope: Scope, now: real, u: Unicode) {
    exists t :: Running(h, t, now) && t != task && h.claims[t].owner != agent && Conflict(scope, h.claims[t].scope, u)
  }

  /** Who pays: the principal recorded with a claim, or its owner when none is. */
  predicate PaidBy(c: Claim, principal: string) {
    if c.principal == "" then c.owner == principal else c.principal == principal
  }

  function Charges(h: Hub, principal: string, now: real): set<string> {
    set t | t in h.claims && Running(h, t, now) && PaidBy(h.claims[t], principal)
  }

  /** Every other claim is as it was, but for the leases that had lapsed. */
  ghost predicate OthersAsSwept(h: Hub, h': Hub, task: string, now: real) {
    forall t :: t != task ==> (t in h'.claims <==> Running(h, t, now)) && (t in h'.claims ==> h'.claims[t] == h.claims[t])
  }

  // ---------------------------------------------------------------- the hub after its sweep

  lemma SweptIsRunning(h: Hub, agent: string, now: real)
    ensures var s := Beat(h, agent, now);
            && (forall t :: t in s.claims <==> Running(h, t, now)) && (forall t :: t in s.claims ==> s.claims[t] == h.claims[t])
            && s.custody == h.custody && s.retained == h.retained && s.epochSeq == h.epochSeq
            && s.lastSeen == h.lastSeen[agent := now]
  {
    hide Lapsing;
  }

  lemma GuardsMean(cfg: Config, h: Hub, agent: string, now: real, task: string, scope: Scope, principal: string)
    ensures var s := Beat(h, agent, now);
            && (CustodyBlocksScope(s.custody, task, scope, cfg.u) <==> Retained(h, task) || RetainedFiles(h, scope, cfg.u))
            && (CustodyHoldsTask(s.custody, task) <==> Retained(h, task))
            && ChargedTo(s.claims, principal) == Charges(h, principal, now)
  {
    hide Conflict, Lapsing;
    SweptIsRunning(h, agent, now);
    var s := Beat(h, agent, now);
    if CustodyBlocksScope(s.custody, task, scope, cfg.u) {
      var id, w :| id in s.custody && w in s.custody[id] && WitnessBlocks(w, task, scope, cfg.u);
    }
    if RetainedFiles(h, scope, cfg.u) {
      var id, w :| id in h.custody && w in h.custody[id] && Conflict(scope, w.scope, cfg.u);
      assert WitnessBlocks(w, task, scope, cfg.u);
    }
    if Retained(h, task) {
      var id, w :| id in h.custody && w in h.custody[id] && w.task == task;
      assert WitnessBlocks(w, task, scope, cfg.u);
    }
  }

  lemma BlockedMeans(cfg: Config, h: Hub, agent: string, now: real, task: string, holder: string, scope: Scope)
    ensures ScopeBlocked(Beat(h, agent, now).claims, task, holder, scope, cfg.u) <==> TakenFiles(h, task, holder, scope, now, cfg.u)
  {
    hide Conflict, Lapsing;
    SweptIsRunning(h, agent, now);
    var s := Beat(h, agent, now);
    if TakenFiles(h, task, holder, scope, now, cfg.u) {
      var t :| Running(h, t, now) && t != task && h.claims[t].owner != holder && Conflict(scope, h.claims[t].scope, cfg.u);
      assert Contends(s.claims, t, task, holder, scope, cfg.u);
    }
    if ScopeBlocked(s.claims, task, holder, scope, cfg.u) {
      var t :| t in s.claims && Contends(s.claims, t, task, holder, scope, cfg.u);
      assert Running(h, t, now);
    }
  }

  // ---------------------------------------------------------------- claiming

  /**
    * A claim is granted exactly when it names a task, matches its identity, nothing retained
    * stands in its way, nobody else holds the task or contending files, the requester does
    * not insist on a fresh lease over its own, and its principal has room or pays already.
    */
  lemma AcquireVerdict(cfg: Config, h: Hub, r: ClaimRequest, now: real)
    ensures var task, scope, principal := Strip(r.task), StoredScope(cfg, r.scope), PrincipalOf(r.agent, r.principal);
            Apply(cfg, h, Acquire(r), now).1.Granted? <==>
            && task != ""
            && (scope.identity.Some? ==> ValidatesDisplayScope(scope.identity.value, scope.worktree, scope.paths, cfg.u))
            && !Retained(h, task) && !RetainedFiles(h, scope, cfg.u)
            && (Running(h, task, now) ==> h.claims[task].owner == r.agent && !r.requireUnclaimed)
            && !TakenFiles(h, task, r.agent, scope, now, cfg.u)
            && (|| (Running(h, task, now) && PaidBy(h.claims[task], principal))
                || |Charges(h, principal, now)| < cfg.maxClaims)
  {
    hide Strip, StoredScope, PrincipalOf, ValidatesDisplayScope, Beat, CustodyBlocksScope, ScopeBlocked, ChargedTo, Charges;
    hide GrantedClaim, Install, Retained, RetainedFiles, TakenFiles;
    var task, scope, principal := Strip(r.task), StoredScope(cfg, r.scope), PrincipalOf(r.agent, r.principal);
    SweptIsRunning(h, r.agent, now);
    GuardsMean(cfg, h, r.agent, now, task, scope, principal);
    BlockedMeans(cfg, h, r.agent, now, task, r.agent, scope);
  }

  /** What a granted claim writes, field by field; its checkpoint and anchor have their own laws. */
  lemma AcquireEffect(cfg: Config, h: Hub, r: ClaimRequest, now: real)
    requires Apply(cfg, h, Acquire(r), now).1.Granted?
    ensures var task, h' := Strip(r.task), Apply(cfg, h, Acquire(r), now).0;
            && task in h'.claims && OthersAsSwept(h, h', task, now) && h'.epochSeq == h.epochSeq + 1
            && h'.custody == h.custody && h'.retained == h.retained && h'.lastSeen == h.lastSeen[r.agent := now]
            && var c := h'.claims[task];
               && c.task == task && c.owner == r.agent && c.note == Strip(r.note) && c.status == "claimed" && c.dataRef == ""
               && c.claimedAt == now && c.expiresAt == now + LeaseSeconds(cfg, r.ttl)
               && c.principal == PrincipalOf(r.agent, r.principal)
               && c.scope == Scope(r.scope.worktree, NormalizedPaths(r.scope.paths, cfg.maxPaths, cfg.u.printable), r.scope.identity)
               && c.epoch == h.epochSeq + 1 && c.version == 0 && c.git == r.git
  {
    hide Strip, NormalizedPaths, PrincipalOf, ValidatesDisplayScope, Beat, AcquireRefusal, LeaseSeconds, ContinuationEpoch, ResumeToken;
    SweptIsRunning(h, r.agent, now);
  }

  /** The limits a registry is made with: a default lease within the bounds, and room for a claim and a path. */
  lemma LimitsMean(cfg: Config)
    ensures ValidConfig(cfg) <==> 30.0 <= cfg.defaultTtl <= 2592000.0 && cfg.maxClaims > 0 && cfg.maxPaths > 0
  {
  }

  /** A requested lease length is honoured within its bounds; without one the configured length is used. */
  lemma LeaseLength(cfg: Config, seconds: real)
    ensures LeaseSeconds(cfg, None) == cfg.defaultTtl
    ensures MINIMUM_TTL_SECONDS <= seconds <= MAXIMUM_TTL_SECONDS ==> LeaseSeconds(cfg, Some(seconds)) == seconds
    ensures seconds < MINIMUM_TTL_SECONDS ==> LeaseSeconds(cfg, Some(seconds)) == 30.0
    ensures seconds > MAXIMUM_TTL_SECONDS ==> LeaseSeconds(cfg, Some(seconds)) == 2592000.0
  {
  }

  /** The charge goes to the stripped principal, and to the agent when that leaves nothing. */
  lemma ChargeGoesTo(agent: string, principal: string)
    ensures PrincipalOf(agent, None) == PrincipalOf(agent, Some(""))
    ensures Strip(principal) != "" ==> PrincipalOf(agent, Some(principal)) == Strip(principal)
    ensures Strip(principal) == "" && principal != "" ==> PrincipalOf(agent, Some(principal)) == agent
    ensures PrincipalOf(agent, None) == if Strip(agent) != "" then Strip(agent) else agent
  {
    hide LStrip, RStrip;
    assert Strip("") == "" by { StripTrimmed(""); }
  }

  // ---------------------------------------------------------------- the owner's requests

  /** A fenced renewal is granted to the running owner under a generation it was issued, and no reservation or other path list. */
  lemma RenewVerdict(cfg: Config, h: Hub, op: Op, now: real)
    requires op.Renew?
    ensures var task := Strip(op.task);
            Apply(cfg, h, op, now).1.Granted? <==>
            && RunningFor(h, task, now, op.agent) && !Retained(h, task) && h.claims[task].scope.paths == op.paths
            && (op.generation == h.claims[task].epoch || op.generation == h.claims[task].ownershipEpoch)
  {
    hide Strip, Beat, CustodyHoldsTask, Retained;
    SweptIsRunning(h, op.agent, now);
    GuardsMean(cfg, h, op.agent, now, Strip(op.task), Scope("", [], None), "");
  }

  /** It moves the lease to start now, with the length it had, and writes nothing else. */
  lemma RenewEffect(cfg: Config, h: Hub, op: Op, now: real)
    requires op.Renew? && Apply(cfg, h, op, now).1.Granted?
    ensures var task, h' := Strip(op.task), Apply(cfg, h, op, now).0;
            && task in h.claims && task in h'.claims && OthersAsSwept(h, h', task, now) && h'.epochSeq == h.epochSeq
            && var c, d := h.claims[task], h'.claims[task];
               && d.claimedAt == now && d.expiresAt - d.claimedAt == c.expiresAt - c.claimedAt
               && d.(claimedAt := c.claimedAt, expiresAt := c.expiresAt) == c
  {
    hide Strip, Beat, CustodyHoldsTask;
    SweptIsRunning(h, op.agent, now);
  }

  /** An update is granted to the running owner when every expectation it states holds and the status may follow. */
  lemma UpdateVerdict(cfg: Config, h: Hub, op: Op, now: real)
    requires op.Update?
    ensures Apply(cfg, h, op, now).1.Granted? <==>
            && RunningFor(h, op.task, now, op.agent) && !Retained(h, op.task)
            && (op.epoch.None? || op.epoch.value == h.claims[op.task].epoch)
            && (op.version.None? || op.version.value == h.claims[op.task].version)
            && (op.status.None? || op.status.value == "" || CanTransition(h.claims[op.task].status, op.status.value))
  {
    hide Beat, CustodyHoldsTask, Retained, CanTransition;
    SweptIsRunning(h, op.agent, now);
    GuardsMean(cfg, h, op.agent, now, op.task, Scope("", [], None), "");
  }

  /** It writes the fields it was given, counts the version up, and leaves the rest. */
  lemma UpdateEffect(cfg: Config, h: Hub, op: Op, now: real)
    requires op.Update? && Apply(cfg, h, op, now).1.Granted?
    ensures var h' := Apply(cfg, h, op, now).0;
            && op.task in h.claims && op.task in h'.claims && OthersAsSwept(h, h', op.task, now) && h'.epochSeq == h.epochSeq
            && var c, d := h.claims[op.task], h'.claims[op.task];
               && (op.status.Some? && op.status.value != "" ==> d.status == op.status.value)
               && (op.status.None? || op.status.value == "" ==> d.status == c.status)
               && (op.note.Some? ==> d.note == Strip(op.note.value)) && (op.note.None? ==> d.note == c.note)
               && (op.dataRef.Some? ==> d.dataRef == Strip(op.dataRef.value)) && (op.dataRef.None? ==> d.dataRef == c.dataRef)
               && d.version == c.version + 1
               && d.(status := c.status, note := c.note, dataRef := c.dataRef, version := c.version) == c
  {
    hide Strip, Beat, CustodyHoldsTask, CanTransition;
    SweptIsRunning(h, op.agent, now);
  }

  /** The lifecycle: a finished claim stays as it is, nothing returns to "claimed", and only work waits for input. */
  lemma LifecycleMeans(current: string, target: string)
    ensures CanTransition(current, target) <==>
            && target in {"claimed", "working", "input_required", "done", "failed"}
            && (|| current == target
                || (&& current in {"claimed", "working", "input_required"} && target != "claimed"
                    && (target == "input_required" ==> current == "working")))
  {
  }

  lemma CheckpointVerdict(cfg: Config, h: Hub, op: Op, now: real)
    requires op.Checkpoint?
    ensures var task := Strip(op.task);
            Apply(cfg, h, op, now).1.Granted? <==>
            && RunningFor(h, task, now, op.agent) && !Retained(h, task)
            && (op.epoch.None? || op.epoch.value == h.claims[task].epoch)
  {
    hide Strip, Beat, CustodyHoldsTask, Retained;
    SweptIsRunning(h, op.agent, now);
    GuardsMean(cfg, h, op.agent, now, Strip(op.task), Scope("", [], None), "");
  }

  lemma CheckpointEffect(cfg: Config, h: Hub, op: Op, now: real)
    requires op.Checkpoint? && Apply(cfg, h, op, now).1.Granted?
    ensures var task, h' := Strip(op.task), Apply(cfg, h, op, now).0;
            && task in h.claims && task in h'.claims && OthersAsSwept(h, h', task, now) && h'.epochSeq == h.epochSeq
            && var c, d := h.claims[task], h'.claims[task];
               && d.checkpoint == op.checkpoint && d.version == c.version + 1
               && d.(checkpoint := c.checkpoint, version := c.version) == c
  {
    hide Strip, Beat, CustodyHoldsTask;
    SweptIsRunning(h, op.agent, now);
  }

  lemma ReleaseVerdict(cfg: Config, h: Hub, op: Op, now: real)
    requires op.Release?
    ensures var task := Strip(op.task);
            Apply(cfg, h, op, now).1.Granted? <==>
            && task != "" && RunningFor(h, task, now, op.agent) && !Retained(h, task)
            && (op.epoch.None? || op.epoch.value == h.claims[task].epoch)
  {
    hide Strip, Beat, CustodyHoldsTask, Retained, Drop;
    SweptIsRunning(h, op.agent, now);
    GuardsMean(cfg, h, op.agent, now, Strip(op.task), Scope("", [], None), "");
  }

  lemma ReleaseEffect(cfg: Config, h: Hub, op: Op, now: real)
    requires op.Release? && Apply(cfg, h, op, now).1.Granted?
    ensures var task, h' := Strip(op.task), Apply(cfg, h, op, now).0;
            task !in h'.claims && task !in h'.expired && OthersAsSwept(h, h', task, now) && h'.epochSeq == h.epochSeq
  {
    hide Strip, Beat, ReleaseRefusal;
    SweptIsRunning(h, op.agent, now);
  }

  /** The operator drops any claim that is there and not retained, lapsed or not, and touches nothing else. */
  lemma ForceReleaseMeans(cfg: Config, h: Hub, op: Op, now: real)
    requires op.ForceRelease?
    ensures var task := Strip(op.task);
            var (h', o) := Apply(cfg, h, op, now);
            && (o.Granted? <==> task != "" && task in h.claims && !Retained(h, task))
            && (o.Refused? ==> h' == h)
            && (o.Granted? ==> h' == h.(claims := h.claims - {task}, expired := h.expired - {task}))
  {
    hide Strip;
  }

  /** A handoff is granted to the running owner for another agent with room, if nothing retained or taken is in the way. */
  lemma HandoffVerdict(cfg: Config, h: Hub, op: Op, now: real)
    requires op.Handoff?
    ensures var task, target := Strip(op.task), Strip(op.target);
            Apply(cfg, h, op, now).1.Granted? <==>
            && task != "" && target != "" && target != op.agent && RunningFor(h, task, now, op.agent)
            && !Retained(h, task) && !RetainedFiles(h, h.claims[task].scope, cfg.u)
            && (op.epoch.None? || op.epoch.value == h.claims[task].epoch)
            && |Charges(h, target, now)| < cfg.maxClaims
            && !TakenFiles(h, task, target, h.claims[task].scope, now, cfg.u)
  {
    hide Strip, Beat, CustodyHoldsTask, CustodyBlocksScope, ScopeBlocked, ChargedTo, Charges, Retained, RetainedFiles, TakenFiles, MovedClaim;
    var task, target := Strip(op.task), Strip(op.target);
    SweptIsRunning(h, op.agent, now);
    if task in h.claims {
      GuardsMean(cfg, h, op.agent, now, task, h.claims[task].scope, target);
      BlockedMeans(cfg, h, op.agent, now, task, target, h.claims[task].scope);
    }
  }

  lemma HandoffEffect(cfg: Config, h: Hub, op: Op, now: real)
    requires op.Handoff? && Apply(cfg, h, op, now).1.Granted?
    ensures var task, target, h' := Strip(op.task), Strip(op.target), Apply(cfg, h, op, now).0;
            && task in h.claims && task in h'.claims && OthersAsSwept(h, h', task, now) && h'.epochSeq == h.epochSeq + 1
            && h'.lastSeen == h.lastSeen[op.agent := now][target := now]
            && var c, d := h.claims[task], h'.claims[task];
               && d.owner == target && d.epoch == d.ownershipEpoch == h.epochSeq + 1 && d.version == 0
               && d.claimedAt == now && d.expiresAt == now + cfg.defaultTtl
               && d.principal == (if c.principal != "" then c.principal else c.owner)
               && d.note == (if op.note.Some? then Strip(op.note.value) else c.note)
               && d.(owner := c.owner, epoch := c.epoch, ownershipEpoch := c.ownershipEpoch, version := c.version,
                     claimedAt := c.claimedAt, expiresAt := c.expiresAt, principal := c.principal, note := c.note) == c
  {
    hide Strip, Beat, CustodyHoldsTask, CustodyBlocksScope, ScopeBlocked, ChargedTo;
    SweptIsRunning(h, op.agent, now);
  }

  // ---------------------------------------------------------------- presence and custody

  /** A heartbeat records presence, a snapshot nothing; both only let lapsed leases go. */
  lemma PresenceMeans(cfg: Config, h: Hub, op: Op, now: real)
    requires op.Heartbeat? || op.Snapshot?
    ensures var (h', o) := Apply(cfg, h, op, now);
            && o.Granted? && h'.epochSeq == h.epochSeq && h'.custody == h.custody && h'.retained == h.retained
            && (forall t :: t in h'.claims <==> Running(h, t, now)) && (forall t :: t in h'.claims ==> h'.claims[t] == h.claims[t])
            && h'.lastSeen == if op.Heartbeat? then h.lastSeen[op.agent := now] else h.lastSeen
  {
    hide Lapsing;
  }

  /** A witness copies a claim that is there, as it is. */
  predicate Copies(h: Hub, w: Witness) {
    && w.task in h.claims
    && var c := h.claims[w.task];
       && w.owner == c.owner && w.epoch == c.epoch && w.version == c.version && w.expiresAt == c.expiresAt && w.scope == c.scope
  }

  /**
    * Custody is opened exactly for copies of current claims that nothing retained stands in
    * the way of, under an identity never used before and within the budget; it then retains
    * them. Settling an open reservation lets go of its custody, but not of its identity.
    */
  lemma CustodyVerdict(cfg: Config, h: Hub, id: string, witnesses: seq<Witness>, budget: int, now: real)
    requires forall t :: t in h.claims ==> h.claims[t].task == t
    ensures var (h', o) := Apply(cfg, h, OpenCustody(id, witnesses, budget), now);
            && (o.Granted? <==>
                  && witnesses != [] && id !in h.retained && id !in h.custody && |h.retained + h.custody.Keys| < budget
                  && forall w :: w in witnesses ==>
                       Copies(h, w) && !Retained(h, w.task) && !RetainedFiles(h, w.scope, cfg.u))
            && (o.Granted? ==> h' == h.(custody := h.custody[id := witnesses], retained := h.retained + {id}))
            && (o.Refused? ==> h' == h)
    ensures var (h', o) := Apply(cfg, h, SettleCustody(id), now);
            && (o.Granted? <==> id in h.custody)
            && (o.Granted? ==> h' == h.(custody := h.custody - {id})) && (o.Refused? ==> h' == h)
  {
    hide FreshWitnesses, Copies, Retained, RetainedFiles;
    FreshMeans(cfg, h, witnesses, now);
  }

  lemma FreshMeans(cfg: Config, h: Hub, witnesses: seq<Witness>, now: real)
    requires forall t :: t in h.claims ==> h.claims[t].task == t
    ensures FreshWitnesses(h, witnesses, cfg.u) <==>
            forall w :: w in witnesses ==> Copies(h, w) && !Retained(h, w.task) && !RetainedFiles(h, w.scope, cfg.u)
  {
    hide Conflict, CustodyBlocksScope, Retained, RetainedFiles;
    forall w | w in witnesses
      ensures CustodyBlocksScope(h.custody, w.task, w.scope, cfg.u) <==> Retained(h, w.task) || RetainedFiles(h, w.scope, cfg.u)
      ensures w.task in h.claims ==> (Capture(h.claims[w.task]) == w <==> Copies(h, w))
    {
      GuardsMean(cfg, h, "", now, w.task, w.scope, "");
    }
  }
}
