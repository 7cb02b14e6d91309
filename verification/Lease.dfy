/**
  * The lease protocol as functions on a hub value: what each operation of the
  * coordination state grants, refuses and leaves behind.
  *
  * `SynapseState.dfy` proves that the stateful registry computes these functions.
  */
module Lease {
  import opened Wrappers
  import opened Strings
  import opened Scoping
  import opened PathIdentity

  const MINIMUM_TTL_SECONDS := 30.0
  const MAXIMUM_TTL_SECONDS := 2592000.0

  // ---------------------------------------------------------------- data

  datatype GitContext = GitContext(branch: string, base: string, autoReleaseOn: string)

  datatype Claim = Claim(
    task: string, owner: string, note: string, claimedAt: real, expiresAt: real, principal: string,
    status: string, dataRef: string, scope: Scope, epoch: nat, version: nat, checkpoint: string,
    git: Option<GitContext>, ownershipEpoch: nat)

  /** An immutable copy of a claim that a protected reservation holds on to. */
  datatype Witness = Witness(task: string, owner: string, epoch: nat, version: nat, expiresAt: real, scope: Scope)

  datatype Hub = Hub(
    claims: map<string, Claim>, epochSeq: nat, expired: map<string, string>, lastSeen: map<string, real>,
    custody: map<string, seq<Witness>>, retained: set<string>)

  datatype Config = Config(defaultTtl: real, maxClaims: nat, maxPaths: nat, u: Unicode)

  predicate ValidConfig(cfg: Config) {
    && MINIMUM_TTL_SECONDS <= cfg.defaultTtl <= MAXIMUM_TTL_SECONDS
    && cfg.maxClaims >= 1 && cfg.maxPaths >= 1
  }

  const EMPTY := Hub(map[], 0, map[], map[], map[], {})

  datatype Refusal =
    | TaskIdRequired | TargetRequired | IdentityMismatch | CustodyHeld | AlreadyClaimed | ScopeTaken
    | QuotaExceeded | NotClaimed | NotOwner | StaleEpoch | VersionConflict | IllegalTransition
    | SelfHandoff | RenewalLost | PathsDiffer | CustodyRefused

  datatype Outcome = Granted | Refused(why: Refusal)

  datatype ClaimRequest = ClaimRequest(
    agent: string, task: string, note: string, ttl: Option<real>, principal: Option<string>,
    scope: Scope, git: Option<GitContext>, requireUnclaimed: bool)

  /** A claim request without note, lease length, principal, identity or branch. */
  function Ask(agent: string, task: string, worktree: string, paths: seq<string>): ClaimRequest {
    ClaimRequest(agent, task, "", None, None, Scope(worktree, paths, None), None, false)
  }

  datatype Op =
    | Acquire(request: ClaimRequest)
    | Renew(agent: string, task: string, generation: int, paths: seq<string>)
    | Update(agent: string, task: string, status: Option<string>, note: Option<string>,
             dataRef: Option<string>, epoch: Option<int>, version: Option<int>)
    | Checkpoint(agent: string, task: string, checkpoint: string, epoch: Option<int>)
    | Release(agent: string, task: string, epoch: Option<int>)
    | ForceRelease(task: string)
    | Handoff(agent: string, task: string, target: string, note: Option<string>, epoch: Option<int>)
    | Heartbeat(agent: string)
    | Snapshot
    | OpenCustody(id: string, witnesses: seq<Witness>, budget: int)
    | SettleCustody(id: string)

  // ---------------------------------------------------------------- small rules

  function ClampTtl(seconds: real): (r: real)
    ensures MINIMUM_TTL_SECONDS <= r <= MAXIMUM_TTL_SECONDS
  {
    var floored := if seconds < MINIMUM_TTL_SECONDS then MINIMUM_TTL_SECONDS else seconds;
    if floored > MAXIMUM_TTL_SECONDS then MAXIMUM_TTL_SECONDS else floored
  }

  function LeaseSeconds(cfg: Config, ttl: Option<real>): real {
    if ttl.Some? then ClampTtl(ttl.value) else cfg.defaultTtl
  }

  const ALL_STATUSES := {"claimed", "working", "input_required", "done", "failed"}

  /** The lifecycle table: terminal statuses move nowhere, re-affirming is always legal. */
  predicate CanTransition(current: string, target: string) {
    && target in ALL_STATUSES
    && (|| current == target
        || (current == "claimed" && target in {"working", "done", "failed"})
        || (current == "working" && target in {"input_required", "done", "failed"})
        || (current == "input_required" && target in {"working", "done", "failed"}))
  }

  /** The bucket a claim is charged to. */
  function Payer(c: Claim): string {
    if c.principal != "" then c.principal else c.owner
  }

  function ChargedTo(claims: map<string, Claim>, principal: string): set<string> {
    set t | t in claims && Payer(claims[t]) == principal
  }

  /** Some other claim, held by someone other than `agent`, contends with the scope. */
  predicate Contends(claims: map<string, Claim>, other: string, task: string, agent: string, scope: Scope, u: Unicode)
    requires other in claims
  {
    other != task && claims[other].owner != agent && Conflict(scope, claims[other].scope, u)
  }

  predicate ScopeBlocked(claims: map<string, Claim>, task: string, agent: string, scope: Scope, u: Unicode) {
    exists other :: other in claims && Contends(claims, other, task, agent, scope, u)
  }

  predicate WitnessBlocks(w: Witness, task: string, scope: Scope, u: Unicode) {
    w.task == task || Conflict(scope, w.scope, u)
  }

  predicate CustodyBlocksScope(custody: map<string, seq<Witness>>, task: string, scope: Scope, u: Unicode) {
    exists id, w :: id in custody && w in custody[id] && WitnessBlocks(w, task, scope, u)
  }

  predicate CustodyHoldsTask(custody: map<string, seq<Witness>>, task: string) {
    exists id, w :: id in custody && w in custody[id] && w.task == task
  }

  function Capture(c: Claim): Witness {
    Witness(c.task, c.owner, c.epoch, c.version, c.expiresAt, c.scope)
  }

  // ---------------------------------------------------------------- expiry

  function Unexpired(claims: map<string, Claim>, now: real): map<string, Claim> {
    map t | t in claims && claims[t].expiresAt > now :: claims[t]
  }

  /** Checkpoints that outlive the leases lapsing at `now`. */
  function Lapsing(claims: map<string, Claim>, now: real): map<string, string> {
    map t | t in claims && claims[t].expiresAt <= now && claims[t].checkpoint != "" :: claims[t].checkpoint
  }

  /** Drops every claim whose lease has reached or passed `now`, keeping its checkpoint. */
  function Sweep(h: Hub, now: real): Hub {
    h.(claims := Unexpired(h.claims, now), expired := h.expired + Lapsing(h.claims, now))
  }

  function Beat(h: Hub, agent: string, now: real): Hub {
    Sweep(h.(lastSeen := h.lastSeen[agent := now]), now)
  }

  // ---------------------------------------------------------------- operations

  function PrincipalOf(agent: string, principal: Option<string>): string {
    var chosen := if principal.Some? && principal.value != "" then principal.value else agent;
    if Strip(chosen) != "" then Strip(chosen) else agent
  }

  /** The task is live and this agent already holds it. */
  predicate Continues(h: Hub, task: string, agent: string) {
    task in h.claims && h.claims[task].owner == agent
  }

  predicate QuotaFree(cfg: Config, h: Hub, agent: string, task: string, principal: string) {
    || (Continues(h, task, agent) && Payer(h.claims[task]) == principal)
    || |ChargedTo(h.claims, principal)| < cfg.maxClaims
  }

  /** The anchor of uninterrupted ownership: kept only for an unchanged owner and exact scope. */
  function ContinuationEpoch(h: Hub, task: string, agent: string, scope: Scope, issued: nat): nat {
    var anchor :=
      if !Continues(h, task, agent) || h.claims[task].scope != scope then 0
      else if h.claims[task].ownershipEpoch != 0 then h.claims[task].ownershipEpoch
      else h.claims[task].epoch;
    if anchor == 0 then issued else anchor
  }

  function ResumeToken(h: Hub, task: string, agent: string): string {
    if Continues(h, task, agent) then h.claims[task].checkpoint
    else if task in h.expired then h.expired[task] else ""
  }

  /** Why a claim is refused once stale leases are gone, in the order the guards run. */
  function AcquireRefusal(cfg: Config, h: Hub, r: ClaimRequest, task: string, scope: Scope,
          now: real): Option<Refusal> {
    if CustodyBlocksScope(h.custody, task, scope, cfg.u) then Some(CustodyHeld)
    else if task in h.claims && (r.requireUnclaimed || h.claims[task].owner != r.agent) && h.claims[task].expiresAt > now
    then Some(AlreadyClaimed)
    else if ScopeBlocked(h.claims, task, r.agent, scope, cfg.u) then Some(ScopeTaken)
    else if !QuotaFree(cfg, h, r.agent, task, PrincipalOf(r.agent, r.principal)) then Some(QuotaExceeded)
    else None
  }

  function StoredScope(cfg: Config, scope: Scope): Scope {
    scope.(paths := NormalizedPaths(scope.paths, cfg.maxPaths, cfg.u.printable))
  }

  function GrantedClaim(cfg: Config, h: Hub, r: ClaimRequest, task: string, scope: Scope, now: real): Claim {
    var epoch := h.epochSeq + 1;
    Claim(task, r.agent, Strip(r.note), now, now + LeaseSeconds(cfg, r.ttl), PrincipalOf(r.agent, r.principal),
          "claimed", "", scope, epoch, 0, ResumeToken(h, task, r.agent), r.git,
          ContinuationEpoch(h, task, r.agent, scope, epoch))
  }

  /** Stores a granted claim; a new holder consumes the task's retained checkpoint. */
  function Install(h: Hub, c: Claim): Hub {
    h.(claims := h.claims[c.task := c], epochSeq := c.epoch,
       expired := if Continues(h, c.task, c.owner) then h.expired else h.expired - {c.task})
  }

  function DoAcquire(cfg: Config, h: Hub, r: ClaimRequest, now: real): (Hub, Outcome) {
    var task, scope := Strip(r.task), StoredScope(cfg, r.scope);
    if task == "" then (h, Refused(TaskIdRequired))
    else if scope.identity.Some? && !ValidatesDisplayScope(scope.identity.value, scope.worktree, scope.paths, cfg.u)
    then (h, Refused(IdentityMismatch))
    else
      var s := Beat(h, r.agent, now);
      match AcquireRefusal(cfg, s, r, task, scope, now)
      case Some(why) => (s, Refused(why))
      case None => (Install(s, GrantedClaim(cfg, s, r, task, scope, now)), Granted)
  }

  /** The fenced renewal: it keeps epoch and scope, and moves the lease without changing its length. */
  function DoRenew(cfg: Config, h: Hub, agent: string, taskId: string, epoch: int, paths: seq<string>,
          now: real): (Hub, Outcome) {
    var task, s := Strip(taskId), Beat(h, agent, now);
    if task !in s.claims || s.claims[task].owner != agent ||
       (epoch != s.claims[task].epoch && epoch != s.claims[task].ownershipEpoch)
    then (s, Refused(RenewalLost))
    else if CustodyHoldsTask(s.custody, task) then (s, Refused(CustodyHeld))
    else if s.claims[task].scope.paths != paths then (s, Refused(PathsDiffer))
    else
      var c := s.claims[task];
      (s.(claims := s.claims[task := c.(claimedAt := now, expiresAt := now + (c.expiresAt - c.claimedAt))]), Granted)
  }

  /** The guards an owner's in-place edit passes: custody, existence, ownership, fencing epoch. */
  function OwnerRefusal(h: Hub, agent: string, task: string, epoch: Option<int>): Option<Refusal> {
    if CustodyHoldsTask(h.custody, task) then Some(CustodyHeld)
    else if task !in h.claims then Some(NotClaimed)
    else if h.claims[task].owner != agent then Some(NotOwner)
    else if epoch.Some? && epoch.value != h.claims[task].epoch then Some(StaleEpoch)
    else None
  }

  predicate Truthy(text: Option<string>) {
    text.Some? && text.value != ""
  }

  function DoUpdate(h: Hub, op: Op, now: real): (Hub, Outcome)
    requires op.Update?
  {
    var task, s := op.task, Beat(h, op.agent, now);
    match OwnerRefusal(s, op.agent, task, op.epoch)
    case Some(why) => (s, Refused(why))
    case None =>
      var c := s.claims[task];
      if op.version.Some? && op.version.value != c.version then (s, Refused(VersionConflict))
      else if Truthy(op.status) && !CanTransition(c.status, op.status.value) then (s, Refused(IllegalTransition))
      else
        (s.(claims := s.claims[task := c.(
              status := if Truthy(op.status) then op.status.value else c.status,
              note := if op.note.Some? then Strip(op.note.value) else c.note,
              dataRef := if op.dataRef.Some? then Strip(op.dataRef.value) else c.dataRef,
              version := c.version + 1)]), Granted)
  }

  function DoCheckpoint(h: Hub, agent: string, taskId: string, checkpoint: string, epoch: Option<int>,
          now: real): (Hub, Outcome) {
    var task, s := Strip(taskId), Beat(h, agent, now);
    match OwnerRefusal(s, agent, task, epoch)
    case Some(why) => (s, Refused(why))
    case None =>
      var c := s.claims[task];
      (s.(claims := s.claims[task := c.(checkpoint := checkpoint, version := c.version + 1)]), Granted)
  }

  function Drop(h: Hub, task: string): Hub {
    h.(claims := h.claims - {task}, expired := h.expired - {task})
  }

  /** A release runs the same guards, but reports an unclaimed task before its custody. */
  function ReleaseRefusal(h: Hub, agent: string, task: string, epoch: Option<int>): Option<Refusal> {
    if task !in h.claims then Some(NotClaimed) else OwnerRefusal(h, agent, task, epoch)
  }

  function DoRelease(h: Hub, agent: string, taskId: string, epoch: Option<int>, now: real): (Hub, Outcome) {
    var task := Strip(taskId);
    if task == "" then (h, Refused(TaskIdRequired))
    else
      var s := Beat(h, agent, now);
      match ReleaseRefusal(s, agent, task, epoch)
      case Some(why) => (s, Refused(why))
      case None => (Drop(s, task), Granted)
  }

  /** The operator's revocation: no owner check, no heartbeat and no sweep. */
  function DoForceRelease(h: Hub, taskId: string): (Hub, Outcome) {
    var task := Strip(taskId);
    if task == "" then (h, Refused(TaskIdRequired))
    else if task !in h.claims then (h, Refused(NotClaimed))
    else if CustodyHoldsTask(h.custody, task) then (h, Refused(CustodyHeld))
    else (Drop(h, task), Granted)
  }

  function HandoffRefusal(cfg: Config, h: Hub, agent: string, task: string, target: string,
          epoch: Option<int>): Option<Refusal> {
    if task !in h.claims then Some(NotClaimed)
    else
      var c := h.claims[task];
      if CustodyHoldsTask(h.custody, task) then Some(CustodyHeld)
      else if c.owner != agent then Some(NotOwner)
      else if target == agent then Some(SelfHandoff)
      else if epoch.Some? && epoch.value != c.epoch then Some(StaleEpoch)
      else if CustodyBlocksScope(h.custody, task, c.scope, cfg.u) then Some(CustodyHeld)
      else if |ChargedTo(h.claims, target)| >= cfg.maxClaims then Some(QuotaExceeded)
      else if ScopeBlocked(h.claims, task, target, c.scope, cfg.u) then Some(ScopeTaken)
      else None
  }

  /** The moved claim keeps scope, status and context; owner, epoch, lease and version are new. */
  function MovedClaim(cfg: Config, h: Hub, c: Claim, target: string, note: Option<string>, now: real): Claim {
    c.(owner := target, note := if note.Some? then Strip(note.value) else c.note,
       claimedAt := now, expiresAt := now + cfg.defaultTtl, principal := Payer(c),
       epoch := h.epochSeq + 1, ownershipEpoch := h.epochSeq + 1, version := 0)
  }

  function DoHandoff(cfg: Config, h: Hub, op: Op, now: real): (Hub, Outcome)
    requires op.Handoff?
  {
    var task, target := Strip(op.task), Strip(op.target);
    if task == "" then (h, Refused(TaskIdRequired))
    else if target == "" then (h, Refused(TargetRequired))
    else
      var s := Beat(h, op.agent, now);
      match HandoffRefusal(cfg, s, op.agent, task, target, op.epoch)
      case Some(why) => (s, Refused(why))
      case None =>
        var moved := MovedClaim(cfg, s, s.claims[task], target, op.note, now);
        (s.(claims := s.claims[task := moved], epochSeq := moved.epoch, lastSeen := s.lastSeen[target := now]), Granted)
  }

  /** Every witness is a current claim, and none overlaps custody that is already out. */
  predicate FreshWitnesses(h: Hub, witnesses: seq<Witness>, u: Unicode) {
    forall w :: w in witnesses ==>
      && w.task in h.claims && Capture(h.claims[w.task]) == w
      && !CustodyBlocksScope(h.custody, w.task, w.scope, u)
  }

  function DoOpenCustody(cfg: Config, h: Hub, id: string, witnesses: seq<Witness>, budget: int): (Hub, Outcome) {
    if budget <= 0 || id in h.retained || id in h.custody || |h.retained + h.custody.Keys| >= budget ||
       witnesses == [] || !FreshWitnesses(h, witnesses, cfg.u)
    then (h, Refused(CustodyRefused))
    else (h.(custody := h.custody[id := witnesses], retained := h.retained + {id}), Granted)
  }

  function DoSettleCustody(h: Hub, id: string): (Hub, Outcome) {
    if id !in h.custody then (h, Refused(CustodyRefused))
    else (h.(custody := h.custody - {id}), Granted)
  }

  function Apply(cfg: Config, h: Hub, op: Op, now: real): (Hub, Outcome) {
    match op
    case Acquire(r) => DoAcquire(cfg, h, r, now)
    case Renew(agent, task, generation, paths) => DoRenew(cfg, h, agent, task, generation, paths, now)
    case Update(_, _, _, _, _, _, _) => DoUpdate(h, op, now)
    case Checkpoint(agent, task, checkpoint, epoch) => DoCheckpoint(h, agent, task, checkpoint, epoch, now)
    case Release(agent, task, epoch) => DoRelease(h, agent, task, epoch, now)
    case ForceRelease(task) => DoForceRelease(h, task)
    case Handoff(_, _, _, _, _) => DoHandoff(cfg, h, op, now)
    case Heartbeat(agent) => (Beat(h, agent, now), Granted)
    case Snapshot => (Sweep(h, now), Granted)
    case OpenCustody(id, witnesses, budget) => DoOpenCustody(cfg, h, id, witnesses, budget)
    case SettleCustody(id) => DoSettleCustody(h, id)
  }

  /** One step of a run: an operation and the hub clock reading it sees. */
  datatype Step = Step(op: Op, now: real)

  function Run(cfg: Config, h: Hub, steps: seq<Step>): Hub
    decreases steps
  {
    if steps == [] then h else Run(cfg, Apply(cfg, h, steps[0].op, steps[0].now).0, steps[1..])
  }

  /** One unfolding of a run. */
  lemma RunStep(cfg: Config, h: Hub, steps: seq<Step>)
    ensures Run(cfg, h, []) == h
    ensures steps != [] ==> Run(cfg, h, steps) == Run(cfg, Apply(cfg, h, steps[0].op, steps[0].now).0, steps[1..])
  {
    hide Apply;
  }

  lemma {:induction false} RunAppend(cfg: Config, h: Hub, first: seq<Step>, rest: seq<Step>)
    ensures Run(cfg, h, first + rest) == Run(cfg, Run(cfg, h, first), rest)
    decreases first
  {
    hide Apply;
    if first == [] {
      assert first + rest == rest;
    } else {
      assert (first + rest)[1..] == first[1..] + rest;
      RunAppend(cfg, Apply(cfg, h, first[0].op, first[0].now).0, first[1..], rest);
    }
  }

  lemma RunNext(cfg: Config, h: Hub, steps: seq<Step>, k: nat)
    requires k < |steps|
    ensures Run(cfg, h, steps[..k + 1]) == Apply(cfg, Run(cfg, h, steps[..k]), steps[k].op, steps[k].now).0
  {
    hide Apply, Run;
    assert steps[..k + 1] == steps[..k] + [steps[k]] && [steps[k]][1..] == [];
    RunAppend(cfg, h, steps[..k], [steps[k]]);
    RunStep(cfg, Run(cfg, h, steps[..k]), [steps[k]]);
    RunStep(cfg, Apply(cfg, Run(cfg, h, steps[..k]), steps[k].op, steps[k].now).0, []);
  }
}
