/**
  * Whose word a live claim obeys: while its lease runs, nobody but its owner and the
  * operator can take it, change it or end it, at any step and over any run.
  */
module LeaseOwnership {
  import opened Wrappers
  import opened PathIdentity
  import opened Strings
  import opened Scoping
  import opened Lease
  import opened LeaseGuarantees
  import opened LeaseVerdicts

  /** The task a request is about. */
  function About(op: Op): Option<string> {
    match op
    case Acquire(r) => Some(Strip(r.task))
    case Renew(_, task, _, _) => Some(Strip(task))
    case Update(_, task, _, _, _, _, _) => Some(task)
    case Checkpoint(_, task, _, _) => Some(Strip(task))
    case Release(_, task, _) => Some(Strip(task))
    case ForceRelease(task) => Some(Strip(task))
    case Handoff(_, task, _, _, _) => Some(Strip(task))
    case _ => None
  }

  /** The agent a request speaks for; the operator's and the hub's own have none. */
  function Speaker(op: Op): Option<string> {
    match op
    case Acquire(r) => Some(r.agent)
    case Renew(agent, _, _, _) => Some(agent)
    case Update(agent, _, _, _, _, _, _) => Some(agent)
    case Checkpoint(agent, _, _, _) => Some(agent)
    case Release(agent, _, _) => Some(agent)
    case Handoff(agent, _, _, _, _) => Some(agent)
    case Heartbeat(agent) => Some(agent)
    case _ => None
  }

  /** A request that is not a claim edits, moves or ends a claim that is there. */
  predicate NeedsOwner(op: Op) {
    op.Renew? || op.Update? || op.Checkpoint? || op.Release? || op.Handoff?
  }

  /** A claim on a task that another agent holds is refused while the lease runs, and leaves it alone. */
  lemma LiveClaimIsNotTaken(cfg: Config, h: Hub, r: ClaimRequest, now: real)
    requires Running(h, Strip(r.task), now) && (h.claims[Strip(r.task)].owner != r.agent || r.requireUnclaimed)
    ensures var t := Strip(r.task);
            var (h', o) := Apply(cfg, h, Acquire(r), now);
            o.Refused? && t in h'.claims && h'.claims[t] == h.claims[t]
  {
    hide DoAcquire, Strip, StoredScope, PrincipalOf, Running;
    AcquireVerdict(cfg, h, r, now);
    RefusedKeepsRunning(cfg, h, Acquire(r), now, Strip(r.task));
  }

  lemma RefusedKeepsRunning(cfg: Config, h: Hub, op: Op, now: real, t: string)
    requires Apply(cfg, h, op, now).1.Refused? && Running(h, t, now)
    ensures var h' := Apply(cfg, h, op, now).0;
            t in h'.claims && h'.claims[t] == h.claims[t]
  {
    hide Apply, Lapsing;
    RefusalChangesNothing(cfg, h, op, now);
  }

  /** Whoever does not hold a running lease on the task is refused, and the claim stays as it was. */
  lemma NonOwnerIsRefused(cfg: Config, h: Hub, op: Op, now: real)
    requires NeedsOwner(op) && !RunningFor(h, About(op).value, now, op.agent)
    ensures var t := About(op).value;
            var (h', o) := Apply(cfg, h, op, now);
            o.Refused? && (Running(h, t, now) ==> t in h'.claims && h'.claims[t] == h.claims[t])
  {
    hide DoRenew, DoUpdate, DoCheckpoint, DoRelease, DoHandoff, Strip, Running;
    match op {
      case Renew(_, _, _, _) => RenewVerdict(cfg, h, op, now);
      case Update(_, _, _, _, _, _, _) => UpdateVerdict(cfg, h, op, now);
      case Checkpoint(_, _, _, _) => CheckpointVerdict(cfg, h, op, now);
      case Release(_, _, _) => ReleaseVerdict(cfg, h, op, now);
      case Handoff(_, _, _, _, _) => HandoffVerdict(cfg, h, op, now);
    }
    if Running(h, About(op).value, now) {
      RefusedKeepsRunning(cfg, h, op, now, About(op).value);
    }
  }

  /** The step is its owner's granted request about the claim, or the operator's revocation of it. */
  predicate Authorised(cfg: Config, h: Hub, op: Op, now: real, t: string)
    requires t in h.claims
  {
    && Apply(cfg, h, op, now).1.Granted? && About(op) == Some(t)
    && (op.ForceRelease? || Speaker(op) == Some(h.claims[t].owner))
  }

  lemma GrantTouchesItsTask(cfg: Config, h: Hub, op: Op, now: real, t: string)
    requires Running(h, t, now) && Apply(cfg, h, op, now).1.Granted? && About(op) != Some(t)
    ensures var h' := Apply(cfg, h, op, now).0;
            t in h'.claims && h'.claims[t] == h.claims[t]
  {
    hide Apply, Strip, PrincipalOf, NormalizedPaths, LeaseSeconds;
    match op
    case Acquire(r) => AcquireEffect(cfg, h, r, now);
    case Renew(_, _, _, _) => RenewEffect(cfg, h, op, now);
    case Update(_, _, _, _, _, _, _) => UpdateEffect(cfg, h, op, now);
    case Checkpoint(_, _, _, _) => CheckpointEffect(cfg, h, op, now);
    case Release(_, _, _) => ReleaseEffect(cfg, h, op, now);
    case ForceRelease(_) => ForceReleaseMeans(cfg, h, op, now);
    case Handoff(_, _, _, _, _) => HandoffEffect(cfg, h, op, now);
    case Heartbeat(_) => PresenceMeans(cfg, h, op, now);
    case Snapshot => PresenceMeans(cfg, h, op, now);
    case OpenCustody(id, witnesses, budget) => CustodyLeavesClaims(cfg, h, op, now);
    case SettleCustody(id) => CustodyLeavesClaims(cfg, h, op, now);
  }

  lemma CustodyLeavesClaims(cfg: Config, h: Hub, op: Op, now: real)
    requires op.OpenCustody? || op.SettleCustody?
    ensures Apply(cfg, h, op, now).0.claims == h.claims
  {
    hide FreshWitnesses;
  }

  /** A running claim changes, moves or goes only by its owner's granted request or the operator's. */
  lemma OnlyAuthorisedStepsTouch(cfg: Config, h: Hub, op: Op, now: real, t: string)
    requires Running(h, t, now) && !Authorised(cfg, h, op, now, t)
    ensures var h' := Apply(cfg, h, op, now).0;
            t in h'.claims && h'.claims[t] == h.claims[t]
  {
    hide Apply, Strip;
    if Apply(cfg, h, op, now).1.Refused? {
      RefusedKeepsRunning(cfg, h, op, now, t);
    } else if About(op) != Some(t) {
      GrantTouchesItsTask(cfg, h, op, now, t);
    } else if op.Acquire? {
      LiveClaimIsNotTaken(cfg, h, op.request, now);
    } else {
      NonOwnerIsRefused(cfg, h, op, now);
    }
  }

  // ---------------------------------------------------------------- over runs

  /** Step `k` of the run meets the claim with its lease running, and is not authorised to touch it. */
  predicate LeavesAlone(cfg: Config, h: Hub, steps: seq<Step>, t: string, k: nat)
    requires k < |steps|
  {
    var before := Run(cfg, h, steps[..k]);
    Running(before, t, steps[k].now) ==> !Authorised(cfg, before, steps[k].op, steps[k].now, t)
  }

  /**
    * Over any run whose readings stay before its expiry, a claim is exactly as it was,
    * unless some step was its owner's granted request about it or the operator's revocation.
    */
  lemma {:induction false} UntouchedWithoutOwner(cfg: Config, h: Hub, steps: seq<Step>, t: string, n: nat)
    requires n <= |steps| && t in h.claims
    requires forall s :: s in steps ==> s.now < h.claims[t].expiresAt
    requires forall k: nat :: k < n ==> LeavesAlone(cfg, h, steps, t, k)
    ensures var h' := Run(cfg, h, steps[..n]);
            t in h'.claims && h'.claims[t] == h.claims[t]
  {
    hide Run, Apply, Authorised;
    if n == 0 {
      assert steps[..0] == [];
      RunStep(cfg, h, []);
    } else {
      UntouchedWithoutOwner(cfg, h, steps, t, n - 1);
      var before, step := Run(cfg, h, steps[..n - 1]), steps[n - 1];
      assert step in steps && LeavesAlone(cfg, h, steps, t, n - 1);
      RunNext(cfg, h, steps, n - 1);
      OnlyAuthorisedStepsTouch(cfg, before, step.op, step.now, t);
    }
  }

  /** The step meets the claim held by `owner` with its lease run out. */
  predicate Lapses(h: Hub, t: string, owner: string, now: real) {
    t in h.claims && h.claims[t].owner == owner && h.claims[t].expiresAt <= now
  }

  /** Its owner's granted release or handoff, or the operator's revocation. */
  predicate GivesUp(cfg: Config, h: Hub, op: Op, now: real, t: string, owner: string) {
    && Apply(cfg, h, op, now).1.Granted? && About(op) == Some(t)
    && (op.ForceRelease? || ((op.Release? || op.Handoff?) && op.agent == owner))
  }

  predicate KeepsHold(cfg: Config, h: Hub, steps: seq<Step>, t: string, owner: string, k: nat)
    requires k < |steps|
  {
    var before := Run(cfg, h, steps[..k]);
    !Lapses(before, t, owner, steps[k].now) && !GivesUp(cfg, before, steps[k].op, steps[k].now, t, owner)
  }

  lemma OwnerKeepsHold(cfg: Config, h: Hub, op: Op, now: real, t: string, owner: string)
    requires RunningFor(h, t, now, owner) && !GivesUp(cfg, h, op, now, t, owner)
    ensures var h' := Apply(cfg, h, op, now).0;
            t in h'.claims && h'.claims[t].owner == owner
  {
    hide Apply, Strip, PrincipalOf, NormalizedPaths, LeaseSeconds;
    if !Authorised(cfg, h, op, now, t) {
      OnlyAuthorisedStepsTouch(cfg, h, op, now, t);
    } else {
      match op
      case Acquire(r) => AcquireEffect(cfg, h, r, now);
      case Renew(_, _, _, _) => RenewEffect(cfg, h, op, now);
      case Update(_, _, _, _, _, _, _) => UpdateEffect(cfg, h, op, now);
      case Checkpoint(_, _, _, _) => CheckpointEffect(cfg, h, op, now);
      case _ =>
    }
  }

  /**
    * One owner per task, over runs: from a claim of one agent, the task stays that agent's
    * through every step, whoever asks for what, until the lease lapses unrenewed, the owner
    * is granted a release or a handoff, or the operator revokes it.
    */
  lemma {:induction false} OwnerChangesOnlyByOwner(cfg: Config, h: Hub, steps: seq<Step>, t: string, n: nat)
    requires n <= |steps| && t in h.claims
    requires forall k: nat :: k < n ==> KeepsHold(cfg, h, steps, t, h.claims[t].owner, k)
    ensures var h' := Run(cfg, h, steps[..n]);
            t in h'.claims && h'.claims[t].owner == h.claims[t].owner
  {
    hide Run, Apply, GivesUp;
    if n == 0 {
      assert steps[..0] == [];
      RunStep(cfg, h, []);
    } else {
      OwnerChangesOnlyByOwner(cfg, h, steps, t, n - 1);
      var before, step := Run(cfg, h, steps[..n - 1]), steps[n - 1];
      assert KeepsHold(cfg, h, steps, t, h.claims[t].owner, n - 1);
      RunNext(cfg, h, steps, n - 1);
      OwnerKeepsHold(cfg, before, step.op, step.now, t, h.claims[t].owner);
    }
  }
}
