/**
  * The cap on live claims, per agent. The hub counts claims by the principal they are
  * charged to, and a handed-over claim stays charged to whoever it was charged to before,
  * so an agent can own more than the cap: this module says when.
  */
module LeaseQuota {
  import opened Wrappers
  import opened PathIdentity
  import opened Strings
  import opened Scoping
  import opened Lease
  import opened LeaseInvariants

  function OwnedBy(claims: map<string, Claim>, agent: string): set<string> {
    set t | t in claims && claims[t].owner == agent
  }

  /** What an agent owns once the leases that lapsed by `now` are gone. */
  function OwnedAt(h: Hub, now: real, agent: string): set<string> {
    OwnedBy(Unexpired(h.claims, now), agent)
  }

  /** The step grants the agent a task it did not hold. */
  predicate Gains(cfg: Config, h: Hub, op: Op, now: real, agent: string) {
    && Apply(cfg, h, op, now).1.Granted?
    && match op
       case Acquire(r) => r.agent == agent && Strip(r.task) !in OwnedAt(h, now, agent)
       case Handoff(_, _, target, _, _) => Strip(target) == agent
       case _ => false
  }

  lemma AcquireOwned(cfg: Config, h: Hub, r: ClaimRequest, now: real)
    requires DoAcquire(cfg, h, r, now).1.Granted?
    ensures OwnedBy(DoAcquire(cfg, h, r, now).0.claims, r.agent) == OwnedAt(h, now, r.agent) + {Strip(r.task)}
  {
    hide Strip, Lapsing, StoredScope, ValidatesDisplayScope, AcquireRefusal, PrincipalOf, ResumeToken, ContinuationEpoch;
  }

  lemma HandoffOwned(cfg: Config, h: Hub, op: Op, now: real)
    requires op.Handoff? && DoHandoff(cfg, h, op, now).1.Granted?
    ensures var target, task := Strip(op.target), Strip(op.task);
            && task !in OwnedAt(h, now, target)
            && OwnedBy(DoHandoff(cfg, h, op, now).0.claims, target) == OwnedAt(h, now, target) + {task}
  {
    hide Strip, Lapsing, HandoffRefusal;
    MoveLeavesOther(cfg, Beat(h, op.agent, now), op);
  }

  lemma MoveLeavesOther(cfg: Config, h: Hub, op: Op)
    requires op.Handoff?
    requires HandoffRefusal(cfg, h, op.agent, Strip(op.task), Strip(op.target), op.epoch).None?
    ensures Strip(op.task) in h.claims && h.claims[Strip(op.task)].owner != Strip(op.target)
  {
    hide Strip, ScopeBlocked, CustodyBlocksScope, CustodyHoldsTask;
  }

  /**
    * A granted handoff leaves its recipient past the cap exactly when the recipient already
    * owned the cap; the guard of the hub counts what the recipient is charged with instead.
    */
  lemma HandoffPastCapIff(cfg: Config, h: Hub, op: Op, now: real)
    requires op.Handoff? && DoHandoff(cfg, h, op, now).1.Granted?
    ensures |OwnedBy(DoHandoff(cfg, h, op, now).0.claims, Strip(op.target))| > cfg.maxClaims <==>
            |OwnedAt(h, now, Strip(op.target))| >= cfg.maxClaims
  {
    hide OwnedBy, OwnedAt, DoHandoff, Strip;
    HandoffOwned(cfg, h, op, now);
  }

  /** A granted claim leaves its agent past the cap exactly when it was past it, or full and the task is new to it. */
  lemma AcquirePastCapIff(cfg: Config, h: Hub, r: ClaimRequest, now: real)
    requires DoAcquire(cfg, h, r, now).1.Granted?
    ensures var owned := OwnedAt(h, now, r.agent);
            |OwnedBy(DoAcquire(cfg, h, r, now).0.claims, r.agent)| > cfg.maxClaims <==>
            |owned| > cfg.maxClaims || (|owned| == cfg.maxClaims && Strip(r.task) !in owned)
  {
    hide OwnedBy, OwnedAt, DoAcquire, Strip;
    AcquireOwned(cfg, h, r, now);
    if Strip(r.task) in OwnedAt(h, now, r.agent) {
      assert OwnedAt(h, now, r.agent) + {Strip(r.task)} == OwnedAt(h, now, r.agent);
    }
  }

  /** A step that grants the agent nothing new leaves it with at most what it had. */
  lemma OthersOwnNoMore(cfg: Config, h: Hub, op: Op, now: real, agent: string)
    requires !Gains(cfg, h, op, now, agent)
    ensures OwnedBy(Apply(cfg, h, op, now).0.claims, agent) <= OwnedBy(h.claims, agent)
  {
    hide Apply, Strip, StoredScope, PrincipalOf, Payer;
    forall t | t in OwnedBy(Apply(cfg, h, op, now).0.claims, agent) ensures t in OwnedBy(h.claims, agent) {
      ClaimOrigin(cfg, h, op, now, t);
    }
  }

  /** The step grants the agent a task it did not hold while it owns the cap. */
  predicate Overfills(cfg: Config, h: Hub, op: Op, now: real, agent: string) {
    Gains(cfg, h, op, now, agent) && |OwnedAt(h, now, agent)| >= cfg.maxClaims
  }

  lemma StepWithinCapIff(cfg: Config, h: Hub, op: Op, now: real, agent: string)
    requires |OwnedBy(h.claims, agent)| <= cfg.maxClaims
    ensures |OwnedBy(Apply(cfg, h, op, now).0.claims, agent)| <= cfg.maxClaims <==> !Overfills(cfg, h, op, now, agent)
  {
    hide OwnedBy, OwnedAt, DoHandoff, DoAcquire, Strip;
    if !Gains(cfg, h, op, now, agent) {
      OthersOwnNoMore(cfg, h, op, now, agent);
      SubsetSize(OwnedBy(Apply(cfg, h, op, now).0.claims, agent), OwnedBy(h.claims, agent));
    } else if op.Handoff? {
      HandoffPastCapIff(cfg, h, op, now);
    } else {
      SweptOwned(h, now, agent);
      AcquirePastCapIff(cfg, h, op.request, now);
    }
  }

  lemma SweptOwned(h: Hub, now: real, agent: string)
    ensures |OwnedAt(h, now, agent)| <= |OwnedBy(h.claims, agent)|
  {
    SubsetSize(OwnedAt(h, now, agent), OwnedBy(h.claims, agent));
  }

  /** After `k` steps of a run the agent owns at most the cap. */
  predicate WithinCapAt(cfg: Config, h: Hub, steps: seq<Step>, agent: string, k: nat)
    requires k <= |steps|
  {
    |OwnedBy(Run(cfg, h, steps[..k]).claims, agent)| <= cfg.maxClaims
  }

  predicate OverfilledAt(cfg: Config, h: Hub, steps: seq<Step>, agent: string, k: nat)
    requires k < |steps|
  {
    Overfills(cfg, Run(cfg, h, steps[..k]), steps[k].op, steps[k].now, agent)
  }

  lemma NextWithinCapIff(cfg: Config, h: Hub, steps: seq<Step>, agent: string, k: nat)
    requires k < |steps| && WithinCapAt(cfg, h, steps, agent, k)
    ensures WithinCapAt(cfg, h, steps, agent, k + 1) <==> !OverfilledAt(cfg, h, steps, agent, k)
  {
    hide Run, Apply, OwnedBy, Overfills;
    RunNext(cfg, h, steps, k);
    StepWithinCapIff(cfg, Run(cfg, h, steps[..k]), steps[k].op, steps[k].now, agent);
  }

  lemma {:induction false} WithinCapUpTo(cfg: Config, h: Hub, steps: seq<Step>, agent: string, k: nat)
    requires k <= |steps| && |OwnedBy(h.claims, agent)| <= cfg.maxClaims
    requires forall j: nat :: j < |steps| ==> !OverfilledAt(cfg, h, steps, agent, j)
    ensures WithinCapAt(cfg, h, steps, agent, k)
  {
    hide OverfilledAt;
    if k == 0 {
      assert steps[..0] == [];
    } else {
      WithinCapUpTo(cfg, h, steps, agent, k - 1);
      NextWithinCapIff(cfg, h, steps, agent, k - 1);
    }
  }

  /**
    * An agent stays within the cap throughout a run exactly when no step of it grants the
    * agent a task it did not hold while it owned the cap.
    */
  lemma WithinCapIff(cfg: Config, h: Hub, steps: seq<Step>, agent: string)
    requires |OwnedBy(h.claims, agent)| <= cfg.maxClaims
    ensures (forall k: nat :: k <= |steps| ==> WithinCapAt(cfg, h, steps, agent, k)) <==>
            (forall k: nat :: k < |steps| ==> !OverfilledAt(cfg, h, steps, agent, k))
  {
    hide OverfilledAt, WithinCapAt, OwnedBy;
    if forall k: nat :: k <= |steps| ==> WithinCapAt(cfg, h, steps, agent, k) {
      forall k: nat | k < |steps| ensures !OverfilledAt(cfg, h, steps, agent, k) {
        NextWithinCapIff(cfg, h, steps, agent, k);
      }
    }
    if forall k: nat :: k < |steps| ==> !OverfilledAt(cfg, h, steps, agent, k) {
      forall k: nat | k <= |steps| ensures WithinCapAt(cfg, h, steps, agent, k) {
        WithinCapUpTo(cfg, h, steps, agent, k);
      }
    }
  }

  /** The agent claims under one principal only, and nobody hands anything over to it. */
  predicate OneBucket(op: Op, agent: string, principal: string) {
    && (op.Acquire? && op.request.agent == agent ==> PrincipalOf(agent, op.request.principal) == principal)
    && (op.Handoff? ==> Strip(op.target) != agent)
  }

  ghost predicate PaysFrom(h: Hub, agent: string, principal: string) {
    forall t :: t in h.claims && h.claims[t].owner == agent ==> Payer(h.claims[t]) == principal
  }

  lemma {:induction false} RunPaysFrom(cfg: Config, h: Hub, steps: seq<Step>, agent: string, principal: string)
    requires PaysFrom(h, agent, principal) && forall s :: s in steps ==> OneBucket(s.op, agent, principal)
    ensures PaysFrom(Run(cfg, h, steps), agent, principal)
    decreases steps
  {
    hide Apply, PrincipalOf, Payer, Strip, StoredScope;
    if steps != [] {
      var s, h' := steps[0], Apply(cfg, h, steps[0].op, steps[0].now).0;
      forall t | t in h'.claims && h'.claims[t].owner == agent ensures Payer(h'.claims[t]) == principal {
        ClaimOrigin(cfg, h, s.op, s.now, t);
        assert OneBucket(s.op, agent, principal);
      }
      RunPaysFrom(cfg, h', steps[1..], agent, principal);
    }
  }

  /** An agent that claims under one principal and receives nothing owns at most the cap. */
  lemma AgentWithinCap(cfg: Config, steps: seq<Step>, agent: string, principal: string)
    requires ValidConfig(cfg) && forall s :: s in steps ==> OneBucket(s.op, agent, principal)
    ensures |OwnedBy(Run(cfg, EMPTY, steps).claims, agent)| <= cfg.maxClaims
  {
    hide Run, Conflict, OneBucket, Payer;
    EveryRunIsSafe(cfg, steps);
    RunPaysFrom(cfg, EMPTY, steps, agent, principal);
    var claims := Run(cfg, EMPTY, steps).claims;
    SubsetSize(OwnedBy(claims, agent), ChargedTo(claims, principal));
  }
}
