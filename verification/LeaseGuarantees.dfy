/**
  * What agents may rely on: fencing over whole runs, atomic handoff, and what a refusal
  * leaves alone.
  */
module LeaseGuarantees {
  import opened Wrappers
  import opened PathIdentity
  import opened Strings
  import opened Scoping
  import opened Lease
  import opened LeaseInvariants

  // ---------------------------------------------------------------- refusals

  /** Everything a hub decides by; heartbeats are presence, not authority. */
  function Authority(h: Hub): Hub {
    h.(lastSeen := map[])
  }

  /** The state is as before, or as before with the leases lapsed at `now` dropped. */
  ghost predicate OnlySwept(h: Hub, h': Hub, now: real) {
    Authority(h') == Authority(h) || Authority(h') == Authority(Sweep(h, now))
  }

  /** A refusal changes no authority beyond dropping the leases that had lapsed anyway. */
  lemma RefusalChangesNothing(cfg: Config, h: Hub, op: Op, now: real)
    requires Apply(cfg, h, op, now).1.Refused?
    ensures OnlySwept(h, Apply(cfg, h, op, now).0, now)
  {
    hide OnlySwept, Beat, Strip, OwnerRefusal, HandoffRefusal, AcquireRefusal, ReleaseRefusal, CustodyHoldsTask;
    BeatOnlySweeps(h, "", now);
    forall agent ensures OnlySwept(h, Beat(h, agent, now), now) {
      BeatOnlySweeps(h, agent, now);
    }
  }

  lemma BeatOnlySweeps(h: Hub, agent: string, now: real)
    ensures OnlySwept(h, h, now) && OnlySwept(h, Beat(h, agent, now), now)
  {
  }

  lemma SweptHolds(claims: map<string, Claim>, now: real)
    ensures Unexpired(Unexpired(claims, now), now) == Unexpired(claims, now)
    ensures Lapsing(Unexpired(claims, now), now) == map[]
  {
  }

  lemma SweepIsIdempotent(h: Hub, now: real)
    ensures Sweep(Sweep(h, now), now) == Sweep(h, now)
  {
    hide Unexpired, Lapsing;
    SweptHolds(h.claims, now);
  }

  // ---------------------------------------------------------------- epochs

  predicate IssuesEpoch(op: Op, o: Outcome) {
    o.Granted? && (op.Acquire? || op.Handoff?)
  }

  /** A step issues the next epoch when it grants a claim or handoff, and none otherwise. */
  lemma StepEpoch(cfg: Config, h: Hub, op: Op, now: real)
    ensures var (h', o) := Apply(cfg, h, op, now);
            h'.epochSeq == h.epochSeq + if IssuesEpoch(op, o) then 1 else 0
  {
    hide Unexpired, Lapsing, Strip, OwnerRefusal, HandoffRefusal, AcquireRefusal, ReleaseRefusal, CustodyHoldsTask;
  }

  /** A claim carries its old epoch and anchor, or the epoch just issued. */
  ghost predicate EpochCarried(h: Hub, h': Hub, t: string)
    requires t in h'.claims
  {
    var c := h'.claims[t];
    || (t in h.claims && c.epoch == h.claims[t].epoch && c.ownershipEpoch == h.claims[t].ownershipEpoch)
    || (&& c.epoch == h'.epochSeq == h.epochSeq + 1
        && (c.ownershipEpoch == c.epoch || (t in h.claims && c.ownershipEpoch == h.claims[t].ownershipEpoch)))
  }

  ghost predicate EpochsCarried(h: Hub, h': Hub) {
    forall t :: t in h'.claims ==> EpochCarried(h, h', t)
  }

  lemma AcquireCarriesEpochs(cfg: Config, h: Hub, r: ClaimRequest, now: real)
    requires EpochsIssued(h)
    ensures EpochsCarried(h, DoAcquire(cfg, h, r, now).0)
  {
    hide Strip, Lapsing, AcquireRefusal;
  }

  lemma HandoffCarriesEpochs(cfg: Config, h: Hub, op: Op, now: real)
    requires op.Handoff?
    ensures EpochsCarried(h, DoHandoff(cfg, h, op, now).0)
  {
    hide Strip, Lapsing, Conflict, ScopeBlocked, CustodyHoldsTask, CustodyBlocksScope, ChargedTo;
  }

  lemma EditsCarryEpochs(cfg: Config, h: Hub, op: Op, now: real)
    requires op.Renew? || op.Update? || op.Checkpoint?
    ensures EpochsCarried(h, Apply(cfg, h, op, now).0)
  {
    hide Strip, Lapsing, CustodyHoldsTask, CanTransition;
  }

  /** Each claim after a step carries its old epoch and anchor, or the epoch just issued. */
  lemma StepCarriesEpochs(cfg: Config, h: Hub, op: Op, now: real)
    requires EpochsIssued(h)
    ensures EpochsCarried(h, Apply(cfg, h, op, now).0)
  {
    if op.Acquire? {
      AcquireCarriesEpochs(cfg, h, op.request, now);
    } else if op.Handoff? {
      HandoffCarriesEpochs(cfg, h, op, now);
    } else if op.Renew? || op.Update? || op.Checkpoint? {
      EditsCarryEpochs(cfg, h, op, now);
    } else {
      hide Strip, Lapsing, ReleaseRefusal, CustodyHoldsTask, FreshWitnesses;
    }
  }

  /** The epochs a run issues, in order. */
  function Issued(cfg: Config, h: Hub, steps: seq<Step>): seq<nat>
    decreases steps
  {
    if steps == [] then []
    else
      var (h', o) := Apply(cfg, h, steps[0].op, steps[0].now);
      (if IssuesEpoch(steps[0].op, o) then [h'.epochSeq] else []) + Issued(cfg, h', steps[1..])
  }

  /** Over a whole run the issued epochs are consecutive: strictly increasing, none skipped or reused. */
  lemma {:induction false} EpochsAreConsecutive(cfg: Config, h: Hub, steps: seq<Step>)
    ensures var issued, final := Issued(cfg, h, steps), Run(cfg, h, steps);
            && final.epochSeq == h.epochSeq + |issued|
            && forall k :: 0 <= k < |issued| ==> issued[k] == h.epochSeq + 1 + k
    decreases steps
  {
    hide Apply;
    if steps != [] {
      StepEpoch(cfg, h, steps[0].op, steps[0].now);
      EpochsAreConsecutive(cfg, Apply(cfg, h, steps[0].op, steps[0].now).0, steps[1..]);
    }
  }

  ghost predicate NoLiveEpoch(h: Hub, e: int) {
    forall t :: t in h.claims ==> h.claims[t].epoch != e
  }

  ghost predicate NoLiveAnchor(h: Hub, e: int) {
    forall t :: t in h.claims ==> h.claims[t].epoch != e && h.claims[t].ownershipEpoch != e
  }

  lemma InvEpochs(cfg: Config, h: Hub)
    requires Inv(cfg, h)
    ensures EpochsIssued(h)
  {
  }

  lemma DeadEpochsStayDead(h: Hub, h': Hub, e: int)
    requires EpochsCarried(h, h') && e <= h.epochSeq && NoLiveEpoch(h, e)
    ensures NoLiveEpoch(h', e) && (NoLiveAnchor(h, e) ==> NoLiveAnchor(h', e))
  {
    forall t | t in h'.claims
      ensures h'.claims[t].epoch != e && (NoLiveAnchor(h, e) ==> h'.claims[t].ownershipEpoch != e)
    {
      assert EpochCarried(h, h', t);
    }
  }

  /** A superseded epoch never matches a live claim again, however the run goes on. */
  lemma {:induction false} SupersededStaysDead(cfg: Config, h: Hub, steps: seq<Step>, e: int)
    requires ValidConfig(cfg) && Inv(cfg, h) && e <= h.epochSeq && NoLiveEpoch(h, e)
    ensures NoLiveEpoch(Run(cfg, h, steps), e)
    ensures NoLiveAnchor(h, e) ==> NoLiveAnchor(Run(cfg, h, steps), e)
    decreases steps
  {
    hide Apply, Inv, NoLiveEpoch, NoLiveAnchor, EpochsIssued;
    if steps != [] {
      var h' := Apply(cfg, h, steps[0].op, steps[0].now).0;
      InvEpochs(cfg, h);
      StepKeepsInvariant(cfg, h, steps[0].op, steps[0].now);
      StepEpoch(cfg, h, steps[0].op, steps[0].now);
      StepCarriesEpochs(cfg, h, steps[0].op, steps[0].now);
      DeadEpochsStayDead(h, h', e);
      SupersededStaysDead(cfg, h', steps[1..], e);
    }
  }

  /** The task an operation speaks of. */
  function Subject(op: Op): string
    requires op.Acquire? || op.Handoff? || op.Release?
  {
    match op
    case Acquire(r) => Strip(r.task)
    case Handoff(_, task, _, _, _) => Strip(task)
    case Release(_, task, _) => Strip(task)
  }

  /** A granted re-claim, takeover, handoff or release leaves the previous epoch dead. */
  lemma GrantSupersedes(cfg: Config, h: Hub, op: Op, now: real)
    requires ValidConfig(cfg) && Inv(cfg, h) && (op.Acquire? || op.Handoff? || op.Release?)
    requires Apply(cfg, h, op, now).1.Granted? && Subject(op) in h.claims
    ensures NoLiveEpoch(Apply(cfg, h, op, now).0, h.claims[Subject(op)].epoch)
  {
    hide Strip, Lapsing, AcquireRefusal, HandoffRefusal, ReleaseRefusal;
    hide CustodySafe, CustodyApart, Exclusive, WithinQuota, Identified, PathsStored, LeasesBounded;
  }

  /** The operations a holder signs with the epoch of its grant. */
  predicate Fenced(op: Op, e: int) {
    || (op.Update? && op.epoch == Some(e))
    || (op.Checkpoint? && op.epoch == Some(e))
    || (op.Release? && op.epoch == Some(e))
    || (op.Handoff? && op.epoch == Some(e))
  }

  /**
    * Fencing over whole runs: once its epoch is superseded, a holder's update, checkpoint,
    * release or handoff is refused at every later point, and changes no authority.
    */
  lemma StaleHolderIsFencedOut(cfg: Config, h: Hub, steps: seq<Step>, e: int, op: Op, now: real)
    requires ValidConfig(cfg) && Inv(cfg, h) && e <= h.epochSeq && NoLiveEpoch(h, e) && Fenced(op, e)
    ensures var later := Run(cfg, h, steps);
            var (h', o) := Apply(cfg, later, op, now);
            o.Refused? && OnlySwept(later, h', now)
  {
    hide Run, Inv, OnlySwept;
    SupersededStaysDead(cfg, h, steps, e);
    var later := Run(cfg, h, steps);
    StaleEpochRefused(cfg, later, op, now, e);
    RefusalChangesNothing(cfg, later, op, now);
  }

  lemma StaleEpochRefused(cfg: Config, h: Hub, op: Op, now: real, e: int)
    requires NoLiveEpoch(h, e) && Fenced(op, e)
    ensures Apply(cfg, h, op, now).1.Refused?
  {
    hide Lapsing, Strip, CustodyHoldsTask, CustodyBlocksScope, ScopeBlocked, ChargedTo, CanTransition;
  }

  /** A fenced renewal needs a live epoch or its uninterrupted-ownership anchor. */
  lemma StaleRenewalRefused(cfg: Config, h: Hub, steps: seq<Step>, e: int, op: Op, now: real)
    requires ValidConfig(cfg) && Inv(cfg, h) && e <= h.epochSeq && NoLiveAnchor(h, e)
    requires op.Renew? && op.generation == e
    ensures Apply(cfg, Run(cfg, h, steps), op, now).1 == Refused(RenewalLost)
  {
    hide Run, Inv;
    SupersededStaysDead(cfg, h, steps, e);
    RenewalLostWithoutAnchor(cfg, Run(cfg, h, steps), op, now);
  }

  lemma RenewalLostWithoutAnchor(cfg: Config, h: Hub, op: Op, now: real)
    requires op.Renew? && NoLiveAnchor(h, op.generation)
    ensures Apply(cfg, h, op, now).1 == Refused(RenewalLost)
  {
    hide Lapsing, Strip, CustodyHoldsTask;
  }

  /** An update naming another version than the current one is refused and changes nothing. */
  lemma StaleVersionIsRefused(cfg: Config, h: Hub, op: Op, now: real)
    requires op.Update? && op.version.Some?
    requires op.task in h.claims ==> h.claims[op.task].version != op.version.value
    ensures var (h', o) := Apply(cfg, h, op, now);
            o.Refused? && Authority(h') == Authority(Sweep(h, now))
  {
    hide Lapsing, CustodyHoldsTask, CanTransition;
  }

  // ---------------------------------------------------------------- handoff

  /**
    * A granted handoff moves the whole claim in one step: same scope, status, context and
    * checkpoint, new owner, fresh epoch, version zero and a full lease; the giver's epoch
    * is dead and no other claim moves.
    */
  lemma HandoffIsAtomic(cfg: Config, h: Hub, op: Op, now: real)
    requires ValidConfig(cfg) && Inv(cfg, h) && op.Handoff? && Apply(cfg, h, op, now).1.Granted?
    ensures var h' := Apply(cfg, h, op, now).0;
            var task := Strip(op.task);
            && task in h.claims && task in h'.claims
            && var before, after := h.claims[task], h'.claims[task];
               && before.owner == op.agent && before.expiresAt > now && after.owner == Strip(op.target) != op.agent
               && after.scope == before.scope && after.status == before.status && after.checkpoint == before.checkpoint
               && after.dataRef == before.dataRef && after.git == before.git
               && after.version == 0 && after.epoch == h.epochSeq + 1 && after.expiresAt == now + cfg.defaultTtl
               && NoLiveAnchor(h', before.epoch)
               && h'.claims == Unexpired(h.claims, now)[task := after]
               && !ScopeBlocked(Unexpired(h.claims, now), task, after.owner, after.scope, cfg.u)
  {
    hide Strip, Lapsing, Conflict, CustodyHoldsTask, CustodyBlocksScope, ScopeBlocked, ChargedTo;
    hide CustodySafe, CustodyApart, Exclusive, WithinQuota, Identified, PathsStored, LeasesBounded;
  }
}
