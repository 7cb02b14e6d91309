/**
  * What a generation identifies. While a claim keeps its epoch, its version tells its
  * contents; while it keeps its ownership anchor, it keeps its owner and its scope.
  */
module LeaseGenerations {
  import opened PathIdentity
  import opened Strings
  import opened Scoping
  import opened Lease
  import opened LeaseInvariants
  import opened LeaseGuarantees

  predicate Terminal(status: string) {
    status == "done" || status == "failed"
  }

  predicate SameContents(c: Claim, d: Claim) {
    c.status == d.status && c.note == d.note && c.dataRef == d.dataRef && c.checkpoint == d.checkpoint
  }

  /** How a claim may change within one epoch. */
  predicate Advances(c: Claim, d: Claim) {
    && d.owner == c.owner && d.scope == c.scope
    && (Terminal(c.status) ==> d.status == c.status)
    && (d.version > c.version || (d.version == c.version && SameContents(c, d)))
  }

  lemma AdvancesOn(c: Claim, d: Claim, e: Claim)
    requires Advances(c, d) && Advances(d, e)
    ensures Advances(c, e)
  {
  }

  lemma UpdateAdvances(h: Hub, op: Op, now: real, t: string)
    requires op.Update? && t in h.claims && t in DoUpdate(h, op, now).0.claims
    ensures Advances(h.claims[t], DoUpdate(h, op, now).0.claims[t])
  {
    hide Strip, Lapsing, CustodyHoldsTask;
  }

  lemma GrantStartsAnew(cfg: Config, h: Hub, op: Op, now: real, t: string)
    requires (op.Acquire? || op.Handoff?) && EpochsIssued(h)
    requires t in h.claims && t in Apply(cfg, h, op, now).0.claims
    requires Apply(cfg, h, op, now).0.claims[t].epoch == h.claims[t].epoch
    ensures Apply(cfg, h, op, now).0.claims[t] == h.claims[t]
  {
    hide Strip, Lapsing, AcquireRefusal, HandoffRefusal, StoredScope, PrincipalOf;
  }

  lemma RenewAdvances(cfg: Config, h: Hub, op: Op, now: real, t: string)
    requires op.Renew? && t in h.claims && t in DoRenew(cfg, h, op.agent, op.task, op.generation, op.paths, now).0.claims
    ensures Advances(h.claims[t], DoRenew(cfg, h, op.agent, op.task, op.generation, op.paths, now).0.claims[t])
  {
    hide Strip, Lapsing, CustodyHoldsTask;
  }

  lemma CheckpointAdvances(h: Hub, op: Op, now: real, t: string)
    requires op.Checkpoint? && t in h.claims
    requires t in DoCheckpoint(h, op.agent, op.task, op.checkpoint, op.epoch, now).0.claims
    ensures Advances(h.claims[t], DoCheckpoint(h, op.agent, op.task, op.checkpoint, op.epoch, now).0.claims[t])
  {
    hide Strip, Lapsing, CustodyHoldsTask;
  }

  lemma StepAdvances(cfg: Config, h: Hub, op: Op, now: real, t: string)
    requires EpochsIssued(h) && t in h.claims && t in Apply(cfg, h, op, now).0.claims
    requires Apply(cfg, h, op, now).0.claims[t].epoch == h.claims[t].epoch
    ensures Advances(h.claims[t], Apply(cfg, h, op, now).0.claims[t])
  {
    hide DoAcquire, DoHandoff, DoUpdate, DoRenew, DoCheckpoint, DoRelease, DoForceRelease, Sweep;
    if op.Acquire? || op.Handoff? {
      GrantStartsAnew(cfg, h, op, now, t);
    } else if op.Update? {
      UpdateAdvances(h, op, now, t);
    } else if op.Renew? {
      RenewAdvances(cfg, h, op, now, t);
    } else if op.Checkpoint? {
      CheckpointAdvances(h, op, now, t);
    } else {
      DropOrigin(cfg, h, op, now, t);
    }
  }

  /** An epoch the step took from its claim is on no other claim. */
  lemma LostEpochIsDead(h: Hub, h': Hub, t: string)
    requires EpochsIssued(h) && EpochsDistinct(h) && EpochsCarried(h, h') && t in h.claims
    requires t in h'.claims ==> h'.claims[t].epoch != h.claims[t].epoch
    ensures NoLiveEpoch(h', h.claims[t].epoch)
  {
    forall s | s in h'.claims ensures h'.claims[s].epoch != h.claims[t].epoch {
      assert EpochCarried(h, h', s);
    }
  }

  /**
    * Optimistic concurrency over whole runs: whenever a task is seen again under the same
    * epoch, it has the same owner and scope, its version has not gone back, an equal
    * version means equal contents, and a terminal status has stayed.
    */
  lemma {:induction false} VersionTellsContents(cfg: Config, h: Hub, steps: seq<Step>, t: string)
    requires ValidConfig(cfg) && Inv(cfg, h) && t in h.claims && t in Run(cfg, h, steps).claims
    requires Run(cfg, h, steps).claims[t].epoch == h.claims[t].epoch
    ensures Advances(h.claims[t], Run(cfg, h, steps).claims[t])
    decreases steps
  {
    hide Inv, Apply, Run, EpochsIssued, EpochsDistinct, NoLiveEpoch, EpochsCarried, Advances;
    RunStep(cfg, h, steps);
    assert EpochsIssued(h) && EpochsDistinct(h) by { GenerationsOf(cfg, h); }
    if steps == [] {
      assert Advances(h.claims[t], h.claims[t]) by { SelfAdvances(h.claims[t]); }
    } else {
      var op, now := steps[0].op, steps[0].now;
      var h', e := Apply(cfg, h, op, now).0, h.claims[t].epoch;
      StepKeepsInvariant(cfg, h, op, now);
      if t in h'.claims && h'.claims[t].epoch == e {
        StepAdvances(cfg, h, op, now, t);
        VersionTellsContents(cfg, h', steps[1..], t);
        AdvancesOn(h.claims[t], h'.claims[t], Run(cfg, h, steps).claims[t]);
      } else {
        EpochGone(cfg, h, op, now, steps[1..], t);
      }
    }
  }

  lemma SelfAdvances(c: Claim)
    ensures Advances(c, c)
  {
  }

  lemma GenerationsOf(cfg: Config, h: Hub)
    requires Inv(cfg, h)
    ensures EpochsIssued(h) && EpochsDistinct(h)
  {
    hide CustodySafe, CustodyApart, Exclusive, WithinQuota, Identified, PathsStored;
  }

  lemma EpochGone(cfg: Config, h: Hub, op: Op, now: real, rest: seq<Step>, t: string)
    requires ValidConfig(cfg) && Inv(cfg, h) && t in h.claims
    requires var h' := Apply(cfg, h, op, now).0; t in h'.claims ==> h'.claims[t].epoch != h.claims[t].epoch
    ensures var later := Run(cfg, Apply(cfg, h, op, now).0, rest); t in later.claims ==> later.claims[t].epoch != h.claims[t].epoch
  {
    hide Inv, Apply, Run, EpochsCarried, EpochsDistinct;
    GenerationsOf(cfg, h);
    StepKeepsInvariant(cfg, h, op, now);
    StepCarriesEpochs(cfg, h, op, now);
    StepEpoch(cfg, h, op, now);
    LostEpochIsDead(h, Apply(cfg, h, op, now).0, t);
    SupersededStaysDead(cfg, Apply(cfg, h, op, now).0, rest, h.claims[t].epoch);
  }

  // ---------------------------------------------------------------- anchors

  /** A step that leaves the anchor leaves owner and scope. */
  lemma StepKeepsAnchor(cfg: Config, h: Hub, op: Op, now: real, t: string)
    requires EpochsIssued(h) && t in h.claims && t in Apply(cfg, h, op, now).0.claims
    requires Apply(cfg, h, op, now).0.claims[t].ownershipEpoch == h.claims[t].ownershipEpoch
    ensures var c, d := h.claims[t], Apply(cfg, h, op, now).0.claims[t]; d.owner == c.owner && d.scope == c.scope
  {
    hide DoAcquire, DoHandoff, DoUpdate, DoRenew, DoCheckpoint, DoRelease, DoForceRelease, Sweep;
    if op.Acquire? || op.Handoff? {
      GrantKeepsAnchor(cfg, h, op, now, t);
    } else if op.Update? {
      UpdateAdvances(h, op, now, t);
    } else if op.Renew? {
      RenewAdvances(cfg, h, op, now, t);
    } else if op.Checkpoint? {
      CheckpointAdvances(h, op, now, t);
    } else {
      DropOrigin(cfg, h, op, now, t);
    }
  }

  lemma GrantKeepsAnchor(cfg: Config, h: Hub, op: Op, now: real, t: string)
    requires (op.Acquire? || op.Handoff?) && EpochsIssued(h)
    requires t in h.claims && t in Apply(cfg, h, op, now).0.claims
    requires Apply(cfg, h, op, now).0.claims[t].ownershipEpoch == h.claims[t].ownershipEpoch
    ensures var c, d := h.claims[t], Apply(cfg, h, op, now).0.claims[t]; d.owner == c.owner && d.scope == c.scope
  {
    hide Strip, Lapsing, AcquireRefusal, HandoffRefusal, StoredScope, PrincipalOf;
  }

  /** An anchor the step took from its claim is on no claim any more, as epoch or as anchor. */
  lemma LostAnchorIsDead(h: Hub, h': Hub, t: string)
    requires EpochsIssued(h) && EpochsDistinct(h) && EpochsCarried(h, h') && t in h.claims
    requires t in h'.claims ==> h'.claims[t].ownershipEpoch != h.claims[t].ownershipEpoch
    ensures NoLiveAnchor(h', h.claims[t].ownershipEpoch)
  {
    var e := h.claims[t].ownershipEpoch;
    forall s | s in h'.claims ensures h'.claims[s].epoch != e && h'.claims[s].ownershipEpoch != e {
      assert EpochCarried(h, h', s);
    }
  }

  lemma AnchorGone(cfg: Config, h: Hub, op: Op, now: real, rest: seq<Step>, t: string)
    requires ValidConfig(cfg) && Inv(cfg, h) && t in h.claims
    requires var h' := Apply(cfg, h, op, now).0; t in h'.claims ==> h'.claims[t].ownershipEpoch != h.claims[t].ownershipEpoch
    ensures NoLiveAnchor(Run(cfg, Apply(cfg, h, op, now).0, rest), h.claims[t].ownershipEpoch)
  {
    hide Inv, Apply, Run, EpochsCarried, EpochsDistinct;
    GenerationsOf(cfg, h);
    StepKeepsInvariant(cfg, h, op, now);
    StepCarriesEpochs(cfg, h, op, now);
    StepEpoch(cfg, h, op, now);
    LostAnchorIsDead(h, Apply(cfg, h, op, now).0, t);
    SupersededStaysDead(cfg, Apply(cfg, h, op, now).0, rest, h.claims[t].ownershipEpoch);
  }

  /**
    * The anchor marks uninterrupted ownership of one scope: over any run, either the task
    * is held by the same owner with the same scope under it, or no claim carries it.
    */
  lemma {:induction false} AnchorMarksOwnership(cfg: Config, h: Hub, steps: seq<Step>, t: string)
    requires ValidConfig(cfg) && Inv(cfg, h) && t in h.claims
    ensures var later, e := Run(cfg, h, steps), h.claims[t].ownershipEpoch;
            || NoLiveAnchor(later, e)
            || (&& t in later.claims && later.claims[t].ownershipEpoch == e
                && later.claims[t].owner == h.claims[t].owner && later.claims[t].scope == h.claims[t].scope)
    decreases steps
  {
    hide Inv, Apply, Run, EpochsIssued, EpochsDistinct, NoLiveAnchor, EpochsCarried;
    RunStep(cfg, h, steps);
    assert EpochsIssued(h) by { GenerationsOf(cfg, h); }
    if steps != [] {
      var op, now := steps[0].op, steps[0].now;
      var h', e := Apply(cfg, h, op, now).0, h.claims[t].ownershipEpoch;
      StepKeepsInvariant(cfg, h, op, now);
      if t in h'.claims && h'.claims[t].ownershipEpoch == e {
        StepKeepsAnchor(cfg, h, op, now, t);
        AnchorMarksOwnership(cfg, h', steps[1..], t);
      } else {
        AnchorGone(cfg, h, op, now, steps[1..], t);
      }
    }
  }

  /** The task is held by the owner of `c`, with its scope, under the anchor it had then: no lease lapsed between. */
  predicate HeldAs(h: Hub, t: string, c: Claim) {
    && t in h.claims && h.claims[t].owner == c.owner && h.claims[t].scope == c.scope
    && h.claims[t].ownershipEpoch == c.ownershipEpoch
  }

  /** Wherever a run lost the anchor, a renewal signed with it is refused at the run's end. */
  lemma HeldOrRefused(cfg: Config, h: Hub, steps: seq<Step>, t: string, op: Op, now: real, k: nat)
    requires ValidConfig(cfg) && Inv(cfg, h) && t in h.claims && k <= |steps|
    requires op.Renew? && op.generation == h.claims[t].ownershipEpoch
    requires Apply(cfg, Run(cfg, h, steps), op, now).1.Granted?
    ensures HeldAs(Run(cfg, h, steps[..k]), t, h.claims[t])
  {
    hide Inv, Run, Apply, EpochsDistinct, EpochsIssued, NoLiveAnchor;
    var middle, e := Run(cfg, h, steps[..k]), h.claims[t].ownershipEpoch;
    AnchorMarksOwnership(cfg, h, steps[..k], t);
    if NoLiveAnchor(middle, e) {
      assert steps == steps[..k] + steps[k..];
      RunAppend(cfg, h, steps[..k], steps[k..]);
      RunKeepsInvariant(cfg, h, steps[..k]);
      EpochsAreConsecutive(cfg, h, steps[..k]);
      AnchorIssued(cfg, h, t);
      StaleRenewalRefused(cfg, middle, steps[k..], e, op, now);
    }
  }

  lemma AnchorIssued(cfg: Config, h: Hub, t: string)
    requires Inv(cfg, h) && t in h.claims
    ensures h.claims[t].ownershipEpoch <= h.epochSeq
  {
    hide EpochsDistinct;
    GenerationsOf(cfg, h);
  }

  /**
    * A renewal signed with a claim's anchor is granted later only to the agent that held
    * the claim then, and only if that agent held it with that scope at every point of the
    * run in between.
    */
  lemma RenewalMeansUninterrupted(cfg: Config, h: Hub, steps: seq<Step>, t: string, op: Op, now: real)
    requires ValidConfig(cfg) && Inv(cfg, h) && t in h.claims
    requires op.Renew? && op.generation == h.claims[t].ownershipEpoch
    requires Apply(cfg, Run(cfg, h, steps), op, now).1.Granted?
    ensures forall k :: 0 <= k <= |steps| ==> HeldAs(Run(cfg, h, steps[..k]), t, h.claims[t])
    ensures var later := Run(cfg, h, steps);
            HeldAs(later, t, h.claims[t]) && op.agent == h.claims[t].owner && later.claims[t].expiresAt > now
  {
    hide Inv, Run, Apply, EpochsDistinct, EpochsIssued, NoLiveAnchor, HeldAs;
    forall k | 0 <= k <= |steps| ensures HeldAs(Run(cfg, h, steps[..k]), t, h.claims[t]) {
      HeldOrRefused(cfg, h, steps, t, op, now, k);
    }
    assert steps[..|steps|] == steps;
    AnchorStillSigns(cfg, h, steps, t, op, now);
  }

  lemma AnchorStillSigns(cfg: Config, h: Hub, steps: seq<Step>, t: string, op: Op, now: real)
    requires ValidConfig(cfg) && Inv(cfg, h) && t in h.claims
    requires op.Renew? && op.generation == h.claims[t].ownershipEpoch
    requires Apply(cfg, Run(cfg, h, steps), op, now).1.Granted?
    ensures var later := Run(cfg, h, steps);
            t in later.claims && op.agent == later.claims[t].owner == h.claims[t].owner && later.claims[t].expiresAt > now
  {
    hide Inv, Run, EpochsDistinct, EpochsIssued, NoLiveAnchor;
    AnchorMarksOwnership(cfg, h, steps, t);
    RunKeepsInvariant(cfg, h, steps);
    var later := Run(cfg, h, steps);
    if NoLiveAnchor(later, op.generation) {
      RenewalLostWithoutAnchor(cfg, later, op, now);
    } else {
      GenerationsOf(cfg, later);
      RenewedIs(cfg, later, op, now, t);
    }
  }

  lemma RenewedIs(cfg: Config, h: Hub, op: Op, now: real, t: string)
    requires op.Renew? && t in h.claims && h.claims[t].ownershipEpoch == op.generation && EpochsDistinct(h)
    requires Apply(cfg, h, op, now).1.Granted?
    ensures op.agent == h.claims[t].owner && h.claims[t].expiresAt > now
  {
    hide Strip, Lapsing, CustodyHoldsTask, DoAcquire, DoHandoff, DoUpdate, DoRelease, DoForceRelease, DoCheckpoint;
    var task := Strip(op.task);
    assert task in h.claims && task == t;
  }
}
