/**
  * The checkpoint of a task outlives its leases: whoever works on the task next resumes
  * from the last one saved, unless the task was released in between.
  */
module LeaseCheckpoints {
  import opened PathIdentity
  import opened Strings
  import opened Lease
  import opened LeaseInvariants

  /** What the next holder of a task would resume from. */
  function Token(h: Hub, t: string): string {
    if t in h.claims then h.claims[t].checkpoint
    else if t in h.expired then h.expired[t] else ""
  }

  /** What a step leaves to resume from: only a granted checkpoint or release of the task changes it. */
  function TokenAfter(op: Op, o: Outcome, t: string, token: string): string {
    if o.Refused? then token
    else match op
      case Checkpoint(_, task, checkpoint, _) => if Strip(task) == t then checkpoint else token
      case Release(_, task, _) => if Strip(task) == t then "" else token
      case ForceRelease(task) => if Strip(task) == t then "" else token
      case _ => token
  }

  /** What a run leaves to resume from, told from its granted checkpoints and releases alone. */
  function LastSaved(cfg: Config, h: Hub, steps: seq<Step>, t: string, token: string): string
    decreases steps
  {
    if steps == [] then token
    else
      var (h', o) := Apply(cfg, h, steps[0].op, steps[0].now);
      LastSaved(cfg, h', steps[1..], t, TokenAfter(steps[0].op, o, t, token))
  }

  /** A lapse moves the checkpoint out of the claim and loses nothing. */
  lemma SweepToken(h: Hub, now: real, t: string)
    requires CheckpointsApart(h)
    ensures Token(Sweep(h, now), t) == Token(h, t) && CheckpointsApart(Sweep(h, now))
  {
  }

  lemma BeatToken(h: Hub, agent: string, now: real, t: string)
    requires CheckpointsApart(h)
    ensures Token(Beat(h, agent, now), t) == Token(h, t) && CheckpointsApart(Beat(h, agent, now))
  {
    hide Sweep;
    SweepToken(h.(lastSeen := h.lastSeen[agent := now]), now, t);
  }

  /** A granted claim resumes from the task's token, whoever it goes to. */
  lemma AcquireToken(cfg: Config, h: Hub, r: ClaimRequest, now: real, t: string)
    requires CheckpointsApart(h)
    ensures Token(DoAcquire(cfg, h, r, now).0, t) == Token(h, t)
  {
    hide Beat, Strip, StoredScope, ValidatesDisplayScope, CustodyBlocksScope, ScopeBlocked, QuotaFree, PrincipalOf, ContinuationEpoch;
    BeatToken(h, r.agent, now, t);
    var s := Beat(h, r.agent, now);
    assert forall x :: x in s.claims ==> s.claims[x].expiresAt > now by { BeatSweeps(h, r.agent, now); }
  }

  lemma BeatSweeps(h: Hub, agent: string, now: real)
    ensures var s := Beat(h, agent, now); forall x :: x in s.claims ==> s.claims[x].expiresAt > now
  {
  }

  lemma HandoffToken(cfg: Config, h: Hub, op: Op, now: real, t: string)
    requires op.Handoff? && CheckpointsApart(h)
    ensures Token(DoHandoff(cfg, h, op, now).0, t) == Token(h, t)
  {
    hide Beat, Strip, HandoffRefusal;
    BeatToken(h, op.agent, now, t);
    HandoffNeedsClaim(cfg, Beat(h, op.agent, now), op);
  }

  lemma EditToken(cfg: Config, h: Hub, op: Op, now: real, t: string)
    requires (op.Renew? || op.Update?) && CheckpointsApart(h)
    ensures Token(Apply(cfg, h, op, now).0, t) == Token(h, t)
  {
    hide Beat, Strip, CustodyHoldsTask, CanTransition, DoAcquire, DoHandoff, DoCheckpoint, DoRelease, DoForceRelease;
    BeatToken(h, op.agent, now, t);
  }

  lemma SaveToken(cfg: Config, h: Hub, op: Op, now: real, t: string)
    requires (op.Checkpoint? || op.Release? || op.ForceRelease?) && CheckpointsApart(h)
    ensures var (h', o) := Apply(cfg, h, op, now);
            Token(h', t) == TokenAfter(op, o, t, Token(h, t))
  {
    hide Beat, Strip, CustodyHoldsTask, ReleaseRefusal, DoAcquire, DoHandoff, DoRenew, DoUpdate;
    if !op.ForceRelease? {
      BeatToken(h, op.agent, now, t);
    }
  }

  lemma QuietToken(cfg: Config, h: Hub, op: Op, now: real, t: string)
    requires (op.Heartbeat? || op.Snapshot? || op.OpenCustody? || op.SettleCustody?) && CheckpointsApart(h)
    ensures Token(Apply(cfg, h, op, now).0, t) == Token(h, t)
  {
    hide Beat, Sweep, FreshWitnesses;
    if op.Heartbeat? {
      BeatToken(h, op.agent, now, t);
    } else if op.Snapshot? {
      SweepToken(h, now, t);
    }
  }

  lemma StepToken(cfg: Config, h: Hub, op: Op, now: real, t: string)
    requires CheckpointsApart(h)
    ensures var (h', o) := Apply(cfg, h, op, now);
            Token(h', t) == TokenAfter(op, o, t, Token(h, t))
  {
    hide DoAcquire, DoHandoff, DoRenew, DoUpdate, DoCheckpoint, DoRelease, DoForceRelease, DoOpenCustody, DoSettleCustody;
    hide Beat, Sweep, Strip, Token, CheckpointsApart;
    match op
    case Acquire(r) => AcquireToken(cfg, h, r, now, t);
    case Handoff(_, _, _, _, _) => HandoffToken(cfg, h, op, now, t);
    case _ =>
      if op.Renew? || op.Update? {
        EditToken(cfg, h, op, now, t);
      } else if op.Checkpoint? || op.Release? || op.ForceRelease? {
        SaveToken(cfg, h, op, now, t);
      } else {
        QuietToken(cfg, h, op, now, t);
      }
  }

  /**
    * Over every run a task is resumed from what its last granted checkpoint saved, or from
    * nothing if it was released since: lapses, sweeps, takeovers, handoffs, renewals, edits
    * and refusals in between do not matter.
    */
  lemma {:induction false} TokenIsConserved(cfg: Config, h: Hub, steps: seq<Step>, t: string)
    requires ValidConfig(cfg) && Inv(cfg, h)
    ensures Token(Run(cfg, h, steps), t) == LastSaved(cfg, h, steps, t, Token(h, t))
    decreases steps
  {
    hide Inv, Apply, Token, TokenAfter, CheckpointsApart;
    if steps != [] {
      var op, now := steps[0].op, steps[0].now;
      assert CheckpointsApart(h) by { ApartOf(cfg, h); }
      StepToken(cfg, h, op, now, t);
      StepKeepsInvariant(cfg, h, op, now);
      TokenIsConserved(cfg, Apply(cfg, h, op, now).0, steps[1..], t);
    }
  }

  lemma ApartOf(cfg: Config, h: Hub)
    requires Inv(cfg, h)
    ensures CheckpointsApart(h)
  {
  }

  /**
    * Whoever is granted a task at the end of a run, a continuing owner or one that takes it
    * over after its lease lapsed, swept long before or only now, inherits what was saved last.
    */
  lemma TakeoverInheritsCheckpoint(cfg: Config, h: Hub, steps: seq<Step>, r: ClaimRequest, now: real)
    requires ValidConfig(cfg) && Inv(cfg, h)
    requires DoAcquire(cfg, Run(cfg, h, steps), r, now).1.Granted?
    ensures var t := Strip(r.task);
            var after := DoAcquire(cfg, Run(cfg, h, steps), r, now).0;
            && t in after.claims && after.claims[t].owner == r.agent && after.claims[t].version == 0
            && after.claims[t].checkpoint == LastSaved(cfg, h, steps, t, Token(h, t))
  {
    hide Inv, Run, LastSaved, Strip, CheckpointsApart, DoAcquire;
    var later := Run(cfg, h, steps);
    TokenIsConserved(cfg, h, steps, Strip(r.task));
    RunKeepsInvariant(cfg, h, steps);
    ApartOf(cfg, later);
    AcquireToken(cfg, later, r, now, Strip(r.task));
    GrantHolds(cfg, later, r, now);
  }

  lemma GrantHolds(cfg: Config, h: Hub, r: ClaimRequest, now: real)
    requires DoAcquire(cfg, h, r, now).1.Granted?
    ensures var t, after := Strip(r.task), DoAcquire(cfg, h, r, now).0;
            t in after.claims && after.claims[t].owner == r.agent && after.claims[t].version == 0
  {
    hide Beat, Strip, StoredScope, ValidatesDisplayScope, AcquireRefusal, PrincipalOf, ContinuationEpoch, ResumeToken;
  }
}
