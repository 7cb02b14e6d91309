/**
  * A restart cannot be told from the hub that never stopped: from the recovered state every
  * further run meets the same verdicts and ends in the same claims, but for payers spelled
  * out and branch contexts with their defaults filled in.
  */
module JournalRestart {
  import opened Wrappers
  import opened PathIdentity
  import opened Strings
  import opened Scoping
  import opened Lease
  import opened LeaseInvariants
  import opened LeaseGuarantees
  import opened Journal

  /** Equal but for how the payer is spelled and the branch context. */
  predicate AlikeClaim(c: Claim, d: Claim) {
    d.(principal := c.principal, git := c.git) == c && Payer(d) == Payer(c)
  }

  ghost predicate AlikeClaims(claims: map<string, Claim>, back: map<string, Claim>) {
    back.Keys == claims.Keys && forall t :: t in claims ==> AlikeClaim(claims[t], back[t])
  }

  ghost predicate Alike(h: Hub, r: Hub) {
    && AlikeClaims(h.claims, r.claims)
    && r.epochSeq == h.epochSeq && r.expired == h.expired && r.custody == h.custody && r.retained == h.retained
  }

  lemma SweepAlike(h: Hub, r: Hub, now: real)
    requires Alike(h, r)
    ensures Alike(Sweep(h, now), Sweep(r, now))
  {
    hide AlikeClaim, AlikeClaims, Unexpired, Lapsing;
    LapsingAlike(h.claims, r.claims, now);
    UnexpiredAlike(h.claims, r.claims, now);
  }

  lemma LapsingAlike(claims: map<string, Claim>, back: map<string, Claim>, now: real)
    requires AlikeClaims(claims, back)
    ensures Lapsing(claims, now) == Lapsing(back, now)
  {
    hide Payer;
  }

  lemma UnexpiredAlike(claims: map<string, Claim>, back: map<string, Claim>, now: real)
    requires AlikeClaims(claims, back)
    ensures AlikeClaims(Unexpired(claims, now), Unexpired(back, now))
  {
    hide Payer;
    forall t | t in Unexpired(claims, now) ensures AlikeClaim(Unexpired(claims, now)[t], Unexpired(back, now)[t]) {
      assert AlikeClaim(claims[t], back[t]);
    }
  }

  lemma BeatAlike(h: Hub, r: Hub, agent: string, now: real)
    requires Alike(h, r)
    ensures Alike(Beat(h, agent, now), Beat(r, agent, now))
  {
    hide Sweep;
    SweepAlike(h.(lastSeen := h.lastSeen[agent := now]), r.(lastSeen := r.lastSeen[agent := now]), now);
  }

  lemma GuardsAlike(h: Hub, r: Hub, task: string, agent: string, scope: Scope, principal: string, u: Unicode)
    requires Alike(h, r)
    ensures ScopeBlocked(h.claims, task, agent, scope, u) == ScopeBlocked(r.claims, task, agent, scope, u)
    ensures ChargedTo(h.claims, principal) == ChargedTo(r.claims, principal)
  {
    hide Conflict;
    forall t | t in h.claims ensures Contends(h.claims, t, task, agent, scope, u) == Contends(r.claims, t, task, agent, scope, u) {
      assert AlikeClaim(h.claims[t], r.claims[t]);
    }
  }

  lemma StoreAlike(h: Hub, r: Hub, task: string, c: Claim, d: Claim)
    requires AlikeClaims(h.claims, r.claims) && AlikeClaim(c, d)
    ensures AlikeClaims(h.claims[task := c], r.claims[task := d])
  {
    hide AlikeClaim;
  }

  lemma DropTaskAlike(h: Hub, r: Hub, task: string)
    requires Alike(h, r)
    ensures Alike(Drop(h, task), Drop(r, task))
  {
    hide AlikeClaim;
  }

  lemma AcquireAlike(cfg: Config, h: Hub, r: Hub, q: ClaimRequest, now: real)
    requires Alike(h, r)
    ensures DoAcquire(cfg, h, q, now).1 == DoAcquire(cfg, r, q, now).1
    ensures Alike(DoAcquire(cfg, h, q, now).0, DoAcquire(cfg, r, q, now).0)
  {
    hide Beat, Strip, StoredScope, PrincipalOf, ValidatesDisplayScope, CustodyBlocksScope, ScopeBlocked, ChargedTo, Payer, LeaseSeconds;
    var task, scope, principal := Strip(q.task), StoredScope(cfg, q.scope), PrincipalOf(q.agent, q.principal);
    BeatAlike(h, r, q.agent, now);
    var s, b := Beat(h, q.agent, now), Beat(r, q.agent, now);
    GuardsAlike(s, b, task, q.agent, scope, principal, cfg.u);
    assert task in s.claims ==> AlikeClaim(s.claims[task], b.claims[task]);
    var c := GrantedClaim(cfg, s, q, task, scope, now);
    assert c == GrantedClaim(cfg, b, q, task, scope, now);
    hide AlikeClaims;
    StoreAlike(s, b, task, c, c);
  }

  lemma HandoffAlike(cfg: Config, h: Hub, r: Hub, op: Op, now: real)
    requires Alike(h, r) && op.Handoff?
    ensures DoHandoff(cfg, h, op, now).1 == DoHandoff(cfg, r, op, now).1
    ensures Alike(DoHandoff(cfg, h, op, now).0, DoHandoff(cfg, r, op, now).0)
  {
    hide Beat, Strip, CustodyBlocksScope, CustodyHoldsTask, ScopeBlocked, ChargedTo, AlikeClaims;
    var task, target := Strip(op.task), Strip(op.target);
    BeatAlike(h, r, op.agent, now);
    var s, b := Beat(h, op.agent, now), Beat(r, op.agent, now);
    FindAlike(s, b, task);
    if task in s.claims {
      GuardsAlike(s, b, task, target, s.claims[task].scope, target, cfg.u);
      var c := MovedClaim(cfg, s, s.claims[task], target, op.note, now);
      var d := MovedClaim(cfg, b, b.claims[task], target, op.note, now);
      StoreAlike(s, b, task, c, d);
    }
  }

  lemma OwnerRefusalAlike(h: Hub, r: Hub, agent: string, task: string, epoch: Option<int>)
    requires Alike(h, r)
    ensures OwnerRefusal(h, agent, task, epoch) == OwnerRefusal(r, agent, task, epoch)
    ensures OwnerRefusal(h, agent, task, epoch).None? ==> task in h.claims && AlikeClaim(h.claims[task], r.claims[task])
  {
    hide CustodyHoldsTask, Payer;
    assert task in h.claims ==> AlikeClaim(h.claims[task], r.claims[task]);
  }

  lemma UpdateAlike(h: Hub, r: Hub, op: Op, now: real)
    requires Alike(h, r) && op.Update?
    ensures DoUpdate(h, op, now).1 == DoUpdate(r, op, now).1
    ensures Alike(DoUpdate(h, op, now).0, DoUpdate(r, op, now).0)
  {
    hide Beat, Strip, OwnerRefusal, CanTransition, AlikeClaims;
    BeatAlike(h, r, op.agent, now);
    var s, b := Beat(h, op.agent, now), Beat(r, op.agent, now);
    OwnerRefusalAlike(s, b, op.agent, op.task, op.epoch);
    var h', r' := DoUpdate(h, op, now).0, DoUpdate(r, op, now).0;
    if DoUpdate(h, op, now).1.Granted? {
      StoreAlike(s, b, op.task, h'.claims[op.task], r'.claims[op.task]);
    }
  }

  lemma CheckpointAlike(h: Hub, r: Hub, op: Op, now: real)
    requires Alike(h, r) && op.Checkpoint?
    ensures DoCheckpoint(h, op.agent, op.task, op.checkpoint, op.epoch, now).1 == DoCheckpoint(r, op.agent, op.task, op.checkpoint, op.epoch, now).1
    ensures Alike(DoCheckpoint(h, op.agent, op.task, op.checkpoint, op.epoch, now).0,
                  DoCheckpoint(r, op.agent, op.task, op.checkpoint, op.epoch, now).0)
  {
    hide Beat, Strip, OwnerRefusal, AlikeClaims;
    BeatAlike(h, r, op.agent, now);
    var task, s, b := Strip(op.task), Beat(h, op.agent, now), Beat(r, op.agent, now);
    OwnerRefusalAlike(s, b, op.agent, task, op.epoch);
    FindAlike(s, b, task);
    if OwnerRefusal(s, op.agent, task, op.epoch).None? {
      var c, d := s.claims[task], b.claims[task];
      StoreAlike(s, b, task, c.(checkpoint := op.checkpoint, version := c.version + 1),
                 d.(checkpoint := op.checkpoint, version := d.version + 1));
    }
  }

  lemma FindAlike(h: Hub, r: Hub, task: string)
    requires Alike(h, r)
    ensures task in h.claims <==> task in r.claims
    ensures task in h.claims ==> AlikeClaim(h.claims[task], r.claims[task])
  {
    hide AlikeClaim;
  }

  lemma MovedAlike(c: Claim, d: Claim, now: real)
    requires AlikeClaim(c, d)
    ensures AlikeClaim(c.(claimedAt := now, expiresAt := now + (c.expiresAt - c.claimedAt)),
                       d.(claimedAt := now, expiresAt := now + (d.expiresAt - d.claimedAt)))
  {
  }

  lemma RenewAlike(cfg: Config, h: Hub, r: Hub, op: Op, now: real)
    requires Alike(h, r) && op.Renew?
    ensures var q, e, paths := op.task, op.generation, op.paths;
            && DoRenew(cfg, h, op.agent, q, e, paths, now).1 == DoRenew(cfg, r, op.agent, q, e, paths, now).1
            && Alike(DoRenew(cfg, h, op.agent, q, e, paths, now).0, DoRenew(cfg, r, op.agent, q, e, paths, now).0)
  {
    hide Beat, Strip, CustodyHoldsTask, AlikeClaims, Payer;
    BeatAlike(h, r, op.agent, now);
    var task, s, b := Strip(op.task), Beat(h, op.agent, now), Beat(r, op.agent, now);
    FindAlike(s, b, task);
    if task in s.claims {
      var c, d := s.claims[task], b.claims[task];
      StoreAlike(s, b, task, c.(claimedAt := now, expiresAt := now + (c.expiresAt - c.claimedAt)),
                 d.(claimedAt := now, expiresAt := now + (d.expiresAt - d.claimedAt))) by { MovedAlike(c, d, now); }
    }
  }

  lemma DropAlike(cfg: Config, h: Hub, r: Hub, op: Op, now: real)
    requires Alike(h, r) && (op.Release? || op.ForceRelease? || op.Heartbeat? || op.Snapshot?)
    ensures Apply(cfg, h, op, now).1 == Apply(cfg, r, op, now).1
    ensures Alike(Apply(cfg, h, op, now).0, Apply(cfg, r, op, now).0)
  {
    hide Beat, Sweep, Strip, CustodyHoldsTask, OwnerRefusal, Drop, AlikeClaim;
    if op.Snapshot? {
      SweepAlike(h, r, now);
    } else if op.ForceRelease? {
      DropTaskAlike(h, r, Strip(op.task));
    } else {
      BeatAlike(h, r, op.agent, now);
      if op.Release? {
        OwnerRefusalAlike(Beat(h, op.agent, now), Beat(r, op.agent, now), op.agent, Strip(op.task), op.epoch);
        DropTaskAlike(Beat(h, op.agent, now), Beat(r, op.agent, now), Strip(op.task));
      }
    }
  }

  lemma WitnessesAlike(h: Hub, r: Hub, witnesses: seq<Witness>, u: Unicode)
    requires Alike(h, r)
    ensures FreshWitnesses(h, witnesses, u) == FreshWitnesses(r, witnesses, u)
  {
    hide CustodyBlocksScope, Payer;
    forall t | t in h.claims ensures Capture(h.claims[t]) == Capture(r.claims[t]) {
      assert AlikeClaim(h.claims[t], r.claims[t]);
    }
  }

  lemma CustodyAlike(cfg: Config, h: Hub, r: Hub, op: Op, now: real)
    requires Alike(h, r) && (op.OpenCustody? || op.SettleCustody?)
    ensures Apply(cfg, h, op, now).1 == Apply(cfg, r, op, now).1
    ensures Alike(Apply(cfg, h, op, now).0, Apply(cfg, r, op, now).0)
  {
    hide AlikeClaims, FreshWitnesses;
    if op.OpenCustody? {
      WitnessesAlike(h, r, op.witnesses, cfg.u);
    }
  }

  /** One request: the same verdict, reason included, and hubs that stay alike. */
  lemma StepAlike(cfg: Config, h: Hub, r: Hub, op: Op, now: real)
    requires Alike(h, r)
    ensures Apply(cfg, h, op, now).1 == Apply(cfg, r, op, now).1
    ensures Alike(Apply(cfg, h, op, now).0, Apply(cfg, r, op, now).0)
  {
    hide DoAcquire, DoHandoff, DoRenew, DoUpdate, DoCheckpoint, DoRelease, DoForceRelease, Alike;
    match op
    case Acquire(q) => AcquireAlike(cfg, h, r, q, now);
    case Handoff(_, _, _, _, _) => HandoffAlike(cfg, h, r, op, now);
    case Renew(_, _, _, _) => RenewAlike(cfg, h, r, op, now);
    case Update(_, _, _, _, _, _, _) => UpdateAlike(h, r, op, now);
    case Checkpoint(_, _, _, _) => CheckpointAlike(h, r, op, now);
    case OpenCustody(_, _, _) => CustodyAlike(cfg, h, r, op, now);
    case SettleCustody(_) => CustodyAlike(cfg, h, r, op, now);
    case _ => DropAlike(cfg, h, r, op, now);
  }

  // ---------------------------------------------------------------- whole runs

  function Outcomes(cfg: Config, h: Hub, steps: seq<Step>): seq<Outcome>
    decreases steps
  {
    if steps == [] then []
    else
      var (h', o) := Apply(cfg, h, steps[0].op, steps[0].now);
      [o] + Outcomes(cfg, h', steps[1..])
  }

  lemma {:induction false} RunAlike(cfg: Config, h: Hub, r: Hub, steps: seq<Step>)
    requires Alike(h, r)
    ensures Outcomes(cfg, h, steps) == Outcomes(cfg, r, steps) && Alike(Run(cfg, h, steps), Run(cfg, r, steps))
    decreases steps
  {
    hide Apply, Alike;
    if steps != [] {
      StepAlike(cfg, h, r, steps[0].op, steps[0].now);
      RunAlike(cfg, Apply(cfg, h, steps[0].op, steps[0].now).0, Apply(cfg, r, steps[0].op, steps[0].now).0, steps[1..]);
    }
  }

  lemma StepOpensNothing(cfg: Config, h: Hub, op: Op, now: real)
    requires h.custody == map[] && h.retained == {}
    requires var (h', o) := Apply(cfg, h, op, now); ProtectedWrite !in Logged(op, h', o)
    ensures var h' := Apply(cfg, h, op, now).0; h'.custody == map[] && h'.retained == {}
  {
    hide Strip, Lapsing, StoredScope, ValidatesDisplayScope, AcquireRefusal, HandoffRefusal, ReleaseRefusal, CanTransition;
    hide FreshWitnesses, PrincipalOf, ResumeToken, ContinuationEpoch, CustodyHoldsTask, Unexpired;
  }

  lemma {:induction false} RunOpensNothing(cfg: Config, h: Hub, steps: seq<Step>)
    requires h.custody == map[] && h.retained == {} && ProtectedWrite !in Log(cfg, h, steps)
    ensures var h' := Run(cfg, h, steps); h'.custody == map[] && h'.retained == {}
    decreases steps
  {
    hide Apply, Logged;
    if steps != [] {
      StepOpensNothing(cfg, h, steps[0].op, steps[0].now);
      RunOpensNothing(cfg, Apply(cfg, h, steps[0].op, steps[0].now).0, steps[1..]);
    }
  }

  lemma ComesBackAlike(live: map<string, Claim>, back: map<string, Claim>)
    requires ComesBack(live, back)
    ensures AlikeClaims(live, back)
  {
    hide GitReadsBack;
    forall t | t in live ensures AlikeClaim(live[t], back[t]) {
      assert ReadsBack(live[t], back[t]);
    }
  }

  /**
    * A hub that crashes and replays its log, at a reading no earlier than any it saw, answers
    * every further sequence of requests with the verdicts that the hub would have given that
    * never stopped, and stays alike to it.
    */
  lemma RestartIsUnobservable(cfg: Config, steps: seq<Step>, now: real, more: seq<Step>)
    requires ValidConfig(cfg) && ProtectedWrite !in Log(cfg, EMPTY, steps) && ClockedBy(steps, now)
    ensures Remembered(cfg, steps).Rebuilt?
    ensures var live, back := Sweep(Run(cfg, EMPTY, steps), now), Recovered(Remembered(cfg, steps), now);
            && Outcomes(cfg, back, more) == Outcomes(cfg, live, more)
            && Alike(Run(cfg, live, more), Run(cfg, back, more))
  {
    hide Remembered, Run, Log, Outcomes, ComesBack, Lapsing, Unexpired, AlikeClaims, ClockedBy;
    RecoveryIsExact(cfg, steps, now);
    RunOpensNothing(cfg, EMPTY, steps);
    var live, back := Sweep(Run(cfg, EMPTY, steps), now), Recovered(Remembered(cfg, steps), now);
    assert AlikeClaims(live.claims, back.claims) by { ComesBackAlike(live.claims, back.claims); }
    RunAlike(cfg, live, back, more);
  }
}
