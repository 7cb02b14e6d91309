/**
  * What every operation keeps, whatever the clock reads: one owner per task, no two
  * owners on overlapping files, bounded epochs, the quota, and custody that outlives leases.
  */
module LeaseInvariants {
  import opened Wrappers
  import opened PathIdentity
  import opened Strings
  import opened Scoping
  import opened Lease

  ghost predicate Keyed(h: Hub) {
    forall t :: t in h.claims ==> h.claims[t].task == t
  }

  ghost predicate EpochsIssued(h: Hub) {
    forall t :: t in h.claims ==> 1 <= h.claims[t].ownershipEpoch <= h.claims[t].epoch <= h.epochSeq
  }

  predicate EpochsApart(c: Claim, d: Claim) {
    c.epoch != d.epoch && c.epoch != d.ownershipEpoch && c.ownershipEpoch != d.epoch && c.ownershipEpoch != d.ownershipEpoch
  }

  /** No generation, current or anchoring, is shared between tasks. */
  ghost predicate EpochsDistinct(h: Hub) {
    forall s, t :: s in h.claims && t in h.claims && s != t ==> EpochsApart(h.claims[s], h.claims[t])
  }

  ghost predicate LeasesBounded(h: Hub) {
    forall t :: t in h.claims ==>
      MINIMUM_TTL_SECONDS <= h.claims[t].expiresAt - h.claims[t].claimedAt <= MAXIMUM_TTL_SECONDS
  }

  /** Mutual exclusion: claims of different owners never contend. */
  ghost predicate Exclusive(h: Hub, u: Unicode) {
    forall s, t :: s in h.claims && t in h.claims && h.claims[s].owner != h.claims[t].owner ==>
      !Conflict(h.claims[s].scope, h.claims[t].scope, u)
  }

  ghost predicate WithinQuota(cfg: Config, claims: map<string, Claim>) {
    forall p :: |ChargedTo(claims, p)| <= cfg.maxClaims
  }

  /** A retained checkpoint belongs to a task nobody holds. */
  ghost predicate CheckpointsApart(h: Hub) {
    forall t :: t in h.expired ==> t !in h.claims
  }

  ghost predicate Identified(h: Hub, u: Unicode) {
    forall t :: t in h.claims && h.claims[t].scope.identity.Some? ==>
      ValidatesDisplayScope(h.claims[t].scope.identity.value, h.claims[t].scope.worktree, h.claims[t].scope.paths, u)
  }

  /**
    * A witness in custody is never contradicted: its task is either the captured claim,
    * untouched, or unheld; and whoever contends with its scope is its own owner.
    */
  ghost predicate Shielded(h: Hub, w: Witness, u: Unicode) {
    && (w.task in h.claims ==> Capture(h.claims[w.task]) == w)
    && (forall t :: t in h.claims && Conflict(h.claims[t].scope, w.scope, u) ==> h.claims[t].owner == w.owner)
  }

  ghost predicate CustodySafe(h: Hub, u: Unicode) {
    && h.custody.Keys <= h.retained
    && (forall id, w :: id in h.custody && w in h.custody[id] ==> Shielded(h, w, u))
  }

  /** Reservations hold pairwise separate custody. */
  ghost predicate CustodyApart(h: Hub, u: Unicode) {
    forall i, j, v, w :: i in h.custody && j in h.custody && i != j && v in h.custody[i] && w in h.custody[j] ==>
      !WitnessBlocks(v, w.task, w.scope, u)
  }

  /** Stored paths are what some declaration normalised to. */
  ghost predicate IsStored(cfg: Config, paths: seq<string>) {
    exists declared :: NormalizedPaths(declared, cfg.maxPaths, cfg.u.printable) == paths
  }

  ghost predicate PathsStored(cfg: Config, h: Hub) {
    forall t :: t in h.claims ==> IsStored(cfg, h.claims[t].scope.paths)
  }

  /** The part of the invariant that speaks of claims, epochs and checkpoints alone. */
  ghost predicate ClaimsInv(cfg: Config, h: Hub) {
    && Keyed(h) && EpochsIssued(h) && EpochsDistinct(h) && LeasesBounded(h)
    && Exclusive(h, cfg.u) && WithinQuota(cfg, h.claims) && CheckpointsApart(h) && Identified(h, cfg.u)
    && PathsStored(cfg, h)
  }

  ghost predicate Inv(cfg: Config, h: Hub) {
    ClaimsInv(cfg, h) && CustodySafe(h, cfg.u) && CustodyApart(h, cfg.u)
  }

  lemma ClaimsInvOnly(cfg: Config, h: Hub, h': Hub)
    requires ClaimsInv(cfg, h) && h'.claims == h.claims && h'.epochSeq == h.epochSeq && h'.expired == h.expired
    ensures ClaimsInv(cfg, h')
  {
    hide Conflict, ValidatesDisplayScope, WithinQuota, IsStored;
  }

  // ---------------------------------------------------------------- dropping and editing claims

  /** Fewer claims and no other change keep everything. */
  lemma FewerClaims(cfg: Config, h: Hub, h': Hub)
    requires Inv(cfg, h)
    requires h'.claims.Keys <= h.claims.Keys && forall t :: t in h'.claims ==> h'.claims[t] == h.claims[t]
    requires h'.epochSeq == h.epochSeq && h'.custody == h.custody && h'.retained == h.retained
    requires CheckpointsApart(h')
    ensures Inv(cfg, h')
  {
    hide Conflict, WitnessBlocks, ValidatesDisplayScope, WithinQuota, IsStored;
    QuotaShrinks(cfg, h.claims, h'.claims);
    forall id, w | id in h'.custody && w in h'.custody[id] ensures Shielded(h', w, cfg.u) {
      assert Shielded(h, w, cfg.u);
    }
  }

  lemma QuotaShrinks(cfg: Config, claims: map<string, Claim>, claims': map<string, Claim>)
    requires WithinQuota(cfg, claims)
    requires forall t :: t in claims' ==> t in claims && Payer(claims'[t]) == Payer(claims[t])
    ensures WithinQuota(cfg, claims')
  {
    forall p ensures |ChargedTo(claims', p)| <= cfg.maxClaims {
      SubsetSize(ChargedTo(claims', p), ChargedTo(claims, p));
    }
  }

  lemma {:induction false} SubsetSize(a: set<string>, b: set<string>)
    requires a <= b
    ensures |a| <= |b|
  {
    if a != {} {
      var x :| x in a;
      SubsetSize(a - {x}, b - {x});
    }
  }

  lemma SweepKeeps(cfg: Config, h: Hub, now: real)
    requires Inv(cfg, h)
    ensures Inv(cfg, Sweep(h, now))
  {
    FewerClaims(cfg, h, Sweep(h, now));
  }

  lemma BeatKeeps(cfg: Config, h: Hub, agent: string, now: real)
    requires Inv(cfg, h)
    ensures Inv(cfg, Beat(h, agent, now))
  {
    FewerClaims(cfg, h, h.(lastSeen := h.lastSeen[agent := now]));
    SweepKeeps(cfg, h.(lastSeen := h.lastSeen[agent := now]), now);
  }

  /** The parts of a claim an in-place edit leaves alone. */
  predicate SameAuthority(c: Claim, d: Claim) {
    && c.task == d.task && c.owner == d.owner && c.principal == d.principal && c.scope == d.scope
    && c.epoch == d.epoch && c.ownershipEpoch == d.ownershipEpoch
  }

  lemma EditKeepsExclusive(h: Hub, task: string, d: Claim, u: Unicode)
    requires Exclusive(h, u) && task in h.claims && SameAuthority(h.claims[task], d)
    ensures Exclusive(h.(claims := h.claims[task := d]), u)
  {
    hide Conflict;
    var h' := h.(claims := h.claims[task := d]);
    forall s, t | s in h'.claims && t in h'.claims && h'.claims[s].owner != h'.claims[t].owner
      ensures !Conflict(h'.claims[s].scope, h'.claims[t].scope, u)
    {
      assert h.claims[s].owner != h.claims[t].owner;
    }
  }

  lemma EditKeepsCustody(h: Hub, task: string, d: Claim, u: Unicode)
    requires CustodySafe(h, u) && task in h.claims && SameAuthority(h.claims[task], d)
    requires !CustodyHoldsTask(h.custody, task)
    ensures CustodySafe(h.(claims := h.claims[task := d]), u)
  {
    hide Conflict;
    var h' := h.(claims := h.claims[task := d]);
    forall id, w | id in h'.custody && w in h'.custody[id] ensures Shielded(h', w, u) {
      assert Shielded(h, w, u);
    }
  }

  lemma EditKeepsEpochs(h: Hub, task: string, d: Claim)
    requires EpochsIssued(h) && EpochsDistinct(h) && task in h.claims && SameAuthority(h.claims[task], d)
    ensures EpochsIssued(h.(claims := h.claims[task := d])) && EpochsDistinct(h.(claims := h.claims[task := d]))
  {
  }

  /** An edit that leaves authority alone keeps everything, unless custody pins the claim. */
  lemma EditKeeps(cfg: Config, h: Hub, task: string, d: Claim)
    requires Inv(cfg, h) && task in h.claims && SameAuthority(h.claims[task], d)
    requires !CustodyHoldsTask(h.custody, task)
    requires d.expiresAt - d.claimedAt == h.claims[task].expiresAt - h.claims[task].claimedAt
    ensures Inv(cfg, h.(claims := h.claims[task := d]))
  {
    hide Conflict, WitnessBlocks, ValidatesDisplayScope, WithinQuota, CustodySafe, Exclusive, CustodyHoldsTask;
    hide IsStored, EpochsIssued, EpochsDistinct;
    EditKeepsEpochs(h, task, d);
    var h' := h.(claims := h.claims[task := d]);
    QuotaShrinks(cfg, h.claims, h'.claims);
    EditKeepsExclusive(h, task, d, cfg.u);
    EditKeepsCustody(h, task, d, cfg.u);
  }

  // ---------------------------------------------------------------- new authority

  /** A freshly issued claim may be stored when scope, quota and custody leave room for it. */
  ghost predicate Admissible(cfg: Config, h: Hub, c: Claim) {
    && c.epoch == h.epochSeq + 1
    && (c.ownershipEpoch == c.epoch || (c.task in h.claims && c.ownershipEpoch == h.claims[c.task].ownershipEpoch))
    && MINIMUM_TTL_SECONDS <= c.expiresAt - c.claimedAt <= MAXIMUM_TTL_SECONDS
    && !ScopeBlocked(h.claims, c.task, c.owner, c.scope, cfg.u)
    && !CustodyBlocksScope(h.custody, c.task, c.scope, cfg.u)
    && (c.scope.identity.Some? ==>
          ValidatesDisplayScope(c.scope.identity.value, c.scope.worktree, c.scope.paths, cfg.u))
    && IsStored(cfg, c.scope.paths)
    && (|| (c.task in h.claims && Payer(h.claims[c.task]) == Payer(c))
        || |ChargedTo(h.claims, Payer(c))| < cfg.maxClaims)
  }

  lemma StoreKeepsExclusive(cfg: Config, h: Hub, c: Claim, h': Hub)
    requires Exclusive(h, cfg.u) && !ScopeBlocked(h.claims, c.task, c.owner, c.scope, cfg.u)
    requires h'.claims == h.claims[c.task := c]
    ensures Exclusive(h', cfg.u)
  {
    hide Conflict;
    forall t | t in h'.claims && h'.claims[t].owner != c.owner
      ensures !Conflict(c.scope, h'.claims[t].scope, cfg.u) && !Conflict(h'.claims[t].scope, c.scope, cfg.u)
    {
      assert t in h.claims && t != c.task;
      assert !Contends(h.claims, t, c.task, c.owner, c.scope, cfg.u);
      ConflictIsSymmetric(c.scope, h.claims[t].scope, cfg.u);
    }
  }

  lemma StoreKeepsQuota(cfg: Config, claims: map<string, Claim>, c: Claim, claims': map<string, Claim>)
    requires WithinQuota(cfg, claims) && claims' == claims[c.task := c]
    requires || (c.task in claims && Payer(claims[c.task]) == Payer(c))
             || |ChargedTo(claims, Payer(c))| < cfg.maxClaims
    ensures WithinQuota(cfg, claims')
  {
    forall p ensures |ChargedTo(claims', p)| <= cfg.maxClaims {
      var before, after := ChargedTo(claims, p), ChargedTo(claims', p);
      if p != Payer(c) {
        SubsetSize(after, before);
      } else if c.task in claims && Payer(claims[c.task]) == p {
        assert after == before;
      } else {
        assert after == before + {c.task};
      }
    }
  }

  lemma StoreKeepsCustody(cfg: Config, h: Hub, c: Claim, h': Hub)
    requires CustodySafe(h, cfg.u) && !CustodyBlocksScope(h.custody, c.task, c.scope, cfg.u)
    requires h'.claims == h.claims[c.task := c] && h'.custody == h.custody && h'.retained == h.retained
    ensures CustodySafe(h', cfg.u)
  {
    hide Conflict;
    forall id, w | id in h'.custody && w in h'.custody[id] ensures Shielded(h', w, cfg.u) {
      assert Shielded(h, w, cfg.u);
      assert !WitnessBlocks(w, c.task, c.scope, cfg.u);
    }
  }

  lemma StoreKeepsEpochs(h: Hub, c: Claim, h': Hub)
    requires EpochsIssued(h) && EpochsDistinct(h) && c.epoch == h.epochSeq + 1 == h'.epochSeq
    requires c.ownershipEpoch == c.epoch || (c.task in h.claims && c.ownershipEpoch == h.claims[c.task].ownershipEpoch)
    requires h'.claims == h.claims[c.task := c]
    ensures EpochsIssued(h') && EpochsDistinct(h')
  {
    forall t | t in h.claims && t != c.task ensures EpochsApart(c, h.claims[t]) && EpochsApart(h.claims[t], c) {
      if c.task in h.claims {
        assert EpochsApart(h.claims[c.task], h.claims[t]);
      }
    }
  }

  lemma StoreKeeps(cfg: Config, h: Hub, c: Claim, h': Hub)
    requires Inv(cfg, h) && Admissible(cfg, h, c)
    requires h'.claims == h.claims[c.task := c] && h'.epochSeq == c.epoch
    requires h'.custody == h.custody && h'.retained == h.retained && CheckpointsApart(h')
    ensures Inv(cfg, h')
  {
    hide WitnessBlocks, ValidatesDisplayScope, ScopeBlocked, CustodyBlocksScope, ChargedTo, Payer, IsStored;
    hide WithinQuota, Exclusive, CustodySafe, EpochsIssued, EpochsDistinct;
    StoreKeepsEpochs(h, c, h');
    StoreKeepsExclusive(cfg, h, c, h');
    StoreKeepsQuota(cfg, h.claims, c, h'.claims);
    StoreKeepsCustody(cfg, h, c, h');
  }

  // ---------------------------------------------------------------- the operations

  lemma AcquireKeeps(cfg: Config, h: Hub, r: ClaimRequest, now: real)
    requires ValidConfig(cfg) && Inv(cfg, h)
    ensures Inv(cfg, DoAcquire(cfg, h, r, now).0)
  {
    hide Conflict, WitnessBlocks, ValidatesDisplayScope, ScopeBlocked, CustodyBlocksScope, NormalizedPaths, Strip, Sweep;
    var task, scope, s := Strip(r.task), StoredScope(cfg, r.scope), Beat(h, r.agent, now);
    BeatKeeps(cfg, h, r.agent, now);
    if DoAcquire(cfg, h, r, now).1.Granted? {
      var c := GrantedClaim(cfg, s, r, task, scope, now);
      assert IsStored(cfg, scope.paths);
      StoreKeeps(cfg, s, c, Install(s, c));
    }
  }

  lemma MoveIsAdmissible(cfg: Config, h: Hub, op: Op, now: real)
    requires ValidConfig(cfg) && Inv(cfg, h) && op.Handoff?
    requires HandoffRefusal(cfg, h, op.agent, Strip(op.task), Strip(op.target), op.epoch).None?
    ensures Strip(op.task) in h.claims
    ensures var c := MovedClaim(cfg, h, h.claims[Strip(op.task)], Strip(op.target), op.note, now);
            && c.task == Strip(op.task) && c.epoch == h.epochSeq + 1 && Admissible(cfg, h, c)
            && CheckpointsApart(h.(claims := h.claims[c.task := c], epochSeq := c.epoch))
  {
    hide Conflict, WitnessBlocks, ValidatesDisplayScope, ScopeBlocked, CustodyBlocksScope, CustodyHoldsTask, Strip;
    hide WithinQuota, Exclusive, CustodySafe, CustodyApart, EpochsDistinct, EpochsIssued, LeasesBounded;
    assert IsStored(cfg, h.claims[Strip(op.task)].scope.paths);
  }

  lemma HandoffKeeps(cfg: Config, h: Hub, op: Op, now: real)
    requires ValidConfig(cfg) && Inv(cfg, h) && op.Handoff?
    ensures Inv(cfg, DoHandoff(cfg, h, op, now).0)
  {
    hide Conflict, ValidatesDisplayScope, ScopeBlocked, CustodyBlocksScope, Strip, Beat, Inv, Admissible, HandoffRefusal, MovedClaim;
    var task, target, s := Strip(op.task), Strip(op.target), Beat(h, op.agent, now);
    BeatKeeps(cfg, h, op.agent, now);
    if DoHandoff(cfg, h, op, now).1.Granted? {
      MoveIsAdmissible(cfg, s, op, now);
      var c := MovedClaim(cfg, s, s.claims[task], target, op.note, now);
      StoreKeeps(cfg, s, c, DoHandoff(cfg, h, op, now).0);
    }
  }

  lemma OwnerEditsKeep(cfg: Config, h: Hub, op: Op, now: real)
    requires Inv(cfg, h) && (op.Renew? || op.Update? || op.Checkpoint?)
    ensures Inv(cfg, Apply(cfg, h, op, now).0)
  {
    hide Inv, CustodyHoldsTask, Strip, Sweep;
    BeatKeeps(cfg, h, op.agent, now);
    var s, h' := Beat(h, op.agent, now), Apply(cfg, h, op, now).0;
    var task := if op.Update? then op.task else Strip(op.task);
    if Apply(cfg, h, op, now).1.Granted? {
      EditKeeps(cfg, s, task, h'.claims[task]);
    }
  }

  lemma ReleasesKeep(cfg: Config, h: Hub, op: Op, now: real)
    requires Inv(cfg, h) && (op.Release? || op.ForceRelease?)
    ensures Inv(cfg, Apply(cfg, h, op, now).0)
  {
    hide Strip, Sweep, Conflict, WitnessBlocks, ValidatesDisplayScope;
    var s := if op.Release? then Beat(h, op.agent, now) else h;
    if op.Release? {
      BeatKeeps(cfg, h, op.agent, now);
    }
    if Apply(cfg, h, op, now).1.Granted? {
      FewerClaims(cfg, s, Drop(s, Strip(op.task)));
    }
  }

  lemma OpenKeepsSafe(cfg: Config, h: Hub, id: string, witnesses: seq<Witness>, h': Hub)
    requires Inv(cfg, h) && FreshWitnesses(h, witnesses, cfg.u)
    requires h' == h.(custody := h.custody[id := witnesses], retained := h.retained + {id})
    ensures CustodySafe(h', cfg.u)
  {
    hide Conflict, ValidatesDisplayScope, CustodyBlocksScope, WithinQuota;
    forall j, w | j in h'.custody && w in h'.custody[j] ensures Shielded(h', w, cfg.u) {
      if j == id {
        assert w in witnesses;
      } else {
        assert Shielded(h, w, cfg.u);
      }
    }
  }

  lemma OpenKeepsApart(cfg: Config, h: Hub, id: string, witnesses: seq<Witness>, h': Hub)
    requires CustodyApart(h, cfg.u) && FreshWitnesses(h, witnesses, cfg.u) && id !in h.custody
    requires h' == h.(custody := h.custody[id := witnesses], retained := h.retained + {id})
    ensures CustodyApart(h', cfg.u)
  {
    hide Conflict, WitnessBlocks;
    forall i, j, v, w | i in h'.custody && j in h'.custody && i != j && v in h'.custody[i] && w in h'.custody[j]
      ensures !WitnessBlocks(v, w.task, w.scope, cfg.u)
    {
      BlockingIsSymmetric(v, w, cfg.u);
      if i == id {
        assert !CustodyBlocksScope(h.custody, v.task, v.scope, cfg.u);
      } else if j == id {
        assert !CustodyBlocksScope(h.custody, w.task, w.scope, cfg.u);
      }
    }
  }

  lemma BlockingIsSymmetric(v: Witness, w: Witness, u: Unicode)
    ensures WitnessBlocks(v, w.task, w.scope, u) == WitnessBlocks(w, v.task, v.scope, u)
  {
    hide Conflict;
    ConflictIsSymmetric(v.scope, w.scope, u);
  }

  lemma SettleKeepsSafe(h: Hub, id: string, u: Unicode)
    requires CustodySafe(h, u)
    ensures CustodySafe(h.(custody := h.custody - {id}), u)
  {
    hide Conflict;
    var h' := h.(custody := h.custody - {id});
    forall j, w | j in h'.custody && w in h'.custody[j] ensures Shielded(h', w, u) {
      assert Shielded(h, w, u);
    }
  }

  lemma CustodyOpsKeep(cfg: Config, h: Hub, op: Op, now: real)
    requires Inv(cfg, h) && (op.OpenCustody? || op.SettleCustody?)
    ensures Inv(cfg, Apply(cfg, h, op, now).0)
  {
    hide Conflict, FreshWitnesses, WitnessBlocks, ClaimsInv, CustodySafe;
    var h' := Apply(cfg, h, op, now).0;
    ClaimsInvOnly(cfg, h, h');
    if op.OpenCustody? && h' != h {
      OpenKeepsSafe(cfg, h, op.id, op.witnesses, h');
      OpenKeepsApart(cfg, h, op.id, op.witnesses, h');
    } else if h' != h {
      SettleKeepsSafe(h, op.id, cfg.u);
    }
  }

  /** Every operation, granted or refused and at any clock reading, keeps the invariant. */
  lemma StepKeepsInvariant(cfg: Config, h: Hub, op: Op, now: real)
    requires ValidConfig(cfg) && Inv(cfg, h)
    ensures Inv(cfg, Apply(cfg, h, op, now).0)
  {
    hide Inv, DoAcquire, DoHandoff, Sweep;
    match op
    case Acquire(r) => AcquireKeeps(cfg, h, r, now);
    case Handoff(_, _, _, _, _) => HandoffKeeps(cfg, h, op, now);
    case Renew(_, _, _, _) => OwnerEditsKeep(cfg, h, op, now);
    case Update(_, _, _, _, _, _, _) => OwnerEditsKeep(cfg, h, op, now);
    case Checkpoint(_, _, _, _) => OwnerEditsKeep(cfg, h, op, now);
    case Release(_, _, _) => ReleasesKeep(cfg, h, op, now);
    case ForceRelease(_) => ReleasesKeep(cfg, h, op, now);
    case Heartbeat(agent) => BeatKeeps(cfg, h, agent, now);
    case Snapshot => SweepKeeps(cfg, h, now);
    case OpenCustody(_, _, _) => CustodyOpsKeep(cfg, h, op, now);
    case SettleCustody(_) => CustodyOpsKeep(cfg, h, op, now);
  }

  lemma {:induction false} RunKeepsInvariant(cfg: Config, h: Hub, steps: seq<Step>)
    requires ValidConfig(cfg) && Inv(cfg, h)
    ensures Inv(cfg, Run(cfg, h, steps))
    decreases steps
  {
    hide Inv, Apply;
    if steps != [] {
      StepKeepsInvariant(cfg, h, steps[0].op, steps[0].now);
      RunKeepsInvariant(cfg, Apply(cfg, h, steps[0].op, steps[0].now).0, steps[1..]);
    }
  }

  lemma EmptyHub(cfg: Config)
    requires ValidConfig(cfg)
    ensures Inv(cfg, EMPTY)
  {
    forall p ensures |ChargedTo(EMPTY.claims, p)| <= cfg.maxClaims {
      assert ChargedTo(EMPTY.claims, p) == {};
    }
  }

  // ---------------------------------------------------------------- where a claim comes from

  /** The claim a granted request leaves at its task. */
  predicate Requested(cfg: Config, r: ClaimRequest, t: string, c: Claim) {
    && t == Strip(r.task) && c.scope == StoredScope(cfg, r.scope)
    && c.owner == r.agent && Payer(c) == PrincipalOf(r.agent, r.principal)
  }

  lemma AcquireOrigin(cfg: Config, h: Hub, r: ClaimRequest, now: real, t: string)
    requires t in DoAcquire(cfg, h, r, now).0.claims
    ensures var (h', o) := DoAcquire(cfg, h, r, now);
            if o.Granted? && t == Strip(r.task) then Requested(cfg, r, t, h'.claims[t])
            else t in h.claims && h'.claims[t] == h.claims[t]
  {
    hide Strip, Lapsing, StoredScope, ValidatesDisplayScope, AcquireRefusal, ResumeToken, ContinuationEpoch;
  }

  lemma HandoffOrigin(cfg: Config, h: Hub, op: Op, now: real, t: string)
    requires op.Handoff? && t in DoHandoff(cfg, h, op, now).0.claims
    ensures var (h', o) := DoHandoff(cfg, h, op, now);
            && t in h.claims && h'.claims[t].scope == h.claims[t].scope
            && (h'.claims[t] == h.claims[t] || (o.Granted? && h'.claims[t].owner == Strip(op.target)))
  {
    hide Strip, Lapsing, HandoffRefusal;
    HandoffNeedsClaim(cfg, Beat(h, op.agent, now), op);
  }

  lemma HandoffNeedsClaim(cfg: Config, h: Hub, op: Op)
    requires op.Handoff?
    ensures HandoffRefusal(cfg, h, op.agent, Strip(op.task), Strip(op.target), op.epoch).None? ==> Strip(op.task) in h.claims
  {
    hide Strip, ScopeBlocked, CustodyBlocksScope, CustodyHoldsTask;
  }

  lemma EditOrigin(h: Hub, op: Op, now: real, t: string)
    requires op.Update? && t in DoUpdate(h, op, now).0.claims
    ensures t in h.claims && SameAuthority(h.claims[t], DoUpdate(h, op, now).0.claims[t])
  {
    hide Strip, Lapsing, CustodyHoldsTask, CanTransition;
  }

  lemma RenewOrigin(cfg: Config, h: Hub, op: Op, now: real, t: string)
    requires op.Renew? && t in DoRenew(cfg, h, op.agent, op.task, op.generation, op.paths, now).0.claims
    ensures t in h.claims
    ensures SameAuthority(h.claims[t], DoRenew(cfg, h, op.agent, op.task, op.generation, op.paths, now).0.claims[t])
  {
    hide Strip, Lapsing, CustodyHoldsTask;
  }

  lemma CheckpointOrigin(h: Hub, op: Op, now: real, t: string)
    requires op.Checkpoint? && t in DoCheckpoint(h, op.agent, op.task, op.checkpoint, op.epoch, now).0.claims
    ensures t in h.claims
    ensures SameAuthority(h.claims[t], DoCheckpoint(h, op.agent, op.task, op.checkpoint, op.epoch, now).0.claims[t])
  {
    hide Strip, Lapsing, CustodyHoldsTask;
  }

  /** These operations only drop claims. */
  predicate OnlyDrops(op: Op) {
    op.Release? || op.ForceRelease? || op.Heartbeat? || op.Snapshot? || op.OpenCustody? || op.SettleCustody?
  }

  lemma DropOrigin(cfg: Config, h: Hub, op: Op, now: real, t: string)
    requires OnlyDrops(op) && t in Apply(cfg, h, op, now).0.claims
    ensures t in h.claims && Apply(cfg, h, op, now).0.claims[t] == h.claims[t]
  {
    hide Strip, Lapsing, ReleaseRefusal, CustodyHoldsTask, FreshWitnesses, DoAcquire, DoHandoff, DoUpdate, DoRenew, DoCheckpoint;
  }

  /**
    * Only a granted claim request sets who pays for a claim and which files it takes, and
    * only that or a granted handoff sets its owner.
    */
  lemma ClaimOrigin(cfg: Config, h: Hub, op: Op, now: real, t: string)
    requires t in Apply(cfg, h, op, now).0.claims
    ensures var (h', o) := Apply(cfg, h, op, now);
            if op.Acquire? && o.Granted? && t == Strip(op.request.task) then Requested(cfg, op.request, t, h'.claims[t])
            else
              && t in h.claims && h'.claims[t].scope == h.claims[t].scope
              && (|| (h'.claims[t].owner == h.claims[t].owner && Payer(h'.claims[t]) == Payer(h.claims[t]))
                  || (op.Handoff? && o.Granted? && h'.claims[t].owner == Strip(op.target)))
  {
    hide Strip, DoAcquire, DoHandoff, DoRenew, DoUpdate, DoCheckpoint, DoRelease, DoForceRelease, Sweep, Requested;
    match op
    case Acquire(r) => AcquireOrigin(cfg, h, r, now, t);
    case Handoff(_, _, _, _, _) => HandoffOrigin(cfg, h, op, now, t);
    case Update(_, _, _, _, _, _, _) => EditOrigin(h, op, now, t);
    case Renew(_, _, _, _) => RenewOrigin(cfg, h, op, now, t);
    case Checkpoint(_, _, _, _) => CheckpointOrigin(h, op, now, t);
    case _ => DropOrigin(cfg, h, op, now, t);
  }

  // ---------------------------------------------------------------- whole runs

  /**
    * Safety of whole runs from the empty hub: at no point do claims of two agents contend,
    * is any principal charged with more claims than the cap, or does anyone but its owner
    * hold files that a reservation retains. `LeaseDeclarations` says what the first means
    * for declared files, and `LeaseQuota` what the second means for one agent.
    */
  lemma EveryRunIsSafe(cfg: Config, steps: seq<Step>)
    requires ValidConfig(cfg)
    ensures var h := Run(cfg, EMPTY, steps);
            && (forall s, t :: s in h.claims && t in h.claims && h.claims[s].owner != h.claims[t].owner ==>
                  !Conflict(h.claims[s].scope, h.claims[t].scope, cfg.u))
            && WithinQuota(cfg, h.claims)
            && (forall id, w, t :: id in h.custody && w in h.custody[id] && t in h.claims ==>
                  Conflict(h.claims[t].scope, w.scope, cfg.u) ==> h.claims[t].owner == w.owner)
  {
    hide Conflict, Run, ChargedTo, ValidatesDisplayScope, WitnessBlocks;
    EmptyHub(cfg);
    RunKeepsInvariant(cfg, EMPTY, steps);
    var h := Run(cfg, EMPTY, steps);
    forall id, w, t | id in h.custody && w in h.custody[id] && t in h.claims && Conflict(h.claims[t].scope, w.scope, cfg.u)
      ensures h.claims[t].owner == w.owner
    {
      assert Shielded(h, w, cfg.u);
    }
  }

  /** For claims without identity, two owners' claims share no file of one worktree. */
  lemma OwnersShareNoFile(cfg: Config, steps: seq<Step>, s: string, t: string, file: seq<string>)
    requires ValidConfig(cfg)
    requires var h := Run(cfg, EMPTY, steps);
             && s in h.claims && t in h.claims && h.claims[s].owner != h.claims[t].owner
             && h.claims[s].scope.identity.None? && h.claims[t].scope.identity.None?
             && h.claims[s].scope.worktree == h.claims[t].scope.worktree
    ensures var h := Run(cfg, EMPTY, steps);
            !(Owns(h.claims[s].scope.paths, file) && Owns(h.claims[t].scope.paths, file))
  {
    hide Conflict, Run, Owns;
    EveryRunIsSafe(cfg, steps);
    var h := Run(cfg, EMPTY, steps);
    var a, b := h.claims[s].scope, h.claims[t].scope;
    PlainConflict(a, b, cfg.u);
    ConflictIsCommonFile(a.worktree, a.paths, b.worktree, b.paths);
  }
}
