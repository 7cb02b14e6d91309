/**
  * When the hub must say yes: renewals, and claims nobody contends for; and when leases end.
  */
module LeaseLiveness {
  import opened PathIdentity
  import opened Strings
  import opened Scoping
  import opened Lease
  import opened LeaseInvariants

  // ---------------------------------------------------------------- renewal by re-claiming

  /** The owner asks for the scope it already holds. */
  ghost predicate Renews(h: Hub, r: ClaimRequest, t: string, now: real) {
    && t in h.claims && t != "" && Strip(r.task) == t && h.claims[t].expiresAt > now
    && r.agent == h.claims[t].owner && r.scope == h.claims[t].scope && !r.requireUnclaimed
  }

  ghost predicate Settled(c: Claim) {
    forall p :: p in c.scope.paths ==> Trimmed(p)
  }

  /** Comparing the stored paths reads each as it would after one more normalisation. */
  ghost predicate KeepsReach(c: Claim) {
    c.scope.identity.Some? || forall p :: p in c.scope.paths ==> Trimmed(Normalized(p))
  }

  predicate IdentityHolds(cfg: Config, scope: Scope) {
    scope.identity.Some? ==> ValidatesDisplayScope(scope.identity.value, scope.worktree, scope.paths, cfg.u)
  }

  /** The principal is the one already charged for the task, or has room for one more claim. */
  predicate RoomToRenew(cfg: Config, h: Hub, r: ClaimRequest, t: string, now: real)
    requires t in h.claims
  {
    || Payer(h.claims[t]) == PrincipalOf(r.agent, r.principal)
    || |ChargedTo(Unexpired(h.claims, now), PrincipalOf(r.agent, r.principal))| < cfg.maxClaims
  }

  /**
    * Exactly when a renewal is granted, for every stored scope. The scope that counts is
    * the stored one normalised once more: it must still match its identity, no reservation
    * may retain it, no other owner may contend with it, and there must be room.
    */
  lemma RenewalIsExact(cfg: Config, h: Hub, r: ClaimRequest, t: string, now: real)
    requires Renews(h, r, t, now)
    ensures var scope := StoredScope(cfg, r.scope);
            DoAcquire(cfg, h, r, now).1.Granted? <==>
            && IdentityHolds(cfg, scope) && !CustodyBlocksScope(h.custody, t, scope, cfg.u)
            && !ScopeBlocked(Unexpired(h.claims, now), t, r.agent, scope, cfg.u)
            && RoomToRenew(cfg, h, r, t, now)
  {
    hide Conflict, ValidatesDisplayScope, NormalizedPaths, CustodyBlocksScope, ScopeBlocked, Strip, PrincipalOf, ChargedTo, Lapsing;
  }

  /** A stored scope is compared with others as its paths normalised again are. */
  lemma ReachSurvives(declared: seq<string>, cap: nat, printable: char -> bool)
    requires printable('/') && forall p :: p in NormalizedPaths(declared, cap, printable) ==> Trimmed(Normalized(p))
    ensures var stored := NormalizedPaths(declared, cap, printable);
            var again := NormalizedPaths(stored, cap, printable);
            && (again == [] <==> stored == [])
            && forall q :: q in again ==> exists p :: p in stored && Normalized(p) == Normalized(q)
  {
    hide Normalized, NormalizedPaths, Dedup, Trimmed;
    var stored := NormalizedPaths(declared, cap, printable);
    var again := NormalizedPaths(stored, cap, printable);
    RootComponents();
    if stored == [""] {
      RootIsStored(cap, printable);
    } else {
      StoredIsDistinct(declared, cap, printable);
      forall p | p in stored ensures Trusted(p, printable) && Normalized(Normalized(p)) == Normalized(p) {
        StoredPath(declared, cap, printable, p);
        SettledIffTrimmed(p);
      }
      if again == [""] {
        WideningIsOwn(stored, cap, printable);
      } else {
        StoredOf(stored, cap, printable);
      }
    }
  }

  /** Only a path that is read as the root widens a stored scope. */
  lemma WideningIsOwn(stored: seq<string>, cap: nat, printable: char -> bool)
    requires |stored| <= cap && NormalizedPaths(stored, cap, printable) == [""]
    requires forall p :: p in stored ==> Trusted(p, printable)
    ensures exists p :: p in stored && Normalized(p) == ""
  {
    hide Normalized, Trusted;
    if !exists raw :: raw in stored && Widens(raw, printable) {
      assert "" in Dedup(NormalizedEach(stored));
      assert "" in NormalizedEach(stored);
    }
  }

  /** Only what the compared paths are read as matters for contention. */
  lemma SameReachConflicts(a: Scope, again: Scope, b: Scope, u: Unicode)
    requires again == a.(paths := again.paths) && (again.paths == [] <==> a.paths == [])
    requires a.identity.Some? || forall q :: q in again.paths ==> exists p :: p in a.paths && Normalized(p) == Normalized(q)
    requires Conflict(again, b, u)
    ensures Conflict(a, b, u)
  {
    hide Normalized, ComparisonWorktree, SameWorktreeKey, RowsOverlap, UnderCasePolicy, ObjectIdsComparable;
    if a.paths != [] && b.paths != [] && a.identity.None? {
      if b.identity.None? {
        var q, y :| q in again.paths && y in b.paths && PathsOverlap(q, y);
        var p :| p in a.paths && Normalized(p) == Normalized(q);
        assert PathsOverlap(p, y);
      } else {
        SameReachRows(a, again, b, u);
      }
    }
  }

  lemma SameReachRows(a: Scope, again: Scope, b: Scope, u: Unicode)
    requires a.identity.None? && again.identity.None? && b.identity.Some?
    requires forall q :: q in again.paths ==> exists p :: p in a.paths && Normalized(p) == Normalized(q)
    ensures forall row :: row in Rows(again, b.identity, u) ==> row in Rows(a, b.identity, u)
  {
    hide Normalized;
    var cs := b.identity.value.caseSensitive;
    var rows := Rows(a, b.identity, u);
    forall row | row in Rows(again, b.identity, u) ensures row in rows {
      var i :| 0 <= i < |again.paths| && row == LegacyRow(again.paths[i], cs, u);
      var p :| p in a.paths && Normalized(p) == Normalized(again.paths[i]);
      var k :| 0 <= k < |a.paths| && a.paths[k] == p;
      assert rows[k] == row;
    }
  }

  /**
    * An owner whose stored paths keep their reach is never refused its own scope for
    * another owner's: then a renewal is granted exactly when its identity still matches,
    * no reservation retains the scope and there is room.
    */
  lemma ReachIsNeverTaken(cfg: Config, h: Hub, r: ClaimRequest, t: string, now: real)
    requires Inv(cfg, h) && Renews(h, r, t, now) && KeepsReach(h.claims[t]) && cfg.u.printable('/')
    ensures !ScopeBlocked(Unexpired(h.claims, now), t, r.agent, StoredScope(cfg, r.scope), cfg.u)
    ensures DoAcquire(cfg, h, r, now).1.Granted? <==>
            && IdentityHolds(cfg, StoredScope(cfg, r.scope))
            && !CustodyBlocksScope(h.custody, t, StoredScope(cfg, r.scope), cfg.u)
            && RoomToRenew(cfg, h, r, t, now)
  {
    hide Conflict, NormalizedPaths, WitnessBlocks, Strip, RoomToRenew, IdentityHolds, CustodyBlocksScope, DoAcquire;
    hide CustodySafe, CustodyApart, WithinQuota, EpochsDistinct, EpochsIssued, LeasesBounded, Normalized, Trimmed, Identified;
    RenewalIsExact(cfg, h, r, t, now);
    var a, again := h.claims[t].scope, StoredScope(cfg, r.scope);
    var declared :| NormalizedPaths(declared, cfg.maxPaths, cfg.u.printable) == a.paths;
    EmptyStaysEmpty(a.paths, cfg.maxPaths, cfg.u.printable);
    if a.identity.None? {
      ReachSurvives(declared, cfg.maxPaths, cfg.u.printable);
    }
    forall other | other in h.claims && h.claims[other].owner != r.agent
      ensures !Conflict(again, h.claims[other].scope, cfg.u)
    {
      assert !Conflict(a, h.claims[other].scope, cfg.u);
      if Conflict(again, h.claims[other].scope, cfg.u) {
        SameReachConflicts(a, again, h.claims[other].scope, cfg.u);
      }
    }
  }

  lemma EmptyStaysEmpty(paths: seq<string>, cap: nat, printable: char -> bool)
    ensures NormalizedPaths(paths, cap, printable) == [] <==> paths == []
  {
  }

  /**
    * The promised form: same principal, no custody. Then neither the cap nor other owners
    * matter; the anchor of the ownership survives exactly when the stored scope is settled.
    */
  lemma SamePrincipalRenewalIsFree(cfg: Config, h: Hub, r: ClaimRequest, t: string, now: real)
    requires Inv(cfg, h) && Renews(h, r, t, now) && KeepsReach(h.claims[t]) && cfg.u.printable('/')
    requires IdentityHolds(cfg, StoredScope(cfg, r.scope))
    requires !CustodyBlocksScope(h.custody, t, StoredScope(cfg, r.scope), cfg.u)
    requires Payer(h.claims[t]) == PrincipalOf(r.agent, r.principal)
    ensures var (h', o) := DoAcquire(cfg, h, r, now);
            && o.Granted? && h'.claims.Keys == Unexpired(h.claims, now).Keys
            && h'.claims[t].owner == r.agent && h'.claims[t].scope == StoredScope(cfg, r.scope)
            && (h'.claims[t].scope == h.claims[t].scope <==> Settled(h.claims[t]))
            && h'.claims[t].epoch == h.epochSeq + 1
            && h'.claims[t].ownershipEpoch == (if Settled(h.claims[t]) then h.claims[t].ownershipEpoch else h.epochSeq + 1)
            && h'.claims[t].checkpoint == h.claims[t].checkpoint
            && h'.claims[t].expiresAt == now + LeaseSeconds(cfg, r.ttl)
  {
    hide Conflict, ValidatesDisplayScope, NormalizedPaths, CustodyBlocksScope, Strip, PrincipalOf, Lapsing, KeepsReach, Trimmed;
    hide CustodySafe, CustodyApart, WithinQuota, EpochsDistinct, LeasesBounded, Exclusive, ChargedTo, ScopeBlocked, Identified;
    ReachIsNeverTaken(cfg, h, r, t, now);
    var declared :| NormalizedPaths(declared, cfg.maxPaths, cfg.u.printable) == r.scope.paths;
    StoredSettledIffTrimmed(declared, cfg.maxPaths, cfg.u.printable);
  }

  // ---------------------------------------------------------------- other grants

  /** A claim in a worktree where nobody else works is never refused for its scope. */
  lemma AloneIsNeverScopeRefused(cfg: Config, h: Hub, r: ClaimRequest, now: real)
    requires forall t :: t in h.claims && h.claims[t].owner != r.agent && t != Strip(r.task) ==>
               && !WorktreesMatch(r.scope, h.claims[t].scope, cfg.u)
               && !ObjectIdsComparable(r.scope.identity, h.claims[t].scope.identity)
    ensures DoAcquire(cfg, h, r, now).1 != Refused(ScopeTaken)
  {
    hide NormalizedPaths, ValidatesDisplayScope, CustodyBlocksScope, Strip, ChargedTo, ObjectIdsComparable, PrincipalOf, Lapsing;
    var s, scope := Beat(h, r.agent, now), StoredScope(cfg, r.scope);
    forall t | t in s.claims ensures !Contends(s.claims, t, Strip(r.task), r.agent, scope, cfg.u) {
      assert WorktreesMatch(scope, h.claims[t].scope, cfg.u) == WorktreesMatch(r.scope, h.claims[t].scope, cfg.u);
    }
  }

  // ---------------------------------------------------------------- leases end

  ghost predicate ClaimedBy(h: Hub, clock: real) {
    forall t :: t in h.claims ==> h.claims[t].claimedAt <= clock
  }

  lemma EditClaimedBy(cfg: Config, h: Hub, op: Op, now: real, clock: real)
    requires (op.Renew? || op.Update? || op.Checkpoint?) && ClaimedBy(h, clock) && now <= clock
    ensures ClaimedBy(Apply(cfg, h, op, now).0, clock)
  {
    hide Strip, Lapsing, CustodyHoldsTask, CanTransition, DoAcquire, DoHandoff;
  }

  lemma GrantClaimedBy(cfg: Config, h: Hub, op: Op, now: real, clock: real)
    requires (op.Acquire? || op.Handoff?) && ClaimedBy(h, clock) && now <= clock
    ensures ClaimedBy(Apply(cfg, h, op, now).0, clock)
  {
    hide Strip, Lapsing, StoredScope, ValidatesDisplayScope, AcquireRefusal, HandoffRefusal, PrincipalOf, ResumeToken;
    hide ContinuationEpoch;
  }

  lemma StepClaimedBy(cfg: Config, h: Hub, op: Op, now: real, clock: real)
    requires ClaimedBy(h, clock) && now <= clock
    ensures ClaimedBy(Apply(cfg, h, op, now).0, clock)
  {
    hide Apply;
    if op.Acquire? || op.Handoff? {
      GrantClaimedBy(cfg, h, op, now, clock);
    } else if op.Renew? || op.Update? || op.Checkpoint? {
      EditClaimedBy(cfg, h, op, now, clock);
    } else {
      forall t | t in Apply(cfg, h, op, now).0.claims {
        DropOrigin(cfg, h, op, now, t);
      }
    }
  }

  lemma {:induction false} RunClaimedBy(cfg: Config, h: Hub, steps: seq<Step>, clock: real)
    requires ClaimedBy(h, clock) && forall s :: s in steps ==> s.now <= clock
    ensures ClaimedBy(Run(cfg, h, steps), clock)
    decreases steps
  {
    hide Apply, ClaimedBy;
    if steps != [] {
      StepClaimedBy(cfg, h, steps[0].op, steps[0].now, clock);
      RunClaimedBy(cfg, Apply(cfg, h, steps[0].op, steps[0].now).0, steps[1..], clock);
    }
  }

  /** No claim survives a sweep more than the maximum lease after the last clock reading. */
  lemma EveryLeaseLapses(cfg: Config, steps: seq<Step>, clock: real, now: real)
    requires ValidConfig(cfg) && (forall s :: s in steps ==> s.now <= clock)
    requires now >= clock + MAXIMUM_TTL_SECONDS
    ensures Sweep(Run(cfg, EMPTY, steps), now).claims == map[]
  {
    hide Run, Exclusive, WithinQuota, Identified, PathsStored, CustodySafe, CustodyApart, Lapsing;
    EmptyHub(cfg);
    RunKeepsInvariant(cfg, EMPTY, steps);
    RunClaimedBy(cfg, EMPTY, steps, clock);
  }
}
