/**
  * The coordination registry as the hub keeps it: dictionaries updated in place and a
  * lease heap that holds live and superseded entries. Every method is proved to compute
  * the operation of `Lease` on the registry's value, so what is proved of runs holds of it.
  */
module SynapseState {
  import opened Wrappers
  import opened PathIdentity
  import opened Strings
  import opened Scoping
  import opened Lease
  import opened LeaseIndex

  ghost predicate TasksKeyed(claims: map<string, Claim>) {
    forall t :: t in claims ==> claims[t].task == t
  }

  // ---------------------------------------------------------------- the sweep, entry by entry

  /** What one due heap entry does: it ends the live lease of its task and epoch, or nothing. */
  predicate Ends(claims: map<string, Claim>, e: Entry, now: real) {
    e.task in claims && claims[e.task].epoch == e.epoch && claims[e.task].expiresAt <= now
  }

  lemma UnexpiredWithout(claims: map<string, Claim>, t: string, now: real)
    requires t in claims && claims[t].expiresAt <= now
    ensures Unexpired(claims - {t}, now) == Unexpired(claims, now)
  {
  }

  lemma LapsingWithout(claims: map<string, Claim>, expired: map<string, string>, t: string, now: real)
    requires t in claims && claims[t].expiresAt <= now
    ensures var kept := if claims[t].checkpoint != "" then expired[t := claims[t].checkpoint] else expired;
            kept + Lapsing(claims - {t}, now) == expired + Lapsing(claims, now)
  {
  }

  lemma EndingOneLease(h: Hub, t: string, now: real, h': Hub)
    requires t in h.claims && h.claims[t].expiresAt <= now
    requires h' == h.(claims := h.claims - {t},
                      expired := if h.claims[t].checkpoint != ""
                                 then h.expired[t := h.claims[t].checkpoint] else h.expired)
    ensures Sweep(h', now) == Sweep(h, now)
  {
    hide Unexpired, Lapsing;
    UnexpiredWithout(h.claims, t, now);
    LapsingWithout(h.claims, h.expired, t, now);
  }

  lemma NoneLapses(claims: map<string, Claim>, entries: multiset<Entry>, now: real)
    requires Tracked(claims, entries) && forall e :: e in entries ==> e.due > now
    ensures Unexpired(claims, now) == claims && Lapsing(claims, now) == map[]
  {
    forall t | t in claims ensures claims[t].expiresAt > now {
      assert EntryOf(claims[t], t).due > now;
    }
  }

  lemma NothingDue(h: Hub, entries: multiset<Entry>, now: real)
    requires Tracked(h.claims, entries) && forall e :: e in entries ==> e.due > now
    ensures Sweep(h, now) == h
  {
    hide Unexpired, Lapsing, Tracked;
    NoneLapses(h.claims, entries, now);
  }

  /** Popping an entry that ends no lease leaves every live lease indexed. */
  lemma StaleEntryGone(claims: map<string, Claim>, entries: multiset<Entry>, e: Entry, now: real)
    requires Tracked(claims, entries) && e.due <= now && !Ends(claims, e, now)
    ensures Tracked(claims, entries - multiset{e})
  {
    forall t | t in claims ensures EntryOf(claims[t], t) in entries - multiset{e} {
      assert EntryOf(claims[t], t) != e;
    }
  }

  lemma EndedEntryGone(claims: map<string, Claim>, entries: multiset<Entry>, e: Entry)
    requires Tracked(claims, entries)
    ensures Tracked(claims - {e.task}, entries - multiset{e})
  {
    forall t | t in claims && t != e.task ensures EntryOf(claims[t], t) in entries - multiset{e} {
      assert EntryOf(claims[t], t).task != e.task;
    }
  }

  class SynapseState {
    const cfg: Config
    var claims: map<string, Claim>
    var epochSeq: nat
    var expired: map<string, string>
    var lastSeen: map<string, real>
    var custody: map<string, seq<Witness>>
    var retained: set<string>
    var index: LeaseIndex

    ghost predicate Valid()
      reads this, index
    {
      ValidConfig(cfg) && TasksKeyed(claims) && Tracked(claims, index.entries)
    }

    /** The registry's value: everything but the heap. */
    function View(): Hub
      reads this
    {
      Hub(claims, epochSeq, expired, lastSeen, custody, retained)
    }

    constructor (config: Config)
      requires ValidConfig(config)
      ensures Valid() && fresh(index) && cfg == config && View() == EMPTY
    {
      cfg := config;
      claims, epochSeq, expired, lastSeen, custody, retained := map[], 0, map[], map[], map[], {};
      index := new LeaseIndex();
    }

    /** Replaces this registry by a privately mutated candidate, provided they agree on configuration. */
    method PublishFrom(candidate: SynapseState) returns (ok: bool)
      requires Valid() && candidate.Valid()
      modifies this
      ensures Valid() && (ok <==> (cfg.defaultTtl, cfg.maxClaims, cfg.maxPaths) ==
                                  (candidate.cfg.defaultTtl, candidate.cfg.maxClaims, candidate.cfg.maxPaths))
      ensures ok ==> View() == old(candidate.View()) && index == old(candidate.index)
      ensures !ok ==> View() == old(View()) && index == old(index)
    {
      ok := && cfg.defaultTtl == candidate.cfg.defaultTtl
            && cfg.maxClaims == candidate.cfg.maxClaims
            && cfg.maxPaths == candidate.cfg.maxPaths;
      if ok {
        claims, epochSeq, expired := candidate.claims, candidate.epochSeq, candidate.expired;
        lastSeen, custody, retained := candidate.lastSeen, candidate.custody, candidate.retained;
        index := candidate.index;
      }
    }

    // -------------------------------------------------------------- liveness

    /** Ends the live lease a due heap entry names, unless the entry has been superseded. */
    method EndLease(e: Entry, now: real, ghost entries: multiset<Entry>)
      requires TasksKeyed(claims) && Tracked(claims, entries) && e.due <= now
      modifies this`claims, this`expired
      ensures TasksKeyed(claims) && Tracked(claims, entries - multiset{e})
      ensures Sweep(View(), now) == Sweep(old(View()), now)
    {
      hide Sweep, Tracked;
      if e.task in claims && claims[e.task].epoch == e.epoch && claims[e.task].expiresAt <= now {
        EndedEntryGone(claims, entries, e);
        EndingOneLease(View(), e.task, now, View().(
            claims := claims - {e.task},
            expired := if claims[e.task].checkpoint != ""
                       then expired[e.task := claims[e.task].checkpoint] else expired));
        if claims[e.task].checkpoint != "" {
          expired := expired[e.task := claims[e.task].checkpoint];
        }
        claims := claims - {e.task};
      } else {
        StaleEntryGone(claims, entries, e, now);
      }
    }

    /**
      * Drops the lapsed leases by popping due heap entries. Superseded entries, left by
      * releases, renewals and handoffs, neither end a live lease nor hide a lapsed one.
      */
    method ExpireClaims(now: real)
      requires Valid()
      modifies this`claims, this`expired, index
      ensures Valid() && View() == Sweep(old(View()), now)
    {
      hide Sweep, Tracked;
      var due, e := true, Entry(now, "", 0);
      while due
        invariant TasksKeyed(claims) && Tracked(claims, index.entries)
        invariant !due ==> forall f :: f in index.entries ==> f.due > now
        invariant Sweep(View(), now) == Sweep(old(View()), now)
        decreases due, |index.entries|
      {
        ghost var entries := index.entries;
        due, e := index.PopDue(now);
        if due {
          EndLease(e, now, entries);
        }
      }
      NothingDue(View(), index.entries, now);
    }

    method Heartbeat(agent: string, now: real)
      requires Valid()
      modifies this`lastSeen, this`claims, this`expired, index
      ensures Valid() && View() == Beat(old(View()), agent, now)
    {
      hide Sweep, Tracked;
      lastSeen := lastSeen[agent := now];
      ExpireClaims(now);
    }

    // -------------------------------------------------------------- scans

    /** The scan over live claims: a contender if there is one. */
    method FindScopeConflict(task: string, agent: string, scope: Scope) returns (found: Option<(string, string)>)
      ensures found.None? <==> !ScopeBlocked(claims, task, agent, scope, cfg.u)
      ensures found.Some? ==>
                && found.value.0 in claims && Contends(claims, found.value.0, task, agent, scope, cfg.u)
                && found.value.1 == claims[found.value.0].owner != agent
    {
      hide Conflict;
      found := None;
      var left := claims.Keys;
      while left != {}
        invariant left <= claims.Keys
        invariant forall t :: t in claims && t !in left ==> !Contends(claims, t, task, agent, scope, cfg.u)
        decreases left
      {
        var other :| other in left;
        if other != task && claims[other].owner != agent && Conflict(scope, claims[other].scope, cfg.u) {
          assert Contends(claims, other, task, agent, scope, cfg.u);
          return Some((other, claims[other].owner));
        }
        left := left - {other};
      }
    }

    /** How many live claims are charged to a principal. */
    method ClaimsOwnedBy(principal: string) returns (n: nat)
      ensures n == |ChargedTo(claims, principal)|
    {
      hide Payer;
      n := 0;
      var left, counted: set<string> := claims.Keys, {};
      while left != {}
        invariant left <= claims.Keys && n == |counted|
        invariant forall t :: t in counted <==> t in claims && t !in left && Payer(claims[t]) == principal
        decreases left
      {
        var t :| t in left;
        if Payer(claims[t]) == principal {
          n, counted := n + 1, counted + {t};
        }
        left := left - {t};
      }
      assert counted == ChargedTo(claims, principal);
    }

    method ClaimQuotaAvailable(agent: string, task: string, principal: string) returns (free: bool)
      ensures free == QuotaFree(cfg, View(), agent, task, principal)
    {
      hide ChargedTo;
      if task in claims && claims[task].owner == agent && Payer(claims[task]) == principal {
        return true;
      }
      var owned := ClaimsOwnedBy(principal);
      free := owned < cfg.maxClaims;
    }

    // -------------------------------------------------------------- operations

    /** Stores a claim and indexes its lease. */
    method Store(c: Claim)
      requires Valid()
      modifies `claims, index
      ensures Valid() && claims == old(claims)[c.task := c]
    {
      assert forall t :: t in claims && t != c.task ==> EntryOf(claims[t], t) in index.entries;
      hide EntryOf;
      claims := claims[c.task := c];
      index.Track(c, claims);
    }

    /** The guards of a claim, in the order the hub runs them once stale leases are gone. */
    method AcquireGuards(r: ClaimRequest, task: string, scope: Scope, now: real) returns (why: Option<Refusal>)
      ensures why == AcquireRefusal(cfg, View(), r, task, scope, now)
    {
      hide CustodyBlocksScope, ScopeBlocked, QuotaFree, Strip;
      if CustodyBlocksScope(custody, task, scope, cfg.u) {
        return Some(CustodyHeld);
      }
      if task in claims && (r.requireUnclaimed || claims[task].owner != r.agent) && claims[task].expiresAt > now {
        return Some(AlreadyClaimed);
      }
      var conflict := FindScopeConflict(task, r.agent, scope);
      if conflict.Some? {
        return Some(ScopeTaken);
      }
      var free := ClaimQuotaAvailable(r.agent, task, PrincipalOf(r.agent, r.principal));
      why := if free then None else Some(QuotaExceeded);
    }

    /** Stores a granted claim under a fresh epoch, consuming an expired holder's checkpoint. */
    method Grant(claim: Claim)
      requires Valid() && claim.epoch == epochSeq + 1
      modifies `claims, `epochSeq, `expired, index
      ensures Valid() && View() == Install(old(View()), claim)
    {
      hide Tracked;
      if !(claim.task in claims && claims[claim.task].owner == claim.owner) {
        expired := expired - {claim.task};
      }
      epochSeq := epochSeq + 1;
      Store(claim);
    }

    method Acquire(r: ClaimRequest, now: real) returns (o: Outcome)
      requires Valid()
      modifies `claims, `epochSeq, `expired, `lastSeen, index
      ensures Valid() && (View(), o) == DoAcquire(cfg, old(View()), r, now)
    {
      hide Tracked, Sweep, NormalizedPaths, ValidatesDisplayScope, AcquireRefusal, Strip, Install;
      var task := Strip(r.task);
      if task == "" {
        return Refused(TaskIdRequired);
      }
      var paths := NormalizePaths(r.scope.paths, cfg.maxPaths, cfg.u.printable);
      var scope := r.scope.(paths := paths);
      if scope.identity.Some? && !ValidatesDisplayScope(scope.identity.value, scope.worktree, scope.paths, cfg.u) {
        return Refused(IdentityMismatch);
      }
      Heartbeat(r.agent, now);
      var why := AcquireGuards(r, task, scope, now);
      if why.Some? {
        return Refused(why.value);
      }
      Grant(GrantedClaim(cfg, View(), r, task, scope, now));
      o := Granted;
    }

    method Renew(agent: string, taskId: string, epoch: int, paths: seq<string>, now: real) returns (o: Outcome)
      requires Valid()
      modifies `claims, `expired, `lastSeen, index
      ensures Valid() && (View(), o) == DoRenew(cfg, old(View()), agent, taskId, epoch, paths, now)
    {
      hide Tracked, Sweep, CustodyHoldsTask;
      var task := Strip(taskId);
      Heartbeat(agent, now);
      if task !in claims || claims[task].owner != agent ||
         (epoch != claims[task].epoch && epoch != claims[task].ownershipEpoch) {
        return Refused(RenewalLost);
      }
      if CustodyHoldsTask(custody, task) {
        return Refused(CustodyHeld);
      }
      if claims[task].scope.paths != paths {
        return Refused(PathsDiffer);
      }
      var duration := claims[task].expiresAt - claims[task].claimedAt;
      Store(claims[task].(claimedAt := now, expiresAt := now + duration));
      o := Granted;
    }

    /** An edit that keeps lease and epoch keeps the index true. */
    method Edit(task: string, c: Claim)
      requires Valid() && task in claims && c.task == task
      requires c.epoch == claims[task].epoch && c.expiresAt == claims[task].expiresAt
      modifies `claims
      ensures Valid() && claims == old(claims)[task := c]
    {
      claims := claims[task := c];
    }

    method UpdateTask(op: Op, now: real) returns (o: Outcome)
      requires Valid() && op.Update?
      modifies `claims, `expired, `lastSeen, index
      ensures Valid() && (View(), o) == DoUpdate(old(View()), op, now)
    {
      hide Tracked, Sweep, CustodyHoldsTask, CanTransition;
      Heartbeat(op.agent, now);
      var task := op.task;
      if CustodyHoldsTask(custody, task) {
        return Refused(CustodyHeld);
      }
      if task !in claims {
        return Refused(NotClaimed);
      }
      if claims[task].owner != op.agent {
        return Refused(NotOwner);
      }
      if op.epoch.Some? && op.epoch.value != claims[task].epoch {
        return Refused(StaleEpoch);
      }
      if op.version.Some? && op.version.value != claims[task].version {
        return Refused(VersionConflict);
      }
      if Truthy(op.status) && !CanTransition(claims[task].status, op.status.value) {
        return Refused(IllegalTransition);
      }
      var c := claims[task];
      if Truthy(op.status) {
        c := c.(status := op.status.value);
      }
      if op.note.Some? {
        c := c.(note := Strip(op.note.value));
      }
      if op.dataRef.Some? {
        c := c.(dataRef := Strip(op.dataRef.value));
      }
      Edit(task, c.(version := c.version + 1));
      o := Granted;
    }

    method SaveCheckpoint(agent: string, taskId: string, checkpoint: string, epoch: Option<int>,
            now: real) returns (o: Outcome)
      requires Valid()
      modifies `claims, `expired, `lastSeen, index
      ensures Valid() && (View(), o) == DoCheckpoint(old(View()), agent, taskId, checkpoint, epoch, now)
    {
      hide Tracked, Sweep, CustodyHoldsTask;
      var task := Strip(taskId);
      Heartbeat(agent, now);
      if CustodyHoldsTask(custody, task) {
        return Refused(CustodyHeld);
      }
      if task !in claims {
        return Refused(NotClaimed);
      }
      if claims[task].owner != agent {
        return Refused(NotOwner);
      }
      if epoch.Some? && epoch.value != claims[task].epoch {
        return Refused(StaleEpoch);
      }
      Edit(task, claims[task].(checkpoint := checkpoint, version := claims[task].version + 1));
      o := Granted;
    }

    /** Drops a claim and its retained checkpoint; the heap entry is left behind. */
    method Delete(task: string)
      requires Valid()
      modifies `claims, `expired
      ensures Valid() && View() == Drop(old(View()), task)
    {
      claims := claims - {task};
      expired := expired - {task};
    }

    method Release(agent: string, taskId: string, epoch: Option<int>, now: real) returns (o: Outcome)
      requires Valid()
      modifies `claims, `expired, `lastSeen, index
      ensures Valid() && (View(), o) == DoRelease(old(View()), agent, taskId, epoch, now)
    {
      hide Tracked, Sweep, CustodyHoldsTask, Drop;
      var task := Strip(taskId);
      if task == "" {
        return Refused(TaskIdRequired);
      }
      Heartbeat(agent, now);
      if task !in claims {
        return Refused(NotClaimed);
      }
      if CustodyHoldsTask(custody, task) {
        return Refused(CustodyHeld);
      }
      if claims[task].owner != agent {
        return Refused(NotOwner);
      }
      if epoch.Some? && epoch.value != claims[task].epoch {
        return Refused(StaleEpoch);
      }
      Delete(task);
      o := Granted;
    }

    method ForceRelease(taskId: string) returns (o: Outcome)
      requires Valid()
      modifies `claims, `expired
      ensures Valid() && (View(), o) == DoForceRelease(old(View()), taskId)
    {
      hide Tracked, CustodyHoldsTask, Drop;
      var task := Strip(taskId);
      if task == "" {
        return Refused(TaskIdRequired);
      }
      if task !in claims {
        return Refused(NotClaimed);
      }
      if CustodyHoldsTask(custody, task) {
        return Refused(CustodyHeld);
      }
      Delete(task);
      o := Granted;
    }

    method Handoff(op: Op, now: real) returns (o: Outcome)
      requires Valid() && op.Handoff?
      modifies `claims, `epochSeq, `expired, `lastSeen, index
      ensures Valid() && (View(), o) == DoHandoff(cfg, old(View()), op, now)
    {
      hide Tracked, Sweep, CustodyHoldsTask, CustodyBlocksScope, ScopeBlocked, ChargedTo;
      var task, target := Strip(op.task), Strip(op.target);
      if task == "" {
        return Refused(TaskIdRequired);
      }
      if target == "" {
        return Refused(TargetRequired);
      }
      Heartbeat(op.agent, now);
      if task !in claims {
        return Refused(NotClaimed);
      }
      var claim := claims[task];
      if CustodyHoldsTask(custody, task) {
        return Refused(CustodyHeld);
      }
      if claim.owner != op.agent {
        return Refused(NotOwner);
      }
      if target == op.agent {
        return Refused(SelfHandoff);
      }
      if op.epoch.Some? && op.epoch.value != claim.epoch {
        return Refused(StaleEpoch);
      }
      if CustodyBlocksScope(custody, task, claim.scope, cfg.u) {
        return Refused(CustodyHeld);
      }
      var owned := ClaimsOwnedBy(target);
      if owned >= cfg.maxClaims {
        return Refused(QuotaExceeded);
      }
      var conflict := FindScopeConflict(task, target, claim.scope);
      if conflict.Some? {
        return Refused(ScopeTaken);
      }
      var moved := MovedClaim(cfg, View(), claim, target, op.note, now);
      epochSeq := epochSeq + 1;
      Store(moved);
      lastSeen := lastSeen[target := now];
      o := Granted;
    }

    method InstallAdmission(id: string, witnesses: seq<Witness>, budget: int) returns (o: Outcome)
      requires Valid()
      modifies `custody, `retained
      ensures Valid() && (View(), o) == DoOpenCustody(cfg, old(View()), id, witnesses, budget)
    {
      hide Tracked, CustodyBlocksScope, Capture;
      if budget <= 0 || id in retained || id in custody {
        return Refused(CustodyRefused);
      }
      if |retained + custody.Keys| >= budget || witnesses == [] {
        return Refused(CustodyRefused);
      }
      for i := 0 to |witnesses|
        invariant FreshWitnesses(View(), witnesses[..i], cfg.u)
      {
        var w := witnesses[i];
        assert w in witnesses && forall v :: v in witnesses[..i + 1] ==> v in witnesses[..i] || v == w;
        if w.task !in claims || Capture(claims[w.task]) != w || CustodyBlocksScope(custody, w.task, w.scope, cfg.u) {
          return Refused(CustodyRefused);
        }
      }
      assert witnesses[..|witnesses|] == witnesses;
      custody, retained := custody[id := witnesses], retained + {id};
      o := Granted;
    }

    method Settle(id: string) returns (o: Outcome)
      requires Valid()
      modifies `custody
      ensures Valid() && (View(), o) == DoSettleCustody(old(View()), id)
    {
      if id !in custody {
        return Refused(CustodyRefused);
      }
      custody := custody - {id};
      o := Granted;
    }

    // -------------------------------------------------------------- the hub's loop

    /** One request of the protocol, whatever it is. */
    method Perform(op: Op, now: real) returns (o: Outcome)
      requires Valid()
      modifies `claims, `epochSeq, `expired, `lastSeen, `custody, `retained, index
      ensures Valid() && (View(), o) == Apply(cfg, old(View()), op, now)
    {
      hide Tracked, Sweep, DoAcquire, DoRenew, DoUpdate, DoCheckpoint, DoRelease, DoForceRelease, DoHandoff;
      hide DoOpenCustody, DoSettleCustody;
      match op {
        case Acquire(r) => o := Acquire(r, now);
        case Renew(agent, task, generation, paths) => o := Renew(agent, task, generation, paths, now);
        case Update(_, _, _, _, _, _, _) => o := UpdateTask(op, now);
        case Checkpoint(agent, task, checkpoint, epoch) => o := SaveCheckpoint(agent, task, checkpoint, epoch, now);
        case Release(agent, task, epoch) => o := Release(agent, task, epoch, now);
        case ForceRelease(task) => o := ForceRelease(task);
        case Handoff(_, _, _, _, _) => o := Handoff(op, now);
        case Heartbeat(agent) => Heartbeat(agent, now); o := Granted;
        case Snapshot => ExpireClaims(now); o := Granted;
        case OpenCustody(id, witnesses, budget) => o := InstallAdmission(id, witnesses, budget);
        case SettleCustody(id) => o := Settle(id);
      }
    }

    /** A whole run of the hub: what is proved of every `Run` holds of the registry after it. */
    method Serve(steps: seq<Step>)
      requires Valid()
      modifies `claims, `epochSeq, `expired, `lastSeen, `custody, `retained, index
      ensures Valid() && View() == Run(cfg, old(View()), steps)
    {
      hide Tracked, Apply, Run;
      for i := 0 to |steps|
        invariant Valid() && Run(cfg, View(), steps[i..]) == Run(cfg, old(View()), steps)
      {
        RunStep(cfg, View(), steps[i..]);
        assert steps[i..][1..] == steps[i + 1..];
        var o := Perform(steps[i].op, steps[i].now);
      }
      RunStep(cfg, View(), steps[|steps|..]);
    }
  }
}
