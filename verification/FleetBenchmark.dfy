/**
  * The coding-fleet benchmark's replay evidence: the conflict count it expects to be
  * zero among replayed claims, and the emptiness it expects after every release.
  */
module FleetBenchmark {
  import opened Wrappers
  import opened PathIdentity
  import opened Strings
  import opened Scoping
  import opened Lease
  import opened LeaseInvariants
  import opened Journal

  /** The benchmark's own conflict rule: one worktree, and a whole-worktree scope or a path in common. */
  predicate SharesScope(a: Claim, b: Claim) {
    && a.scope.worktree == b.scope.worktree
    && (a.scope.paths == [] || b.scope.paths == [] || exists p :: p in a.scope.paths && p in b.scope.paths)
  }

  function SharingPairs(claims: seq<Claim>): set<(int, int)> {
    set i, j | 0 <= i < |claims| && i < j < |claims| && SharesScope(claims[i], claims[j]) :: (i, j)
  }

  /** The nested count over each pair once. */
  method ConflictingClaimPairs(claims: seq<Claim>) returns (conflicts: nat)
    ensures conflicts == |SharingPairs(claims)|
  {
    hide SharesScope;
    conflicts := 0;
    ghost var counted: set<(int, int)> := {};
    for i := 0 to |claims|
      invariant conflicts == |counted|
      invariant forall p :: p in counted <==> 0 <= p.0 < i && p.0 < p.1 < |claims| && SharesScope(claims[p.0], claims[p.1])
    {
      for j := i + 1 to |claims|
        invariant conflicts == |counted|
        invariant forall p :: p in counted <==>
          && 0 <= p.0 <= i && p.0 < p.1 < |claims| && (p.0 == i ==> p.1 < j) && SharesScope(claims[p.0], claims[p.1])
      {
        if SharesScope(claims[i], claims[j]) {
          assert (i, j) !in counted;
          counted := counted + {(i, j)};
          conflicts := conflicts + 1;
        }
      }
    }
    assert counted == SharingPairs(claims);
  }

  /** Each pair of positions counts once, in order, when its claims share a worktree and a path or a whole tree. */
  lemma SharingMeans(claims: seq<Claim>, i: int, j: int)
    ensures (i, j) in SharingPairs(claims) <==>
            && 0 <= i < j < |claims| && claims[i].scope.worktree == claims[j].scope.worktree
            && (claims[i].scope.paths == [] || claims[j].scope.paths == [] ||
                exists p :: p in claims[i].scope.paths && p in claims[j].scope.paths)
  {
  }

  lemma SharingIsConflict(a: Claim, b: Claim, u: Unicode)
    requires a.scope.identity.None? && b.scope.identity.None? && SharesScope(a, b)
    ensures Conflict(a.scope, b.scope, u)
  {
    hide Normalized;
    PlainConflict(a.scope, b.scope, u);
    if p :| p in a.scope.paths && p in b.scope.paths {
      assert PathsOverlap(p, p);
    }
  }

  /**
    * Among claims replayed from any run of the hub, claims without identity that the
    * benchmark counts as conflicting belong to one owner: the count is zero when owners differ.
    */
  lemma CountedPairsHaveOneOwner(cfg: Config, steps: seq<Step>, now: real, claims: seq<Claim>, i: int, j: int)
    requires ValidConfig(cfg) && ProtectedWrite !in Log(cfg, EMPTY, steps) && ClockedBy(steps, now)
    requires Remembered(cfg, steps).Rebuilt?
    requires forall c :: c in claims ==>
               && c.scope.identity.None? && c.task in Recovered(Remembered(cfg, steps), now).claims
               && c == Recovered(Remembered(cfg, steps), now).claims[c.task]
    requires (i, j) in SharingPairs(claims)
    ensures claims[i].owner == claims[j].owner
  {
    hide Remembered, Log, Recovered, Conflict, SharesScope, ClockedBy;
    RecoveredIsSafe(cfg, steps, now);
    var h := Recovered(Remembered(cfg, steps), now);
    var a, b := claims[i], claims[j];
    SharingIsConflict(a, b, cfg.u);
    assert a in claims && b in claims;
    ConflictingShareOwner(cfg, h, a.task, b.task);
  }

  lemma ConflictingShareOwner(cfg: Config, h: Hub, s: string, t: string)
    requires Inv(cfg, h) && s in h.claims && t in h.claims && Conflict(h.claims[s].scope, h.claims[t].scope, cfg.u)
    ensures h.claims[s].owner == h.claims[t].owner
  {
    hide Conflict, CustodySafe, CustodyApart, WithinQuota, Identified, PathsStored;
  }

  // ---------------------------------------------------------------- the logged claims and releases

  function Snapshots(claims: seq<Claim>): seq<Event> {
    if claims == [] then [] else [Snapshotted(claims[0])] + Snapshots(claims[1..])
  }

  function Releases(claims: seq<Claim>): seq<Event> {
    if claims == [] then [] else [Released(claims[0].task)] + Releases(claims[1..])
  }

  function Tasks(claims: seq<Claim>): set<string> {
    set c | c in claims :: c.task
  }

  lemma {:induction false} SnapshotsFill(u: Unicode, m: Memory, claims: seq<Claim>)
    requires m.Rebuilt? && forall c :: c in claims ==> Decodes(c, u)
    ensures var r := Fold(u, m, Snapshots(claims)); r.Rebuilt? && r.claims.Keys == m.claims.Keys + Tasks(claims)
    decreases claims
  {
    hide Decodes, Decoded;
    FoldStep(u, m, Snapshots(claims));
    if claims != [] {
      var c := claims[0];
      assert claims == [c] + claims[1..];
      SnapshotsFill(u, ApplyEvent(u, m, Snapshotted(c)), claims[1..]);
      assert Snapshots(claims)[1..] == Snapshots(claims[1..]);
    }
  }

  lemma {:induction false} ReleasesEmpty(u: Unicode, m: Memory, claims: seq<Claim>)
    requires m.Rebuilt?
    ensures var r := Fold(u, m, Releases(claims)); r.Rebuilt? && r.claims.Keys == m.claims.Keys - Tasks(claims)
    decreases claims
  {
    FoldStep(u, m, Releases(claims));
    if claims != [] {
      var c := claims[0];
      assert claims == [c] + claims[1..];
      ReleasesEmpty(u, ApplyEvent(u, m, Released(c.task)), claims[1..]);
      assert Releases(claims)[1..] == Releases(claims[1..]);
    }
  }

  /** Logging every claim and then every release leaves nothing to recover, at any clock. */
  lemma ReleasedLogRecoversNothing(u: Unicode, claims: seq<Claim>, now: real)
    requires forall c :: c in claims ==> Decodes(c, u)
    ensures var m := Fold(u, NOTHING, Snapshots(claims) + Releases(claims));
            m.Rebuilt? && Recovered(m, now).claims == map[] && Recovered(m, now).expired == map[]
  {
    hide Fold, Decodes, Snapshots, Releases;
    SnapshotsFill(u, NOTHING, claims);
    var filled := Fold(u, NOTHING, Snapshots(claims));
    ReleasesEmpty(u, filled, claims);
    FoldAppend(u, NOTHING, Snapshots(claims), Releases(claims));
    assert Fold(u, filled, Releases(claims)).claims.Keys == {};
  }
}
