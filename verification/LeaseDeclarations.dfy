/**
  * What the owners of a hub declared, against what the hub stored and compares for them:
  * which overlaps of declared files exclusion sees, in every run.
  */
module LeaseDeclarations {
  import opened Wrappers
  import opened PathIdentity
  import opened Strings
  import opened Scoping
  import opened Lease
  import opened LeaseInvariants

  /** The paths last declared for each task, after one step. */
  function Declares(declared: map<string, seq<string>>, op: Op, o: Outcome): map<string, seq<string>> {
    if op.Acquire? && o.Granted? then declared[Strip(op.request.task) := op.request.scope.paths] else declared
  }

  /** The paths the claims of a run were declared with: a handoff passes them on. */
  function Declared(cfg: Config, h: Hub, declared: map<string, seq<string>>, steps: seq<Step>): map<string, seq<string>>
    decreases steps
  {
    if steps == [] then declared
    else
      var (h', o) := Apply(cfg, h, steps[0].op, steps[0].now);
      Declared(cfg, h', Declares(declared, steps[0].op, o), steps[1..])
  }

  ghost predicate Tracks(cfg: Config, h: Hub, declared: map<string, seq<string>>) {
    forall t :: t in h.claims ==>
      && t in declared
      && h.claims[t].scope.paths == NormalizedPaths(declared[t], cfg.maxPaths, cfg.u.printable)
  }

  lemma StepTracks(cfg: Config, h: Hub, declared: map<string, seq<string>>, op: Op, now: real)
    requires Tracks(cfg, h, declared)
    ensures var (h', o) := Apply(cfg, h, op, now);
            Tracks(cfg, h', Declares(declared, op, o))
  {
    hide Apply, Strip, NormalizedPaths, PrincipalOf, Payer;
    var h' := Apply(cfg, h, op, now).0;
    forall t | t in h'.claims {
      ClaimOrigin(cfg, h, op, now, t);
    }
  }

  lemma {:induction false} RunTracks(cfg: Config, h: Hub, declared: map<string, seq<string>>, steps: seq<Step>)
    requires Tracks(cfg, h, declared)
    ensures Tracks(cfg, Run(cfg, h, steps), Declared(cfg, h, declared, steps))
    decreases steps
  {
    hide Apply, Tracks, Declares;
    if steps != [] {
      var (h', o) := Apply(cfg, h, steps[0].op, steps[0].now);
      StepTracks(cfg, h, declared, steps[0].op, steps[0].now);
      RunTracks(cfg, h', Declares(declared, steps[0].op, o), steps[1..]);
    }
  }

  /**
    * In every run, the plain claims that two owners hold in one worktree were declared with
    * a common file exactly when storing lost the overlap of some two declared paths.
    */
  lemma DeclaredFilesApart(cfg: Config, steps: seq<Step>, s: string, t: string)
    requires ValidConfig(cfg)
    requires var h := Run(cfg, EMPTY, steps);
             && s in h.claims && t in h.claims && h.claims[s].owner != h.claims[t].owner
             && h.claims[s].scope.identity.None? && h.claims[t].scope.identity.None?
             && h.claims[s].scope.worktree == h.claims[t].scope.worktree
    ensures var declared := Declared(cfg, EMPTY, map[], steps);
            && s in declared && t in declared
            && ((exists file :: Owns(declared[s], file) && Owns(declared[t], file)) <==>
                exists a, b :: a in declared[s] && b in declared[t] && OverlapLost(a, b))
  {
    hide Conflict, Run, Owns, Declared, ScopesConflict, NormalizedPaths, OverlapLost, WithinQuota;
    EveryRunIsSafe(cfg, steps);
    RunTracks(cfg, EMPTY, map[], steps);
    var h, declared := Run(cfg, EMPTY, steps), Declared(cfg, EMPTY, map[], steps);
    var a, b := h.claims[s].scope, h.claims[t].scope;
    PlainConflict(a, b, cfg.u);
    ApartUnlessLost(a.worktree, declared[s], declared[t], cfg.maxPaths, cfg.u.printable);
  }

  /**
    * In every run, no file lies in a row of each of two owners' claims on the same worktree,
    * both read under the case policy the claims share, when at least one has an identity.
    */
  lemma OwnersShareNoIdentifiedFile(cfg: Config, steps: seq<Step>, s: string, t: string)
    requires ValidConfig(cfg)
    requires var h := Run(cfg, EMPTY, steps);
             && s in h.claims && t in h.claims && h.claims[s].owner != h.claims[t].owner
             && (h.claims[s].scope.identity.Some? || h.claims[t].scope.identity.Some?)
    ensures var h := Run(cfg, EMPTY, steps);
            var a, b := h.claims[s].scope, h.claims[t].scope;
            var safe, cs := ObjectIdsComparable(a.identity, b.identity), SharedCase(a.identity, b.identity);
            WorktreesMatch(a, b, cfg.u) || safe ==>
              && a.paths != [] && b.paths != []
              && forall p, q, file :: p in Rows(a, b.identity, cfg.u) && q in Rows(b, a.identity, cfg.u) ==>
                   !InBothRows(file, UnderCasePolicy(p, cs, cfg.u), UnderCasePolicy(q, cs, cfg.u), safe)
  {
    hide Conflict, Run, WorktreesMatch, ObjectIdsComparable, Rows, InBothRows, UnderCasePolicy, WithinQuota, SharedCase;
    EveryRunIsSafe(cfg, steps);
    var h := Run(cfg, EMPTY, steps);
    IdentifiedConflictIsCommonFile(h.claims[s].scope, h.claims[t].scope, cfg.u);
  }
}
