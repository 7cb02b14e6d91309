/**
  * Classification of a bounded run history: bad runs are resolved only by a later
  * matching success. The recognised titles of dynamic runs are a parameter.
  */
module RunHistory {
  import opened Wrappers

  const DYNAMIC_EVENT := "dynamic"

  datatype WorkflowRun = WorkflowRun(
    id: int, conclusion: string, status: string, workflowName: string, workflowId: Option<int>,
    branch: string, createdAt: int, event: string, title: string)

  datatype RepairKey = RepairKey(workflow: int, branch: string, event: string, surface: string)

  datatype Bucket =
    | InProgress | CleanSuccess | OtherCompleted | UnresolvedAmbiguous
    | SupersededCancelled | ResolvedFailure | UnresolvedCancelled | UnresolvedFailure

  datatype Classified = Classified(run: WorkflowRun, bucket: Bucket)

  /** The surface a dynamic title names, when it has a recognised form. */
  type Titles = string -> Option<string>

  function Surface(r: WorkflowRun, titles: Titles): Option<string> {
    if r.event != DYNAMIC_EVENT then Some("") else titles(r.title)
  }

  function KeyOf(r: WorkflowRun, titles: Titles): Option<RepairKey> {
    var surface := Surface(r, titles);
    if r.workflowId.None? || surface.None? then None
    else Some(RepairKey(r.workflowId.value, r.branch, r.event, surface.value))
  }

  /** Earlier in time, or at the same time with the smaller number. */
  predicate Before(a: WorkflowRun, b: WorkflowRun) {
    a.createdAt < b.createdAt || (a.createdAt == b.createdAt && a.id < b.id)
  }

  predicate Repairs(candidate: WorkflowRun, r: WorkflowRun, titles: Titles) {
    && KeyOf(r, titles).Some? && KeyOf(candidate, titles) == KeyOf(r, titles)
    && Before(r, candidate) && candidate.status == "completed" && candidate.conclusion == "success"
  }

  predicate LaterSuccessExists(r: WorkflowRun, runs: seq<WorkflowRun>, titles: Titles) {
    exists candidate :: candidate in runs && Repairs(candidate, r, titles)
  }

  function BucketOf(r: WorkflowRun, runs: seq<WorkflowRun>, titles: Titles): Bucket {
    var later := LaterSuccessExists(r, runs, titles);
    if r.status != "completed" then InProgress
    else if r.conclusion == "success" then CleanSuccess
    else if r.conclusion == "neutral" || r.conclusion == "skipped" then OtherCompleted
    else if KeyOf(r, titles).None? then UnresolvedAmbiguous
    else if r.conclusion == "cancelled" && later then SupersededCancelled
    else if later then ResolvedFailure
    else if r.conclusion == "cancelled" then UnresolvedCancelled
    else UnresolvedFailure
  }

  predicate IsUnresolved(b: Bucket) {
    b == UnresolvedAmbiguous || b == UnresolvedCancelled || b == UnresolvedFailure
  }

  // ---------------------------------------------------------------- ordering

  function Kept(runs: seq<WorkflowRun>, excluded: set<string>): (r: seq<WorkflowRun>)
    ensures forall x :: x in r <==> x in runs && x.workflowName !in excluded
  {
    if runs == [] then []
    else (if runs[0].workflowName in excluded then [] else [runs[0]]) + Kept(runs[1..], excluded)
  }

  function Insert(x: WorkflowRun, s: seq<WorkflowRun>): (r: seq<WorkflowRun>)
    ensures multiset(r) == multiset(s) + multiset{x}
  {
    if s == [] then [x]
    else if Before(s[0], x) then
      assert s == [s[0]] + s[1..];
      [s[0]] + Insert(x, s[1..])
    else [x] + s
  }

  function Chronological(s: seq<WorkflowRun>): (r: seq<WorkflowRun>)
    ensures multiset(r) == multiset(s)
  {
    if s == [] then []
    else
      assert s == [s[0]] + s[1..];
      Insert(s[0], Chronological(s[1..]))
  }

  predicate InOrder(s: seq<WorkflowRun>) {
    forall i, j :: 0 <= i < j < |s| ==> !Before(s[j], s[i])
  }

  lemma {:induction false} InsertKeepsOrder(x: WorkflowRun, s: seq<WorkflowRun>)
    requires InOrder(s)
    ensures InOrder(Insert(x, s))
  {
    if s != [] && Before(s[0], x) {
      InsertKeepsOrder(x, s[1..]);
      var rest := Insert(x, s[1..]);
      forall j | 0 <= j < |rest| ensures !Before(rest[j], s[0]) {
        assert rest[j] in multiset(rest);
      }
    }
  }

  lemma {:induction false} ChronologicalIsInOrder(s: seq<WorkflowRun>)
    ensures InOrder(Chronological(s))
  {
    if s != [] {
      ChronologicalIsInOrder(s[1..]);
      InsertKeepsOrder(s[0], Chronological(s[1..]));
    }
  }

  predicate DistinctIds(s: seq<WorkflowRun>) {
    forall i, j :: 0 <= i < |s| && 0 <= j < |s| && s[i].id == s[j].id ==> i == j
  }

  lemma OrderIsTotal(a: WorkflowRun, b: WorkflowRun)
    requires a.id != b.id
    ensures Before(a, b) <==> !Before(b, a)
  {
  }

  ghost predicate SameIdSame(s: seq<WorkflowRun>) {
    forall a, b :: a in s && b in s && a.id == b.id ==> a == b
  }

  lemma SameHead(a: seq<WorkflowRun>, b: seq<WorkflowRun>)
    requires InOrder(a) && InOrder(b) && multiset(a) == multiset(b) && SameIdSame(a) && a != []
    ensures b != [] && a[0] == b[0]
  {
    hide Before;
    assert a[0] in multiset(b);
    assert b[0] in multiset(a);
    if a[0] != b[0] {
      OrderIsTotal(a[0], b[0]);
    }
  }

  lemma Tails(a: seq<WorkflowRun>, b: seq<WorkflowRun>)
    requires multiset(a) == multiset(b) && a != [] && b != [] && a[0] == b[0]
    ensures multiset(a[1..]) == multiset(b[1..])
  {
    assert a == [a[0]] + a[1..] && b == [b[0]] + b[1..];
    assert multiset(a[1..]) == multiset(a) - multiset{a[0]} && multiset(b[1..]) == multiset(b) - multiset{b[0]};
  }

  lemma {:induction false} OneOrder(a: seq<WorkflowRun>, b: seq<WorkflowRun>)
    requires InOrder(a) && InOrder(b) && multiset(a) == multiset(b) && SameIdSame(a)
    ensures a == b
  {
    hide Before;
    if a == [] {
      assert |multiset(b)| == 0;
    } else {
      SameHead(a, b);
      Tails(a, b);
      OneOrder(a[1..], b[1..]);
      assert a == [a[0]] + a[1..] && b == [b[0]] + b[1..];
    }
  }

  // ---------------------------------------------------------------- classification

  function ClassifyOver(part: seq<WorkflowRun>, all: seq<WorkflowRun>, titles: Titles): (r: seq<Classified>)
    ensures |r| == |part| && forall i :: 0 <= i < |r| ==> r[i] == Classified(part[i], BucketOf(part[i], all, titles))
  {
    seq(|part|, i requires 0 <= i < |part| => Classified(part[i], BucketOf(part[i], all, titles)))
  }

  function Classification(runs: seq<WorkflowRun>, excluded: set<string>, titles: Titles): seq<Classified> {
    var ordered := Chronological(Kept(runs, excluded));
    ClassifyOver(ordered, ordered, titles)
  }

  method ClassifyWorkflowRuns(runs: seq<WorkflowRun>, excluded: set<string>,
          titles: Titles) returns (r: seq<Classified>)
    ensures r == Classification(runs, excluded, titles)
  {
    hide Chronological, Kept, KeyOf, LaterSuccessExists;
    var ordered := Chronological(Kept(runs, excluded));
    r := [];
    for i := 0 to |ordered|
      invariant r == ClassifyOver(ordered[..i], ordered, titles)
    {
      var run := ordered[i];
      var later := LaterSuccessExists(run, ordered, titles);
      var bucket;
      if run.status != "completed" {
        bucket := InProgress;
      } else if run.conclusion == "success" {
        bucket := CleanSuccess;
      } else if run.conclusion == "neutral" || run.conclusion == "skipped" {
        bucket := OtherCompleted;
      } else if KeyOf(run, titles).None? {
        bucket := UnresolvedAmbiguous;
      } else if run.conclusion == "cancelled" && later {
        bucket := SupersededCancelled;
      } else if later {
        bucket := ResolvedFailure;
      } else if run.conclusion == "cancelled" {
        bucket := UnresolvedCancelled;
      } else {
        bucket := UnresolvedFailure;
      }
      r := r + [Classified(run, bucket)];
      assert ordered[..i + 1] == ordered[..i] + [run];
    }
    assert ordered[..|ordered|] == ordered;
  }

  predicate HasUnresolvedRuns(classified: seq<Classified>) {
    exists item :: item in classified && IsUnresolved(item.bucket)
  }

  lemma ChronologicalHas(s: seq<WorkflowRun>, x: WorkflowRun)
    ensures x in Chronological(s) <==> x in s
  {
    hide Chronological;
    assert x in Chronological(s) <==> x in multiset(Chronological(s));
    assert x in s <==> x in multiset(s);
  }

  lemma {:induction false} KeptCounts(runs: seq<WorkflowRun>, excluded: set<string>)
    ensures forall x :: multiset(Kept(runs, excluded))[x] == if x.workflowName in excluded then 0 else multiset(runs)[x]
  {
    if runs != [] {
      KeptCounts(runs[1..], excluded);
      assert runs == [runs[0]] + runs[1..];
    }
  }

  /** With distinct run numbers the classification does not depend on the order of its input. */
  lemma ClassificationIgnoresOrder(a: seq<WorkflowRun>, b: seq<WorkflowRun>, excluded: set<string>, titles: Titles)
    requires multiset(a) == multiset(b) && DistinctIds(a)
    ensures Classification(a, excluded, titles) == Classification(b, excluded, titles)
  {
    hide Chronological, Kept, Before;
    KeptCounts(a, excluded);
    KeptCounts(b, excluded);
    assert multiset(Kept(a, excluded)) == multiset(Kept(b, excluded));
    var x, y := Chronological(Kept(a, excluded)), Chronological(Kept(b, excluded));
    ChronologicalIsInOrder(Kept(a, excluded));
    ChronologicalIsInOrder(Kept(b, excluded));
    assert SameIdSame(x) by { DistinctStays(a, excluded); }
    OneOrder(x, y);
  }

  lemma DistinctStays(a: seq<WorkflowRun>, excluded: set<string>)
    requires DistinctIds(a)
    ensures SameIdSame(Chronological(Kept(a, excluded)))
  {
    hide Chronological, Kept;
    forall r | r in Chronological(Kept(a, excluded)) ensures r in a {
      ChronologicalHas(Kept(a, excluded), r);
      KeptHas(a, excluded, r);
    }
  }

  lemma KeptHas(runs: seq<WorkflowRun>, excluded: set<string>, x: WorkflowRun)
    ensures x in Kept(runs, excluded) <==> x in runs && x.workflowName !in excluded
  {
  }

  /** A completed run whose conclusion counts as bad. */
  predicate Failing(r: WorkflowRun) {
    r.status == "completed" && r.conclusion !in {"success", "neutral", "skipped"}
  }

  ghost predicate Unrepaired(r: WorkflowRun, runs: seq<WorkflowRun>, excluded: set<string>, titles: Titles) {
    && r in runs && r.workflowName !in excluded && Failing(r)
    && forall c :: c in runs && c.workflowName !in excluded ==> !Repairs(c, r, titles)
  }

  /**
    * The audit fails exactly when some completed, not excluded run with a bad conclusion
    * has no identity or no strictly later completed success of the same key.
    */
  lemma AuditFailsIff(runs: seq<WorkflowRun>, excluded: set<string>, titles: Titles)
    ensures HasUnresolvedRuns(Classification(runs, excluded, titles)) <==>
            exists r :: r in runs && Unrepaired(r, runs, excluded, titles)
  {
    hide Chronological, Kept, KeyOf, Repairs;
    var ordered := Chronological(Kept(runs, excluded));
    forall r ensures r in ordered <==> r in runs && r.workflowName !in excluded {
      ChronologicalHas(Kept(runs, excluded), r);
      KeptHas(runs, excluded, r);
    }
    forall r | r in ordered ensures IsUnresolved(BucketOf(r, ordered, titles)) <==> Unrepaired(r, runs, excluded, titles) {
      NoKeyNoRepair(r, ordered, titles);
    }
    var classified := Classification(runs, excluded, titles);
    if item :| item in classified && IsUnresolved(item.bucket) {
      assert item.run in ordered;
    }
    if r :| r in runs && Unrepaired(r, runs, excluded, titles) {
      var i :| 0 <= i < |ordered| && ordered[i] == r;
      assert classified[i] in classified;
    }
  }

  lemma NoKeyNoRepair(r: WorkflowRun, runs: seq<WorkflowRun>, titles: Titles)
    ensures KeyOf(r, titles).None? ==> forall c :: !Repairs(c, r, titles)
  {
  }

  /**
    * More history never undoes a repair: with further runs a run keeps its bucket, or goes
    * from an unresolved bucket with an identity to the resolved one.
    */
  lemma MoreRunsOnlyRepair(runs: seq<WorkflowRun>, more: seq<WorkflowRun>, r: WorkflowRun, titles: Titles)
    requires r in runs && forall x :: x in runs ==> x in more
    ensures var before, after := BucketOf(r, runs, titles), BucketOf(r, more, titles);
            || after == before
            || (before == UnresolvedCancelled && after == SupersededCancelled)
            || (before == UnresolvedFailure && after == ResolvedFailure)
  {
    hide Repairs, KeyOf;
  }

  /** So a history without unresolved runs stays so for those runs, however it grows. */
  lemma RepairedStaysRepaired(runs: seq<WorkflowRun>, more: seq<WorkflowRun>, excluded: set<string>,
          titles: Titles, item: Classified)
    requires item in Classification(runs, excluded, titles) && !IsUnresolved(item.bucket)
    ensures Classified(item.run, item.bucket) in Classification(runs + more, excluded, titles)
  {
    hide Chronological, Kept, KeyOf, Repairs, BucketOf;
    var before, after := Chronological(Kept(runs, excluded)), Chronological(Kept(runs + more, excluded));
    forall x | x in before ensures x in after {
      ChronologicalHas(Kept(runs, excluded), x);
      ChronologicalHas(Kept(runs + more, excluded), x);
      KeptHas(runs, excluded, x);
      KeptHas(runs + more, excluded, x);
    }
    var i :| 0 <= i < |before| && Classification(runs, excluded, titles)[i] == item;
    MoreRunsOnlyRepair(before, after, before[i], titles);
    var j :| 0 <= j < |after| && after[j] == before[i];
    assert Classification(runs + more, excluded, titles)[j] == item;
  }

  // ---------------------------------------------------------------- told on the fields of the runs

  /** A run whose workflow number is known and, if GitHub generated it, whose title names its surface. */
  predicate Identified(r: WorkflowRun, titles: Titles) {
    r.workflowId.Some? && (r.event == "dynamic" ==> titles(r.title).Some?)
  }

  /** The same workflow, branch and event, and for generated runs the same surface. */
  predicate SameThing(a: WorkflowRun, b: WorkflowRun, titles: Titles) {
    && Identified(a, titles) && Identified(b, titles)
    && a.workflowId == b.workflowId && a.branch == b.branch && a.event == b.event
    && (a.event == "dynamic" ==> titles(a.title) == titles(b.title))
  }

  /**
    * What repairs a run: a completed success of the same thing, later in time, or of the
    * same time with a larger number. A success elsewhere, on another branch, by another
    * event or for another surface repairs nothing.
    */
  lemma RepairsMeans(c: WorkflowRun, r: WorkflowRun, titles: Titles)
    ensures Repairs(c, r, titles) <==>
            && c.status == "completed" && c.conclusion == "success" && SameThing(c, r, titles)
            && (r.createdAt < c.createdAt || (r.createdAt == c.createdAt && r.id < c.id))
  {
  }

  ghost predicate Repaired(r: WorkflowRun, runs: seq<WorkflowRun>, titles: Titles) {
    exists c :: c in runs && Repairs(c, r, titles)
  }

  /** Each bucket, told on the run and what repairs it. */
  lemma BucketMeans(r: WorkflowRun, runs: seq<WorkflowRun>, titles: Titles)
    ensures var b, ended := BucketOf(r, runs, titles), r.status == "completed";
            var bad := ended && r.conclusion != "success" && r.conclusion != "neutral" && r.conclusion != "skipped";
            && (b == InProgress <==> !ended) && (b == CleanSuccess <==> ended && r.conclusion == "success")
            && (b == OtherCompleted <==> ended && (r.conclusion == "neutral" || r.conclusion == "skipped"))
            && (b == UnresolvedAmbiguous <==> bad && !Identified(r, titles))
            && (b == SupersededCancelled <==> bad && r.conclusion == "cancelled" && Repaired(r, runs, titles))
            && (b == ResolvedFailure <==> bad && r.conclusion != "cancelled" && Repaired(r, runs, titles))
            && (b == UnresolvedCancelled <==> bad && Identified(r, titles) && r.conclusion == "cancelled" && !Repaired(r, runs, titles))
            && (b == UnresolvedFailure <==> bad && Identified(r, titles) && r.conclusion != "cancelled" && !Repaired(r, runs, titles))
  {
    hide Repairs;
    NoKeyNoRepair(r, runs, titles);
  }

  /**
    * The classification lists every run that is not left out, as often as it was given,
    * oldest first and by number within one moment, each in the bucket it has among them.
    */
  lemma ClassificationMeans(runs: seq<WorkflowRun>, excluded: set<string>, titles: Titles)
    ensures var items := Classification(runs, excluded, titles);
            var listed := seq(|items|, i requires 0 <= i < |items| => items[i].run);
            && (forall r :: multiset(listed)[r] == if r.workflowName in excluded then 0 else multiset(runs)[r])
            && (forall i, j :: 0 <= i < j < |items| ==>
                  || listed[i].createdAt < listed[j].createdAt
                  || (listed[i].createdAt == listed[j].createdAt && listed[i].id <= listed[j].id))
            && (forall i :: 0 <= i < |items| ==> items[i].bucket == BucketOf(listed[i], listed, titles))
  {
    hide Chronological, Kept, BucketOf;
    var ordered, items := Chronological(Kept(runs, excluded)), Classification(runs, excluded, titles);
    KeptCounts(runs, excluded);
    ChronologicalIsInOrder(Kept(runs, excluded));
    assert seq(|items|, i requires 0 <= i < |items| => items[i].run) == ordered;
    forall i, j | 0 <= i < j < |ordered|
      ensures || ordered[i].createdAt < ordered[j].createdAt
              || (ordered[i].createdAt == ordered[j].createdAt && ordered[i].id <= ordered[j].id)
    {
      assert !Before(ordered[j], ordered[i]);
    }
  }
}
