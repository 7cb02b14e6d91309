/**
  * Contention edges of the causality graph: which release let a fresh claim through. The
  * exhaustive fold compares each fresh claim with every release; the indexed one looks
  * only under the keys the claim can contend under. They find the same pairs.
  */
module Contention {
  import opened Wrappers
  import opened Strings
  import opened PathIdentity

  datatype Kind = Release | Snapshot | Other

  datatype Node = Node(seqNo: int, kind: Kind, task: string, owner: string, scope: Scope)

  /** A release, by its sequence number, and the live claim it ended. */
  datatype Entry = Entry(release: int, freed: Node)

  datatype Fold = Fold(live: map<string, Node>, released: seq<Entry>, pairs: set<(int, int)>)

  predicate Blocks(freed: Node, claim: Node, u: Unicode) {
    freed.owner != claim.owner && Conflict(freed.scope, claim.scope, u)
  }

  /** The newest release whose freed claim contends with this one. */
  function Latest(released: seq<Entry>, claim: Node, u: Unicode): Option<int> {
    if released == [] then None
    else
      var last := released[|released| - 1];
      if Blocks(last.freed, claim, u) then Some(last.release) else Latest(released[..|released| - 1], claim, u)
  }

  function Step(f: Fold, node: Node, u: Unicode): Fold {
    match node.kind
    case Other => f
    case Release =>
      if node.task in f.live
      then f.(live := f.live - {node.task}, released := f.released + [Entry(node.seqNo, f.live[node.task])])
      else f
    case Snapshot =>
      var blocker := if node.task in f.live then None else Latest(f.released, node, u);
      f.(live := f.live[node.task := node],
         pairs := if blocker.Some? then f.pairs + {(blocker.value, node.seqNo)} else f.pairs)
  }

  function Folded(nodes: seq<Node>, u: Unicode): Fold {
    if nodes == [] then Fold(map[], [], {})
    else Step(Folded(nodes[..|nodes| - 1], u), nodes[|nodes| - 1], u)
  }

  lemma FoldedNext(nodes: seq<Node>, i: nat, u: Unicode)
    requires i < |nodes|
    ensures Folded(nodes[..i + 1], u) == Step(Folded(nodes[..i], u), nodes[i], u)
  {
    hide Step;
    assert nodes[..i + 1][..i] == nodes[..i];
  }

  lemma LatestNext(released: seq<Entry>, i: nat, claim: Node, u: Unicode)
    requires i < |released|
    ensures Latest(released[..i + 1], claim, u) ==
            if Blocks(released[i].freed, claim, u) then Some(released[i].release) else Latest(released[..i], claim, u)
  {
    hide Blocks;
    assert released[..i + 1][..i] == released[..i];
  }

  // ---------------------------------------------------------------- the exhaustive fold

  method ExhaustiveLatest(released: seq<Entry>, claim: Node, u: Unicode) returns (latest: Option<int>)
    ensures latest == Latest(released, claim, u)
  {
    hide Blocks, Latest;
    latest := None;
    assert released[..0] == [] && Latest([], claim, u) == None by { NothingLatest(claim, u); }
    for i := 0 to |released|
      invariant latest == Latest(released[..i], claim, u)
    {
      LatestNext(released, i, claim, u);
      if Blocks(released[i].freed, claim, u) {
        latest := Some(released[i].release);
      }
    }
    assert released[..|released|] == released;
  }

  lemma NothingLatest(claim: Node, u: Unicode)
    ensures Latest([], claim, u) == None
  {
  }

  lemma NothingFolded(u: Unicode)
    ensures Folded([], u) == Fold(map[], [], {})
  {
  }

  method ExhaustiveContention(nodes: seq<Node>, u: Unicode) returns (pairs: set<(int, int)>)
    ensures pairs == Folded(nodes, u).pairs
  {
    hide Latest, Folded;
    var live: map<string, Node>, released: seq<Entry> := map[], [];
    pairs := {};
    NothingFolded(u);
    assert nodes[..0] == [];
    for i := 0 to |nodes|
      invariant Folded(nodes[..i], u) == Fold(live, released, pairs)
    {
      var node := nodes[i];
      FoldedNext(nodes, i, u);
      if node.kind.Release? {
        if node.task in live {
          released := released + [Entry(node.seqNo, live[node.task])];
          live := live - {node.task};
        }
      } else if node.kind.Snapshot? {
        if node.task !in live {
          var latest := ExhaustiveLatest(released, node, u);
          if latest.Some? {
            pairs := pairs + {(latest.value, node.seqNo)};
          }
        }
        live := live[node.task := node];
      }
    }
    assert nodes[..|nodes|] == nodes;
  }

  // ---------------------------------------------------------------- what a pair means

  /** The claim a release ended, if it ended one. */
  function FreedAt(nodes: seq<Node>, j: nat, u: Unicode): Option<Node>
    requires j < |nodes|
  {
    var live := Folded(nodes[..j], u).live;
    if nodes[j].kind.Release? && nodes[j].task in live then Some(live[nodes[j].task]) else None
  }

  ghost predicate FreesFor(nodes: seq<Node>, j: nat, claim: Node, u: Unicode)
    requires j < |nodes|
  {
    FreedAt(nodes, j, u).Some? && Blocks(FreedAt(nodes, j, u).value, claim, u)
  }

  ghost predicate FreshClaim(nodes: seq<Node>, i: nat, u: Unicode)
    requires i < |nodes|
  {
    nodes[i].kind.Snapshot? && nodes[i].task !in Folded(nodes[..i], u).live
  }

  /** Position `j` is the last before `n` whose release freed a claim contending with this one. */
  ghost predicate LastFree(nodes: seq<Node>, j: nat, n: nat, claim: Node, u: Unicode)
    requires n <= |nodes|
  {
    j < n && FreesFor(nodes, j, claim, u) && forall k :: j < k < n ==> !FreesFor(nodes, k, claim, u)
  }

  ghost predicate Lets(nodes: seq<Node>, j: nat, i: nat, u: Unicode)
    requires i < |nodes|
  {
    FreshClaim(nodes, i, u) && LastFree(nodes, j, i, nodes[i], u)
  }

  lemma {:induction false} LatestIsLastFree(nodes: seq<Node>, n: nat, claim: Node, u: Unicode)
    requires n <= |nodes|
    ensures var latest := Latest(Folded(nodes[..n], u).released, claim, u);
            && (latest.None? ==> forall j :: 0 <= j < n ==> !FreesFor(nodes, j, claim, u))
            && (latest.Some? ==> exists j: nat :: LastFree(nodes, j, n, claim, u) && nodes[j].seqNo == latest.value)
  {
    hide Folded, Blocks, FreesFor;
    if n == 0 {
      NothingFolded(u);
      assert nodes[..0] == [];
    } else {
      LatestIsLastFree(nodes, n - 1, claim, u);
      FoldedNext(nodes, n - 1, u);
      ReleasedNext(nodes, n - 1, claim, u);
      if FreesFor(nodes, n - 1, claim, u) {
        assert LastFree(nodes, n - 1, n, claim, u);
      } else if j: nat :| LastFree(nodes, j, n - 1, claim, u) &&
                          Some(nodes[j].seqNo) == Latest(Folded(nodes[..n - 1], u).released, claim, u) {
        assert LastFree(nodes, j, n, claim, u);
      }
    }
  }

  lemma ReleasedNext(nodes: seq<Node>, i: nat, claim: Node, u: Unicode)
    requires i < |nodes|
    ensures Latest(Folded(nodes[..i + 1], u).released, claim, u) ==
            if FreesFor(nodes, i, claim, u) then Some(nodes[i].seqNo)
            else Latest(Folded(nodes[..i], u).released, claim, u)
  {
    hide Folded, Blocks;
    FoldedNext(nodes, i, u);
    var before := Folded(nodes[..i], u).released;
    if FreedAt(nodes, i, u).Some? {
      var after := before + [Entry(nodes[i].seqNo, FreedAt(nodes, i, u).value)];
      assert after[..|before|] == before;
    }
  }

  /**
    * A pair is reported exactly when its claim is fresh and its release is the latest
    * earlier one that freed a contending claim of another owner.
    */
  lemma {:induction false} PairMeans(nodes: seq<Node>, n: nat, r: int, c: int, u: Unicode)
    requires n <= |nodes|
    ensures (r, c) in Folded(nodes[..n], u).pairs <==>
            exists i: nat, j: nat :: i < n && Lets(nodes, j, i, u) && nodes[i].seqNo == c && nodes[j].seqNo == r
  {
    hide Folded, Latest, FreesFor;
    if n == 0 {
      NothingFolded(u);
      assert nodes[..0] == [];
    } else {
      var i := n - 1;
      PairMeans(nodes, i, r, c, u);
      FoldedNext(nodes, i, u);
      LatestIsLastFree(nodes, i, nodes[i], u);
      if j: nat :| j < i && Lets(nodes, j, i, u) && nodes[i].seqNo == c && nodes[j].seqNo == r {
        OneLastFree(nodes, i, nodes[i], u, j);
      }
    }
  }

  /** There is one last contending release, and it is the one `Latest` finds. */
  lemma OneLastFree(nodes: seq<Node>, n: nat, claim: Node, u: Unicode, j: nat)
    requires n <= |nodes| && LastFree(nodes, j, n, claim, u)
    ensures Latest(Folded(nodes[..n], u).released, claim, u) == Some(nodes[j].seqNo)
  {
    hide Folded, Latest, FreesFor;
    LatestIsLastFree(nodes, n, claim, u);
    var k: nat :| LastFree(nodes, k, n, claim, u) && Some(nodes[k].seqNo) == Latest(Folded(nodes[..n], u).released, claim, u);
    assert !(j < k) && !(k < j);
  }

  // ---------------------------------------------------------------- told on the log alone

  /** Before position `n` the task is held by the snapshot at `k`: it is the task's last event but for other news of it. */
  ghost predicate HeldBy(nodes: seq<Node>, n: nat, task: string, k: nat)
    requires n <= |nodes|
  {
    && k < n && nodes[k].kind.Snapshot? && nodes[k].task == task
    && forall i :: k < i < n && nodes[i].task == task ==> nodes[i].kind.Other?
  }

  lemma {:induction false} LiveMeans(nodes: seq<Node>, n: nat, task: string, u: Unicode)
    requires n <= |nodes|
    ensures var live := Folded(nodes[..n], u).live;
            && (task in live ==> exists k: nat :: HeldBy(nodes, n, task, k) && live[task] == nodes[k])
            && (forall k: nat :: HeldBy(nodes, n, task, k) ==> task in live && live[task] == nodes[k])
  {
    hide Folded, Latest;
    if n == 0 {
      NothingFolded(u);
      assert nodes[..0] == [];
    } else {
      LiveMeans(nodes, n - 1, task, u);
      FoldedNext(nodes, n - 1, u);
      var before, live := Folded(nodes[..n - 1], u).live, Folded(nodes[..n], u).live;
      var node := nodes[n - 1];
      if node.task == task && node.kind.Snapshot? {
        assert HeldBy(nodes, n, task, n - 1);
      } else if task in live {
        var k: nat :| HeldBy(nodes, n - 1, task, k) && before[task] == nodes[k];
        assert HeldBy(nodes, n, task, k);
      }
      forall k: nat | HeldBy(nodes, n, task, k) ensures task in live && live[task] == nodes[k] {
        if k < n - 1 {
          assert HeldBy(nodes, n - 1, task, k);
        }
      }
    }
  }

  /** The release at `j` ended a claim, of another owner, whose files contend with the claim's. */
  ghost predicate Frees(nodes: seq<Node>, j: nat, claim: Node, u: Unicode)
    requires j < |nodes|
  {
    && nodes[j].kind.Release?
    && exists k: nat :: HeldBy(nodes, j, nodes[j].task, k) && nodes[k].owner != claim.owner && Conflict(nodes[k].scope, claim.scope, u)
  }

  lemma FreesMeans(nodes: seq<Node>, j: nat, claim: Node, u: Unicode)
    requires j < |nodes|
    ensures FreesFor(nodes, j, claim, u) <==> Frees(nodes, j, claim, u)
  {
    hide Folded, Conflict;
    LiveMeans(nodes, j, nodes[j].task, u);
  }

  /** The claim at `i` takes a task nobody holds, and the release at `j` is the last before it that freed contending files. */
  ghost predicate LetThrough(nodes: seq<Node>, j: nat, i: nat, u: Unicode)
    requires j < i < |nodes|
  {
    && nodes[i].kind.Snapshot? && (forall k: nat :: !HeldBy(nodes, i, nodes[i].task, k))
    && Frees(nodes, j, nodes[i], u) && forall k :: j < k < i ==> !Frees(nodes, k, nodes[i], u)
  }

  /** The pairs of a log, told on its events: a fresh claim with the latest release that let it through. */
  lemma ContentionMeans(nodes: seq<Node>, r: int, c: int, u: Unicode)
    ensures (r, c) in Folded(nodes, u).pairs <==>
            exists i: nat, j: nat :: j < i < |nodes| && LetThrough(nodes, j, i, u) && nodes[i].seqNo == c && nodes[j].seqNo == r
  {
    hide Folded, FreesFor, Frees, HeldBy;
    assert nodes[..|nodes|] == nodes;
    PairMeans(nodes, |nodes|, r, c, u);
    forall i: nat, j: nat | j < i < |nodes| ensures Lets(nodes, j, i, u) <==> LetThrough(nodes, j, i, u) {
      LiveMeans(nodes, i, nodes[i].task, u);
      forall k: nat | k < |nodes| ensures FreesFor(nodes, k, nodes[i], u) <==> Frees(nodes, k, nodes[i], u) {
        FreesMeans(nodes, k, nodes[i], u);
      }
    }
  }
}
