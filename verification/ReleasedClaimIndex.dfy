/**
  * The index of released claims by the keys under which they can contend, and the
  * contention fold that uses it. Its five dictionaries are one map whose keys say which
  * dictionary they belong to. `heapq.merge` is taken at its interface: it yields the
  * entries of ascending buckets, greatest sequence first.
  */
module ReleasedClaimIndex {
  import opened Wrappers
  import opened Strings
  import opened PathIdentity
  import opened Contention

  datatype Key =
    | LegacyDisplay(worktree: string)
    | LegacyLabel(caseSensitive: bool, label_: string)
    | IdentityFolded(folded: string)
    | IdentityLabel(caseSensitive: bool, label_: string)
    | IdentityObject(namespace: string, base: string)

  /** The keys a released claim is filed under. */
  function FilingKeys(freed: Node, u: Unicode): seq<Key> {
    match freed.scope.identity
    case None =>
      var w := freed.scope.worktree;
      [LegacyDisplay(w), LegacyLabel(true, ComparisonWorktree(w, true, u)), LegacyLabel(false, ComparisonWorktree(w, false, u))]
    case Some(id) =>
      [IdentityFolded(ComparisonWorktree(id.worktreePath, false, u)), IdentityLabel(id.caseSensitive, id.worktreePath)] +
      if id.namespace != "" && id.worktreeObjectId != ""
      then [IdentityObject(id.namespace, ObjectKeyBase(id.worktreeObjectId))] else []
  }

  /** The keys a fresh claim looks under. */
  function SearchKeys(claim: Node, u: Unicode): seq<Key> {
    match claim.scope.identity
    case None =>
      var w := claim.scope.worktree;
      [LegacyDisplay(w), IdentityLabel(true, ComparisonWorktree(w, true, u)), IdentityLabel(false, ComparisonWorktree(w, false, u))]
    case Some(id) =>
      [IdentityFolded(ComparisonWorktree(id.worktreePath, false, u)), LegacyLabel(id.caseSensitive, id.worktreePath)] +
      if id.namespace != "" && id.worktreeObjectId != ""
      then [IdentityObject(id.namespace, ObjectKeyBase(id.worktreeObjectId))] else []
  }

  ghost predicate Meets(freed: Node, claim: Node, u: Unicode) {
    exists k :: k in FilingKeys(freed, u) && k in SearchKeys(claim, u)
  }

  /** Claims that contend meet under some key, so the index misses nothing. */
  lemma ContendersMeet(freed: Node, claim: Node, u: Unicode)
    requires Conflict(freed.scope, claim.scope, u)
    ensures Meets(freed, claim, u)
  {
    hide ComparisonWorktree, ObjectKeyBase, HasGeneration, AnyRowsOverlap, Rows, Scoping.PathsOverlap;
    if WorktreesMatch(freed.scope, claim.scope, u) {
      MatchingWorktreesMeet(freed, claim, u);
    } else {
      var x, y := freed.scope.identity.value, claim.scope.identity.value;
      SameKeySameBase(x.worktreeObjectId, y.worktreeObjectId);
      MeetAt(freed, claim, u, 2, 2);
    }
  }

  lemma MeetAt(freed: Node, claim: Node, u: Unicode, i: nat, j: nat)
    requires i < |FilingKeys(freed, u)| && j < |SearchKeys(claim, u)|
    requires FilingKeys(freed, u)[i] == SearchKeys(claim, u)[j]
    ensures Meets(freed, claim, u)
  {
    hide FilingKeys, SearchKeys;
    assert FilingKeys(freed, u)[i] in SearchKeys(claim, u);
  }

  lemma MatchingWorktreesMeet(freed: Node, claim: Node, u: Unicode)
    requires WorktreesMatch(freed.scope, claim.scope, u)
    ensures Meets(freed, claim, u)
  {
    hide ComparisonWorktree, ObjectKeyBase, SameWorktreeKey;
    match (freed.scope.identity, claim.scope.identity)
    case (None, None) => MeetAt(freed, claim, u, 0, 0);
    case (None, Some(known)) => MeetAt(freed, claim, u, if known.caseSensitive then 1 else 2, 1);
    case (Some(known), None) => MeetAt(freed, claim, u, 1, if known.caseSensitive then 1 else 2);
    case (Some(x), Some(y)) =>
      if x.caseSensitive && y.caseSensitive {
        FoldedLabelsAgree(x.worktreePath, y.worktreePath, u);
      }
      MeetAt(freed, claim, u, 0, 0);
  }

  lemma SameKeySameBase(a: string, b: string)
    requires SameWorktreeKey(a, b)
    ensures ObjectKeyBase(a) == ObjectKeyBase(b)
  {
  }

  // ---------------------------------------------------------------- the index

  /** The entries filed under a key, oldest first. */
  function Under(all: seq<Entry>, key: Key, u: Unicode): seq<Entry> {
    if all == [] then []
    else
      var last := all[|all| - 1];
      Under(all[..|all| - 1], key, u) + if key in FilingKeys(last.freed, u) then [last] else []
  }

  predicate Ascending(all: seq<Entry>) {
    forall i, j :: 0 <= i < j < |all| ==> all[i].release < all[j].release
  }

  lemma UnderNext(all: seq<Entry>, last: Entry, key: Key, u: Unicode)
    ensures Under([], key, u) == []
    ensures Under(all + [last], key, u) == Under(all, key, u) + if key in FilingKeys(last.freed, u) then [last] else []
  {
    hide FilingKeys;
    assert (all + [last])[..|all|] == all;
  }

  lemma {:induction false} UnderHas(all: seq<Entry>, key: Key, u: Unicode, e: Entry)
    ensures e in Under(all, key, u) <==> e in all && key in FilingKeys(e.freed, u)
  {
    hide FilingKeys, Under;
    if all == [] {
      UnderNext([], e, key, u);
    } else {
      var init, last := all[..|all| - 1], all[|all| - 1];
      assert all == init + [last];
      UnderNext(init, last, key, u);
      UnderHas(init, key, u, e);
    }
  }

  lemma {:induction false} UnderAscends(all: seq<Entry>, key: Key, u: Unicode)
    requires Ascending(all)
    ensures Ascending(Under(all, key, u))
  {
    hide FilingKeys, Under;
    if all == [] {
      UnderNext([], Entry(0, Node(0, Other, "", "", Scope("", [], None))), key, u);
    } else {
      var init, last := all[..|all| - 1], all[|all| - 1];
      assert all == init + [last];
      UnderNext(init, last, key, u);
      UnderAscends(init, key, u);
      forall e | e in Under(init, key, u) ensures e.release < last.release {
        UnderHas(init, key, u, e);
        var i :| 0 <= i < |init| && init[i] == e;
      }
    }
  }

  // ---------------------------------------------------------------- newest first

  predicate Qualifies(e: Entry, claim: Node, u: Unicode) {
    e.release < claim.seqNo && Blocks(e.freed, claim, u)
  }

  /** The newest earlier release that contends. */
  function LatestEarlier(all: seq<Entry>, claim: Node, u: Unicode): Option<int> {
    if all == [] then None
    else
      var last := all[|all| - 1];
      if Qualifies(last, claim, u) then Some(last.release) else LatestEarlier(all[..|all| - 1], claim, u)
  }

  lemma {:induction false} NewestQualifier(all: seq<Entry>, claim: Node, u: Unicode, e: Entry)
    requires Ascending(all) && e in all && Qualifies(e, claim, u)
    requires forall x :: x in all && Qualifies(x, claim, u) ==> x.release <= e.release
    ensures LatestEarlier(all, claim, u) == Some(e.release)
  {
    hide Qualifies;
    var init, last := all[..|all| - 1], all[|all| - 1];
    assert all == init + [last];
    if Qualifies(last, claim, u) {
      var i :| 0 <= i < |all| && all[i] == e;
      assert last in all;
    } else {
      NewestQualifier(init, claim, u, e);
    }
  }

  lemma {:induction false} NoQualifier(all: seq<Entry>, claim: Node, u: Unicode)
    requires forall x :: x in all ==> !Qualifies(x, claim, u)
    ensures LatestEarlier(all, claim, u) == None
  {
    hide Qualifies;
    if all != [] {
      assert all[|all| - 1] in all;
      NoQualifier(all[..|all| - 1], claim, u);
    }
  }

  /** When every release is earlier than the claim, earlier means all. */
  lemma {:induction false} AllEarlier(all: seq<Entry>, claim: Node, u: Unicode)
    requires forall e :: e in all ==> e.release < claim.seqNo
    ensures LatestEarlier(all, claim, u) == Latest(all, claim, u)
  {
    hide Blocks;
    if all != [] {
      assert all[|all| - 1] in all;
      AllEarlier(all[..|all| - 1], claim, u);
    }
  }

  function Left(rest: seq<seq<Entry>>): nat {
    if rest == [] then 0 else |rest[0]| + Left(rest[1..])
  }

  lemma {:induction false} LeftDrops(rest: seq<seq<Entry>>, i: nat)
    requires i < |rest| && rest[i] != []
    ensures Left(rest[i := rest[i][..|rest[i]| - 1]]) == Left(rest) - 1
  {
    var popped := rest[i := rest[i][..|rest[i]| - 1]];
    if i == 0 {
      assert popped[1..] == rest[1..];
    } else {
      assert popped[1..] == rest[1..][i - 1 := rest[i][..|rest[i]| - 1]];
      LeftDrops(rest[1..], i - 1);
    }
  }

  /** Everything that qualifies is still to come, and nothing to come is newer than the last one seen. */
  ghost predicate Merging(all: seq<Entry>, rest: seq<seq<Entry>>, previous: Option<int>, claim: Node, u: Unicode) {
    && (forall b :: 0 <= b < |rest| ==> Ascending(rest[b]))
    && (forall b, e :: 0 <= b < |rest| && e in rest[b] ==> e in all)
    && (forall e :: e in all && Qualifies(e, claim, u) ==> Remaining(rest, e))
    && (previous.Some? ==> forall b, e :: 0 <= b < |rest| && e in rest[b] ==> e.release <= previous.value)
    && (previous.Some? ==> forall e :: e in all && e.release == previous.value ==> !Qualifies(e, claim, u))
  }

  ghost predicate Remaining(rest: seq<seq<Entry>>, e: Entry) {
    exists b :: 0 <= b < |rest| && e in rest[b]
  }

  /** Passing over the newest remaining entry, when it does not qualify. */
  lemma PassOver(all: seq<Entry>, rest: seq<seq<Entry>>, previous: Option<int>, claim: Node, u: Unicode, i: nat)
    requires Ascending(all) && Merging(all, rest, previous, claim, u) && i < |rest| && rest[i] != []
    requires var top := rest[i][|rest[i]| - 1];
             && !Qualifies(top, claim, u)
             && forall b, e :: 0 <= b < |rest| && e in rest[b] ==> e.release <= top.release
    ensures var top := rest[i][|rest[i]| - 1];
            Merging(all, rest[i := rest[i][..|rest[i]| - 1]], Some(top.release), claim, u)
  {
    hide Qualifies;
    var bucket := rest[i];
    var init, top := bucket[..|bucket| - 1], bucket[|bucket| - 1];
    var popped := rest[i := init];
    assert bucket == init + [top];
    forall e | e in all && Qualifies(e, claim, u) ensures Remaining(popped, e) {
      var b :| 0 <= b < |rest| && e in rest[b];
      assert e in popped[b];
    }
    forall e | e in all && e.release == top.release ensures !Qualifies(e, claim, u) {
      SameRelease(all, e, top);
    }
  }

  lemma SameRelease(all: seq<Entry>, a: Entry, b: Entry)
    requires Ascending(all) && a in all && b in all && a.release == b.release
    ensures a == b
  {
    var i :| 0 <= i < |all| && all[i] == a;
    var j :| 0 <= j < |all| && all[j] == b;
  }

  /** The bucket whose end is newest. */
  method Newest(rest: seq<seq<Entry>>) returns (i: nat)
    requires forall b :: 0 <= b < |rest| ==> Ascending(rest[b])
    requires exists b :: 0 <= b < |rest| && rest[b] != []
    ensures i < |rest| && rest[i] != []
    ensures forall b, e :: 0 <= b < |rest| && e in rest[b] ==> e.release <= rest[i][|rest[i]| - 1].release
  {
    i := 0;
    while rest[i] == []
      invariant i < |rest| && (forall b :: 0 <= b < i ==> rest[b] == [])
      decreases |rest| - i
    {
      i := i + 1;
    }
    for k := i + 1 to |rest|
      invariant i < |rest| && rest[i] != []
      invariant forall b :: 0 <= b < k && rest[b] != [] ==>
        rest[b][|rest[b]| - 1].release <= rest[i][|rest[i]| - 1].release
    {
      if rest[k] != [] && rest[k][|rest[k]| - 1].release > rest[i][|rest[i]| - 1].release {
        i := k;
      }
    }
    forall b, e | 0 <= b < |rest| && e in rest[b] ensures e.release <= rest[i][|rest[i]| - 1].release {
      EndIsNewest(rest[b], e);
    }
  }

  lemma EndIsNewest(bucket: seq<Entry>, e: Entry)
    requires Ascending(bucket) && e in bucket
    ensures e.release <= bucket[|bucket| - 1].release
  {
    var i :| 0 <= i < |bucket| && bucket[i] == e;
  }

  class ReleasedClaimIndex {
    const u: Unicode
    var buckets: map<Key, seq<Entry>>
    ghost var all: seq<Entry>

    ghost predicate Valid()
      reads this
    {
      && Ascending(all)
      && forall key :: Bucket(key) == Under(all, key, u)
    }

    function Bucket(key: Key): seq<Entry>
      reads this
    {
      if key in buckets then buckets[key] else []
    }

    constructor (tables: Unicode)
      ensures Valid() && all == [] && u == tables
    {
      u, buckets, all := tables, map[], [];
    }

    /** Files the claim a release ended; sequences only grow. */
    method Add(release: int, freed: Node)
      requires Valid() && (forall e :: e in all ==> e.release < release)
      modifies this
      ensures Valid() && all == old(all) + [Entry(release, freed)]
    {
      var entry, keys := Entry(release, freed), FilingKeys(freed, u);
      ghost var before := buckets;
      KeysDistinct(freed, u);
      hide FilingKeys, Under;
      for i := 0 to |keys|
        invariant unchanged(this`all)
        invariant forall key :: Bucket(key) == Under(all, key, u) + if key in keys[..i] then [entry] else []
      {
        assert keys[i] !in keys[..i];
        assert forall key :: key in keys[..i + 1] <==> key in keys[..i] || key == keys[i];
        buckets := buckets[keys[i] := Bucket(keys[i]) + [entry]];
      }
      assert keys[..|keys|] == keys;
      all := all + [entry];
      forall key ensures Bucket(key) == Under(all, key, u) {
        UnderNext(old(all), entry, key, u);
      }
    }

    /** The buckets a claim looks in. */
    function Candidates(claim: Node): (r: seq<seq<Entry>>)
      reads this
      ensures |r| == |SearchKeys(claim, u)| && forall i :: 0 <= i < |r| ==> r[i] == Bucket(SearchKeys(claim, u)[i])
    {
      var keys := SearchKeys(claim, u);
      seq(|keys|, i requires 0 <= i < |keys| reads this => Bucket(keys[i]))
    }

    lemma CandidatesMiss(claim: Node)
      requires Valid()
      ensures Merging(all, Candidates(claim), None, claim, u)
    {
      hide FilingKeys, SearchKeys, Under, Conflict;
      var keys, rest := SearchKeys(claim, u), Candidates(claim);
      forall b | 0 <= b < |rest| ensures Ascending(rest[b]) {
        UnderAscends(all, keys[b], u);
      }
      forall b, e | 0 <= b < |rest| && e in rest[b] ensures e in all {
        UnderHas(all, keys[b], u, e);
      }
      forall e | e in all && Qualifies(e, claim, u) ensures Remaining(rest, e) {
        ContendersMeet(e.freed, claim, u);
        var key :| key in FilingKeys(e.freed, u) && key in keys;
        var b :| 0 <= b < |keys| && keys[b] == key;
        UnderHas(all, key, u, e);
        assert e in rest[b];
      }
    }

    /** The merge, newest release first, each release once; the first that qualifies is the answer. */
    method LatestConflicting(claim: Node) returns (found: Option<int>)
      requires Valid()
      ensures found == LatestEarlier(all, claim, u)
    {
      hide Qualifies, FilingKeys, SearchKeys, Under, LatestEarlier;
      var rest: seq<seq<Entry>> := Candidates(claim);
      var previous: Option<int> := None;
      CandidatesMiss(claim);
      while exists b :: 0 <= b < |rest| && rest[b] != []
        invariant Merging(all, rest, previous, claim, u)
        decreases Left(rest)
      {
        var i := Newest(rest);
        var top: Entry := rest[i][|rest[i]| - 1];
        assert top in rest[i];
        if previous != Some(top.release) && Qualifies(top, claim, u) {
          Settled(all, rest, claim, u, top);
          return Some(top.release);
        }
        PassOver(all, rest, previous, claim, u, i);
        LeftDrops(rest, i);
        rest := rest[i := rest[i][..|rest[i]| - 1]];
        previous := Some(top.release);
      }
      NoQualifier(all, claim, u);
      found := None;
    }
  }

  lemma Settled(all: seq<Entry>, rest: seq<seq<Entry>>, claim: Node, u: Unicode, top: Entry)
    requires Ascending(all) && top in all && Qualifies(top, claim, u)
    requires forall e :: e in all && Qualifies(e, claim, u) ==> Remaining(rest, e)
    requires forall b, e :: 0 <= b < |rest| && e in rest[b] ==> e.release <= top.release
    ensures LatestEarlier(all, claim, u) == Some(top.release)
  {
    hide Qualifies, LatestEarlier;
    NewestQualifier(all, claim, u, top);
  }

  lemma KeysDistinct(freed: Node, u: Unicode)
    ensures forall i, j :: 0 <= i < j < |FilingKeys(freed, u)| ==> FilingKeys(freed, u)[i] != FilingKeys(freed, u)[j]
  {
  }

  // ---------------------------------------------------------------- the indexed fold

  predicate SeqAscending(nodes: seq<Node>) {
    forall i, j :: 0 <= i < j < |nodes| ==> nodes[i].seqNo < nodes[j].seqNo
  }

  lemma {:induction false} ReleasesAreEarlier(nodes: seq<Node>, n: nat, u: Unicode)
    requires n <= |nodes| && SeqAscending(nodes)
    ensures forall e :: e in Folded(nodes[..n], u).released ==> exists j :: 0 <= j < n && nodes[j].seqNo == e.release
  {
    hide Folded, Latest;
    if n == 0 {
      NothingFolded(u);
      assert nodes[..0] == [];
    } else {
      FoldedNext(nodes, n - 1, u);
      ReleasesAreEarlier(nodes, n - 1, u);
    }
  }

  lemma EarlierThan(nodes: seq<Node>, n: nat, u: Unicode)
    requires n < |nodes| && SeqAscending(nodes)
    ensures forall e :: e in Folded(nodes[..n], u).released ==> e.release < nodes[n].seqNo
  {
    hide Folded;
    ReleasesAreEarlier(nodes, n, u);
  }

  /**
    * The worktree-indexed fold finds exactly the pairs of the exhaustive one, on any log
    * in sequence order.
    */
  method IndexedContention(nodes: seq<Node>, u: Unicode) returns (edges: seq<(int, int)>)
    requires SeqAscending(nodes)
    ensures forall p :: p in edges <==> p in Folded(nodes, u).pairs
  {
    hide Folded, Latest, LatestEarlier;
    edges := [];
    var live: map<string, Node> := map[];
    var released := new ReleasedClaimIndex(u);
    NothingFolded(u);
    assert nodes[..0] == [];
    for i := 0 to |nodes|
      invariant fresh(released) && released.Valid() && released.u == u
      invariant live == Folded(nodes[..i], u).live && released.all == Folded(nodes[..i], u).released
      invariant forall p :: p in edges <==> p in Folded(nodes[..i], u).pairs
    {
      var node := nodes[i];
      FoldedNext(nodes, i, u);
      EarlierThan(nodes, i, u);
      if node.kind.Release? {
        if node.task in live {
          released.Add(node.seqNo, live[node.task]);
          live := live - {node.task};
        }
      } else if node.kind.Snapshot? {
        if node.task !in live {
          AllEarlier(released.all, node, u);
          var blocker := released.LatestConflicting(node);
          if blocker.Some? {
            edges := edges + [(blocker.value, node.seqNo)];
          }
        }
        live := live[node.task := node];
      }
    }
    assert nodes[..|nodes|] == nodes;
  }
}
