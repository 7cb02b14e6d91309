/**
  * The gate over test shards: what it accepts, and that acceptance means every test of
  * the inventory was completed by exactly one shard.
  */
module ShardGate {
  import opened Wrappers
  import opened Scoping
  import opened SortedIds
  import opened ShardSchedule

  const MAX_SHARDS := 128

  /** A worker's pytest receipt; `schedule` holds the weights of a timed selection. */
  datatype Receipt = Receipt(
    schema: int, success: bool, exitstatus: int, python: string, index: int, count: int,
    inventory: seq<string>, selected: seq<string>, completed: seq<string>, schedule: Option<map<string, real>>)

  /** A list of non-empty ids equal to its own sorted set. */
  predicate Ids(value: seq<string>) {
    "" !in value && value == Sorted(Dedup(value))
  }

  predicate Coordinates(r: Receipt) {
    1 <= r.count <= MAX_SHARDS && 0 <= r.index < r.count
  }

  /** The partition the receipt's own scheduling input gives its worker; none where scheduling raises. */
  function ExpectedSelection(r: Receipt): Option<seq<string>>
    requires Coordinates(r)
  {
    match r.schedule
    case None => Some(Strided(r.inventory, r.index, r.count))
    case Some(weights) =>
      if !Partitionable(r.inventory, r.count, weights) then None
      else Some(Scheduled(Sorted(r.inventory), r.count, weights, r.index))
  }

  /** The receipt of a run that completed its exact partition. */
  predicate Completed(r: Receipt) {
    && Ids(r.inventory) && Ids(r.selected) && Coordinates(r)
    && r.schema == 1 && r.success && r.exitstatus == 0
    && r.selected != [] && ExpectedSelection(r) == Some(r.selected)
    && Ids(r.completed) && r.completed == r.selected
  }

  function Concat(lists: seq<seq<string>>): seq<string> {
    if lists == [] then [] else lists[0] + Concat(lists[1..])
  }

  function Selections(records: seq<Receipt>): (r: seq<seq<string>>)
    ensures |r| == |records| && forall i :: 0 <= i < |r| ==> r[i] == records[i].selected
  {
    seq(|records|, i requires 0 <= i < |records| => records[i].selected)
  }

  function Indices(records: seq<Receipt>): set<int> {
    set r | r in records :: r.index
  }

  /** Every index once, one inventory, and selections that sort to it. */
  predicate ProfileHolds(records: seq<Receipt>, count: nat) {
    && records != [] && |records| == count && Indices(records) == Range(count)
    && (forall r :: r in records ==> r.count == count && r.inventory == records[0].inventory)
    && Sorted(Concat(Selections(records))) == records[0].inventory
  }

  lemma ConcatNext(lists: seq<seq<string>>, i: nat)
    requires i < |lists|
    ensures Concat(lists[..i + 1]) == Concat(lists[..i]) + lists[i]
  {
    ConcatAppend(lists[..i], lists[i]);
    assert lists[..i + 1] == lists[..i] + [lists[i]];
  }

  lemma {:induction false} ConcatAppend(lists: seq<seq<string>>, last: seq<string>)
    ensures Concat(lists + [last]) == Concat(lists) + last
  {
    if lists == [] {
      assert lists + [last] == [last] && [last][1..] == [];
    } else {
      assert (lists + [last])[1..] == lists[1..] + [last];
      ConcatAppend(lists[1..], last);
    }
  }

  /** The union loop of one interpreter profile; an empty profile is refused. */
  method Profile(records: seq<Receipt>, count: nat) returns (ok: bool)
    ensures ok == ProfileHolds(records, count)
  {
    hide Concat, Sorted, Indices, Range;
    if records == [] || |records| != count || Indices(records) != Range(count) {
      return false;
    }
    var reference := records[0].inventory;
    var union: seq<string> := [];
    ghost var lists := Selections(records);
    assert lists[..0] == [] && Concat([]) == [] by { EmptyConcat(); }
    for i := 0 to |records|
      invariant union == Concat(lists[..i])
      invariant forall k :: 0 <= k < i ==> records[k].count == count && records[k].inventory == reference
    {
      if records[i].count != count || records[i].inventory != reference {
        assert records[i] in records;
        return false;
      }
      ConcatNext(lists, i);
      union := union + records[i].selected;
    }
    assert lists[..|records|] == lists;
    ok := Sorted(union) == reference;
  }

  lemma EmptyConcat()
    ensures Concat([]) == []
  {
  }

  function OfPython(records: seq<Receipt>, python: string): (r: seq<Receipt>)
    ensures forall x :: x in r <==> x in records && x.python == python
  {
    if records == [] then []
    else (if records[0].python == python then [records[0]] else []) + OfPython(records[1..], python)
  }

  /** What the gate accepts: the whole matrix, each profile complete, every receipt completed. */
  predicate Accepts(records: seq<Receipt>, pythons: seq<string>, count: nat) {
    && |records| == |pythons| * count
    && (forall i, j :: 0 <= i < j < |pythons| ==> pythons[i] != pythons[j])
    && (forall r :: r in records ==> Coordinates(r) && Ids(r.inventory) && Ids(r.selected) && r.python in pythons)
    && (forall p :: p in pythons ==> ProfileHolds(OfPython(records, p), count))
    && (forall r :: r in records ==> Completed(r))
  }

  method Verify(records: seq<Receipt>, pythons: seq<string>, count: nat) returns (ok: bool)
    ensures ok == Accepts(records, pythons, count)
  {
    hide ProfileHolds, Ids, Completed, Coordinates, OfPython;
    if |records| != |pythons| * count || exists i, j :: 0 <= i < j < |pythons| && pythons[i] == pythons[j] {
      return false;
    }
    for i := 0 to |records|
      invariant forall k :: 0 <= k < i ==>
        Coordinates(records[k]) && Ids(records[k].inventory) && Ids(records[k].selected) && records[k].python in pythons
    {
      var main := records[i];
      if !(Coordinates(main) && Ids(main.inventory) && Ids(main.selected) && main.python in pythons) {
        assert main in records;
        return false;
      }
    }
    for i := 0 to |pythons|
      invariant forall k :: 0 <= k < i ==> ProfileHolds(OfPython(records, pythons[k]), count)
      invariant forall k, r :: 0 <= k < i && r in OfPython(records, pythons[k]) ==> Completed(r)
    {
      var profile := OfPython(records, pythons[i]);
      var holds := Profile(profile, count);
      if !holds {
        assert pythons[i] in pythons;
        return false;
      }
      for j := 0 to |profile|
        invariant forall k :: 0 <= k < j ==> Completed(profile[k])
      {
        if !Completed(profile[j]) {
          ProfileOf(records, pythons[i]);
          assert profile[j] in profile;
          return false;
        }
      }
    }
    forall r | r in records ensures Completed(r) {
      ProfileOf(records, r.python);
      assert r in OfPython(records, r.python);
    }
    ok := true;
  }

  lemma ProfileOf(records: seq<Receipt>, python: string)
    ensures forall x :: x in OfPython(records, python) <==> x in records && x.python == python
  {
  }

  // ---------------------------------------------------------------- acceptance means exactly once

  lemma {:induction false} ConcatHas(lists: seq<seq<string>>, t: string)
    ensures t in Concat(lists) <==> exists k :: 0 <= k < |lists| && t in lists[k]
  {
    if lists != [] {
      ConcatHas(lists[1..], t);
      if k :| 0 <= k < |lists| - 1 && t in lists[1..][k] {
        assert t in lists[k + 1];
      }
      if k :| 1 <= k < |lists| && t in lists[k] {
        assert t in lists[1..][k - 1];
      }
    }
  }

  lemma {:induction false} InTwoLists(lists: seq<seq<string>>, t: string, i: nat, j: nat)
    requires i < j < |lists| && t in lists[i] && t in lists[j]
    ensures multiset(Concat(lists))[t] >= 2
  {
    assert multiset(Concat(lists)) == multiset(lists[0]) + multiset(Concat(lists[1..]));
    assert lists[1..][j - 1] == lists[j];
    if i > 0 {
      InTwoLists(lists[1..], t, i - 1, j - 1);
    } else {
      ConcatHas(lists[1..], t);
      assert multiset(lists[0])[t] >= 1 && multiset(Concat(lists[1..]))[t] >= 1;
    }
  }

  /** An element counted once lies in one list only. */
  lemma InOneList(lists: seq<seq<string>>, t: string, i: nat, j: nat)
    requires i < |lists| && j < |lists| && t in lists[i] && t in lists[j]
    requires multiset(Concat(lists))[t] <= 1
    ensures i == j
  {
    hide Concat;
    if i < j {
      InTwoLists(lists, t, i, j);
    } else if j < i {
      InTwoLists(lists, t, j, i);
    }
  }

  ghost predicate CompletedOnce(profile: seq<Receipt>, t: string) {
    exists k :: 0 <= k < |profile| && OnlyAt(profile, k, t)
  }

  ghost predicate OnlyAt(profile: seq<Receipt>, k: nat, t: string)
    requires k < |profile|
  {
    t in profile[k].completed && forall j :: 0 <= j < |profile| && t in profile[j].completed ==> j == k
  }

  lemma ProfileMeansOnce(profile: seq<Receipt>, count: nat, t: string)
    requires ProfileHolds(profile, count) && (forall r :: r in profile ==> Completed(r))
    ensures t in profile[0].inventory ==> CompletedOnce(profile, t)
    ensures (exists r :: r in profile && t in r.completed) ==> t in profile[0].inventory
    ensures StrictlyAscending(profile[0].inventory)
  {
    hide Concat, Sorted, Indices, Range, ExpectedSelection, Coordinates;
    var inventory, lists := profile[0].inventory, Selections(profile);
    assert Completed(profile[0]);
    SortedSetIffStrict(inventory);
    StrictIsAscending(inventory);
    SortedIs(Concat(lists), inventory);
    MultisetOfDistinct(inventory);
    ConcatHas(lists, t);
    assert t in Concat(lists) <==> t in multiset(inventory);
    forall k | 0 <= k < |profile| ensures lists[k] == profile[k].completed {
      assert Completed(profile[k]);
    }
    if t in inventory {
      var k :| 0 <= k < |lists| && t in lists[k];
      forall j | 0 <= j < |profile| && t in profile[j].completed ensures j == k {
        InOneList(lists, t, j, k);
      }
      assert OnlyAt(profile, k, t);
    }
    if r :| r in profile && t in r.completed {
      var k :| 0 <= k < |profile| && profile[k] == r;
      assert t in lists[k];
    }
  }

  /**
    * If the gate accepts, then for every interpreter of the matrix each test of the common
    * inventory was completed by exactly one shard, once, and nothing else was completed.
    */
  lemma AcceptedMeansEachTestOnce(records: seq<Receipt>, pythons: seq<string>, count: nat, python: string, t: string)
    requires Accepts(records, pythons, count) && python in pythons
    ensures var profile := OfPython(records, python);
            && profile != [] && |profile| == count
            && (t in profile[0].inventory <==> exists r :: r in profile && t in r.completed)
            && (t in profile[0].inventory ==> CompletedOnce(profile, t))
            && (forall r :: r in profile ==> r.inventory == profile[0].inventory && StrictlyAscending(r.completed))
  {
    hide Concat, Sorted, Range, ExpectedSelection, Coordinates;
    var profile := OfPython(records, python);
    ProfileOf(records, python);
    ProfileMeansOnce(profile, count, t);
    forall r | r in profile ensures StrictlyAscending(r.completed) {
      assert Completed(r);
      SortedSetIffStrict(r.completed);
    }
    if t in profile[0].inventory {
      var k :| 0 <= k < |profile| && OnlyAt(profile, k, t);
      assert profile[k] in profile;
    }
  }

  // ---------------------------------------------------------------- what every receipt must say

  /** The plain facts every accepted receipt states, told on its fields. */
  predicate Succeeded(r: Receipt) {
    && r.schema == 1 && r.success && r.exitstatus == 0
    && 1 <= r.count <= 128 && 0 <= r.index < r.count
    && r.selected != [] && r.completed == r.selected
  }

  /** Its lists are sorted without repetition and name no empty id. */
  predicate WellListed(r: Receipt) {
    && StrictlyAscending(r.inventory) && StrictlyAscending(r.selected) && StrictlyAscending(r.completed)
    && "" !in r.inventory && "" !in r.selected && "" !in r.completed
  }

  /** It ran the share its own scheduling input gives it: every count-th test, or its scheduled modules. */
  predicate RanItsShare(r: Receipt)
    requires 1 <= r.count && 0 <= r.index < r.count
  {
    match r.schedule
    case None => r.selected == Strided(r.inventory, r.index, r.count)
    case Some(weights) =>
      Partitionable(r.inventory, r.count, weights) && r.selected == Scheduled(r.inventory, r.count, weights, r.index)
  }

  predicate Genuine(r: Receipt) {
    Succeeded(r) && WellListed(r) && RanItsShare(r)
  }

  lemma CompletedMeans(r: Receipt)
    ensures Completed(r) <==> Genuine(r)
    ensures Completed(r) ==> Coordinates(r) && Ids(r.inventory) && Ids(r.selected)
  {
    hide Strided, Scheduled, Sorted, StrictlyAscending, Dedup, Partitionable;
    SortedSetIffStrict(r.inventory);
    SortedSetIffStrict(r.selected);
    SortedSetIffStrict(r.completed);
    if StrictlyAscending(r.inventory) {
      StrictIsAscending(r.inventory);
      SortedIs(r.inventory, r.inventory);
    }
  }

  /**
    * The gate accepts exactly a full matrix: for every interpreter, distinct and no other,
    * one receipt per index over one inventory that the selections make up, and every
    * receipt reporting success, exit status zero and its exact, completed, non-empty share.
    */
  lemma AcceptsMeans(records: seq<Receipt>, pythons: seq<string>, count: nat)
    ensures Accepts(records, pythons, count) <==>
            && |records| == |pythons| * count
            && (forall i, j :: 0 <= i < j < |pythons| ==> pythons[i] != pythons[j])
            && (forall r :: r in records ==> r.python in pythons && Genuine(r))
            && (forall p :: p in pythons ==> ProfileHolds(OfPython(records, p), count))
  {
    hide ProfileHolds, OfPython, Genuine, Completed, Coordinates, Ids;
    forall r | r in records
      ensures Completed(r) <==> Genuine(r)
      ensures Completed(r) ==> Coordinates(r) && Ids(r.inventory) && Ids(r.selected)
    {
      CompletedMeans(r);
    }
  }

  /** A matrix with any receipt that failed, exited otherwise, has another schema or an empty share is refused. */
  lemma OneBadReceiptRefuses(records: seq<Receipt>, pythons: seq<string>, count: nat, i: nat, bad: Receipt)
    requires i < |records| && (!bad.success || bad.exitstatus != 0 || bad.schema != 1 || bad.selected == [] || bad.completed != bad.selected)
    ensures !Accepts(records[i := bad], pythons, count)
  {
    hide ProfileHolds, OfPython, WellListed, RanItsShare, Accepts;
    assert records[i := bad][i] in records[i := bad];
    AcceptsMeans(records[i := bad], pythons, count);
  }

  // ---------------------------------------------------------------- honest shards

  /** Strictly ascending shares, each test in exactly one. */
  ghost predicate Partitions(shares: seq<seq<string>>, inventory: seq<string>) {
    && (forall w :: 0 <= w < |shares| ==> StrictlyAscending(shares[w]))
    && (forall w, t :: 0 <= w < |shares| && t in shares[w] ==> t in inventory)
    && (forall t :: t in inventory ==> exists w :: 0 <= w < |shares| && t in shares[w])
    && (forall v, w, t :: 0 <= v < |shares| && 0 <= w < |shares| && t in shares[v] && t in shares[w] ==> v == w)
  }

  /** Shares that follow an owner per test partition the inventory. */
  lemma OwnedSharesPartition(shares: seq<seq<string>>, inventory: seq<string>, owner: map<string, nat>)
    requires forall t :: t in inventory ==> t in owner && owner[t] < |shares|
    requires forall w, t :: 0 <= w < |shares| ==> (t in shares[w] <==> t in inventory && owner[t] == w)
    requires forall w :: 0 <= w < |shares| ==> StrictlyAscending(shares[w])
    ensures Partitions(shares, inventory)
  {
    hide StrictlyAscending;
    forall t | t in inventory ensures exists w :: 0 <= w < |shares| && t in shares[w] {
      assert t in shares[owner[t]];
    }
    forall v, w, t | 0 <= v < |shares| && 0 <= w < |shares| && t in shares[v] && t in shares[w] ensures v == w {
      assert owner[t] == v && owner[t] == w;
    }
  }

  function StridedShares(inventory: seq<string>, count: nat): (r: seq<seq<string>>)
    requires count >= 1
    ensures |r| == count && forall w :: 0 <= w < count ==> r[w] == Strided(inventory, w, count)
  {
    seq(count, w requires 0 <= w < count => Strided(inventory, w, count))
  }

  function ScheduledShares(inventory: seq<string>, count: nat, weights: map<string, real>): (r: seq<seq<string>>)
    requires count >= 1
    ensures |r| == count && forall w :: 0 <= w < count ==> r[w] == Scheduled(inventory, count, weights, w)
  {
    seq(count, w requires 0 <= w < count => Scheduled(inventory, count, weights, w))
  }

  lemma StridedPartitions(inventory: seq<string>, count: nat)
    requires StrictlyAscending(inventory) && count >= 1
    ensures Partitions(StridedShares(inventory, count), inventory)
  {
    hide Strided, Residue, InShare, StrictlyAscending, Partitions, StridedShares;
    var shares := StridedShares(inventory, count);
    var owner := map t | t in inventory :: InShare(inventory, count, t);
    forall w | 0 <= w < count ensures StrictlyAscending(shares[w]) {
      StridedAscends(inventory, w, count);
    }
    forall w, t | 0 <= w < count ensures t in shares[w] <==> t in inventory && owner[t] == w {
      ShareOf(inventory, count, w, t);
    }
    OwnedSharesPartition(shares, inventory, owner);
  }

  /** The worker whose stride holds the test. */
  function InShare(inventory: seq<string>, count: nat, t: string): (w: nat)
    requires count >= 1
    ensures w < count
  {
    if t in inventory then Residue(PositionOf(inventory, t), count) else 0
  }

  lemma ShareOf(inventory: seq<string>, count: nat, w: nat, t: string)
    requires StrictlyAscending(inventory) && w < count
    ensures t in Strided(inventory, w, count) <==> t in inventory && InShare(inventory, count, t) == w
  {
    StrictIsAscending(inventory);
    hide Strided, Residue, StrictlyAscending;
    StridedHas(inventory, w, count, t);
    if t in inventory {
      var k := PositionOf(inventory, t);
      ResidueFrom(k, w, count);
      assert OnStride(inventory, w, count, k, t) <==> Residue(k, count) == w;
    }
  }

  lemma {:induction false} NodesAreDistinct(inventory: seq<string>, name: string)
    requires forall i, j :: 0 <= i < j < |inventory| ==> inventory[i] != inventory[j]
    ensures forall t :: multiset(Nodes(inventory, name))[t] <= 1
  {
    if inventory != [] {
      NodesAreDistinct(inventory[1..], name);
      assert inventory[0] !in Nodes(inventory[1..], name) by {
        if inventory[0] in inventory[1..] {
        }
      }
    }
  }

  lemma {:induction false} NodesForAreDistinct(inventory: seq<string>, order: seq<string>, given: seq<nat>, w: nat)
    requires |given| == |order| && (forall i, j :: 0 <= i < j < |order| ==> order[i] != order[j])
    requires forall i, j :: 0 <= i < j < |inventory| ==> inventory[i] != inventory[j]
    ensures forall t :: multiset(NodesFor(inventory, order, given, w))[t] <= 1
    decreases order
  {
    hide Nodes, ModuleOf;
    if order != [] {
      NodesForAreDistinct(inventory, order[1..], given[1..], w);
      NodesAreDistinct(inventory, order[0]);
      forall t ensures multiset(NodesFor(inventory, order, given, w))[t] <= 1 {
        NodesForHas(inventory, order[1..], given[1..], w, t);
        NodesHave(inventory, order[0], t);
        if given[0] == w {
          assert NodesFor(inventory, order, given, w) == Nodes(inventory, order[0]) + NodesFor(inventory, order[1..], given[1..], w);
          assert t in Nodes(inventory, order[0]) ==> t !in NodesFor(inventory, order[1..], given[1..], w);
        } else {
          assert NodesFor(inventory, order, given, w) == [] + NodesFor(inventory, order[1..], given[1..], w);
        }
      }
    }
  }

  lemma NodesHave(inventory: seq<string>, name: string, t: string)
    ensures t in Nodes(inventory, name) <==> t in inventory && ModuleOf(t) == name
  {
  }

  lemma ScheduledPartitions(inventory: seq<string>, count: nat, weights: map<string, real>)
    requires StrictlyAscending(inventory) && count >= 1
    ensures Partitions(ScheduledShares(inventory, count, weights), inventory)
  {
    hide Scheduled, WorkerOf, StrictlyAscending, Partitions, ScheduledShares;
    var shares := ScheduledShares(inventory, count, weights);
    var owner := map t | t in inventory :: WorkerOf(inventory, count, weights, t);
    forall w | 0 <= w < count ensures StrictlyAscending(shares[w]) {
      ScheduledAscends(inventory, count, weights, w);
    }
    forall w, t | 0 <= w < count ensures t in shares[w] <==> t in inventory && owner[t] == w {
      OneWorkerEach(inventory, count, weights, w, t);
    }
    OwnedSharesPartition(shares, inventory, owner);
  }

  lemma ScheduledAscends(inventory: seq<string>, count: nat, weights: map<string, real>, w: nat)
    requires StrictlyAscending(inventory) && count >= 1
    ensures StrictlyAscending(Scheduled(inventory, count, weights, w))
  {
    StrictIsAscending(inventory);
    hide Sorted, NodesFor, OrderOf, Assignment;
    var nodes := NodesFor(inventory, OrderOf(inventory, weights), Assignment(inventory, count, weights), w);
    OrderIsDistinct(inventory, weights);
    NodesForAreDistinct(inventory, OrderOf(inventory, weights), Assignment(inventory, count, weights), w);
    SortedAscends(nodes);
    OnceEach(Sorted(nodes));
    DistinctAscendingIsStrict(Sorted(nodes));
  }

  // ---------------------------------------------------------------- honest shards are accepted

  /** A worker's receipt for running its share to the end. */
  function Honest(python: string, inventory: seq<string>, count: nat, w: nat, schedule: Option<map<string, real>>): Receipt
    requires 1 <= count && w < count
  {
    var share := if schedule.None? then Strided(inventory, w, count) else Scheduled(inventory, count, schedule.value, w);
    Receipt(1, true, 0, python, w, count, inventory, share, share, schedule)
  }

  function Shares(inventory: seq<string>, count: nat, schedule: Option<map<string, real>>): (r: seq<seq<string>>)
    requires count >= 1
    ensures |r| == count
  {
    if schedule.None? then StridedShares(inventory, count) else ScheduledShares(inventory, count, schedule.value)
  }

  /** One honest receipt per worker, in any order. */
  ghost predicate AllHonest(records: seq<Receipt>, python: string, inventory: seq<string>, count: nat,
          schedule: Option<map<string, real>>) {
    && count >= 1 && |records| == count && Indices(records) == Range(count)
    && forall r :: r in records ==> 0 <= r.index < count && r == Honest(python, inventory, count, r.index, schedule)
  }

  lemma {:induction false} IndicesDistinct(records: seq<Receipt>)
    ensures |Indices(records)| <= |records|
    ensures |Indices(records)| == |records| ==>
              forall i, j :: 0 <= i < j < |records| ==> records[i].index != records[j].index
  {
    if records != [] {
      var rest := records[1..];
      IndicesDistinct(rest);
      assert records == [records[0]] + rest;
      assert Indices(records) == Indices(rest) + {records[0].index};
      if |Indices(records)| == |records| {
        assert records[0].index !in Indices(rest);
        forall i, j | 0 <= i < j < |records| ensures records[i].index != records[j].index {
          if i > 0 {
            assert rest[i - 1].index != rest[j - 1].index;
          } else {
            assert rest[j - 1] in rest;
          }
        }
      }
    }
  }

  /** Lists without repetition or overlap count each element once. */
  lemma {:induction false} DisjointCountOnce(lists: seq<seq<string>>, t: string)
    requires forall k :: 0 <= k < |lists| ==> multiset(lists[k])[t] <= 1
    requires forall i, j :: 0 <= i < j < |lists| ==> !(t in lists[i] && t in lists[j])
    ensures multiset(Concat(lists))[t] <= 1
  {
    if lists != [] {
      var rest := lists[1..];
      DisjointCountOnce(rest, t);
      assert multiset(Concat(lists)) == multiset(lists[0]) + multiset(Concat(rest));
      if t in lists[0] {
        ConcatHas(rest, t);
        assert forall k :: 0 <= k < |rest| ==> rest[k] == lists[k + 1];
        assert t !in Concat(rest);
      }
    }
  }

  lemma ShareCountsOnce(share: seq<string>, t: string)
    requires StrictlyAscending(share)
    ensures multiset(share)[t] <= 1
  {
    StrictIsAscending(share);
    MultisetOfDistinct(share);
  }

  /** The union of one profile's honest selections is the inventory, each test counted once. */
  lemma HonestUnion(records: seq<Receipt>, python: string, inventory: seq<string>, count: nat,
          schedule: Option<map<string, real>>, t: string)
    requires AllHonest(records, python, inventory, count, schedule) && Partitions(Shares(inventory, count, schedule), inventory)
    ensures multiset(Concat(Selections(records)))[t] == if t in inventory then 1 else 0
  {
    hide Concat, Strided, Scheduled, StrictlyAscending, Indices, Range;
    var lists, shares := Selections(records), Shares(inventory, count, schedule);
    IndicesDistinct(records);
    forall k | 0 <= k < |records| ensures 0 <= records[k].index < count && lists[k] == shares[records[k].index] {
      assert records[k] in records;
    }
    forall k | 0 <= k < |records| ensures multiset(lists[k])[t] <= 1 {
      ShareCountsOnce(lists[k], t);
    }
    DisjointCountOnce(lists, t);
    ConcatHas(lists, t);
    if t in inventory {
      var w :| 0 <= w < |shares| && t in shares[w];
      var k := HolderOf(records, count, w);
      assert t in lists[k];
    }
  }

  lemma HolderOf(records: seq<Receipt>, count: nat, w: nat) returns (k: nat)
    requires Indices(records) == Range(count) && w < count
    ensures k < |records| && records[k].index == w
  {
    assert w in Indices(records);
    k :| 0 <= k < |records| && records[k].index == w;
  }

  /** Honest receipts always pass the union check, however many workers there are. */
  lemma HonestProfileHolds(records: seq<Receipt>, python: string, inventory: seq<string>, count: nat,
          schedule: Option<map<string, real>>)
    requires AllHonest(records, python, inventory, count, schedule) && StrictlyAscending(inventory)
    ensures ProfileHolds(records, count)
  {
    hide Concat, Strided, Scheduled, Indices, Range, Partitions, Sorted;
    if schedule.None? {
      StridedPartitions(inventory, count);
    } else {
      ScheduledPartitions(inventory, count, schedule.value);
    }
    StrictIsAscending(inventory);
    MultisetOfDistinct(inventory);
    var union := Concat(Selections(records));
    forall t ensures multiset(union)[t] == multiset(inventory)[t] {
      HonestUnion(records, python, inventory, count, schedule, t);
    }
    SortedIs(union, inventory);
  }

  /** Weights, where there are any, from which the gate can recompute the partition. */
  predicate Schedulable(inventory: seq<string>, count: nat, schedule: Option<map<string, real>>) {
    schedule.Some? ==> Partitionable(inventory, count, schedule.value)
  }

  lemma HonestCompletedIff(r: Receipt, python: string, inventory: seq<string>, count: nat,
          schedule: Option<map<string, real>>)
    requires 1 <= count <= MAX_SHARDS && 0 <= r.index < count && r == Honest(python, inventory, count, r.index, schedule)
    requires StrictlyAscending(inventory) && "" !in inventory
    ensures Completed(r) <==> r.selected != [] && Schedulable(inventory, count, schedule)
  {
    hide Strided, Scheduled, Sorted, StrictlyAscending, Dedup, Partitionable;
    SortedSetIffStrict(inventory);
    SortedIs(inventory, inventory) by { StrictIsAscending(inventory); }
    if schedule.None? {
      StridedPartitions(inventory, count);
    } else {
      ScheduledPartitions(inventory, count, schedule.value);
    }
    assert Shares(inventory, count, schedule)[r.index] == r.selected;
    SortedSetIffStrict(r.selected);
  }

  /** Every worker has something to run exactly when there are enough tests, or modules, to go round. */
  lemma NoShareEmptyIff(inventory: seq<string>, count: nat, schedule: Option<map<string, real>>)
    requires count >= 1
    ensures (forall w :: 0 <= w < count ==> Shares(inventory, count, schedule)[w] != []) <==>
            (if schedule.None? then |inventory| else |Names(inventory)|) >= count
  {
    hide Scheduled, Names;
    var shares := Shares(inventory, count, schedule);
    if schedule.Some? {
      AllBusyIff(inventory, count, schedule.value);
      forall w: nat | w < count ensures shares[w] == Scheduled(inventory, count, schedule.value, w) {
      }
    } else if forall w :: 0 <= w < count ==> shares[w] != [] {
      assert shares[count - 1] != [];
    }
  }

  /**
    * Exactly when a complete set of honest shards is accepted: untimed ones when there
    * are at least as many tests as workers, timed ones when their weights are well formed
    * and there are at least as many modules. Otherwise the gate cannot recompute a share,
    * or some worker has an honest empty one, which it refuses.
    */
  lemma HonestAcceptedIff(records: seq<Receipt>, python: string, inventory: seq<string>, count: nat,
          schedule: Option<map<string, real>>)
    requires AllHonest(records, python, inventory, count, schedule) && count <= MAX_SHARDS
    requires StrictlyAscending(inventory) && "" !in inventory
    ensures ProfileHolds(records, count)
    ensures (forall r :: r in records ==> Completed(r)) <==>
            && Schedulable(inventory, count, schedule)
            && (if schedule.None? then |inventory| else |Names(inventory)|) >= count
  {
    hide Scheduled, Strided, Indices, Range, ProfileHolds, Completed, Names, StrictlyAscending, Schedulable;
    var first := HolderOf(records, count, 0);
    assert records[first] in records;
    HonestProfileHolds(records, python, inventory, count, schedule);
    NoShareEmptyIff(inventory, count, schedule);
    var shares := Shares(inventory, count, schedule);
    forall r | r in records ensures Completed(r) <==> shares[r.index] != [] && Schedulable(inventory, count, schedule) {
      HonestCompletedIff(r, python, inventory, count, schedule);
    }
    if forall r :: r in records ==> Completed(r) {
      forall w | 0 <= w < count ensures shares[w] != [] {
        var k := HolderOf(records, count, w);
        assert records[k] in records;
      }
    }
  }
}
