/**
  * The portable variant of the shard gate: always timed, bound to one platform, and
  * accounting for every selected test as called or skipped.
  */
module PortableGate {
  import opened Wrappers
  import opened Scoping
  import opened SortedIds
  import opened ShardSchedule
  import opened ShardGate

  datatype PortableReceipt = PortableReceipt(
    main: Receipt, platform: string, called: seq<string>, skipped: seq<string>, durations: map<string, real>)

  function ModulesOf(selected: seq<string>): set<string> {
    set t | t in selected :: ModuleOf(t)
  }

  predicate PortableCompleted(r: PortableReceipt, platform: string, weights: map<string, real>) {
    && Coordinates(r.main) && Ids(r.main.inventory) && Ids(r.main.selected)
    && r.main.schema == 1 && r.platform == platform && r.main.success && r.main.exitstatus == 0
    && r.main.selected != [] && Partitionable(r.main.inventory, r.main.count, weights)
    && r.main.selected == Scheduled(Sorted(r.main.inventory), r.main.count, weights, r.main.index)
    && Ids(r.main.completed) && r.main.completed == r.main.selected
    && Ids(r.called) && Ids(r.skipped)
    && (forall t :: t in r.called + r.skipped ==> t in r.main.selected)
    && (forall t :: t in r.main.selected ==> t in r.called || t in r.skipped)
    && r.main.schedule == Some(weights)
    && r.durations.Keys == ModulesOf(r.main.selected)
    && forall name :: name in r.durations ==> ValidDuration(name, r.durations[name])
  }

  function Mains(records: seq<PortableReceipt>): (r: seq<Receipt>)
    ensures |r| == |records| && forall i :: 0 <= i < |r| ==> r[i] == records[i].main
  {
    seq(|records|, i requires 0 <= i < |records| => records[i].main)
  }

  predicate UnionHolds(mains: seq<Receipt>, count: nat) {
    && mains != [] && |mains| == count && Indices(mains) == Range(count)
    && (forall r :: r in mains ==> Ids(r.inventory) && Ids(r.selected) && r.inventory == mains[0].inventory)
    && Sorted(Concat(Selections(mains))) == mains[0].inventory
  }

  method Union(mains: seq<Receipt>, count: nat) returns (ok: bool)
    requires count >= 1
    ensures ok == UnionHolds(mains, count)
  {
    hide Concat, Sorted, Indices, Range, Ids;
    if |mains| != count || Indices(mains) != Range(count) {
      return false;
    }
    var reference := mains[0].inventory;
    var selected: seq<string> := [];
    ghost var lists := Selections(mains);
    assert lists[..0] == [] && Concat([]) == [] by { EmptyConcat(); }
    for i := 0 to |mains|
      invariant selected == Concat(lists[..i])
      invariant forall k :: 0 <= k < i ==> Ids(mains[k].inventory) && Ids(mains[k].selected) && mains[k].inventory == reference
    {
      if !Ids(mains[i].inventory) || mains[i].inventory != reference || !Ids(mains[i].selected) {
        assert mains[i] in mains;
        return false;
      }
      ConcatNext(lists, i);
      selected := selected + mains[i].selected;
    }
    assert lists[..|mains|] == lists;
    ok := Sorted(selected) == reference;
  }

  predicate PortableAccepts(records: seq<PortableReceipt>, platform: string, count: nat, weights: map<string, real>) {
    && 1 <= count <= MAX_SHARDS
    && (forall r :: r in records ==> Coordinates(r.main) && r.main.count == count)
    && UnionHolds(Mains(records), count)
    && (forall r :: r in records ==> PortableCompleted(r, platform, weights))
  }

  method VerifyPortable(records: seq<PortableReceipt>, platform: string, count: nat, weights: map<string, real>)
    returns (ok: bool)
    ensures ok == PortableAccepts(records, platform, count, weights)
  {
    hide UnionHolds, PortableCompleted, Coordinates;
    if count < 1 || count > MAX_SHARDS {
      return false;
    }
    for i := 0 to |records|
      invariant forall k :: 0 <= k < i ==> Coordinates(records[k].main) && records[k].main.count == count
    {
      if !Coordinates(records[i].main) || records[i].main.count != count {
        assert records[i] in records;
        return false;
      }
    }
    ok := Union(Mains(records), count);
    if !ok {
      return;
    }
    for i := 0 to |records|
      invariant forall k :: 0 <= k < i ==> PortableCompleted(records[k], platform, weights)
    {
      if !PortableCompleted(records[i], platform, weights) {
        assert records[i] in records;
        return false;
      }
    }
  }

  /**
    * Portable acceptance means the same: each test of the common inventory completed by
    * exactly one shard, accounted for there as called or skipped, and nothing else.
    */
  lemma PortableMeansEachTestOnce(records: seq<PortableReceipt>, platform: string, count: nat,
          weights: map<string, real>, t: string)
    requires PortableAccepts(records, platform, count, weights)
    ensures var mains := Mains(records);
            && mains != [] && |mains| == count
            && (t in mains[0].inventory <==> exists r :: r in mains && t in r.completed)
            && (t in mains[0].inventory ==> CompletedOnce(mains, t))
            && (t in mains[0].inventory <==> exists r :: r in records && (t in r.called || t in r.skipped))
  {
    hide Concat, Sorted, Range, Indices, Scheduled, Ids, ModulesOf, Coordinates, Selections, Dedup, Partitionable, ValidDuration;
    var mains := Mains(records);
    forall r | r in mains ensures Completed(r) && r.count == count {
      var k :| 0 <= k < |mains| && mains[k] == r;
      assert PortableCompleted(records[k], platform, weights);
    }
    assert ProfileHolds(mains, count);
    ProfileMeansOnce(mains, count, t);
    if t in mains[0].inventory {
      var k :| 0 <= k < |mains| && OnlyAt(mains, k, t);
      assert mains[k] in mains && records[k] in records && PortableCompleted(records[k], platform, weights);
    }
    if r :| r in records && (t in r.called || t in r.skipped) {
      var k :| 0 <= k < |records| && records[k] == r;
      assert PortableCompleted(r, platform, weights) && mains[k] in mains && t in r.called + r.skipped;
    }
  }

  /** What a portable receipt states besides its main part: the platform, every selected test accounted for, and valid durations. */
  ghost predicate Accounts(r: PortableReceipt, platform: string, weights: map<string, real>) {
    && r.platform == platform && r.main.schedule == Some(weights)
    && StrictlyAscending(r.called) && StrictlyAscending(r.skipped) && "" !in r.called && "" !in r.skipped
    && (forall t :: t in r.main.selected <==> t in r.called || t in r.skipped)
    && (forall m :: m in r.durations <==> exists t :: t in r.main.selected && ModuleOf(t) == m)
    && (forall m :: m in r.durations ==> ValidDuration(m, r.durations[m]))
  }

  lemma PortableCompletedMeans(r: PortableReceipt, platform: string, weights: map<string, real>)
    ensures PortableCompleted(r, platform, weights) <==>
            Genuine(r.main) && Accounts(r, platform, weights)
    ensures PortableCompleted(r, platform, weights) ==> Coordinates(r.main) && Ids(r.main.inventory) && Ids(r.main.selected)
  {
    hide Scheduled, Strided, Sorted, StrictlyAscending, Dedup, Partitionable, ValidDuration, ModuleOf;
    CompletedMeans(r.main);
    SortedSetIffStrict(r.called);
    SortedSetIffStrict(r.skipped);
    assert r.durations.Keys == ModulesOf(r.main.selected) <==>
           forall m :: m in r.durations <==> exists t :: t in r.main.selected && ModuleOf(t) == m;
    assert (forall t :: t in r.called + r.skipped ==> t in r.main.selected) <==>
           forall t :: t in r.called || t in r.skipped ==> t in r.main.selected;
  }

  /** The portable gate accepts exactly one such receipt per index, over one inventory that the selections make up. */
  lemma PortableAcceptsMeans(records: seq<PortableReceipt>, platform: string, count: nat, weights: map<string, real>)
    ensures PortableAccepts(records, platform, count, weights) <==>
            && 1 <= count <= 128 && ProfileHolds(Mains(records), count)
            && forall r :: r in records ==>
                 Genuine(r.main) && Accounts(r, platform, weights)
  {
    hide Concat, Sorted, Indices, Range, Genuine, Accounts, Selections, PortableCompleted, Coordinates, Ids;
    var mains := Mains(records);
    forall r | r in records
      ensures PortableCompleted(r, platform, weights) <==>
              Genuine(r.main) && Accounts(r, platform, weights)
      ensures PortableCompleted(r, platform, weights) ==> Coordinates(r.main) && Ids(r.main.inventory) && Ids(r.main.selected)
    {
      PortableCompletedMeans(r, platform, weights);
    }
    forall k | 0 <= k < |records| ensures mains[k] == records[k].main && records[k] in records && mains[k] in mains {
    }
  }
}
