/**
  * The two ways a test inventory is split over workers: every count-th test, and
  * longest-module-first scheduling. Both are partitions of the inventory; what differs
  * is when every worker gets something.
  */
module ShardSchedule {
  import opened Wrappers
  import opened Strings
  import opened Scoping
  import opened SortedIds

  // ---------------------------------------------------------------- every count-th test

  /** Python's `inventory[index::count]`. */
  function Strided(inventory: seq<string>, index: nat, count: nat): seq<string>
    requires count >= 1
    decreases |inventory| - index
  {
    if index >= |inventory| then [] else [inventory[index]] + Strided(inventory, index + count, count)
  }

  /** The remainder of `k` by `count`, by repeated subtraction. */
  function Residue(k: nat, count: nat): (r: nat)
    requires count >= 1
    ensures r < count && r <= k
  {
    if k < count then k else Residue(k - count, count)
  }

  lemma {:induction false} ResidueFrom(k: nat, index: nat, count: nat)
    requires index < count
    ensures Residue(k, count) == index <==> k >= index && Residue(k - index, count) == 0
  {
    if k >= count {
      ResidueFrom(k - count, index, count);
      if k - count < index {
        assert Residue(k - index, count) == k - index;
      }
    }
  }

  /** Position `k` holds `t` and lies on the stride from `index`. */
  predicate OnStride(inventory: seq<string>, index: nat, count: nat, k: nat, t: string)
    requires count >= 1
  {
    index <= k < |inventory| && Residue(k - index, count) == 0 && inventory[k] == t
  }

  lemma OnStrideStep(inventory: seq<string>, index: nat, count: nat, k: nat, t: string)
    requires count >= 1 && index < |inventory|
    ensures OnStride(inventory, index, count, k, t) <==>
            (k == index && inventory[index] == t) || OnStride(inventory, index + count, count, k, t)
  {
  }

  lemma StridedStep(inventory: seq<string>, index: nat, count: nat, t: string)
    requires count >= 1
    ensures t in Strided(inventory, index, count) <==>
            index < |inventory| && (inventory[index] == t || t in Strided(inventory, index + count, count))
  {
  }

  /** Worker `index` gets exactly the tests at positions with its residue. */
  lemma {:induction false} StridedHas(inventory: seq<string>, index: nat, count: nat, t: string)
    requires count >= 1
    ensures t in Strided(inventory, index, count) <==> exists k: nat :: OnStride(inventory, index, count, k, t)
    decreases |inventory| - index
  {
    hide Strided, Residue;
    StridedStep(inventory, index, count, t);
    if index >= |inventory| {
      assert forall k: nat :: !OnStride(inventory, index, count, k, t);
    } else {
      hide OnStride;
      var next := index + count;
      StridedHas(inventory, next, count, t);
      OnStrideStep(inventory, index, count, index, t);
      if k: nat :| OnStride(inventory, index, count, k, t) {
        OnStrideStep(inventory, index, count, k, t);
      }
      if k: nat :| OnStride(inventory, next, count, k, t) {
        OnStrideStep(inventory, index, count, k, t);
      }
    }
  }

  lemma ConsAscends(x: string, rest: seq<string>)
    requires StrictlyAscending(rest) && forall y :: y in rest ==> Less(x, y)
    ensures StrictlyAscending([x] + rest)
  {
    hide Less;
  }

  lemma {:induction false} StridedAscends(inventory: seq<string>, index: nat, count: nat)
    requires count >= 1 && StrictlyAscending(inventory)
    ensures StrictlyAscending(Strided(inventory, index, count))
    decreases |inventory| - index
  {
    hide Less, Residue;
    if index < |inventory| {
      var next := index + count;
      StridedAscends(inventory, next, count);
      forall x | x in Strided(inventory, next, count) ensures Less(inventory[index], x) {
        StridedHas(inventory, next, count, x);
        var k: nat :| OnStride(inventory, next, count, k, x);
      }
      ConsAscends(inventory[index], Strided(inventory, next, count));
    }
  }

  // ---------------------------------------------------------------- longest module first

  /** The part of a node id before its first "::". */
  function ModuleOf(node: string): string {
    if |node| < 2 then node
    else if node[..2] == "::" then ""
    else [node[0]] + ModuleOf(node[1..])
  }

  function Nodes(inventory: seq<string>, name: string): (r: seq<string>)
    ensures forall t :: t in r <==> t in inventory && ModuleOf(t) == name
  {
    if inventory == [] then []
    else (if ModuleOf(inventory[0]) == name then [inventory[0]] else []) + Nodes(inventory[1..], name)
  }

  function Names(inventory: seq<string>): (r: seq<string>)
    ensures forall i, j :: 0 <= i < j < |r| ==> r[i] != r[j]
  {
    if inventory == [] then []
    else
      var rest := Names(inventory[1..]);
      if ModuleOf(inventory[0]) in rest then rest else [ModuleOf(inventory[0])] + rest
  }

  lemma {:induction false} NamesHas(inventory: seq<string>, name: string)
    ensures name in Names(inventory) <==> exists t :: t in inventory && ModuleOf(t) == name
  {
    hide ModuleOf;
    if inventory != [] {
      NamesHas(inventory[1..], name);
      assert inventory == [inventory[0]] + inventory[1..];
      if ModuleOf(inventory[0]) == name {
        assert inventory[0] in inventory;
      }
      if t :| t in inventory && ModuleOf(t) == name && t != inventory[0] {
        assert t in inventory[1..];
      }
    }
  }

  /** A module's weight: its recorded duration, else its test count, and never zero. */
  function Cost(weights: map<string, real>, inventory: seq<string>, name: string): (r: real)
    ensures r > 0.0
  {
    var c := if name in weights then weights[name] else |Nodes(inventory, name)| as real;
    if c > 0.000000001 then c else 0.000000001
  }

  type Weighing = string -> real

  /** Longest first, then by name. */
  predicate Before(cost: Weighing, a: string, b: string) {
    cost(a) > cost(b) || (cost(a) == cost(b) && Less(a, b))
  }

  function Place(cost: Weighing, x: string, s: seq<string>): (r: seq<string>)
    ensures multiset(r) == multiset(s) + multiset{x}
  {
    if s == [] then [x]
    else if Before(cost, s[0], x) then
      assert s == [s[0]] + s[1..];
      [s[0]] + Place(cost, x, s[1..])
    else [x] + s
  }

  function Ranked(cost: Weighing, s: seq<string>): (r: seq<string>)
    ensures multiset(r) == multiset(s)
  {
    if s == [] then []
    else
      assert s == [s[0]] + s[1..];
      Place(cost, s[0], Ranked(cost, s[1..]))
  }

  /** The worker the heap pops: the least loaded, the lowest index among equals. */
  function Least(loads: seq<real>): (w: nat)
    requires loads != []
    ensures w < |loads| && forall i :: 0 <= i < |loads| ==> loads[w] <= loads[i]
    ensures forall i :: 0 <= i < w ==> loads[w] < loads[i]
  {
    if |loads| == 1 then 0
    else
      var init := loads[..|loads| - 1];
      var w := Least(init);
      assert forall i :: 0 <= i < |init| ==> init[i] == loads[i];
      if loads[|loads| - 1] < loads[w] then |loads| - 1 else w
  }

  /** The worker of each module, in scheduling order. */
  function Assign(cost: Weighing, order: seq<string>, loads: seq<real>): (r: seq<nat>)
    requires loads != []
    ensures |r| == |order| && forall i :: 0 <= i < |r| ==> r[i] < |loads|
    decreases order
  {
    if order == [] then []
    else
      var w := Least(loads);
      [w] + Assign(cost, order[1..], loads[w := loads[w] + cost(order[0])])
  }

  predicate GivenTo(order: seq<string>, given: seq<nat>, name: string, w: nat)
    requires |given| == |order|
  {
    exists i :: 0 <= i < |order| && order[i] == name && given[i] == w
  }

  /** The tests of the modules assigned to a worker. */
  function NodesFor(inventory: seq<string>, order: seq<string>, given: seq<nat>, w: nat): (r: seq<string>)
    requires |given| == |order|
    decreases order
  {
    if order == [] then []
    else
      (if given[0] == w then Nodes(inventory, order[0]) else []) +
      NodesFor(inventory, order[1..], given[1..], w)
  }

  lemma {:induction false} NodesForHas(inventory: seq<string>, order: seq<string>, given: seq<nat>, w: nat, t: string)
    requires |given| == |order|
    ensures t in NodesFor(inventory, order, given, w) <==> t in inventory && GivenTo(order, given, ModuleOf(t), w)
    decreases order
  {
    hide ModuleOf;
    if order != [] {
      NodesForHas(inventory, order[1..], given[1..], w, t);
      GivenToStep(order, given, ModuleOf(t), w);
    }
  }

  lemma GivenToStep(order: seq<string>, given: seq<nat>, name: string, w: nat)
    requires |given| == |order| && order != []
    ensures GivenTo(order, given, name, w) <==>
            (order[0] == name && given[0] == w) || GivenTo(order[1..], given[1..], name, w)
  {
    if i :| 0 <= i < |order| - 1 && order[1..][i] == name && given[1..][i] == w {
      assert order[i + 1] == name && given[i + 1] == w;
    }
    if i :| 1 <= i < |order| && order[i] == name && given[i] == w {
      assert order[1..][i - 1] == name && given[1..][i - 1] == w;
    }
  }

  function Zeros(count: nat): (r: seq<real>)
    ensures |r| == count && forall i :: 0 <= i < count ==> r[i] == 0.0
  {
    seq(count, _ => 0.0)
  }

  function OrderOf(inventory: seq<string>, weights: map<string, real>): (r: seq<string>)
    ensures multiset(r) == multiset(Names(inventory))
  {
    Ranked(name => Cost(weights, inventory, name), Names(inventory))
  }

  function Assignment(inventory: seq<string>, count: nat, weights: map<string, real>): (r: seq<nat>)
    requires count >= 1
    ensures |r| == |OrderOf(inventory, weights)| && forall i :: 0 <= i < |r| ==> r[i] < count
  {
    Assign(name => Cost(weights, inventory, name), OrderOf(inventory, weights), Zeros(count))
  }

  /** What worker `w` is given of a sorted inventory. */
  function Scheduled(inventory: seq<string>, count: nat, weights: map<string, real>, w: nat): seq<string>
    requires count >= 1
  {
    Sorted(NodesFor(inventory, OrderOf(inventory, weights), Assignment(inventory, count, weights), w))
  }

  predicate RunsModule(inventory: seq<string>, count: nat, weights: map<string, real>, name: string, w: nat)
    requires count >= 1
  {
    GivenTo(OrderOf(inventory, weights), Assignment(inventory, count, weights), name, w)
  }

  lemma ScheduledHas(inventory: seq<string>, count: nat, weights: map<string, real>, w: nat, t: string)
    requires count >= 1
    ensures t in Scheduled(inventory, count, weights, w) <==>
            t in inventory && RunsModule(inventory, count, weights, ModuleOf(t), w)
  {
    hide Sorted, NodesFor, GivenTo, OrderOf, Assignment, ModuleOf;
    var nodes := NodesFor(inventory, OrderOf(inventory, weights), Assignment(inventory, count, weights), w);
    NodesForHas(inventory, OrderOf(inventory, weights), Assignment(inventory, count, weights), w, t);
    assert t in Sorted(nodes) <==> t in multiset(Sorted(nodes));
  }

  lemma OrderIsDistinct(inventory: seq<string>, weights: map<string, real>)
    ensures var order := OrderOf(inventory, weights);
            && (forall i, j :: 0 <= i < j < |order| ==> order[i] != order[j])
            && (forall n :: n in order <==> n in Names(inventory)) && |order| == |Names(inventory)|
  {
    hide Ranked, Names;
    var order, names := OrderOf(inventory, weights), Names(inventory);
    MultisetOfDistinct(names);
    OnceEach(order);
    forall n ensures n in order <==> n in names {
      assert n in order <==> n in multiset(order);
    }
    assert |multiset(order)| == |multiset(names)|;
  }

  function PositionOf(list: seq<string>, x: string): (k: nat)
    requires x in list
    ensures k < |list| && list[k] == x
  {
    if list[0] == x then 0 else 1 + PositionOf(list[1..], x)
  }

  /** The worker a test's module is assigned to. */
  function WorkerOf(inventory: seq<string>, count: nat, weights: map<string, real>, t: string): (w: nat)
    requires count >= 1
    ensures w < count
  {
    var order := OrderOf(inventory, weights);
    if ModuleOf(t) in order then Assignment(inventory, count, weights)[PositionOf(order, ModuleOf(t))] else 0
  }

  /** Every module of the inventory runs on exactly one worker. */
  lemma OneWorkerEach(inventory: seq<string>, count: nat, weights: map<string, real>, v: nat, t: string)
    requires count >= 1
    ensures t in Scheduled(inventory, count, weights, v) <==> t in inventory && v == WorkerOf(inventory, count, weights, t)
  {
    hide OrderOf, Assignment, Scheduled, ModuleOf, Names;
    var order, given := OrderOf(inventory, weights), Assignment(inventory, count, weights);
    OrderIsDistinct(inventory, weights);
    NamesHas(inventory, ModuleOf(t));
    ScheduledHas(inventory, count, weights, v, t);
    if t in inventory {
      var i := PositionOf(order, ModuleOf(t));
      assert RunsModule(inventory, count, weights, ModuleOf(t), v) <==> v == given[i];
    }
  }

  /** Modules stay together. */
  lemma ModulesStayTogether(inventory: seq<string>, count: nat, weights: map<string, real>, w: nat, s: string,
          t: string)
    requires count >= 1 && s in inventory && t in inventory && ModuleOf(s) == ModuleOf(t)
    ensures s in Scheduled(inventory, count, weights, w) <==> t in Scheduled(inventory, count, weights, w)
  {
    hide Scheduled, RunsModule, ModuleOf;
    ScheduledHas(inventory, count, weights, w, s);
    ScheduledHas(inventory, count, weights, w, t);
  }

  // ---------------------------------------------------------------- when every worker gets something

  /** Idle workers. */
  function Idle(loads: seq<real>): set<nat> {
    set i: nat | i < |loads| && loads[i] == 0.0
  }

  predicate Loaded(loads: seq<real>) {
    forall i :: 0 <= i < |loads| ==> loads[i] >= 0.0
  }

  /** Work goes to an idle worker while there is one. */
  lemma {:induction false} IdleFirst(cost: Weighing, order: seq<string>, loads: seq<real>, w: nat)
    requires loads != [] && Loaded(loads) && (forall n :: cost(n) > 0.0)
    requires w in Idle(loads) && |order| >= |Idle(loads)|
    ensures w in Assign(cost, order, loads)
    decreases order
  {
    SmallerSet({w}, Idle(loads));
    var v := Least(loads);
    var loads' := loads[v := loads[v] + cost(order[0])];
    assert loads[v] == 0.0;
    assert Idle(loads') == Idle(loads) - {v};
    if v != w {
      IdleFirst(cost, order[1..], loads', w);
    }
  }

  function Range(count: nat): (r: set<nat>)
    ensures |r| == count && forall i :: i in r <==> 0 <= i < count
  {
    if count == 0 then {} else Range(count - 1) + {count - 1}
  }

  function Values(s: seq<nat>): (r: set<nat>)
    ensures |r| <= |s| && forall x :: x in r <==> x in s
  {
    if s == [] then {}
    else
      assert s == [s[0]] + s[1..];
      Values(s[1..]) + {s[0]}
  }

  /** A worker gets a test exactly when it is assigned a module. */
  lemma BusyIffAssigned(inventory: seq<string>, count: nat, weights: map<string, real>, w: nat)
    requires count >= 1
    ensures Scheduled(inventory, count, weights, w) != [] <==> w in Assignment(inventory, count, weights)
  {
    hide Scheduled, OrderOf, Assignment, ModuleOf, Names;
    var order, given := OrderOf(inventory, weights), Assignment(inventory, count, weights);
    OrderIsDistinct(inventory, weights);
    if Scheduled(inventory, count, weights, w) != [] {
      var t := Scheduled(inventory, count, weights, w)[0];
      ScheduledHas(inventory, count, weights, w, t);
    }
    if w in given {
      var i :| 0 <= i < |given| && given[i] == w;
      var t := SomeNode(inventory, order[i]);
      assert GivenTo(order, given, ModuleOf(t), w);
      ScheduledHas(inventory, count, weights, w, t);
    }
  }

  lemma SomeNode(inventory: seq<string>, name: string) returns (t: string)
    requires name in Names(inventory)
    ensures t in inventory && ModuleOf(t) == name
  {
    NamesHas(inventory, name);
    t :| t in inventory && ModuleOf(t) == name;
  }

  /** Longest-first scheduling leaves no worker empty exactly when there are modules for all. */
  lemma AllBusyIff(inventory: seq<string>, count: nat, weights: map<string, real>)
    requires count >= 1
    ensures (forall w: nat :: w < count ==> Scheduled(inventory, count, weights, w) != []) <==>
            |Names(inventory)| >= count
  {
    hide Scheduled, OrderOf, Names, Assign, Cost;
    var order, given := OrderOf(inventory, weights), Assignment(inventory, count, weights);
    var cost := name => Cost(weights, inventory, name);
    OrderIsDistinct(inventory, weights);
    forall w: nat | w < count
      ensures Scheduled(inventory, count, weights, w) != [] <==> w in given
    {
      BusyIffAssigned(inventory, count, weights, w);
    }
    if |order| >= count {
      assert Idle(Zeros(count)) == Range(count);
      forall w: nat | w < count ensures w in given {
        IdleFirst(cost, order, Zeros(count), w);
      }
    } else if forall w: nat :: w < count ==> w in given {
      SmallerSet(Range(count), Values(given));
    }
  }

  lemma {:induction false} SmallerSet(a: set<nat>, b: set<nat>)
    requires a <= b
    ensures |a| <= |b|
  {
    if a != {} {
      var x :| x in a;
      SmallerSet(a - {x}, b - {x});
    }
  }

  // ---------------------------------------------------------------- the scheduling loop

  lemma NodesForStep(inventory: seq<string>, order: seq<string>, given: seq<nat>, i: nat, w: nat)
    requires |given| == |order| && i < |order|
    ensures NodesFor(inventory, order[i..], given[i..], w) ==
            (if given[i] == w then Nodes(inventory, order[i]) else []) + NodesFor(inventory, order[i + 1..], given[i + 1..], w)
  {
    hide Nodes;
    assert order[i..][1..] == order[i + 1..] && given[i..][1..] == given[i + 1..];
  }

  lemma AssignUnfold(cost: Weighing, order: seq<string>, loads: seq<real>)
    requires loads != [] && order != []
    ensures Assign(cost, order, loads) ==
            [Least(loads)] + Assign(cost, order[1..], loads[Least(loads) := loads[Least(loads)] + cost(order[0])])
  {
  }

  lemma AssignStep(cost: Weighing, order: seq<string>, i: nat, loads: seq<real>)
    requires loads != [] && i < |order|
    ensures var w := Least(loads);
            Assign(cost, order[i..], loads) == [w] + Assign(cost, order[i + 1..], loads[w := loads[w] + cost(order[i])])
  {
    hide Assign, Least;
    assert order[i..][0] == order[i] && order[i..][1..] == order[i + 1..];
    AssignUnfold(cost, order[i..], loads);
  }

  /** Handing module `i` to the least loaded worker keeps every worker's share on course. */
  lemma HandOut(inventory: seq<string>, order: seq<string>, given: seq<nat>, i: nat, workers: seq<seq<string>>,
          whole: seq<seq<string>>)
    requires |given| == |order| && i < |order| && given[i] < |workers| == |whole|
    requires forall w :: 0 <= w < |workers| ==> workers[w] + NodesFor(inventory, order[i..], given[i..], w) == whole[w]
    ensures var handed := workers[given[i] := workers[given[i]] + Nodes(inventory, order[i])];
            forall w :: 0 <= w < |workers| ==> handed[w] + NodesFor(inventory, order[i + 1..], given[i + 1..], w) == whole[w]
  {
    hide Nodes, NodesFor;
    forall w | 0 <= w < |workers|
      ensures workers[given[i] := workers[given[i]] + Nodes(inventory, order[i])][w] +
              NodesFor(inventory, order[i + 1..], given[i + 1..], w) == whole[w]
    {
      NodesForStep(inventory, order, given, i, w);
    }
  }

  lemma NoMoreNodes(inventory: seq<string>, w: nat)
    ensures NodesFor(inventory, [], [], w) == []
  {
  }

  const MAXIMUM_WORKERS := 128
  const SECONDS_PER_DAY := 86400.0

  /** A relative module path below the root, with at most a day of observed duration. */
  predicate ValidDuration(name: string, weight: real) {
    && |name| >= 3 && name[|name| - 3..] == ".py"
    && '\\' !in name && '\0' !in name && !StartsWith(name, "/") && ".." !in Split(name, '/')
    && 0.0 <= weight <= SECONDS_PER_DAY
  }

  /** What the scheduler demands: a worker count in range, distinct non-empty ids and valid durations. */
  predicate Partitionable(inventory: seq<string>, count: int, weights: map<string, real>) {
    && 1 <= count <= MAXIMUM_WORKERS
    && "" !in inventory && |set t | t in inventory| == |inventory|
    && forall name :: name in weights ==> ValidDuration(name, weights[name])
  }

  /** The heap loop: each module goes to the least loaded worker; nothing where the source raises. */
  method PartitionTestModules(inventory: seq<string>, count: int, weights: map<string, real>)
    returns (schedule: Option<seq<seq<string>>>)
    ensures schedule.Some? <==> Partitionable(inventory, count, weights)
    ensures schedule.Some? ==>
              && |schedule.value| == count
              && forall w :: 0 <= w < count ==> schedule.value[w] == Scheduled(Sorted(inventory), count, weights, w)
  {
    if count < 1 || count > MAXIMUM_WORKERS {
      return None;
    }
    if "" in inventory || |set t | t in inventory| != |inventory| {
      return None;
    }
    if exists name :: name in weights && !ValidDuration(name, weights[name]) {
      return None;
    }
    var parts := LongestFirst(inventory, count, weights);
    return Some(parts);
  }

  method LongestFirst(inventory: seq<string>, count: nat, weights: map<string, real>) returns (parts: seq<seq<string>>)
    requires 1 <= count
    ensures |parts| == count && forall w :: 0 <= w < count ==> parts[w] == Scheduled(Sorted(inventory), count, weights, w)
  {
    hide Sorted, Ranked, Least, Nodes, Names, Cost, NodesFor, Assign, OrderOf;
    var tests := Sorted(inventory);
    var order := OrderOf(tests, weights);
    var cost := name => Cost(weights, tests, name);
    ghost var given := Assignment(tests, count, weights);
    ghost var whole := seq(count, w requires 0 <= w < count => NodesFor(tests, order, given, w));
    var workers: seq<seq<string>> := seq(count, _ => []);
    var loads := Zeros(count);
    assert order[0..] == order && given[0..] == given;
    for i := 0 to |order|
      invariant |workers| == count == |loads| && given[i..] == Assign(cost, order[i..], loads)
      invariant forall w :: 0 <= w < count ==> workers[w] + NodesFor(tests, order[i..], given[i..], w) == whole[w]
    {
      var w := Least(loads);
      AssignStep(cost, order, i, loads);
      assert given[i] == given[i..][0] && given[i..][1..] == given[i + 1..];
      HandOut(tests, order, given, i, workers, whole);
      workers := workers[w := workers[w] + Nodes(tests, order[i])];
      loads := loads[w := loads[w] + cost(order[i])];
    }
    assert order[|order|..] == [] && given[|order|..] == [];
    forall w | 0 <= w < count ensures workers[w] == whole[w] {
      NoMoreNodes(tests, w);
    }
    parts := seq(count, w requires 0 <= w < count => Sorted(workers[w]));
  }
}
