/**
  * What longest-first scheduling does with the modules of an inventory: in which order it
  * takes them, which worker each goes to, and how even the loads come out.
  */
module ShardBalance {
  import opened Wrappers
  import opened Strings
  import opened Scoping
  import opened SortedIds
  import opened ShardSchedule

  // ---------------------------------------------------------------- modules and weights

  predicate DoubleColonAt(node: string, i: int) {
    0 <= i && i + 1 < |node| && node[i] == ':' && node[i + 1] == ':'
  }

  /** A test belongs to the part of its id before the first "::", or to its whole id without one. */
  lemma {:induction false} ModuleMeans(node: string)
    ensures var m := ModuleOf(node);
            && m <= node && (m == node || DoubleColonAt(node, |m|))
            && forall i :: 0 <= i < |m| ==> !DoubleColonAt(node, i)
  {
    hide ModuleOf;
    ModuleStep(node);
    if |node| >= 2 && !DoubleColonAt(node, 0) {
      var m, rest := ModuleOf(node), node[1..];
      ModuleMeans(rest);
      var tail := ModuleOf(rest);
      assert node == [node[0]] + rest && |m| == |tail| + 1;
      assert tail == rest[..|tail|] && m == node[..|m|];
      assert forall i :: 0 <= i ==> DoubleColonAt(rest, i) == DoubleColonAt(node, i + 1);
      forall i | 0 <= i < |m| ensures !DoubleColonAt(node, i) {
        if i > 0 {
          assert !DoubleColonAt(rest, i - 1);
        }
      }
    }
  }

  lemma ModuleStep(node: string)
    ensures ModuleOf(node) ==
            if |node| < 2 then node else if DoubleColonAt(node, 0) then "" else [node[0]] + ModuleOf(node[1..])
  {
    if |node| >= 2 {
      assert node[..2] == [node[0], node[1]];
    }
  }

  /** The tests of one module. */
  function TestsOf(inventory: seq<string>, name: string): set<string> {
    set t | t in inventory && ModuleOf(t) == name
  }

  lemma {:induction false} NodesAreCounted(inventory: seq<string>, name: string)
    requires forall i, j :: 0 <= i < j < |inventory| ==> inventory[i] != inventory[j]
    ensures |Nodes(inventory, name)| == |TestsOf(inventory, name)|
  {
    hide ModuleOf, Nodes;
    NodesStep(inventory, name);
    if inventory != [] {
      var first, rest := inventory[0], inventory[1..];
      NodesAreCounted(rest, name);
      assert first !in rest;
      assert forall t :: t in inventory <==> t == first || t in rest;
      assert TestsOf(inventory, name) == TestsOf(rest, name) + if ModuleOf(first) == name then {first} else {};
    }
  }

  lemma NodesStep(inventory: seq<string>, name: string)
    ensures inventory == [] ==> Nodes(inventory, name) == []
    ensures inventory != [] ==>
              |Nodes(inventory, name)| == |Nodes(inventory[1..], name)| + if ModuleOf(inventory[0]) == name then 1 else 0
  {
    hide ModuleOf;
  }

  /** A module weighs its recorded duration, or its number of tests when none is recorded, and never less than a nanosecond. */
  lemma CostMeans(weights: map<string, real>, inventory: seq<string>, name: string)
    requires forall i, j :: 0 <= i < j < |inventory| ==> inventory[i] != inventory[j]
    ensures var plain := if name in weights then weights[name] else |TestsOf(inventory, name)| as real;
            && (plain >= 0.000000001 ==> Cost(weights, inventory, name) == plain)
            && (plain < 0.000000001 ==> Cost(weights, inventory, name) == 0.000000001)
  {
    hide ModuleOf, Nodes, TestsOf;
    NodesAreCounted(inventory, name);
  }

  // ---------------------------------------------------------------- the order

  /** Heavier, or as heavy and smaller by name. */
  predicate Ahead(cost: Weighing, a: string, b: string) {
    cost(a) > cost(b) || (cost(a) == cost(b) && Less(a, b))
  }

  predicate Descending(cost: Weighing, s: seq<string>) {
    forall i, j :: 0 <= i < j < |s| ==> Ahead(cost, s[i], s[j])
  }

  lemma {:induction false} PlaceDescends(cost: Weighing, x: string, s: seq<string>)
    requires Descending(cost, s) && x !in s
    ensures Descending(cost, Place(cost, x, s))
  {
    hide Less, Ahead;
    if s != [] {
      assert s == [s[0]] + s[1..] && s[0] in s;
      AheadOrBehind(cost, s[0], x);
      if Before(cost, s[0], x) {
        PlaceDescends(cost, x, s[1..]);
        var rest := Place(cost, x, s[1..]);
        forall j | 0 <= j < |rest| ensures Ahead(cost, s[0], rest[j]) {
          assert rest[j] in multiset(rest);
          if rest[j] != x {
            var k :| 1 <= k < |s| && s[k] == rest[j];
          }
        }
      } else {
        forall j | 0 <= j < |s| ensures Ahead(cost, x, s[j]) {
          if j > 0 {
            AheadOn(cost, x, s[0], s[j]);
          }
        }
      }
    }
  }

  lemma AheadOrBehind(cost: Weighing, a: string, x: string)
    requires a != x
    ensures if Before(cost, a, x) then Ahead(cost, a, x) else Ahead(cost, x, a)
  {
    hide Less;
    LessTotal(a, x);
  }

  lemma AheadOn(cost: Weighing, a: string, b: string, c: string)
    requires Ahead(cost, a, b) && Ahead(cost, b, c)
    ensures Ahead(cost, a, c)
  {
    hide Less;
    if Less(a, b) && Less(b, c) {
      LessTransitive(a, b, c);
    }
  }

  lemma {:induction false} RankedDescends(cost: Weighing, s: seq<string>)
    requires forall i, j :: 0 <= i < j < |s| ==> s[i] != s[j]
    ensures Descending(cost, Ranked(cost, s))
  {
    if s != [] {
      RankedDescends(cost, s[1..]);
      assert s == [s[0]] + s[1..];
      assert s[0] in Ranked(cost, s[1..]) <==> s[0] in multiset(Ranked(cost, s[1..]));
      assert s[0] in multiset(s[1..]) <==> s[0] in s[1..];
      PlaceDescends(cost, s[0], Ranked(cost, s[1..]));
    }
  }

  /** The modules are taken longest first, by name among equals: each module of the inventory, and no other. */
  lemma OrderMeans(inventory: seq<string>, weights: map<string, real>)
    ensures var order := OrderOf(inventory, weights);
            && (forall i, j :: 0 <= i < j < |order| ==>
                  || Cost(weights, inventory, order[i]) > Cost(weights, inventory, order[j])
                  || (Cost(weights, inventory, order[i]) == Cost(weights, inventory, order[j]) && Less(order[i], order[j])))
            && (forall name :: name in order <==> exists t :: t in inventory && ModuleOf(t) == name)
  {
    hide Cost, Less, ModuleOf, Ranked, Names;
    var order, cost := OrderOf(inventory, weights), (name => Cost(weights, inventory, name));
    RankedDescends(cost, Names(inventory));
    forall i, j | 0 <= i < j < |order| ensures Ahead(cost, order[i], order[j]) {
    }
    forall name ensures name in order <==> exists t :: t in inventory && ModuleOf(t) == name {
      NamesHas(inventory, name);
      assert name in order <==> name in multiset(order);
    }
  }

  // ---------------------------------------------------------------- who gets what

  /** What worker `w` has been given before module `i`. */
  function LoadBefore(cost: Weighing, order: seq<string>, given: seq<nat>, w: nat, i: nat): real
    requires i <= |order| == |given|
  {
    if i == 0 then 0.0
    else LoadBefore(cost, order, given, w, i - 1) + if given[i - 1] == w then cost(order[i - 1]) else 0.0
  }

  lemma {:induction false} LoadFromStart(cost: Weighing, order: seq<string>, given: seq<nat>, w: nat, i: nat)
    requires 1 <= i <= |order| == |given|
    ensures LoadBefore(cost, order, given, w, i) ==
            (if given[0] == w then cost(order[0]) else 0.0) + LoadBefore(cost, order[1..], given[1..], w, i - 1)
  {
    if i > 1 {
      LoadFromStart(cost, order, given, w, i - 1);
      assert order[1..][i - 2] == order[i - 1] && given[1..][i - 2] == given[i - 1];
    }
  }

  /** The `i`-th module goes to a worker with the least load so far, the first of them. */
  predicate Greedy(cost: Weighing, order: seq<string>, given: seq<nat>, loads: seq<real>, i: nat)
    requires i < |order| == |given|
  {
    && given[i] < |loads|
    && (forall v :: 0 <= v < |loads| ==>
          loads[given[i]] + LoadBefore(cost, order, given, given[i], i) <= loads[v] + LoadBefore(cost, order, given, v, i))
    && (forall v :: 0 <= v < given[i] ==>
          loads[given[i]] + LoadBefore(cost, order, given, given[i], i) < loads[v] + LoadBefore(cost, order, given, v, i))
  }

  lemma {:induction false} AssignIsGreedy(cost: Weighing, order: seq<string>, loads: seq<real>, i: nat)
    requires loads != [] && i < |order|
    ensures Greedy(cost, order, Assign(cost, order, loads), loads, i)
    decreases i
  {
    hide Least;
    var given, w := Assign(cost, order, loads), Least(loads);
    if i > 0 {
      var loads' := loads[w := loads[w] + cost(order[0])];
      AssignIsGreedy(cost, order[1..], loads', i - 1);
      assert given[1..] == Assign(cost, order[1..], loads') && given[i] == given[1..][i - 1];
      forall v: nat | v < |loads|
        ensures loads[v] + LoadBefore(cost, order, given, v, i) == loads'[v] + LoadBefore(cost, order[1..], given[1..], v, i - 1)
      {
        LoadFromStart(cost, order, given, v, i);
      }
      hide LoadBefore;
    }
  }

  /** Every module of the schedule goes to the worker with the least load so far, the lowest index among equals. */
  lemma AssignmentMeans(inventory: seq<string>, count: nat, weights: map<string, real>, i: nat, v: nat)
    requires count >= 1 && i < |OrderOf(inventory, weights)| && v < count
    ensures var order, given := OrderOf(inventory, weights), Assignment(inventory, count, weights);
            var cost := name => Cost(weights, inventory, name);
            var least := LoadBefore(cost, order, given, given[i], i);
            && given[i] < count
            && least <= LoadBefore(cost, order, given, v, i) && (v < given[i] ==> least < LoadBefore(cost, order, given, v, i))
  {
    hide Cost, OrderOf, Assign, LoadBefore;
    var order, cost := OrderOf(inventory, weights), (name => Cost(weights, inventory, name));
    AssignIsGreedy(cost, order, Zeros(count), i);
  }

  lemma {:induction false} LoadsGrow(cost: Weighing, order: seq<string>, given: seq<nat>, w: nat, i: nat, j: nat)
    requires i <= j <= |order| == |given| && forall name :: cost(name) > 0.0
    ensures LoadBefore(cost, order, given, w, i) <= LoadBefore(cost, order, given, w, j)
    ensures (forall k :: i <= k < j ==> given[k] != w) ==>
              LoadBefore(cost, order, given, w, i) == LoadBefore(cost, order, given, w, j)
  {
    if i < j {
      LoadsGrow(cost, order, given, w, i, j - 1);
    }
  }

  /** The loads come out even but for one module: without its last module no worker has more than any other. */
  lemma LoadsAreEven(inventory: seq<string>, count: nat, weights: map<string, real>, i: nat, v: nat)
    requires count >= 1 && i < |OrderOf(inventory, weights)| && v < count
    requires var given := Assignment(inventory, count, weights); forall k :: i < k < |given| ==> given[k] != given[i]
    ensures var order, given := OrderOf(inventory, weights), Assignment(inventory, count, weights);
            var cost := name => Cost(weights, inventory, name);
            LoadBefore(cost, order, given, given[i], |order|) - cost(order[i]) <= LoadBefore(cost, order, given, v, |order|)
  {
    hide Cost, OrderOf, Assignment;
    var order, given := OrderOf(inventory, weights), Assignment(inventory, count, weights);
    var cost := name => Cost(weights, inventory, name);
    AssignmentMeans(inventory, count, weights, i, v);
    LoadsGrow(cost, order, given, v, i, |order|);
    LoadsGrow(cost, order, given, given[i], i + 1, |order|);
  }

  // ---------------------------------------------------------------- what scheduling accepts

  /** A path below the root: a Python module, spelled with forward slashes, that climbs nowhere. */
  predicate ModulePath(name: string) {
    && |name| >= 3 && name[|name| - 3] == '.' && name[|name| - 2] == 'p' && name[|name| - 1] == 'y'
    && (forall c :: c in name ==> c != '\\' && c != '\0')
    && name[0] != '/'
    && forall part :: part in Split(name, '/') ==> part != ".."
  }

  /** What the scheduler demands: one to 128 workers, distinct non-empty ids, module paths and at most a day each. */
  lemma PartitionableMeans(inventory: seq<string>, count: int, weights: map<string, real>)
    ensures Partitionable(inventory, count, weights) <==>
            && 1 <= count <= 128
            && (forall t :: t in inventory ==> t != "")
            && (forall i, j :: 0 <= i < j < |inventory| ==> inventory[i] != inventory[j])
            && (forall name :: name in weights ==> ModulePath(name) && weights[name] >= 0.0 && weights[name] <= 86400.0)
  {
    hide Split;
    DistinctIffCounted(inventory);
    forall name, weight ensures ValidDuration(name, weight) <==> ModulePath(name) && weight >= 0.0 && weight <= 86400.0 {
      if |name| >= 3 {
        assert name[|name| - 3..] == [name[|name| - 3], name[|name| - 2], name[|name| - 1]];
        assert name[..1] == [name[0]];
      }
    }
  }

  lemma {:induction false} DistinctIffCounted(s: seq<string>)
    ensures |set t | t in s| <= |s|
    ensures |set t | t in s| == |s| <==> forall i, j :: 0 <= i < j < |s| ==> s[i] != s[j]
  {
    if s != [] {
      var init, last := s[..|s| - 1], s[|s| - 1];
      DistinctIffCounted(init);
      assert s == init + [last];
      var before := set t | t in init;
      assert (set t | t in s) == before + {last};
      if last in init {
        var i :| 0 <= i < |init| && init[i] == last;
        assert s[i] == s[|s| - 1];
        assert before + {last} == before;
      }
    }
  }
}
