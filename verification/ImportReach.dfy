/**
  * Static import reachability: which modules a syntax tree imports at run time, and
  * whether a module reaches a target through a possibly cyclic import graph.
  */
module ImportReach {
  import opened Wrappers
  import opened Strings

  // ---------------------------------------------------------------- what a module imports

  /** Syntax trees, as far as imports go; `Other` is any other node with its children. */
  datatype Ast =
    | Import(names: seq<string>)
    | ImportFrom(source: Option<string>, names: seq<string>, level: nat)
    | If(typeChecking: bool, test: seq<Ast>, body: seq<Ast>, orelse: seq<Ast>)
    | Other(children: seq<Ast>)

  function Children(node: Ast): (r: seq<Ast>)
    ensures forall child :: child in r ==> child < node
  {
    match node
    case If(_, test, body, orelse) =>
      assert forall child :: child in test + body + orelse ==> child in test || child in body || child in orelse;
      test + body + orelse
    case Other(children) => children
    case _ => []
  }

  /** The children that run: under `if TYPE_CHECKING:` only the else branch does. */
  function Running(node: Ast): (r: seq<Ast>)
    ensures forall child :: child in r ==> child < node
  {
    if node.If? && node.typeChecking then node.orelse else Children(node)
  }

  /** Python's `parts[:n]`, where a negative `n` counts from the end. */
  function Prefix(parts: seq<string>, n: int): seq<string> {
    if n >= 0 then parts[..if n <= |parts| then n else |parts|]
    else parts[..if |parts| + n >= 0 then |parts| + n else 0]
  }

  function Stem(package: string, source: Option<string>, level: nat): string {
    var parts := Split(package, '.');
    var base := if level > 0 then Prefix(parts, |parts| - level + 1) else [];
    Join(if source.Some? && source.value != "" then base + [source.value] else base, '.')
  }

  /** What one node names by itself. */
  function Named(node: Ast, package: string): set<string> {
    match node
    case Import(names) => set n | n in names
    case ImportFrom(source, names, level) =>
      var stem := Stem(package, source, level);
      {stem} + (set n | n in names :: stem + "." + n)
    case _ => {}
  }

  /** Every module the running part of a tree names. */
  function Imports(node: Ast, package: string): set<string>
    decreases node, 1
  {
    Named(node, package) + ImportsOf(node, Running(node), package)
  }

  function ImportsOf(ghost whole: Ast, nodes: seq<Ast>, package: string): set<string>
    requires forall n :: n in nodes ==> n < whole
    decreases whole, 0, nodes
  {
    if nodes == [] then {}
    else
      assert nodes[0] in nodes && forall n :: n in nodes[1..] ==> n in nodes;
      Imports(nodes[0], package) + ImportsOf(whole, nodes[1..], package)
  }

  lemma {:induction false} ImportsOfHas(whole: Ast, nodes: seq<Ast>, package: string, name: string)
    requires forall n :: n in nodes ==> n < whole
    ensures name in ImportsOf(whole, nodes, package) <==> exists n :: n in nodes && name in Imports(n, package)
    decreases nodes
  {
    hide Imports;
    if nodes != [] {
      assert nodes == [nodes[0]] + nodes[1..];
      assert nodes[0] in nodes && forall n :: n in nodes[1..] ==> n in nodes;
      ImportsOfHas(whole, nodes[1..], package, name);
    }
  }

  function Size(node: Ast): nat
    decreases node, 1
  {
    1 + SizeOf(node, Children(node))
  }

  function SizeOf(ghost whole: Ast, nodes: seq<Ast>): nat
    requires forall n :: n in nodes ==> n < whole
    decreases whole, 0, nodes
  {
    if nodes == [] then 0
    else
      assert nodes[0] in nodes && forall n :: n in nodes[1..] ==> n in nodes;
      Size(nodes[0]) + SizeOf(whole, nodes[1..])
  }

  /** The nodes still to visit, counted through. */
  function Pending(nodes: seq<Ast>): nat {
    if nodes == [] then 0 else Pending(nodes[..|nodes| - 1]) + Size(nodes[|nodes| - 1])
  }

  lemma {:induction false} PendingAppend(a: seq<Ast>, b: seq<Ast>)
    ensures Pending(a + b) == Pending(a) + Pending(b)
    decreases b
  {
    hide Size;
    if b == [] {
      assert a + b == a;
    } else {
      var init, last := b[..|b| - 1], b[|b| - 1];
      assert (a + b)[..|a + b| - 1] == a + init;
      PendingAppend(a, init);
    }
  }

  lemma {:induction false} PendingIsSize(whole: Ast, nodes: seq<Ast>)
    requires forall n :: n in nodes ==> n < whole
    ensures Pending(nodes) == SizeOf(whole, nodes)
    decreases nodes
  {
    hide Size;
    if nodes != [] {
      assert nodes == [nodes[0]] + nodes[1..];
      PendingAppend([nodes[0]], nodes[1..]);
      assert forall n :: n in nodes[1..] ==> n in nodes;
      PendingIsSize(whole, nodes[1..]);
      assert [nodes[0]][..0] == [];
      assert Pending([nodes[0]]) == Size(nodes[0]);
    }
  }

  lemma RunningIsSmaller(node: Ast)
    ensures Pending(Running(node)) < Size(node)
  {
    hide Pending;
    PendingIsSize(node, Children(node));
    if node.If? && node.typeChecking {
      var front := node.test + node.body;
      assert Children(node) == front + node.orelse;
      PendingAppend(front, node.orelse);
    }
  }

  /** Some node still pending will name it. */
  ghost predicate Awaited(pending: seq<Ast>, package: string, name: string) {
    exists n :: n in pending && name in Imports(n, package)
  }

  /** The worklist over a tree finds exactly what its running part names. */
  method ImportedModules(tree: Ast, package: string) returns (found: set<string>)
    ensures found == Imports(tree, package)
  {
    hide Imports, Named, Size;
    found := {};
    var pending := [tree];
    while pending != []
      invariant forall name :: name in Imports(tree, package) <==> name in found || Awaited(pending, package, name)
      decreases Pending(pending)
    {
      var node := pending[|pending| - 1];
      var rest := pending[..|pending| - 1];
      assert pending == rest + [node];
      VisitNode(rest, node, package, found);
      RunningIsSmaller(node);
      PendingAppend(rest, Running(node));
      found := found + Named(node, package);
      pending := rest + Running(node);
    }
  }

  lemma VisitNode(rest: seq<Ast>, node: Ast, package: string, found: set<string>)
    ensures forall name ::
              (name in found || Awaited(rest + [node], package, name)) <==>
              (name in found + Named(node, package) || Awaited(rest + Running(node), package, name))
  {
    hide Imports, Named, Running;
    forall name
      ensures (name in found || Awaited(rest + [node], package, name)) <==>
              (name in found + Named(node, package) || Awaited(rest + Running(node), package, name))
    {
      ImportsStep(node, package, name);
    }
  }

  lemma ImportsStep(node: Ast, package: string, name: string)
    ensures name in Imports(node, package) <==>
            name in Named(node, package) || exists n :: n in Running(node) && name in Imports(n, package)
  {
    hide Named, Running;
    ImportsOfHas(node, Running(node), package, name);
  }

  /**
    * What the running part of a tree names, node by node: an import names its modules; under
    * `if TYPE_CHECKING:` only the else branch counts, and under any other `if` the test and
    * both branches; any other node counts through its children.
    */
  lemma ImportsMean(package: string, name: string)
    ensures forall names :: name in Imports(Import(names), package) <==> name in names
    ensures forall test, body, orelse ::
              name in Imports(If(true, test, body, orelse), package) <==> NamedUnder(orelse, package, name)
    ensures forall test, body, orelse ::
              name in Imports(If(false, test, body, orelse), package) <==>
              NamedUnder(test, package, name) || NamedUnder(body, package, name) || NamedUnder(orelse, package, name)
    ensures forall children :: name in Imports(Other(children), package) <==> NamedUnder(children, package, name)
  {
    hide Imports, ImportsOf;
    forall node ensures name in Imports(node, package) <==>
                        name in Named(node, package) || exists n :: n in Running(node) && name in Imports(n, package)
    {
      ImportsStep(node, package, name);
    }
  }

  ghost predicate NamedUnder(nodes: seq<Ast>, package: string, name: string) {
    exists n :: n in nodes && name in Imports(n, package)
  }

  /** A `from` import names the module it reads from, and each name below it. */
  lemma FromImportsMean(source: Option<string>, names: seq<string>, level: nat, package: string, name: string)
    ensures name in Imports(ImportFrom(source, names, level), package) <==>
            || name == Stem(package, source, level)
            || exists n :: n in names && name == Stem(package, source, level) + "." + n
  {
    hide Imports, Stem;
    ImportsStep(ImportFrom(source, names, level), package, name);
  }

  /** Without dots a `from` import reads from the module it spells. */
  lemma AbsoluteStem(package: string, source: string)
    ensures Stem(package, Some(source), 0) == source
  {
    assert [] + [source] == [source];
  }

  /**
    * One dot is the package itself, and each further dot one package up: with `level - 1`
    * packages below it, the stem is the enclosing one, and the spelled module below that.
    */
  lemma RelativeStem(upper: seq<string>, below: seq<string>, source: string)
    requires upper != [] && forall part :: part in upper + below ==> '.' !in part
    ensures Stem(Join(upper + below, '.'), None, |below| + 1) == Join(upper, '.')
    ensures source != "" ==> Stem(Join(upper + below, '.'), Some(source), |below| + 1) == Join(upper, '.') + "." + source
  {
    hide Split, Join;
    SplitJoin(upper + below, '.');
    var parts := upper + below;
    assert Prefix(parts, |parts| - |below|) == upper;
    JoinAppend(upper, [source], '.');
    JoinStep(source, [], '.');
  }

  /** More dots than packages: Python counts the slice from the end, so packages come back. */
  lemma BeyondTheTop(parts: seq<string>, extra: nat)
    requires parts != [] && forall part :: part in parts ==> '.' !in part
    ensures Stem(Join(parts, '.'), None, |parts| + 1 + extra) ==
            Join(if extra == 0 || extra >= |parts| then [] else parts[..|parts| - extra], '.')
  {
    hide Split, Join;
    SplitJoin(parts, '.');
  }

  // ---------------------------------------------------------------- reachability

  /** The modules with a source file, and what each imports; it may be cyclic. */
  type Program = map<string, seq<string>>

  predicate InPackage(name: string) {
    StartsWith(name, "synapse_channel")
  }

  ghost predicate Edge(p: Program, m: string, n: string) {
    m in p && n in p[m] && InPackage(n)
  }

  lemma EdgeMeans(p: Program, m: string, n: string)
    ensures Edge(p, m, n) <==> m in p && n in p[m] && |n| >= 15 && n[..15] == "synapse_channel"
  {
  }

  /** An import chain; every module but the last is expanded, so it has a source file. */
  ghost predicate Chain(p: Program, path: seq<string>) {
    path != [] && forall i :: 0 <= i < |path| - 1 ==> Edge(p, path[i], path[i + 1])
  }

  ghost predicate Leads(p: Program, start: string, goal: string) {
    exists path :: Chain(p, path) && path[0] == start && path[|path| - 1] == goal
  }

  lemma LeadsOn(p: Program, start: string, m: string, n: string)
    requires Leads(p, start, m) && Edge(p, m, n)
    ensures Leads(p, start, n)
  {
    hide Edge;
    var path :| Chain(p, path) && path[0] == start && path[|path| - 1] == m;
    var longer := path + [n];
    assert Chain(p, longer);
  }

  lemma LeadsHere(p: Program, start: string)
    ensures Leads(p, start, start)
  {
    assert Chain(p, [start]) && [start][0] == start;
  }

  /** A set closed under import edges that holds the start holds everything reachable. */
  lemma {:induction false} ClosedHolds(p: Program, done: set<string>, path: seq<string>)
    requires Chain(p, path) && path[0] in done && (forall m, n :: m in done && Edge(p, m, n) ==> n in done)
    ensures path[|path| - 1] in done
  {
    if |path| > 1 {
      assert Edge(p, path[0], path[1]);
      var rest := path[1..];
      forall i | 0 <= i < |rest| - 1 ensures Edge(p, rest[i], rest[i + 1]) {
        assert Edge(p, path[i + 1], path[i + 1 + 1]);
      }
      ClosedHolds(p, done, rest);
    }
  }

  function Internal(names: seq<string>): (r: seq<string>)
    ensures forall n :: n in r <==> n in names && InPackage(n)
  {
    if names == [] then []
    else (if InPackage(names[0]) then [names[0]] else []) + Internal(names[1..])
  }

  /**
    * The worklist ends on any finite import graph, cycles included, and says whether some
    * target is reachable from the start along expanded imports.
    */
  method Reaches(p: Program, start: string, targets: set<string>) returns (found: bool)
    ensures found <==> exists t :: t in targets && Leads(p, start, t)
  {
    hide InPackage, Internal, Leads;
    var seen: set<string> := {};
    var pending := [start];
    ghost var done: set<string> := {};
    LeadsHere(p, start);
    while pending != []
      invariant seen <= p.Keys && seen == done * p.Keys && done !! targets
      invariant start in done || start in pending
      invariant forall m, n :: m in seen && Edge(p, m, n) ==> n in done || n in pending
      invariant forall m :: m in pending ==> Leads(p, start, m)
      decreases |p.Keys - seen|, |pending|
    {
      var module_ := pending[|pending| - 1];
      var rest := pending[..|pending| - 1];
      assert pending == rest + [module_];
      if module_ in targets {
        return true;
      }
      done := done + {module_};
      if module_ in seen || module_ !in p {
        pending := rest;
      } else {
        InternalHas(p[module_]);
        forall n | n in Internal(p[module_]) ensures Leads(p, start, n) {
          LeadsOn(p, start, module_, n);
        }
        FewerLeft(p.Keys - seen, module_);
        assert p.Keys - (seen + {module_}) == p.Keys - seen - {module_};
        seen := seen + {module_};
        pending := rest + Internal(p[module_]);
      }
    }
    NothingBeyond(p, start, done);
    found := false;
  }

  /** Nothing outside a closed set that holds the start is reachable from it. */
  lemma NothingBeyond(p: Program, start: string, done: set<string>)
    requires start in done && forall m, n :: m in done && Edge(p, m, n) ==> n in done
    ensures forall t :: Leads(p, start, t) ==> t in done
  {
    hide Edge;
    forall t | Leads(p, start, t) ensures t in done {
      var path :| Chain(p, path) && path[0] == start && path[|path| - 1] == t;
      ClosedHolds(p, done, path);
    }
  }

  lemma InternalHas(names: seq<string>)
    ensures forall n :: n in Internal(names) <==> n in names && InPackage(n)
  {
  }

  lemma FewerLeft(s: set<string>, x: string)
    requires x in s
    ensures |s - {x}| < |s|
  {
    assert s == (s - {x}) + {x};
  }
}
