/**
  * Path overlap in the merge-risk tool, against path components, and the records the
  * tool reports. Building the import graph, the test map and the owners is not part of
  * this model: they come as tables.
  */
module MergeRisk {
  import opened Wrappers
  import opened Strings

  function RStripSlash(path: string): (r: string)
    ensures |r| <= |path| && r == path[..|r|]
    ensures r == "" || r[|r| - 1] != '/'
  {
    if path != "" && path[|path| - 1] == '/' then RStripSlash(path[..|path| - 1]) else path
  }

  /** The components a path names, trailing slashes aside. */
  function Components(path: string): seq<string> {
    Split(RStripSlash(path), '/')
  }

  predicate PathOverlaps(left: string, right: string) {
    var l, r := RStripSlash(left), RStripSlash(right);
    l == r || StartsWith(l, r + "/") || StartsWith(r, l + "/")
  }

  /** The string test is exactly: one component list is a prefix of the other. */
  lemma OverlapIsPrefix(left: string, right: string)
    ensures PathOverlaps(left, right) <==> Components(left) <= Components(right) || Components(right) <= Components(left)
  {
    hide Split, RStripSlash;
    var l, r := RStripSlash(left), RStripSlash(right);
    ProperPrefixByComponents(l, r, '/');
    ProperPrefixByComponents(r, l, '/');
    SameComponents(l, r, '/');
    assert r + ['/'] == r + "/" && l + ['/'] == l + "/";
  }

  predicate AtOrBelow(file: seq<string>, path: string) {
    Components(path) <= file
  }

  /** Equivalently: some path lies at or below both. */
  lemma OverlapIsCommonPath(left: string, right: string)
    ensures PathOverlaps(left, right) <==> exists file :: AtOrBelow(file, left) && AtOrBelow(file, right)
  {
    hide PathOverlaps, Components;
    OverlapIsPrefix(left, right);
    var l, r := Components(left), Components(right);
    if l <= r {
      assert AtOrBelow(r, left) && AtOrBelow(r, right);
    }
    if r <= l {
      assert AtOrBelow(l, left) && AtOrBelow(l, right);
    }
    if file :| AtOrBelow(file, left) && AtOrBelow(file, right) {
      if |l| <= |r| {
        assert l == file[..|l|] && r[..|l|] == file[..|l|];
      } else {
        assert r == file[..|r|] && l[..|r|] == file[..|r|];
      }
    }
  }

  // ---------------------------------------------------------------- the records

  datatype Source = Source(path: string, module_: string, imports: set<string>)

  datatype Kind = DirectOverlap | ImportNeighbour | SharedTestOwner

  datatype Record = Record(
    kind: Kind, changed: string, claimed: string, reason: string, related: set<string>, owners: set<string>, tests: set<string>)

  datatype RecordKey = RecordKey(kind: Kind, changed: string, claimed: string, reason: string)

  /** The import graph by path, the tests mapped to each source, and the owners of each path. */
  datatype Tables = Tables(sources: map<string, Source>, tests: map<string, set<string>>, owners: string -> set<string>)

  function ImportNeighbourReason(changed: Source, claimed: Source): Option<string> {
    if claimed.module_ in changed.imports then Some(changed.module_ + " imports " + claimed.module_)
    else if changed.module_ in claimed.imports then Some(claimed.module_ + " imports " + changed.module_)
    else None
  }

  const OVERLAP_REASON := "changed path overlaps claimed path"
  const SHARED_REASON := "changed and claimed sources share mapped tests"

  function TestsOf(t: Tables, path: string): set<string> {
    if path in t.tests then t.tests[path] else {}
  }

  /** The record of one kind that a changed/claimed pair gives rise to, if any. */
  function RecordOf(t: Tables, changed: string, claimed: string, kind: Kind): (r: Option<Record>)
    ensures r.Some? ==> r.value.kind == kind && r.value.changed == changed && r.value.claimed == claimed
  {
    var owners := t.owners(changed) + t.owners(claimed);
    match kind
    case DirectOverlap =>
      if PathOverlaps(changed, claimed) then Some(Record(kind, changed, claimed, OVERLAP_REASON, {}, owners, {})) else None
    case ImportNeighbour =>
      if changed !in t.sources || claimed !in t.sources then None
      else
        var reason := ImportNeighbourReason(t.sources[changed], t.sources[claimed]);
        if reason.Some? then Some(Record(kind, changed, claimed, reason.value, {changed, claimed}, owners, {})) else None
    case SharedTestOwner =>
      var shared := TestsOf(t, changed) * TestsOf(t, claimed);
      if changed in t.sources && claimed in t.sources && shared != {}
      then Some(Record(kind, changed, claimed, SHARED_REASON, shared, owners, shared)) else None
  }

  function KeyOf(r: Record): RecordKey {
    RecordKey(r.kind, r.changed, r.claimed, r.reason)
  }

  datatype Case = Case(changed: string, claimed: string, kind: Kind)

  /** The cases gone through have their records under their keys, and there are no others. */
  ghost predicate Holds(t: Tables, risks: map<RecordKey, Record>, cases: set<Case>) {
    && (forall k :: k in risks ==>
          && Case(k.changed, k.claimed, k.kind) in cases && KeyOf(risks[k]) == k
          && RecordOf(t, k.changed, k.claimed, k.kind) == Some(risks[k]))
    && (forall c :: c in cases && RecordOf(t, c.changed, c.claimed, c.kind).Some? ==>
          KeyOf(RecordOf(t, c.changed, c.claimed, c.kind).value) in risks)
  }

  function Added(risks: map<RecordKey, Record>, r: Option<Record>): map<RecordKey, Record> {
    if r.Some? then risks[KeyOf(r.value) := r.value] else risks
  }

  lemma AddCase(t: Tables, risks: map<RecordKey, Record>, cases: set<Case>, c: Case)
    requires Holds(t, risks, cases)
    ensures Holds(t, Added(risks, RecordOf(t, c.changed, c.claimed, c.kind)), cases + {c})
  {
    hide RecordOf;
    var r := RecordOf(t, c.changed, c.claimed, c.kind);
    assert r.Some? ==> r.value.kind == c.kind && r.value.changed == c.changed && r.value.claimed == c.claimed;
    assert c == Case(c.changed, c.claimed, c.kind);
  }

  function KindsOf(changed: string, claimed: string): set<Case> {
    {Case(changed, claimed, DirectOverlap), Case(changed, claimed, ImportNeighbour), Case(changed, claimed, SharedTestOwner)}
  }

  /** The three records of one pair, in the order the tool adds them. */
  method AddPair(t: Tables, risks: map<RecordKey, Record>, changed: string, claimed: string, ghost cases: set<Case>)
    returns (updated: map<RecordKey, Record>)
    requires Holds(t, risks, cases)
    ensures Holds(t, updated, cases + KindsOf(changed, claimed))
  {
    hide Holds, PathOverlaps, ImportNeighbourReason, TestsOf;
    updated := risks;
    AddCase(t, updated, cases, Case(changed, claimed, DirectOverlap));
    var owners := t.owners(changed) + t.owners(claimed);
    if PathOverlaps(changed, claimed) {
      var record := Record(DirectOverlap, changed, claimed, OVERLAP_REASON, {}, owners, {});
      updated := updated[KeyOf(record) := record];
    }
    AddCase(t, updated, cases + {Case(changed, claimed, DirectOverlap)}, Case(changed, claimed, ImportNeighbour));
    var both := changed in t.sources && claimed in t.sources;
    if both && ImportNeighbourReason(t.sources[changed], t.sources[claimed]).Some? {
      var reason := ImportNeighbourReason(t.sources[changed], t.sources[claimed]).value;
      var record := Record(ImportNeighbour, changed, claimed, reason, {changed, claimed}, owners, {});
      updated := updated[KeyOf(record) := record];
    }
    ghost var two := cases + {Case(changed, claimed, DirectOverlap)} + {Case(changed, claimed, ImportNeighbour)};
    AddCase(t, updated, two, Case(changed, claimed, SharedTestOwner));
    if both {
      var shared := TestsOf(t, changed) * TestsOf(t, claimed);
      if shared != {} {
        var record := Record(SharedTestOwner, changed, claimed, SHARED_REASON, shared, owners, shared);
        updated := updated[KeyOf(record) := record];
      }
    }
    assert two + {Case(changed, claimed, SharedTestOwner)} == cases + KindsOf(changed, claimed);
  }

  ghost function Cases(changed: seq<string>, claimed: seq<string>): set<Case> {
    set c, d, k: Kind | c in changed && d in claimed && k in {DirectOverlap, ImportNeighbour, SharedTestOwner} :: Case(c, d, k)
  }

  /** The nested loops over changed and claimed paths; the sorting of the report is not modelled. */
  method FindMergeRisks(t: Tables, changed: seq<string>, claimed: seq<string>) returns (risks: map<RecordKey, Record>)
    ensures Holds(t, risks, Cases(changed, claimed))
  {
    hide Holds;
    risks := map[];
    ghost var done: set<Case> := {};
    assert Holds(t, risks, done) by { NothingHeld(t); }
    for i := 0 to |changed|
      invariant done == Cases(changed[..i], claimed) && Holds(t, risks, done)
    {
      for j := 0 to |claimed|
        invariant done == Cases(changed[..i], claimed) + Cases([changed[i]], claimed[..j]) && Holds(t, risks, done)
      {
        risks := AddPair(t, risks, changed[i], claimed[j], done);
        done := done + KindsOf(changed[i], claimed[j]);
        assert claimed[..j + 1] == claimed[..j] + [claimed[j]];
        NextPair(changed[i], claimed[..j], claimed[j]);
      }
      assert claimed[..|claimed|] == claimed && changed[..i + 1] == changed[..i] + [changed[i]];
      NextChanged(changed[..i], changed[i], claimed);
    }
    assert changed[..|changed|] == changed;
  }

  lemma NextPair(c: string, claimed: seq<string>, d: string)
    ensures Cases([c], claimed + [d]) == Cases([c], claimed) + KindsOf(c, d)
  {
  }

  lemma NextChanged(changed: seq<string>, c: string, claimed: seq<string>)
    ensures Cases(changed + [c], claimed) == Cases(changed, claimed) + Cases([c], claimed)
  {
  }

  lemma NothingHeld(t: Tables)
    ensures Holds(t, map[], {})
  {
  }

  /** There is a direct-overlap record for exactly the overlapping changed/claimed pairs. */
  lemma OverlapRecordsAreExact(t: Tables, changed: seq<string>, claimed: seq<string>, risks: map<RecordKey, Record>, c: string, d: string)
    requires Holds(t, risks, Cases(changed, claimed))
    ensures RecordKey(DirectOverlap, c, d, OVERLAP_REASON) in risks <==>
            c in changed && d in claimed && (Components(c) <= Components(d) || Components(d) <= Components(c))
  {
    hide PathOverlaps, Components, ImportNeighbourReason, TestsOf;
    OverlapIsPrefix(c, d);
    var k := RecordKey(DirectOverlap, c, d, OVERLAP_REASON);
    if k in risks {
      assert Case(c, d, DirectOverlap) in Cases(changed, claimed);
      assert RecordOf(t, c, d, DirectOverlap).Some?;
    }
    if c in changed && d in claimed && PathOverlaps(c, d) {
      assert Case(c, d, DirectOverlap) in Cases(changed, claimed);
      assert KeyOf(RecordOf(t, c, d, DirectOverlap).value) == k;
    }
  }

  /** A test that the map gives to both paths. */
  ghost predicate ShareTest(t: Tables, c: string, d: string, test: string) {
    c in t.tests && d in t.tests && test in t.tests[c] && test in t.tests[d]
  }

  /**
    * Each record of a pair, told on the tables: overlapping paths; two sources of which one
    * imports the other, named importer first, the changed one when both do; two sources to
    * which some test is mapped, with exactly those tests. All carry the owners of both paths.
    */
  lemma RecordsMean(t: Tables, c: string, d: string)
    ensures RecordOf(t, c, d, DirectOverlap) ==
            if Components(c) <= Components(d) || Components(d) <= Components(c)
            then Some(Record(DirectOverlap, c, d, "changed path overlaps claimed path", {}, t.owners(c) + t.owners(d), {})) else None
    ensures c in t.sources && d in t.sources && t.sources[d].module_ in t.sources[c].imports ==>
              RecordOf(t, c, d, ImportNeighbour) == Some(Record(ImportNeighbour, c, d,
                t.sources[c].module_ + " imports " + t.sources[d].module_, {c, d}, t.owners(c) + t.owners(d), {}))
    ensures c in t.sources && d in t.sources && t.sources[d].module_ !in t.sources[c].imports &&
            t.sources[c].module_ in t.sources[d].imports ==>
              RecordOf(t, c, d, ImportNeighbour) == Some(Record(ImportNeighbour, c, d,
                t.sources[d].module_ + " imports " + t.sources[c].module_, {c, d}, t.owners(c) + t.owners(d), {}))
    ensures RecordOf(t, c, d, ImportNeighbour).Some? <==>
            && c in t.sources && d in t.sources
            && (t.sources[d].module_ in t.sources[c].imports || t.sources[c].module_ in t.sources[d].imports)
    ensures var r := RecordOf(t, c, d, SharedTestOwner);
            && (r.Some? <==> c in t.sources && d in t.sources && exists test :: ShareTest(t, c, d, test))
            && (r.Some? ==>
                  && r.value.kind == SharedTestOwner && r.value.changed == c && r.value.claimed == d
                  && r.value.reason == "changed and claimed sources share mapped tests"
                  && r.value.owners == t.owners(c) + t.owners(d) && r.value.related == r.value.tests
                  && forall test :: test in r.value.tests <==> ShareTest(t, c, d, test))
  {
    hide PathOverlaps, Components;
    OverlapIsPrefix(c, d);
    forall test ensures test in TestsOf(t, c) * TestsOf(t, d) <==> ShareTest(t, c, d, test) {
    }
  }

  /** The tool's result holds the record of each kind, for exactly the pairs that have one. */
  lemma FoundExactly(t: Tables, changed: seq<string>, claimed: seq<string>, risks: map<RecordKey, Record>, r: Record)
    requires Holds(t, risks, Cases(changed, claimed))
    ensures (exists k :: k in risks && risks[k] == r) <==>
            r.changed in changed && r.claimed in claimed && RecordOf(t, r.changed, r.claimed, r.kind) == Some(r)
  {
    hide RecordOf;
    if r.changed in changed && r.claimed in claimed && RecordOf(t, r.changed, r.claimed, r.kind) == Some(r) {
      assert Case(r.changed, r.claimed, r.kind) in Cases(changed, claimed);
      assert KeyOf(r) in risks && risks[KeyOf(r)] == r;
    }
    if k :| k in risks && risks[k] == r {
      assert KeyOf(r) == k && Case(k.changed, k.claimed, k.kind) in Cases(changed, claimed);
    }
  }
}
