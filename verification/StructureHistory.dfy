/**
  * What the two structure-budget checks say of whole commit histories: figures are
  * bounded by the first ledger, whatever moves; without moves they only fall.
  */
module StructureHistory {
  import opened Wrappers
  import opened StructureBudget

  /** Every ledger parses and each is accepted against the one before it. */
  ghost predicate Accepted(history: seq<Ledger>) {
    && (forall i :: 0 <= i < |history| ==> Parsed(history[i]))
    && (forall i :: 0 < i < |history| ==> Succeeds(history[i], history[i - 1]))
  }

  // ---------------------------------------------------------------- every ceiling has an ancestor

  ghost predicate BoundedBy(b: Ledger, m: string, figure: nat)
    requires Parsed(b) && m in MEASURES
  {
    exists origin :: origin in b.ceilings[m] && figure <= b.ceilings[m][origin]
  }

  lemma AncestorIn(l: Ledger, b: Ledger, m: string, u: string) returns (source: string)
    requires Parsed(l) && Parsed(b) && Succeeds(l, b) && m in MEASURES && u in l.ceilings[m]
    ensures Source(l, b, m, u) == Some(source) && source in b.ceilings[m] && l.ceilings[m][u] <= b.ceilings[m][source]
  {
    hide Source, ConfigurationKept, Connects;
    assert EntryAnswers(l, b, m, u);
    source := Source(l, b, m, u).value;
  }

  /**
    * Through any number of accepted commits and any moves, every recorded figure is at
    * most some figure of the same measure in the first ledger: the maximum never rises.
    */
  lemma {:induction false} BoundedByTheFirst(history: seq<Ledger>, m: string, u: string)
    requires Accepted(history) && history != [] && m in MEASURES && u in history[|history| - 1].ceilings[m]
    ensures BoundedBy(history[0], m, history[|history| - 1].ceilings[m][u])
  {
    hide Succeeds;
    var n := |history| - 1;
    if n > 0 {
      var source := AncestorIn(history[n], history[n - 1], m, u);
      BoundedByTheFirst(history[..n], m, source);
      var origin :| origin in history[0].ceilings[m] && history[n - 1].ceilings[m][source] <= history[0].ceilings[m][origin];
    }
  }

  // ---------------------------------------------------------------- totals

  ghost function Total(figures: map<string, nat>): nat {
    if figures == map[] then 0
    else
      var u :| u in figures;
      figures[u] + Total(figures - {u})
  }

  lemma {:induction false} TotalWithout(figures: map<string, nat>, u: string)
    requires u in figures
    ensures Total(figures) == figures[u] + Total(figures - {u})
    decreases |figures|
  {
    var v :| v in figures && Total(figures) == figures[v] + Total(figures - {v});
    if v != u {
      TotalWithout(figures - {v}, u);
      TotalWithout(figures - {u}, v);
      assert figures - {v} - {u} == figures - {u} - {v};
    }
  }

  /** Each figure of `after` is at most a figure of `before`, no two at the same one. */
  ghost predicate Embeds(after: map<string, nat>, before: map<string, nat>, source: map<string, string>) {
    && source.Keys == after.Keys
    && (forall u :: u in after ==> source[u] in before && after[u] <= before[source[u]])
    && (forall u, v :: u in after && v in after && u != v ==> source[u] != source[v])
  }

  lemma {:induction false} EmbeddingShrinks(after: map<string, nat>, before: map<string, nat>,
          source: map<string, string>)
    requires Embeds(after, before, source)
    ensures Total(after) <= Total(before)
    decreases |after|
  {
    if after != map[] {
      var u :| u in after;
      TotalWithout(after, u);
      TotalWithout(before, source[u]);
      EmbeddingShrinks(after - {u}, before - {source[u]}, source - {u});
    }
  }

  /** No two listed units answer to the same baseline entry. */
  ghost predicate OneToOne(l: Ledger, b: Ledger, m: string)
    requires Parsed(l) && Parsed(b) && m in MEASURES
  {
    forall u, v :: u in l.ceilings[m] && v in l.ceilings[m] && u != v ==> Source(l, b, m, u) != Source(l, b, m, v)
  }

  /** Moves that share no origin, with each other or with a unit still listed, keep the total from rising. */
  lemma TotalNeverRises(l: Ledger, b: Ledger, m: string)
    requires Parsed(l) && Parsed(b) && Succeeds(l, b) && m in MEASURES && OneToOne(l, b, m)
    ensures Total(l.ceilings[m]) <= Total(b.ceilings[m])
  {
    hide Succeeds, Source;
    forall u | u in l.ceilings[m]
      ensures Source(l, b, m, u).Some? && Source(l, b, m, u).value in b.ceilings[m] &&
              l.ceilings[m][u] <= b.ceilings[m][Source(l, b, m, u).value]
    {
      var source := AncestorIn(l, b, m, u);
    }
    var source := map u | u in l.ceilings[m] :: Source(l, b, m, u).value;
    EmbeddingShrinks(l.ceilings[m], b.ceilings[m], source);
  }

  /** The baseline figures the listed units answer to: the most a successor with these entries may record. */
  function Carried(l: Ledger, b: Ledger, m: string): (r: map<string, nat>)
    requires Parsed(l) && Parsed(b) && m in MEASURES
  {
    map u | u in l.ceilings[m] && Source(l, b, m, u).Some? && Source(l, b, m, u).value in b.ceilings[m] ::
      b.ceilings[m][Source(l, b, m, u).value]
  }

  /** The same entries and moves, with other figures under one measure. */
  ghost predicate SameEntries(l: Ledger, other: Ledger, m: string)
    requires Parsed(l) && Parsed(other) && m in MEASURES
  {
    && other == l.(ceilings := l.ceilings[m := other.ceilings[m]])
    && other.ceilings[m].Keys == l.ceilings[m].Keys
  }

  /** A unit's source depends on the moves and the baseline alone. */
  lemma SameSource(l: Ledger, other: Ledger, b: Ledger, n: string, u: string)
    requires Parsed(b) && n in MEASURES && other.moves == l.moves
    ensures Source(other, b, n, u) == Source(l, b, n, u)
  {
    hide Origin;
  }

  lemma SameSources(l: Ledger, other: Ledger, b: Ledger, m: string)
    requires Parsed(l) && Parsed(other) && Parsed(b) && m in MEASURES && SameEntries(l, other, m)
    ensures Carried(other, b, m) == Carried(l, b, m)
  {
    hide Source;
    assert other.moves == l.moves && other.ceilings[m].Keys == l.ceilings[m].Keys;
    forall u | u in l.ceilings[m] ensures Source(other, b, m, u) == Source(l, b, m, u) {
      SameSource(l, other, b, m, u);
    }
  }

  lemma TotalIsBounded(l: Ledger, b: Ledger, m: string)
    requires Parsed(l) && Parsed(b) && Succeeds(l, b) && m in MEASURES
    ensures Total(l.ceilings[m]) <= Total(Carried(l, b, m)) && Carried(l, b, m).Keys == l.ceilings[m].Keys
  {
    hide Succeeds, Source;
    forall u | u in l.ceilings[m] ensures u in Carried(l, b, m) && l.ceilings[m][u] <= Carried(l, b, m)[u] {
      var source := AncestorIn(l, b, m, u);
    }
    EmbeddingShrinks(l.ceilings[m], Carried(l, b, m), map u | u in l.ceilings[m] :: u);
  }

  function AtCarried(l: Ledger, b: Ledger, m: string): (r: Ledger)
    requires Parsed(l) && Parsed(b) && m in MEASURES
    ensures Parsed(r)
  {
    l.(ceilings := l.ceilings[m := Carried(l, b, m)])
  }

  lemma CarriedAnswers(l: Ledger, b: Ledger, m: string, n: string, u: string)
    requires Parsed(l) && Parsed(b) && Succeeds(l, b) && m in MEASURES && n in MEASURES
    requires u in AtCarried(l, b, m).ceilings[n]
    ensures EntryAnswers(AtCarried(l, b, m), b, n, u)
  {
    hide Origin, ConfigurationKept, Connects;
    assert u in l.ceilings[n];
    assert EntryAnswers(l, b, n, u);
    assert AtCarried(l, b, m).moves == l.moves;
  }

  lemma CarriedConnects(l: Ledger, b: Ledger, m: string)
    requires Parsed(l) && Parsed(b) && Succeeds(l, b) && m in MEASURES && Carried(l, b, m).Keys == l.ceilings[m].Keys
    ensures forall move :: move in AtCarried(l, b, m).moves ==> Connects(AtCarried(l, b, m), b, move)
    ensures ConfigurationKept(AtCarried(l, b, m), b)
  {
    hide Source, Excepted, EntryAnswers;
    forall move | move in l.moves ensures Connects(AtCarried(l, b, m), b, move) {
      assert Connects(l, b, move);
    }
  }

  /** Keeping every carried figure is accepted too, so the bound is reached. */
  lemma CarriedIsAccepted(l: Ledger, b: Ledger, m: string)
    requires Parsed(l) && Parsed(b) && Succeeds(l, b) && m in MEASURES
    ensures Succeeds(AtCarried(l, b, m), b) && SameEntries(l, AtCarried(l, b, m), m)
  {
    hide Source, Excepted, EntryAnswers, Connects, ConfigurationKept, Total;
    var top := AtCarried(l, b, m);
    TotalIsBounded(l, b, m);
    CarriedConnects(l, b, m);
    forall n, u | n in MEASURES && u in top.ceilings[n] ensures EntryAnswers(top, b, n, u) {
      CarriedAnswers(l, b, m, n, u);
    }
  }

  /**
    * Exactly when the ratchet lets a total rise: accepted figures for these entries can
    * exceed the baseline's total just when the figures the entries answer to do. With
    * moves of one origin to several units, they can.
    */
  lemma TotalMayRiseIff(l: Ledger, b: Ledger, m: string)
    requires Parsed(l) && Parsed(b) && Succeeds(l, b) && m in MEASURES
    ensures (exists other :: Parsed(other) && SameEntries(l, other, m) && Succeeds(other, b) &&
                             Total(other.ceilings[m]) > Total(b.ceilings[m]))
            <==> Total(Carried(l, b, m)) > Total(b.ceilings[m])
  {
    hide Succeeds, Source, SameEntries;
    if other :| Parsed(other) && SameEntries(l, other, m) && Succeeds(other, b) && Total(other.ceilings[m]) > Total(b.ceilings[m]) {
      TotalIsBounded(other, b, m);
      SameSources(l, other, b, m);
    }
    CarriedIsAccepted(l, b, m);
    assert AtCarried(l, b, m).ceilings[m] == Carried(l, b, m);
  }

  const NO_CEILINGS: map<string, map<string, nat>> := map m | m in MEASURES :: map[]
  const ZERO_THRESHOLDS: map<string, nat> := map m | m in MEASURES :: 0
  const ONE_UNIT := Ledger({}, ZERO_THRESHOLDS, {}, NO_CEILINGS["private_access" := map["a" := 5]], [], [])
  const TWO_UNITS := Ledger({}, ZERO_THRESHOLDS, {}, NO_CEILINGS["private_access" := map["a" := 5, "b" := 5]],
                            [Move("a", "b", "private_access")], [])

  lemma Doubled()
    ensures Total(map["a" := 5]) == 5 && Total(map["a" := 5, "b" := 5]) == 10
  {
    hide Total;
    var one, two: map<string, nat> := map["a" := 5], map["a" := 5, "b" := 5];
    TotalWithout(one, "a");
    TotalWithout(two, "b");
    assert two - {"b"} == one && one - {"a"} == map[];
    assert Total(map[]) == 0 by { TotalOfNothing(); }
  }

  lemma TotalOfNothing()
    ensures Total(map[]) == 0
  {
  }

  /** A move whose origin stays listed is accepted, and doubles the recorded debt. */
  lemma MovesCanDouble()
    ensures Parsed(ONE_UNIT) && Parsed(TWO_UNITS) && Succeeds(TWO_UNITS, ONE_UNIT)
    ensures Total(ONE_UNIT.ceilings["private_access"]) == 5 && Total(TWO_UNITS.ceilings["private_access"]) == 10
  {
    hide Total;
    var m := "private_access";
    assert m == MEASURES[6];
    Doubled();
    assert Origin(TWO_UNITS.moves, m, "b") == Some("a");
    forall n, u | n in MEASURES && u in TWO_UNITS.ceilings[n] ensures EntryAnswers(TWO_UNITS, ONE_UNIT, n, u) {
    }
  }

  // ---------------------------------------------------------------- histories without moves

  /** Without moves the listed units only shrink and their figures and totals only fall. */
  lemma UnmovedStep(l: Ledger, b: Ledger, m: string)
    requires Parsed(l) && Parsed(b) && Succeeds(l, b) && l.moves == [] && m in MEASURES
    ensures l.ceilings[m].Keys <= b.ceilings[m].Keys
    ensures forall u :: u in l.ceilings[m] ==> l.ceilings[m][u] <= b.ceilings[m][u]
    ensures Total(l.ceilings[m]) <= Total(b.ceilings[m])
  {
    hide Succeeds;
    forall u | u in l.ceilings[m] ensures Source(l, b, m, u) == Some(u) {
      var source := AncestorIn(l, b, m, u);
    }
    forall u | u in l.ceilings[m] ensures u in b.ceilings[m] && l.ceilings[m][u] <= b.ceilings[m][u] {
      var source := AncestorIn(l, b, m, u);
    }
    TotalNeverRises(l, b, m);
  }

  lemma {:induction false} UnmovedHistoryFalls(history: seq<Ledger>, m: string)
    requires Accepted(history) && history != [] && m in MEASURES
    requires forall i :: 0 < i < |history| ==> history[i].moves == []
    ensures var first, last := history[0].ceilings[m], history[|history| - 1].ceilings[m];
            && last.Keys <= first.Keys && (forall u :: u in last ==> last[u] <= first[u])
            && Total(last) <= Total(first)
  {
    hide Succeeds, Total;
    var n := |history| - 1;
    if n > 0 {
      UnmovedStep(history[n], history[n - 1], m);
      UnmovedHistoryFalls(history[..n], m);
    }
  }

  // ---------------------------------------------------------------- measured figures over commits

  /** A commit the tool passed: its ledger, the figures of its tree and the day it ran. */
  datatype Commit = Commit(ledger: Ledger, figures: Figures, today: int)

  ghost predicate Passes(c: Commit) {
    Parsed(c.ledger) && Measured(c.figures) && TreeHolds(c.ledger, c.figures, c.today)
  }

  predicate Plain(c: Commit) {
    c.ledger.moves == [] && c.ledger.exceptions == []
  }

  ghost predicate PassingHistory(commits: seq<Commit>) {
    && (forall i :: 0 <= i < |commits| ==> Passes(commits[i]) && Plain(commits[i]))
    && (forall i :: 0 < i < |commits| ==> Succeeds(commits[i].ledger, commits[i - 1].ledger))
  }

  /** One accepted commit: what is above its threshold now was above it before, by at least as much. */
  lemma MeasuredStep(before: Commit, after: Commit, m: string, u: string)
    requires Passes(before) && Passes(after) && Plain(before) && Plain(after) && Succeeds(after.ledger, before.ledger)
    requires m in MEASURES && Over(after.ledger, after.figures, m, u)
    ensures Over(before.ledger, before.figures, m, u) && after.figures[m][u] <= before.figures[m][u]
  {
    hide Succeeds;
    assert UnitHolds(after.ledger, after.figures, after.today, m, u);
    assert UnitHolds(before.ledger, before.figures, before.today, m, u);
    assert Excepted([], m, u).None?;
    UnmovedStep(after.ledger, before.ledger, m);
  }

  ghost predicate AtLeast(c: Commit, m: string, u: string, figure: int)
    requires Passes(c) && m in MEASURES
  {
    Over(c.ledger, c.figures, m, u) && figure <= c.figures[m][u]
  }

  lemma EarlierHistory(commits: seq<Commit>)
    requires PassingHistory(commits) && commits != []
    ensures PassingHistory(commits[..|commits| - 1])
  {
    hide Succeeds, Passes, Plain;
  }

  /**
    * With no moves and no exceptions, along any history of commits that pass both checks a
    * measured figure above its threshold never rises, and nothing new comes to exceed one.
    */
  lemma {:induction false} MeasuredFiguresNeverRise(commits: seq<Commit>, m: string, u: string)
    requires PassingHistory(commits) && commits != [] && m in MEASURES
    requires var last := commits[|commits| - 1]; Over(last.ledger, last.figures, m, u)
    ensures forall i :: 0 <= i < |commits| ==> AtLeast(commits[i], m, u, commits[|commits| - 1].figures[m][u])
  {
    hide Succeeds, TreeHolds, Plain;
    var n := |commits| - 1;
    if n > 0 {
      EarlierHistory(commits);
      MeasuredStep(commits[n - 1], commits[n], m, u);
      MeasuredFiguresNeverRise(commits[..n], m, u);
      forall i | 0 <= i < n ensures AtLeast(commits[i], m, u, commits[n].figures[m][u]) {
        assert AtLeast(commits[..n][i], m, u, commits[n - 1].figures[m][u]);
      }
    }
  }
}
