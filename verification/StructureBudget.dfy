/**
  * The structure-budget ratchet: a ledger of recorded figures, the check of a tree
  * against it, the check of a ledger against its predecessor, and the updater. What the
  * two checks together mean for a whole history of commits is in `StructureHistory`.
  */
module StructureBudget {
  import opened Wrappers

  const CONFIGURATION := "configuration"
  const MEASURES := [
    "constructor_parameters", "init_attributes", "init_constructions", "function_body_lines",
    "function_branches", "module_internal_imports", "private_access"]

  /** An accepted unit above its threshold; dates are day numbers. */
  datatype Exception = Exception(unit: string, measure: string, allowed: int, reviewBy: int)

  datatype Move = Move(from: string, to: string, measure: string)

  datatype Ledger = Ledger(
    roots: set<string>, thresholds: map<string, nat>, allowedPrivate: set<string>,
    ceilings: map<string, map<string, nat>>, moves: seq<Move>, exceptions: seq<Exception>)

  type Figures = map<string, map<string, int>>

  datatype Violation = Violation(code: string, measure: string, unit: string)

  /** What parsing a ledger establishes. */
  predicate Parsed(l: Ledger) {
    && l.thresholds.Keys == (set m | m in MEASURES) == l.ceilings.Keys
    && forall e :: e in l.exceptions ==> e.measure == CONFIGURATION || e.measure in MEASURES
  }

  predicate Measured(f: Figures) {
    f.Keys == set m | m in MEASURES
  }

  /** The first exception recorded for a unit under a measure. */
  function Excepted(exceptions: seq<Exception>, measure: string, unit: string): (r: Option<Exception>)
    ensures r.None? <==> forall e :: e in exceptions ==> !(e.measure == measure && e.unit == unit)
    ensures r.Some? ==> r.value in exceptions && r.value.measure == measure && r.value.unit == unit
  {
    if exceptions == [] then None
    else if exceptions[0].measure == measure && exceptions[0].unit == unit then Some(exceptions[0])
    else Excepted(exceptions[1..], measure, unit)
  }

  // ---------------------------------------------------------------- a tree against its ledger

  predicate Over(l: Ledger, f: Figures, m: string, u: string)
    requires Parsed(l) && Measured(f) && m in MEASURES
  {
    u in f[m] && f[m][u] > l.thresholds[m]
  }

  function CheckUnit(l: Ledger, m: string, u: string, figure: int, today: int): (r: Option<Violation>)
    requires Parsed(l) && m in MEASURES
  {
    var e := Excepted(l.exceptions, m, u);
    if e.Some? then
      if e.value.reviewBy < today then Some(Violation("exception_expired", m, u))
      else if figure > e.value.allowed then Some(Violation("above_ceiling", m, u))
      else None
    else if u !in l.ceilings[m] then Some(Violation("over_threshold_unlisted", m, u))
    else if figure > l.ceilings[m][u] then Some(Violation("above_ceiling", m, u))
    else if figure < l.ceilings[m][u] then Some(Violation("stale_ceiling", m, u))
    else None
  }

  predicate UnitReported(l: Ledger, f: Figures, today: int, v: Violation)
    requires Parsed(l) && Measured(f)
  {
    && v.measure in MEASURES
    && (if Over(l, f, v.measure, v.unit) then CheckUnit(l, v.measure, v.unit, f[v.measure][v.unit], today) == Some(v)
        else v.unit in l.ceilings[v.measure] && v.code == "stale_entry")
  }

  predicate UnusedReported(l: Ledger, f: Figures, v: Violation)
    requires Parsed(l) && Measured(f)
  {
    && v.code == "exception_unused" && v.measure in MEASURES
    && Excepted(l.exceptions, v.measure, v.unit).Some? && !Over(l, f, v.measure, v.unit)
  }

  /** The verdict on one standing configuration allowance. */
  function CheckAllowance(l: Ledger, e: Exception, today: int): Option<Violation> {
    if e.reviewBy < today then Some(Violation("exception_expired", CONFIGURATION, e.unit))
    else if e.unit in l.thresholds then
      if l.thresholds[e.unit] > e.allowed then Some(Violation("above_ceiling", CONFIGURATION, e.unit)) else None
    else if e.unit !in l.allowedPrivate then Some(Violation("exception_unused", CONFIGURATION, e.unit))
    else None
  }

  predicate AllowanceReported(l: Ledger, today: int, v: Violation) {
    exists e :: e in l.exceptions && e.measure == CONFIGURATION && CheckAllowance(l, e, today) == Some(v)
  }

  /** Every violation `check_tree` lists, and no other. */
  predicate TreeReported(l: Ledger, f: Figures, today: int, v: Violation)
    requires Parsed(l) && Measured(f)
  {
    UnitReported(l, f, today, v) || UnusedReported(l, f, v) || AllowanceReported(l, today, v)
  }

  method CheckMeasure(l: Ledger, f: Figures, m: string, today: int) returns (found: seq<Violation>)
    requires Parsed(l) && Measured(f) && m in MEASURES
    ensures forall v :: v in found <==> v.measure == m && UnitReported(l, f, today, v)
  {
    hide CheckUnit;
    found := [];
    var over := set u | u in f[m] && f[m][u] > l.thresholds[m];
    var left := over;
    while left != {}
      invariant left <= over
      invariant forall v :: v in found <==> v.measure == m && v.unit in over - left && UnitReported(l, f, today, v)
      decreases left
    {
      var u :| u in left;
      var violation := CheckUnit(l, m, u, f[m][u], today);
      NamesUnit(l, m, u, f[m][u], today);
      if violation.Some? {
        found := found + [violation.value];
      }
      left := left - {u};
    }
    var stale := l.ceilings[m].Keys - over;
    left := stale;
    while left != {}
      invariant left <= stale
      invariant forall v :: v in found <==> v.measure == m && v.unit !in left && UnitReported(l, f, today, v)
      decreases left
    {
      var u :| u in left;
      found := found + [Violation("stale_entry", m, u)];
      left := left - {u};
    }
  }

  lemma NamesUnit(l: Ledger, m: string, u: string, figure: int, today: int)
    requires Parsed(l) && m in MEASURES
    ensures var r := CheckUnit(l, m, u, figure, today); r.Some? ==> r.value.measure == m && r.value.unit == u
  {
  }

  /** What one exception is reported for. */
  function CheckException(l: Ledger, f: Figures, today: int, e: Exception): Option<Violation>
    requires Parsed(l) && Measured(f) && e in l.exceptions
  {
    if e.measure == CONFIGURATION then CheckAllowance(l, e, today)
    else if !Over(l, f, e.measure, e.unit) then Some(Violation("exception_unused", e.measure, e.unit))
    else None
  }

  predicate ReportedFor(l: Ledger, f: Figures, today: int, e: Exception, v: Violation)
    requires Parsed(l) && Measured(f) && e in l.exceptions
  {
    CheckException(l, f, today, e) == Some(v)
  }

  method CheckExceptions(l: Ledger, f: Figures, today: int) returns (found: seq<Violation>)
    requires Parsed(l) && Measured(f)
    ensures forall v :: v in found <==> UnusedReported(l, f, v) || AllowanceReported(l, today, v)
  {
    hide Parsed, Measured, CheckException, AllowanceReported, UnusedReported;
    found := [];
    for i := 0 to |l.exceptions|
      invariant forall v :: v in found ==> exists e :: e in l.exceptions[..i] && ReportedFor(l, f, today, e, v)
      invariant forall e, v :: e in l.exceptions[..i] && ReportedFor(l, f, today, e, v) ==> v in found
    {
      var e := l.exceptions[i];
      assert forall x :: x in l.exceptions[..i + 1] <==> x in l.exceptions[..i] || x == e;
      var violation := CheckException(l, f, today, e);
      if violation.Some? {
        assert ReportedFor(l, f, today, e, violation.value);
        found := found + [violation.value];
      }
    }
    assert l.exceptions[..|l.exceptions|] == l.exceptions;
    forall v ensures v in found <==> UnusedReported(l, f, v) || AllowanceReported(l, today, v) {
      ReportedEither(l, f, today, v);
    }
  }

  lemma ReportedEither(l: Ledger, f: Figures, today: int, v: Violation)
    requires Parsed(l) && Measured(f)
    ensures (exists e :: e in l.exceptions && ReportedFor(l, f, today, e, v)) <==>
            UnusedReported(l, f, v) || AllowanceReported(l, today, v)
  {
    hide CheckAllowance;
    assert CONFIGURATION !in MEASURES;
    if UnusedReported(l, f, v) {
      var e := Excepted(l.exceptions, v.measure, v.unit).value;
      assert ReportedFor(l, f, today, e, v);
    }
  }

  /** The check of a tree; the order of the report is not modelled. */
  method CheckTree(l: Ledger, f: Figures, today: int) returns (found: seq<Violation>)
    requires Parsed(l) && Measured(f)
    ensures forall v :: v in found <==> TreeReported(l, f, today, v)
    ensures found == [] <==> TreeHolds(l, f, today)
  {
    hide UnitReported, UnusedReported, AllowanceReported, Parsed, Measured, TreeHolds;
    found := [];
    for i := 0 to |MEASURES|
      invariant forall v :: v in found <==> v.measure in MEASURES[..i] && UnitReported(l, f, today, v)
    {
      var more := CheckMeasure(l, f, MEASURES[i], today);
      found := found + more;
      assert forall m :: m in MEASURES[..i + 1] <==> m in MEASURES[..i] || m == MEASURES[i];
    }
    assert MEASURES[..|MEASURES|] == MEASURES;
    var exceptional := CheckExceptions(l, f, today);
    OnlyMeasures(l, f, today);
    found := found + exceptional;
    SilentIffHolds(l, f, today);
    assert found != [] ==> found[0] in found;
  }

  lemma OnlyMeasures(l: Ledger, f: Figures, today: int)
    requires Parsed(l) && Measured(f)
    ensures forall v :: UnitReported(l, f, today, v) ==> v.measure in MEASURES
  {
    hide CheckUnit;
  }

  // ---------------------------------------------------------------- what a silent check means

  /** A unit without an exception is listed iff it is over, with its exact figure; an excepted one stays within its terms. */
  ghost predicate UnitHolds(l: Ledger, f: Figures, today: int, m: string, u: string)
    requires Parsed(l) && Measured(f) && m in MEASURES
  {
    var e := Excepted(l.exceptions, m, u);
    if e.None? then (u in l.ceilings[m] <==> Over(l, f, m, u)) && (u in l.ceilings[m] ==> f[m][u] == l.ceilings[m][u])
    else Over(l, f, m, u) && e.value.reviewBy >= today && f[m][u] <= e.value.allowed
  }

  predicate AllowanceHolds(l: Ledger, e: Exception, today: int) {
    && e.reviewBy >= today
    && if e.unit in l.thresholds then l.thresholds[e.unit] <= e.allowed else e.unit in l.allowedPrivate
  }

  /** The ledger describes the tree exactly. */
  ghost predicate TreeHolds(l: Ledger, f: Figures, today: int)
    requires Parsed(l) && Measured(f)
  {
    && (forall m, u :: m in MEASURES ==> UnitHolds(l, f, today, m, u))
    && (forall e :: e in l.exceptions && e.measure == CONFIGURATION ==> AllowanceHolds(l, e, today))
  }

  lemma UnitFault(l: Ledger, f: Figures, today: int, m: string, u: string) returns (v: Violation)
    requires Parsed(l) && Measured(f) && m in MEASURES && !UnitHolds(l, f, today, m, u)
    ensures TreeReported(l, f, today, v)
  {
    if Over(l, f, m, u) {
      v := CheckUnit(l, m, u, f[m][u], today).value;
    } else if Excepted(l.exceptions, m, u).Some? {
      v := Violation("exception_unused", m, u);
    } else {
      v := Violation("stale_entry", m, u);
    }
  }

  lemma HoldsSilent(l: Ledger, f: Figures, today: int)
    requires Parsed(l) && Measured(f) && TreeHolds(l, f, today)
    ensures forall v :: !TreeReported(l, f, today, v)
  {
    forall v ensures !TreeReported(l, f, today, v) {
      if v.measure in MEASURES {
        assert UnitHolds(l, f, today, v.measure, v.unit);
      }
    }
  }

  /**
    * Nothing is reported exactly when every unit without an exception is listed iff it
    * exceeds its threshold, and with its exact figure, and every exception is needed,
    * in date and kept to.
    */
  lemma SilentIffHolds(l: Ledger, f: Figures, today: int)
    requires Parsed(l) && Measured(f)
    ensures (forall v :: !TreeReported(l, f, today, v)) <==> TreeHolds(l, f, today)
  {
    hide Parsed, Measured, UnitHolds, AllowanceHolds, UnitReported, UnusedReported;
    if TreeHolds(l, f, today) {
      HoldsSilent(l, f, today);
    } else if m, u :| m in MEASURES && !UnitHolds(l, f, today, m, u) {
      var v := UnitFault(l, f, today, m, u);
    } else {
      var e :| e in l.exceptions && e.measure == CONFIGURATION && !AllowanceHolds(l, e, today);
      AllowanceFault(l, e, today);
      assert TreeReported(l, f, today, CheckAllowance(l, e, today).value);
    }
  }

  lemma AllowanceFault(l: Ledger, e: Exception, today: int)
    requires !AllowanceHolds(l, e, today)
    ensures CheckAllowance(l, e, today).Some?
  {
  }

  // ---------------------------------------------------------------- a ledger against its predecessor

  /** Where a unit's figure came from by a recorded move: the last one recorded wins. */
  function Origin(moves: seq<Move>, m: string, u: string): (r: Option<string>)
    ensures r.None? <==> forall v :: v in moves ==> !(v.measure == m && v.to == u)
  {
    if moves == [] then None
    else
      var last := moves[|moves| - 1];
      assert moves == moves[..|moves| - 1] + [last];
      if last.measure == m && last.to == u then Some(last.from) else Origin(moves[..|moves| - 1], m, u)
  }

  /** The baseline entry a listed unit answers to: itself, or the origin of its move. */
  function Source(l: Ledger, b: Ledger, m: string, u: string): Option<string>
    requires Parsed(b) && m in MEASURES
  {
    if u in b.ceilings[m] then Some(u)
    else
      var o := Origin(l.moves, m, u);
      if o.Some? && o.value in b.ceilings[m] then o else None
  }

  predicate DebtReported(l: Ledger, b: Ledger, v: Violation)
    requires Parsed(l) && Parsed(b)
  {
    && v.measure in MEASURES && v.unit in l.ceilings[v.measure]
    && match Source(l, b, v.measure, v.unit)
       case None => v.code == "new_debt"
       case Some(source) =>
         v.code == "raised_ceiling" && l.ceilings[v.measure][v.unit] > b.ceilings[v.measure][source]
  }

  predicate Connects(l: Ledger, b: Ledger, move: Move)
    requires Parsed(l) && Parsed(b)
  {
    move.measure in MEASURES && move.from in b.ceilings[move.measure] && move.to in l.ceilings[move.measure]
  }

  predicate MoveReported(l: Ledger, b: Ledger, v: Violation)
    requires Parsed(l) && Parsed(b)
  {
    exists move :: move in l.moves && !Connects(l, b, move) && v == Violation("stale_move", move.measure, move.to)
  }

  predicate ConfigurationReported(l: Ledger, b: Ledger, v: Violation)
    requires Parsed(l) && Parsed(b)
  {
    && v.measure == CONFIGURATION
    && (|| (v.code == "roots_removed" && v.unit == "roots" && !(b.roots <= l.roots))
        || (&& v.code == "threshold_raised" && v.unit in MEASURES && l.thresholds[v.unit] > b.thresholds[v.unit]
            && Excepted(l.exceptions, CONFIGURATION, v.unit).None?)
        || (&& v.code == "allowed_list_grown" && v.unit in l.allowedPrivate - b.allowedPrivate
            && Excepted(l.exceptions, CONFIGURATION, v.unit).None?))
  }

  predicate BaselineReported(l: Ledger, b: Ledger, v: Violation)
    requires Parsed(l) && Parsed(b)
  {
    ConfigurationReported(l, b, v) || DebtReported(l, b, v) || MoveReported(l, b, v)
  }

  method CheckConfiguration(l: Ledger, b: Ledger) returns (found: seq<Violation>)
    requires Parsed(l) && Parsed(b)
    ensures forall v :: v in found <==> ConfigurationReported(l, b, v)
  {
    hide Parsed, Excepted;
    found := if b.roots <= l.roots then [] else [Violation("roots_removed", CONFIGURATION, "roots")];
    ghost var first := found;
    ThresholdsKnown(l, b);
    for i := 0 to |MEASURES|
      invariant forall v :: v in found <==>
        || v in first
        || (&& v.measure == CONFIGURATION && v.code == "threshold_raised" && v.unit in MEASURES[..i]
            && l.thresholds[v.unit] > b.thresholds[v.unit]
            && Excepted(l.exceptions, CONFIGURATION, v.unit).None?)
    {
      var m := MEASURES[i];
      assert forall x :: x in MEASURES[..i + 1] <==> x in MEASURES[..i] || x == m;
      if l.thresholds[m] > b.thresholds[m] && Excepted(l.exceptions, CONFIGURATION, m).None? {
        found := found + [Violation("threshold_raised", CONFIGURATION, m)];
      }
    }
    assert MEASURES[..|MEASURES|] == MEASURES;
    ghost var second := found;
    var grown := l.allowedPrivate - b.allowedPrivate;
    var left := grown;
    while left != {}
      invariant left <= grown
      invariant forall v :: v in found <==>
        || v in second
        || (&& v.measure == CONFIGURATION && v.code == "allowed_list_grown" && v.unit in grown - left
            && Excepted(l.exceptions, CONFIGURATION, v.unit).None?)
      decreases left
    {
      var name :| name in left;
      if Excepted(l.exceptions, CONFIGURATION, name).None? {
        found := found + [Violation("allowed_list_grown", CONFIGURATION, name)];
      }
      left := left - {name};
    }
  }

  lemma ThresholdsKnown(l: Ledger, b: Ledger)
    requires Parsed(l) && Parsed(b)
    ensures forall m :: m in MEASURES ==> m in l.thresholds && m in b.thresholds
  {
  }

  method CheckCeilings(l: Ledger, b: Ledger, m: string) returns (found: seq<Violation>)
    requires Parsed(l) && Parsed(b) && m in MEASURES
    ensures forall v :: v in found <==> v.measure == m && DebtReported(l, b, v)
  {
    hide Source;
    found := [];
    var left := l.ceilings[m].Keys;
    while left != {}
      invariant left <= l.ceilings[m].Keys
      invariant forall v :: v in found <==> v.measure == m && v.unit !in left && DebtReported(l, b, v)
      decreases left
    {
      var u :| u in left;
      SourceIsListed(l, b, m, u);
      match Source(l, b, m, u) {
        case None => found := found + [Violation("new_debt", m, u)];
        case Some(source) =>
          if l.ceilings[m][u] > b.ceilings[m][source] {
            found := found + [Violation("raised_ceiling", m, u)];
          }
      }
      left := left - {u};
    }
  }

  lemma SourceIsListed(l: Ledger, b: Ledger, m: string, u: string)
    requires Parsed(b) && m in MEASURES
    ensures Source(l, b, m, u).Some? ==> Source(l, b, m, u).value in b.ceilings[m]
  {
  }

  method CheckMoves(l: Ledger, b: Ledger) returns (found: seq<Violation>)
    requires Parsed(l) && Parsed(b)
    ensures forall v :: v in found <==> MoveReported(l, b, v)
  {
    hide Connects, Parsed;
    found := [];
    for i := 0 to |l.moves|
      invariant forall v :: v in found ==>
        exists move :: move in l.moves[..i] && !Connects(l, b, move) && v == Violation("stale_move", move.measure, move.to)
      invariant forall move :: move in l.moves[..i] && !Connects(l, b, move) ==>
        Violation("stale_move", move.measure, move.to) in found
    {
      var move := l.moves[i];
      assert forall x :: x in l.moves[..i + 1] <==> x in l.moves[..i] || x == move;
      if !Connects(l, b, move) {
        found := found + [Violation("stale_move", move.measure, move.to)];
      }
    }
    assert l.moves[..|l.moves|] == l.moves;
  }

  method CheckBaseline(l: Ledger, b: Ledger) returns (found: seq<Violation>)
    requires Parsed(l) && Parsed(b)
    ensures forall v :: v in found <==> BaselineReported(l, b, v)
    ensures found == [] <==> Succeeds(l, b)
  {
    hide DebtReported, MoveReported, ConfigurationReported, Succeeds, Parsed;
    found := CheckConfiguration(l, b);
    ghost var first := found;
    for i := 0 to |MEASURES|
      invariant forall v :: v in found <==> v in first || (v.measure in MEASURES[..i] && DebtReported(l, b, v))
    {
      var more := CheckCeilings(l, b, MEASURES[i]);
      found := found + more;
      assert forall m :: m in MEASURES[..i + 1] <==> m in MEASURES[..i] || m == MEASURES[i];
    }
    assert MEASURES[..|MEASURES|] == MEASURES;
    DebtNamesMeasures(l, b);
    var moved := CheckMoves(l, b);
    found := found + moved;
    QuietIffSucceeds(l, b);
    assert found != [] ==> found[0] in found;
  }

  lemma DebtNamesMeasures(l: Ledger, b: Ledger)
    requires Parsed(l) && Parsed(b)
    ensures forall v :: DebtReported(l, b, v) ==> v.measure in MEASURES
  {
    hide Source;
  }

  ghost predicate EntryAnswers(l: Ledger, b: Ledger, m: string, u: string)
    requires Parsed(l) && Parsed(b) && m in MEASURES && u in l.ceilings[m]
  {
    var source := Source(l, b, m, u);
    source.Some? && source.value in b.ceilings[m] && l.ceilings[m][u] <= b.ceilings[m][source.value]
  }

  ghost predicate ConfigurationKept(l: Ledger, b: Ledger)
    requires Parsed(l) && Parsed(b)
  {
    && b.roots <= l.roots
    && (forall m :: m in MEASURES && Excepted(l.exceptions, CONFIGURATION, m).None? ==> l.thresholds[m] <= b.thresholds[m])
    && (forall n :: n in l.allowedPrivate && Excepted(l.exceptions, CONFIGURATION, n).None? ==> n in b.allowedPrivate)
  }

  /** The ledger is an accepted successor of the baseline. */
  ghost predicate Succeeds(l: Ledger, b: Ledger)
    requires Parsed(l) && Parsed(b)
  {
    && (forall m, u :: m in MEASURES && u in l.ceilings[m] ==> EntryAnswers(l, b, m, u))
    && (forall move :: move in l.moves ==> Connects(l, b, move))
    && ConfigurationKept(l, b)
  }

  lemma EntryFault(l: Ledger, b: Ledger, m: string, u: string) returns (v: Violation)
    requires Parsed(l) && Parsed(b) && m in MEASURES && u in l.ceilings[m] && !EntryAnswers(l, b, m, u)
    ensures BaselineReported(l, b, v)
  {
    hide Source;
    SourceIsListed(l, b, m, u);
    v := Violation(if Source(l, b, m, u).None? then "new_debt" else "raised_ceiling", m, u);
    assert DebtReported(l, b, v);
  }

  lemma MoveFault(l: Ledger, b: Ledger, move: Move)
    requires Parsed(l) && Parsed(b) && move in l.moves && !Connects(l, b, move)
    ensures BaselineReported(l, b, Violation("stale_move", move.measure, move.to))
  {
    hide Connects;
    assert MoveReported(l, b, Violation("stale_move", move.measure, move.to));
  }

  /** Nothing is reported against the baseline exactly when every entry answers to one no smaller. */
  lemma QuietIffSucceeds(l: Ledger, b: Ledger)
    requires Parsed(l) && Parsed(b)
    ensures (forall v :: !BaselineReported(l, b, v)) <==> Succeeds(l, b)
  {
    hide BaselineReported, EntryAnswers, Connects, ConfigurationKept;
    if !ConfigurationKept(l, b) {
      var v := ConfigurationFault(l, b);
    } else if m, u :| m in MEASURES && u in l.ceilings[m] && !EntryAnswers(l, b, m, u) {
      var v := EntryFault(l, b, m, u);
    } else if move :| move in l.moves && !Connects(l, b, move) {
      MoveFault(l, b, move);
    } else {
      SuccessionIsQuiet(l, b);
    }
  }

  lemma ConfigurationFault(l: Ledger, b: Ledger) returns (v: Violation)
    requires Parsed(l) && Parsed(b) && !ConfigurationKept(l, b)
    ensures BaselineReported(l, b, v)
  {
    hide Excepted;
    if !(b.roots <= l.roots) {
      v := Violation("roots_removed", CONFIGURATION, "roots");
    } else if m :| m in MEASURES && Excepted(l.exceptions, CONFIGURATION, m).None? && l.thresholds[m] > b.thresholds[m] {
      v := Violation("threshold_raised", CONFIGURATION, m);
    } else {
      var n :| n in l.allowedPrivate && Excepted(l.exceptions, CONFIGURATION, n).None? && n !in b.allowedPrivate;
      v := Violation("allowed_list_grown", CONFIGURATION, n);
    }
  }

  lemma SuccessionIsQuiet(l: Ledger, b: Ledger)
    requires Parsed(l) && Parsed(b) && Succeeds(l, b)
    ensures forall v :: !BaselineReported(l, b, v)
  {
    hide Source, Excepted, Connects;
    forall v ensures !DebtReported(l, b, v) {
      if v.measure in MEASURES && v.unit in l.ceilings[v.measure] {
        assert EntryAnswers(l, b, v.measure, v.unit);
      }
    }
  }

  // ---------------------------------------------------------------- the updater

  /** What is measured above its threshold and not excepted. */
  function MeasuredCeilings(thresholds: map<string, nat>, exceptions: seq<Exception>, f: Figures): map<string, map<string, nat>>
    requires Measured(f) && thresholds.Keys == f.Keys
  {
    map m | m in MEASURES ::
      map u | u in f[m] && f[m][u] > thresholds[m] && Excepted(exceptions, m, u).None? :: f[m][u]
  }

  /** The ledger with its ceilings replaced by what is measured. */
  function WithMeasuredCeilings(l: Ledger, f: Figures): (updated: Ledger)
    requires Parsed(l) && Measured(f)
    ensures Parsed(updated)
  {
    l.(ceilings := MeasuredCeilings(l.thresholds, l.exceptions, f))
  }

  /**
    * After an update only exceptions can still be reported: what remains is what the check
    * says of excepted units and configuration allowances, whatever the old ceilings were.
    */
  lemma UpdateLeavesOnlyExceptions(l: Ledger, f: Figures, today: int, v: Violation)
    requires Parsed(l) && Measured(f)
    ensures var l' := WithMeasuredCeilings(l, f);
            && (TreeReported(l', f, today, v) <==>
                  || (v.measure in MEASURES && Excepted(l.exceptions, v.measure, v.unit).Some? && UnitReported(l', f, today, v))
                  || UnusedReported(l, f, v) || AllowanceReported(l, today, v))
            && (v.measure in MEASURES && Excepted(l.exceptions, v.measure, v.unit).Some? && UnitReported(l', f, today, v) ==>
                  v.code == "exception_expired" || v.code == "above_ceiling")
  {
    hide Excepted;
  }

  /** Without exceptions an updated ledger holds of its tree at once, and a second update changes nothing. */
  lemma UpdateSettles(l: Ledger, f: Figures, today: int)
    requires Parsed(l) && Measured(f)
    ensures WithMeasuredCeilings(WithMeasuredCeilings(l, f), f) == WithMeasuredCeilings(l, f)
    ensures l.exceptions == [] ==> TreeHolds(WithMeasuredCeilings(l, f), f, today)
  {
    hide Excepted;
    if l.exceptions == [] {
      forall m, u | m in MEASURES ensures UnitHolds(WithMeasuredCeilings(l, f), f, today, m, u) {
        assert Excepted(l.exceptions, m, u).None?;
      }
    }
  }
}
