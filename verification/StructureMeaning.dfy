/**
  * What each report of the structure budget says about the ledgers and the tree, and what
  * an accepted succession allows, told on their entries.
  */
module StructureMeaning {
  import opened Wrappers
  import opened StructureBudget

  // ---------------------------------------------------------------- first exception, last move

  /** The exception that counts for a unit: the first one recorded for it. */
  ghost predicate Counts(l: Ledger, k: int, m: string, u: string) {
    && 0 <= k < |l.exceptions| && l.exceptions[k].measure == m && l.exceptions[k].unit == u
    && forall j :: 0 <= j < k ==> !(l.exceptions[j].measure == m && l.exceptions[j].unit == u)
  }

  ghost predicate NoException(l: Ledger, m: string, u: string) {
    forall e :: e in l.exceptions ==> !(e.measure == m && e.unit == u)
  }

  /** The move that counts for a unit: the last one recorded to it. */
  ghost predicate MovedLast(l: Ledger, k: int, m: string, u: string) {
    && 0 <= k < |l.moves| && l.moves[k].measure == m && l.moves[k].to == u
    && forall j :: k < j < |l.moves| ==> !(l.moves[j].measure == m && l.moves[j].to == u)
  }

  lemma {:induction false} FirstExcepted(exceptions: seq<Exception>, m: string, u: string) returns (k: int)
    ensures Excepted(exceptions, m, u).None? ==> k == -1
    ensures Excepted(exceptions, m, u).Some? ==>
              && 0 <= k < |exceptions| && exceptions[k] == Excepted(exceptions, m, u).value
              && exceptions[k].measure == m && exceptions[k].unit == u
              && forall j :: 0 <= j < k ==> !(exceptions[j].measure == m && exceptions[j].unit == u)
  {
    k := -1;
    if exceptions != [] {
      if exceptions[0].measure == m && exceptions[0].unit == u {
        k := 0;
      } else {
        var i := FirstExcepted(exceptions[1..], m, u);
        if i >= 0 {
          k := i + 1;
          forall j | 0 <= j < k ensures !(exceptions[j].measure == m && exceptions[j].unit == u) {
            if j > 0 {
              assert exceptions[j] == exceptions[1..][j - 1];
            }
          }
        }
      }
    }
  }

  lemma CountsIsExcepted(l: Ledger, m: string, u: string)
    ensures Excepted(l.exceptions, m, u).None? <==> NoException(l, m, u)
    ensures forall k :: Counts(l, k, m, u) ==> Excepted(l.exceptions, m, u) == Some(l.exceptions[k])
    ensures Excepted(l.exceptions, m, u).Some? ==>
              exists k :: Counts(l, k, m, u) && Excepted(l.exceptions, m, u) == Some(l.exceptions[k])
  {
    hide Excepted;
    var i := FirstExcepted(l.exceptions, m, u);
    if Excepted(l.exceptions, m, u).Some? {
      assert Counts(l, i, m, u);
    }
    forall k | Counts(l, k, m, u) ensures Excepted(l.exceptions, m, u) == Some(l.exceptions[k]) {
      assert l.exceptions[k] in l.exceptions;
      assert k == i;
    }
  }

  lemma {:induction false} LastOrigin(moves: seq<Move>, m: string, u: string) returns (k: int)
    ensures Origin(moves, m, u).None? ==> k == -1
    ensures Origin(moves, m, u).Some? ==>
              && 0 <= k < |moves| && moves[k].from == Origin(moves, m, u).value && moves[k].measure == m && moves[k].to == u
              && forall j :: k < j < |moves| ==> !(moves[j].measure == m && moves[j].to == u)
  {
    k := -1;
    if moves != [] {
      var n := |moves| - 1;
      if moves[n].measure == m && moves[n].to == u {
        k := n;
      } else {
        k := LastOrigin(moves[..n], m, u);
        assert k >= 0 ==> moves[..n][k] == moves[k];
        assert forall j :: 0 <= j < n ==> moves[..n][j] == moves[j];
      }
    }
  }

  // ---------------------------------------------------------------- succession

  /** A figure that was in the baseline, if the unit was, is what a ledger may not exceed. */
  ghost predicate OwnFigureKept(l: Ledger, b: Ledger, m: string, u: string)
    requires Parsed(l) && Parsed(b) && m in MEASURES
  {
    u in l.ceilings[m] && u in b.ceilings[m] ==> l.ceilings[m][u] <= b.ceilings[m][u]
  }

  /** A unit new to the ledger came by its last recorded move, from an entry at least as large. */
  ghost predicate CameByMove(l: Ledger, b: Ledger, m: string, u: string)
    requires Parsed(l) && Parsed(b) && m in MEASURES
  {
    u in l.ceilings[m] && u !in b.ceilings[m] ==>
      exists k :: MovedLast(l, k, m, u) && l.moves[k].from in b.ceilings[m] &&
        l.ceilings[m][u] <= b.ceilings[m][l.moves[k].from]
  }

  lemma EntryAnswersMeans(l: Ledger, b: Ledger, m: string, u: string)
    requires Parsed(l) && Parsed(b) && m in MEASURES && u in l.ceilings[m]
    ensures EntryAnswers(l, b, m, u) <==> OwnFigureKept(l, b, m, u) && CameByMove(l, b, m, u)
  {
    hide Origin;
    var i := LastOrigin(l.moves, m, u);
    if u !in b.ceilings[m] {
      if i >= 0 {
        assert MovedLast(l, i, m, u);
      }
      if k :| MovedLast(l, k, m, u) {
        assert l.moves[k] in l.moves;
        assert k == i;
      }
    }
  }

  /**
    * A ledger is accepted after another exactly when no unit listed in both rose, whatever
    * moves are recorded; every other listed unit was moved there last from a baseline entry
    * no smaller; every move connects such entries; no root went; and thresholds and allowed
    * names grew only under a configuration exception.
    */
  lemma SucceedsMeans(l: Ledger, b: Ledger)
    requires Parsed(l) && Parsed(b)
    ensures Succeeds(l, b) <==>
            && (forall m, u :: m in MEASURES ==> OwnFigureKept(l, b, m, u) && CameByMove(l, b, m, u))
            && (forall move :: move in l.moves ==>
                  move.measure in MEASURES && move.from in b.ceilings[move.measure] && move.to in l.ceilings[move.measure])
            && b.roots <= l.roots
            && (forall m :: m in MEASURES && l.thresholds[m] > b.thresholds[m] ==> !NoException(l, "configuration", m))
            && (forall n :: n in l.allowedPrivate && n !in b.allowedPrivate ==> !NoException(l, "configuration", n))
  {
    hide EntryAnswers, Excepted, OwnFigureKept, CameByMove, NoException;
    forall m, u | m in MEASURES && u in l.ceilings[m]
      ensures EntryAnswers(l, b, m, u) <==> OwnFigureKept(l, b, m, u) && CameByMove(l, b, m, u)
    {
      EntryAnswersMeans(l, b, m, u);
    }
    forall m, u | m in MEASURES && u !in l.ceilings[m] ensures OwnFigureKept(l, b, m, u) && CameByMove(l, b, m, u) {
      UnlistedAnswers(l, b, m, u);
    }
    forall n ensures Excepted(l.exceptions, "configuration", n).None? <==> NoException(l, "configuration", n) {
      CountsIsExcepted(l, "configuration", n);
    }
  }

  lemma UnlistedAnswers(l: Ledger, b: Ledger, m: string, u: string)
    requires Parsed(l) && Parsed(b) && m in MEASURES && u !in l.ceilings[m]
    ensures OwnFigureKept(l, b, m, u) && CameByMove(l, b, m, u)
  {
  }

  /** Each report against the baseline, by its code. */
  lemma BaselineReportMeans(l: Ledger, b: Ledger, v: Violation)
    requires Parsed(l) && Parsed(b)
    ensures BaselineReported(l, b, v) <==>
            || (&& v.code == "new_debt" && v.measure in MEASURES && v.unit in l.ceilings[v.measure] && v.unit !in b.ceilings[v.measure]
                && forall k :: MovedLast(l, k, v.measure, v.unit) ==> l.moves[k].from !in b.ceilings[v.measure])
            || (&& v.code == "raised_ceiling" && v.measure in MEASURES && v.unit in l.ceilings[v.measure]
                && (|| (v.unit in b.ceilings[v.measure] && l.ceilings[v.measure][v.unit] > b.ceilings[v.measure][v.unit])
                    || (v.unit !in b.ceilings[v.measure] &&
                        exists k :: MovedLast(l, k, v.measure, v.unit) && l.moves[k].from in b.ceilings[v.measure] &&
                          l.ceilings[v.measure][v.unit] > b.ceilings[v.measure][l.moves[k].from])))
            || (&& v.code == "stale_move"
                && exists move :: move in l.moves && v.measure == move.measure && v.unit == move.to &&
                     (move.measure !in MEASURES || move.from !in b.ceilings[move.measure] || move.to !in l.ceilings[move.measure]))
            || (v == Violation("roots_removed", "configuration", "roots") && !(b.roots <= l.roots))
            || (&& v.code == "threshold_raised" && v.measure == "configuration" && v.unit in MEASURES
                && l.thresholds[v.unit] > b.thresholds[v.unit] && NoException(l, "configuration", v.unit))
            || (&& v.code == "allowed_list_grown" && v.measure == "configuration"
                && v.unit in l.allowedPrivate && v.unit !in b.allowedPrivate && NoException(l, "configuration", v.unit))
  {
    hide Origin, Excepted, NoException;
    CountsIsExcepted(l, "configuration", v.unit);
    var i := LastOrigin(l.moves, v.measure, v.unit);
    forall k | MovedLast(l, k, v.measure, v.unit) ensures k == i {
      assert l.moves[k] in l.moves;
    }
    if i >= 0 {
      assert MovedLast(l, i, v.measure, v.unit);
    }
    hide MovedLast;
    assert MoveReported(l, b, v) <==>
           && v.code == "stale_move"
           && exists move :: move in l.moves && v.measure == move.measure && v.unit == move.to &&
                (move.measure !in MEASURES || move.from !in b.ceilings[move.measure] || move.to !in l.ceilings[move.measure]);
  }

  // ---------------------------------------------------------------- the tree

  ghost predicate Above(l: Ledger, f: Figures, m: string, u: string)
    requires Parsed(l) && Measured(f) && m in MEASURES
  {
    u in f[m] && f[m][u] > l.thresholds[m]
  }

  /** A configuration allowance that has run out, is exceeded, or allows what is not there. */
  ghost predicate AllowanceFails(l: Ledger, e: Exception, today: int, code: string) {
    if today > e.reviewBy then code == "exception_expired"
    else if e.unit in l.thresholds then code == "above_ceiling" && l.thresholds[e.unit] > e.allowed
    else code == "exception_unused" && e.unit !in l.allowedPrivate
  }

  /** Each report on a tree, by its code. */
  lemma TreeReportMeans(l: Ledger, f: Figures, today: int, v: Violation)
    requires Parsed(l) && Measured(f)
    ensures TreeReported(l, f, today, v) <==>
            || (&& v.measure in MEASURES && Above(l, f, v.measure, v.unit) && NoException(l, v.measure, v.unit)
                && (|| (v.code == "over_threshold_unlisted" && v.unit !in l.ceilings[v.measure])
                    || (v.code == "above_ceiling" && v.unit in l.ceilings[v.measure] && f[v.measure][v.unit] > l.ceilings[v.measure][v.unit])
                    || (v.code == "stale_ceiling" && v.unit in l.ceilings[v.measure] && f[v.measure][v.unit] < l.ceilings[v.measure][v.unit])))
            || (&& v.measure in MEASURES && Above(l, f, v.measure, v.unit)
                && exists k :: Counts(l, k, v.measure, v.unit) &&
                     (|| (v.code == "exception_expired" && l.exceptions[k].reviewBy < today)
                      || (v.code == "above_ceiling" && l.exceptions[k].reviewBy >= today && f[v.measure][v.unit] > l.exceptions[k].allowed)))
            || (&& v.measure in MEASURES && !Above(l, f, v.measure, v.unit)
                && (|| (v.code == "stale_entry" && v.unit in l.ceilings[v.measure])
                    || (v.code == "exception_unused" && !NoException(l, v.measure, v.unit))))
            || (&& v.measure == "configuration"
                && exists e :: e in l.exceptions && e.measure == "configuration" && e.unit == v.unit && AllowanceFails(l, e, today, v.code))
  {
    hide Excepted, NoException, Counts;
    CountsIsExcepted(l, v.measure, v.unit);
    AllowanceReportMeans(l, today, v);
  }

  lemma AllowanceReportMeans(l: Ledger, today: int, v: Violation)
    ensures AllowanceReported(l, today, v) <==>
            && v.measure == "configuration"
            && exists e :: e in l.exceptions && e.measure == "configuration" && e.unit == v.unit && AllowanceFails(l, e, today, v.code)
  {
    forall e ensures CheckAllowance(l, e, today) == Some(v) <==>
                     v.measure == "configuration" && e.unit == v.unit && AllowanceFails(l, e, today, v.code) {
    }
  }

  /** What the updater writes: the measured units above their threshold that no exception covers, with their figures. */
  lemma UpdatedMeans(l: Ledger, f: Figures, m: string, u: string)
    requires Parsed(l) && Measured(f) && m in MEASURES
    ensures var l' := WithMeasuredCeilings(l, f);
            && (u in l'.ceilings[m] <==> Above(l, f, m, u) && NoException(l, m, u))
            && (u in l'.ceilings[m] ==> l'.ceilings[m][u] == f[m][u])
            && l'.(ceilings := l.ceilings) == l
  {
    hide Excepted, NoException;
    CountsIsExcepted(l, m, u);
  }
}
