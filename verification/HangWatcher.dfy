/**
  * The hang watcher: a looping watcher thread and the test thread's hooks, over one
  * lock, one wake flag and the monotonic clock. Each lock section, each clock reading
  * and each set, clear or wait of an event is one atomic move; moves interleave freely.
  */
module HangWatcher {
  import opened Wrappers

  /** One armed test. `id` is the object's identity: re-arming a node makes a new arm. */
  datatype Arm = Arm(id: nat, nodeid: string, deadline: real, stopped: bool, reported: bool)

  /** Where the watcher's loop stands; a location holds what the loop's locals hold there. */
  datatype Watcher =
    | AtClear
    | AtClock
    | AtAction(now: real)
    | AtWrite(nodeid: string)
    | AtSecondClock
    | AtSeconds(now: real)
    | AtWait(arm: Option<nat>, timeout: Option<real>, now: real)
    | Blocked(arm: Option<nat>, until: Option<real>, now: real, since: real)
    | Halted

  /** Where the test thread stands: between hooks, or before the `_pause.set()` of one. */
  datatype Main = Free | Arming | Stopping

  datatype Report = Report(id: nat, nodeid: string, at: real)

  datatype World = World(
    clock: real, pause: bool, stop: bool, arm: Option<Arm>, nextId: nat,
    watcher: Watcher, main: Main, decided: seq<Report>, written: seq<string>)

  datatype Move =
    | Tick(span: real)
    | ArmTest(nodeid: string, limit: real, read: real)
    | Finish(nodeid: string)
    | RequestStop
    | Wake
    | Watch

  const REPORT_GRACE := 0.5

  const START := World(0.0, false, false, None, 0, AtClear, Free, [], [])

  predicate Live(arm: Option<Arm>) {
    arm.Some? && !arm.value.stopped && !arm.value.reported
  }

  function AtLeastZero(x: real): real {
    if x < 0.0 then 0.0 else x
  }

  /** `_take_action`, under the lock: halt, report, or go on to wait. */
  function TakeAction(w: World, now: real): World {
    if w.stop then w.(watcher := Halted)
    else if !Live(w.arm) || now < w.arm.value.deadline then w.(watcher := AtSecondClock)
    else
      var a := w.arm.value;
      w.(arm := Some(a.(reported := true)), watcher := AtWrite(a.nodeid), decided := w.decided + [Report(a.id, a.nodeid, now)])
  }

  /** `_wait_seconds`, under the lock: how long the watcher may block, and for which arm. */
  function WaitSeconds(w: World, now: real): World {
    if !Live(w.arm) then w.(watcher := AtWait(None, None, now))
    else w.(watcher := AtWait(Some(w.arm.value.id), Some(AtLeastZero(w.arm.value.deadline - now)), now))
  }

  /** One atomic step of the watcher's loop; a blocked watcher moves only when woken or timed out. */
  function WatchStep(w: World): World {
    match w.watcher
    case AtClear => w.(pause := false, watcher := AtClock)
    case AtClock => w.(watcher := AtAction(w.clock))
    case AtAction(now) => TakeAction(w, now)
    case AtWrite(nodeid) => w.(written := w.written + [nodeid], watcher := AtClear)
    case AtSecondClock => w.(watcher := AtSeconds(w.clock))
    case AtSeconds(now) => WaitSeconds(w, now)
    case AtWait(arm, timeout, now) =>
      if w.pause then w.(watcher := AtClear)
      else w.(watcher := Blocked(arm, if timeout.Some? then Some(w.clock + timeout.value) else None, now, w.clock))
    case Blocked(_, until, _, _) =>
      if w.pause || (until.Some? && w.clock >= until.value) then w.(watcher := AtClear) else w
    case Halted => w
  }

  /** One move of the whole system; a move that is not possible changes nothing. */
  function Do(w: World, move: Move): World {
    match move
    case Tick(span) => if span < 0.0 then w else w.(clock := w.clock + span)
    case ArmTest(nodeid, limit, read) =>
      if !w.main.Free? || limit <= 0.0 || read > w.clock then w
      else w.(arm := Some(Arm(w.nextId, nodeid, read + limit + REPORT_GRACE, false, false)),
              nextId := w.nextId + 1, main := Arming)
    case Finish(nodeid) =>
      if w.main.Free? && w.arm.Some? && w.arm.value.nodeid == nodeid
      then w.(arm := Some(w.arm.value.(stopped := true))) else w
    case RequestStop => if w.main.Free? then w.(stop := true, main := Stopping) else w
    case Wake => if w.main.Free? then w else w.(pause := true, main := Free)
    case Watch => WatchStep(w)
  }

  function Run(w: World, moves: seq<Move>): World
    decreases moves
  {
    if moves == [] then w else Run(Do(w, moves[0]), moves[1..])
  }

  // ---------------------------------------------------------------- the invariant

  /** A wake-up is on its way, or already there. */
  predicate WakeComing(w: World) {
    w.pause || !w.main.Free?
  }

  ghost predicate DecidedOnce(w: World) {
    && (forall i, j :: 0 <= i < j < |w.decided| ==> w.decided[i].id != w.decided[j].id)
    && (forall r :: r in w.decided ==> r.id < w.nextId)
    && (w.arm.Some? ==> w.arm.value.id < w.nextId)
    && (Live(w.arm) ==> forall r :: r in w.decided ==> r.id != w.arm.value.id)
  }

  /** The timeout a location holds is the current arm's, computed from a reading in the past. */
  predicate TimeoutFits(w: World) {
    match w.watcher
    case AtAction(now) => now <= w.clock
    case AtSeconds(now) => now <= w.clock
    case AtWait(arm, timeout, now) =>
      && now <= w.clock
      && (w.arm.Some? && arm == Some(w.arm.value.id) ==> timeout == Some(AtLeastZero(w.arm.value.deadline - now)))
      && (arm.Some? ==> arm.value < w.nextId)
    case Blocked(arm, until, now, since) =>
      && now <= since <= w.clock
      && (w.arm.Some? && arm == Some(w.arm.value.id) ==> until == Some(since + AtLeastZero(w.arm.value.deadline - now)))
      && (arm.Some? ==> arm.value < w.nextId)
    case _ => true
  }

  /** Past `_take_action` a stop request, and past `_wait_seconds` a new arm, cannot go unnoticed. */
  predicate NothingMissed(w: World) {
    match w.watcher
    case AtSecondClock => WakeComing(w) || !w.stop
    case AtSeconds(_) => WakeComing(w) || !w.stop
    case AtWait(arm, _, _) => WakeComing(w) || (!w.stop && (Live(w.arm) ==> arm == Some(w.arm.value.id)))
    case Blocked(arm, _, _, _) => WakeComing(w) || (!w.stop && (Live(w.arm) ==> arm == Some(w.arm.value.id)))
    case _ => true
  }

  function NodeIds(reports: seq<Report>): (ids: seq<string>)
    ensures |ids| == |reports| && forall i :: 0 <= i < |ids| ==> ids[i] == reports[i].nodeid
  {
    seq(|reports|, i requires 0 <= i < |reports| => reports[i].nodeid)
  }

  /** What is written is what was decided, in order, but for the one report being written. */
  predicate WritesDecisions(w: World) {
    NodeIds(w.decided) == w.written + if w.watcher.AtWrite? then [w.watcher.nodeid] else []
  }

  ghost predicate Inv(w: World) {
    DecidedOnce(w) && TimeoutFits(w) && NothingMissed(w) && WritesDecisions(w) && (w.watcher.Halted? ==> w.stop)
  }

  lemma TakeActionDecidesOnce(w: World, now: real)
    requires DecidedOnce(w)
    ensures DecidedOnce(TakeAction(w, now))
  {
    var w' := TakeAction(w, now);
    if w'.decided != w.decided {
      assert forall r :: r in w'.decided ==> r in w.decided || r == w'.decided[|w.decided|];
    }
  }

  lemma MoveDecidesOnce(w: World, move: Move)
    requires DecidedOnce(w)
    ensures DecidedOnce(Do(w, move))
  {
    hide TakeAction;
    if move.Watch? && w.watcher.AtAction? {
      TakeActionDecidesOnce(w, w.watcher.now);
    }
  }

  lemma MoveFits(w: World, move: Move)
    requires TimeoutFits(w) && DecidedOnce(w)
    ensures TimeoutFits(Do(w, move))
  {
  }

  lemma MoveMissesNothing(w: World, move: Move)
    requires NothingMissed(w)
    ensures NothingMissed(Do(w, move))
  {
  }

  lemma MoveWrites(w: World, move: Move)
    requires WritesDecisions(w)
    ensures WritesDecisions(Do(w, move))
  {
    var w' := Do(w, move);
    if w'.watcher.AtWrite? && !w.watcher.AtWrite? {
      assert NodeIds(w'.decided) == NodeIds(w.decided) + [w'.watcher.nodeid];
    }
  }

  lemma MoveKeepsInv(w: World, move: Move)
    requires Inv(w)
    ensures Inv(Do(w, move))
  {
    hide DecidedOnce, TimeoutFits, NothingMissed, WritesDecisions;
    MoveDecidesOnce(w, move);
    MoveFits(w, move);
    MoveMissesNothing(w, move);
    MoveWrites(w, move);
  }

  lemma {:induction false} RunKeepsInv(w: World, moves: seq<Move>)
    requires Inv(w)
    ensures Inv(Run(w, moves))
    decreases moves
  {
    hide Inv, Do;
    if moves != [] {
      MoveKeepsInv(w, moves[0]);
      RunKeepsInv(Do(w, moves[0]), moves[1..]);
    }
  }

  lemma ReachedHolds(moves: seq<Move>)
    ensures Inv(Run(START, moves))
  {
    hide Run;
    RunKeepsInv(START, moves);
  }

  /**
    * Across every interleaving a blocked watcher is never stranded: the wake flag is set,
    * or the test thread is about to set it, or no stop was requested and any live arm is
    * the one its timeout was computed for, which therefore ends no earlier than that
    * arm's report time and later only by the delay between reading the clock and blocking.
    */
  lemma NeverStranded(moves: seq<Move>)
    ensures var w := Run(START, moves);
            w.watcher.Blocked? ==>
              || w.pause || w.main != Free
              || (&& !w.stop
                  && (Live(w.arm) ==>
                        && w.watcher.arm == Some(w.arm.value.id) && w.watcher.until.Some?
                        && w.watcher.until.value >= w.watcher.since
                        && var late := w.watcher.since - w.watcher.now;
                           && late >= 0.0 && w.watcher.until.value >= w.arm.value.deadline
                           && (w.watcher.now >= w.arm.value.deadline ==> w.watcher.until.value == w.watcher.since)
                           && (w.watcher.now <= w.arm.value.deadline ==> w.watcher.until.value == w.arm.value.deadline + late)))
  {
    hide Run;
    RunKeepsInv(START, moves);
  }

  // ---------------------------------------------------------------- what is reported

  /** A report is decided only for the current arm, live, at or past its deadline, before any stop. */
  lemma DecisionIsDue(w: World, move: Move)
    requires Inv(w) && Do(w, move).decided != w.decided
    ensures !w.stop && Live(w.arm)
    ensures var a, w' := w.arm.value, Do(w, move);
            exists at :: && w'.decided == w.decided + [Report(a.id, a.nodeid, at)]
                         && a.deadline <= at <= w.clock && w'.arm == Some(a.(reported := true))
  {
    assert move == Watch && w.watcher.AtAction?;
  }

  /** Over a run: no arm is reported twice, and what is written is what was decided. */
  lemma ReportedAtMostOnce(moves: seq<Move>)
    ensures var w := Run(START, moves);
            && (forall i, j :: 0 <= i < j < |w.decided| ==> w.decided[i].id != w.decided[j].id)
            && w.written <= NodeIds(w.decided) && |w.decided| <= |w.written| + 1
  {
    hide Run;
    RunKeepsInv(START, moves);
  }

  /** After a stop request nothing more is decided. */
  lemma {:induction false} StopSilences(w: World, moves: seq<Move>)
    requires w.stop
    ensures Run(w, moves).decided == w.decided && Run(w, moves).stop
    decreases moves
  {
    if moves != [] {
      assert Do(w, moves[0]).stop && Do(w, moves[0]).decided == w.decided;
      hide Do;
      StopSilences(Do(w, moves[0]), moves[1..]);
    }
  }

  /** The arm with this identity is finished or replaced, and was not reported. */
  ghost predicate Silenced(w: World, id: nat) {
    && id < w.nextId && (w.arm.Some? && w.arm.value.id == id ==> w.arm.value.stopped)
    && forall r :: r in w.decided ==> r.id != id
  }

  /** A test that finished, or gave way to the next, before it was reported is never reported. */
  lemma {:induction false} FinishedStaysSilent(w: World, moves: seq<Move>, id: nat)
    requires Silenced(w, id)
    ensures Silenced(Run(w, moves), id)
    decreases moves
  {
    if moves != [] {
      StillSilenced(w, moves[0], id);
      hide Do, Silenced;
      FinishedStaysSilent(Do(w, moves[0]), moves[1..], id);
    }
  }

  lemma StillSilenced(w: World, move: Move, id: nat)
    requires Silenced(w, id)
    ensures Silenced(Do(w, move), id)
  {
  }

  // ---------------------------------------------------------------- what the hooks bring about

  /** The hook finishing a test finds it armed, live or not, and the test thread between hooks. */
  predicate FinishesArm(w: World, nodeid: string) {
    w.main.Free? && w.arm.Some? && w.arm.value.nodeid == nodeid
  }

  /** An arming is accepted between hooks, for a positive limit and a reading already taken. */
  predicate ArmsNow(w: World, limit: real, read: real) {
    w.main.Free? && limit > 0.0 && read <= w.clock
  }

  /**
    * In every run: once a test's hook has finished it before its report was decided, no
    * later move reports it; and a finish of any other test changes nothing.
    */
  lemma FinishSilences(before: seq<Move>, nodeid: string, after: seq<Move>)
    ensures var w := Run(START, before);
            && (!FinishesArm(w, nodeid) ==> Do(w, Finish(nodeid)) == w)
            && (FinishesArm(w, nodeid) && (forall r :: r in w.decided ==> r.id != w.arm.value.id) ==>
                  forall r :: r in Run(Do(w, Finish(nodeid)), after).decided ==> r.id != w.arm.value.id)
  {
    hide Run;
    RunKeepsInv(START, before);
    var w := Run(START, before);
    if FinishesArm(w, nodeid) && forall r :: r in w.decided ==> r.id != w.arm.value.id {
      FinishedStaysSilent(Do(w, Finish(nodeid)), after, w.arm.value.id);
    }
  }

  /** In every run: once another test is armed in its place, an arm not yet reported is never reported. */
  lemma ReplacedIsSilent(before: seq<Move>, nodeid: string, limit: real, read: real, after: seq<Move>)
    requires var w := Run(START, before);
             && ArmsNow(w, limit, read) && w.arm.Some? && forall r :: r in w.decided ==> r.id != w.arm.value.id
    ensures var w := Run(START, before);
            forall r :: r in Run(Do(w, ArmTest(nodeid, limit, read)), after).decided ==> r.id != w.arm.value.id
  {
    hide Run;
    RunKeepsInv(START, before);
    var w := Run(START, before);
    FinishedStaysSilent(Do(w, ArmTest(nodeid, limit, read)), after, w.arm.value.id);
  }

  /** Reports of the arm come at or after its time and carry its test; it keeps both while it is current. */
  ghost predicate Timed(w: World, id: nat, nodeid: string, due: real) {
    && id < w.nextId
    && (w.arm.Some? && w.arm.value.id == id ==> w.arm.value.deadline == due && w.arm.value.nodeid == nodeid)
    && forall r :: r in w.decided && r.id == id ==> r.at >= due && r.nodeid == nodeid
  }

  lemma StillTimed(w: World, move: Move, id: nat, nodeid: string, due: real)
    requires Timed(w, id, nodeid, due)
    ensures Timed(Do(w, move), id, nodeid, due)
  {
  }

  lemma {:induction false} TimedOn(w: World, moves: seq<Move>, id: nat, nodeid: string, due: real)
    requires Timed(w, id, nodeid, due)
    ensures Timed(Run(w, moves), id, nodeid, due)
    decreases moves
  {
    if moves != [] {
      StillTimed(w, moves[0], id, nodeid, due);
      hide Do, Timed;
      TimedOn(Do(w, moves[0]), moves[1..], id, nodeid, due);
    }
  }

  /**
    * In every run: an accepted arming makes a new arm for its test, live, in place of any
    * other; whatever follows, it is reported under its own name and at no reading before
    * half a second past its limit. A refused arming changes nothing.
    */
  lemma ReportedInTime(before: seq<Move>, nodeid: string, limit: real, read: real, after: seq<Move>)
    ensures var w := Run(START, before);
            var armed := Do(w, ArmTest(nodeid, limit, read));
            && (!ArmsNow(w, limit, read) ==> armed == w)
            && (ArmsNow(w, limit, read) ==>
                  && armed.arm == Some(Arm(w.nextId, nodeid, read + limit + 0.5, false, false))
                  && armed.nextId > w.nextId && (forall r :: r in w.decided ==> r.id != w.nextId)
                  && forall r :: r in Run(armed, after).decided && r.id == w.nextId ==>
                       r.at >= read + limit + 0.5 && r.nodeid == nodeid)
  {
    hide Run;
    RunKeepsInv(START, before);
    var w := Run(START, before);
    if ArmsNow(w, limit, read) {
      TimedOn(Do(w, ArmTest(nodeid, limit, read)), after, w.nextId, nodeid, read + limit + REPORT_GRACE);
    }
  }

  /** Hooks take turns: until a hook's wake has landed no other begins, and a wake without a hook does nothing. */
  lemma HooksTakeTurns(w: World, nodeid: string, limit: real, read: real)
    ensures !w.main.Free? ==>
              Do(w, ArmTest(nodeid, limit, read)) == w && Do(w, Finish(nodeid)) == w && Do(w, RequestStop) == w
              && Do(w, Wake) == w.(pause := true, main := Free)
    ensures w.main.Free? ==> Do(w, Wake) == w && Do(w, RequestStop) == w.(stop := true, main := Stopping)
  {
  }

  /** A stop request between hooks, in every run, is the end of reporting. */
  lemma StopEndsReporting(before: seq<Move>, after: seq<Move>)
    requires Run(START, before).main.Free?
    ensures Run(Do(Run(START, before), RequestStop), after).decided == Run(START, before).decided
  {
    hide Run;
    StopSilences(Do(Run(START, before), RequestStop), after);
  }

  // ---------------------------------------------------------------- no further hook

  /** The clock and the watcher move; the test thread does not. */
  predicate Quiet(moves: seq<Move>) {
    forall move :: move in moves ==> move.Tick? || move.Watch?
  }

  /** Blocked with nothing to wake it yet. */
  predicate Parked(w: World) {
    w.watcher.Blocked? && !w.pause && !(w.watcher.until.Some? && w.clock >= w.watcher.until.value)
  }

  /** How many of the moves are steps a watcher that is not parked takes. */
  function Steps(w: World, moves: seq<Move>): nat
    decreases moves
  {
    if moves == [] then 0
    else (if moves[0].Watch? && !Parked(w) then 1 else 0) + Steps(Do(w, moves[0]), moves[1..])
  }

  /** How many of the moves are the watcher's. */
  function Watches(moves: seq<Move>): nat {
    if moves == [] then 0 else (if moves[0].Watch? then 1 else 0) + Watches(moves[1..])
  }

  predicate ReportsIt(w: World, id: nat) {
    exists r :: r in w.decided && r.id == id
  }

  predicate Due(w: World) {
    Live(w.arm) && w.clock >= w.arm.value.deadline
  }

  /** Steps left before a due arm is reported. */
  function StepsToReport(w: World): nat {
    match w.watcher
    case AtAction(now) => if Live(w.arm) && now >= w.arm.value.deadline then 1 else 8
    case AtClock => 2
    case AtClear => 3
    case Blocked(_, _, _, _) => 4
    case AtWrite(_) => 4
    case AtWait(_, _, _) => 5
    case AtSeconds(_) => 6
    case AtSecondClock => 7
    case Halted => 0
  }

  /** Steps left before the watcher parks for an arm that is not due. */
  function StepsToPark(w: World): nat {
    var lap := if w.pause then 6 else 0;
    match w.watcher
    case Blocked(_, _, _, _) => if Parked(w) then 0 else 7
    case AtWait(_, _, _) => lap + 1
    case AtSeconds(_) => lap + 2
    case AtSecondClock => lap + 3
    case AtAction(_) => lap + 4
    case AtClock => lap + 5
    case AtClear => 6
    case AtWrite(_) => 7
    case Halted => 0
  }

  const MOST_STEPS := 19

  /** A bound on the watcher's steps before it reports, whenever the arm comes due. */
  function Remaining(w: World): (n: nat)
    ensures n <= MOST_STEPS
  {
    if Due(w) then StepsToReport(w) else 8 + StepsToPark(w)
  }

  /** The arm is live, no stop is requested and no hook is under way. */
  ghost predicate Pending(w: World, a: Arm) {
    Inv(w) && w.main.Free? && !w.stop && w.arm == Some(a) && Live(w.arm)
  }

  /** A parked watcher is parked for the live arm, until a time no earlier than its deadline. */
  lemma ParkedForTheArm(w: World, a: Arm)
    requires Pending(w, a) && w.watcher.Blocked? && !w.pause
    ensures w.watcher.until.Some? && w.watcher.until.value >= a.deadline
  {
    hide DecidedOnce, WritesDecisions;
  }

  /** A step of a watcher that is not parked reports the arm or brings the report nearer. */
  lemma StepAdvances(w: World, a: Arm)
    requires Pending(w, a) && !Parked(w)
    ensures var w' := Do(w, Watch);
            ReportsIt(w', a.id) || (Pending(w', a) && Remaining(w') < Remaining(w))
  {
    MoveKeepsInv(w, Watch);
    hide DecidedOnce, WritesDecisions;
    if w.watcher.AtAction? && w.watcher.now >= a.deadline {
      assert Do(w, Watch).decided[|w.decided|].id == a.id;
    }
  }

  /** A parked watcher's step changes nothing, and the clock never puts the report off. */
  lemma RestNeverDelays(w: World, a: Arm, move: Move)
    requires Pending(w, a) && (move.Tick? || (move.Watch? && Parked(w)))
    ensures Pending(Do(w, move), a) && Remaining(Do(w, move)) <= Remaining(w) && Remaining(w) >= 1
  {
    MoveKeepsInv(w, move);
    hide DecidedOnce, WritesDecisions;
    if w.watcher.Blocked? && !w.pause {
      ParkedForTheArm(w, a);
    }
  }

  lemma ReportedStays(w: World, move: Move, id: nat)
    requires ReportsIt(w, id)
    ensures ReportsIt(Do(w, move), id)
  {
    var r :| r in w.decided && r.id == id;
    assert r in Do(w, move).decided;
  }

  lemma {:induction false} ReportedForGood(w: World, moves: seq<Move>, id: nat)
    requires ReportsIt(w, id)
    ensures ReportsIt(Run(w, moves), id)
    decreases moves
  {
    hide Do, ReportsIt;
    if moves != [] {
      ReportedStays(w, moves[0], id);
      ReportedForGood(Do(w, moves[0]), moves[1..], id);
    }
  }

  /**
    * No hang is missed: however clock ticks and watcher steps interleave once the test
    * thread makes no further move, the live arm is reported within `Remaining` steps that
    * the watcher takes outside its parking, nineteen at most.
    */
  lemma {:induction false} EveryHangIsReported(w: World, a: Arm, moves: seq<Move>)
    requires Pending(w, a) && Quiet(moves) && Steps(w, moves) >= Remaining(w)
    ensures ReportsIt(Run(w, moves), a.id)
    decreases moves
  {
    hide Do, Inv, Parked, Remaining, ReportsIt;
    if moves == [] {
      RestNeverDelays(w, a, Tick(0.0));
    } else {
      var move := moves[0];
      if move.Watch? && !Parked(w) {
        StepAdvances(w, a);
      } else {
        RestNeverDelays(w, a, move);
      }
      if ReportsIt(Do(w, move), a.id) {
        ReportedForGood(Do(w, move), moves[1..], a.id);
      } else {
        EveryHangIsReported(Do(w, move), a, moves[1..]);
      }
    }
  }

  // From parking to the report: the clock wakes the watcher, and four steps report the arm.

  /** The arm is due and the watcher is on its way to report it. */
  predicate Waking(w: World) {
    Due(w) && match w.watcher
              case Blocked(_, _, _, _) => !Parked(w)
              case AtClear => true
              case AtClock => true
              case AtAction(now) => now >= w.arm.value.deadline
              case _ => false
  }

  /** Reported, or about to be. */
  ghost predicate Woken(w: World, a: Arm) {
    ReportsIt(w, a.id) || (Pending(w, a) && Waking(w))
  }

  lemma WakingStep(w: World, a: Arm, move: Move)
    requires Pending(w, a) && Waking(w) && (move.Tick? || move.Watch?)
    ensures var w' := Do(w, move);
            || ReportsIt(w', a.id)
            || (&& Pending(w', a) && Waking(w')
                && StepsToReport(w') + (if move.Watch? then 1 else 0) <= StepsToReport(w) <= 4)
  {
    MoveKeepsInv(w, move);
    hide DecidedOnce, WritesDecisions;
    if move.Watch? && w.watcher.AtAction? {
      assert Do(w, Watch).decided[|w.decided|].id == a.id;
    }
  }

  lemma {:induction false} WokenReports(w: World, a: Arm, moves: seq<Move>)
    requires Pending(w, a) && Waking(w) && Quiet(moves)
    ensures Woken(Run(w, moves), a)
    ensures Watches(moves) >= StepsToReport(w) ==> ReportsIt(Run(w, moves), a.id)
    decreases moves
  {
    hide Do, Inv, Waking, ReportsIt;
    if moves == [] {
      assert StepsToReport(w) >= 1 by { NotYetReported(w); }
    } else {
      WakingStep(w, a, moves[0]);
      if ReportsIt(Do(w, moves[0]), a.id) {
        ReportedForGood(Do(w, moves[0]), moves[1..], a.id);
      } else {
        WokenReports(Do(w, moves[0]), a, moves[1..]);
      }
    }
  }

  lemma NotYetReported(w: World)
    requires Waking(w)
    ensures 1 <= StepsToReport(w) <= 4
  {
  }

  /** A parked watcher stays parked until the time it waits for, and then is on its way to report. */
  lemma {:induction false} ParkedUntilWoken(w: World, a: Arm, moves: seq<Move>)
    requires Pending(w, a) && Parked(w) && Quiet(moves)
    ensures var w' := Run(w, moves);
            || Woken(w', a)
            || (Pending(w', a) && Parked(w') && w'.watcher.until == w.watcher.until)
    decreases moves
  {
    hide Inv, Waking, ReportsIt;
    if moves != [] {
      var w' := Do(w, moves[0]);
      ParkedMove(w, a, moves[0]);
      if Parked(w') {
        hide Do;
        ParkedUntilWoken(w', a, moves[1..]);
      } else {
        hide Do;
        WokenReports(w', a, moves[1..]);
      }
    }
  }

  lemma ParkedMove(w: World, a: Arm, move: Move)
    requires Pending(w, a) && Parked(w) && (move.Tick? || move.Watch?)
    ensures var w' := Do(w, move);
            && Pending(w', a) && w'.watcher == w.watcher && (!Parked(w') ==> Waking(w'))
  {
    MoveKeepsInv(w, move);
    ParkedForTheArm(w, a);
    hide DecidedOnce, WritesDecisions;
  }

  /** After `Remaining` steps, at whatever readings, the watcher is parked for the arm or past that. */
  lemma {:induction false} ParksOrReports(w: World, a: Arm, moves: seq<Move>)
    requires Pending(w, a) && Quiet(moves) && Watches(moves) >= Remaining(w)
    ensures var w' := Run(w, moves); Woken(w', a) || (Pending(w', a) && Parked(w'))
    decreases moves
  {
    hide Do, Inv, Parked, Remaining, ReportsIt, Waking;
    if Parked(w) {
      ParkedUntilWoken(w, a, moves);
    } else if moves == [] {
      RestNeverDelays(w, a, Tick(0.0));
    } else {
      var w' := Do(w, moves[0]);
      if moves[0].Watch? {
        StepAdvances(w, a);
      } else {
        RestNeverDelays(w, a, moves[0]);
      }
      if ReportsIt(w', a.id) {
        ReportedForGood(w', moves[1..], a.id);
      } else {
        ParksOrReports(w', a, moves[1..]);
      }
    }
  }

  lemma {:induction false} RunAppend(w: World, first: seq<Move>, rest: seq<Move>)
    ensures Run(w, first + rest) == Run(Run(w, first), rest)
    decreases first
  {
    hide Do;
    if first == [] {
      assert first + rest == rest;
    } else {
      assert (first + rest)[1..] == first[1..] + rest;
      RunAppend(Do(w, first[0]), first[1..], rest);
    }
  }

  /**
    * A hang from start to end, whatever the watcher is doing when the last hook returns and
    * whatever the clock does meanwhile: `Remaining` watcher steps, at most nineteen, bring
    * the report or leave the watcher waiting for the arm; once the clock has reached the
    * time it waits for, four more steps bring the report.
    */
  lemma HangEnds(w: World, a: Arm, first: seq<Move>, rest: seq<Move>, more: seq<Move>)
    requires Pending(w, a) && Quiet(first) && Quiet(rest) && Quiet(more)
    requires Watches(first) >= Remaining(w) && Watches(more) >= 4
    requires var parked := Run(w, first);
             Parked(parked) && parked.watcher.until.Some? ==> Run(parked, rest).clock >= parked.watcher.until.value
    ensures ReportsIt(Run(w, first + rest + more), a.id)
  {
    hide Inv, Do, Run, Waking, ReportsIt, Remaining, Watches, StepsToReport;
    var w1 := Run(w, first);
    var w2 := Run(w1, rest);
    ParksOrReports(w, a, first);
    assert Woken(w2, a) by { WokenAfter(w1, a, rest); }
    RunAppend(w, first, rest);
    RunAppend(w, first + rest, more);
    if ReportsIt(w2, a.id) {
      ReportedForGood(w2, more, a.id);
    } else {
      NotYetReported(w2);
      WokenReports(w2, a, more);
    }
  }

  lemma WokenAfter(w: World, a: Arm, rest: seq<Move>)
    requires (Woken(w, a) || (Pending(w, a) && Parked(w))) && Quiet(rest)
    requires Parked(w) && w.watcher.until.Some? ==> Run(w, rest).clock >= w.watcher.until.value
    ensures Woken(Run(w, rest), a)
  {
    hide Inv, Run, Waking, ReportsIt;
    if ReportsIt(w, a.id) {
      ReportedForGood(w, rest, a.id);
    } else if Parked(w) {
      ParkedForTheArm(w, a);
      ParkedUntilWoken(w, a, rest);
    } else {
      WokenReports(w, a, rest);
    }
  }

  /** Parking ends by the clock: at the time it waits for, a watcher is parked no more. */
  lemma ParkingEnds(w: World, a: Arm, span: real)
    requires Pending(w, a) && Parked(w) && span >= 0.0
    ensures w.watcher.until.Some?
    ensures Parked(Do(w, Tick(span))) <==> w.clock + span < w.watcher.until.value
  {
    hide DecidedOnce, WritesDecisions;
    ParkedForTheArm(w, a);
  }

  function StopRank(w: World): (n: nat)
    ensures n <= 7
  {
    match w.watcher
    case Halted => 0
    case AtAction(_) => 1
    case AtClock => 2
    case AtClear => 3
    case AtWrite(_) => 4
    case Blocked(_, _, _, _) => 4
    case AtWait(_, _, _) => 5
    case AtSeconds(_) => 6
    case AtSecondClock => 7
  }

  lemma StopDraws(w: World, move: Move)
    requires Inv(w) && w.stop && w.main.Free? && (move.Tick? || move.Watch?)
    ensures var w' := Do(w, move);
            && Inv(w') && w'.stop && w'.main.Free?
            && (move.Tick? ==> StopRank(w') == StopRank(w))
            && (move.Watch? ==> StopRank(w') < StopRank(w) || StopRank(w) == 0 == StopRank(w'))
  {
    MoveKeepsInv(w, move);
    hide DecidedOnce, WritesDecisions, TimeoutFits;
  }

  /** A stop request is honoured: once its wake has landed, seven watcher steps, at any clock, halt it. */
  lemma {:induction false} StopIsHonoured(w: World, moves: seq<Move>)
    requires Inv(w) && w.stop && w.main.Free? && Quiet(moves) && Watches(moves) >= StopRank(w)
    ensures Run(w, moves).watcher.Halted?
    decreases moves
  {
    if moves == [] {
      assert StopRank(w) == 0;
    } else {
      StopDraws(w, moves[0]);
      hide Inv, StopRank, Do;
      StopIsHonoured(Do(w, moves[0]), moves[1..]);
    }
  }

  /** In every run without a stop, an accepted arming and its wake leave the arm pending, so `HangEnds` applies. */
  lemma ArmedIsPending(before: seq<Move>, nodeid: string, limit: real, read: real)
    requires var w := Run(START, before); ArmsNow(w, limit, read) && !w.stop
    ensures var w := Run(START, before);
            Pending(Do(Do(w, ArmTest(nodeid, limit, read)), Wake), Arm(w.nextId, nodeid, read + limit + 0.5, false, false))
  {
    hide Run, Inv;
    ReachedHolds(before);
    var w := Run(START, before);
    MoveKeepsInv(w, ArmTest(nodeid, limit, read));
    MoveKeepsInv(Do(w, ArmTest(nodeid, limit, read)), Wake);
  }

  /** In every run, a stop request and its wake halt the watcher within seven of its steps. */
  lemma StopHalts(before: seq<Move>, after: seq<Move>)
    requires Run(START, before).main.Free? && Quiet(after) && Watches(after) >= 7
    ensures Run(Do(Do(Run(START, before), RequestStop), Wake), after).watcher.Halted?
  {
    hide Run, Inv;
    ReachedHolds(before);
    var w := Run(START, before);
    MoveKeepsInv(w, RequestStop);
    MoveKeepsInv(Do(w, RequestStop), Wake);
    StopIsHonoured(Do(Do(w, RequestStop), Wake), after);
  }
}
