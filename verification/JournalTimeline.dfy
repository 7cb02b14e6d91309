/**
  * When a replay at any moment gives back what the live hub holds, told from what the
  * log and the clock readings show: no claim of the crashed hub is needed to decide it.
  */
module JournalTimeline {
  import opened Wrappers
  import opened PathIdentity
  import opened Strings
  import opened Scoping
  import opened Lease
  import opened LeaseInvariants
  import opened LeaseGuarantees
  import opened Journal

  /** What one request leaves behind: the reading at which it swept, and what it logged. */
  datatype Mark = Swept(at: real) | Wrote(event: Event)

  /** A request sweeps first, unless it is an operator's revocation, custody, or turned away at the door. */
  predicate Sweeps(op: Op, o: Outcome) {
    && !op.ForceRelease? && !op.OpenCustody? && !op.SettleCustody?
    && (o.Refused? ==> o.why != TaskIdRequired && o.why != TargetRequired && o.why != IdentityMismatch)
  }

  function Wrotes(events: seq<Event>): seq<Mark> {
    seq(|events|, i requires 0 <= i < |events| => Wrote(events[i]))
  }

  function Marks(op: Op, now: real, h': Hub, o: Outcome): seq<Mark> {
    (if Sweeps(op, o) then [Swept(now)] else []) + Wrotes(Logged(op, h', o))
  }

  function Timeline(cfg: Config, h: Hub, steps: seq<Step>): seq<Mark>
    decreases steps
  {
    if steps == [] then []
    else
      var (h', o) := Apply(cfg, h, steps[0].op, steps[0].now);
      Marks(steps[0].op, steps[0].now, h', o) + Timeline(cfg, h', steps[1..])
  }

  predicate Concerns(event: Event, t: string) {
    (event.Snapshotted? && event.claim.task == t) || event == Released(t)
  }

  /** The last event about a task, if it is a snapshot. */
  function Standing(marks: seq<Mark>, t: string): Option<Claim> {
    if marks == [] then None
    else
      var init, last := marks[..|marks| - 1], marks[|marks| - 1];
      if last.Wrote? && Concerns(last.event, t)
      then if last.event.Snapshotted? then Some(last.event.claim) else None
      else Standing(init, t)
  }

  /** Some sweep after the last event about a task read the clock at `at` or later. */
  predicate SweptSince(marks: seq<Mark>, t: string, at: real) {
    if marks == [] then false
    else
      var init, last := marks[..|marks| - 1], marks[|marks| - 1];
      if last.Wrote? && Concerns(last.event, t) then false
      else (last.Swept? && last.at >= at) || SweptSince(init, t, at)
  }

  /** A lease that still runs at `now`, though a later sweep has already read its expiry. */
  predicate Overtaken(marks: seq<Mark>, t: string, now: real) {
    && Standing(marks, t).Some?
    && Standing(marks, t).value.expiresAt > now
    && SweptSince(marks, t, Standing(marks, t).value.expiresAt)
  }

  lemma MarksStep(marks: seq<Mark>, last: Mark, t: string, at: real)
    ensures Standing([], t) == None && !SweptSince([], t, at)
    ensures Standing(marks + [last], t) ==
            if last.Wrote? && Concerns(last.event, t)
            then if last.event.Snapshotted? then Some(last.event.claim) else None
            else Standing(marks, t)
    ensures SweptSince(marks + [last], t, at) ==
            (!(last.Wrote? && Concerns(last.event, t)) && ((last.Swept? && last.at >= at) || SweptSince(marks, t, at)))
  {
    assert (marks + [last])[..|marks|] == marks;
  }

  // ---------------------------------------------------------------- the hub and the fold follow the timeline

  /** A task is live exactly while its last snapshot stands and no later sweep read its expiry. */
  ghost predicate LiveBy(claims: map<string, Claim>, marks: seq<Mark>) {
    forall t :: LiveAt(claims, marks, t)
  }

  ghost predicate LiveAt(claims: map<string, Claim>, marks: seq<Mark>, t: string) {
    var standing := Standing(marks, t);
    && (t in claims <==> standing.Some? && !SweptSince(marks, t, standing.value.expiresAt))
    && (t in claims ==> standing == Some(claims[t]))
  }

  /** The fold holds the last snapshots, whether or not they were swept since. */
  ghost predicate FoldedBy(m: Memory, marks: seq<Mark>) {
    m.Rebuilt? ==> forall t :: FoldedAt(m.claims, marks, t)
  }

  predicate FoldedAt(claims: map<string, Claim>, marks: seq<Mark>, t: string) {
    && (t in claims <==> Standing(marks, t).Some?)
    && (t in claims ==> claims[t] == Decoded(Standing(marks, t).value))
  }

  lemma SweepLiveBy(claims: map<string, Claim>, marks: seq<Mark>, now: real)
    requires LiveBy(claims, marks)
    ensures LiveBy(Unexpired(claims, now), marks + [Swept(now)])
  {
    hide Standing, SweptSince;
    forall t ensures LiveAt(Unexpired(claims, now), marks + [Swept(now)], t) {
      assert LiveAt(claims, marks, t);
      var standing := Standing(marks, t);
      MarksStep(marks, Swept(now), t, if standing.Some? then standing.value.expiresAt else 0.0);
    }
  }

  lemma StoreLiveBy(claims: map<string, Claim>, marks: seq<Mark>, c: Claim)
    requires LiveBy(claims, marks)
    ensures LiveBy(claims[c.task := c], marks + [Wrote(Snapshotted(c))])
  {
    hide Standing, SweptSince;
    var claims', marks' := claims[c.task := c], marks + [Wrote(Snapshotted(c))];
    forall t ensures LiveAt(claims', marks', t) {
      assert LiveAt(claims, marks, t);
      var standing := if t == c.task then Some(c) else Standing(marks, t);
      MarksStep(marks, Wrote(Snapshotted(c)), t, if standing.Some? then standing.value.expiresAt else 0.0);
    }
  }

  lemma DropLiveBy(claims: map<string, Claim>, marks: seq<Mark>, task: string)
    requires LiveBy(claims, marks)
    ensures LiveBy(claims - {task}, marks + [Wrote(Released(task))])
  {
    hide Standing, SweptSince;
    forall t ensures LiveAt(claims - {task}, marks + [Wrote(Released(task))], t) {
      assert LiveAt(claims, marks, t);
      var standing := Standing(marks, t);
      MarksStep(marks, Wrote(Released(task)), t, if standing.Some? then standing.value.expiresAt else 0.0);
    }
  }

  lemma SweepFoldedBy(m: Memory, marks: seq<Mark>, now: real)
    requires FoldedBy(m, marks)
    ensures FoldedBy(m, marks + [Swept(now)])
  {
    hide Standing, Decoded;
    if m.Rebuilt? {
      forall t ensures FoldedAt(m.claims, marks + [Swept(now)], t) {
        assert FoldedAt(m.claims, marks, t);
        MarksStep(marks, Swept(now), t, 0.0);
      }
    }
  }

  lemma WriteFoldedBy(u: Unicode, m: Memory, marks: seq<Mark>, event: Event)
    requires FoldedBy(m, marks)
    ensures FoldedBy(ApplyEvent(u, m, event), marks + [Wrote(event)])
  {
    hide Standing, Decoded, Decodes;
    var m' := ApplyEvent(u, m, event);
    if m'.Rebuilt? {
      forall t ensures FoldedAt(m'.claims, marks + [Wrote(event)], t) {
        assert FoldedAt(m.claims, marks, t);
        MarksStep(marks, Wrote(event), t, 0.0);
      }
    }
  }

  // ---------------------------------------------------------------- one step

  /** What a step did to the claims before it logged anything. */
  function AfterSweep(h: Hub, op: Op, now: real, o: Outcome): map<string, Claim> {
    if Sweeps(op, o) then Unexpired(h.claims, now) else h.claims
  }

  /** Every step sweeps or not, and then at most changes the one claim it logs. */
  ghost predicate LogsItsChange(h: Hub, op: Op, now: real, h': Hub, o: Outcome) {
    var swept, events := AfterSweep(h, op, now, o), Logged(op, h', o);
    if events == [] then h'.claims == swept
    else match events[0]
      case Snapshotted(c) => h'.claims == swept[c.task := c]
      case Released(t) => h'.claims == swept - {t}
      case ProtectedWrite => h'.claims == swept
  }

  lemma AcquireRefusalSweeps(cfg: Config, h: Hub, r: ClaimRequest, now: real)
    requires DoAcquire(cfg, h, r, now).1.Refused?
    ensures var (h', o) := DoAcquire(cfg, h, r, now);
            h'.claims == AfterSweep(h, Acquire(r), now, o)
  {
    hide Strip, Lapsing, CustodyBlocksScope, ScopeBlocked, ValidatesDisplayScope, StoredScope, Payer, GrantedClaim, QuotaFree, Unexpired;
  }

  lemma HandoffRefusalSweeps(cfg: Config, h: Hub, op: Op, now: real)
    requires op.Handoff? && DoHandoff(cfg, h, op, now).1.Refused?
    ensures var (h', o) := DoHandoff(cfg, h, op, now);
            h'.claims == AfterSweep(h, op, now, o)
  {
    hide Strip, Lapsing, CustodyBlocksScope, ScopeBlocked, CustodyHoldsTask, ChargedTo, MovedClaim, Unexpired;
  }

  lemma OwnerRefusalSweeps(cfg: Config, h: Hub, op: Op, now: real)
    requires (op.Renew? || op.Update? || op.Checkpoint?) && Apply(cfg, h, op, now).1.Refused?
    ensures var (h', o) := Apply(cfg, h, op, now);
            h'.claims == AfterSweep(h, op, now, o)
  {
    hide Strip, Lapsing, CustodyHoldsTask, CanTransition, Unexpired;
  }

  lemma OtherRefusalSweeps(cfg: Config, h: Hub, op: Op, now: real)
    requires !op.Acquire? && !op.Handoff? && SnapshotTask(op).None? && Apply(cfg, h, op, now).1.Refused?
    ensures var (h', o) := Apply(cfg, h, op, now);
            h'.claims == AfterSweep(h, op, now, o)
  {
    hide Strip, Lapsing, CustodyHoldsTask, FreshWitnesses, Drop, Unexpired;
  }

  lemma RefusalOnlySweeps(cfg: Config, h: Hub, op: Op, now: real)
    requires Apply(cfg, h, op, now).1.Refused?
    ensures var (h', o) := Apply(cfg, h, op, now);
            h'.claims == AfterSweep(h, op, now, o)
  {
    hide DoAcquire, DoHandoff, DoRenew, DoUpdate, DoCheckpoint, DoRelease, DoForceRelease, DoOpenCustody, DoSettleCustody, AfterSweep, Sweep;
    if op.Acquire? {
      AcquireRefusalSweeps(cfg, h, op.request, now);
    } else if op.Handoff? {
      HandoffRefusalSweeps(cfg, h, op, now);
    } else if op.Renew? || op.Update? || op.Checkpoint? {
      OwnerRefusalSweeps(cfg, h, op, now);
    } else {
      OtherRefusalSweeps(cfg, h, op, now);
    }
  }

  lemma SnapshotLogs(cfg: Config, h: Hub, op: Op, now: real)
    requires ValidConfig(cfg) && Inv(cfg, h) && SnapshotTask(op).Some? && Apply(cfg, h, op, now).1.Granted?
    ensures var (h', o) := Apply(cfg, h, op, now);
            LogsItsChange(h, op, now, h', o)
  {
    hide Inv, Apply, Strip, CheckpointsApart, Keyed, EpochsIssued, Decodes, Lapsing;
    var agent := if op.Acquire? then op.request.agent else op.agent;
    BeatKeeps(cfg, h, agent, now);
    InvParts(cfg, Beat(h, agent, now));
    ShapeOfSnapshot(cfg, h, op, now, agent);
  }

  lemma ReleaseLogs(cfg: Config, h: Hub, op: Op, now: real)
    requires (op.Release? || op.ForceRelease?) && Apply(cfg, h, op, now).1.Granted?
    ensures var (h', o) := Apply(cfg, h, op, now);
            && Logged(op, h', o) == [Released(Strip(op.task))]
            && h'.claims == AfterSweep(h, op, now, o) - {Strip(op.task)}
  {
    hide Strip, Lapsing, CustodyHoldsTask, ReleaseRefusal, Unexpired;
  }

  lemma NothingLogs(cfg: Config, h: Hub, op: Op, now: real)
    requires op.Heartbeat? || op.Snapshot? || op.OpenCustody? || op.SettleCustody?
    requires Apply(cfg, h, op, now).1.Granted?
    ensures var (h', o) := Apply(cfg, h, op, now);
            && (Logged(op, h', o) == [] || Logged(op, h', o) == [ProtectedWrite])
            && h'.claims == AfterSweep(h, op, now, o)
  {
    hide Lapsing, FreshWitnesses, Unexpired;
  }

  lemma QuietLogs(cfg: Config, h: Hub, op: Op, now: real)
    requires SnapshotTask(op).None? && Apply(cfg, h, op, now).1.Granted?
    ensures var (h', o) := Apply(cfg, h, op, now);
            LogsItsChange(h, op, now, h', o)
  {
    hide Apply, Logged, AfterSweep, Strip;
    if op.Release? || op.ForceRelease? {
      ReleaseLogs(cfg, h, op, now);
    } else {
      NothingLogs(cfg, h, op, now);
    }
  }

  lemma StepLogs(cfg: Config, h: Hub, op: Op, now: real)
    requires ValidConfig(cfg) && Inv(cfg, h)
    ensures var (h', o) := Apply(cfg, h, op, now);
            LogsItsChange(h, op, now, h', o)
  {
    hide Inv, Apply, AfterSweep;
    if Apply(cfg, h, op, now).1.Refused? {
      RefusalOnlySweeps(cfg, h, op, now);
    } else if SnapshotTask(op).Some? {
      SnapshotLogs(cfg, h, op, now);
    } else {
      QuietLogs(cfg, h, op, now);
    }
  }

  lemma StepFollows(cfg: Config, h: Hub, m: Memory, marks: seq<Mark>, op: Op, now: real)
    requires ValidConfig(cfg) && Inv(cfg, h) && LiveBy(h.claims, marks) && FoldedBy(m, marks)
    requires var (h', o) := Apply(cfg, h, op, now); ProtectedWrite !in Logged(op, h', o)
    ensures var (h', o) := Apply(cfg, h, op, now);
            && LiveBy(h'.claims, marks + Marks(op, now, h', o))
            && FoldedBy(Fold(cfg.u, m, Logged(op, h', o)), marks + Marks(op, now, h', o))
  {
    hide Inv, Apply, LiveBy, FoldedBy, Logged, Fold, ApplyEvent, Unexpired;
    var (h', o) := Apply(cfg, h, op, now);
    var events, swept := Logged(op, h', o), AfterSweep(h, op, now, o);
    var between := if Sweeps(op, o) then marks + [Swept(now)] else marks;
    StepLogs(cfg, h, op, now);
    SweepLiveBy(h.claims, marks, now);
    SweepFoldedBy(m, marks, now);
    FoldStep(cfg.u, m, []);
    if events == [] {
      assert marks + Marks(op, now, h', o) == between;
    } else {
      assert events == [events[0]] && marks + Marks(op, now, h', o) == between + [Wrote(events[0])];
      OneEvent(cfg.u, m, events[0]);
      WriteFoldedBy(cfg.u, m, between, events[0]);
      if events[0].Snapshotted? {
        StoreLiveBy(swept, between, events[0].claim);
      } else if events[0].Released? {
        DropLiveBy(swept, between, events[0].task);
      }
    }
  }

  lemma {:induction false} RunFollows(cfg: Config, h: Hub, m: Memory, marks: seq<Mark>, steps: seq<Step>)
    requires ValidConfig(cfg) && Inv(cfg, h) && LiveBy(h.claims, marks) && FoldedBy(m, marks)
    requires ProtectedWrite !in Log(cfg, h, steps)
    ensures LiveBy(Run(cfg, h, steps).claims, marks + Timeline(cfg, h, steps))
    ensures FoldedBy(Fold(cfg.u, m, Log(cfg, h, steps)), marks + Timeline(cfg, h, steps))
    decreases steps
  {
    hide Inv, Apply, LiveBy, FoldedBy, Logged, Fold, Run, Marks;
    RunStep(cfg, h, steps);
    FoldStep(cfg.u, m, []);
    if steps == [] {
      assert marks + [] == marks;
    } else {
      var (h', o) := Apply(cfg, h, steps[0].op, steps[0].now);
      var events, here := Logged(steps[0].op, h', o), Marks(steps[0].op, steps[0].now, h', o);
      StepKeepsInvariant(cfg, h, steps[0].op, steps[0].now);
      StepFollows(cfg, h, m, marks, steps[0].op, steps[0].now);
      RunFollows(cfg, h', Fold(cfg.u, m, events), marks + here, steps[1..]);
      FoldAppend(cfg.u, m, events, Log(cfg, h', steps[1..]));
      assert marks + (here + Timeline(cfg, h', steps[1..])) == (marks + here) + Timeline(cfg, h', steps[1..]);
    }
  }

  // ---------------------------------------------------------------- recovery at any moment

  /** The leases that replay would bring back are the overtaken ones. */
  lemma LapsedUnlessOvertaken(h: Hub, m: Memory, marks: seq<Mark>, now: real)
    requires m.Rebuilt? && LiveBy(h.claims, marks) && FoldedBy(m, marks)
    ensures AllLapsed(h, m, now) <==> forall t :: !Overtaken(marks, t, now)
  {
    hide Standing, SweptSince, Decoded;
    forall t ensures (t in m.claims && t !in h.claims && m.claims[t].expiresAt > now) <==> Overtaken(marks, t, now) {
      assert LiveAt(h.claims, marks, t) && FoldedAt(m.claims, marks, t);
      if Standing(marks, t).Some? {
        DecodedKeeps(Standing(marks, t).value);
      }
    }
  }

  /**
    * Replayed at any moment at all, the claims come back exactly when no lease whose last
    * logged snapshot runs past that moment was followed by a sweep at or after its expiry;
    * resume tokens and the epoch counter come back then too.
    */
  lemma RecoveryIsExactIff(cfg: Config, steps: seq<Step>, now: real)
    requires ValidConfig(cfg) && ProtectedWrite !in Log(cfg, EMPTY, steps)
    ensures Remembered(cfg, steps).Rebuilt?
    ensures var r, s := Recovered(Remembered(cfg, steps), now), Sweep(Run(cfg, EMPTY, steps), now);
            var intact := forall t :: !Overtaken(Timeline(cfg, EMPTY, steps), t, now);
            && (ComesBack(s.claims, r.claims) <==> intact)
            && (intact ==> r.expired == s.expired && r.epochSeq == s.epochSeq)
  {
    hide Run, Log, Inv, Recovered, DecodedEach, ComesBack, Unexpired, AllLapsed, LiveBy, FoldedBy, Timeline, Overtaken, Fold, Lapsing;
    var high, h, m := Latest(steps), Run(cfg, EMPTY, steps), Remembered(cfg, steps);
    RunIsMirrored(cfg, steps, high);
    EmptyHub(cfg);
    assert LiveBy(EMPTY.claims, []) && FoldedBy(NOTHING, []) by { NothingYet(); }
    RunFollows(cfg, EMPTY, NOTHING, [], steps);
    assert [] + Timeline(cfg, EMPTY, steps) == Timeline(cfg, EMPTY, steps);
    LapsedUnlessOvertaken(h, m, Timeline(cfg, EMPTY, steps), now);
    RecoveredClaims(h, m, high, now);
    DecodedComesBack(Sweep(h, now).claims, Recovered(m, now).claims);
    if AllLapsed(h, m, now) {
      RecoveredTokens(h, m, high, now);
      RecoveredEpoch(m, now);
    }
  }

  lemma NothingYet()
    ensures LiveBy(EMPTY.claims, []) && FoldedBy(NOTHING, [])
  {
    hide Decoded;
    forall t ensures LiveAt(EMPTY.claims, [], t) && FoldedAt(NOTHING.claims, [], t) {
      MarksStep([], Swept(0.0), t, 0.0);
    }
  }
}
