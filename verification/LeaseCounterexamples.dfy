/**
  * Short runs that mark the limits of what the other modules prove: an agent over the cap
  * and its refused renewal after a handoff, a renewal and an exclusion lost because stored
  * paths are normalised again, and a lapsed lease brought back by an early replay.
  */
module LeaseCounterexamples {
  import opened Wrappers
  import opened PathIdentity
  import opened Strings
  import opened Scoping
  import opened Lease
  import opened LeaseInvariants
  import opened LeaseDeclarations
  import opened LeaseQuota
  import opened LeaseLiveness
  import opened Journal

  lemma PlainPrincipal(agent: string)
    requires agent != "" && Trimmed(agent)
    ensures PrincipalOf(agent, None) == agent
  {
    StripTrimmed(agent);
  }

  /** The claim `Ask` is granted on a hub where it waits for nothing. */
  function Asked(cfg: Config, h: Hub, r: ClaimRequest, now: real): Claim {
    GrantedClaim(cfg, h, r, r.task, StoredScope(cfg, r.scope), now)
  }

  /** A fresh plain claim, on a hub without custody where nothing has lapsed. */
  lemma FreshAsk(cfg: Config, h: Hub, r: ClaimRequest, now: real)
    requires ValidConfig(cfg) && r.task != "" && Trimmed(r.task) && r.agent != "" && Trimmed(r.agent)
    requires r.scope.identity.None? && r.principal.None? && h.custody == map[] && r.task !in h.claims
    requires forall t :: t in h.claims ==> h.claims[t].expiresAt > now
    requires !ScopeBlocked(h.claims, r.task, r.agent, StoredScope(cfg, r.scope), cfg.u)
    requires |ChargedTo(h.claims, r.agent)| < cfg.maxClaims
    ensures var (h', o) := DoAcquire(cfg, h, r, now);
            && o.Granted? && h'.claims == h.claims[r.task := Asked(cfg, h, r, now)] && h'.custody == map[]
            && Payer(h'.claims[r.task]) == r.agent
  {
    hide Conflict, NormalizedPaths, ScopeBlocked, ChargedTo, Strip, Trimmed, Lapsing;
    StripTrimmed(r.task);
    PlainPrincipal(r.agent);
    assert Unexpired(h.claims, now) == h.claims;
    assert ResumeToken(Beat(h, r.agent, now), r.task, r.agent) == ResumeToken(h, r.task, r.agent) by {
      assert Lapsing(h.claims, now) == map[] by { NothingLapses(h.claims, now); }
    }
  }

  lemma NothingLapses(claims: map<string, Claim>, now: real)
    requires forall t :: t in claims ==> claims[t].expiresAt > now
    ensures Lapsing(claims, now) == map[]
  {
  }

  // ---------------------------------------------------------------- the cap after a handoff

  const T1_OF_A := Ask("A", "T1", "w1", [])
  const T1_OF_B := Ask("B", "T1", "w1", [])
  const T2_OF_B := Ask("B", "T2", "w2", [])
  const GIVE := Handoff("A", "T1", "B", None, None)
  const HANDED_THEN_FULL := [Step(Acquire(T1_OF_A), 0.0), Step(GIVE, 0.0), Step(Acquire(T2_OF_B), 0.0)]

  lemma FirstClaim(cfg: Config, h: Hub)
    requires ValidConfig(cfg) && h == DoAcquire(cfg, EMPTY, T1_OF_A, 0.0).0
    ensures h.claims.Keys == {"T1"} && h.custody == map[]
    ensures var c := h.claims["T1"]; c.owner == "A" && c.principal == "A" && c.scope == T1_OF_A.scope && c.expiresAt > 0.0
  {
    hide NormalizedPaths, Strip;
    assert ChargedTo(map[], "A") == {};
    FreshAsk(cfg, EMPTY, T1_OF_A, 0.0);
    PlainPrincipal("A");
  }

  lemma Handed(cfg: Config, h: Hub, h': Hub)
    requires ValidConfig(cfg) && h.claims.Keys == {"T1"} && h.custody == map[]
    requires var c := h.claims["T1"]; c.owner == "A" && c.principal == "A" && c.scope == T1_OF_A.scope && c.expiresAt > 0.0
    requires h' == DoHandoff(cfg, h, GIVE, 0.0).0
    ensures h'.claims.Keys == {"T1"} && h'.custody == map[]
    ensures var c := h'.claims["T1"]; c.owner == "B" && c.principal == "A" && c.scope == T1_OF_A.scope && c.expiresAt > 0.0
  {
    hide Conflict, Strip, Lapsing;
    StripTrimmed("T1");
    StripTrimmed("B");
    assert ChargedTo(Unexpired(h.claims, 0.0), "B") == {};
  }

  lemma SecondClaim(cfg: Config, h: Hub, h': Hub)
    requires ValidConfig(cfg) && h.claims.Keys == {"T1"} && h.custody == map[]
    requires var c := h.claims["T1"]; c.owner == "B" && c.principal == "A" && c.scope == T1_OF_A.scope && c.expiresAt > 0.0
    requires h' == DoAcquire(cfg, h, T2_OF_B, 0.0).0
    ensures h'.claims.Keys == {"T1", "T2"} && h'.custody == map[] && h'.claims["T1"] == h.claims["T1"]
    ensures Payer(h'.claims["T2"]) == "B" && h'.claims["T2"].owner == "B" && h'.claims["T2"].expiresAt > 0.0
  {
    hide NormalizedPaths, Strip, Conflict;
    assert ChargedTo(h.claims, "B") == {};
    FreshAsk(cfg, h, T2_OF_B, 0.0);
  }

  /** With a cap of one: A hands T1 to B, B claims T2, and B can no longer renew T1. */
  lemma RenewalAfterHandoffIsRefused(cfg: Config)
    requires ValidConfig(cfg) && cfg.maxClaims == 1
    ensures var h := Run(cfg, EMPTY, HANDED_THEN_FULL);
            && OwnedBy(h.claims, "B") == {"T1", "T2"}
            && Renews(h, T1_OF_B, "T1", 0.0) && DoAcquire(cfg, h, T1_OF_B, 0.0).1 == Refused(QuotaExceeded)
  {
    hide DoAcquire, DoHandoff, Run;
    var h1 := Apply(cfg, EMPTY, Acquire(T1_OF_A), 0.0).0;
    var h2 := Apply(cfg, h1, GIVE, 0.0).0;
    var h3 := Apply(cfg, h2, Acquire(T2_OF_B), 0.0).0;
    FirstClaim(cfg, h1);
    Handed(cfg, h1, h2);
    SecondClaim(cfg, h2, h3);
    ThreeSteps(cfg, EMPTY, HANDED_THEN_FULL[0], HANDED_THEN_FULL[1], HANDED_THEN_FULL[2]);
    StripTrimmed("T1");
    RenewalOverCap(cfg, h3);
  }

  lemma TwoSteps(cfg: Config, h: Hub, s: Step, t: Step)
    ensures Run(cfg, h, [s, t]) == Apply(cfg, Apply(cfg, h, s.op, s.now).0, t.op, t.now).0
  {
    hide Apply, Run;
    var h' := Apply(cfg, h, s.op, s.now).0;
    assert [s, t][1..] == [t] && [t][1..] == [];
    RunStep(cfg, h, [s, t]);
    RunStep(cfg, h', [t]);
    RunStep(cfg, Apply(cfg, h', t.op, t.now).0, []);
  }

  lemma ThreeSteps(cfg: Config, h: Hub, s: Step, t: Step, u: Step)
    ensures Run(cfg, h, [s, t, u]) ==
            Apply(cfg, Apply(cfg, Apply(cfg, h, s.op, s.now).0, t.op, t.now).0, u.op, u.now).0
  {
    hide Apply, Run;
    assert [s, t, u][1..] == [t, u];
    RunStep(cfg, h, [s, t, u]);
    TwoSteps(cfg, Apply(cfg, h, s.op, s.now).0, t, u);
  }

  lemma RenewalOverCap(cfg: Config, h: Hub)
    requires ValidConfig(cfg) && cfg.maxClaims == 1 && h.claims.Keys == {"T1", "T2"} && h.custody == map[]
    requires h.claims["T1"].owner == "B" && h.claims["T1"].principal == "A" && h.claims["T1"].expiresAt > 0.0
    requires Payer(h.claims["T2"]) == "B" && h.claims["T2"].owner == "B" && h.claims["T2"].expiresAt > 0.0
    ensures DoAcquire(cfg, h, T1_OF_B, 0.0).1 == Refused(QuotaExceeded)
  {
    hide NormalizedPaths, Strip, Conflict, Lapsing;
    StripTrimmed("T1");
    PlainPrincipal("B");
    assert ChargedTo(Unexpired(h.claims, 0.0), "B") == {"T2"};
  }

  // ---------------------------------------------------------------- no cap for a recipient

  /** Distinct agents, each named like its task and its worktree. */
  function Name(i: nat): (r: string)
    ensures |r| == i + 1 && Trimmed(r) && r != "B"
  {
    seq(i + 1, _ => 'a')
  }

  function GiftRequest(i: nat): ClaimRequest {
    Ask(Name(i), Name(i), Name(i), [])
  }

  function Gift(i: nat): Op {
    Handoff(Name(i), Name(i), "B", None, None)
  }

  /** Agents in turn claim a worktree of their own and hand it to B. */
  function Gifts(n: nat): seq<Step> {
    if n == 0 then []
    else Gifts(n - 1) + [Step(Acquire(GiftRequest(n - 1)), 0.0), Step(Gift(n - 1), 0.0)]
  }

  ghost predicate Collected(h: Hub, n: nat) {
    && h.custody == map[] && h.claims.Keys == (set i | 0 <= i < n :: Name(i))
    && forall i :: 0 <= i < n ==> GivenToB(h.claims[Name(i)], i)
  }

  predicate GivenToB(c: Claim, i: nat) {
    c.owner == "B" && c.principal == Name(i) && c.scope == Scope(Name(i), [], None) && c.expiresAt > 0.0
  }

  lemma GiftClaimed(cfg: Config, h: Hub, n: nat)
    requires ValidConfig(cfg) && Collected(h, n)
    ensures var (h', o) := DoAcquire(cfg, h, GiftRequest(n), 0.0);
            && h'.custody == map[] && Name(n) !in h.claims && h'.claims.Keys == h.claims.Keys + {Name(n)}
            && (forall t :: t in h.claims ==> h'.claims[t] == h.claims[t])
            && var c := h'.claims[Name(n)];
               c.owner == Name(n) && c.principal == Name(n) && c.scope == Scope(Name(n), [], None) && c.expiresAt > 0.0
  {
    hide Name, NormalizedPaths, Strip;
    var r := GiftRequest(n);
    assert StoredScope(cfg, r.scope) == r.scope;
    forall t | t in h.claims
      ensures h.claims[t].expiresAt > 0.0 && Payer(h.claims[t]) != r.agent && t != r.task
      ensures !Conflict(r.scope, h.claims[t].scope, cfg.u)
    {
      var i :| 0 <= i < n && t == Name(i);
      assert GivenToB(h.claims[t], i) && |Name(i)| != |Name(n)|;
    }
    assert ChargedTo(h.claims, r.agent) == {};
    FreshAsk(cfg, h, r, 0.0);
    PlainPrincipal(Name(n));
  }

  ghost predicate Offered(h: Hub, n: nat) {
    && h.custody == map[] && h.claims.Keys == (set i | 0 <= i < n :: Name(i)) + {Name(n)}
    && (forall i :: 0 <= i < n ==> GivenToB(h.claims[Name(i)], i))
    && var c := h.claims[Name(n)];
       c.owner == Name(n) && c.principal == Name(n) && c.scope == Scope(Name(n), [], None) && c.expiresAt > 0.0
  }

  lemma GiftOffered(cfg: Config, h: Hub, n: nat)
    requires ValidConfig(cfg) && Collected(h, n)
    ensures Offered(DoAcquire(cfg, h, GiftRequest(n), 0.0).0, n)
  {
    hide Name, DoAcquire, GivenToB;
    GiftClaimed(cfg, h, n);
  }

  lemma NobodyElseAt(cfg: Config, h: Hub, n: nat)
    requires Offered(h, n)
    ensures forall t :: t in h.claims ==> h.claims[t].expiresAt > 0.0 && Payer(h.claims[t]) != "B"
    ensures forall t :: t in h.claims && t != Name(n) ==> !Conflict(Scope(Name(n), [], None), h.claims[t].scope, cfg.u)
  {
    hide Name;
    forall t | t in h.claims && t != Name(n)
      ensures h.claims[t].expiresAt > 0.0 && !Conflict(Scope(Name(n), [], None), h.claims[t].scope, cfg.u)
      ensures Payer(h.claims[t]) != "B"
    {
      var i :| 0 <= i < n && t == Name(i);
      assert GivenToB(h.claims[t], i) && |Name(i)| != |Name(n)|;
    }
  }

  lemma GiftMoved(cfg: Config, h: Hub, n: nat)
    requires ValidConfig(cfg) && Offered(h, n)
    ensures Collected(DoHandoff(cfg, h, Gift(n), 0.0).0, n + 1)
  {
    hide Name, Strip, Lapsing, Conflict, GivenToB, Payer, DoHandoff;
    var h' := DoHandoff(cfg, h, Gift(n), 0.0).0;
    GiftTaken(cfg, h, n);
    forall i | 0 <= i < n ensures GivenToB(h'.claims[Name(i)], i) {
      assert |Name(i)| != |Name(n)|;
    }
    assert GivenToB(h'.claims[Name(n)], n) by { GivenByPayer(h.claims[Name(n)], h'.claims[Name(n)], n); }
    assert (set i | 0 <= i < n + 1 :: Name(i)) == (set i | 0 <= i < n :: Name(i)) + {Name(n)};
  }

  lemma GivenByPayer(c: Claim, d: Claim, n: nat)
    requires c.owner == Name(n) && c.principal == Name(n) && c.scope == Scope(Name(n), [], None)
    requires d.owner == "B" && d.principal == Payer(c) && d.scope == c.scope && d.expiresAt > 0.0
    ensures GivenToB(d, n)
  {
    hide Name;
  }

  lemma GiftTaken(cfg: Config, h: Hub, n: nat)
    requires ValidConfig(cfg) && Offered(h, n)
    ensures var h' := DoHandoff(cfg, h, Gift(n), 0.0).0;
            && h'.custody == map[] && h'.claims.Keys == h.claims.Keys
            && (forall t :: t in h.claims && t != Name(n) ==> h'.claims[t] == h.claims[t])
            && var c := h'.claims[Name(n)];
               c.owner == "B" && c.principal == Payer(h.claims[Name(n)]) && c.scope == h.claims[Name(n)].scope && c.expiresAt > 0.0
  {
    hide Name, Strip, Lapsing, Conflict, GivenToB, Payer;
    StripTrimmed(Name(n));
    StripTrimmed("B");
    NobodyElseAt(cfg, h, n);
    assert Unexpired(h.claims, 0.0) == h.claims;
    assert ChargedTo(h.claims, "B") == {};
  }

  lemma NoGifts()
    ensures Collected(EMPTY, 0)
  {
  }

  lemma {:induction false} GiftsCollect(cfg: Config, n: nat)
    requires ValidConfig(cfg)
    ensures Collected(Run(cfg, EMPTY, Gifts(n)), n)
  {
    hide DoAcquire, DoHandoff, Run, Name, Collected, Offered;
    if n == 0 {
      assert Collected(EMPTY, 0) by { NoGifts(); }
      RunStep(cfg, EMPTY, []);
    } else {
      var h := Run(cfg, EMPTY, Gifts(n - 1));
      GiftsCollect(cfg, n - 1);
      GiftOffered(cfg, h, n - 1);
      GiftMoved(cfg, DoAcquire(cfg, h, GiftRequest(n - 1), 0.0).0, n - 1);
      RunAppend(cfg, EMPTY, Gifts(n - 1), [Step(Acquire(GiftRequest(n - 1)), 0.0), Step(Gift(n - 1), 0.0)]);
      TwoSteps(cfg, h, Step(Acquire(GiftRequest(n - 1)), 0.0), Step(Gift(n - 1), 0.0));
    }
  }

  /** Whatever the cap, handoffs alone let one agent own any number of claims. */
  lemma RecipientHasNoCap(cfg: Config, n: nat)
    requires ValidConfig(cfg)
    ensures |OwnedBy(Run(cfg, EMPTY, Gifts(n)).claims, "B")| == n
  {
    hide Run, Name;
    GiftsCollect(cfg, n);
    var claims := Run(cfg, EMPTY, Gifts(n)).claims;
    assert OwnedBy(claims, "B") == set i | 0 <= i < n :: Name(i);
    CountNames(n);
  }

  lemma {:induction false} CountNames(n: nat)
    ensures |set i | 0 <= i < n :: Name(i)| == n
  {
    hide Name;
    if n > 0 {
      CountNames(n - 1);
      var fewer := set i | 0 <= i < n - 1 :: Name(i);
      assert Name(n - 1) !in fewer by {
        forall i | 0 <= i < n - 1 ensures Name(i) != Name(n - 1) { assert |Name(i)| != |Name(n - 1)|; }
      }
      assert (set i | 0 <= i < n :: Name(i)) == fewer + {Name(n - 1)};
    }
  }

  // ---------------------------------------------------------------- paths normalised twice

  const DOTTED := "./ ./ x"
  const HALFWAY := " ./ x"

  const DOTTED_OF_A := Ask("A", "T1", "w", [DOTTED])
  const PLAIN_OF_B := Ask("B", "T2", "w", ["x"])
  const HALFWAY_OF_A := Ask("A", "T1", "w", [HALFWAY])
  const DOTTED_THEN_PLAIN := [Step(Acquire(DOTTED_OF_A), 0.0), Step(Acquire(PLAIN_OF_B), 0.0)]

  lemma ThreePasses()
    ensures Normalized(DOTTED) == HALFWAY && Normalized(HALFWAY) == " x" && Normalized(" x") == "x" && Normalized("x") == "x"
  {
    hide Components, Strip, Split;
    PassOne();
    PassTwo();
    PassThree();
  }

  lemma PassOne()
    ensures Normalized(DOTTED) == HALFWAY
  {
    hide Components, Strip, Split;
    var parts := [".", " .", " x"];
    assert parts[1..] == [" .", " x"] && parts[1..][1..] == [" x"];
    assert Join(parts, '/') == DOTTED;
    SegmentsOfJoin(DOTTED, parts);
    assert Kept([" x"]) == [" x"];
    assert Kept(parts[1..]) == [" .", " x"];
    assert Kept(parts) == [" .", " x"];
  }

  lemma PassTwo()
    ensures Normalized(HALFWAY) == " x"
  {
    hide Components, Strip, Split;
    var parts := [".", " x"];
    assert parts[1..] == [" x"];
    assert Join(parts, '/') == "./ x";
    SegmentsOfJoin("./ x", parts);
    assert Kept(parts) == [" x"];
    StripLeading(' ', "./ x");
    assert [' '] + "./ x" == HALFWAY;
  }

  lemma PassThree()
    ensures Normalized(" x") == "x" && Normalized("x") == "x"
  {
    hide Components, Strip, Split;
    assert Kept(["x"]) == ["x"];
    SegmentsOfJoin("x", ["x"]);
    StripLeading(' ', "x");
    assert [' '] + "x" == " x";
  }

  /**
    * A declares "./ ./ x", B then claims "x" beside it, and A's renewal with the paths the
    * hub stored for it is refused for B's claim: the stored path has moved under A's feet.
    */
  lemma RenewalOfUnsettledPathIsRefused(cfg: Config)
    requires ValidConfig(cfg) && AllPrintable(DOTTED, cfg.u.printable)
    ensures var h := Run(cfg, EMPTY, DOTTED_THEN_PLAIN);
            Renews(h, HALFWAY_OF_A, "T1", 0.0) && DoAcquire(cfg, h, HALFWAY_OF_A, 0.0).1 == Refused(ScopeTaken)
  {
    hide DoAcquire, Run;
    var h1 := Apply(cfg, EMPTY, Acquire(DOTTED_OF_A), 0.0).0;
    var h2 := Apply(cfg, h1, Acquire(PLAIN_OF_B), 0.0).0;
    DottedClaim(cfg, h1);
    PlainClaim(cfg, h1, h2);
    TwoSteps(cfg, EMPTY, DOTTED_THEN_PLAIN[0], DOTTED_THEN_PLAIN[1]);
    StripTrimmed("T1");
    BlockedRenewal(cfg, h2);
  }

  lemma DottedClaim(cfg: Config, h: Hub)
    requires ValidConfig(cfg) && AllPrintable(DOTTED, cfg.u.printable)
    requires h == DoAcquire(cfg, EMPTY, DOTTED_OF_A, 0.0).0
    ensures h.claims.Keys == {"T1"} && h.custody == map[]
    ensures var c := h.claims["T1"]; c.owner == "A" && c.scope == HALFWAY_OF_A.scope && c.expiresAt > 0.0
    ensures Payer(h.claims["T1"]) == "A"
  {
    hide NormalizedPaths, Strip, Normalized;
    ThreePasses();
    StoredAs(DOTTED, HALFWAY, cfg.maxPaths, cfg.u.printable);
    assert ChargedTo(map[], "A") == {};
    FreshAsk(cfg, EMPTY, DOTTED_OF_A, 0.0);
  }

  lemma PlainClaim(cfg: Config, h: Hub, h': Hub)
    requires ValidConfig(cfg) && AllPrintable(DOTTED, cfg.u.printable)
    requires h.claims.Keys == {"T1"} && h.custody == map[]
    requires var c := h.claims["T1"]; c.owner == "A" && c.scope == HALFWAY_OF_A.scope && c.expiresAt > 0.0
    requires Payer(h.claims["T1"]) == "A"
    requires h' == DoAcquire(cfg, h, PLAIN_OF_B, 0.0).0
    ensures h'.claims.Keys == {"T1", "T2"} && h'.custody == map[] && h'.claims["T1"] == h.claims["T1"]
    ensures var c := h'.claims["T2"]; c.owner == "B" && c.scope == PLAIN_OF_B.scope && c.expiresAt > 0.0
  {
    hide NormalizedPaths, Strip, Normalized, Conflict;
    ThreePasses();
    assert 'x' in DOTTED by { assert DOTTED[6] == 'x'; }
    StoredAs("x", "x", cfg.maxPaths, cfg.u.printable);
    OverlapOf(cfg, "x", HALFWAY);
    assert ChargedTo(h.claims, "B") == {};
    FreshAsk(cfg, h, PLAIN_OF_B, 0.0);
  }

  lemma OverlapOf(cfg: Config, p: string, q: string)
    ensures Conflict(Scope("w", [p], None), Scope("w", [q], None), cfg.u) == PathsOverlap(p, q)
    ensures !PathsOverlap("x", HALFWAY) && PathsOverlap(" x", "x")
  {
    ThreePasses();
    hide Normalized;
    assert " x"[0] == ' ' && "x"[0] == 'x';
  }

  lemma BlockedRenewal(cfg: Config, h: Hub)
    requires ValidConfig(cfg) && AllPrintable(DOTTED, cfg.u.printable)
    requires h.claims.Keys == {"T1", "T2"} && h.custody == map[]
    requires var c := h.claims["T1"]; c.owner == "A" && c.scope == HALFWAY_OF_A.scope && c.expiresAt > 0.0
    requires var c := h.claims["T2"]; c.owner == "B" && c.scope == PLAIN_OF_B.scope && c.expiresAt > 0.0
    ensures DoAcquire(cfg, h, HALFWAY_OF_A, 0.0).1 == Refused(ScopeTaken)
  {
    hide NormalizedPaths, Strip, Normalized, Conflict, Lapsing, PathsOverlap;
    ThreePasses();
    StripTrimmed("T1");
    assert AllPrintable(HALFWAY, cfg.u.printable) by {
      assert DOTTED[1..] == "/" + HALFWAY;
    }
    StoredAs(HALFWAY, " x", cfg.maxPaths, cfg.u.printable);
    OverlapOf(cfg, " x", "x");
    var s := Beat(h, "A", 0.0);
    assert Contends(s.claims, "T2", "T1", "A", StoredScope(cfg, HALFWAY_OF_A.scope), cfg.u);
  }

  // ---------------------------------------------------------------- declared files shared

  const SPACED := "./x /."
  const INSIDE := "x /y"

  const SPACED_OF_A := Ask("A", "T1", "w", [SPACED])
  const INSIDE_OF_B := Ask("B", "T2", "w", [INSIDE])
  const SPACED_THEN_INSIDE := [Step(Acquire(SPACED_OF_A), 0.0), Step(Acquire(INSIDE_OF_B), 0.0)]

  lemma SpacedPaths()
    ensures Components(SPACED) == ["x "] && Components(INSIDE) == ["x ", "y"]
    ensures Normalized(SPACED) == "x " && Normalized(INSIDE) == INSIDE
  {
    hide Components, Strip, Split;
    var spaced, inside := [".", "x ", "."], ["x ", "y"];
    assert spaced[1..] == ["x ", "."] && spaced[1..][1..] == ["."];
    assert Join(spaced, '/') == SPACED;
    SegmentsOfJoin(SPACED, spaced);
    assert Kept(["."]) == [] && Kept(["x ", "."]) == ["x "] && Kept(spaced) == ["x "];
    assert inside[1..] == ["y"];
    assert Join(inside, '/') == INSIDE;
    SegmentsOfJoin(INSIDE, inside);
    KeptAll(inside);
  }

  /** The overlap is there as declared, and gone once both paths are stored. */
  lemma SpacedLoses()
    ensures PathsOverlap(SPACED, INSIDE) && !PathsOverlap(Normalized(INSIDE), Normalized(SPACED))
  {
    hide Components, PathsOverlap, Normalized;
    SpacedPaths();
    OverlapIsAncestry(SPACED, INSIDE);
    assert LStrip("x ") == "x " && RStrip("x ") == "x" && RStrip("y") == "y" by {
      assert "x "[..1] == "x";
    }
    assert Loses(["x "], ["x ", "y"]);
    StoredOverlapIff(SPACED, INSIDE);
    OverlapSymmetric(Normalized(SPACED), Normalized(INSIDE));
  }

  lemma SpacedClaim(cfg: Config, h: Hub)
    requires ValidConfig(cfg) && AllPrintable(SPACED, cfg.u.printable)
    requires h == DoAcquire(cfg, EMPTY, SPACED_OF_A, 0.0).0
    ensures h.claims.Keys == {"T1"} && h.custody == map[]
    ensures var c := h.claims["T1"]; c.owner == "A" && c.scope == Scope("w", ["x "], None) && c.expiresAt > 0.0
    ensures Payer(h.claims["T1"]) == "A"
  {
    hide NormalizedPaths, Strip, Normalized, Components;
    SpacedPaths();
    StoredAs(SPACED, "x ", cfg.maxPaths, cfg.u.printable);
    assert ChargedTo(map[], "A") == {};
    FreshAsk(cfg, EMPTY, SPACED_OF_A, 0.0);
  }

  lemma InsideClaim(cfg: Config, h: Hub, h': Hub)
    requires ValidConfig(cfg) && AllPrintable(INSIDE, cfg.u.printable)
    requires h.claims.Keys == {"T1"} && h.custody == map[]
    requires var c := h.claims["T1"]; c.owner == "A" && c.scope == Scope("w", ["x "], None) && c.expiresAt > 0.0
    requires Payer(h.claims["T1"]) == "A"
    requires h' == DoAcquire(cfg, h, INSIDE_OF_B, 0.0).0
    ensures h'.claims.Keys == {"T1", "T2"} && h'.claims["T1"] == h.claims["T1"]
    ensures h'.claims["T2"].owner == "B" && h'.claims["T2"].scope == INSIDE_OF_B.scope
  {
    hide NormalizedPaths, Strip, Normalized, Conflict, PathsOverlap, Components;
    SpacedPaths();
    SpacedLoses();
    StoredAs(INSIDE, INSIDE, cfg.maxPaths, cfg.u.printable);
    OverlapOf(cfg, INSIDE, "x ");
    assert ChargedTo(h.claims, "B") == {};
    FreshAsk(cfg, h, INSIDE_OF_B, 0.0);
  }

  /**
    * A declares "./x /." and B the path "x /y" in the same worktree. Both claims are
    * granted, although the file "x /y" lies in both declarations: A's stored path "x "
    * is compared as "x".
    */
  lemma DeclaredFileIsShared(cfg: Config)
    requires ValidConfig(cfg) && AllPrintable(SPACED, cfg.u.printable) && AllPrintable(INSIDE, cfg.u.printable)
    ensures var h := Run(cfg, EMPTY, SPACED_THEN_INSIDE);
            && h.claims.Keys == {"T1", "T2"} && h.claims["T1"].owner == "A" && h.claims["T2"].owner == "B"
            && Declared(cfg, EMPTY, map[], SPACED_THEN_INSIDE) == map["T1" := [SPACED], "T2" := [INSIDE]]
            && Below(["x ", "y"], SPACED) && Below(["x ", "y"], INSIDE)
  {
    hide DoAcquire, Run, Components, Declared;
    var h1 := Apply(cfg, EMPTY, Acquire(SPACED_OF_A), 0.0).0;
    var h2 := Apply(cfg, h1, Acquire(INSIDE_OF_B), 0.0).0;
    SpacedClaim(cfg, h1);
    InsideClaim(cfg, h1, h2);
    TwoSteps(cfg, EMPTY, SPACED_THEN_INSIDE[0], SPACED_THEN_INSIDE[1]);
    SpacedPaths();
    GrantDeclares(cfg, EMPTY, h1, SPACED_OF_A);
    GrantDeclares(cfg, h1, h2, INSIDE_OF_B);
    assert SPACED_THEN_INSIDE[1..] == [SPACED_THEN_INSIDE[1]] && SPACED_THEN_INSIDE[1..][1..] == [];
    DeclaredStep(cfg, EMPTY, map[], SPACED_THEN_INSIDE);
    DeclaredStep(cfg, h1, map["T1" := [SPACED]], SPACED_THEN_INSIDE[1..]);
    DeclaredStep(cfg, h2, map["T1" := [SPACED], "T2" := [INSIDE]], []);
  }

  lemma GrantDeclares(cfg: Config, h: Hub, h': Hub, r: ClaimRequest)
    requires h' == DoAcquire(cfg, h, r, 0.0).0 && r.task !in h.claims && r.task in h'.claims && Trimmed(r.task)
    ensures DoAcquire(cfg, h, r, 0.0).1.Granted? && Strip(r.task) == r.task
  {
    hide NormalizedPaths, Strip, ValidatesDisplayScope, AcquireRefusal, Lapsing;
    StripTrimmed(r.task);
  }

  lemma DeclaredStep(cfg: Config, h: Hub, declared: map<string, seq<string>>, steps: seq<Step>)
    ensures Declared(cfg, h, declared, []) == declared
    ensures steps != [] ==>
              var (h', o) := Apply(cfg, h, steps[0].op, steps[0].now);
              Declared(cfg, h, declared, steps) == Declared(cfg, h', Declares(declared, steps[0].op, o), steps[1..])
  {
    hide Apply, Declares;
  }

  // ---------------------------------------------------------------- replay at an earlier clock

  const SAME_OF_B := Ask("B", "T2", "w1", [])

  /** A's lease on w1 lapses unlogged, then B claims w1. */
  function LapsedThenTaken(cfg: Config): seq<Step> {
    [Step(Acquire(T1_OF_A), 0.0), Step(Snapshot, cfg.defaultTtl), Step(Acquire(SAME_OF_B), cfg.defaultTtl)]
  }

  predicate HeldWhole(c: Claim, task: string, agent: string, until: real) {
    c.task == task && c.owner == agent && c.scope == Scope("w1", [], None) && c.expiresAt == until
  }

  lemma Taken(cfg: Config, h: Hub, r: ClaimRequest, now: real)
    requires ValidConfig(cfg) && h.claims == map[] && h.custody == map[] && (r == T1_OF_A || r == SAME_OF_B)
    requires h.expired == map[]
    ensures var (h', o) := DoAcquire(cfg, h, r, now);
            && o.Granted? && h'.custody == map[] && h'.claims.Keys == {r.task}
            && HeldWhole(h'.claims[r.task], r.task, r.agent, now + cfg.defaultTtl)
            && h'.claims[r.task].checkpoint == "" && h'.expired == map[]
            && h'.claims[r.task].ownershipEpoch == h'.claims[r.task].epoch
  {
    hide NormalizedPaths, Strip, Trimmed, Conflict;
    StripTrimmed(r.task);
    assert Trimmed(r.task) && Trimmed(r.agent) by { SpelledPlainly(); }
    assert ChargedTo(map[], r.agent) == {};
    FreshAsk(cfg, h, r, now);
  }

  lemma SpelledPlainly()
    ensures Trimmed("T1") && Trimmed("T2") && Trimmed("A") && Trimmed("B")
  {
  }

  lemma SweptClean(h: Hub, now: real)
    requires h.claims.Keys == {"T1"} && h.claims["T1"].expiresAt <= now && h.claims["T1"].checkpoint == ""
    requires h.expired == map[]
    ensures Sweep(h, now).claims == map[] && Sweep(h, now).expired == map[]
  {
  }

  /** The log of that run: two snapshots, and nothing about the expiry between them. */
  lemma LogOfLapsed(cfg: Config) returns (first: Claim, second: Claim)
    requires ValidConfig(cfg)
    ensures Log(cfg, EMPTY, LapsedThenTaken(cfg)) == [Snapshotted(first), Snapshotted(second)]
    ensures HeldWhole(first, "T1", "A", cfg.defaultTtl) && first.ownershipEpoch == first.epoch
    ensures HeldWhole(second, "T2", "B", 2.0 * cfg.defaultTtl) && second.ownershipEpoch == second.epoch
    ensures Run(cfg, EMPTY, LapsedThenTaken(cfg)).claims == map["T2" := second]
  {
    hide DoAcquire, Run, Log, Sweep, Strip, HeldWhole, Trimmed;
    var d, steps := cfg.defaultTtl, LapsedThenTaken(cfg);
    var h1 := DoAcquire(cfg, EMPTY, T1_OF_A, 0.0).0;
    var h2 := Sweep(h1, d);
    var h3 := DoAcquire(cfg, h2, SAME_OF_B, d).0;
    Taken(cfg, EMPTY, T1_OF_A, 0.0);
    assert h1.claims["T1"].expiresAt == d by { Until(h1.claims["T1"], "T1", "A", 0.0 + d); }
    SweptClean(h1, d);
    assert h2.custody == map[] by { SweptCustody(h1, d); }
    Taken(cfg, h2, SAME_OF_B, d);
    first, second := h1.claims["T1"], h3.claims["T2"];
    assert Strip("T1") == "T1" && Strip("T2") == "T2" by { SpelledPlainly(); StripTrimmed("T1"); StripTrimmed("T2"); }
    assert steps[1..] == [steps[1], steps[2]] && steps[1..][1..] == [steps[2]] && steps[1..][1..][1..] == [];
    LogStep(cfg, EMPTY, steps);
    LogStep(cfg, h1, steps[1..]);
    LogStep(cfg, h2, [steps[2]]);
    LogStep(cfg, h3, []);
    ThreeSteps(cfg, EMPTY, steps[0], steps[1], steps[2]);
    assert 0.0 + d == d && d + d == 2.0 * d;
  }

  lemma Until(c: Claim, task: string, agent: string, until: real)
    requires HeldWhole(c, task, agent, until)
    ensures c.expiresAt == until
  {
  }

  lemma SweptCustody(h: Hub, now: real)
    ensures Sweep(h, now).custody == h.custody
  {
  }

  lemma LogStep(cfg: Config, h: Hub, steps: seq<Step>)
    ensures Log(cfg, h, []) == []
    ensures steps != [] ==>
              var (h', o) := Apply(cfg, h, steps[0].op, steps[0].now);
              Log(cfg, h, steps) == Logged(steps[0].op, h', o) + Log(cfg, h', steps[1..])
  {
    hide Apply, Logged;
  }

  /**
    * Replayed at a moment before the expiry, the same log hands w1 to both owners: the
    * clock bound of `Journal.RecoveryIsExact` is needed, and mutual exclusion falls with it.
    */
  lemma EarlierClockResurrects(cfg: Config)
    requires ValidConfig(cfg)
    ensures var m := Remembered(cfg, LapsedThenTaken(cfg));
            && m.Rebuilt?
            && var r, live := Recovered(m, 0.0), Run(cfg, EMPTY, LapsedThenTaken(cfg));
               && live.claims.Keys == {"T2"} && r.claims.Keys == {"T1", "T2"}
               && r.claims["T1"].owner != r.claims["T2"].owner
               && Conflict(r.claims["T1"].scope, r.claims["T2"].scope, cfg.u)
  {
    hide Log, Run, Fold, Decoded, Conflict;
    var first, second := LogOfLapsed(cfg);
    var log := [Snapshotted(first), Snapshotted(second)];
    assert log[1..] == [Snapshotted(second)] && [Snapshotted(second)][1..] == [];
    FoldStep(cfg.u, NOTHING, log);
    FoldStep(cfg.u, ApplyEvent(cfg.u, NOTHING, log[0]), log[1..]);
    FoldStep(cfg.u, ApplyEvent(cfg.u, ApplyEvent(cfg.u, NOTHING, log[0]), log[1]), []);
    DecodedKeeps(first);
    DecodedKeeps(second);
    WholeWorktreeConflicts(first.scope, second.scope, cfg.u);
  }
}
