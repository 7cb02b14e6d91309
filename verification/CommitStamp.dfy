/**
  * The commit-message hook and the history audit: what the hook accepts, how it stamps a
  * message, and that a stamped message passes both again. Which seats are allowed and
  * which subjects are forbidden are parameters; everything else is spelled out.
  */
module CommitStamp {
  import opened Wrappers
  import opened Strings

  // Split after the first word: the verifier does not reach the head of so long a literal.
  const AUTHORSHIP := "Authored" + " by Anulum Fortis & Arcane Sapience (protoscience@anulum.li)"
  const SEAT_PREFIX := "Seat:"
  const STAMP_PREFIX := "Hooks-Verified:"
  const STAMP_HEAD := "Hooks-Verified: pre-commit sha256:"

  /** The seat and subject patterns: verdicts on a stripped seat line and on a subject. */
  datatype Rules = Rules(validSeat: string -> bool, vendorSeat: string -> bool, forbidden: string -> bool)

  datatype Violation =
    | AuthorshipCount | SeatCount | InvalidSeat | VendorSeat | SeatPlacement
    | StampCount | StampShape | ForbiddenSubject | NoStamp | ForeignStamp

  // ---------------------------------------------------------------- lines

  predicate IsSeat(line: string) {
    StartsWith(LStrip(line), SEAT_PREFIX)
  }

  predicate IsStamp(line: string) {
    StartsWith(LStrip(line), STAMP_PREFIX)
  }

  predicate IsAuthorship(line: string) {
    Strip(line) == AUTHORSHIP
  }

  predicate IsBlank(line: string) {
    Strip(line) == ""
  }

  predicate IsHex(c: char) {
    '0' <= c <= '9' || 'a' <= c <= 'f'
  }

  predicate IsDigest(digest: string) {
    |digest| == 16 && forall c :: c in digest ==> IsHex(c)
  }

  function StampLine(digest: string): string {
    STAMP_HEAD + digest
  }

  /** The full stamp pattern, on a stripped line. */
  predicate IsFullStamp(stripped: string) {
    StartsWith(stripped, STAMP_HEAD) && IsDigest(stripped[|STAMP_HEAD|..])
  }

  /** A line is at most one of these. */
  lemma LineKinds(line: string)
    ensures IsSeat(line) ==> !IsStamp(line) && !IsAuthorship(line) && !IsBlank(line)
    ensures IsStamp(line) ==> !IsAuthorship(line) && !IsBlank(line)
    ensures IsAuthorship(line) ==> !IsBlank(line)
    ensures IsFullStamp(Strip(line)) ==> IsStamp(line)
  {
    StrippedHead(line);
    assert SEAT_PREFIX[0] == 'S' && STAMP_PREFIX[0] == 'H' && AUTHORSHIP[0] == 'A' && STAMP_HEAD[..|STAMP_PREFIX|] == STAMP_PREFIX;
    if IsFullStamp(Strip(line)) {
      assert LStrip(line)[..|STAMP_PREFIX|] == Strip(line)[..|STAMP_HEAD|][..|STAMP_PREFIX|];
    }
  }

  lemma StrippedHead(line: string)
    ensures Strip(line) <= LStrip(line)
    ensures LStrip(line) != "" && !IsSpace(LStrip(line)[0]) ==> Strip(line) != "" && Strip(line)[0] == LStrip(line)[0]
    ensures LStrip(line) != "" ==> !IsSpace(LStrip(line)[0])
  {
    RStripPrefix(LStrip(line));
    LStripSuffix(line);
    if LStrip(line) != "" {
      RStripKeepsHead(LStrip(line));
    }
  }

  lemma {:induction false} RStripKeepsHead(s: string)
    requires s != "" && !IsSpace(s[0])
    ensures RStrip(s) != "" && RStrip(s)[0] == s[0]
  {
    if IsSpace(s[|s| - 1]) {
      RStripKeepsHead(s[..|s| - 1]);
    }
  }

  lemma StampLineKind(digest: string)
    requires IsDigest(digest)
    ensures IsStamp(StampLine(digest)) && IsFullStamp(Strip(StampLine(digest))) && Strip(StampLine(digest)) == StampLine(digest)
    ensures !IsSeat(StampLine(digest)) && !IsAuthorship(StampLine(digest)) && !IsBlank(StampLine(digest))
  {
    var line := StampLine(digest);
    assert line[0] == 'H' && line[|line| - 1] == digest[15] && IsHex(digest[15]);
    assert Trimmed(line);
    StripTrimmed(line);
    assert line[..|STAMP_HEAD|] == STAMP_HEAD && line[|STAMP_HEAD|..] == digest;
    LineKinds(line);
  }

  // ---------------------------------------------------------------- counting lines

  function Count(lines: seq<string>, p: string -> bool): nat {
    if lines == [] then 0 else (if p(lines[0]) then 1 else 0) + Count(lines[1..], p)
  }

  /** The first line with the property; the number of lines when there is none. */
  function First(lines: seq<string>, p: string -> bool): (i: nat)
    ensures i <= |lines| && (i < |lines| ==> p(lines[i])) && forall j :: 0 <= j < i ==> !p(lines[j])
  {
    if lines == [] then 0
    else if p(lines[0]) then 0
    else 1 + First(lines[1..], p)
  }

  lemma {:induction false} CountAppend(a: seq<string>, b: seq<string>, p: string -> bool)
    ensures Count(a + b, p) == Count(a, p) + Count(b, p)
  {
    if a == [] {
      assert a + b == b;
    } else {
      assert (a + b)[1..] == a[1..] + b;
      CountAppend(a[1..], b, p);
    }
  }

  lemma CountParts(a: seq<string>, x: string, b: seq<string>, p: string -> bool)
    ensures Count(a + [x] + b, p) == Count(a, p) + (if p(x) then 1 else 0) + Count(b, p)
  {
    CountAppend(a, [x], p);
    CountAppend(a + [x], b, p);
  }

  lemma {:induction false} CountNone(lines: seq<string>, p: string -> bool)
    ensures Count(lines, p) == 0 <==> forall line :: line in lines ==> !p(line)
  {
    if lines != [] {
      CountNone(lines[1..], p);
      assert lines == [lines[0]] + lines[1..];
    }
  }

  lemma FirstAt(a: seq<string>, x: string, b: seq<string>, p: string -> bool)
    requires p(x) && Count(a, p) == 0
    ensures First(a + [x] + b, p) == |a|
  {
    CountNone(a, p);
    var lines := a + [x] + b;
    assert lines[|a|] == x;
    forall j | 0 <= j < |a| ensures !p(lines[j]) {
      assert a[j] in a;
    }
  }

  lemma FirstExists(lines: seq<string>, p: string -> bool)
    ensures First(lines, p) < |lines| <==> Count(lines, p) > 0
  {
    CountNone(lines, p);
    if First(lines, p) < |lines| {
      assert lines[First(lines, p)] in lines;
    }
  }

  // ---------------------------------------------------------------- the hook's verdict

  /** The first non-blank line, stripped. */
  function Subject(lines: seq<string>): string {
    var i := First(lines, line => !IsBlank(line));
    if i < |lines| then Strip(lines[i]) else ""
  }

  function SeatViolations(lines: seq<string>, rules: Rules): seq<Violation> {
    if Count(lines, IsSeat) != 1 then [SeatCount]
    else
      var i := First(lines, IsSeat);
      if i == |lines| || !rules.validSeat(Strip(lines[i])) then [InvalidSeat]
      else if rules.vendorSeat(Strip(lines[i])) then [VendorSeat]
      else []
  }

  function PlacementViolations(lines: seq<string>): seq<Violation> {
    if Count(lines, IsAuthorship) != 1 || Count(lines, IsSeat) != 1 then []
    else
      var seat, author := First(lines, IsSeat), First(lines, IsAuthorship);
      if seat >= author || exists k :: seat < k < author && !IsBlank(lines[k]) then [SeatPlacement] else []
  }

  function StampViolations(lines: seq<string>): seq<Violation> {
    if Count(lines, IsStamp) > 1 then [StampCount]
    else
      var i := First(lines, IsStamp);
      if i < |lines| && !IsFullStamp(Strip(lines[i])) then [StampShape] else []
  }

  function MessageViolations(lines: seq<string>, rules: Rules): seq<Violation> {
    (if Count(lines, IsAuthorship) != 1 then [AuthorshipCount] else []) +
    SeatViolations(lines, rules) + PlacementViolations(lines) + StampViolations(lines) +
    (if rules.forbidden(Subject(lines)) then [ForbiddenSubject] else [])
  }

  // ---------------------------------------------------------------- stamping

  function Unstamped(lines: seq<string>): (r: seq<string>)
    ensures forall line :: line in r <==> line in lines && !IsStamp(line)
  {
    if lines == [] then []
    else (if IsStamp(lines[0]) then [] else [lines[0]]) + Unstamped(lines[1..])
  }

  /** The message with one stamp directly above its seat line; none when it has no seat line. */
  function Stamped(lines: seq<string>, digest: string): Option<seq<string>> {
    var kept := Unstamped(lines);
    var seat := First(kept, IsSeat);
    if seat == |kept| then None else Some(kept[..seat] + [StampLine(digest)] + kept[seat..])
  }

  lemma {:induction false} UnstampedAppend(a: seq<string>, b: seq<string>)
    ensures Unstamped(a + b) == Unstamped(a) + Unstamped(b)
  {
    if a == [] {
      assert a + b == b;
    } else {
      assert (a + b)[1..] == a[1..] + b;
      UnstampedAppend(a[1..], b);
    }
  }

  lemma {:induction false} UnstampedCounts(lines: seq<string>, p: string -> bool)
    requires forall line :: p(line) ==> !IsStamp(line)
    ensures Count(Unstamped(lines), p) == Count(lines, p)
    ensures Count(Unstamped(lines), IsStamp) == 0
  {
    if lines != [] {
      UnstampedCounts(lines[1..], p);
      var head := if IsStamp(lines[0]) then [] else [lines[0]];
      CountAppend(head, Unstamped(lines[1..]), p);
      CountAppend(head, Unstamped(lines[1..]), IsStamp);
    }
  }

  lemma {:induction false} UnstampedAgain(lines: seq<string>)
    requires Count(lines, IsStamp) == 0
    ensures Unstamped(lines) == lines
  {
    if lines != [] {
      UnstampedAgain(lines[1..]);
    }
  }

  /** The parts of a well-placed message: its seat line, nothing but blank lines, its authorship line. */
  datatype Parts = Parts(above: seq<string>, seat: string, gap: seq<string>, author: string, below: seq<string>)

  function Whole(m: Parts): seq<string> {
    m.above + [m.seat] + m.gap + [m.author] + m.below
  }

  ghost predicate WellPlaced(m: Parts) {
    && IsSeat(m.seat) && IsAuthorship(m.author)
    && Count(m.above, IsSeat) == 0 && Count(m.below, IsSeat) == 0
    && Count(m.above, IsAuthorship) == 0 && Count(m.below, IsAuthorship) == 0
    && forall line :: line in m.gap ==> IsBlank(line)
  }

  lemma BlankGap(gap: seq<string>)
    requires forall line :: line in gap ==> IsBlank(line)
    ensures Count(gap, IsSeat) == 0 && Count(gap, IsAuthorship) == 0 && Count(gap, IsStamp) == 0
    ensures Unstamped(gap) == gap
  {
    hide IsBlank, IsSeat, IsAuthorship, IsStamp;
    forall line | line in gap ensures !IsSeat(line) && !IsAuthorship(line) && !IsStamp(line) {
      LineKinds(line);
    }
    CountNone(gap, IsSeat);
    CountNone(gap, IsAuthorship);
    CountNone(gap, IsStamp);
    UnstampedAgain(gap);
  }

  /** Counting a property over the five parts. */
  lemma CountWhole(m: Parts, p: string -> bool)
    ensures Count(Whole(m), p) == Count(m.above, p) + (if p(m.seat) then 1 else 0) + Count(m.gap, p) +
                                  (if p(m.author) then 1 else 0) + Count(m.below, p)
  {
    CountParts(m.above, m.seat, m.gap, p);
    CountParts(m.above + [m.seat] + m.gap, m.author, m.below, p);
  }

  /** What a well-placed message satisfies: one seat line, one authorship line, the right way round. */
  lemma WellPlacedHolds(m: Parts)
    requires WellPlaced(m)
    ensures Count(Whole(m), IsSeat) == 1 && Count(Whole(m), IsAuthorship) == 1
    ensures First(Whole(m), IsSeat) == |m.above| && Whole(m)[|m.above|] == m.seat
    ensures PlacementViolations(Whole(m)) == []
  {
    hide IsBlank, IsSeat, IsAuthorship, IsStamp, Count, First;
    LineKinds(m.seat);
    LineKinds(m.author);
    BlankGap(m.gap);
    CountWhole(m, IsSeat);
    CountWhole(m, IsAuthorship);
    assert Whole(m) == m.above + [m.seat] + (m.gap + [m.author] + m.below);
    FirstAt(m.above, m.seat, m.gap + [m.author] + m.below, IsSeat);
    CountParts(m.above, m.seat, m.gap, IsAuthorship);
    FirstAt(m.above + [m.seat] + m.gap, m.author, m.below, IsAuthorship);
    forall k | |m.above| < k < |m.above| + 1 + |m.gap| ensures IsBlank(Whole(m)[k]) {
      assert Whole(m)[k] == m.gap[k - |m.above| - 1];
    }
  }

  /** A message without placement faults falls into such parts. */
  lemma PartsOf(lines: seq<string>) returns (m: Parts)
    requires Count(lines, IsSeat) == 1 && Count(lines, IsAuthorship) == 1 && PlacementViolations(lines) == []
    ensures WellPlaced(m) && Whole(m) == lines && m.seat == lines[First(lines, IsSeat)]
  {
    hide IsBlank, IsSeat, IsAuthorship, IsStamp, Count;
    FirstExists(lines, IsSeat);
    FirstExists(lines, IsAuthorship);
    var seat, author := First(lines, IsSeat), First(lines, IsAuthorship);
    m := Parts(lines[..seat], lines[seat], lines[seat + 1..author], lines[author], lines[author + 1..]);
    assert lines == Whole(m);
    forall line | line in m.gap ensures IsBlank(line) {
      var k :| 0 <= k < |m.gap| && m.gap[k] == line;
      assert lines[seat + 1 + k] == line;
    }
    LineKinds(m.seat);
    LineKinds(m.author);
    BlankGap(m.gap);
    CountWhole(m, IsSeat);
    CountWhole(m, IsAuthorship);
  }

  /** Stamping, part by part. */
  function StampedParts(m: Parts, digest: string): Parts {
    Parts(Unstamped(m.above) + [StampLine(digest)], m.seat, m.gap, m.author, Unstamped(m.below))
  }

  lemma StampedIs(m: Parts, digest: string)
    requires WellPlaced(m)
    ensures Stamped(Whole(m), digest) == Some(Whole(StampedParts(m, digest)))
  {
    hide IsBlank, IsSeat, IsAuthorship, IsStamp, Count, WellPlaced, Stamped, StampLine, Unstamped;
    UnstampedWhole(m);
    SeatFreeAbove(m);
    var above, below := Unstamped(m.above), Unstamped(m.below);
    StampedAt(Whole(m), above, m.seat, m.gap + [m.author] + below, digest);
    Reassociate(above, StampLine(digest), m.seat, m.gap, m.author, below);
  }

  lemma StampedAt(lines: seq<string>, above: seq<string>, seat: string, rest: seq<string>, digest: string)
    requires Unstamped(lines) == above + [seat] + rest && Count(above, IsSeat) == 0 && IsSeat(seat)
    ensures Stamped(lines, digest) == Some(above + [StampLine(digest)] + ([seat] + rest))
  {
    hide IsSeat, IsStamp, Count, First, StampLine, Unstamped;
    FirstAt(above, seat, rest, IsSeat);
    var kept := above + [seat] + rest;
    assert kept[..|above|] == above && kept[|above|..] == [seat] + rest;
  }

  lemma Reassociate(a: seq<string>, x: string, y: string, b: seq<string>, z: string, c: seq<string>)
    ensures a + [x] + ([y] + (b + [z] + c)) == a + [x] + [y] + b + [z] + c
  {
  }

  lemma SeatFreeAbove(m: Parts)
    requires WellPlaced(m)
    ensures Count(Unstamped(m.above), IsSeat) == 0 && IsSeat(m.seat)
  {
    hide IsBlank, IsSeat, IsAuthorship, IsStamp, Count;
    NoStampIs();
    UnstampedCounts(m.above, IsSeat);
  }

  lemma StampedStaysPlaced(m: Parts, digest: string)
    requires WellPlaced(m) && IsDigest(digest)
    ensures WellPlaced(StampedParts(m, digest))
    ensures Count(Unstamped(m.above), IsStamp) == 0 && Count(Unstamped(m.below), IsStamp) == 0
  {
    hide IsBlank, IsSeat, IsAuthorship, IsStamp, Count, First, IsDigest;
    StampLineKind(digest);
    NoStampIs();
    UnstampedCounts(m.above, IsSeat);
    UnstampedCounts(m.above, IsAuthorship);
    UnstampedCounts(m.below, IsSeat);
    UnstampedCounts(m.below, IsAuthorship);
    CountSingle(StampLine(digest), IsSeat);
    CountSingle(StampLine(digest), IsAuthorship);
    CountAppend(Unstamped(m.above), [StampLine(digest)], IsSeat);
    CountAppend(Unstamped(m.above), [StampLine(digest)], IsAuthorship);
  }

  lemma CountSingle(x: string, p: string -> bool)
    ensures Count([x], p) == if p(x) then 1 else 0
  {
    assert [x][1..] == [];
  }

  lemma NoStampIs()
    ensures forall line :: IsSeat(line) ==> !IsStamp(line)
    ensures forall line :: IsAuthorship(line) ==> !IsStamp(line)
  {
    hide IsBlank, IsSeat, IsAuthorship, IsStamp;
    forall line ensures (IsSeat(line) ==> !IsStamp(line)) && (IsAuthorship(line) ==> !IsStamp(line)) {
      LineKinds(line);
    }
  }

  lemma UnstampedAround(a: seq<string>, x: string, b: seq<string>)
    requires !IsStamp(x)
    ensures Unstamped(a + [x] + b) == Unstamped(a) + [x] + Unstamped(b)
  {
    hide IsStamp;
    UnstampedAppend(a + [x], b);
    UnstampedAppend(a, [x]);
    UnstampedSingle(x);
  }

  lemma UnstampedSingle(x: string)
    ensures !IsStamp(x) ==> Unstamped([x]) == [x]
  {
    assert [x][1..] == [];
  }

  lemma UnstampedWhole(m: Parts)
    requires WellPlaced(m)
    ensures Unstamped(Whole(m)) == Unstamped(m.above) + [m.seat] + (m.gap + [m.author] + Unstamped(m.below))
  {
    hide IsBlank, IsSeat, IsAuthorship, IsStamp, Count, Unstamped;
    LineKinds(m.seat);
    LineKinds(m.author);
    BlankGap(m.gap);
    var rest := m.gap + [m.author] + m.below;
    assert Whole(m) == m.above + [m.seat] + rest;
    UnstampedAround(m.above, m.seat, rest);
    UnstampedAround(m.gap, m.author, m.below);
  }

  // ---------------------------------------------------------------- what a stamped message is

  predicate Valid(lines: seq<string>, rules: Rules) {
    MessageViolations(lines, rules) == []
  }

  predicate SeatAllowed(seat: string, rules: Rules) {
    rules.validSeat(Strip(seat)) && !rules.vendorSeat(Strip(seat))
  }

  /** A valid message has its parts, an allowed seat, at most one well-formed stamp and an allowed subject. */
  lemma ValidParts(lines: seq<string>, rules: Rules) returns (m: Parts)
    requires Valid(lines, rules)
    ensures WellPlaced(m) && Whole(m) == lines && SeatAllowed(m.seat, rules)
  {
    hide IsBlank, IsSeat, IsAuthorship, IsStamp, Count, PlacementViolations, StampViolations, Whole, WellPlaced;
    assert SeatViolations(lines, rules) == [] && PlacementViolations(lines) == [] && Count(lines, IsAuthorship) == 1;
    m := PartsOf(lines);
  }

  /** Conversely these make a message valid. */
  lemma PartsAreValid(m: Parts, rules: Rules)
    requires WellPlaced(m) && SeatAllowed(m.seat, rules) && StampViolations(Whole(m)) == []
    ensures Valid(Whole(m), rules) <==> !rules.forbidden(Subject(Whole(m)))
  {
    hide IsBlank, IsSeat, IsAuthorship, IsStamp, Count, First, PlacementViolations, StampViolations, WellPlaced, Subject;
    WellPlacedHolds(m);
    assert Whole(m)[|m.above|] == m.seat;
    assert |m.above| < |Whole(m)| by { hide *; WholeIsLonger(m); }
  }

  lemma WholeIsLonger(m: Parts)
    ensures |m.above| < |Whole(m)|
  {
  }

  /** The stamp count of a stamped message: the one just put in. */
  lemma OneStamp(m: Parts, digest: string)
    requires WellPlaced(m) && IsDigest(digest)
    ensures var r := Whole(StampedParts(m, digest));
            && Count(r, IsStamp) == 1 && First(r, IsStamp) == |Unstamped(m.above)| < |r|
            && r[|Unstamped(m.above)|] == StampLine(digest) && StampViolations(r) == []
  {
    hide IsBlank, IsSeat, IsAuthorship, IsStamp, Count, First, IsDigest, IsFullStamp;
    var p := StampedParts(m, digest);
    StampedStaysPlaced(m, digest);
    StampLineKind(digest);
    LineKinds(m.seat);
    LineKinds(m.author);
    BlankGap(m.gap);
    CountWhole(p, IsStamp);
    CountAppend(Unstamped(m.above), [StampLine(digest)], IsStamp);
    CountSingle(StampLine(digest), IsStamp);
    StampFirst(Unstamped(m.above), StampLine(digest), m.seat, m.gap, m.author, Unstamped(m.below));
  }

  lemma Regroup(a: seq<string>, x: string, y: string, b: seq<string>, z: string, c: seq<string>)
    ensures a + [x] + [y] + b + [z] + c == a + [x] + ([y] + b + [z] + c)
    ensures (a + [x] + ([y] + b + [z] + c))[|a|] == x
  {
  }

  lemma StampFirst(a: seq<string>, x: string, y: string, b: seq<string>, z: string, c: seq<string>)
    requires Count(a, IsStamp) == 0 && IsStamp(x)
    ensures var r := a + [x] + [y] + b + [z] + c; First(r, IsStamp) == |a| && r[|a|] == x
  {
    hide IsStamp, Count, First;
    Regroup(a, x, y, b, z, c);
    FirstAt(a, x, [y] + b + [z] + c, IsStamp);
  }

  /** Stamping replaces whatever stamps there were and touches no other line. */
  lemma StampingKeepsTheRest(m: Parts, digest: string)
    requires WellPlaced(m) && IsDigest(digest)
    ensures Unstamped(Whole(StampedParts(m, digest))) == Unstamped(Whole(m))
  {
    hide IsBlank, IsSeat, IsAuthorship, IsStamp, Count, First, IsDigest, WellPlaced, StampLine, Whole, Unstamped;
    var p := StampedParts(m, digest);
    StampedStaysPlaced(m, digest);
    UnstampedWhole(m);
    UnstampedWhole(p);
    StampDrops(Unstamped(m.above), digest);
    UnstampedAgain(Unstamped(m.below));
  }

  lemma StampDrops(above: seq<string>, digest: string)
    requires IsDigest(digest) && Count(above, IsStamp) == 0
    ensures Unstamped(above + [StampLine(digest)]) == above
  {
    hide IsStamp, Count, IsDigest, StampLine, Unstamped;
    StampLineKind(digest);
    StampAlone(StampLine(digest));
    UnstampedAppend(above, [StampLine(digest)]);
    UnstampedAgain(above);
    assert above + [] == above;
  }

  lemma StampAlone(x: string)
    requires IsStamp(x)
    ensures Unstamped([x]) == []
  {
    assert [x][1..] == [];
  }

  /**
    * A valid message is stamped with exactly one stamp, directly above its seat line; every
    * other line stays; and stamping again, with any digest, gives what stamping the original
    * with that digest gives, so stamping twice is stamping once.
    */
  lemma StampingIsExact(lines: seq<string>, rules: Rules, digest: string, again: string)
    requires Valid(lines, rules) && IsDigest(digest)
    ensures Stamped(lines, digest).Some?
    ensures var r := Stamped(lines, digest).value;
            && Count(r, IsStamp) == 1 && 0 < First(r, IsSeat) < |r| && r[First(r, IsSeat) - 1] == StampLine(digest)
            && Unstamped(r) == Unstamped(lines)
            && Stamped(r, again) == Stamped(lines, again)
            && Stamped(r, digest) == Some(r)
  {
    hide IsBlank, IsSeat, IsAuthorship, IsStamp, Count, First, IsDigest, WellPlaced, Valid, StampLine, Unstamped;
    var m := ValidParts(lines, rules);
    var p := StampedParts(m, digest);
    StampedIs(m, digest);
    StampedStaysPlaced(m, digest);
    OneStamp(m, digest);
    StampingKeepsTheRest(m, digest);
    WellPlacedHolds(p);
    assert |p.above| == |Unstamped(m.above)| + 1;
    WholeIsLonger(p);
  }

  // ---------------------------------------------------------------- the subject

  /** The subject a stamped message will have: its first non-blank unstamped line, or the stamp above the seat line. */
  function SubjectAfter(lines: seq<string>, digest: string): string {
    var kept := Unstamped(lines);
    var i := First(kept, line => !IsBlank(line));
    if i < |kept| && IsSeat(kept[i]) then StampLine(digest) else Subject(kept)
  }

  lemma SubjectOfStamped(lines: seq<string>, digest: string)
    requires IsDigest(digest) && Stamped(lines, digest).Some?
    ensures Subject(Stamped(lines, digest).value) == SubjectAfter(lines, digest)
  {
    hide IsBlank, IsSeat, IsStamp, IsDigest, StampLine, Unstamped;
    StampLineKind(digest);
    var kept := Unstamped(lines);
    var seat := First(kept, IsSeat);
    var r := kept[..seat] + [StampLine(digest)] + kept[seat..];
    var filled := line => !IsBlank(line);
    var i := First(kept, filled);
    LineKinds(kept[seat]);
    assert i <= seat;
    if i < seat {
      FirstIs(r, filled, i);
    } else {
      FirstIs(r, filled, seat);
    }
  }

  lemma FirstIs(lines: seq<string>, p: string -> bool, i: nat)
    requires i < |lines| && p(lines[i]) && forall j :: 0 <= j < i ==> !p(lines[j])
    ensures First(lines, p) == i
  {
  }

  /**
    * A valid message stays valid under its stamp exactly when the subject it will then
    * have is allowed: the stamp above a leading seat line, or the line a removed leading
    * stamp was hiding, becomes the subject.
    */
  lemma StampedStaysValidIff(lines: seq<string>, rules: Rules, digest: string)
    requires Valid(lines, rules) && IsDigest(digest)
    ensures Stamped(lines, digest).Some?
    ensures Valid(Stamped(lines, digest).value, rules) <==> !rules.forbidden(SubjectAfter(lines, digest))
  {
    hide IsBlank, IsSeat, IsAuthorship, IsStamp, Count, First, IsDigest, WellPlaced, Valid, StampLine, Unstamped, Whole;
    hide Subject, SubjectAfter, StampViolations, SeatAllowed;
    var m := ValidParts(lines, rules);
    StampedIs(m, digest);
    StampedStaysPlaced(m, digest);
    OneStamp(m, digest);
    PartsAreValid(StampedParts(m, digest), rules);
    SubjectOfStamped(lines, digest);
  }

  /** Without a leading stamp the subject line survives the removal of stamps. */
  lemma {:induction false} LeadingLineStays(lines: seq<string>)
    requires var i := First(lines, line => !IsBlank(line)); i < |lines| ==> !IsStamp(lines[i])
    ensures Subject(Unstamped(lines)) == Subject(lines)
  {
    if lines != [] {
      LineKinds(lines[0]);
      hide IsBlank, IsStamp;
      if IsBlank(lines[0]) {
        LeadingLineStays(lines[1..]);
        SubjectSkips(lines[0], lines[1..]);
        SubjectSkips(lines[0], Unstamped(lines[1..]));
        assert lines == [lines[0]] + lines[1..];
      }
    }
  }

  lemma SubjectSkips(blank: string, rest: seq<string>)
    requires IsBlank(blank)
    ensures Subject([blank] + rest) == Subject(rest)
  {
    hide IsBlank;
    assert ([blank] + rest)[1..] == rest;
  }

  // ---------------------------------------------------------------- the audit

  predicate IsAuditStamp(line: string) {
    IsFullStamp(Strip(line))
  }

  function DigestOf(line: string): string
    requires IsAuditStamp(line)
  {
    Strip(line)[|STAMP_HEAD|..]
  }

  /** The audit's verdict on stamps, for a commit whose hook configuration has this digest; none asks for no stamp. */
  function AuditViolations(lines: seq<string>, config: Option<string>): seq<Violation> {
    var i := First(lines, IsAuditStamp);
    if config.None? then []
    else if i == |lines| then [NoStamp]
    else if DigestOf(lines[i]) != config.value then [ForeignStamp]
    else []
  }

  /** A stamped message passes the audit for the configuration it was stamped for, and for no other. */
  lemma AuditAcceptsItsOwn(lines: seq<string>, rules: Rules, digest: string, config: string)
    requires Valid(lines, rules) && IsDigest(digest)
    ensures Stamped(lines, digest).Some?
    ensures AuditViolations(Stamped(lines, digest).value, Some(config)) == if config == digest then [] else [ForeignStamp]
  {
    hide IsBlank, IsSeat, IsAuthorship, IsStamp, Count, First, IsDigest, WellPlaced, Valid, Unstamped, IsFullStamp, StampLine;
    hide IsAuditStamp, DigestOf, Whole, Stamped, StampedParts, StampViolations;
    var m := ValidParts(lines, rules);
    StampedIs(m, digest);
    OneStamp(m, digest);
    AuditFindsStamp(Whole(StampedParts(m, digest)), digest);
  }

  lemma AuditFindsStamp(r: seq<string>, digest: string)
    requires IsDigest(digest) && First(r, IsStamp) < |r| && r[First(r, IsStamp)] == StampLine(digest)
    ensures var i := First(r, IsAuditStamp); i < |r| && IsAuditStamp(r[i]) && DigestOf(r[i]) == digest
  {
    hide IsStamp, First, IsDigest, StampLine, IsAuditStamp, DigestOf;
    var i := First(r, IsStamp);
    AuditStampOf(digest);
    forall j | 0 <= j < i ensures !IsAuditStamp(r[j]) {
      AuditStampKind(r[j]);
    }
    FirstIs(r, IsAuditStamp, i);
  }

  lemma AuditStampOf(digest: string)
    requires IsDigest(digest)
    ensures IsAuditStamp(StampLine(digest)) && DigestOf(StampLine(digest)) == digest
  {
    hide IsDigest, IsFullStamp, Strip;
    StampLineKind(digest);
    assert StampLine(digest)[|STAMP_HEAD|..] == digest;
  }

  lemma AuditStampKind(line: string)
    ensures IsAuditStamp(line) ==> IsStamp(line)
  {
    hide IsFullStamp, IsStamp, IsSeat, IsAuthorship, IsBlank;
    LineKinds(line);
  }

  // ---------------------------------------------------------------- the hook and the audit together

  /**
    * What the hook writes, the hook accepts again and the audit accepts: for every valid
    * message that does not open with a stamp, when a stamp may stand as a subject.
    */
  lemma HookOutputPasses(lines: seq<string>, rules: Rules, digest: string)
    requires Valid(lines, rules) && IsDigest(digest) && !rules.forbidden(StampLine(digest))
    requires var i := First(lines, line => !IsBlank(line)); i < |lines| ==> !IsStamp(lines[i])
    ensures Stamped(lines, digest).Some?
    ensures Valid(Stamped(lines, digest).value, rules) && AuditViolations(Stamped(lines, digest).value, Some(digest)) == []
  {
    hide IsBlank, IsSeat, IsAuthorship, IsStamp, Count, IsDigest, First, StampLine, Unstamped, Stamped, AuditViolations, Subject;
    StampedStaysValidIff(lines, rules, digest);
    AuditAcceptsItsOwn(lines, rules, digest, digest);
    LeadingLineStays(lines);
    assert !rules.forbidden(Subject(lines)) by { hide *; SubjectAllowed(lines, rules); }
  }

  lemma SubjectAllowed(lines: seq<string>, rules: Rules)
    requires Valid(lines, rules)
    ensures !rules.forbidden(Subject(lines))
  {
    hide Subject, SeatViolations, PlacementViolations, StampViolations;
  }

  /** A message that opens with a stamp can hide a forbidden subject behind it: valid before, refused after. */
  lemma HiddenSubject(digest: string, rules: Rules)
    requires IsDigest(digest) && rules.forbidden("robust") && !rules.forbidden(StampLine(digest))
    requires rules.validSeat("Seat: a") && !rules.vendorSeat("Seat: a")
    ensures var lines := [StampLine(digest), "robust", "Seat: a", AUTHORSHIP];
            Valid(lines, rules) && Stamped(lines, digest).Some? && !Valid(Stamped(lines, digest).value, rules)
  {
    hide IsBlank, IsSeat, IsAuthorship, IsStamp, IsDigest, Strip, IsFullStamp, Valid, Stamped, StampLine;
    HiddenLines(digest);
    HiddenBehind(StampLine(digest), "robust", "Seat: a", AUTHORSHIP, rules, digest);
  }

  lemma HiddenBehind(a: string, b: string, c: string, d: string, rules: Rules, digest: string)
    requires IsDigest(digest) && IsStamp(a) && IsFullStamp(Strip(a)) && IsSeat(c) && IsAuthorship(d)
    requires !IsBlank(b) && !IsSeat(b) && !IsStamp(b) && !IsAuthorship(b)
    requires SeatAllowed(c, rules) && rules.forbidden(Strip(b)) && !rules.forbidden(Strip(a))
    ensures Valid([a, b, c, d], rules) && Stamped([a, b, c, d], digest).Some?
    ensures !Valid(Stamped([a, b, c, d], digest).value, rules)
  {
    hide IsBlank, IsSeat, IsAuthorship, IsStamp, IsDigest, Strip, IsFullStamp, Valid, Stamped, StampLine, Count, First, Unstamped;
    hide SeatAllowed;
    LineKinds(a);
    LineKinds(c);
    LineKinds(d);
    var m := Parts([a, b], c, [], d, []);
    assert [a, b, c, d] == Whole(m);
    HiddenCounts(a, b, c, d);
    FirstIs([a, b, c, d], IsStamp, 0);
    PartsAreValid(m, rules);
    var filled := line => !IsBlank(line);
    FirstIs([a, b, c, d], filled, 0);
    FirstIs([b, c, d], filled, 0);
    StampedStaysValidIff([a, b, c, d], rules, digest);
  }

  lemma HiddenLines(digest: string)
    requires IsDigest(digest)
    ensures IsStamp(StampLine(digest)) && IsFullStamp(Strip(StampLine(digest))) && Strip(StampLine(digest)) == StampLine(digest)
    ensures Strip("robust") == "robust" && !IsBlank("robust") && !IsSeat("robust") && !IsStamp("robust") && !IsAuthorship("robust")
    ensures Strip("Seat: a") == "Seat: a" && IsSeat("Seat: a") && IsAuthorship(AUTHORSHIP)
  {
    hide IsDigest;
    StampLineKind(digest);
    StripTrimmed("robust");
    StripTrimmed("Seat: a");
    assert "Seat: a"[..5] == SEAT_PREFIX;
    assert AUTHORSHIP[|AUTHORSHIP| - 1] == ')' && AUTHORSHIP[0] == 'A';
    StripTrimmed(AUTHORSHIP);
  }

  lemma CountStep(x: string, rest: seq<string>, p: string -> bool)
    ensures Count([], p) == 0 && Count([x] + rest, p) == (if p(x) then 1 else 0) + Count(rest, p)
  {
    assert ([x] + rest)[1..] == rest;
  }

  lemma UnstampedStep(x: string, rest: seq<string>)
    ensures Unstamped([]) == [] && Unstamped([x] + rest) == (if IsStamp(x) then [] else [x]) + Unstamped(rest)
  {
    hide IsStamp;
    assert ([x] + rest)[1..] == rest;
  }

  lemma HiddenCounts(a: string, b: string, c: string, d: string)
    requires IsStamp(a) && !IsStamp(b) && !IsStamp(c) && !IsStamp(d)
    requires !IsSeat(a) && !IsSeat(b) && !IsAuthorship(a) && !IsAuthorship(b)
    ensures Count([a, b], IsSeat) == 0 && Count([a, b], IsAuthorship) == 0 && Count([], IsSeat) == 0 && Count([], IsAuthorship) == 0
    ensures Count([a, b, c, d], IsStamp) == 1 && Unstamped([a, b, c, d]) == [b, c, d]
  {
    hide IsSeat, IsStamp, IsAuthorship, Count, Unstamped;
    assert [a, b] == [a] + [b] && [b] == [b] + [];
    assert [a, b, c, d] == [a] + [b, c, d] && [b, c, d] == [b] + [c, d] && [c, d] == [c] + [d] && [d] == [d] + [];
    CountStep(a, [b], IsSeat);
    CountStep(b, [], IsSeat);
    CountStep(a, [b], IsAuthorship);
    CountStep(b, [], IsAuthorship);
    CountStep(a, [b, c, d], IsStamp);
    CountStep(b, [c, d], IsStamp);
    CountStep(c, [d], IsStamp);
    CountStep(d, [], IsStamp);
    UnstampedStep(a, [b, c, d]);
    UnstampedStep(b, [c, d]);
    UnstampedStep(c, [d]);
    UnstampedStep(d, []);
  }

  // ---------------------------------------------------------------- the body

  /** The lines the body rules look at. */
  function BodyLines(lines: seq<string>): seq<string> {
    if lines == [] then []
    else
      (if IsSeat(lines[0]) || IsStamp(lines[0]) || IsAuthorship(lines[0]) then [] else [lines[0]]) + BodyLines(lines[1..])
  }

  lemma BodyStep(x: string, rest: seq<string>)
    ensures BodyLines([x] + rest) == (if IsSeat(x) || IsStamp(x) || IsAuthorship(x) then [] else [x]) + BodyLines(rest)
  {
    hide IsSeat, IsStamp, IsAuthorship;
    assert ([x] + rest)[1..] == rest;
  }

  lemma {:induction false} BodyOfUnstamped(lines: seq<string>)
    ensures BodyLines(Unstamped(lines)) == BodyLines(lines)
  {
    hide IsSeat, IsStamp, IsAuthorship, Unstamped, BodyLines;
    if lines == [] {
      UnstampedStep("", []);
    } else {
      var x, rest := lines[0], lines[1..];
      assert lines == [x] + rest;
      BodyOfUnstamped(rest);
      UnstampedStep(x, rest);
      BodyStep(x, rest);
      BodyStep(x, Unstamped(rest));
      assert [] + Unstamped(rest) == Unstamped(rest) && [] + BodyLines(rest) == BodyLines(rest);
    }
  }

  /** The body rules see the same lines before and after stamping, so their verdict stands. */
  lemma StampingKeepsTheBody(lines: seq<string>, rules: Rules, digest: string)
    requires Valid(lines, rules) && IsDigest(digest)
    ensures Stamped(lines, digest).Some? && BodyLines(Stamped(lines, digest).value) == BodyLines(lines)
  {
    hide Valid, IsDigest, Stamped, BodyLines, Unstamped;
    StampingIsExact(lines, rules, digest, digest);
    BodyOfUnstamped(lines);
    BodyOfUnstamped(Stamped(lines, digest).value);
  }

  // ---------------------------------------------------------------- texts

  /** The characters `str.splitlines` ends a line at. */
  predicate IsBreak(c: char) {
    '\n' <= c <= '\r' || '\U{1C}' <= c <= '\U{1E}' || c == '\U{85}' || c == '\U{2028}' || c == '\U{2029}'
  }

  function FirstBreak(text: string): (i: nat)
    ensures i <= |text| && (i < |text| ==> IsBreak(text[i])) && forall j :: 0 <= j < i ==> !IsBreak(text[j])
  {
    if text == "" || IsBreak(text[0]) then 0 else 1 + FirstBreak(text[1..])
  }

  /** Python's `str.splitlines`: a carriage return and line feed count as one break. */
  function SplitLines(text: string): (lines: seq<string>)
    ensures forall line, c :: line in lines && c in line ==> !IsBreak(c)
  {
    if text == "" then []
    else
      var i := FirstBreak(text);
      if i == |text| then [text]
      else
        var next := if text[i] == '\r' && i + 1 < |text| && text[i + 1] == '\n' then i + 2 else i + 1;
        [text[..i]] + SplitLines(text[next..])
  }

  function JoinLines(lines: seq<string>): string {
    if lines == [] then "" else lines[0] + "\n" + JoinLines(lines[1..])
  }

  predicate OneLine(line: string) {
    forall c :: c in line ==> !IsBreak(c)
  }

  /** Lines written out and read back are the same lines. */
  lemma {:induction false} LinesRoundTrip(lines: seq<string>)
    requires forall line :: line in lines ==> OneLine(line)
    ensures SplitLines(JoinLines(lines)) == lines
  {
    if lines != [] {
      var text, rest := JoinLines(lines), JoinLines(lines[1..]);
      LinesRoundTrip(lines[1..]);
      LineThenRest(lines[0], rest);
    }
  }

  lemma LineThenRest(line: string, rest: string)
    requires OneLine(line)
    ensures SplitLines(line + "\n" + rest) == [line] + SplitLines(rest)
  {
    hide IsBreak;
    var text := line + "\n" + rest;
    assert IsBreak('\n') by { BreakChars(); }
    forall j | 0 <= j < |line| ensures !IsBreak(text[j]) {
      assert text[j] == line[j];
    }
    assert text[|line|] == '\n';
    assert FirstBreak(text) == |line|;
    assert text[..|line|] == line && text[|line| + 1..] == rest;
  }

  lemma BreakChars()
    ensures IsBreak('\n') && forall c :: IsHex(c) ==> !IsBreak(c)
  {
  }

  function StampText(text: string, digest: string): Option<string> {
    match Stamped(SplitLines(text), digest)
    case None => None
    case Some(lines) => Some(JoinLines(lines))
  }

  lemma StampIsOneLine(digest: string)
    requires IsDigest(digest)
    ensures OneLine(StampLine(digest))
  {
    BreakChars();
    assert forall c :: c in STAMP_PREFIX ==> !IsBreak(c);
    assert forall c :: c in STAMP_HEAD ==> !IsBreak(c);
    forall c | c in StampLine(digest) ensures !IsBreak(c) {
      assert c in STAMP_HEAD || c in digest;
    }
  }

  /** The file the hook writes reads back as the stamped lines, so all of the above holds of texts. */
  lemma StampTextIsStamped(text: string, digest: string)
    requires IsDigest(digest) && Stamped(SplitLines(text), digest).Some?
    ensures StampText(text, digest).Some?
    ensures SplitLines(StampText(text, digest).value) == Stamped(SplitLines(text), digest).value
  {
    hide IsSeat, IsStamp, IsDigest, StampLine, Unstamped, SplitLines, JoinLines, First;
    var lines := SplitLines(text);
    StampIsOneLine(digest);
    forall line | line in Stamped(lines, digest).value ensures OneLine(line) {
      if line != StampLine(digest) {
        assert line in Unstamped(lines);
        OnlyLines(text);
      }
    }
    LinesRoundTrip(Stamped(lines, digest).value);
  }

  lemma OnlyLines(text: string)
    ensures forall line :: line in Unstamped(SplitLines(text)) ==> OneLine(line)
  {
    hide IsStamp;
  }
}
