/**
  * What each verdict of the commit-message hook and of the history audit says, told on the
  * lines of the message and the characters of a line.
  */
module CommitMeaning {
  import opened Wrappers
  import opened Strings
  import opened CommitStamp

  // ---------------------------------------------------------------- one line

  /** Text after leading whitespace. */
  ghost predicate OpensWith(line: string, prefix: string) {
    exists k :: 0 <= k <= |line| && (forall i :: 0 <= i < k ==> IsSpace(line[i])) && StartsWith(line[k..], prefix)
  }

  lemma {:induction false} StrippedLead(s: string)
    ensures |LStrip(s)| <= |s| && LStrip(s) == s[|s| - |LStrip(s)|..]
    ensures forall i :: 0 <= i < |s| - |LStrip(s)| ==> IsSpace(s[i])
    ensures LStrip(s) != "" ==> !IsSpace(LStrip(s)[0])
  {
    hide IsSpace;
    if s != "" && IsSpace(s[0]) {
      StrippedLead(s[1..]);
    }
  }

  /** A prefix that opens with no whitespace opens the line after its leading whitespace or nowhere. */
  lemma OpensAfterSpace(line: string, prefix: string)
    requires prefix != "" && !IsSpace(prefix[0])
    ensures StartsWith(LStrip(line), prefix) <==> OpensWith(line, prefix)
  {
    hide IsSpace;
    StrippedLead(line);
    var lead := |line| - |LStrip(line)|;
    assert line[lead..] == LStrip(line);
    if k :| 0 <= k <= |line| && (forall i :: 0 <= i < k ==> IsSpace(line[i])) && StartsWith(line[k..], prefix) {
      assert line[k] == line[k..][0] == line[k..][..|prefix|][0] == prefix[0];
      LeadIsUnique(line, k);
    }
  }

  lemma {:induction false} LeadIsUnique(line: string, k: int)
    requires 0 <= k < |line| && (forall i :: 0 <= i < k ==> IsSpace(line[i])) && !IsSpace(line[k])
    ensures LStrip(line) == line[k..]
    decreases k
  {
    if k > 0 {
      assert line[1..][k - 1..] == line[k..];
      LeadIsUnique(line[1..], k - 1);
    }
  }

  /** What the four kinds of line are, and the characters of a digest. */
  lemma LinesMean(line: string, c: char)
    ensures IsSeat(line) <==> OpensWith(line, "Seat:")
    ensures IsStamp(line) <==> OpensWith(line, "Hooks-Verified:")
    ensures IsBlank(line) <==> forall x :: x in line ==> IsSpace(x)
    ensures IsHex(c) <==> c in "0123456789abcdef"
  {
    assert "Seat:"[0] == 'S' && "Hooks-Verified:"[0] == 'H';
    OpensAfterSpace(line, "Seat:");
    OpensAfterSpace(line, "Hooks-Verified:");
    BlankMeans(line);
    HexMeans(c);
  }

  lemma HexMeans(c: char)
    ensures IsHex(c) <==> c in "0123456789abcdef"
  {
    var digits := "0123456789abcdef";
    if IsHex(c) {
      var k := if c <= '9' then c as int - '0' as int else 10 + c as int - 'a' as int;
      assert digits[k] == c;
    }
  }

  lemma BlankMeans(line: string)
    ensures IsBlank(line) <==> forall x :: x in line ==> IsSpace(x)
  {
    hide IsSpace;
    StrippedLead(line);
    var rest := LStrip(line);
    if rest == "" {
      forall x | x in line ensures IsSpace(x) {
        var i :| 0 <= i < |line| && line[i] == x;
      }
    } else {
      RStripKeepsHead(rest);
      assert rest[0] in line;
    }
  }

  /** A full stamp: the fixed head and sixteen hexadecimal digits, nothing after them. */
  lemma FullStampMeans(stripped: string)
    ensures IsFullStamp(stripped) <==>
            exists digest :: stripped == "Hooks-Verified: pre-commit sha256:" + digest && |digest| == 16 &&
              forall c :: c in digest ==> c in "0123456789abcdef"
  {
    forall c ensures IsHex(c) <==> c in "0123456789abcdef" { HexMeans(c); }
    hide IsHex;
    var head := "Hooks-Verified: pre-commit sha256:";
    assert head == STAMP_HEAD;
    if IsFullStamp(stripped) {
      assert stripped == head + stripped[|head|..];
    }
    if digest :| stripped == head + digest && |digest| == 16 && forall c :: c in digest ==> c in "0123456789abcdef" {
      assert stripped[..|head|] == head && stripped[|head|..] == digest;
    }
  }

  // ---------------------------------------------------------------- the one line of a kind

  ghost predicate OnlyLine(lines: seq<string>, p: string -> bool, i: int) {
    0 <= i < |lines| && p(lines[i]) && forall j :: 0 <= j < |lines| && p(lines[j]) ==> j == i
  }

  lemma {:induction false} CountOne(lines: seq<string>, p: string -> bool)
    ensures Count(lines, p) == 1 <==> OnlyLine(lines, p, First(lines, p))
  {
    if lines != [] {
      var rest := lines[1..];
      assert lines == [lines[0]] + rest;
      if p(lines[0]) {
        CountNone(rest, p);
        assert First(lines, p) == 0;
        if OnlyLine(lines, p, 0) {
          forall line | line in rest ensures !p(line) {
            var j :| 0 <= j < |rest| && rest[j] == line;
            assert lines[j + 1] == line;
          }
        }
      } else {
        CountOne(rest, p);
        assert First(lines, p) == 1 + First(rest, p);
        assert forall j :: 0 <= j < |rest| ==> lines[j + 1] == rest[j];
        if OnlyLine(lines, p, First(lines, p)) {
          forall j | 0 <= j < |rest| && p(rest[j]) ensures j == First(rest, p) {
            assert p(lines[j + 1]);
          }
        }
      }
    }
  }

  lemma OnlyIsFirst(lines: seq<string>, p: string -> bool)
    ensures forall i :: OnlyLine(lines, p, i) ==> i == First(lines, p)
    ensures Count(lines, p) == 1 <==> exists i :: OnlyLine(lines, p, i)
  {
    CountOne(lines, p);
    forall i | OnlyLine(lines, p, i) ensures i == First(lines, p) {
    }
  }

  lemma {:induction false} CountMany(lines: seq<string>, p: string -> bool)
    ensures Count(lines, p) > 1 <==> exists i, j :: 0 <= i < j < |lines| && p(lines[i]) && p(lines[j])
  {
    CountNone(lines, p);
    CountOne(lines, p);
    var i := First(lines, p);
    if Count(lines, p) > 1 {
      assert i < |lines| by { FirstExists(lines, p); }
      var j :| 0 <= j < |lines| && p(lines[j]) && j != i;
      assert i < j;
    }
    if a, b :| 0 <= a < b < |lines| && p(lines[a]) && p(lines[b]) {
      assert lines[a] in lines;
      assert i <= a;
    }
  }

  // ---------------------------------------------------------------- the hook

  /** The seat line stands directly above the authorship line, with nothing but blank lines between. */
  ghost predicate Adjacent(lines: seq<string>, seat: int, author: int) {
    seat < author && forall k :: seat < k < author && 0 <= k < |lines| ==> IsBlank(lines[k])
  }

  /** The subject is the first line that is not blank, stripped; nothing when all are. */
  lemma SubjectMeans(lines: seq<string>)
    ensures (forall line :: line in lines ==> IsBlank(line)) ==> Subject(lines) == ""
    ensures forall i :: 0 <= i < |lines| && !IsBlank(lines[i]) && (forall j :: 0 <= j < i ==> IsBlank(lines[j])) ==>
              Subject(lines) == Strip(lines[i])
  {
    hide IsBlank;
    var i := First(lines, line => !IsBlank(line));
    assert i < |lines| ==> lines[i] in lines;
  }

  lemma SeatReports(lines: seq<string>, rules: Rules, v: Violation)
    ensures v in SeatViolations(lines, rules) <==>
            || (v == SeatCount && !exists s :: OnlyLine(lines, IsSeat, s))
            || (v == InvalidSeat && exists s :: OnlyLine(lines, IsSeat, s) && !rules.validSeat(Strip(lines[s])))
            || (v == VendorSeat && exists s :: OnlyLine(lines, IsSeat, s) && rules.validSeat(Strip(lines[s])) && rules.vendorSeat(Strip(lines[s])))
  {
    hide IsSeat, Count, First, OnlyLine, Strip;
    OnlyIsFirst(lines, IsSeat);
    FirstExists(lines, IsSeat);
    OnlyInRange(lines, IsSeat);
  }

  lemma PlacementReports(lines: seq<string>, v: Violation)
    ensures v in PlacementViolations(lines) <==>
            v == SeatPlacement && exists s, a :: OnlyLine(lines, IsSeat, s) && OnlyLine(lines, IsAuthorship, a) && !Adjacent(lines, s, a)
  {
    hide IsSeat, IsAuthorship, Count, First, OnlyLine, IsBlank;
    OnlyIsFirst(lines, IsSeat);
    OnlyIsFirst(lines, IsAuthorship);
    OnlyInRange(lines, IsSeat);
    OnlyInRange(lines, IsAuthorship);
  }

  lemma StampReports(lines: seq<string>, v: Violation)
    ensures v in StampViolations(lines) <==>
            || (v == StampCount && exists i, j :: 0 <= i < j < |lines| && IsStamp(lines[i]) && IsStamp(lines[j]))
            || (v == StampShape && exists i :: OnlyLine(lines, IsStamp, i) && !IsFullStamp(Strip(lines[i])))
  {
    hide IsStamp, Count, First, OnlyLine, Strip, IsFullStamp;
    OnlyIsFirst(lines, IsStamp);
    CountMany(lines, IsStamp);
    FirstExists(lines, IsStamp);
    OnlyInRange(lines, IsStamp);
  }

  /** Each report of the hook, by its kind. */
  lemma ReportsMean(lines: seq<string>, rules: Rules, v: Violation)
    ensures v in MessageViolations(lines, rules) <==>
            match v
            case AuthorshipCount => !exists a :: OnlyLine(lines, IsAuthorship, a)
            case SeatCount => !exists s :: OnlyLine(lines, IsSeat, s)
            case InvalidSeat => exists s :: OnlyLine(lines, IsSeat, s) && !rules.validSeat(Strip(lines[s]))
            case VendorSeat => exists s :: OnlyLine(lines, IsSeat, s) && rules.validSeat(Strip(lines[s])) && rules.vendorSeat(Strip(lines[s]))
            case SeatPlacement => exists s, a :: OnlyLine(lines, IsSeat, s) && OnlyLine(lines, IsAuthorship, a) && !Adjacent(lines, s, a)
            case StampCount => exists i, j :: 0 <= i < j < |lines| && IsStamp(lines[i]) && IsStamp(lines[j])
            case StampShape => exists i :: OnlyLine(lines, IsStamp, i) && !IsFullStamp(Strip(lines[i]))
            case ForbiddenSubject => rules.forbidden(Subject(lines))
            case NoStamp => false
            case ForeignStamp => false
  {
    hide IsAuthorship, IsSeat, IsStamp, IsFullStamp, Subject, Count, OnlyLine, Adjacent, Strip;
    hide SeatViolations, PlacementViolations, StampViolations;
    SeatReports(lines, rules, v);
    PlacementReports(lines, v);
    StampReports(lines, v);
    OnlyIsFirst(lines, IsAuthorship);
    OnlyInRange(lines, IsSeat);
    OnlyInRange(lines, IsStamp);
  }

  lemma OnlyInRange(lines: seq<string>, p: string -> bool)
    ensures forall i :: OnlyLine(lines, p, i) ==> 0 <= i < |lines| && p(lines[i])
  {
  }

  /**
    * The hook accepts a message exactly when it has one seat line, allowed and not a
    * vendor's, directly above its one authorship line, at most one stamp, well formed, and a
    * subject without a forbidden word.
    */
  lemma ValidMeans(lines: seq<string>, rules: Rules)
    ensures Valid(lines, rules) <==>
            && (exists s, a :: OnlyLine(lines, IsSeat, s) && OnlyLine(lines, IsAuthorship, a) && Adjacent(lines, s, a) &&
                  rules.validSeat(Strip(lines[s])) && !rules.vendorSeat(Strip(lines[s])))
            && (forall i, j :: 0 <= i < j < |lines| ==> !(IsStamp(lines[i]) && IsStamp(lines[j])))
            && (forall i :: 0 <= i < |lines| && IsStamp(lines[i]) ==> IsFullStamp(Strip(lines[i])))
            && !rules.forbidden(Subject(lines))
  {
    hide IsAuthorship, IsSeat, IsStamp, IsFullStamp, Subject, OnlyLine, Adjacent, Strip, MessageViolations;
    NoneReported(lines, rules);
    ReportsMean(lines, rules, AuthorshipCount);
    ReportsMean(lines, rules, SeatCount);
    ReportsMean(lines, rules, InvalidSeat);
    ReportsMean(lines, rules, VendorSeat);
    ReportsMean(lines, rules, SeatPlacement);
    ReportsMean(lines, rules, StampCount);
    ReportsMean(lines, rules, StampShape);
    ReportsMean(lines, rules, ForbiddenSubject);
    ReportsMean(lines, rules, NoStamp);
    ReportsMean(lines, rules, ForeignStamp);
    OnlyIsFirst(lines, IsSeat);
    OnlyIsFirst(lines, IsAuthorship);
    OnlyInRange(lines, IsSeat);
    StampsAlone(lines);
  }

  lemma NoneReported(lines: seq<string>, rules: Rules)
    ensures var found := MessageViolations(lines, rules);
            Valid(lines, rules) <==>
            && AuthorshipCount !in found && SeatCount !in found && InvalidSeat !in found && VendorSeat !in found
            && SeatPlacement !in found && StampCount !in found && StampShape !in found && ForbiddenSubject !in found
            && NoStamp !in found && ForeignStamp !in found
  {
    hide MessageViolations;
    var found := MessageViolations(lines, rules);
    if found != [] {
      assert found[0] in found;
      match found[0] {
        case AuthorshipCount =>
        case SeatCount =>
        case InvalidSeat =>
        case VendorSeat =>
        case SeatPlacement =>
        case StampCount =>
        case StampShape =>
        case ForbiddenSubject =>
        case NoStamp =>
        case ForeignStamp =>
      }
    }
  }

  lemma StampsAlone(lines: seq<string>)
    ensures (forall i, j :: 0 <= i < j < |lines| ==> !(IsStamp(lines[i]) && IsStamp(lines[j]))) ==>
              forall i :: 0 <= i < |lines| && IsStamp(lines[i]) ==> OnlyLine(lines, IsStamp, i)
    ensures forall i :: OnlyLine(lines, IsStamp, i) ==> 0 <= i < |lines| && IsStamp(lines[i])
  {
    hide IsStamp;
  }

  // ---------------------------------------------------------------- stamping and the audit

  /** The lines around their first seat line, and the same with a stamp put directly above it. */
  ghost predicate PutAbove(kept: seq<string>, digest: string, above: seq<string>, seat: string, below: seq<string>, r: seq<string>) {
    && kept == above + [seat] + below && IsSeat(seat) && (forall line :: line in above ==> !IsSeat(line))
    && r == above + ["Hooks-Verified: pre-commit sha256:" + digest] + [seat] + below
  }

  /** Stamping takes away every stamp line, keeps the others in order, and puts one above the first seat line. */
  lemma StampedMeans(lines: seq<string>, digest: string)
    ensures Stamped(lines, digest).None? <==> forall line :: line in lines ==> IsStamp(line) || !IsSeat(line)
    ensures Stamped(lines, digest).Some? ==>
              exists above, seat, below :: PutAbove(Unstamped(lines), digest, above, seat, below, Stamped(lines, digest).value)
  {
    hide IsSeat, IsStamp, Unstamped;
    var kept := Unstamped(lines);
    var i := First(kept, IsSeat);
    assert forall line :: line in kept <==> line in lines && !IsStamp(line) by { UnstampedHas(lines); }
    if i < |kept| {
      var above, seat, below := kept[..i], kept[i], kept[i + 1..];
      assert kept == above + [seat] + below && kept[i..] == [seat] + below;
      assert above + [StampLine(digest)] + ([seat] + below) == above + [StampLine(digest)] + [seat] + below;
      forall line | line in above ensures !IsSeat(line) {
        var j :| 0 <= j < i && kept[j] == line;
      }
      assert "Hooks-Verified: pre-commit sha256:" + digest == StampLine(digest);
      assert kept[i] in kept;
      assert PutAbove(kept, digest, above, seat, below, Stamped(lines, digest).value);
    } else {
      assert Stamped(lines, digest).None?;
    }
  }

  lemma UnstampedHas(lines: seq<string>)
    ensures forall line :: line in Unstamped(lines) <==> line in lines && !IsStamp(line)
  {
    hide IsStamp;
  }

  ghost predicate FirstFull(lines: seq<string>, i: int) {
    0 <= i < |lines| && IsFullStamp(Strip(lines[i])) && forall j :: 0 <= j < i ==> !IsFullStamp(Strip(lines[j]))
  }

  /** The audit asks for a stamp only of commits whose configuration stamps, and goes by the first full one. */
  lemma AuditMeans(lines: seq<string>, config: Option<string>, v: Violation)
    ensures v in AuditViolations(lines, config) <==>
            && config.Some?
            && (|| (v == NoStamp && forall line :: line in lines ==> !IsFullStamp(Strip(line)))
                || (v == ForeignStamp && exists i :: FirstFull(lines, i) && Strip(lines[i]) != STAMP_HEAD + config.value))
  {
    hide IsFullStamp;
    var i := First(lines, IsAuditStamp);
    if i < |lines| {
      assert lines[i] in lines;
      HeadAndDigest(Strip(lines[i]));
      assert Strip(lines[i]) == "Hooks-Verified: pre-commit sha256:" + DigestOf(lines[i]);
      if config.Some? && Strip(lines[i]) == "Hooks-Verified: pre-commit sha256:" + config.value {
        SameTail("Hooks-Verified: pre-commit sha256:", DigestOf(lines[i]), config.value);
      }
    }
  }

  lemma HeadAndDigest(stripped: string)
    requires IsFullStamp(stripped)
    ensures |stripped| >= |STAMP_HEAD| && stripped == "Hooks-Verified: pre-commit sha256:" + stripped[|STAMP_HEAD|..]
  {
    hide IsDigest;
  }

  lemma SameTail(head: string, a: string, b: string)
    requires head + a == head + b
    ensures a == b
  {
    assert (head + a)[|head|..] == a && (head + b)[|head|..] == b;
  }

  // ---------------------------------------------------------------- texts

  /** Where `str.splitlines` ends a line. */
  lemma BreaksMean(c: char)
    ensures IsBreak(c) <==> c in {'\n', '\U{0B}', '\U{0C}', '\r', '\U{1C}', '\U{1D}', '\U{1E}', '\U{85}', '\U{2028}', '\U{2029}'}
  {
  }

  /** A text without a break is one line; a line ends at its first break, a carriage return with a line feed being one. */
  lemma SplitLinesMean(line: string, c: char, rest: string)
    requires (forall x :: x in line ==> !IsBreak(x)) && IsBreak(c)
    ensures SplitLines("") == [] && (line != "" ==> SplitLines(line) == [line])
    ensures !(c == '\r' && rest != "" && rest[0] == '\n') ==> SplitLines(line + [c] + rest) == [line] + SplitLines(rest)
    ensures SplitLines(line + ['\r', '\n'] + rest) == [line] + SplitLines(rest)
  {
    hide IsBreak, SplitLines;
    BreaksMean('\r');
    SplitLinesStep("");
    if line != "" {
      OneLineOnly(line);
    }
    SplitLinesStep(line + [c] + rest);
    EndsAt(line, c, rest);
    EndsAt(line, '\r', ['\n'] + rest);
    assert line + ['\r'] + (['\n'] + rest) == line + ['\r', '\n'] + rest;
    assert (line + ['\r', '\n'] + rest)[|line| + 2..] == rest;
    SplitLinesStep(line + ['\r', '\n'] + rest);
  }

  lemma SplitLinesStep(text: string)
    ensures var i := FirstBreak(text);
            SplitLines(text) ==
            if text == "" then []
            else if i == |text| then [text]
            else [text[..i]] + SplitLines(text[if text[i] == '\r' && i + 1 < |text| && text[i + 1] == '\n' then i + 2 else i + 1..])
  {
    hide IsBreak;
  }

  lemma OneLineOnly(line: string)
    requires line != "" && forall x :: x in line ==> !IsBreak(x)
    ensures SplitLines(line) == [line]
  {
    hide IsBreak;
    assert FirstBreak(line) == |line|;
  }

  lemma EndsAt(line: string, c: char, rest: string)
    requires (forall x :: x in line ==> !IsBreak(x)) && IsBreak(c)
    ensures var text := line + [c] + rest;
            && FirstBreak(text) == |line| && text[|line|] == c && text[..|line|] == line && text[|line| + 1..] == rest
            && (rest != "" ==> text[|line| + 1] == rest[0])
  {
    hide IsBreak;
    var text := line + [c] + rest;
    assert text[|line|] == c && text[..|line|] == line && text[|line| + 1..] == rest;
    forall j | 0 <= j < |line| ensures !IsBreak(text[j]) {
      assert text[j] == line[j];
    }
  }
}
