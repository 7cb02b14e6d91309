/** The handful of Python string operations the coordination code relies on. */
module Strings {

  /** The code points for which Python's `str.isspace` holds. */
  predicate IsSpace(c: char) {
    || '\t' <= c <= '\r'
    || '\U{1C}' <= c <= ' '
    || c in {'\U{85}', '\U{A0}', '\U{1680}', '\U{2028}', '\U{2029}', '\U{202F}', '\U{205F}', '\U{3000}'}
    || '\U{2000}' <= c <= '\U{200A}'
  }

  function LStrip(s: string): (r: string)
    ensures |r| <= |s|
  {
    if s != "" && IsSpace(s[0]) then LStrip(s[1..]) else s
  }

  function RStrip(s: string): (r: string)
    ensures |r| <= |s|
  {
    if s != "" && IsSpace(s[|s| - 1]) then RStrip(s[..|s| - 1]) else s
  }

  /** Python's `str.strip()`. */
  function Strip(s: string): (r: string)
    ensures |r| <= |s|
  {
    RStrip(LStrip(s))
  }

  /** No leading and no trailing whitespace. */
  predicate Trimmed(s: string) {
    s == "" || (!IsSpace(s[0]) && !IsSpace(s[|s| - 1]))
  }

  lemma {:induction false} LStripSuffix(s: string)
    ensures LStrip(s) == s[|s| - |LStrip(s)|..]
    ensures LStrip(s) != "" ==> !IsSpace(LStrip(s)[0])
  {
    if s != "" && IsSpace(s[0]) {
      LStripSuffix(s[1..]);
    }
  }

  lemma {:induction false} RStripPrefix(s: string)
    ensures RStrip(s) == s[..|RStrip(s)|]
    ensures RStrip(s) != "" ==> !IsSpace(RStrip(s)[|RStrip(s)| - 1])
  {
    if s != "" && IsSpace(s[|s| - 1]) {
      RStripPrefix(s[..|s| - 1]);
    }
  }

  /** Stripping keeps a contiguous piece, and what it keeps is trimmed. */
  lemma StripKeepsMiddle(s: string) returns (from: nat)
    ensures from + |Strip(s)| <= |s| && Strip(s) == s[from..from + |Strip(s)|]
    ensures Trimmed(Strip(s))
  {
    LStripSuffix(s);
    RStripPrefix(LStrip(s));
    from := |s| - |LStrip(s)|;
  }

  predicate AllSpace(s: string) {
    forall c :: c in s ==> IsSpace(c)
  }

  lemma {:induction false} LStripDropsSpace(s: string)
    ensures AllSpace(s[..|s| - |LStrip(s)|])
  {
    hide IsSpace;
    if s != "" && IsSpace(s[0]) {
      LStripDropsSpace(s[1..]);
      var n := |s| - |LStrip(s)|;
      assert s[..n] == [s[0]] + s[1..][..n - 1];
    }
  }

  lemma {:induction false} RStripDropsSpace(s: string)
    ensures AllSpace(s[|RStrip(s)|..])
  {
    hide IsSpace;
    if s != "" && IsSpace(s[|s| - 1]) {
      var init, n := s[..|s| - 1], |RStrip(s)|;
      RStripDropsSpace(init);
      assert s[n..] == init[n..] + [s[|s| - 1]];
    }
  }

  /** Stripping takes away whitespace at both ends, all of it and nothing else. */
  lemma StripMeans(s: string) returns (lead: string, trail: string)
    ensures s == lead + Strip(s) + trail && AllSpace(lead) && AllSpace(trail) && Trimmed(Strip(s))
  {
    hide IsSpace;
    LStripDropsSpace(s);
    LStripSuffix(s);
    RStripDropsSpace(LStrip(s));
    RStripPrefix(LStrip(s));
    lead, trail := s[..|s| - |LStrip(s)|], LStrip(s)[|Strip(s)|..];
    assert LStrip(s) == Strip(s) + trail;
    var from := StripKeepsMiddle(s);
  }

  /** The whitespace of Python's `str.isspace`, one by one. */
  lemma SpaceMeans(c: char)
    ensures IsSpace(c) <==>
            c in {'\U{09}', '\U{0A}', '\U{0B}', '\U{0C}', '\U{0D}', '\U{1C}', '\U{1D}', '\U{1E}', '\U{1F}', '\U{20}', '\U{85}',
                  '\U{A0}', '\U{1680}', '\U{2000}', '\U{2001}', '\U{2002}', '\U{2003}', '\U{2004}', '\U{2005}', '\U{2006}',
                  '\U{2007}', '\U{2008}', '\U{2009}', '\U{200A}', '\U{2028}', '\U{2029}', '\U{202F}', '\U{205F}', '\U{3000}'}
  {
  }

  lemma StripTrimmed(s: string)
    ensures Strip(s) == s <==> Trimmed(s)
    ensures !Trimmed(s) ==> |Strip(s)| < |s|
  {
    if !Trimmed(s) && !IsSpace(s[0]) {
      assert LStrip(s) == s;
    }
  }

  /** Python's `str.startswith`. */
  predicate StartsWith(s: string, prefix: string) {
    |prefix| <= |s| && s[..|prefix|] == prefix
  }

  function Replace(s: string, from: char, to: char): (r: string)
    ensures |r| == |s|
    ensures forall i :: 0 <= i < |s| ==> r[i] == if s[i] == from then to else s[i]
  {
    seq(|s|, i requires 0 <= i < |s| => if s[i] == from then to else s[i])
  }

  /** Python's `s.split(sep)` for a one-character separator: never empty. */
  function Split(s: string, sep: char): (parts: seq<string>)
    ensures |parts| >= 1
    ensures forall part :: part in parts ==> sep !in part
    ensures sep !in s ==> parts == [s]
  {
    if s == "" then [""]
    else
      var rest := Split(s[1..], sep);
      if s[0] == sep then [""] + rest
      else
        assert sep !in s ==> rest == [s[1..]] && [s[0]] + s[1..] == s;
        [[s[0]] + rest[0]] + rest[1..]
  }

  /** Python's `sep.join(parts)`. */
  function Join(parts: seq<string>, sep: char): string {
    if parts == [] then ""
    else if |parts| == 1 then parts[0]
    else parts[0] + [sep] + Join(parts[1..], sep)
  }

  /** One unfolding of `Split`, with the first character named. */
  lemma SplitStep(c: char, s: string, sep: char)
    ensures Split("", sep) == [""]
    ensures c == sep ==> Split([c] + s, sep) == [""] + Split(s, sep)
    ensures c != sep ==> Split([c] + s, sep) == [[c] + Split(s, sep)[0]] + Split(s, sep)[1..]
  {
    assert ([c] + s)[0] == c && ([c] + s)[1..] == s;
  }

  /** One unfolding of `Join`, with the first part named. */
  lemma JoinStep(part: string, parts: seq<string>, sep: char)
    ensures Join([part], sep) == part
    ensures parts != [] ==> Join([part] + parts, sep) == part + [sep] + Join(parts, sep)
  {
    assert ([part] + parts)[1..] == parts;
  }

  lemma {:induction false} JoinSplit(s: string, sep: char)
    ensures Join(Split(s, sep), sep) == s
  {
    hide Split, Join;
    if s == "" {
      SplitStep(sep, "", sep);
      JoinStep("", [], sep);
    } else {
      var c, rest := s[0], Split(s[1..], sep);
      JoinSplit(s[1..], sep);
      assert s == [c] + s[1..];
      SplitStep(c, s[1..], sep);
      assert rest == [rest[0]] + rest[1..];
      JoinStep(rest[0], rest[1..], sep);
      JoinStep([c] + rest[0], rest[1..], sep);
      JoinStep("", rest, sep);
      if c == sep {
        assert "" + [sep] + s[1..] == s;
      } else if rest[1..] == [] {
        assert rest == [rest[0]] && [[c] + rest[0]] + rest[1..] == [[c] + rest[0]];
      } else {
        var tail := Join(rest[1..], sep);
        assert [c] + rest[0] + [sep] + tail == [c] + (rest[0] + [sep] + tail);
      }
    }
  }

  /** Splitting at an explicit separator concatenates the component lists. */
  lemma {:induction false} SplitAppend(a: string, b: string, sep: char)
    ensures Split(a + [sep] + b, sep) == Split(a, sep) + Split(b, sep)
  {
    hide Split;
    var tail := Split(b, sep);
    if a == "" {
      SplitStep(sep, b, sep);
      assert a + [sep] + b == [sep] + b;
    } else {
      var c, rest := a[0], a[1..];
      SplitAppend(rest, b, sep);
      SplitStep(c, rest, sep);
      SplitStep(c, rest + [sep] + b, sep);
      assert a == [c] + rest;
      assert a + [sep] + b == [c] + (rest + [sep] + b);
      PrependFirst(c, Split(rest, sep), tail);
    }
  }

  lemma PrependFirst(c: char, parts: seq<string>, tail: seq<string>)
    requires parts != []
    ensures [""] + (parts + tail) == [""] + parts + tail
    ensures [[c] + (parts + tail)[0]] + (parts + tail)[1..] == [[c] + parts[0]] + parts[1..] + tail
  {
  }

  lemma {:induction false} SplitJoin(parts: seq<string>, sep: char)
    requires parts != [] && forall part :: part in parts ==> sep !in part
    ensures Split(Join(parts, sep), sep) == parts
  {
    hide Split, Join;
    assert parts == [parts[0]] + parts[1..];
    JoinStep(parts[0], parts[1..], sep);
    if |parts| > 1 {
      SplitJoin(parts[1..], sep);
      SplitAppend(parts[0], Join(parts[1..], sep), sep);
    } else {
      assert parts[0] in parts;
      assert parts == [parts[0]];
    }
  }

  lemma {:induction false} JoinAppend(a: seq<string>, b: seq<string>, sep: char)
    requires a != [] && b != []
    ensures Join(a + b, sep) == Join(a, sep) + [sep] + Join(b, sep)
  {
    assert (a + b)[1..] == a[1..] + b;
    if |a| > 1 {
      JoinAppend(a[1..], b, sep);
    }
  }

  /** Stripping one end stops at a character that is not whitespace, so only the outer part is touched. */
  lemma {:induction false} LStripStops(a: string, b: string, sep: char)
    requires !IsSpace(sep)
    ensures LStrip(a + [sep] + b) == LStrip(a) + [sep] + b
  {
    var s := a + [sep] + b;
    if a == "" {
      assert s[0] == sep && s == [sep] + b;
    } else {
      assert s[0] == a[0] && s[1..] == a[1..] + [sep] + b;
      LStripStops(a[1..], b, sep);
    }
  }

  lemma {:induction false} RStripStops(a: string, b: string, sep: char)
    requires !IsSpace(sep)
    ensures RStrip(a + [sep] + b) == a + [sep] + RStrip(b)
  {
    var s := a + [sep] + b;
    if b == "" {
      assert s[|s| - 1] == sep;
    } else {
      assert s[|s| - 1] == b[|b| - 1] && s[..|s| - 1] == a + [sep] + b[..|b| - 1];
      RStripStops(a, b[..|b| - 1], sep);
    }
  }

  /** The parts of a joined text once the whole text is stripped: only the outer ends change. */
  function Outer(parts: seq<string>): (r: seq<string>)
    requires parts != []
    ensures |r| == |parts|
  {
    if |parts| == 1 then [Strip(parts[0])]
    else [LStrip(parts[0])] + parts[1..|parts| - 1] + [RStrip(parts[|parts| - 1])]
  }

  lemma StripJoin(parts: seq<string>, sep: char)
    requires parts != [] && !IsSpace(sep)
    ensures Strip(Join(parts, sep)) == Join(Outer(parts), sep)
  {
    hide LStrip, RStrip, Join;
    var n := |parts|;
    if n == 1 {
      assert parts == [parts[0]];
      JoinStep(parts[0], [], sep);
      JoinStep(Strip(parts[0]), [], sep);
    } else {
      var first, middle, last := parts[0], parts[1..n - 1], parts[n - 1];
      assert parts == [first] + (middle + [last]);
      JoinStep(first, middle + [last], sep);
      LStripStops(first, Join(middle + [last], sep), sep);
      JoinStep(LStrip(first), middle + [last], sep);
      var ahead := [LStrip(first)] + middle;
      assert [LStrip(first)] + (middle + [last]) == ahead + [last];
      JoinAppend(ahead, [last], sep);
      JoinStep(last, [], sep);
      RStripStops(Join(ahead, sep), last, sep);
      JoinAppend(ahead, [RStrip(last)], sep);
      JoinStep(RStrip(last), [], sep);
      assert Outer(parts) == ahead + [RStrip(last)];
    }
  }

  /**
    * The string test `a.startswith(b + sep)` decides exactly whether the
    * components of `b` are a proper prefix of the components of `a`.
    */
  lemma {:induction false} ProperPrefixByComponents(a: string, b: string, sep: char)
    ensures StartsWith(a, b + [sep]) <==> Split(b, sep) < Split(a, sep)
  {
    hide Split, Join;
    var sa, sb := Split(a, sep), Split(b, sep);
    if StartsWith(a, b + [sep]) {
      var rest := a[|b| + 1..];
      assert a == b + [sep] + rest;
      SplitAppend(b, rest, sep);
    }
    if sb < sa {
      var tail := sa[|sb|..];
      assert sa == sb + tail;
      JoinAppend(sb, tail, sep);
      JoinSplit(a, sep);
      JoinSplit(b, sep);
      assert a == b + [sep] + Join(tail, sep);
      assert a[..|b| + 1] == b + [sep];
    }
  }

  lemma SameComponents(a: string, b: string, sep: char)
    ensures a == b <==> Split(a, sep) == Split(b, sep)
  {
    JoinSplit(a, sep);
    JoinSplit(b, sep);
  }
}
