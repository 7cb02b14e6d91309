/**
  * Declared file scopes: how a path is normalised, and when two scopes contend.
  *
  * A normalised path is a list of components joined by '/'; the empty list is the
  * whole tree. Two paths overlap when one component list is a prefix of the other.
  */
module Scoping {
  import opened Strings

  const MAX_PATH_LENGTH := 4096

  // ---------------------------------------------------------------- one path

  /** Drops the empty and "." segments. */
  function Kept(parts: seq<string>): (kept: seq<string>)
    ensures forall part :: part in kept <==> part in parts && part != "" && part != "."
    ensures |kept| <= |parts|
  {
    if parts == [] then []
    else if parts[0] == "" || parts[0] == "." then Kept(parts[1..])
    else [parts[0]] + Kept(parts[1..])
  }

  predicate PlainPart(part: string) {
    part != "" && part != "." && part != ".." && '/' !in part
  }

  /** Backslashes count as separators, and surrounding whitespace is dropped. */
  function Cleaned(path: string): string {
    Replace(Strip(path), '\\', '/')
  }

  lemma CleanedPlain(path: string)
    requires Trimmed(path) && '\\' !in path
    ensures Cleaned(path) == path
  {
    StripTrimmed(path);
  }

  lemma CharsOfCleaned(path: string, c: char)
    requires c in Cleaned(path)
    ensures c == '/' || (c in path && c != '\\')
  {
    hide Strip, Trimmed;
    var from := StripKeepsMiddle(path);
    var i :| 0 <= i < |Cleaned(path)| && Cleaned(path)[i] == c;
    assert Strip(path)[i] == path[from + i];
  }

  /** The components of a cleaned path; a rooted or traversing one names the tree root. */
  function Segments(text: string): (parts: seq<string>)
    ensures forall part :: part in parts ==> PlainPart(part)
  {
    if StartsWith(text, "/") || ".." in Split(text, '/') then [] else Kept(Split(text, '/'))
  }

  /** The components a declared path names; [] is the tree root. */
  function Components(path: string): (parts: seq<string>)
    ensures forall part :: part in parts ==> PlainPart(part)
  {
    Segments(Cleaned(path))
  }

  function Normalized(path: string): string {
    Join(Components(path), '/')
  }

  /** The segment loop of the source, against `Normalized`. */
  method NormalizePath(path: string) returns (r: string)
    ensures r == Normalized(path)
  {
    hide Cleaned, Split, Kept;
    var text := Cleaned(path);
    if StartsWith(text, "/") {
      return "";
    }
    var raw := Split(text, '/');
    var segments: seq<string> := [];
    KeptNothing();
    for i := 0 to |raw|
      invariant segments == Kept(raw[..i])
      invariant ".." !in raw[..i]
    {
      KeptAppend(raw[..i], raw[i]);
      assert raw[..i] + [raw[i]] == raw[..i + 1];
      if raw[i] == "" || raw[i] == "." {
        continue;
      }
      if raw[i] == ".." {
        return "";
      }
      segments := segments + [raw[i]];
    }
    assert raw[..|raw|] == raw;
    r := Join(segments, '/');
  }

  lemma KeptNothing()
    ensures Kept([]) == []
  {
  }

  lemma {:induction false} KeptAppend(parts: seq<string>, last: string)
    ensures Kept(parts + [last]) == Kept(parts) + if last == "" || last == "." then [] else [last]
  {
    hide Kept;
    if parts == [] {
      KeptStep(last, []);
      assert parts + [last] == [last] + [];
    } else {
      var first, rest := parts[0], parts[1..];
      KeptAppend(rest, last);
      KeptStep(first, rest);
      KeptStep(first, rest + [last]);
      assert parts == [first] + rest && parts + [last] == [first] + (rest + [last]);
    }
  }

  lemma KeptStep(part: string, parts: seq<string>)
    ensures Kept([]) == []
    ensures Kept([part] + parts) == (if part == "" || part == "." then [] else [part]) + Kept(parts)
  {
    assert ([part] + parts)[1..] == parts;
  }

  predicate PathsOverlap(a: string, b: string) {
    var na, nb := Normalized(a), Normalized(b);
    || na == nb
    || na == "" || nb == ""
    || StartsWith(nb, na + "/") || StartsWith(na, nb + "/")
  }

  lemma JoinIsInvertible(parts: seq<string>)
    requires forall part :: part in parts ==> PlainPart(part)
    ensures Join(parts, '/') == "" <==> parts == []
    ensures parts != [] ==> Split(Join(parts, '/'), '/') == parts
  {
    if parts != [] {
      assert parts[0] in parts;
      SplitJoin(parts, '/');
      JoinNonEmpty(parts);
    }
  }

  lemma JoinNonEmpty(parts: seq<string>)
    requires parts != [] && parts[0] != ""
    ensures Join(parts, '/') != "" && Join(parts, '/')[0] == parts[0][0]
  {
  }

  /** The string test of the source is exactly ancestry of component lists. */
  lemma OverlapIsAncestry(a: string, b: string)
    ensures PathsOverlap(a, b) <==> Components(a) <= Components(b) || Components(b) <= Components(a)
  {
    hide Components, Split, Join;
    JoinIsInvertible(Components(a));
    JoinIsInvertible(Components(b));
    var na, nb := Normalized(a), Normalized(b);
    ProperPrefixByComponents(na, nb, '/');
    ProperPrefixByComponents(nb, na, '/');
    SameComponents(na, nb, '/');
  }

  /** A file, given by its components, lies at or below a declared path. */
  predicate Below(file: seq<string>, path: string) {
    Components(path) <= file
  }

  /** Ancestry in turn means that some file lies at or below both paths. */
  lemma OverlapIsCommonFile(a: string, b: string)
    ensures PathsOverlap(a, b) <==>
            exists file :: Below(file, a) && Below(file, b)
  {
    hide PathsOverlap, Components;
    OverlapIsAncestry(a, b);
    var ca, cb := Components(a), Components(b);
    if ca <= cb {
      assert Below(cb, a) && Below(cb, b);
    } else if cb <= ca {
      assert Below(ca, a) && Below(ca, b);
    }
    if file :| Below(file, a) && Below(file, b) {
      if |ca| <= |cb| {
        assert ca == file[..|ca|] == file[..|cb|][..|ca|];
      } else {
        assert cb == file[..|cb|] == file[..|ca|][..|cb|];
      }
    }
  }

  // ------------------------------------------------- normalising twice

  lemma {:induction false} JoinKeptShrinks(parts: seq<string>)
    ensures |Join(Kept(parts), '/')| <= |Join(parts, '/')|
  {
    if parts != [] {
      JoinKeptShrinks(parts[1..]);
      if |parts| > 1 && Kept(parts[1..]) == [] && (parts[0] == "" || parts[0] == ".") {
      } else if |parts| > 1 && parts[0] != "" && parts[0] != "." && Kept(parts[1..]) != [] {
        assert Kept(parts)[1..] == Kept(parts[1..]);
      }
    }
  }

  lemma NormalizedShrinks(path: string)
    ensures |Normalized(path)| <= |Strip(path)| <= |path|
  {
    hide Strip, Split;
    var text := Cleaned(path);
    JoinKeptShrinks(Split(text, '/'));
    JoinSplit(text, '/');
  }

  lemma {:induction false} CharsOfJoin(parts: seq<string>, c: char)
    requires c != '/' && forall part :: part in parts ==> c !in part
    ensures c !in Join(parts, '/')
  {
    if |parts| > 1 {
      CharsOfJoin(parts[1..], c);
    }
  }

  lemma {:induction false} CharsOfSplit(s: string)
    ensures forall part, c :: part in Split(s, '/') && c in part ==> c in s
  {
    if s != "" {
      CharsOfSplit(s[1..]);
    }
  }

  /** A character of the normal form is a separator or stood in the declared path. */
  lemma CharsOfNormalized(path: string, c: char)
    requires c in Normalized(path)
    ensures c == '/' || (c in path && c != '\\')
  {
    hide Cleaned, Split;
    if c in Cleaned(path) {
      CharsOfCleaned(path, c);
    } else if c != '/' {
      CharsOfSplit(Cleaned(path));
      CharsOfJoin(Components(path), c);
    }
  }

  lemma {:induction false} KeptAll(parts: seq<string>)
    requires "" !in parts && "." !in parts
    ensures Kept(parts) == parts
  {
    if parts != [] {
      KeptAll(parts[1..]);
      assert parts[0] in parts;
    }
  }

  /** A path that already is a trimmed join of segments keeps all but the empty and "." ones. */
  lemma SegmentsOfJoin(path: string, parts: seq<string>)
    requires parts != [] && path == Join(parts, '/') && Trimmed(path) && '\\' !in path
    requires parts[0] != "" && ".." !in parts && forall part :: part in parts ==> '/' !in part
    ensures Components(path) == Kept(parts)
  {
    hide Cleaned, Split, Trimmed;
    CleanedPlain(path);
    SplitJoin(parts, '/');
    JoinNonEmpty(parts);
    assert parts[0] in parts && parts[0][0] in parts[0];
  }

  lemma RootComponents()
    ensures Components("") == [] && Normalized("") == ""
  {
    CleanedPlain("");
    assert Split("", '/') == [""];
    assert Kept([""]) == [];
  }

  // What a second pass makes of a normal form, on its components: the whole text is
  // stripped again, so whitespace at the two outer ends of the list goes, and the end
  // components may turn into "", "." or "..".

  function Restored(parts: seq<string>): (r: seq<string>)
    ensures |r| <= |parts|
  {
    if parts == [] then []
    else
      var outer := Outer(parts);
      if outer[0] == "" || ".." in outer then [] else Kept(outer)
  }

  lemma OuterChars(parts: seq<string>, c: char)
    requires parts != [] && forall part :: part in parts ==> c !in part
    ensures forall part :: part in Outer(parts) ==> c !in part
  {
    hide Strip, LStrip, RStrip;
    var first, last := parts[0], parts[|parts| - 1];
    assert first in parts && last in parts;
    LStripSuffix(first);
    RStripPrefix(last);
    var from := StripKeepsMiddle(first);
  }

  lemma SegmentsOfOuter(outer: seq<string>)
    requires outer != [] && forall part :: part in outer ==> '/' !in part
    ensures Segments(Join(outer, '/')) == if outer[0] == "" || ".." in outer then [] else Kept(outer)
  {
    hide Split, Kept;
    SplitJoin(outer, '/');
    assert outer[0] in outer;
    if outer[0] != "" {
      JoinNonEmpty(outer);
      assert outer[0][0] in outer[0];
    } else if |outer| == 1 {
      KeptStep("", []);
      assert outer == [""] + [];
    } else {
      assert Join(outer, '/')[0] == '/';
    }
  }

  lemma CleanedNormalForm(path: string)
    ensures Cleaned(Normalized(path)) == Strip(Normalized(path))
  {
    hide Components, Strip, Join;
    var q := Normalized(path);
    var from := StripKeepsMiddle(q);
    if '\\' in q {
      CharsOfNormalized(path, '\\');
    }
    assert forall i :: 0 <= i < |Strip(q)| ==> Strip(q)[i] == q[from + i] && q[from + i] in q;
  }

  /** The components of a normal form are what the second pass leaves of the declared ones. */
  lemma ComponentsOfNormalized(path: string)
    ensures Components(Normalized(path)) == Restored(Components(path))
  {
    hide Cleaned, Segments, Join, Kept, Strip, Outer;
    var parts := Components(path);
    if parts == [] {
      assert Normalized(path) == "" by { JoinIsInvertible(parts); }
      RootComponents();
    } else {
      CleanedNormalForm(path);
      StripJoin(parts, '/');
      OuterChars(parts, '/');
      SegmentsOfOuter(Outer(parts));
    }
  }

  predicate OpensWithSpace(s: string) {
    s != "" && IsSpace(s[0])
  }

  predicate EndsWithSpace(s: string) {
    s != "" && IsSpace(s[|s| - 1])
  }

  lemma TrimmedJoin(parts: seq<string>)
    requires parts != [] && forall part :: part in parts ==> PlainPart(part)
    ensures Trimmed(Join(parts, '/')) <==> !OpensWithSpace(parts[0]) && !EndsWithSpace(parts[|parts| - 1])
  {
    hide Join;
    var first, last := parts[0], parts[|parts| - 1];
    assert first in parts && last in parts;
    JoinNonEmpty(parts);
    if |parts| == 1 {
      JoinStep(first, [], '/');
      assert parts == [first];
    } else {
      assert parts == parts[..|parts| - 1] + [last];
      JoinAppend(parts[..|parts| - 1], [last], '/');
      JoinStep(last, [], '/');
    }
  }

  /**
    * `normalize_path` is not idempotent. It strips the whole path but not the
    * segments, so a dropped "." segment can expose whitespace to the next pass.
    * A second pass leaves the normal form alone exactly when no segment is kept, or the
    * first one kept has no leading and the last one no trailing whitespace.
    */
  lemma SettledIff(path: string)
    ensures var kept := Components(path);
            Normalized(Normalized(path)) == Normalized(path) <==>
            kept == [] || (!OpensWithSpace(kept[0]) && !EndsWithSpace(kept[|kept| - 1]))
  {
    hide Components, Trimmed, Join, OpensWithSpace, EndsWithSpace;
    SettledIffTrimmed(path);
    if Components(path) == [] {
      JoinIsInvertible(Components(path));
      RootComponents();
    } else {
      TrimmedJoin(Components(path));
    }
  }

  lemma SettledIffTrimmed(path: string)
    ensures Normalized(Normalized(path)) == Normalized(path) <==> Trimmed(Normalized(path))
  {
    hide Components, Trimmed, Strip, Join;
    var q := Normalized(path);
    if Trimmed(q) {
      TrimmedSettles(path);
    } else {
      NormalizedShrinks(q);
      StripTrimmed(q);
    }
  }

  lemma TrimmedSettles(path: string)
    requires Trimmed(Normalized(path))
    ensures Components(Normalized(path)) == Components(path)
  {
    hide Components, Trimmed;
    var q, parts := Normalized(path), Components(path);
    if parts == [] {
      RootComponents();
    } else {
      if '\\' in q {
        CharsOfNormalized(path, '\\');
      }
      assert PlainPart(parts[0]);
      SegmentsOfJoin(q, parts);
      KeptAll(parts);
    }
  }

  /** The concrete path behind `SettledIff`: "./ a" becomes " a", then "a". */
  lemma NormalizedTwiceDiffers()
    ensures Normalized("./ a") == " a" && Normalized(" a") == "a"
  {
    hide Components, Strip, Split;
    var parts := [".", " a"];
    assert parts[1..] == [" a"];
    assert Join(parts, '/') == "./ a";
    SegmentsOfJoin("./ a", parts);
    assert Kept(parts) == [" a"];
    assert Kept(["a"]) == ["a"];
    SegmentsOfJoin("a", ["a"]);
    StripLeading(' ', "a");
    assert [' '] + "a" == " a";
  }

  lemma StripLeading(c: char, s: string)
    requires IsSpace(c) && s != "" && Trimmed(s) && '\\' !in s
    ensures Components([c] + s) == Components(s)
  {
    hide Segments;
    assert ([c] + s)[1..] == s;
    StripTrimmed(s);
  }

  // ------------------------------------------------- overlap after storing

  predicate Comparable(a: seq<string>, b: seq<string>) {
    a <= b || b <= a
  }

  /** A component that a second pass reads as nothing, as "." or as a traversal. */
  predicate Hollow(part: string) {
    part == "" || part == "." || part == ".."
  }

  /**
    * A declared ancestor and a longer path below it lose their overlap when stored: the
    * ancestor's last component ends in whitespace, which its second pass strips and the
    * other path's does not, and no second pass falls back to an enclosing directory.
    */
  predicate Loses(up: seq<string>, down: seq<string>) {
    && 0 < |up| < |down| && up <= down
    && EndsWithSpace(up[|up| - 1]) && !Hollow(Outer(up)[|up| - 1])
    && LStrip(down[0]) != "" && LStrip(down[0]) != ".." && RStrip(down[|down| - 1]) != ".."
  }

  lemma {:induction false} KeptConcat(a: seq<string>, b: seq<string>)
    ensures Kept(a + b) == Kept(a) + Kept(b)
  {
    hide Kept;
    if a == [] {
      KeptNothing();
      assert a + b == b;
    } else {
      KeptConcat(a[1..], b);
      KeptStep(a[0], a[1..]);
      KeptStep(a[0], a[1..] + b);
      assert a == [a[0]] + a[1..] && a + b == [a[0]] + (a[1..] + b);
    }
  }

  /** The longer path survives its second pass: its components open with those above `at`. */
  lemma RestoredOpens(down: seq<string>, at: nat)
    requires 1 <= at < |down| && forall part :: part in down ==> PlainPart(part)
    requires LStrip(down[0]) != "" && LStrip(down[0]) != ".." && RStrip(down[|down| - 1]) != ".."
    ensures Kept([LStrip(down[0])] + down[1..at]) <= Restored(down)
    ensures at >= 2 ==> Kept([LStrip(down[0])] + down[1..at]) ==
                        Kept([LStrip(down[0])] + down[1..at - 1]) + [down[at - 1]]
  {
    hide Kept, LStrip, RStrip;
    var first, tail := [LStrip(down[0])], [RStrip(down[|down| - 1])];
    var outer := Outer(down);
    assert outer == (first + down[1..at]) + (down[at..|down| - 1] + tail);
    KeptConcat(first + down[1..at], down[at..|down| - 1] + tail);
    forall part | part in outer ensures part != ".." {
      assert part in first || part in tail || part in down;
    }
    if at >= 2 {
      assert first + down[1..at] == (first + down[1..at - 1]) + [down[at - 1]];
      KeptAppend(first + down[1..at - 1], down[at - 1]);
      assert down[at - 1] in down;
    }
  }

  /** What the second pass leaves of a path with one component. */
  lemma RestoredSingle(part: string)
    ensures Restored([part]) == if Hollow(Strip(part)) then [] else [Strip(part)]
  {
    hide Strip;
    assert Kept([Strip(part)]) == if Strip(part) == "" || Strip(part) == "." then [] else [Strip(part)] by {
      assert [Strip(part)][1..] == [];
    }
  }

  lemma RestoredLonger(parts: seq<string>)
    requires |parts| >= 2 && forall part :: part in parts ==> PlainPart(part)
    requires LStrip(parts[0]) != "" && LStrip(parts[0]) != ".."
    ensures var ahead, last := Kept([LStrip(parts[0])] + parts[1..|parts| - 1]), RStrip(parts[|parts| - 1]);
            Restored(parts) == if last == ".." then [] else if Hollow(last) then ahead else ahead + [last]
  {
    hide Kept, LStrip, RStrip;
    var init, last := [LStrip(parts[0])] + parts[1..|parts| - 1], RStrip(parts[|parts| - 1]);
    assert Outer(parts) == init + [last];
    KeptAppend(init, last);
    forall part | part in init ensures part != ".." {
      assert part == LStrip(parts[0]) || part in parts;
    }
    assert last in Outer(parts);
  }

  lemma StripEnds(s: string)
    ensures RStrip(s) == s <==> !EndsWithSpace(s)
    ensures Strip(s) == LStrip(s) <==> !EndsWithSpace(LStrip(s))
    ensures LStrip(s) != "" ==> EndsWithSpace(LStrip(s)) == EndsWithSpace(s)
    ensures Strip(s) != "" ==> LStrip(s) != ""
    ensures Strip(s) != "." ==> LStrip(s) != "."
  {
    var rest := LStrip(s);
    LStripSuffix(s);
    if rest != "" {
      assert rest[|rest| - 1] == s[|s| - 1];
    }
    assert RStrip(".") == ".";
  }

  /** The one way in which an overlap of declared paths is lost. */
  lemma LosesIff(up: seq<string>, down: seq<string>)
    requires up <= down && forall part :: part in down ==> PlainPart(part)
    ensures Comparable(Restored(up), Restored(down)) <==> !Loses(up, down)
  {
    hide Kept, LStrip, RStrip, Strip, Restored, EndsWithSpace;
    if |up| == |down| {
      assert up == down;
    } else if up == [] {
      assert Restored(up) == [];
    } else {
      var n, first, last := |up|, LStrip(down[0]), RStrip(down[|down| - 1]);
      if first == "" || first == ".." || last == ".." {
        NothingLeft(down);
      } else {
        if n == 1 {
          assert up == [up[0]];
          LosesSingle(up[0], down);
        } else {
          LosesLonger(up, down);
        }
      }
    }
  }

  lemma LosesLonger(up: seq<string>, down: seq<string>)
    requires 2 <= |up| < |down| && up <= down && forall part :: part in down ==> PlainPart(part)
    requires LStrip(down[0]) != "" && LStrip(down[0]) != ".." && RStrip(down[|down| - 1]) != ".."
    ensures Comparable(Restored(up), Restored(down)) <==> !Loses(up, down)
  {
    hide Kept, LStrip, RStrip, Strip, Restored, EndsWithSpace, PlainPart;
    var n := |up|;
    var ahead, last := Kept([LStrip(down[0])] + down[1..n - 1]), RStrip(up[n - 1]);
    forall part | part in up ensures PlainPart(part) { assert part in down; }
    assert up[1..n - 1] == down[1..n - 1] && up[n - 1] == down[n - 1];
    RestoredLonger(up);
    RestoredOpens(down, n);
    StripEnds(up[n - 1]);
    assert Outer(up)[n - 1] == last;
    assert ahead + [up[n - 1]] <= Restored(down);
    if !Hollow(last) {
      assert Restored(up) == ahead + [last];
      if last != up[n - 1] {
        assert Restored(up)[|ahead|] != Restored(down)[|ahead|];
      }
    }
  }

  lemma NothingLeft(down: seq<string>)
    requires |down| >= 2 && (LStrip(down[0]) == "" || LStrip(down[0]) == ".." || RStrip(down[|down| - 1]) == "..")
    ensures Restored(down) == []
  {
    hide Kept, LStrip, RStrip;
    var outer := Outer(down);
    assert outer[0] == LStrip(down[0]) && outer[|down| - 1] == RStrip(down[|down| - 1]);
  }

  lemma LosesSingle(part: string, down: seq<string>)
    requires |down| >= 2 && down[0] == part && forall part :: part in down ==> PlainPart(part)
    requires LStrip(part) != "" && LStrip(part) != ".." && RStrip(down[|down| - 1]) != ".."
    ensures Comparable(Restored([part]), Restored(down)) <==> !Loses([part], down)
  {
    hide Kept, LStrip, RStrip, Strip, Restored, EndsWithSpace;
    RestoredSingle(part);
    StripEnds(part);
    assert [part] <= down;
    if !Hollow(Strip(part)) {
      RestoredOpens(down, 1);
      assert [LStrip(part)] + down[1..1] == [LStrip(part)] + [];
      KeptStep(LStrip(part), []);
    }
  }

  predicate OverlapLost(a: string, b: string) {
    Loses(Components(a), Components(b)) || Loses(Components(b), Components(a))
  }

  /**
    * Storing normalises declared paths, and comparing normalises them again. An overlap of
    * two declared paths is still seen then, unless one of them loses it to the other.
    */
  lemma StoredOverlapIff(a: string, b: string)
    requires PathsOverlap(a, b)
    ensures PathsOverlap(Normalized(a), Normalized(b)) <==>
            !OverlapLost(a, b)
  {
    hide Components, Restored, Loses, PathsOverlap, Normalized;
    var ca, cb := Components(a), Components(b);
    OverlapIsAncestry(a, b);
    OverlapIsAncestry(Normalized(a), Normalized(b));
    ComponentsOfNormalized(a);
    ComponentsOfNormalized(b);
    OneWay(ca, cb);
    if ca <= cb {
      LosesIff(ca, cb);
    } else {
      LosesIff(cb, ca);
    }
  }

  lemma OneWay(up: seq<string>, down: seq<string>)
    ensures up <= down ==> !Loses(down, up)
    ensures Loses(up, down) ==> up <= down
    ensures Loses(down, up) ==> down <= up
  {
    hide LStrip, RStrip, Hollow, EndsWithSpace;
  }

  // ---------------------------------------------------------------- path sets

  /** Order-preserving removal of repetitions. */
  function Dedup(s: seq<string>): (r: seq<string>)
    ensures forall x :: x in r <==> x in s
    ensures forall i, j :: 0 <= i < j < |r| ==> r[i] != r[j]
    ensures |r| <= |s| && (|r| == |s| ==> r == s)
  {
    if s == [] then []
    else
      var init, last := s[..|s| - 1], s[|s| - 1];
      assert s == init + [last];
      if last in Dedup(init) then Dedup(init) else Dedup(init) + [last]
  }

  lemma {:induction false} DedupDistinct(s: seq<string>)
    requires forall i, j :: 0 <= i < j < |s| ==> s[i] != s[j]
    ensures Dedup(s) == s
  {
    if s != [] {
      var init := s[..|s| - 1];
      DedupDistinct(init);
      assert s[|s| - 1] !in init;
    }
  }

  /** Python's `str.isprintable`, for a given table of printable characters. */
  predicate AllPrintable(s: string, printable: char -> bool) {
    forall c :: c in s ==> printable(c)
  }

  predicate Trusted(raw: string, printable: char -> bool) {
    |raw| <= MAX_PATH_LENGTH && AllPrintable(raw, printable)
  }

  /** A declared path that is not trusted as a scope, or that names the tree root. */
  predicate Widens(raw: string, printable: char -> bool) {
    !Trusted(raw, printable) || Normalized(raw) == ""
  }

  function NormalizedEach(paths: seq<string>): (r: seq<string>)
    ensures |r| == |paths| && forall i :: 0 <= i < |r| ==> r[i] == Normalized(paths[i])
  {
    seq(|paths|, i requires 0 <= i < |paths| => Normalized(paths[i]))
  }

  /** The stored scope: distinct normal forms, or [""] when anything widens it. */
  function NormalizedPaths(paths: seq<string>, cap: nat, printable: char -> bool): (r: seq<string>)
    ensures paths == [] ==> r == []
    ensures r == [] ==> paths == []
  {
    var distinct := Dedup(NormalizedEach(paths));
    assert paths != [] ==> Normalized(paths[0]) in NormalizedEach(paths);
    if (exists raw :: raw in paths && Widens(raw, printable)) || |distinct| > cap then [""] else distinct
  }

  /** A single trusted path is stored as its normal form. */
  lemma StoredAs(path: string, norm: string, cap: nat, printable: char -> bool)
    requires Normalized(path) == norm && norm != "" && Trusted(path, printable) && cap >= 1
    ensures NormalizedPaths([path], cap, printable) == [norm]
  {
    hide Normalized;
    assert NormalizedEach([path]) == [norm];
    assert Dedup([norm]) == [norm] by { assert [norm][..0] == []; }
  }

  lemma WidenedScope(paths: seq<string>, cap: nat, printable: char -> bool, i: nat)
    requires i < |paths| && (Widens(paths[i], printable) || |Dedup(NormalizedEach(paths[..i + 1]))| > cap)
    ensures NormalizedPaths(paths, cap, printable) == [""]
  {
    hide Normalized, Widens, Dedup;
    assert paths[i] in paths;
    assert NormalizedEach(paths)[..i + 1] == NormalizedEach(paths[..i + 1]);
    DedupGrows(NormalizedEach(paths), i + 1);
  }

  lemma DistinctScope(paths: seq<string>, cap: nat, printable: char -> bool)
    requires forall k :: 0 <= k < |paths| ==> !Widens(paths[k], printable)
    requires |Dedup(NormalizedEach(paths))| <= cap
    ensures NormalizedPaths(paths, cap, printable) == Dedup(NormalizedEach(paths))
  {
  }

  lemma DedupStep(paths: seq<string>, i: nat)
    requires i < |paths|
    ensures var before := Dedup(NormalizedEach(paths[..i]));
            Dedup(NormalizedEach(paths[..i + 1])) ==
            if Normalized(paths[i]) in before then before else before + [Normalized(paths[i])]
  {
    var each := NormalizedEach(paths[..i + 1]);
    assert each[..|each| - 1] == NormalizedEach(paths[..i]);
  }

  /** The accumulating loop of the source, with its early returns, against `NormalizedPaths`. */
  method NormalizePaths(paths: seq<string>, cap: nat, printable: char -> bool) returns (out: seq<string>)
    ensures out == NormalizedPaths(paths, cap, printable)
  {
    hide Normalized, NormalizedPaths, Dedup;
    out := [];
    for i := 0 to |paths|
      invariant out == Dedup(NormalizedEach(paths[..i])) && |out| <= cap
      invariant forall k :: 0 <= k < i ==> !Widens(paths[k], printable)
    {
      var raw := paths[i];
      DedupStep(paths, i);
      var norm := NormalizePath(raw);
      if !Trusted(raw, printable) || norm == "" {
        WidenedScope(paths, cap, printable, i);
        return [""];
      }
      if norm !in out {
        out := out + [norm];
        if |out| > cap {
          WidenedScope(paths, cap, printable, i);
          return [""];
        }
      }
    }
    assert paths[..|paths|] == paths;
    DistinctScope(paths, cap, printable);
  }

  lemma {:induction false} DedupGrows(s: seq<string>, n: nat)
    requires n <= |s|
    ensures |Dedup(s[..n])| <= |Dedup(s)|
    decreases |s| - n
  {
    if n == |s| {
      assert s[..n] == s;
    } else {
      DedupGrows(s, n + 1);
      assert s[..n + 1][..n] == s[..n];
    }
  }

  /** A stored scope normalises to itself exactly when each of its paths is trimmed. */
  lemma StoredSettledIffTrimmed(paths: seq<string>, cap: nat, printable: char -> bool)
    requires printable('/')
    ensures var stored := NormalizedPaths(paths, cap, printable);
            NormalizedPaths(stored, cap, printable) == stored <==> forall p :: p in stored ==> Trimmed(p)
  {
    hide Normalized, NormalizedPaths, Dedup;
    var stored := NormalizedPaths(paths, cap, printable);
    RootComponents();
    if stored == [""] {
      RootIsStored(cap, printable);
      assert "" in stored;
    } else {
      forall p | p in stored
        ensures Trusted(p, printable) && p != "" && (Normalized(p) == p <==> Trimmed(p))
      {
        StoredPath(paths, cap, printable, p);
      }
      StoredIsDistinct(paths, cap, printable);
      StoredAgain(stored, cap, printable);
    }
  }

  lemma RootIsStored(cap: nat, printable: char -> bool)
    ensures NormalizedPaths([""], cap, printable) == [""]
  {
    RootComponents();
    assert Widens("", printable) && "" in [""];
  }

  lemma StoredIsDistinct(paths: seq<string>, cap: nat, printable: char -> bool)
    ensures var stored := NormalizedPaths(paths, cap, printable);
            (stored != [""] ==> |stored| <= cap) && Dedup(stored) == stored
  {
    DedupDistinct(NormalizedPaths(paths, cap, printable));
  }

  /** A stored path other than the root is trusted as it stands. */
  lemma StoredPath(paths: seq<string>, cap: nat, printable: char -> bool, p: string)
    requires printable('/') && NormalizedPaths(paths, cap, printable) != [""]
    requires p in NormalizedPaths(paths, cap, printable)
    ensures Trusted(p, printable) && p != ""
    ensures Normalized(p) == p <==> Trimmed(p)
  {
    hide Normalized, Dedup, Trimmed;
    var i :| 0 <= i < |paths| && Normalized(paths[i]) == p;
    var raw := paths[i];
    assert raw in paths && !Widens(raw, printable);
    NormalizedShrinks(raw);
    SettledIffTrimmed(raw);
    forall c | c in p ensures printable(c) {
      CharsOfNormalized(raw, c);
    }
  }

  /** For distinct trusted paths, normalising again changes nothing iff it changes no path. */
  lemma StoredAgain(stored: seq<string>, cap: nat, printable: char -> bool)
    requires |stored| <= cap && Dedup(stored) == stored && stored != [""]
    requires forall p :: p in stored ==> Trusted(p, printable) && p != ""
    ensures NormalizedPaths(stored, cap, printable) == stored <==> forall p :: p in stored ==> Normalized(p) == p
  {
    hide Normalized, Trusted, Dedup;
    if forall p :: p in stored ==> Normalized(p) == p {
      assert NormalizedEach(stored) == stored;
    }
    if NormalizedPaths(stored, cap, printable) == stored {
      SameLengthDedup(NormalizedEach(stored));
      forall p | p in stored ensures Normalized(p) == p {
        var k :| 0 <= k < |stored| && stored[k] == p;
        assert NormalizedEach(stored)[k] == Normalized(p);
      }
    }
  }

  lemma SameLengthDedup(s: seq<string>)
    ensures |Dedup(s)| == |s| ==> Dedup(s) == s
  {
  }

  lemma StoredOf(paths: seq<string>, cap: nat, printable: char -> bool)
    requires NormalizedPaths(paths, cap, printable) != [""]
    ensures forall p :: p in NormalizedPaths(paths, cap, printable) <==> exists raw :: raw in paths && Normalized(raw) == p
  {
    hide Normalized;
    var each := NormalizedEach(paths);
    forall raw | raw in paths ensures Normalized(raw) in each {
      var i :| 0 <= i < |paths| && paths[i] == raw;
      assert each[i] == Normalized(raw);
    }
  }

  /**
    * Whether the stored scope still reaches a declared path, as comparing reads it: always
    * when it was widened, and else exactly when the second pass leaves some declared path
    * at or above it.
    */
  lemma StoredCoversDeclared(paths: seq<string>, cap: nat, printable: char -> bool, raw: string)
    requires raw in paths
    ensures var stored := NormalizedPaths(paths, cap, printable);
            (exists p :: p in stored && Below(Components(raw), p)) <==>
            stored == [""] || exists other :: other in paths && Restored(Components(other)) <= Components(raw)
  {
    hide Normalized, NormalizedPaths, Components, Restored;
    var stored := NormalizedPaths(paths, cap, printable);
    if stored == [""] {
      RootComponents();
      assert "" in stored && Below(Components(raw), "");
    } else {
      StoredOf(paths, cap, printable);
      forall other | other in paths
        ensures Normalized(other) in stored && Components(Normalized(other)) == Restored(Components(other))
      {
        ComponentsOfNormalized(other);
      }
      if other :| other in paths && Restored(Components(other)) <= Components(raw) {
        assert Below(Components(raw), Normalized(other));
      }
    }
  }

  // ---------------------------------------------------------------- whole scopes

  /** The conflict rule for plain (display-only) scopes. */
  predicate ScopesConflict(worktreeA: string, pathsA: seq<string>, worktreeB: string, pathsB: seq<string>) {
    && worktreeA == worktreeB
    && (pathsA == [] || pathsB == [] ||
        exists a, b :: a in pathsA && b in pathsB && PathsOverlap(a, b))
  }

  /** Plain scopes contend exactly when some file of the shared worktree lies in both. */
  lemma ConflictIsCommonFile(worktreeA: string, pathsA: seq<string>, worktreeB: string, pathsB: seq<string>)
    ensures ScopesConflict(worktreeA, pathsA, worktreeB, pathsB) <==>
            worktreeA == worktreeB && exists file :: Owns(pathsA, file) && Owns(pathsB, file)
  {
    if ScopesConflict(worktreeA, pathsA, worktreeB, pathsB) {
      if pathsA == [] && pathsB == [] {
        assert Owns(pathsA, []) && Owns(pathsB, []);
      } else if pathsA == [] {
        assert Below(Components(pathsB[0]), pathsB[0]);
        assert Owns(pathsA, Components(pathsB[0])) && Owns(pathsB, Components(pathsB[0]));
      } else if pathsB == [] {
        assert Below(Components(pathsA[0]), pathsA[0]);
        assert Owns(pathsA, Components(pathsA[0])) && Owns(pathsB, Components(pathsA[0]));
      } else {
        var a, b :| a in pathsA && b in pathsB && PathsOverlap(a, b);
        OverlapIsCommonFile(a, b);
        var file :| Below(file, a) && Below(file, b);
        assert Owns(pathsA, file) && Owns(pathsB, file);
      }
    }
    if file :| Owns(pathsA, file) && Owns(pathsB, file) {
      if pathsA != [] && pathsB != [] {
        var a :| a in pathsA && Below(file, a);
        var b :| b in pathsB && Below(file, b);
        OverlapIsCommonFile(a, b);
      }
    }
  }

  /** A scope owns the whole worktree when it names no path, else what lies below its paths. */
  predicate Owns(paths: seq<string>, file: seq<string>) {
    paths == [] || exists p :: p in paths && Below(file, p)
  }

  /**
    * Two declarations whose stored scopes are apart: they name a common file exactly when
    * some overlap between them was lost in storing.
    */
  lemma ApartUnlessLost(worktree: string, left: seq<string>, right: seq<string>, cap: nat, printable: char -> bool)
    requires !ScopesConflict(worktree, NormalizedPaths(left, cap, printable),
                             worktree, NormalizedPaths(right, cap, printable))
    ensures (exists file :: Owns(left, file) && Owns(right, file)) <==>
            exists a, b :: a in left && b in right && OverlapLost(a, b)
  {
    hide Normalized, NormalizedPaths, PathsOverlap, OverlapLost, Owns;
    ConflictIsCommonFile(worktree, left, worktree, right);
    var p, q := NormalizedPaths(left, cap, printable), NormalizedPaths(right, cap, printable);
    WidenedMeetsAll(worktree, p);
    WidenedMeetsAll(worktree, q);
    StoredOf(left, cap, printable);
    StoredOf(right, cap, printable);
    forall a, b | a in left && b in right ensures PathsOverlap(a, b) == OverlapLost(a, b) {
      assert Normalized(a) in p && Normalized(b) in q && !PathsOverlap(Normalized(a), Normalized(b));
      LostWasOverlap(a, b);
      if PathsOverlap(a, b) {
        StoredOverlapIff(a, b);
      }
    }
  }

  lemma LostWasOverlap(a: string, b: string)
    ensures OverlapLost(a, b) ==> PathsOverlap(a, b)
  {
    hide Components, Loses, PathsOverlap;
    OverlapIsAncestry(a, b);
    OneWay(Components(a), Components(b));
  }

  /** A widened scope contends with every scope of its worktree. */
  lemma WidenedMeetsAll(worktree: string, paths: seq<string>)
    ensures ScopesConflict(worktree, [""], worktree, paths) && ScopesConflict(worktree, paths, worktree, [""])
  {
    hide Components;
    RootComponents();
    if paths != [] {
      assert "" in [""] && paths[0] in paths && PathsOverlap("", paths[0]) && PathsOverlap(paths[0], "");
    }
  }
}
