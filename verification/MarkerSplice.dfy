/**
  * Generated blocks between markers: the README snapshot, spliced between the first
  * markers found, and the register page, which must hold exactly one ordered pair.
  */
module MarkerSplice {
  import opened Wrappers

  predicate Occurs(text: string, pat: string, i: int) {
    0 <= i && i + |pat| <= |text| && text[i..i + |pat|] == pat
  }

  /** Python's `str.find`: the first occurrence, or -1. */
  function Find(text: string, pat: string): (r: int)
    ensures r == -1 || Occurs(text, pat, r)
    ensures forall i :: Occurs(text, pat, i) ==> r != -1 && r <= i
  {
    FindFrom(text, pat, 0)
  }

  function FindFrom(text: string, pat: string, from: nat): (r: int)
    requires from <= |text| + 1
    ensures r == -1 || (from <= r && Occurs(text, pat, r))
    ensures forall i :: from <= i && Occurs(text, pat, i) ==> r != -1 && r <= i
    decreases |text| + 1 - from
  {
    if from + |pat| > |text| then -1
    else if text[from..from + |pat|] == pat then from
    else FindFrom(text, pat, from + 1)
  }

  /** A position that holds `pat`, with none before it, is what `Find` returns. */
  lemma FindIs(text: string, pat: string, r: int)
    requires Occurs(text, pat, r) && forall i :: 0 <= i < r ==> !Occurs(text, pat, i)
    ensures Find(text, pat) == r
  {
  }

  // ---------------------------------------------------------------- the README snapshot

  /** The text from the first start marker to the end of the first end marker; none when one is missing. */
  function ExtractRegion(text: string, start: string, end: string): Option<string> {
    var s, e := Find(text, start), Find(text, end);
    if s == -1 || e == -1 then None
    else Some(if s <= e + |end| then text[s..e + |end|] else "")
  }

  function Inject(text: string, block: string, start: string, end: string): Option<string> {
    var s, e := Find(text, start), Find(text, end);
    if s == -1 || e == -1 then None else Some(text[..s] + block + text[e + |end|..])
  }

  /** The end marker comes after the start marker, apart from it. */
  predicate Ordered(text: string, start: string, end: string) {
    Find(text, start) != -1 && Find(text, end) >= Find(text, start) + |start|
  }

  /** A block that opens with the one marker and closes with the other. */
  predicate Delimited(block: string, start: string, end: string) {
    |block| >= |start| + |end| && Occurs(block, start, 0) && Occurs(block, end, |block| - |end|)
  }

  lemma SharedPrefix(text: string, text': string, pat: string, n: nat, i: int)
    requires n <= |text| && n <= |text'| && text[..n] == text'[..n] && i + |pat| <= n
    ensures Occurs(text, pat, i) <==> Occurs(text', pat, i)
  {
    if 0 <= i {
      assert text[i..i + |pat|] == text[..n][i..i + |pat|];
      assert text'[i..i + |pat|] == text'[..n][i..i + |pat|];
    }
  }

  lemma OccursInside(a: string, b: string, c: string, pat: string, i: int)
    requires |a| <= i && i + |pat| <= |a| + |b|
    ensures Occurs(a + b + c, pat, i) <==> Occurs(b, pat, i - |a|)
  {
    assert (a + b + c)[i..i + |pat|] == b[i - |a|..i - |a| + |pat|];
  }

  /** Where the markers stand after a splice: the start where it was, the end where the block's first end marker is. */
  lemma MarkersAfter(text: string, block: string, start: string, end: string)
    requires Ordered(text, start, end) && Delimited(block, start, end) && start != "" && Find(end, start) == -1
    ensures var text' := Inject(text, block, start, end).value;
            Find(text', start) == Find(text, start) && Find(text', end) == Find(text, start) + Find(block, end)
  {
    hide Find;
    FindSpec(text, start);
    FindSpec(text, end);
    FindSpec(block, end);
    FindSpec(end, start);
    var s, e, k := Find(text, start), Find(text, end), Find(block, end);
    var pre, post := text[..s], text[e + |end|..];
    var text', n := pre + block + post, s + |start|;
    assert text[..n] == text'[..n] by {
      assert text[..n] == pre + text[s..n];
      assert text'[..n] == pre + block[..|start|];
    }
    forall i | 0 <= i < s ensures !Occurs(text', start, i) {
      SharedPrefix(text, text', start, n, i);
    }
    SharedPrefix(text, text', start, n, s);
    OccursInside(pre, block, post, end, s + k);
    forall i | 0 <= i < s + k ensures !Occurs(text', end, i) {
      if i >= s {
        OccursInside(pre, block, post, end, i);
      } else if i + |end| <= n {
        SharedPrefix(text, text', end, n, i);
      } else if Occurs(text', end, i) {
        StartInsideEnd(text', start, end, i, s);
      }
    }
    FindIs(text', start, s);
    FindIs(text', end, s + k);
  }

  lemma FindSpec(text: string, pat: string)
    ensures Find(text, pat) == -1 || Occurs(text, pat, Find(text, pat))
    ensures forall i :: Occurs(text, pat, i) ==> Find(text, pat) != -1 && Find(text, pat) <= i
  {
  }

  /** An end marker that covers a whole start marker contains it. */
  lemma StartInsideEnd(text: string, start: string, end: string, i: int, s: int)
    requires 0 <= i < s && Occurs(text, start, s) && Occurs(text, end, i) && i + |end| > s + |start|
    ensures Occurs(end, start, s - i)
  {
    forall q | 0 <= q < |start| ensures end[s - i + q] == start[q] {
      CharAt(text, end, i, s - i + q);
      CharAt(text, start, s, q);
    }
    assert end[s - i..s - i + |start|] == start;
  }

  /**
    * With ordered markers a splice changes nothing outside the region, and afterwards the
    * region is the block and splicing again changes nothing, exactly when the block holds
    * no end marker before its own.
    */
  lemma SpliceIsFixpointIff(text: string, block: string, start: string, end: string)
    requires Ordered(text, start, end) && Delimited(block, start, end) && start != "" && Find(end, start) == -1
    ensures Inject(text, block, start, end).Some?
    ensures var text' := Inject(text, block, start, end).value;
            var s, e := Find(text, start), Find(text, end);
            && text' == text[..s] + block + text[e + |end|..] && Ordered(text', start, end) == (Find(block, end) >= |start|)
            && (ExtractRegion(text', start, end) == Some(block) <==> Find(block, end) == |block| - |end|)
            && (Inject(text', block, start, end) == Some(text') <==> Find(block, end) == |block| - |end|)
  {
    hide Find;
    FindSpec(text, start);
    FindSpec(text, end);
    FindSpec(block, end);
    MarkersAfter(text, block, start, end);
    var s, e, k := Find(text, start), Find(text, end), Find(block, end);
    var pre, post := text[..s], text[e + |end|..];
    var text' := pre + block + post;
    var cut := k + |end|;
    assert text'[..s] == pre;
    assert text'[s..s + cut] == block[..cut];
    assert text'[s + cut..] == block[cut..] + post;
    assert Inject(text', block, start, end) == Some(pre + block + (block[cut..] + post));
    assert |pre + block + (block[cut..] + post)| == |text'| + |block| - cut;
    assert |block[..cut]| == cut;
    if cut == |block| {
      assert block[..cut] == block && block[cut..] + post == post;
    }
  }

  /** A snapshot is up to date exactly when injecting it would change nothing. */
  lemma UpToDateIff(text: string, block: string, start: string, end: string)
    requires Ordered(text, start, end)
    ensures ExtractRegion(text, start, end) == Some(block) <==> Inject(text, block, start, end) == Some(text)
  {
    hide Find;
    FindSpec(text, start);
    FindSpec(text, end);
    var s, e := Find(text, start), Find(text, end);
    assert text == text[..s] + text[s..e + |end|] + text[e + |end|..];
    if text[..s] + block + text[e + |end|..] == text {
      assert |block| == e + |end| - s;
      assert text[s..e + |end|] == (text[..s] + block + text[e + |end|..])[s..s + |block|] == block;
    }
  }

  /** Markers in the wrong order: every splice only adds text, so no update is ever up to date. */
  lemma UnorderedGrows(text: string, block: string, start: string, end: string)
    requires Find(text, end) != -1 && Find(text, start) >= Find(text, end) + |end| && block != ""
    ensures Inject(text, block, start, end).Some?
    ensures |Inject(text, block, start, end).value| >= |text| + |block|
    ensures ExtractRegion(text, start, end) == Some("")
  {
    hide Find;
    FindSpec(text, start);
    FindSpec(text, end);
    var s, e := Find(text, start), Find(text, end) + |end|;
    assert |text[..s] + block + text[e..]| == |text| + |block| + (s - e);
    if s <= e {
      assert text[s..e] == [];
    }
  }

  // ---------------------------------------------------------------- the register page

  const PAGE_START := "<!-- guarantee-register:start -->"
  const PAGE_END := "<!-- guarantee-register:end -->"

  /** Python's `str.count`: occurrences that do not overlap. */
  function Count(text: string, pat: string): nat
    requires pat != ""
    decreases |text|
  {
    var i := Find(text, pat);
    if i == -1 then 0 else 1 + Count(text[i + |pat|..], pat)
  }

  /** An angle bracket opens a marker and never recurs in it. */
  predicate Marker(m: string) {
    |m| >= 2 && m[0] == '<' && forall k :: 0 < k < |m| ==> m[k] != '<'
  }

  ghost predicate Only(text: string, pat: string, at: int) {
    forall i :: Occurs(text, pat, i) <==> i == at
  }

  ghost predicate Never(text: string, pat: string) {
    forall i :: !Occurs(text, pat, i)
  }

  lemma CountZero(text: string, pat: string)
    requires pat != ""
    ensures Count(text, pat) == 0 <==> Never(text, pat)
  {
  }

  lemma OccursLater(text: string, pat: string, from: nat, j: int)
    requires from <= |text|
    ensures Occurs(text[from..], pat, j) <==> j >= 0 && Occurs(text, pat, j + from)
  {
    if 0 <= j && j + from + |pat| <= |text| {
      assert text[from..][j..j + |pat|] == text[j + from..j + from + |pat|];
    }
  }

  /** A marker cannot overlap itself, so it counts once exactly when it stands at one place. */
  lemma CountOne(text: string, pat: string)
    requires Marker(pat)
    ensures Count(text, pat) == 1 <==> exists at :: Only(text, pat, at)
    ensures Count(text, pat) == 1 ==> Only(text, pat, Find(text, pat))
  {
    hide Find;
    FindSpec(text, pat);
    var at := Find(text, pat);
    if a :| Only(text, pat, a) {
      assert Occurs(text, pat, a) && at == a;
    }
    if at != -1 {
      var rest := text[at + |pat|..];
      CountZero(rest, pat);
      AfterTheFirst(text, pat, at);
      if Never(rest, pat) {
        assert Only(text, pat, at);
      }
    }
  }

  /** Nothing stands behind the first occurrence exactly when it is the only one. */
  lemma AfterTheFirst(text: string, pat: string, at: int)
    requires Marker(pat) && Occurs(text, pat, at) && forall i :: Occurs(text, pat, i) ==> at <= i
    ensures Never(text[at + |pat|..], pat) <==> forall i :: Occurs(text, pat, i) ==> i == at
  {
    var rest := text[at + |pat|..];
    forall i | Occurs(text, pat, i) && i != at ensures Occurs(rest, pat, i - at - |pat|) {
      Apart(text, pat, pat, at, i);
      OccursLater(text, pat, at + |pat|, i - at - |pat|);
    }
    forall j | Occurs(rest, pat, j) ensures Occurs(text, pat, j + at + |pat|) {
      OccursLater(text, pat, at + |pat|, j);
    }
  }

  /** Two markers at different places do not overlap. */
  lemma Apart(text: string, m: string, n: string, i: int, j: int)
    requires Marker(m) && Marker(n) && Occurs(text, m, i) && Occurs(text, n, j) && i < j
    ensures j >= i + |m|
  {
    CharAt(text, n, j, 0);
    forall p | i < p < i + |m| ensures text[p] != '<' {
      CharAt(text, m, i, p - i);
    }
  }

  lemma CharAt(text: string, m: string, i: int, k: int)
    requires Occurs(text, m, i) && 0 <= k < |m|
    ensures text[i + k] == m[k]
  {
    assert text[i..i + |m|][k] == text[i + k];
  }

  /** The page with its table replaced; none when it does not hold one ordered marker pair. */
  function PageWithTable(text: string, table: string): Option<string> {
    if Count(text, PAGE_START) != 1 || Count(text, PAGE_END) != 1 || Find(text, PAGE_START) > Find(text, PAGE_END) then None
    else
      var rest := text[Find(text, PAGE_START) + |PAGE_START|..];
      var e := Find(rest, PAGE_END);
      if e == -1 then None else Some(text[..Find(text, PAGE_START)] + table + rest[e + |PAGE_END|..])
  }

  function Table(rows: string): string {
    PAGE_START + ("\n" + rows + "\n") + PAGE_END
  }

  lemma PageMarkers()
    ensures Marker(PAGE_START) && Marker(PAGE_END)
    ensures |PAGE_START| > 24 && |PAGE_END| > 24 && PAGE_START[24] != PAGE_END[24]
  {
  }

  /** No marker lies across the place where a marker begins. */
  lemma OccursSplit(a: string, b: string, m: string, i: int)
    requires Marker(m) && b != "" && b[0] == '<'
    ensures Occurs(a + b, m, i) <==> Occurs(a, m, i) || Occurs(b, m, i - |a|)
  {
    if i >= |a| {
      assert (a + b)[|a|..] == b;
      OccursLater(a + b, m, |a|, i - |a|);
    } else if i + |m| <= |a| {
      SharedPrefix(a + b, a, m, |a|, i);
    } else if Occurs(a + b, m, i) {
      CharAt(a + b, m, i, |a| - i);
    }
  }

  /** Within a marker only that marker begins, at its start. */
  lemma OccursAfterMarker(first: string, rest: string, m: string, i: int)
    requires m in {PAGE_START, PAGE_END} && first in {PAGE_START, PAGE_END}
    ensures Occurs(first + rest, m, i) <==> (i == 0 && m == first) || Occurs(rest, m, i - |first|)
  {
    PageMarkers();
    var text := first + rest;
    if i >= |first| {
      assert text[|first|..] == rest;
      OccursLater(text, m, |first|, i - |first|);
    } else if i == 0 {
      if m == first {
        assert text[..|m|] == first;
      } else if Occurs(text, m, 0) {
        CharAt(text, m, 0, 24);
      }
    } else if 0 < i {
      assert text[i] == first[i] != '<';
      if Occurs(text, m, i) {
        CharAt(text, m, i, 0);
      }
    }
  }

  lemma OccursInPage(pre: string, body: string, post: string, m: string, i: int)
    requires m in {PAGE_START, PAGE_END}
    ensures Occurs(pre + (PAGE_START + (body + (PAGE_END + post))), m, i) <==>
            || Occurs(pre, m, i)
            || (i == |pre| && m == PAGE_START)
            || Occurs(body, m, i - |pre| - |PAGE_START|)
            || (i == |pre| + |PAGE_START| + |body| && m == PAGE_END)
            || Occurs(post, m, i - |pre| - |PAGE_START| - |body| - |PAGE_END|)
  {
    PageMarkers();
    hide Occurs, Marker;
    var tail := PAGE_END + post;
    var rest := PAGE_START + (body + tail);
    assert rest[0] == '<' && tail[0] == '<';
    OccursSplit(pre, rest, m, i);
    OccursAfterMarker(PAGE_START, body + tail, m, i - |pre|);
    OccursSplit(body, tail, m, i - |pre| - |PAGE_START|);
    OccursAfterMarker(PAGE_END, post, m, i - |pre| - |PAGE_START| - |body|);
  }

  /** An accepted page falls into what precedes its one start marker and what follows its one end marker. */
  lemma PageParts(text: string, table: string) returns (s: nat, e: nat)
    requires PageWithTable(text, table).Some?
    ensures s + |PAGE_START| <= e && e + |PAGE_END| <= |text|
    ensures PageWithTable(text, table) == Some(text[..s] + table + text[e + |PAGE_END|..])
    ensures Only(text, PAGE_START, s) && Only(text, PAGE_END, e)
  {
    hide Count, Find;
    PageMarkers();
    CountOne(text, PAGE_START);
    CountOne(text, PAGE_END);
    assert Occurs(text, PAGE_START, Find(text, PAGE_START)) && Occurs(text, PAGE_END, Find(text, PAGE_END));
    s, e := Find(text, PAGE_START), Find(text, PAGE_END);
    if s < e {
      Apart(text, PAGE_START, PAGE_END, s, e);
    } else {
      CharAt(text, PAGE_START, s, 24);
      CharAt(text, PAGE_END, s, 24);
    }
    SettledPage(text, table, s, e);
  }

  /** Where one marker of the new page stands: only at its place, unless the table's interior holds it too. */
  lemma OneMarkerLeft(pre: string, body: string, post: string, m: string)
    requires m in {PAGE_START, PAGE_END} && Never(pre, m) && Never(post, m)
    ensures var page := pre + (PAGE_START + (body + (PAGE_END + post)));
            var at := if m == PAGE_START then |pre| else |pre| + |PAGE_START| + |body|;
            && Occurs(page, m, at)
            && (Only(page, m, at) <==> Never(body, m))
            && (!Never(body, m) ==> Count(page, m) != 1)
  {
    PageMarkers();
    hide Occurs, Count, Marker;
    var page := pre + (PAGE_START + (body + (PAGE_END + post)));
    var at := if m == PAGE_START then |pre| else |pre| + |PAGE_START| + |body|;
    forall i ensures Occurs(page, m, i) <==> i == at || Occurs(body, m, i - |pre| - |PAGE_START|) {
      OccursInPage(pre, body, post, m, i);
    }
    if j :| Occurs(body, m, j) {
      OccursFits(body, m, j);
      assert Occurs(page, m, j + |pre| + |PAGE_START|);
    }
    CountOne(page, m);
  }

  lemma OccursFits(text: string, m: string, j: int)
    requires Occurs(text, m, j)
    ensures 0 <= j && j + |m| <= |text|
  {
  }

  /**
    * A regenerated page keeps exactly one ordered marker pair, so it is accepted again and
    * is then its own regeneration, exactly when no marker stands inside the table.
    */
  lemma PageSpliceIff(text: string, rows: string)
    requires PageWithTable(text, Table(rows)).Some?
    ensures var page := PageWithTable(text, Table(rows)).value;
            var clean := Never("\n" + rows + "\n", PAGE_START) && Never("\n" + rows + "\n", PAGE_END);
            && (PageWithTable(page, Table(rows)).Some? <==> clean)
            && (clean ==> PageWithTable(page, Table(rows)) == Some(page))
  {
    PageMarkers();
    hide Occurs, Count, Marker, Find;
    var s, e := PageParts(text, Table(rows));
    var pre, body, post := text[..s], "\n" + rows + "\n", text[e + |PAGE_END|..];
    var page := PageWithTable(text, Table(rows)).value;
    assert page == pre + (PAGE_START + (body + (PAGE_END + post)));
    NoneOutside(text, PAGE_START, s, s, e);
    NoneOutside(text, PAGE_END, e, s, e);
    OneMarkerLeft(pre, body, post, PAGE_START);
    OneMarkerLeft(pre, body, post, PAGE_END);
    if Never(body, PAGE_START) && Never(body, PAGE_END) {
      SettledPage(page, Table(rows), |pre|, |pre| + |PAGE_START| + |body|);
      assert page[..|pre|] == pre;
      assert page[|pre| + |PAGE_START| + |body| + |PAGE_END|..] == post;
    }
  }

  lemma NoneOutside(text: string, m: string, at: int, s: nat, e: nat)
    requires Only(text, m, at) && s <= at <= e && e + |PAGE_END| <= |text| && m in {PAGE_START, PAGE_END} && s <= e
    ensures Never(text[..s], m) && Never(text[e + |PAGE_END|..], m)
  {
    PageMarkers();
    forall i ensures !Occurs(text[..s], m, i) {
      if Occurs(text[..s], m, i) {
        SharedPrefix(text, text[..s], m, s, i);
      }
    }
    var from := e + |PAGE_END|;
    var post := text[from..];
    forall i ensures !Occurs(post, m, i) {
      OccursLater(text, m, from, i);
    }
  }

  /** A page with one ordered pair is spliced between those two places. */
  lemma SettledPage(page: string, table: string, s: nat, e: nat)
    requires Only(page, PAGE_START, s) && Only(page, PAGE_END, e) && s + |PAGE_START| <= e && e + |PAGE_END| <= |page|
    ensures PageWithTable(page, table) == Some(page[..s] + table + page[e + |PAGE_END|..])
  {
    hide Count;
    PageMarkers();
    CountOne(page, PAGE_START);
    CountOne(page, PAGE_END);
    FindIs(page, PAGE_START, s);
    FindIs(page, PAGE_END, e);
    var from := s + |PAGE_START|;
    var rest := page[from..];
    OccursLater(page, PAGE_END, from, e - from);
    forall j | 0 <= j < e - from ensures !Occurs(rest, PAGE_END, j) {
      OccursLater(page, PAGE_END, from, j);
    }
    FindIs(rest, PAGE_END, e - from);
    assert rest[e - from + |PAGE_END|..] == page[e + |PAGE_END|..];
  }
}
