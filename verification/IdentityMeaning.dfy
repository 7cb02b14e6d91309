/**
  * What the scope rules say about spelled paths, worktree labels and object keys, told on
  * their characters and parts.
  */
module IdentityMeaning {
  import opened Wrappers
  import opened Strings
  import opened Scoping
  import opened PathIdentity

  // ---------------------------------------------------------------- declared paths

  /** Backslashes and outer whitespace do not matter to a declared path. */
  lemma SpellingDoesNotMatter(path: string, lead: string, trail: string)
    requires AllSpace(lead) && AllSpace(trail)
    ensures Components(lead + path + trail) == Components(path)
    ensures Components(Replace(path, '\\', '/')) == Components(path)
  {
    hide Segments, Strip;
    StripAround(lead, path, trail);
    StripReplaced(path);
  }

  /** What stripping keeps is determined: a trimmed middle with whitespace on both sides. */
  lemma StripIsUnique(s: string, lead: string, middle: string, trail: string)
    requires s == lead + middle + trail && AllSpace(lead) && AllSpace(trail) && Trimmed(middle)
    ensures Strip(s) == middle
  {
    hide IsSpace;
    LStripLead(lead, middle + trail);
    assert s == lead + (middle + trail);
    if middle == "" {
      LStripLead(trail, "");
      assert middle + trail == trail && trail + "" == trail;
    } else {
      LStripKeeps(middle + trail);
      RStripTrail(middle, trail);
    }
  }

  lemma {:induction false} LStripLead(lead: string, rest: string)
    requires AllSpace(lead)
    ensures LStrip(lead + rest) == LStrip(rest)
    decreases lead
  {
    hide IsSpace;
    if lead == "" {
      assert lead + rest == rest;
    } else {
      assert lead[0] in lead && (lead + rest)[1..] == lead[1..] + rest;
      LStripLead(lead[1..], rest);
    }
  }

  lemma LStripKeeps(s: string)
    requires s != "" && !IsSpace(s[0])
    ensures LStrip(s) == s
  {
  }

  lemma {:induction false} RStripTrail(s: string, trail: string)
    requires s != "" && !IsSpace(s[|s| - 1]) && AllSpace(trail)
    ensures RStrip(s + trail) == s
    decreases trail
  {
    hide IsSpace;
    if trail == "" {
      assert s + trail == s;
    } else {
      var n := |trail| - 1;
      assert trail[n] in trail && (s + trail)[..|s| + n] == s + trail[..n];
      RStripTrail(s, trail[..n]);
    }
  }

  lemma StripAround(lead: string, path: string, trail: string)
    requires AllSpace(lead) && AllSpace(trail)
    ensures Strip(lead + path + trail) == Strip(path)
  {
    hide IsSpace, Strip, Trimmed;
    var l, t := StripMeans(path);
    assert lead + path + trail == (lead + l) + Strip(path) + (t + trail);
    StripIsUnique(lead + path + trail, lead + l, Strip(path), t + trail);
  }

  lemma StripReplaced(path: string)
    ensures Cleaned(Replace(path, '\\', '/')) == Cleaned(path)
  {
    hide Strip;
    var l, t := StripMeans(path);
    var r := Replace(path, '\\', '/');
    assert !IsSpace('\\') && !IsSpace('/');
    assert l == Replace(l, '\\', '/') && t == Replace(t, '\\', '/') by {
      assert '\\' !in l && '\\' !in t;
    }
    var middle := Replace(Strip(path), '\\', '/');
    assert r == l + middle + t;
    StripIsUnique(r, l, middle, t);
    assert Replace(middle, '\\', '/') == middle;
  }

  /**
    * What a spelled path names: the tree root when it is rooted or climbs, and else its
    * segments in order, without the empty and "." ones.
    */
  lemma PathMeans(parts: seq<string>)
    requires parts != [] && (forall part :: part in parts ==> '/' !in part && '\\' !in part)
    requires Trimmed(Join(parts, '/'))
    ensures (|parts| > 1 && parts[0] == "") || ".." in parts ==> Components(Join(parts, '/')) == []
    ensures !(|parts| > 1 && parts[0] == "") && ".." !in parts ==> Components(Join(parts, '/')) == Kept(parts)
  {
    hide Split, Trimmed, Kept, Join, Segments, Cleaned;
    var path := Join(parts, '/');
    if '\\' in path {
      CharsOfJoin(parts, '\\');
    }
    CleanedPlain(path);
    SegmentsOfOuter(parts);
    KeptStep(parts[0], []);
    assert |parts| == 1 ==> parts == [parts[0]] + [];
  }

  /** The segments that are kept, one by one. */
  lemma KeptMeans(part: string, parts: seq<string>)
    ensures Kept([]) == []
    ensures Kept([part] + parts) == if part == "" || part == "." then Kept(parts) else [part] + Kept(parts)
  {
    KeptStep(part, parts);
    assert [] + Kept(parts) == Kept(parts);
  }

  // ---------------------------------------------------------------- stored scopes

  /**
    * What is stored for a declaration: the whole tree when some path is too long, cannot be
    * printed or names the root, or when there are more distinct paths than the cap; and else
    * each path's normal form once, where it first occurs.
    */
  lemma StoredMeans(paths: seq<string>, cap: nat, printable: char -> bool)
    ensures var stored := NormalizedPaths(paths, cap, printable);
            var wide := exists p :: p in paths && (|p| > 4096 || (exists c :: c in p && !printable(c)) || Normalized(p) == "");
            && (wide ==> stored == [""])
            && (!wide && |set p | p in paths :: Normalized(p)| > cap ==> stored == [""])
            && (!wide && |set p | p in paths :: Normalized(p)| <= cap ==>
                  && (forall q :: q in stored <==> exists p :: p in paths && Normalized(p) == q)
                  && (forall i, j :: 0 <= i < j < |stored| ==> stored[i] != stored[j])
                  && stored == Dedup(NormalizedEach(paths)))
  {
    hide Normalized, Dedup;
    var each := NormalizedEach(paths);
    assert (exists raw :: raw in paths && Widens(raw, printable)) <==>
           exists p :: p in paths && (|p| > 4096 || (exists c :: c in p && !printable(c)) || Normalized(p) == "");
    DistinctCount(paths);
    EachHas(paths);
  }

  lemma EachHas(paths: seq<string>)
    ensures forall q :: q in NormalizedEach(paths) <==> exists p :: p in paths && Normalized(p) == q
  {
    hide Normalized;
    var each := NormalizedEach(paths);
    forall p | p in paths ensures Normalized(p) in each {
      var i :| 0 <= i < |paths| && paths[i] == p;
      assert each[i] == Normalized(p);
    }
  }

  lemma DistinctCount(paths: seq<string>)
    ensures |Dedup(NormalizedEach(paths))| == |set p | p in paths :: Normalized(p)|
  {
    hide Normalized;
    EachHas(paths);
    var each := NormalizedEach(paths);
    var once := Dedup(each);
    SetOfDistinct(once);
    assert (set q | q in once) == set p | p in paths :: Normalized(p);
  }

  lemma {:induction false} SetOfDistinct(s: seq<string>)
    requires forall i, j :: 0 <= i < j < |s| ==> s[i] != s[j]
    ensures |set q | q in s| == |s|
  {
    if s != [] {
      var init, last := s[..|s| - 1], s[|s| - 1];
      SetOfDistinct(init);
      assert s == init + [last] && last !in init;
      assert (set q | q in s) == (set q | q in init) + {last};
    }
  }

  // ---------------------------------------------------------------- labels and keys

  /** How paths and worktree labels are spelled for comparison. */
  lemma SpellingsMean(path: string, u: Unicode)
    ensures ComparisonPath(path, true, u) == u.nfc(Normalized(path))
    ensures ComparisonPath(path, false, u) == u.casefold(u.nfc(Normalized(path)))
    ensures ComparisonWorktree(path, false, u) == u.casefold(ComparisonWorktree(path, true, u))
    ensures DriveRooted(u.nfc(path)) || (|u.nfc(path)| >= 2 && u.nfc(path)[0] == '\\' && u.nfc(path)[1] == '\\') ==>
              ComparisonWorktree(path, true, u) == Replace(u.nfc(path), '\\', '/')
    ensures !DriveRooted(u.nfc(path)) && !(|u.nfc(path)| >= 2 && u.nfc(path)[0] == '\\' && u.nfc(path)[1] == '\\') ==>
              ComparisonWorktree(path, true, u) == u.nfc(path)
  {
    hide Normalized;
    var value := u.nfc(path);
    if |value| >= 2 {
      assert value[..2] == [value[0], value[1]];
    }
  }

  /** A drive letter, a colon and a separator. */
  predicate DriveRooted(value: string) {
    && |value| >= 3 && value[1] == ':' && (value[2] == '\\' || value[2] == '/')
    && ('A' <= value[0] <= 'Z' || 'a' <= value[0] <= 'z')
  }

  /** Object keys are `device:inode` with an optional generation: without a generation on one side, device and inode decide. */
  lemma KeysMean(a: seq<string>, b: seq<string>)
    requires a != [] && b != [] && forall part :: part in a + b ==> ':' !in part
    ensures SameWorktreeKey(Join(a, ':'), Join(b, ':')) <==>
            if |a| > 2 && |b| > 2 then a == b
            else (if |a| > 2 then a[..2] else a) == (if |b| > 2 then b[..2] else b)
  {
    hide Split, Join;
    SplitJoin(a, ':');
    SplitJoin(b, ':');
    var x, y := if |a| > 2 then a[..2] else a, if |b| > 2 then b[..2] else b;
    SplitJoin(x, ':');
    SplitJoin(y, ':');
  }

  /** When two scopes are in one worktree. */
  lemma WorktreesMean(a: Scope, b: Scope, u: Unicode)
    ensures a.identity.None? && b.identity.None? ==> (WorktreesMatch(a, b, u) <==> a.worktree == b.worktree)
    ensures a.identity.Some? && b.identity.None? ==>
              (WorktreesMatch(a, b, u) <==>
                 ComparisonWorktree(b.worktree, a.identity.value.caseSensitive, u) == a.identity.value.worktreePath)
    ensures a.identity.Some? && b.identity.Some? ==>
              var x, y := a.identity.value, b.identity.value;
              (WorktreesMatch(a, b, u) <==>
                 && ComparisonWorktree(x.worktreePath, x.caseSensitive && y.caseSensitive, u) ==
                    ComparisonWorktree(y.worktreePath, x.caseSensitive && y.caseSensitive, u)
                 && (x.namespace != "" && y.namespace != "" ==> x.namespace == y.namespace)
                 && (x.worktreeObjectId != "" && y.worktreeObjectId != "" ==> SameWorktreeKey(x.worktreeObjectId, y.worktreeObjectId)))
    ensures WorktreesMatch(a, b, u) == WorktreesMatch(b, a, u)
    ensures ObjectIdsComparable(a.identity, b.identity) <==>
            && a.identity.Some? && b.identity.Some?
            && var x, y := a.identity.value, b.identity.value;
               && x.namespace == y.namespace && x.namespace != "" && x.worktreeObjectId != "" && y.worktreeObjectId != ""
               && SameWorktreeKey(x.worktreeObjectId, y.worktreeObjectId)
  {
    hide ComparisonWorktree, SameWorktreeKey;
    if a.identity.Some? && b.identity.Some? {
      KeySymmetric(a.identity.value.worktreeObjectId, b.identity.value.worktreeObjectId);
    }
  }

  /** A row that is one display path, in both spellings, and no object. */
  predicate Spells(row: PathRow, path: string, cs: bool, u: Unicode) {
    row.gitPath == row.filesystemPath == ComparisonPath(path, cs, u) && row.objectId == "" && row.objectScope == ""
  }

  /** The rows of a scope: those of its identity, or each display path under its peer's case policy. */
  lemma RowsMean(s: Scope, peer: Option<ScopeIdentity>, u: Unicode, row: PathRow)
    ensures s.identity.Some? ==> Rows(s, peer, u) == s.identity.value.paths
    ensures s.identity.None? ==>
              (row in Rows(s, peer, u) <==>
                 exists p :: p in s.paths && Spells(row, p, peer.None? || peer.value.caseSensitive, u))
    ensures SharedCase(s.identity, peer) <==>
            !(s.identity.Some? && !s.identity.value.caseSensitive) && !(peer.Some? && !peer.value.caseSensitive)
  {
    hide ComparisonPath;
    if s.identity.None? {
      var rows := Rows(s, peer, u);
      forall p | p in s.paths ensures LegacyRow(p, peer.None? || peer.value.caseSensitive, u) in rows {
        var i :| 0 <= i < |s.paths| && s.paths[i] == p;
        assert rows[i] == LegacyRow(p, peer.None? || peer.value.caseSensitive, u);
      }
      forall p | p in s.paths ensures Spells(row, p, peer.None? || peer.value.caseSensitive, u) <==>
                                      row == LegacyRow(p, peer.None? || peer.value.caseSensitive, u) {
      }
      if row in rows {
        var i :| 0 <= i < |rows| && rows[i] == row;
        assert s.paths[i] in s.paths;
      }
    }
  }

  /** A row read under a case policy: its spellings are read so, and its object stays. */
  lemma PolicyMeans(row: PathRow, cs: bool, u: Unicode)
    ensures var r := UnderCasePolicy(row, cs, u);
            && r.gitPath == ComparisonPath(row.gitPath, cs, u) && r.filesystemPath == ComparisonPath(row.filesystemPath, cs, u)
            && r.objectScope == ComparisonPath(row.objectScope, cs, u) && r.objectId == row.objectId
  {
    hide ComparisonPath;
  }

  /** An identity fits a display scope when it spells its worktree and each of its paths, in order. */
  lemma ValidatesMeans(id: ScopeIdentity, worktree: string, paths: seq<string>, u: Unicode)
    ensures ValidatesDisplayScope(id, worktree, paths, u) <==>
            && id.worktreePath == ComparisonWorktree(worktree, id.caseSensitive, u)
            && |id.paths| == |paths|
            && forall i :: 0 <= i < |paths| ==> id.paths[i].gitPath == ComparisonPath(paths[i], id.caseSensitive, u)
  {
    hide ComparisonPath, ComparisonWorktree;
  }
}
