/**
  * Filesystem-canonical claim identities, and when two claim scopes contend.
  *
  * Unicode tables are a parameter: NFC normalisation, case folding and the printable
  * characters are data of the Python runtime, not logic of this repository.
  */
module PathIdentity {
  import opened Wrappers
  import opened Strings
  import opened Scoping

  datatype Unicode = Unicode(nfc: string -> string, casefold: string -> string, printable: char -> bool)

  datatype PathRow = PathRow(gitPath: string, filesystemPath: string, objectId: string, objectScope: string)

  datatype ScopeIdentity = ScopeIdentity(
    worktreePath: string, caseSensitive: bool, paths: seq<PathRow>,
    worktreeObjectId: string, namespace: string)

  /** Where a claim works: the display values every client sends, and the optional identity. */
  datatype Scope = Scope(worktree: string, paths: seq<string>, identity: Option<ScopeIdentity>)

  function ComparisonPath(path: string, caseSensitive: bool, u: Unicode): string {
    var value := u.nfc(Normalized(path));
    if caseSensitive then value else u.casefold(value)
  }

  predicate IsLetter(c: char) {
    'A' <= c <= 'Z' || 'a' <= c <= 'z'
  }

  /** A drive-rooted or UNC path, whose backslashes are separators. */
  predicate IsWindowsRooted(value: string) {
    || (|value| >= 3 && IsLetter(value[0]) && value[1] == ':' && (value[2] == '\\' || value[2] == '/'))
    || StartsWith(value, "\\\\")
  }

  function ComparisonWorktree(path: string, caseSensitive: bool, u: Unicode): string {
    var value := u.nfc(path);
    var spelled := if IsWindowsRooted(value) then Replace(value, '\\', '/') else value;
    if caseSensitive then spelled else u.casefold(spelled)
  }

  /** Equal labels stay equal when case is ignored as well. */
  lemma FoldedLabelsAgree(a: string, b: string, u: Unicode)
    requires ComparisonWorktree(a, true, u) == ComparisonWorktree(b, true, u)
    ensures ComparisonWorktree(a, false, u) == ComparisonWorktree(b, false, u)
  {
  }

  predicate ValidatesDisplayPaths(id: ScopeIdentity, paths: seq<string>, u: Unicode) {
    && |paths| == |id.paths|
    && forall i :: 0 <= i < |paths| ==> ComparisonPath(paths[i], id.caseSensitive, u) == id.paths[i].gitPath
  }

  predicate ValidatesDisplayScope(id: ScopeIdentity, worktree: string, paths: seq<string>, u: Unicode) {
    && ComparisonWorktree(worktree, id.caseSensitive, u) == id.worktreePath
    && ValidatesDisplayPaths(id, paths, u)
  }

  // ------------------------------------------------------------ worktrees

  /** The `device:inode` part of an object key. */
  function ObjectKeyBase(value: string): string {
    var parts := Split(value, ':');
    Join(if |parts| > 2 then parts[..2] else parts, ':')
  }

  predicate HasGeneration(value: string) {
    |Split(value, ':')| > 2
  }

  predicate SameWorktreeKey(left: string, right: string) {
    if HasGeneration(left) && HasGeneration(right) then left == right
    else ObjectKeyBase(left) == ObjectKeyBase(right)
  }

  predicate WorktreesMatch(a: Scope, b: Scope, u: Unicode) {
    match (a.identity, b.identity)
    case (None, None) => a.worktree == b.worktree
    case (Some(known), None) => ComparisonWorktree(b.worktree, known.caseSensitive, u) == known.worktreePath
    case (None, Some(known)) => ComparisonWorktree(a.worktree, known.caseSensitive, u) == known.worktreePath
    case (Some(x), Some(y)) =>
      var cs := x.caseSensitive && y.caseSensitive;
      && ComparisonWorktree(x.worktreePath, cs, u) == ComparisonWorktree(y.worktreePath, cs, u)
      && (x.namespace == "" || y.namespace == "" || x.namespace == y.namespace)
      && (x.worktreeObjectId == "" || y.worktreeObjectId == "" ||
          SameWorktreeKey(x.worktreeObjectId, y.worktreeObjectId))
  }

  predicate ObjectIdsComparable(a: Option<ScopeIdentity>, b: Option<ScopeIdentity>) {
    && a.Some? && b.Some?
    && a.value.namespace != "" && a.value.namespace == b.value.namespace
    && a.value.worktreeObjectId != "" && b.value.worktreeObjectId != ""
    && SameWorktreeKey(a.value.worktreeObjectId, b.value.worktreeObjectId)
  }

  // ------------------------------------------------------------ paths

  predicate RowsOverlap(a: PathRow, b: PathRow, objectIdentitySafe: bool) {
    if objectIdentitySafe && a.objectId != "" && a.objectId == b.objectId
    then PathsOverlap(a.objectScope, b.objectScope)
    else PathsOverlap(a.gitPath, b.gitPath) || PathsOverlap(a.filesystemPath, b.filesystemPath)
  }

  function UnderCasePolicy(row: PathRow, caseSensitive: bool, u: Unicode): PathRow {
    PathRow(ComparisonPath(row.gitPath, caseSensitive, u),
            ComparisonPath(row.filesystemPath, caseSensitive, u),
            row.objectId,
            ComparisonPath(row.objectScope, caseSensitive, u))
  }

  function LegacyRow(path: string, caseSensitive: bool, u: Unicode): PathRow {
    var canonical := ComparisonPath(path, caseSensitive, u);
    PathRow(canonical, canonical, "", "")
  }

  /** The case policy two scopes are compared under: sensitive only when neither ignores case. */
  predicate SharedCase(a: Option<ScopeIdentity>, b: Option<ScopeIdentity>) {
    (a.None? || a.value.caseSensitive) && (b.None? || b.value.caseSensitive)
  }

  /** The rows of a scope, legacy displays projected under its peer's case policy. */
  function Rows(s: Scope, peer: Option<ScopeIdentity>, u: Unicode): seq<PathRow> {
    match s.identity
    case Some(id) => id.paths
    case None =>
      var cs := peer.None? || peer.value.caseSensitive;
      seq(|s.paths|, i requires 0 <= i < |s.paths| => LegacyRow(s.paths[i], cs, u))
  }

  predicate AnyRowsOverlap(left: seq<PathRow>, right: seq<PathRow>, caseSensitive: bool, safe: bool, u: Unicode) {
    exists a, b :: a in left && b in right &&
      RowsOverlap(UnderCasePolicy(a, caseSensitive, u), UnderCasePolicy(b, caseSensitive, u), safe)
  }

  /** The conflict rule of the hub over display-plus-identity scopes. */
  predicate Conflict(a: Scope, b: Scope, u: Unicode) {
    if !WorktreesMatch(a, b, u) && !ObjectIdsComparable(a.identity, b.identity) then false
    else if a.paths == [] || b.paths == [] then true
    else if a.identity.None? && b.identity.None? then
      exists p, q :: p in a.paths && q in b.paths && PathsOverlap(p, q)
    else
      AnyRowsOverlap(Rows(a, b.identity, u), Rows(b, a.identity, u), SharedCase(a.identity, b.identity),
                     ObjectIdsComparable(a.identity, b.identity), u)
  }

  /** Contention has no direction: it does not matter which scope came first. */
  lemma ConflictIsSymmetric(a: Scope, b: Scope, u: Unicode)
    ensures Conflict(a, b, u) == Conflict(b, a, u)
  {
    hide RowsOverlap, Rows, UnderCasePolicy, ComparisonWorktree, SameWorktreeKey, PathsOverlap;
    assert forall x, y :: SameWorktreeKey(x, y) == SameWorktreeKey(y, x) by {
      forall x, y ensures SameWorktreeKey(x, y) == SameWorktreeKey(y, x) { KeySymmetric(x, y); }
    }
    var left, right := Rows(a, b.identity, u), Rows(b, a.identity, u);
    var cs, safe := SharedCase(a.identity, b.identity), ObjectIdsComparable(a.identity, b.identity);
    RowsSymmetric(left, right, cs, safe, u);
    forall p, q ensures PathsOverlap(p, q) == PathsOverlap(q, p) { OverlapSymmetric(p, q); }
  }

  lemma KeySymmetric(x: string, y: string)
    ensures SameWorktreeKey(x, y) == SameWorktreeKey(y, x)
  {
    hide ObjectKeyBase, HasGeneration;
  }

  lemma OverlapSymmetric(p: string, q: string)
    ensures PathsOverlap(p, q) == PathsOverlap(q, p)
  {
    hide Normalized;
  }

  lemma RowsSymmetric(left: seq<PathRow>, right: seq<PathRow>, cs: bool, safe: bool, u: Unicode)
    ensures AnyRowsOverlap(left, right, cs, safe, u) == AnyRowsOverlap(right, left, cs, safe, u)
  {
    hide PathsOverlap, UnderCasePolicy;
    forall p, q ensures PathsOverlap(p, q) == PathsOverlap(q, p) { OverlapSymmetric(p, q); }
  }

  /** Between claims without identity the rule is the plain one. */
  lemma PlainConflict(a: Scope, b: Scope, u: Unicode)
    requires a.identity.None? && b.identity.None?
    ensures Conflict(a, b, u) == ScopesConflict(a.worktree, a.paths, b.worktree, b.paths)
  {
    hide PathsOverlap;
  }

  /** A file, given by its components, lies in both rows, by either spelling or in one shared object. */
  predicate InBothRows(file: seq<string>, a: PathRow, b: PathRow, safe: bool) {
    if safe && a.objectId != "" && a.objectId == b.objectId
    then Below(file, a.objectScope) && Below(file, b.objectScope)
    else
      || (Below(file, a.gitPath) && Below(file, b.gitPath))
      || (Below(file, a.filesystemPath) && Below(file, b.filesystemPath))
  }

  lemma RowsOverlapIsCommonFile(a: PathRow, b: PathRow, safe: bool)
    ensures RowsOverlap(a, b, safe) <==> exists file :: InBothRows(file, a, b, safe)
  {
    hide PathsOverlap, Below;
    if safe && a.objectId != "" && a.objectId == b.objectId {
      OverlapIsCommonFile(a.objectScope, b.objectScope);
      if file :| Below(file, a.objectScope) && Below(file, b.objectScope) {
        assert InBothRows(file, a, b, safe);
      }
    } else {
      OverlapIsCommonFile(a.gitPath, b.gitPath);
      OverlapIsCommonFile(a.filesystemPath, b.filesystemPath);
      if file :| (Below(file, a.gitPath) && Below(file, b.gitPath)) || (Below(file, a.filesystemPath) && Below(file, b.filesystemPath)) {
        assert InBothRows(file, a, b, safe);
      }
    }
  }

  /**
    * Scopes of which at least one carries an identity contend exactly when their worktrees
    * are the same and one names no path, or some file lies in a row of each, both read
    * under the case policy the two share.
    */
  lemma IdentifiedConflictIsCommonFile(a: Scope, b: Scope, u: Unicode)
    requires a.identity.Some? || b.identity.Some?
    ensures var safe, cs := ObjectIdsComparable(a.identity, b.identity), SharedCase(a.identity, b.identity);
            Conflict(a, b, u) <==>
            && (WorktreesMatch(a, b, u) || safe)
            && (|| a.paths == [] || b.paths == []
                || exists p, q, file :: p in Rows(a, b.identity, u) && q in Rows(b, a.identity, u) &&
                     InBothRows(file, UnderCasePolicy(p, cs, u), UnderCasePolicy(q, cs, u), safe))
  {
    hide WorktreesMatch, ObjectIdsComparable, Rows, RowsOverlap, UnderCasePolicy, InBothRows;
    forall p, q, safe ensures RowsOverlap(p, q, safe) <==> exists file :: InBothRows(file, p, q, safe) {
      RowsOverlapIsCommonFile(p, q, safe);
    }
  }

  /** A scope without declared paths contends with every scope of a matching worktree, itself included. */
  lemma WholeWorktreeConflicts(a: Scope, b: Scope, u: Unicode)
    requires a.paths == [] && WorktreesMatch(a, b, u)
    ensures Conflict(a, b, u) && Conflict(b, a, u)
  {
    ConflictIsSymmetric(a, b, u);
  }
}
