/** Purging cached LMCache artifacts (purge_lmcache in lmrs/lmcache.py) from a
    directory tree without symbolic links. A path is the sequence of its
    components; a binding is a relative path and may be empty, as Path("") is. */
module LmcachePurge {
  import opened Outcomes

  type Path = seq<string>

  predicate Below(target: Path, p: Path) {
    target <= p
  }

  /** Every ancestor of an entry is a directory, and no entry is both. */
  ghost predicate TreeShaped(files: set<Path>, dirs: set<Path>) {
    && files !! dirs
    && forall p | p in files + dirs && p != [] :: Parent(p) in dirs
  }

  function Parent(p: Path): Path
    requires p != []
  {
    p[..|p| - 1]
  }

  lemma {:induction false} AncestorsAreDirectories(files: set<Path>, dirs: set<Path>, p: Path, k: nat)
    requires TreeShaped(files, dirs)
    requires p in files + dirs && k < |p|
    ensures p[..k] in dirs
    decreases |p|
  {
    if k < |p| - 1 {
      AncestorsAreDirectories(files, dirs, Parent(p), k);
      assert Parent(p)[..k] == p[..k];
    }
  }

  // ----- what a purge request names -----

  /** The paths a request covers, as they exist when it arrives. */
  function Targets(files: set<Path>, dirs: set<Path>, root: Path, namespace: Option<Path>, session: Option<Path>): set<Path> {
    var entries := files + dirs;
    match (namespace, session)
    case (None, None) => set p | p in entries && root < p && |p| == |root| + 1
    case (Some(n), Some(s)) => set p | p in entries && p == root + n + s
    case (Some(n), None) => set p | p in entries && p == root + n
    case (None, Some(s)) => set p | p in entries && |p| == |root| + 1 + |s| && p[..|root| + 1] in dirs && root < p && p[|root| + 1..] == s
  }

  /** A file bound to what the request names, told from its path alone. */
  predicate InScope(p: Path, root: Path, namespace: Option<Path>, session: Option<Path>) {
    && root < p
    && match (namespace, session)
       case (None, None) => true
       case (Some(n), Some(s)) => root + n + s <= p
       case (Some(n), None) => root + n <= p
       case (None, Some(s)) => |p| > |root| + 1 && s <= p[|root| + 1..]
  }

  /** A directory goes with what is bound below it; an empty session alone also names
      every directory directly below the root. */
  predicate DirInScope(p: Path, root: Path, namespace: Option<Path>, session: Option<Path>) {
    || InScope(p, root, namespace, session)
    || (root < p && |p| == |root| + 1 && namespace.None? && session == Some([]))
  }

  /** The root itself is named by a request whose bindings are all empty paths. */
  predicate NamesRoot(namespace: Option<Path>, session: Option<Path>) {
    namespace == Some([]) && session.GetOr([]) == []
  }

  /** No path lies below two targets: all targets have the same depth. */
  lemma TargetsAreDisjoint(files: set<Path>, dirs: set<Path>, root: Path, namespace: Option<Path>, session: Option<Path>,
                           t: Path, t': Path, p: Path)
    requires t in Targets(files, dirs, root, namespace, session) && t' in Targets(files, dirs, root, namespace, session)
    requires Below(t, p) && Below(t', p)
    ensures t == t'
  {
    assert |t| == |t'|;
    assert t == p[..|t|] && t' == p[..|t'|];
  }

  /** What the request covers at p: a file or a directory bound to it. */
  predicate Covered(dirs: set<Path>, root: Path, namespace: Option<Path>, session: Option<Path>, p: Path) {
    if p in dirs then DirInScope(p, root, namespace, session) else InScope(p, root, namespace, session)
  }

  /** The files and, other than the root, the directories below the targets are exactly those bound to the request. */
  lemma TargetsCoverScope(files: set<Path>, dirs: set<Path>, root: Path, namespace: Option<Path>, session: Option<Path>, p: Path)
    requires TreeShaped(files, dirs) && root in dirs && p in files + dirs && p != root
    ensures Covered(dirs, root, namespace, session, p)
       <==> exists t :: t in Targets(files, dirs, root, namespace, session) && Below(t, p)
  {
    if Covered(dirs, root, namespace, session, p) {
      if namespace.None? && session.Some? {
        SessionTarget(files, dirs, root, session.value, p);
      } else {
        PathTarget(files, dirs, root, namespace, session, p);
      }
    }
    if t :| t in Targets(files, dirs, root, namespace, session) && Below(t, p) {
      TargetIsInScope(files, dirs, root, namespace, session, t, p);
    }
  }

  lemma PathTarget(files: set<Path>, dirs: set<Path>, root: Path, namespace: Option<Path>, session: Option<Path>, p: Path)
    requires TreeShaped(files, dirs) && p in files + dirs
    requires InScope(p, root, namespace, session) && !(namespace.None? && session.Some?)
    ensures exists t :: t in Targets(files, dirs, root, namespace, session) && Below(t, p)
  {
    var depth := match (namespace, session)
      case (None, _) => |root| + 1
      case (Some(n), Some(s)) => |root + n + s|
      case (Some(n), None) => |root + n|;
    var t := p[..depth];
    if depth < |p| { AncestorsAreDirectories(files, dirs, p, depth); } else { assert t == p; }
    assert t in Targets(files, dirs, root, namespace, session) && Below(t, p);
  }

  lemma SessionTarget(files: set<Path>, dirs: set<Path>, root: Path, s: Path, p: Path)
    requires TreeShaped(files, dirs) && p in files + dirs
    requires Covered(dirs, root, None, Some(s), p)
    ensures exists t :: t in Targets(files, dirs, root, None, Some(s)) && Below(t, p)
  {
    var depth := |root| + 1 + |s|;
    var t := p[..depth];
    if depth < |p| { AncestorsAreDirectories(files, dirs, p, depth); } else { assert t == p; }
    if |root| + 1 < |p| { AncestorsAreDirectories(files, dirs, p, |root| + 1); } else { assert p[..|root| + 1] == p; }
    assert t[..|root| + 1] == p[..|root| + 1];
    assert t[|root| + 1..] == p[|root| + 1..][..|s|];
    assert t in Targets(files, dirs, root, None, Some(s)) && Below(t, p);
  }

  lemma TargetIsInScope(files: set<Path>, dirs: set<Path>, root: Path, namespace: Option<Path>, session: Option<Path>, t: Path, p: Path)
    requires TreeShaped(files, dirs) && root in dirs && p in files + dirs && p != root
    requires t in Targets(files, dirs, root, namespace, session) && Below(t, p)
    ensures Covered(dirs, root, namespace, session, p)
  {
    assert t == p[..|t|] && p != root;
    assert root <= t;
    match (namespace, session)
    case (None, Some(s)) =>
      assert p[|root| + 1..][..|s|] == t[|root| + 1..];
      assert t[..|root| + 1] == p[..|root| + 1];
      assert p[..|p|] == p;
    case _ =>
  }

  lemma RootIsTarget(files: set<Path>, dirs: set<Path>, root: Path, namespace: Option<Path>, session: Option<Path>)
    requires root in dirs
    ensures NamesRoot(namespace, session)
       <==> exists t :: t in Targets(files, dirs, root, namespace, session) && Below(t, root)
  {
    if NamesRoot(namespace, session) {
      assert root + [] == root;
      assert root in Targets(files, dirs, root, namespace, session);
    }
  }

  // ----- the purge -----

  class CacheTree {
    var files: set<Path>
    var dirs: set<Path>

    ghost predicate Valid()
      reads this
    {
      TreeShaped(files, dirs)
    }

    constructor (files: set<Path>, dirs: set<Path>)
      requires TreeShaped(files, dirs)
      ensures this.files == files && this.dirs == dirs && Valid()
    {
      this.files, this.dirs := files, dirs;
    }

    /** Remove one artifact and report how many files it held. */
    method RemoveArtifact(target: Path) returns (removed: nat)
      requires Valid() && target in files + dirs
      modifies this
      ensures Valid()
      ensures files == Outside(old(files), target) && dirs == Outside(old(dirs), target)
      ensures removed == |old(files)| - |files|
    {
      RemovalKeepsShape(files, dirs, target);
      if target in dirs {
        var held := set p | p in files && Below(target, p);
        removed := |held|;
        OutsideSize(files, target);
        files := Outside(files, target);
        dirs := Outside(dirs, target);
      } else {
        FileHasNothingBelow(files, dirs, target);
        files := files - {target};
        removed := 1;
      }
    }

    /** Remove every target in turn and add up the files they held. */
    method RemoveAll(targets: set<Path>) returns (removed: nat)
      requires Valid() && targets <= files + dirs && Incomparable(targets)
      modifies this
      ensures Valid()
      ensures files == RemainingAfter(old(files), targets) && dirs == RemainingAfter(old(dirs), targets)
      ensures removed == |old(files)| - |files|
    {
      removed := 0;
      var rest := targets;
      ghost var done: set<Path> := {};
      while rest != {}
        invariant done <= targets && rest == targets - done && Valid()
        invariant files == RemainingAfter(old(files), done)
        invariant dirs == RemainingAfter(old(dirs), done)
        invariant removed == |old(files)| - |files|
        decreases |rest|
      {
        var target :| target in rest;
        TargetRemains(old(files), old(dirs), targets, done, target);
        var count := RemoveArtifact(target);
        RemainingStep(old(files), done, target);
        RemainingStep(old(dirs), done, target);
        done := done + {target};
        rest := rest - {target};
        removed := removed + count;
      }
      assert done == targets;
    }

    /** Removes exactly the files bound to the request and counts exactly those. */
    method PurgeLmcache(storagePath: Option<Path>, namespace: Option<Path>, session: Option<Path>) returns (removed: nat)
      requires Valid()
      modifies this
      ensures Valid()
      ensures storagePath.None? ==> files == old(files)
      ensures storagePath.Some? ==>
                forall p :: p in files <==> p in old(files) && !InScope(p, storagePath.value, namespace, session)
      ensures removed == |old(files)| - |files|
      ensures storagePath.None? || storagePath.value !in old(dirs) ==> dirs == old(dirs)
      ensures storagePath.Some? && storagePath.value in old(dirs) ==>
                && (forall p | p != storagePath.value ::
                      p in dirs <==> p in old(dirs) && !DirInScope(p, storagePath.value, namespace, session))
                && (storagePath.value in dirs <==> !NamesRoot(namespace, session))
    {
      if storagePath.None? || storagePath.value !in dirs {
        if storagePath.Some? { NothingBelowMissingRoot(files, dirs, storagePath.value); }
        return 0;
      }
      var root := storagePath.value;
      var targets := Targets(files, dirs, root, namespace, session);
      TargetsAreIncomparable(files, dirs, root, namespace, session);
      removed := RemoveAll(targets);
      forall p | p in old(files) ensures p in files <==> !InScope(p, root, namespace, session) {
        TargetsCoverScope(old(files), old(dirs), root, namespace, session, p);
      }
      forall p | p in old(dirs) && p != root ensures p in dirs <==> !DirInScope(p, root, namespace, session) {
        TargetsCoverScope(old(files), old(dirs), root, namespace, session, p);
      }
      RootIsTarget(old(files), old(dirs), root, namespace, session);
    }

    /** The purge is idempotent: asked again, it finds nothing to remove. */
    method PurgeTwice(storagePath: Option<Path>, namespace: Option<Path>, session: Option<Path>) returns (first: nat, second: nat)
      requires Valid()
      modifies this
      ensures Valid() && second == 0 && first == |old(files)| - |files|
    {
      first := PurgeLmcache(storagePath, namespace, session);
      ghost var once := files;
      second := PurgeLmcache(storagePath, namespace, session);
      assert files == once;
    }
  }

  /** No target lies below another. */
  ghost predicate Incomparable(targets: set<Path>) {
    forall t, t' | t in targets && t' in targets :: Below(t, t') ==> t == t'
  }

  function Outside(entries: set<Path>, target: Path): set<Path> {
    set p | p in entries && !Below(target, p)
  }

  lemma OutsideSize(entries: set<Path>, target: Path)
    ensures |Outside(entries, target)| + |set p | p in entries && Below(target, p)| == |entries|
  {
    var below := set p | p in entries && Below(target, p);
    assert entries == Outside(entries, target) + below;
  }

  lemma RemovalKeepsShape(files: set<Path>, dirs: set<Path>, target: Path)
    requires TreeShaped(files, dirs)
    ensures TreeShaped(Outside(files, target), Outside(dirs, target))
  {
    forall p | p in Outside(files, target) + Outside(dirs, target) && p != []
      ensures Parent(p) in Outside(dirs, target)
    {
      assert p == Parent(p) + [p[|p| - 1]];
    }
  }

  lemma FileHasNothingBelow(files: set<Path>, dirs: set<Path>, target: Path)
    requires TreeShaped(files, dirs) && target in files
    ensures Outside(files, target) == files - {target} && Outside(dirs, target) == dirs
  {
    forall p | p in files + dirs && Below(target, p) ensures p == target {
      if p != target {
        assert p[..|target|] == target;
        AncestorsAreDirectories(files, dirs, p, |target|);
      }
    }
  }

  lemma NothingBelowMissingRoot(files: set<Path>, dirs: set<Path>, root: Path)
    requires TreeShaped(files, dirs) && root !in dirs
    ensures forall p | p in files :: !(root < p)
  {
    forall p | p in files ensures !(root < p) {
      if root < p {
        assert p[..|root|] == root;
        AncestorsAreDirectories(files, dirs, p, |root|);
      }
    }
  }

  /** What is left of a set of entries once the given targets are removed. */
  ghost function RemainingAfter(entries: set<Path>, targets: set<Path>): set<Path> {
    set p | p in entries && forall t | t in targets :: !Below(t, p)
  }

  lemma RemainingStep(entries: set<Path>, targets: set<Path>, target: Path)
    ensures RemainingAfter(entries, targets + {target}) == Outside(RemainingAfter(entries, targets), target)
  {}

  /** Removing other, incomparable targets does not remove this one. */
  lemma TargetRemains(files: set<Path>, dirs: set<Path>, targets: set<Path>, done: set<Path>, target: Path)
    requires Incomparable(targets)
    requires done <= targets <= files + dirs && target in targets - done
    ensures target in RemainingAfter(files, done) + RemainingAfter(dirs, done)
  {}

  lemma TargetsAreIncomparable(files: set<Path>, dirs: set<Path>, root: Path, namespace: Option<Path>, session: Option<Path>)
    ensures Incomparable(Targets(files, dirs, root, namespace, session))
  {
    var targets := Targets(files, dirs, root, namespace, session);
    forall t, t' | t in targets && t' in targets && Below(t, t') ensures t == t' {
      TargetsAreDisjoint(files, dirs, root, namespace, session, t, t', t');
    }
  }
}
