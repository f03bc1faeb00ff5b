/** What trashing, versioning, replacing and restoring must do to the file tree, and what follows from it:
    where the entries of a trashed subtree are, and when restoring brings the tree back. The methods of the
    storage layer are proved against these relations in Storage.dfy. */
module Retention {
  import opened Common
  import opened Tree
  import Paths
  import Text

  const META := ".macftpd-retain.json"
  const PAYLOAD := "payload"

  /** Everything that was in t is in u, unchanged. */
  ghost predicate Intact(t: FileTree, u: FileTree) {
    forall q | q in t :: q in u && u[q] == t[q]
  }

  predicate Near(dir: Path, q: Path) { Under(dir, q) || Under(q, dir) }

  /** New entries are in dir or are directories above it. */
  ghost predicate OnlyNear(t: FileTree, u: FileTree, dir: Path) {
    forall q | q in u && q !in t :: Near(dir, q) && (!Under(dir, q) ==> u[q] == Dir)
  }

  ghost predicate Empty(t: FileTree, p: Path) { forall q | q in t :: !Under(p, q) }

  /** The subtree at `orig` is now in the payload of the retained directory, all of it and nothing else, and
      everything that was elsewhere is unchanged. */
  ghost predicate MovedAway(t: FileTree, u: FileTree, orig: Path, dir: Path) {
    && (forall q | q in t && !Under(orig, q) :: q in u && u[q] == t[q])
    && (forall q | q in t && Under(orig, q) ::
          q !in u && Rebase(q, orig, dir + [PAYLOAD]) in u && u[Rebase(q, orig, dir + [PAYLOAD])] == t[q])
    && (forall q | q in u && Under(dir + [PAYLOAD], q) :: Rebase(q, dir + [PAYLOAD], orig) in t)
    && OnlyNear(t, u, dir)
  }

  /** The subtree at `orig` is where it was, all of it, and the payload is empty. */
  ghost predicate StillThere(t: FileTree, u: FileTree, dir: Path) {
    Intact(t, u) && OnlyNear(t, u, dir) && Empty(u, dir + [PAYLOAD])
  }

  /** The two outcomes of trashing exclude each other: each entry of the subtree is at exactly one of its
      two places, and it is the same place for all of them. */
  lemma ExactlyOnePlace(t: FileTree, u: FileTree, orig: Path, dir: Path)
    requires MovedAway(t, u, orig, dir) || StillThere(t, u, dir)
    requires orig in t
    ensures forall q | q in t && Under(orig, q) :: q in u <==> orig in u
    ensures forall q | q in t && Under(orig, q) :: Rebase(q, orig, dir + [PAYLOAD]) in u <==> orig !in u
  {
    assert Under(orig, orig);
    if StillThere(t, u, dir) {
      forall q | q in t && Under(orig, q)
        ensures Rebase(q, orig, dir + [PAYLOAD]) !in u
      {}
    }
  }

  lemma UnderParts(dir: Path, name: string, other: string)
    requires name != other
    ensures !Under(dir + [name], dir + [other]) && Under(dir, dir + [name]) && !Under(dir + [name], dir)
  {
    assert (dir + [other])[..|dir| + 1] == dir + [other];
    assert (dir + [name])[|dir|] == name && (dir + [other])[|dir|] == other;
    assert (dir + [name])[..|dir|] == dir;
  }

  // ---------------------------------------------------------------- the steps of trashing

  lemma MadeDirectory(t: FileTree, u: FileTree, dir: Path)
    requires WellFormed(t) && dir !in t && Grown(t, u, dir)
    ensures StillThere(t, u, dir)
  {
    NothingBelow(t, dir);
    forall q | q in u && Under(dir + [PAYLOAD], q)
      ensures false
    {
      UnderParts(dir, PAYLOAD, META);
      UnderIsTransitive(dir, dir + [PAYLOAD], q);
      if q !in t {
        UnderIsTransitive(dir + [PAYLOAD], q, dir);
      }
    }
  }

  lemma CleanedUp(t: FileTree, u: FileTree, v: FileTree, dir: Path)
    requires WellFormed(t) && dir !in t && Cut(u, v, dir)
    ensures Intact(t, u) ==> Intact(t, v)
    ensures OnlyNear(t, u, dir) ==> OnlyNear(t, v, dir)
    ensures Empty(u, dir + [PAYLOAD]) ==> Empty(v, dir + [PAYLOAD])
  {
    NothingBelow(t, dir);
  }

  lemma MovedAside(t: FileTree, u: FileTree, orig: Path, dir: Path)
    requires WellFormed(t) && orig in t && dir !in t && Grown(t, u, dir)
    requires CanRename(u, orig, dir + [PAYLOAD])
    ensures MovedAway(t, Moved(u, orig, dir + [PAYLOAD]), orig, dir)
  {
    var payload := dir + [PAYLOAD];
    var v := Moved(u, orig, payload);
    UnderParts(dir, PAYLOAD, META);
    NothingBelow(t, dir);
    MovedAt(u, orig, payload);
    MadeDirectory(t, u, dir);
    assert !Under(orig, dir) by {
      if Under(orig, dir) {
        UnderIsTransitive(orig, dir, payload);
      }
    }
    forall q | q in t && Under(orig, q)
      ensures q !in v && Rebase(q, orig, payload) in v && v[Rebase(q, orig, payload)] == t[q]
    {
      var p := Rebase(q, orig, payload);
      assert Rebase(p, payload, orig) == q;
    }
    forall q | q in v && Under(payload, q)
      ensures Rebase(q, payload, orig) in t
    {
      UnderIsAbove(orig, Rebase(q, payload, orig), dir);
    }
    forall q | q in v && q !in t
      ensures Near(dir, q) && (!Under(dir, q) ==> v[q] == Dir)
    {
      if Under(payload, q) {
        UnderIsTransitive(dir, payload, q);
      }
    }
  }

  /** Nothing at or below a place is above dir unless the place itself is. */
  lemma UnderIsAbove(orig: Path, p: Path, dir: Path)
    requires Under(orig, p)
    ensures Under(p, dir) ==> Under(orig, dir)
  {
    if Under(p, dir) {
      UnderIsTransitive(orig, p, dir);
    }
  }

  lemma MetaIsApart(t: FileTree, u: FileTree, v: FileTree, orig: Path, dir: Path)
    requires WellFormed(t) && dir !in t && MovedAway(t, u, orig, dir)
    requires v == u || (dir + [META] in v && v == u[dir + [META] := v[dir + [META]]])
    ensures MovedAway(t, v, orig, dir)
  {
    NothingBelow(t, dir);
    UnderParts(dir, PAYLOAD, META);
    UnderParts(dir, META, PAYLOAD);
    forall q | q in t && Under(orig, q)
      ensures q !in v && Rebase(q, orig, dir + [PAYLOAD]) != dir + [META]
    {}
  }

  lemma MovedBackAgain(t: FileTree, u: FileTree, orig: Path, dir: Path)
    requires WellFormed(t) && orig in t && dir !in t && MovedAway(t, u, orig, dir)
    requires WellFormed(u) && CanRename(u, dir + [PAYLOAD], orig)
    ensures StillThere(t, Moved(u, dir + [PAYLOAD], orig), dir)
  {
    var payload := dir + [PAYLOAD];
    var v := Moved(u, payload, orig);
    MovedAt(u, payload, orig);
    NothingBelow(t, dir);
    UnderParts(dir, PAYLOAD, META);
    assert Under(orig, orig) && orig !in u;
    forall q | q in t
      ensures q in v && v[q] == t[q]
    {
      if Under(orig, q) {
        assert Rebase(Rebase(q, orig, payload), payload, orig) == q;
      } else if Under(payload, q) {
        UnderIsTransitive(dir, payload, q);
      }
    }
    forall q | q in v && Under(orig, q)
      ensures q in t
    {
      assert Rebase(Rebase(q, orig, payload), payload, orig) == q;
    }
    PayloadIsLeft(t, u, orig, dir);
  }

  lemma PayloadIsLeft(t: FileTree, u: FileTree, orig: Path, dir: Path)
    requires WellFormed(t) && orig in t && dir !in t && MovedAway(t, u, orig, dir)
    requires WellFormed(u) && CanRename(u, dir + [PAYLOAD], orig)
    ensures Empty(Moved(u, dir + [PAYLOAD], orig), dir + [PAYLOAD])
  {
    var payload := dir + [PAYLOAD];
    assert Under(orig, orig) && orig !in u && dir + [PAYLOAD] in u;
    MovedAt(u, payload, orig);
    NestedNever(u, payload, orig);
  }

  // ---------------------------------------------------------------- replacing a file

  /** Renaming a file to a place where no directory is only changes the two places. */
  lemma MovedFile(t: FileTree, a: Path, b: Path)
    requires WellFormed(t) && CanRename(t, a, b) && t[a].File? && a != b
    ensures Moved(t, a, b) == (t - {a})[b := t[a]]
  {
    MovedAt(t, a, b);
    NothingBelow(t, a);
    NothingBelow(t, b);
    forall q
      ensures Lands(t, a, b, q) <==> q in (t - {a})[b := t[a]]
      ensures Lands(t, a, b, q) ==> Moved(t, a, b)[q] == (t - {a})[b := t[a]][q]
    {
      if Under(b, q) && Rebase(q, b, a) in t {
        assert Rebase(q, b, a) == a;
        assert Rebase(a, a, b) == b == q;
      }
      if q == b {
        assert Rebase(b, b, a) == a;
      }
    }
  }

  /** The staged file has taken the place of the destination; the rest is unchanged but for the retained
      directory. */
  ghost predicate Replaced(t: FileTree, u: FileTree, staged: Path, dest: Path, dir: Path)
    requires staged in t
  {
    && dest in u && u[dest] == t[staged] && staged !in u
    && (forall q | q in t && q != staged && q != dest :: q in u && u[q] == t[q])
    && (forall q | q in u && q !in t && q != dest :: Near(dir, q) && (!Under(dir, q) ==> u[q] == Dir))
  }

  lemma RenamedIntoPlace(t: FileTree, u: FileTree, staged: Path, dest: Path, dir: Path)
    requires WellFormed(u) && staged in t && t[staged].File? && staged != dest
    requires Intact(t, u) && OnlyNear(t, u, dir) && CanRename(u, staged, dest)
    ensures Replaced(t, Moved(u, staged, dest), staged, dest, dir)
  {
    MovedFile(u, staged, dest);
  }

  // ---------------------------------------------------------------- restoring

  /** The payload of a retained directory is now at dest, all of it and nothing else; the metadata and the
      retained directory may be gone, the metadata also when it is what dest names; directories above dest
      were made; the rest is unchanged. */
  ghost predicate Restored(t: FileTree, u: FileTree, dest: Path, dir: Path) {
    var payload, meta := dir + [PAYLOAD], dir + [META];
    && payload in t
    && (forall q | Under(dest, q) && q != meta :: q in u <==> Rebase(q, dest, payload) in t)
    && (forall q | q in u && Under(dest, q) ::
          Rebase(q, dest, payload) in t && u[q] == t[Rebase(q, dest, payload)])
    && (forall q | q in t && !Under(dest, q) && !Under(payload, q) && q != meta && q != dir :: q in u)
    && (forall q | q in u && !Under(dest, q) ::
          !Under(payload, q) && if q in t then u[q] == t[q] else u[q] == Dir && Under(q, dest))
  }

  /** What making directories above dest and, when overwriting, removing dest leaves of t. */
  ghost predicate Prepared(t: FileTree, u: FileTree, dest: Path) {
    && (forall q | q in t && !Under(dest, q) :: q in u)
    && (forall q | q in u :: if q in t then u[q] == t[q] else u[q] == Dir && Under(q, dest) && q != dest)
  }

  lemma ParentsPrepared(t: FileTree, u: FileTree, v: FileTree, dest: Path)
    requires dest != [] && Grown(t, u, Parent(dest))
    ensures Prepared(t, u, dest)
    ensures Cut(u, v, dest) ==> Prepared(t, v, dest)
  {
    assert Under(Parent(dest), dest);
    forall q | q in u && q !in t
      ensures Under(q, dest) && q != dest
    {
      UnderIsTransitive(q, Parent(dest), dest);
    }
  }

  /** v is u with at most the metadata and the retained directory removed. */
  predicate Tidied(u: FileTree, v: FileTree, dir: Path) {
    && (forall q | q in v :: q in u && v[q] == u[q])
    && (forall q | q in u && q != dir + [META] && q != dir :: q in v)
  }

  lemma PayloadWasThere(t: FileTree, mid: FileTree, dest: Path, dir: Path)
    requires Prepared(t, mid, dest) && WellFormed(mid) && CanRename(mid, dir + [PAYLOAD], dest)
    ensures dir + [PAYLOAD] in t
    ensures Under(dest, dir + [PAYLOAD]) ==> dest == dir + [PAYLOAD]
    ensures !Under(dest, dir)
    ensures Under(dest, dir + [META]) ==> dest == dir + [META]
  {
    var payload, meta := dir + [PAYLOAD], dir + [META];
    if Under(dest, payload) && dest != payload {
      AboveIsDir(mid, dest, payload);
    }
    UnderParts(dir, PAYLOAD, META);
    UnderParts(dir, META, PAYLOAD);
    if Under(dest, dir) {
      UnderIsTransitive(dest, dir, payload);
    }
    DirectoryIsParent(dest, dir);
  }

  lemma DirectoryIsParent(dest: Path, dir: Path)
    ensures Under(dest, dir + [META]) && dest != dir + [META] ==> Under(dest, dir)
  {
    if Under(dest, dir + [META]) && dest != dir + [META] {
      ParentIsAbove(dest, dir + [META]);
      assert Parent(dir + [META]) == dir;
    }
  }

  lemma RestoredBy(t: FileTree, mid: FileTree, v: FileTree, dest: Path, dir: Path)
    requires WellFormed(t) && Prepared(t, mid, dest) && WellFormed(mid) && CanRename(mid, dir + [PAYLOAD], dest)
    requires Tidied(Moved(mid, dir + [PAYLOAD], dest), v, dir)
    ensures Restored(t, v, dest, dir)
  {
    var payload := dir + [PAYLOAD];
    MovedAt(mid, payload, dest);
    PayloadWasThere(t, mid, dest, dir);
    forall q | Under(dest, q)
      ensures q in v ==> Rebase(q, dest, payload) in t
      ensures Rebase(q, dest, payload) in t && q != dir + [META] ==> q in v
      ensures q in v ==> v[q] == t[Rebase(q, dest, payload)]
    {
      PayloadEntry(t, mid, dest, dir, Rebase(q, dest, payload));
    }
  }

  /** Preparing the destination left the payload alone. */
  lemma PayloadEntry(t: FileTree, mid: FileTree, dest: Path, dir: Path, p: Path)
    requires WellFormed(t) && Prepared(t, mid, dest) && WellFormed(mid) && CanRename(mid, dir + [PAYLOAD], dest)
    requires Under(dir + [PAYLOAD], p)
    ensures p in t <==> p in mid
    ensures p in t ==> mid[p] == t[p]
  {
    var payload := dir + [PAYLOAD];
    PayloadWasThere(t, mid, dest, dir);
    if Under(dest, p) && dest != payload {
      if |dest| <= |payload| {
        AboveAreNested(dest, payload, p);
      } else {
        AboveAreNested(payload, dest, p);
      }
    }
    if Under(p, dest) {
      UnderIsTransitive(payload, p, dest);
      assert p[..|p|] == p;
    }
    if dest == payload {
      NothingBelow(t, payload);
    }
  }

  /** Nothing was at dest, or one file takes the place of another. */
  ghost predicate Free(t: FileTree, dest: Path, dir: Path) {
    dest in t && dest != dir + [PAYLOAD] ==> t[dest].File?
  }

  /** An entry that users see: not the storage layer's own three directories, nor anything in them. */
  predicate UserPath(q: Path) { q != [] ==> !Paths.IsInternal(q[0]) }

  ghost predicate SameForUsers(t: FileTree, u: FileTree) {
    forall q | UserPath(q) :: (q in t <==> q in u) && (q in t ==> t[q] == u[q])
  }

  lemma {:induction false} Longest(some: set<Path>) returns (p: Path)
    requires some != {}
    ensures p in some && forall q | q in some :: |q| <= |p|
    decreases |some|
  {
    p :| p in some;
    if some != {p} {
      var rest := Longest(some - {p});
      if |rest| > |p| {
        p := rest;
      }
    }
  }

  predicate Retained(dir: Path) { |dir| == 2 && Paths.IsInternal(dir[0]) }

  lemma UnseenBelow(dir: Path, q: Path)
    requires Retained(dir) && Near(dir, q)
    ensures !UserPath(q) || q == []
  {
    if Under(dir, q) {
      assert q[0] == q[..|dir|][0];
    } else if q != [] {
      assert q[0] == dir[..|q|][0];
    }
  }

  lemma BackAtOwnPlace(t: FileTree, u: FileTree, v: FileTree, orig: Path, dir: Path)
    requires WellFormed(t) && WellFormed(v) && orig in t && UserPath(orig) && orig != [] && Retained(dir) && dir !in t
    requires MovedAway(t, u, orig, dir) && Restored(u, v, orig, dir)
    ensures SameForUsers(t, v)
  {
    var payload := dir + [PAYLOAD];
    UnderParts(dir, PAYLOAD, META);
    forall q | UserPath(q)
      ensures (q in t <==> q in v) && (q in t ==> t[q] == v[q])
    {
      if Under(orig, q) {
        assert Rebase(Rebase(q, orig, payload), payload, orig) == q;
        NotNear(dir, q);
      } else if q != [] {
        NotNear(dir, q);
        if Under(q, orig) {
          AboveRealIsThere(t, q, orig);
        }
      }
    }
  }

  lemma NotNear(dir: Path, q: Path)
    requires Retained(dir) && UserPath(q) && q != []
    ensures !Near(dir, q) && q != dir && q != dir + [META] && !Under(dir + [PAYLOAD], q)
  {
    if Near(dir, q) {
      UnseenBelow(dir, q);
    }
    UnderParts(dir, META, PAYLOAD);
    UnderParts(dir, PAYLOAD, META);
    assert dir[..2] == dir;
    if Under(dir + [PAYLOAD], q) {
      UnderIsTransitive(dir, dir + [PAYLOAD], q);
    }
  }

  lemma AboveRealIsThere(t: FileTree, q: Path, orig: Path)
    requires WellFormed(t) && orig in t && Under(q, orig)
    ensures q in t
  {
    assert orig[..|orig|] == orig;
    if q != orig {
      AboveIsDir(t, q, orig);
    }
  }

  /** Restored somewhere else, the trashed entry is missing from its own place, or something is below it
      that was not there. */
  lemma NotBackElsewhere(t: FileTree, u: FileTree, v: FileTree, orig: Path, dest: Path, dir: Path)
    requires WellFormed(t) && WellFormed(u) && orig in t && UserPath(orig) && orig != [] && Retained(dir) && dir !in t
    requires MovedAway(t, u, orig, dir) && Restored(u, v, dest, dir) && Free(u, dest, dir) && dest != orig
    ensures !SameForUsers(t, v)
  {
    assert Under(orig, orig) && orig !in u;
    assert orig[..|orig|] == orig;
    if Under(dest, orig) {
      DestinationIsTaken(t, u, orig, dest, dir);
    } else if Under(orig, dest) {
      DeeperThanBefore(t, u, v, orig, dest, dir);
    } else {
      assert orig !in v;
    }
  }

  lemma DestinationIsTaken(t: FileTree, u: FileTree, orig: Path, dest: Path, dir: Path)
    requires WellFormed(t) && orig in t && UserPath(orig) && Retained(dir)
    requires MovedAway(t, u, orig, dir) && Under(dest, orig) && dest != orig
    ensures dest in u && u[dest] == Dir && dest != dir + [PAYLOAD]
  {
    AboveIsDir(t, dest, orig);
    assert dest[..|dest|] == dest && orig[..|orig|] == orig;
    if dest == dir + [PAYLOAD] {
      NotNear(dir, orig);
    }
  }

  /** The deepest entry of the trashed subtree, restored below its own place, is where nothing was. */
  lemma DeepestIsNew(t: FileTree, orig: Path, dest: Path) returns (deepest: Path)
    requires orig in t && Under(orig, dest) && dest != orig
    ensures deepest in t && Under(orig, deepest) && Rebase(deepest, orig, dest) !in t
    ensures Under(orig, Rebase(deepest, orig, dest))
  {
    assert Under(orig, orig);
    var below := set q | q in t && Under(orig, q);
    assert orig in below;
    deepest := Longest(below);
    var p := Rebase(deepest, orig, dest);
    assert dest[..|dest|] == dest;
    UnderIsTransitive(orig, dest, p);
    assert |p| > |deepest|;
  }

  lemma DeeperThanBefore(t: FileTree, u: FileTree, v: FileTree, orig: Path, dest: Path, dir: Path)
    requires orig in t && UserPath(orig) && orig != [] && Retained(dir)
    requires MovedAway(t, u, orig, dir) && Restored(u, v, dest, dir) && Under(orig, dest) && dest != orig
    ensures !SameForUsers(t, v)
  {
    var payload := dir + [PAYLOAD];
    var deepest := DeepestIsNew(t, orig, dest);
    var p := Rebase(deepest, orig, dest);
    assert Rebase(p, dest, payload) == Rebase(deepest, orig, payload);
    assert p[0] == p[..|orig|][0] == orig[0];
    NotNear(dir, p);
    assert p in v;
  }

  /** Trashing and then restoring gives users back the tree they had exactly when the restore went to the
      path that was trashed. */
  lemma TrashThenRestoreIff(t: FileTree, u: FileTree, v: FileTree, orig: Path, dest: Path, dir: Path)
    requires WellFormed(t) && WellFormed(u) && WellFormed(v)
    requires orig in t && UserPath(orig) && orig != [] && Retained(dir) && dir !in t
    requires MovedAway(t, u, orig, dir) && Restored(u, v, dest, dir) && Free(u, dest, dir)
    ensures SameForUsers(t, v) <==> dest == orig
  {
    if dest == orig {
      BackAtOwnPlace(t, u, v, orig, dir);
    } else {
      NotBackElsewhere(t, u, v, orig, dest, dir);
    }
  }

  /** The path a restore without a destination goes to. What was trashed under a virtual path is recorded
      under that path cleaned once more, and restored to the record cleaned again. */
  lemma RecordedDestination(virtual: Path)
    requires Paths.Normal(virtual)
    ensures Paths.VirtualSegs(Paths.CleanVirtual(Paths.Render(virtual))) == Paths.Trimmed(Paths.Trimmed(virtual))
  {
    Paths.CleanVirtualOfNormal(virtual);
    Paths.TrimmedIsNormal(virtual);
    Paths.VirtualSegsOfNormal(Paths.Trimmed(virtual));
  }

  /** A user's delete and a restore without a destination, for a request that Resolve accepts: the tree
      comes back exactly when mounting and cleaning leave the request's path alone. */
  lemma DeletedRequestComesBackIff(r: Paths.Root, user: Paths.User, cwd: string, requested: string,
                                   t: FileTree, u: FileTree, v: FileTree, dir: Path)
    requires r.Valid() && Paths.Ordinary(user.username) && Paths.Resolve(r, user, cwd, requested).Some?
    requires WellFormed(t) && WellFormed(u) && WellFormed(v) && Retained(dir) && dir !in t
    requires var orig := Paths.MountSegs(r, user, Paths.VirtualSegs(user.home), Paths.RequestSegs(cwd, requested));
             var record := Paths.CleanVirtual(Paths.Resolve(r, user, cwd, requested).value.1);
             && orig in t && UserPath(orig) && orig != []
             && MovedAway(t, u, orig, dir) && Restored(u, v, Paths.VirtualSegs(record), dir)
             && Free(u, Paths.VirtualSegs(record), dir)
    ensures var virtual := Paths.RequestSegs(cwd, requested);
            SameForUsers(t, v) <==>
            Paths.Trimmed(Paths.Trimmed(virtual)) == Paths.MountSegs(r, user, Paths.VirtualSegs(user.home), virtual)
  {
    var virtual := Paths.RequestSegs(cwd, requested);
    var orig := Paths.MountSegs(r, user, Paths.VirtualSegs(user.home), virtual);
    var record := Paths.CleanVirtual(Paths.Resolve(r, user, cwd, requested).value.1);
    Paths.ResolveOnSegments(r, user, cwd, requested);
    Paths.RequestIsNormal(cwd, requested);
    RecordedDestination(virtual);
    TrashThenRestoreIff(t, u, v, orig, Paths.VirtualSegs(record), dir);
  }

  /** Without a mount, it comes back unless the path ends in white space. */
  lemma UnmountedComesBack(r: Paths.Root, user: Paths.User, home: Path, virtual: Path)
    requires Paths.Normal(virtual) && !Paths.EndsInSpace(Paths.Render(virtual))
    requires user.public ==> !Under(home + [Paths.PUBLIC], virtual)
    requires user.dropbox ==> !Under(home + [Paths.DROPBOX], virtual)
    ensures Paths.Trimmed(Paths.Trimmed(virtual)) == Paths.MountSegs(r, user, home, virtual)
  {
    Paths.TrimmedFixed(virtual);
  }

  /** A path below a mount point of the home directory, mounted: the rest of it below the mount's directory. */
  lemma MountedRest(dirs: Path, mount: Path, virtual: Path)
    requires dirs != [] && Paths.Normal(dirs) && !Paths.EndsInSpace(dirs[|dirs| - 1])
    requires Paths.Normal(virtual) && Under(mount, virtual) && !Paths.EndsInSpace(Paths.Render(virtual))
    ensures Paths.Trimmed(dirs + virtual[|mount|..]) == dirs + virtual[|mount|..]
    ensures dirs + virtual[|mount|..] == virtual <==> dirs == mount
  {
    var rest := virtual[|mount|..];
    assert virtual == mount + rest;
    if rest == [] {
      assert dirs + rest == dirs;
    } else {
      assert (dirs + rest)[|dirs + rest| - 1] == virtual[|virtual| - 1];
      Paths.TrimmedFixed(virtual);
    }
    LastDecides(dirs + rest);
    if dirs + rest == virtual {
      assert |dirs| == |mount|;
      assert dirs == (dirs + rest)[..|dirs|] && mount == (mount + rest)[..|mount|];
    }
  }

  /** Cleaning once more leaves a path alone whose last segment does not end in white space. */
  lemma LastDecides(segs: Path)
    requires segs != [] && Paths.PathSeg(segs[|segs| - 1])
    ensures !Paths.EndsInSpace(segs[|segs| - 1]) ==> Paths.Trimmed(segs) == segs
  {
    var last := segs[|segs| - 1];
    if !Paths.EndsInSpace(last) {
      assert Text.TrimRight(last) == last;
      assert segs == segs[..|segs| - 1] + [last];
    }
  }

  /** What was deleted through the public mount comes back exactly when the mount is the public directory's own
      place: the home directory is the base and the directory is called "public". Otherwise the restore
      puts it into the home directory. */
  lemma PublicComesBackIff(r: Paths.Root, user: Paths.User, home: Path, virtual: Path)
    requires r.Valid() && user.public && Paths.Normal(home) && Paths.Normal(virtual)
    requires Under(home + [Paths.PUBLIC], virtual) && !Paths.EndsInSpace(Paths.Render(virtual))
    ensures Paths.Trimmed(Paths.Trimmed(virtual)) == Paths.MountSegs(r, user, home, virtual)
            <==> home == [] && r.publicDir == Paths.PUBLIC
  {
    Paths.TrimmedFixed(virtual);
    MountedRest([r.publicDir], home + [Paths.PUBLIC], virtual);
    OneSegmentMount(home, Paths.PUBLIC, r.publicDir);
  }

  lemma OneSegmentMount(home: Path, mount: string, dir: string)
    ensures [dir] == home + [mount] <==> home == [] && dir == mount
  {
    if [dir] == home + [mount] {
      assert |home| == 0 && (home + [mount])[0] == mount;
    }
  }

  lemma TwoSegmentMount(home: Path, mount: string, dir: string, name: string)
    ensures [dir, name] == home + [mount] <==> home == [dir] && name == mount
  {
    if [dir, name] == home + [mount] {
      assert (home + [mount])[0] == dir && (home + [mount])[1] == name && |home| == 1;
    }
  }

  /** The same for the dropbox mount, which a user may delete from: what was deleted comes back exactly for a
      user called "dropbox" whose home is the directory of all dropboxes. */
  lemma DropboxComesBackIff(r: Paths.Root, user: Paths.User, home: Path, virtual: Path)
    requires r.Valid() && user.dropbox && Paths.Ordinary(user.username) && Paths.Normal(home) && Paths.Normal(virtual)
    requires Under(home + [Paths.DROPBOX], virtual) && !Paths.EndsInSpace(Paths.Render(virtual))
    ensures Paths.Trimmed(Paths.Trimmed(virtual)) == Paths.MountSegs(r, user, home, virtual)
            <==> home == [r.dropboxDir] && user.username == Paths.DROPBOX
  {
    Paths.TrimmedFixed(virtual);
    Paths.TwoOrdinary(r.dropboxDir, user.username);
    MountedRest([r.dropboxDir, user.username], home + [Paths.DROPBOX], virtual);
    TwoSegmentMount(home, Paths.DROPBOX, r.dropboxDir, user.username);
    OtherMount(home, virtual);
  }

  lemma OtherMount(home: Path, virtual: Path)
    requires Under(home + [Paths.DROPBOX], virtual)
    ensures !Under(home + [Paths.PUBLIC], virtual)
  {
    assert virtual[..|home| + 1][|home|] == (home + [Paths.DROPBOX])[|home|] == Paths.DROPBOX;
    assert (home + [Paths.PUBLIC])[|home|] == Paths.PUBLIC;
  }

  /** A request that this happens to: "/home/dropbox/name" is accepted and means the user's own dropbox. */
  lemma DroppedFileIsAccepted(r: Paths.Root, user: Paths.User, cwd: string, home: string, name: string)
    requires r.Valid() && Paths.Ordinary(user.username) && Paths.Ordinary(home) && Paths.Ordinary(name)
    requires user.dropbox && user.home == Paths.Render([home])
    requires Paths.Visible(r, [r.dropboxDir, user.username, name])
    ensures Paths.Resolve(r, user, cwd, Paths.Render([home, Paths.DROPBOX, name])) ==
            Some((Paths.Abs(r.base + [r.dropboxDir, user.username, name]), Paths.Render([home, Paths.DROPBOX, name])))
  {
    var virtual := [home, Paths.DROPBOX, name];
    DropboxRequest(cwd, user, home, name);
    DropboxMount(r, user, home, name);
    Paths.ResolveOnSegments(r, user, cwd, Paths.Render(virtual));
    assert Under([home], virtual);
  }

  /** What is deleted there would be restored to the dropbox folder of the home directory. */
  lemma DroppedFileGoesElsewhere(r: Paths.Root, user: Paths.User, home: string, name: string)
    requires Paths.Ordinary(home) && Paths.Ordinary(name)
    requires !(home == r.dropboxDir && user.username == Paths.DROPBOX)
    ensures var virtual := [home, Paths.DROPBOX, name];
            && Paths.VirtualSegs(Paths.CleanVirtual(Paths.Render(virtual))) == virtual
            && virtual != [r.dropboxDir, user.username, name]
  {
    var virtual := [home, Paths.DROPBOX, name];
    DropboxPath(home, name);
    RecordedDestination(virtual);
    assert virtual[0] == home && virtual[1] == Paths.DROPBOX;
  }

  lemma DropboxPath(home: string, name: string)
    requires Paths.Ordinary(home) && Paths.Ordinary(name)
    ensures Paths.Normal([home, Paths.DROPBOX, name])
    ensures Paths.Trimmed([home, Paths.DROPBOX, name]) == [home, Paths.DROPBOX, name]
  {
    Paths.OrdinaryIsSegment(home);
    Paths.OrdinaryIsSegment(name);
    Paths.DropboxIsSegment();
    LastDecides([home, Paths.DROPBOX, name]);
  }

  lemma DropboxRequest(cwd: string, user: Paths.User, home: string, name: string)
    requires Paths.Ordinary(home) && Paths.Ordinary(name) && user.home == Paths.Render([home])
    ensures var virtual := [home, Paths.DROPBOX, name];
            Paths.RequestSegs(cwd, Paths.Render(virtual)) == virtual
    ensures Paths.VirtualSegs(user.home) == [home]
  {
    var virtual := [home, Paths.DROPBOX, name];
    Paths.OrdinaryHome(home);
    DropboxPath(home, name);
    Paths.VirtualSegsOfNormal(virtual);
    Paths.RenderStartsWithSlash(virtual);
    Paths.RootedRequest(cwd, Paths.Render(virtual));
  }

  lemma DropboxMount(r: Paths.Root, user: Paths.User, home: string, name: string)
    requires r.Valid() && user.dropbox && Paths.Ordinary(user.username) && Paths.Ordinary(name)
    ensures var mounted := [r.dropboxDir, user.username, name];
            && Paths.MountSegs(r, user, [home], [home, Paths.DROPBOX, name]) == mounted
            && Paths.Trimmed(mounted) == mounted
  {
    var virtual, mounted := [home, Paths.DROPBOX, name], [r.dropboxDir, user.username, name];
    assert virtual[..2] == [home] + [Paths.DROPBOX] && virtual[2..] == [name];
    OtherMount([home], virtual);
    assert [r.dropboxDir, user.username] + [name] == mounted;
    Paths.OrdinaryIsSegment(name);
    LastDecides(mounted);
  }

  /** A destination that is there after all is lost when the test for it fails: the rename goes through and the
      payload takes the place of the file. */
  lemma FailedTestReplacesFile(t: FileTree, dest: Path, dir: Path)
    requires WellFormed(t) && dir + [PAYLOAD] in t && t[dir + [PAYLOAD]].File?
    requires dest in t && t[dest].File? && dest != dir + [PAYLOAD]
    ensures CanRename(t, dir + [PAYLOAD], dest)
    ensures Moved(t, dir + [PAYLOAD], dest) == (t - {dir + [PAYLOAD]})[dest := t[dir + [PAYLOAD]]]
  {
    NothingBelow(t, dir + [PAYLOAD]);
    assert dest[..|dest|] == dest;
    assert dest != [];
    MovedFile(t, dir + [PAYLOAD], dest);
  }

  const OCCUPIED: FileTree := map[
    [] := Dir, ["f"] := File([1]), [Paths.TRASH] := Dir, [Paths.TRASH, "id"] := Dir,
    [Paths.TRASH, "id", PAYLOAD] := File([2])]

  lemma OccupiedIsWellFormed()
    ensures WellFormed(OCCUPIED)
  {
    assert Parent([Paths.TRASH, "id", PAYLOAD]) == [Paths.TRASH, "id"] && Parent([Paths.TRASH, "id"]) == [Paths.TRASH];
    assert Parent(["f"]) == [] && Parent([Paths.TRASH]) == [];
  }

  /** For example, a file of one byte 1 becomes one of byte 2, and byte 1 is nowhere any more. */
  lemma FailedTestLosesBytes(payload: Path)
    requires payload == [Paths.TRASH, "id"] + [PAYLOAD]
    ensures WellFormed(OCCUPIED) && OCCUPIED[["f"]] == File([1]) && CanRename(OCCUPIED, payload, ["f"])
    ensures var after := Moved(OCCUPIED, payload, ["f"]);
            ["f"] in after && after[["f"]] == File([2]) && forall p | p in after :: after[p] != File([1])
  {
    assert payload == [Paths.TRASH, "id", PAYLOAD];
    assert payload in OCCUPIED && OCCUPIED[payload] == File([2]);
    OccupiedIsWellFormed();
    FailedTestReplacesFile(OCCUPIED, ["f"], [Paths.TRASH, "id"]);
  }
}
