/** The file tree below the storage base directory, and the file-system calls the storage layer makes on
    it. Every call may fail for reasons the model does not look at; what a call does then is part of its
    contract, so whatever is proved about a caller holds for every pattern of failures. */
module Tree {
  import opened Bytes
  import opened Common

  datatype Node = File(data: seq<byte>) | Dir

  type FileTree = map<Path, Node>

  function Parent(p: Path): Path
    requires p != []
  {
    p[..|p| - 1]
  }

  /** The base is a directory, and so is whatever has an entry in it. */
  predicate WellFormed(t: FileTree) {
    && [] in t && t[[]] == Dir
    && (forall p | p in t && p != [] :: Parent(p) in t && t[Parent(p)] == Dir)
  }

  /** The place below `to` that corresponds to a place below `from`. */
  function Rebase(p: Path, from: Path, to: Path): (q: Path)
    requires Under(from, p)
    ensures Under(to, q) && |q| == |p| - |from| + |to| && from + q[|to|..] == p
  {
    to + p[|from|..]
  }

  lemma UnderIsTransitive(a: Path, b: Path, c: Path)
    requires Under(a, b) && Under(b, c)
    ensures Under(a, c)
  {
    assert c[..|a|] == c[..|b|][..|a|];
  }

  /** Two directories above one place are above one another. */
  lemma AboveAreNested(a: Path, b: Path, p: Path)
    requires Under(a, p) && Under(b, p) && |a| <= |b|
    ensures Under(a, b)
  {
    assert b[..|a|] == p[..|b|][..|a|] == p[..|a|];
  }

  lemma ParentIsAbove(dir: Path, p: Path)
    requires Under(dir, p) && p != dir
    ensures p != [] && Under(dir, Parent(p))
  {
    assert p[..|p|] == p;
    assert Parent(p)[..|dir|] == p[..|dir|];
  }

  lemma {:induction false} AboveIsDir(t: FileTree, dir: Path, p: Path)
    requires WellFormed(t) && p in t && Under(dir, p) && p != dir
    ensures dir in t && t[dir] == Dir
    decreases |p|
  {
    ParentIsAbove(dir, p);
    if Parent(p) != dir {
      AboveIsDir(t, dir, Parent(p));
    }
  }

  /** Where nothing is, nothing is below. */
  lemma NothingBelow(t: FileTree, dir: Path)
    requires WellFormed(t) && (dir !in t || t[dir].File?)
    ensures forall p | p in t && p != dir :: !Under(dir, p)
  {
    forall p | p in t && p != dir && Under(dir, p)
      ensures false
    {
      AboveIsDir(t, dir, p);
    }
  }

  // ---------------------------------------------------------------- what the calls do to the tree

  /** Some of the missing directories above and at p were made. */
  predicate Grown(t: FileTree, u: FileTree, p: Path) {
    && (forall q | q in t :: q in u && u[q] == t[q])
    && (forall q | q in u && q !in t :: u[q] == Dir && Under(q, p))
  }

  /** Some of the entries at and below p were removed. */
  predicate Cut(t: FileTree, u: FileTree, p: Path) {
    && (forall q | q in u :: q in t && u[q] == t[q])
    && (forall q | q in t && !Under(p, q) :: q in u)
  }

  lemma OneMoreDirectory(t: FileTree, u: FileTree, p: Path, k: nat)
    requires k < |p| && WellFormed(u) && Grown(t, u, p)
    requires p[..k] in u && u[p[..k]] == Dir && p[..k + 1] !in u
    ensures WellFormed(u[p[..k + 1] := Dir]) && Grown(t, u[p[..k + 1] := Dir], p)
  {
    var dir := p[..k + 1];
    assert dir != [] && Parent(dir) == p[..k];
    assert Under(dir, p);
  }

  /** Nothing stands in the way of making the directory. */
  predicate Makeable(t: FileTree, p: Path) { forall k | 0 <= k <= |p| && p[..k] in t :: t[p[..k]] == Dir }

  lemma MakeableNext(t: FileTree, p: Path, k: nat)
    requires k < |p| && Makeable(t, p[..k])
    ensures Makeable(t, p[..k + 1]) <==> p[..k + 1] in t ==> t[p[..k + 1]] == Dir
  {
    var q := p[..k + 1];
    assert q[..k + 1] == q;
    forall j | 0 <= j <= k
      ensures q[..j] == p[..k][..j]
    {}
  }

  /** In the loop of MkdirAll: the first k directories are there. */
  ghost predicate Making(t: FileTree, u: FileTree, p: Path, k: nat) {
    && k <= |p| && WellFormed(u) && Grown(t, u, p)
    && p[..k] in u && u[p[..k]] == Dir && Makeable(t, p[..k])
  }

  lemma MakingStarts(t: FileTree, p: Path)
    requires WellFormed(t)
    ensures Making(t, t, p, 0)
  {}

  lemma MakingGoesOn(t: FileTree, u: FileTree, p: Path, k: nat)
    requires k < |p| && Making(t, u, p, k)
    ensures WellFormed(u) && Grown(t, u, p)
    ensures p[..k + 1] in u && u[p[..k + 1]].File? ==> !Makeable(t, p)
    ensures p[..k + 1] in u && u[p[..k + 1]].Dir? ==> Making(t, u, p, k + 1)
    ensures p[..k + 1] !in u ==> Making(t, u[p[..k + 1] := Dir], p, k + 1)
  {
    MakeableNext(t, p, k);
    if p[..k + 1] !in u {
      OneMoreDirectory(t, u, p, k);
    }
  }

  lemma MadeIsGrown(t: FileTree, u: FileTree, p: Path, k: nat)
    requires Making(t, u, p, k)
    ensures WellFormed(u) && Grown(t, u, p)
  {}

  lemma MakingEnds(t: FileTree, u: FileTree, p: Path)
    requires Making(t, u, p, |p|)
    ensures WellFormed(u) && Grown(t, u, p) && p in u && u[p] == Dir && Makeable(t, p)
  {
    assert p[..|p|] == p;
  }

  predicate CanWrite(t: FileTree, p: Path) {
    p != [] && Parent(p) in t && t[Parent(p)] == Dir && (p in t ==> t[p].File?)
  }

  /** Both rename calls refuse a directory as the target when the source is a file or the call is
      os.Rename; the storage layer uses no other combination. */
  predicate CanRename(t: FileTree, a: Path, b: Path) {
    && a in t && a != []
    && CanWrite(t, b)
    && (b in t ==> t[a].File?)
    && (Under(a, b) ==> a == b)
  }

  predicate CanRemove(t: FileTree, p: Path) { p in t && p != [] && forall q | q in t && q != p :: !Under(p, q) }

  /** After the subtree at a has been moved to b, p is in the tree. */
  predicate Lands(t: FileTree, a: Path, b: Path, p: Path) {
    if Under(b, p) then Rebase(p, b, a) in t else p in t && !Under(a, p)
  }

  function Moved(t: FileTree, a: Path, b: Path): FileTree {
    var candidates := t.Keys + set q | q in t && Under(a, q) :: Rebase(q, a, b);
    map p | p in candidates && Lands(t, a, b, p) :: if Under(b, p) then t[Rebase(p, b, a)] else t[p]
  }

  lemma MovedAt(t: FileTree, a: Path, b: Path)
    ensures forall p :: p in Moved(t, a, b) <==> Lands(t, a, b, p)
  {
    forall p
      ensures p in Moved(t, a, b) <==> Lands(t, a, b, p)
    {
      if Lands(t, a, b, p) && Under(b, p) {
        var q := Rebase(p, b, a);
        assert q in t && Under(a, q) && Rebase(q, a, b) == p;
      }
    }
  }

  lemma MovedIsWellFormed(t: FileTree, a: Path, b: Path)
    requires WellFormed(t) && CanRename(t, a, b)
    ensures WellFormed(Moved(t, a, b))
  {
    var u := Moved(t, a, b);
    MovedAt(t, a, b);
    RootStays(t, a, b);
    forall p | p in u && p != []
      ensures Parent(p) in u && u[Parent(p)] == Dir
    {
      ParentLands(t, a, b, p);
    }
  }

  lemma RootStays(t: FileTree, a: Path, b: Path)
    requires WellFormed(t) && CanRename(t, a, b)
    ensures !Under(b, []) && !Under(a, [])
  {}

  lemma BelowParent(a: Path, b: Path)
    requires b != [] && (Under(a, b) ==> a == b)
    ensures !Under(a, Parent(b))
  {
    if Under(a, Parent(b)) {
      UnderIsTransitive(a, Parent(b), b);
    }
  }

  lemma ParentLands(t: FileTree, a: Path, b: Path, p: Path)
    requires WellFormed(t) && CanRename(t, a, b) && Lands(t, a, b, p) && p != []
    ensures Lands(t, a, b, Parent(p))
    ensures (if Under(b, Parent(p)) then t[Rebase(Parent(p), b, a)] else t[Parent(p)]) == Dir
  {
    if p == b {
      assert !Under(b, Parent(b));
      BelowParent(a, b);
    } else if Under(b, p) {
      ParentIsAbove(b, p);
      var q := Rebase(p, b, a);
      assert Parent(p)[|b|..] == p[|b|..|p| - 1];
      assert q != [] && Parent(q) == a + p[|b|..|p| - 1] == Rebase(Parent(p), b, a);
    } else {
      if Under(b, Parent(p)) {
        UnderIsTransitive(b, Parent(p), p);
        assert false;
      }
      if Under(a, Parent(p)) {
        UnderIsTransitive(a, Parent(p), p);
        assert false;
      }
    }
  }

  /** Moving a subtree and moving it back leaves the tree as it was, if the place it went to was free. */
  lemma MovedBack(t: FileTree, a: Path, b: Path)
    requires WellFormed(t) && CanRename(t, a, b) && b !in t
    ensures Moved(Moved(t, a, b), b, a) == t
  {
    var u := Moved(t, a, b);
    var v := Moved(u, b, a);
    MovedAt(t, a, b);
    MovedAt(u, b, a);
    NothingBelow(t, b);
    NestedNever(t, a, b);
    forall p
      ensures (p in v <==> p in t) && (p in t ==> v[p] == t[p])
    {
      if Under(a, p) {
        var q := Rebase(p, a, b);
        assert Rebase(q, b, a) == p;
      }
    }
  }

  lemma NestedNever(t: FileTree, a: Path, b: Path)
    requires WellFormed(t) && CanRename(t, a, b) && b !in t
    ensures forall p :: !(Under(a, p) && Under(b, p))
  {
    forall p | Under(a, p) && Under(b, p)
      ensures false
    {
      if |a| <= |b| {
        AboveAreNested(a, b, p);
      } else {
        AboveAreNested(b, a, p);
        NothingBelow(t, b);
      }
    }
  }

  // ---------------------------------------------------------------- the disk

  datatype Seen = Found(node: Node) | Absent | Failed

  class Disk {
    var tree: FileTree
    /** What has been asked about the tree, and the answers. */
    ghost var answers: seq<(Path, Seen)>
    /** No call has failed so far for a reason that the tree does not show. */
    ghost var calm: bool

    ghost predicate Valid()
      reads `tree
    {
      WellFormed(tree)
    }

    /** A call that changes nothing and can fail: opening, closing, seeking, setting permissions. */
    method Fails() returns (fails: bool)
      modifies `calm
      ensures calm ==> old(calm) && !fails
    {
      fails := *;
      if fails {
        calm := false;
      }
    }

    /** A name made from the time and a counter. That it is taken is trouble, too. */
    method NewName(dir: Path) returns (name: string)
      modifies `calm
      ensures calm ==> old(calm) && dir + [name] !in tree
    {
      name := *;
      if dir + [name] in tree {
        calm := false;
      }
    }

    /** Any error but "does not exist" reads as Failed, whether or not the entry is there. */
    method Stat(p: Path) returns (r: Seen)
      modifies `answers, `calm
      ensures r.Found? ==> p in tree && r.node == tree[p]
      ensures r.Absent? ==> p !in tree
      ensures answers == old(answers) + [(p, r)]
      ensures calm ==> old(calm) && !r.Failed?
    {
      var fails := Fails();
      r := if fails then Failed else if p in tree then Found(tree[p]) else Absent;
      answers := answers + [(p, r)];
    }

    method MkdirAll(p: Path) returns (ok: bool)
      requires Valid()
      modifies `tree, `calm
      ensures Valid() && Grown(old(tree), tree, p) == true
      ensures ok ==> p in tree && tree[p] == Dir
      ensures calm ==> old(calm) && ok == Makeable(old(tree), p)
    {
      var k := 0;
      MakingStarts(tree, p);
      while k < |p|
        invariant k <= |p| && (calm ==> old(calm))
        invariant Making(old(tree), tree, p, k) == true
      {
        ok := MakeNext(old(tree), p, k);
        if !ok {
          return;
        }
        k := k + 1;
      }
      MakingEnds(old(tree), tree, p);
      var fails := Fails();
      ok := !fails;
    }

    method MakeNext(ghost t: FileTree, p: Path, k: nat) returns (ok: bool)
      requires k < |p| && Making(t, tree, p, k)
      modifies `tree, `calm
      ensures WellFormed(tree) && Grown(t, tree, p) == true && (calm ==> old(calm))
      ensures ok ==> Making(t, tree, p, k + 1) == true
      ensures !ok && calm ==> !Makeable(t, p)
    {
      var dir := p[..k + 1];
      MakingGoesOn(t, tree, p, k);
      if dir in tree && tree[dir].File? {
        return false;
      }
      if dir !in tree {
        var fails := Fails();
        if fails {
          return false;
        }
        tree := tree[dir := Dir];
        MadeIsGrown(t, tree, p, k + 1);
      }
      ok := true;
    }

    method Rename(a: Path, b: Path) returns (ok: bool)
      requires Valid()
      modifies `tree, `calm
      ensures Valid()
      ensures ok ==> CanRename(old(tree), a, b) && tree == Moved(old(tree), a, b)
      ensures !ok ==> tree == old(tree)
      ensures calm ==> old(calm) && (ok <==> CanRename(old(tree), a, b))
    {
      var fails := Fails();
      ok := !fails && CanRename(tree, a, b);
      if ok {
        MovedIsWellFormed(tree, a, b);
        tree := Moved(tree, a, b);
      }
    }

    /** A hard link never replaces anything. */
    method Link(a: Path, b: Path) returns (ok: bool)
      requires Valid()
      modifies `tree, `calm
      ensures Valid()
      ensures ok ==> a in old(tree) && old(tree)[a].File? && b !in old(tree) && CanWrite(old(tree), b)
      ensures tree == if ok then old(tree)[b := old(tree)[a]] else old(tree)
      ensures calm ==>
                old(calm) && (ok <==> a in old(tree) && old(tree)[a].File? && b !in old(tree) && CanWrite(old(tree), b))
    {
      var fails := Fails();
      ok := !fails && a in tree && tree[a].File? && b !in tree && CanWrite(tree, b);
      if ok {
        tree := tree[b := tree[a]];
      }
    }

    /** Removes a file or an empty directory. */
    method Remove(p: Path) returns (ok: bool)
      requires Valid()
      modifies `tree, `calm
      ensures Valid()
      ensures ok ==> CanRemove(old(tree), p)
      ensures tree == if ok then old(tree) - {p} else old(tree)
      ensures calm ==> old(calm) && (ok <==> CanRemove(old(tree), p))
    {
      var fails := Fails();
      ok := !fails && CanRemove(tree, p);
      if ok {
        forall q | q in tree && q != [] && Parent(q) == p
          ensures q == p
        {
          assert Under(p, q);
        }
        tree := tree - {p};
      }
    }

    /** A failing call may have removed any part of the subtree. */
    method RemoveAll(p: Path) returns (ok: bool)
      requires Valid()
      modifies `tree, `calm
      ensures Valid() && Cut(old(tree), tree, p)
      ensures ok ==> forall q | q in tree :: !Under(p, q)
      ensures calm ==> old(calm) && (ok <==> p != [])
    {
      if p == [] {
        return false;
      }
      var fails := Fails();
      ok := !fails;
      if ok {
        ghost var t := tree;
        tree := map q | q in tree && !Under(p, q) :: tree[q];
        forall q | q in tree && q != []
          ensures Parent(q) in tree
        {
          if Under(p, Parent(q)) {
            UnderIsTransitive(p, Parent(q), q);
          }
        }
      } else {
        var left: FileTree := *;
        if WellFormed(left) && Cut(tree, left, p) {
          tree := left;
        }
      }
    }

    /** Makes an empty file, or empties the one that is there unless the call is exclusive. */
    method Create(p: Path, exclusive: bool) returns (ok: bool)
      requires Valid()
      modifies `tree, `calm
      ensures Valid()
      ensures ok ==> CanWrite(old(tree), p) && (exclusive ==> p !in old(tree))
      ensures tree == if ok then old(tree)[p := File([])] else old(tree)
      ensures calm ==> old(calm) && (ok <==> CanWrite(old(tree), p) && (exclusive ==> p !in old(tree)))
    {
      var fails := Fails();
      ok := !fails && CanWrite(tree, p) && (exclusive ==> p !in tree);
      if ok {
        tree := tree[p := File([])];
      }
    }

    /** Writes data at the end of a file; a failing call may have written a part of it. */
    method Append(p: Path, data: seq<byte>) returns (ok: bool)
      requires Valid() && p in tree && tree[p].File?
      modifies `tree, `calm
      ensures Valid() && p in tree && tree[p].File?
      ensures tree == old(tree)[p := tree[p]]
      ensures old(tree)[p].data <= tree[p].data <= old(tree)[p].data + data
      ensures ok ==> tree[p].data == old(tree)[p].data + data
      ensures calm ==> old(calm) && ok
    {
      var fails := Fails();
      ok := !fails;
      var n :| 0 <= n <= |data|;
      tree := tree[p := File(tree[p].data + if ok then data else data[..n])];
    }

    /** Writes from an offset of an open file; n bytes of the data were written. */
    method WriteAt(p: Path, at: nat, data: seq<byte>) returns (ok: bool, n: nat)
      requires Valid() && p in tree && tree[p].File?
      modifies `tree, `calm
      ensures Valid() && n <= |data| && (ok ==> n == |data|)
      ensures tree == old(tree)[p := File(Overwritten(old(tree)[p].data, at, data[..n]))]
      ensures ok ==> tree == old(tree)[p := File(Overwritten(old(tree)[p].data, at, data))]
      ensures calm ==> old(calm) && ok
    {
      var fails := Fails();
      n :| 0 <= n <= |data|;
      n := if fails then n else |data|;
      ok := n == |data|;
      assert data[..|data|] == data;
      tree := tree[p := File(Overwritten(tree[p].data, at, data[..n]))];
    }

    method Truncate(p: Path, n: nat) returns (ok: bool)
      requires Valid() && p in tree && tree[p].File?
      modifies `tree, `calm
      ensures Valid()
      ensures tree == if ok then old(tree)[p := File(Resized(old(tree)[p].data, n))] else old(tree)
      ensures calm ==> old(calm) && ok
    {
      var fails := Fails();
      ok := !fails;
      if ok {
        tree := tree[p := File(Resized(tree[p].data, n))];
      }
    }

    /** Makes or replaces a file; a failing call may leave a part of the data. */
    method WriteFile(p: Path, data: seq<byte>) returns (ok: bool)
      requires Valid()
      modifies `tree, `calm
      ensures Valid()
      ensures tree == old(tree) || (p in tree && tree[p].File?
                                 && CanWrite(old(tree), p) && tree == old(tree)[p := tree[p]])
      ensures ok ==> tree == old(tree)[p := File(data)]
      ensures calm ==> old(calm) && (ok <==> CanWrite(old(tree), p))
    {
      ok := Create(p, false);
      if !ok {
        return;
      }
      ghost var t := old(tree);
      ok := Append(p, data);
      assert [] + data == data;
      assert tree == t[p := tree[p]];
    }

    /** A copy-on-write copy; it never replaces anything. Not every file system has it. */
    method Clone(a: Path, b: Path) returns (ok: bool)
      requires Valid()
      modifies `tree, `calm
      ensures Valid()
      ensures ok ==> a in old(tree) && old(tree)[a].File? && b !in old(tree) && CanWrite(old(tree), b)
      ensures tree == if ok then old(tree)[b := old(tree)[a]] else old(tree)
      ensures calm == old(calm)
    {
      ok := *;
      ok := ok && a in tree && tree[a].File? && b !in tree && CanWrite(tree, b);
      if ok {
        tree := tree[b := tree[a]];
      }
    }
  }
}
