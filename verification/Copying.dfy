/** What a recursive copy must do to the file tree: the shown part of the source laid over the
    destination. The copying loop of the storage layer is proved against this in Storage.dfy. */
module Copying {
  import opened Common
  import opened Tree

  /** A copy of src to dst. Names that are `hidden` are not listed, and the entries in `skipped` were left
      out because their details could not be read. */
  datatype Plan = Plan(src: Path, dst: Path, hidden: string -> bool, skipped: set<Path>)

  predicate ShownAt(c: Plan, p: Path, k: nat)
    requires k < |p|
  {
    !c.hidden(p[k]) && p[..k + 1] !in c.skipped
  }

  /** p is at or below the source, and neither p nor anything between is hidden or skipped. The source
      itself is copied whatever its name. */
  predicate Taken(c: Plan, p: Path) {
    Under(c.src, p) && forall k | |c.src| <= k < |p| :: ShownAt(c, p, k)
  }

  predicate FromSource(t: FileTree, c: Plan, q: Path) {
    Under(c.dst, q) && Rebase(q, c.dst, c.src) in t && Taken(c, Rebase(q, c.dst, c.src))
  }

  /** From t to u: every taken entry of the source is at its place below the destination, and nothing
      else has changed but that directories above the destination were made. */
  ghost predicate Copied(t: FileTree, u: FileTree, c: Plan) {
    && (forall q | q in t :: q in u)
    && (forall q | FromSource(t, c, q) :: q in u && u[q] == t[Rebase(q, c.dst, c.src)])
    && (forall q | q in u && !FromSource(t, c, q) ::
          if q in t then u[q] == t[q] else u[q] == Dir && Under(q, c.dst))
  }

  predicate Unrelated(a: Path, b: Path) { !Under(a, b) && !Under(b, a) }

  /** What is written at the destination is not read again: the two places are unrelated, or the destination is
      above the source, and the source shows no child of the name that leads from the destination to it. */
  predicate Separate(t: FileTree, c: Plan) {
    || Unrelated(c.src, c.dst)
    || (!Under(c.src, c.dst) && |c.dst| < |c.src|
        && (c.hidden(c.src[|c.dst|]) || c.src + [c.src[|c.dst|]] !in t))
  }

  function SourceFiles(t: FileTree, c: Plan): set<Path> {
    set p | p in t && t[p].File? && Taken(c, p)
  }

  /** The number of bytes in a set of files. */
  ghost function Total(t: FileTree, files: set<Path>): nat
    requires forall p | p in files :: p in t && t[p].File?
  {
    if files == {} then 0
    else
      var p :| p in files;
      |t[p].data| + Total(t, files - {p})
  }

  lemma {:induction false} TotalOfOneMore(t: FileTree, files: set<Path>, p: Path)
    requires forall q | q in files :: q in t && t[q].File?
    requires p in files
    ensures Total(t, files) == |t[p].data| + Total(t, files - {p})
    decreases |files|
  {
    var q :| q in files && Total(t, files) == |t[q].data| + Total(t, files - {q});
    if q != p {
      TotalOfOneMore(t, files - {q}, p);
      TotalOfOneMore(t, files - {p}, q);
      assert files - {q} - {p} == files - {p} - {q};
    }
  }

  lemma {:induction false} TotalOfUnion(t: FileTree, a: set<Path>, b: set<Path>)
    requires forall q | q in a + b :: q in t && t[q].File?
    requires a !! b
    ensures Total(t, a + b) == Total(t, a) + Total(t, b)
    decreases |a|
  {
    if a == {} {
      assert a + b == b;
    } else {
      var p :| p in a;
      TotalOfOneMore(t, a, p);
      TotalOfOneMore(t, a + b, p);
      assert a + b - {p} == (a - {p}) + b;
      TotalOfUnion(t, a - {p}, b);
    }
  }

  lemma {:induction false} TotalUnchanged(t: FileTree, u: FileTree, files: set<Path>)
    requires forall q | q in files :: q in t && t[q].File? && q in u && u[q] == t[q]
    ensures Total(t, files) == Total(u, files)
    decreases |files|
  {
    if files != {} {
      var p :| p in files;
      TotalOfOneMore(t, files, p);
      TotalOfOneMore(u, files, p);
      TotalUnchanged(t, u, files - {p});
    }
  }

  // ---------------------------------------------------------------- one file

  /** Writing the content of a source file to the destination is a complete copy of it. */
  lemma FileIsCopied(t: FileTree, mid: FileTree, u: FileTree, c: Plan)
    requires WellFormed(t) && c.src in t && t[c.src].File? && c.dst != [] && c.skipped == {}
    requires Grown(t, mid, Parent(c.dst)) && u == mid[c.dst := t[c.src]]
    ensures Copied(t, u, c) && SourceFiles(t, c) == {c.src} && Total(t, {c.src}) == |t[c.src].data|
  {
    NothingBelow(t, c.src);
    TotalOfOneMore(t, {c.src}, c.src);
    assert {c.src} - {c.src} == {};
    forall q
      ensures FromSource(t, c, q) <==> q == c.dst
    {
      if FromSource(t, c, q) {
        assert q == Rebase(c.src, c.src, c.dst);
      }
      assert Rebase(c.dst, c.dst, c.src) == c.src;
    }
    forall q | q in mid && q !in t
      ensures Under(q, c.dst)
    {
      assert Under(Parent(c.dst), c.dst);
      UnderIsTransitive(q, Parent(c.dst), c.dst);
    }
  }

  // ---------------------------------------------------------------- one step of the loop over a directory

  function Child(c: Plan, name: string, skipped: set<Path>): Plan {
    Plan(c.src + [name], c.dst + [name], c.hidden, skipped)
  }

  lemma UnderChild(dir: Path, name: string, p: Path)
    ensures Under(dir + [name], p) <==> Under(dir, p) && |p| > |dir| && p[|dir|] == name
  {
    if Under(dir, p) && |p| > |dir| {
      assert p[..|dir| + 1] == p[..|dir|] + [p[|dir|]];
    }
    if Under(dir + [name], p) {
      assert p[..|dir|] == p[..|dir| + 1][..|dir|];
      assert p[|dir|] == p[..|dir| + 1][|dir|];
    }
  }

  lemma SamePlace(p: Path, q: Path)
    requires Under(p, q) && |p| >= |q|
    ensures p == q
  {
    assert q[..|q|] == q;
  }

  /** The test that a folder is not copied into itself never fires below the top. */
  lemma ChildrenAreApart(src: Path, dst: Path, name: string)
    ensures Unrelated(src, dst) ==> Unrelated(src + [name], dst + [name])
    ensures !Under(src, dst) ==> !Under(src + [name], dst + [name])
  {
    HeadsAreNested(src, dst, name);
    HeadsAreNested(dst, src, name);
  }

  lemma ShownChildIsApart(t: FileTree, c: Plan, name: string)
    requires Separate(t, c) && c.src + [name] in t && !c.hidden(name)
    ensures Unrelated(c.src + [name], c.dst + [name])
  {
    ChildrenAreApart(c.src, c.dst, name);
    if !Unrelated(c.src, c.dst) {
      UnderChild(c.dst, name, c.src + [name]);
      assert (c.src + [name])[|c.dst|] == c.src[|c.dst|];
    }
  }

  lemma HeadsAreNested(a: Path, b: Path, name: string)
    ensures Under(a + [name], b + [name]) ==> Under(a, b)
  {
    UnderChild(a, name, b + [name]);
    if Under(a, b + [name]) && |b| >= |a| {
      assert (b + [name])[..|a|] == b[..|a|];
    }
  }

  predicate IsChild(dir: Path, p: Path) { Under(dir, p) && |p| == |dir| + 1 }

  /** Making the destination directory copies the source directory, when all its entries are skipped. */
  lemma DirectoryIsCopied(t: FileTree, u: FileTree, c: Plan)
    requires WellFormed(t) && c.src in t && t[c.src] == Dir
    requires Grown(t, u, c.dst) && c.dst in u && u[c.dst] == Dir
    requires forall p | p in t && IsChild(c.src, p) :: c.hidden(p[|c.src|]) || p in c.skipped
    ensures Copied(t, u, c) && SourceFiles(t, c) == {}
  {
    OnlySourceIsTaken(t, c);
    assert Rebase(c.dst, c.dst, c.src) == c.src;
    forall q | FromSource(t, c, q)
      ensures q == c.dst
    {
      assert q == Rebase(c.src, c.src, c.dst);
    }
  }

  lemma OnlySourceIsTaken(t: FileTree, c: Plan)
    requires WellFormed(t)
    requires forall p | p in t && IsChild(c.src, p) :: c.hidden(p[|c.src|]) || p in c.skipped
    ensures forall p | p in t && Taken(c, p) :: p == c.src
  {
    forall p | p in t && Under(c.src, p) && p != c.src
      ensures !Taken(c, p)
    {
      FirstStep(t, c.src, p);
      assert Taken(c, p) ==> ShownAt(c, p, |c.src|);
    }
  }

  lemma FirstStep(t: FileTree, src: Path, p: Path)
    requires WellFormed(t) && p in t && Under(src, p) && p != src
    ensures |p| > |src| && p[..|src| + 1] in t && Under(src, p[..|src| + 1])
  {
    assert p[..|p|] == p;
    assert Under(p[..|src| + 1], p);
    assert p[..|src| + 1][..|src|] == p[..|src|];
    if |p| > |src| + 1 {
      AboveIsDir(t, p[..|src| + 1], p);
    }
  }

  /** Where a source entry below a listed child is concerned, the copy of the directory and the copy of
      the child agree; the rest of the directory does not depend on the child. */
  lemma TakenBelowChild(c: Plan, name: string, below: set<Path>, p: Path)
    requires !c.hidden(name) && Under(c.src + [name], p)
    requires forall s | s in c.skipped :: !Under(c.src + [name], s)
    requires forall s | s in below :: Under(c.src + [name], s) && s != c.src + [name]
    ensures Taken(c.(skipped := c.skipped + below), p) <==> Taken(Child(c, name, below), p)
  {
    UnderChild(c.src, name, p);
    var all := c.(skipped := c.skipped + below);
    forall k | |c.src| <= k < |p|
      ensures if k == |c.src| then ShownAt(all, p, k) else ShownAt(all, p, k) <==> ShownAt(Child(c, name, below), p, k)
    {
      UnderChild(c.src, name, p[..k + 1]);
      assert p[..k + 1][..|c.src|] == p[..|c.src|];
      if k == |c.src| {
        SamePlace(p[..k + 1], c.src + [name]);
      }
    }
  }

  lemma TakenElsewhere(c: Plan, name: string, below: set<Path>, p: Path)
    requires Under(c.src, p) && !Under(c.src + [name], p)
    requires forall s | s in below :: Under(c.src + [name], s)
    ensures Taken(c.(skipped := c.skipped + below), p) <==> Taken(c.(skipped := c.skipped + {c.src + [name]}), p)
  {
    forall k | |c.src| <= k < |p|
      ensures ShownAt(c.(skipped := c.skipped + below), p, k)
              <==> ShownAt(c.(skipped := c.skipped + {c.src + [name]}), p, k)
    {
      UnderChild(c.src, name, p[..k + 1]);
      UnderChild(c.src, name, p);
      assert p[..k + 1][..|c.src|] == p[..|c.src|];
    }
  }

  lemma SkippedIsNotTaken(c: Plan, s: Path, p: Path)
    requires s in c.skipped && Under(c.src, s) && s != c.src && Under(s, p)
    ensures !Taken(c, p)
  {
    if |s| <= |c.src| {
      SamePlace(c.src, s);
    }
    assert p[..|s| - 1 + 1] == s;
    assert Taken(c, p) ==> ShownAt(c, p, |s| - 1);
  }

  /** t is the tree before the directory is copied, mid the tree when all but the child `name` and some
      others have been, u the tree after the child has been. */
  ghost predicate ChildStep(t: FileTree, mid: FileTree, u: FileTree, c: Plan, name: string, below: set<Path>) {
    && WellFormed(t) && WellFormed(mid) && Separate(t, c)
    && c.src + [name] in t && !c.hidden(name) && c.dst in mid
    && (forall s | s in c.skipped :: !Under(c.src + [name], s))
    && (forall s | s in below :: Under(c.src + [name], s) && s != c.src + [name])
    && Copied(t, mid, c.(skipped := c.skipped + {c.src + [name]}))
    && Copied(mid, u, Child(c, name, below))
  }

  lemma SourceIsUntouched(t: FileTree, mid: FileTree, c: Plan, p: Path)
    requires WellFormed(t) && Separate(t, c) && Copied(t, mid, c) && Under(c.src, p)
    ensures p in t <==> p in mid
    ensures p in t ==> mid[p] == t[p]
  {
    if Under(c.dst, p) {
      if |c.src| <= |c.dst| {
        AboveAreNested(c.src, c.dst, p);
      } else {
        AboveAreNested(c.dst, c.src, p);
        NotDrawnAgain(t, c, p);
      }
    }
    if Under(p, c.dst) {
      UnderIsTransitive(c.src, p, c.dst);
    }
  }

  lemma NotDrawnAgain(t: FileTree, c: Plan, p: Path)
    requires WellFormed(t) && Separate(t, c) && Under(c.dst, c.src) && Under(c.src, p)
    ensures Under(c.dst, p) && !FromSource(t, c, p)
  {
    UnderIsTransitive(c.dst, c.src, p);
    var name, q := c.src[|c.dst|], Rebase(p, c.dst, c.src);
    assert p[|c.dst|] == name;
    UnderChild(c.src, name, q);
    if q in t && Taken(c, q) {
      assert ShownAt(c, q, |c.src|);
      AboveDirIsThere(t, c.src + [name], q);
      assert false;
    }
  }

  lemma RebaseBelowChild(c: Plan, name: string, q: Path)
    requires Under(c.dst + [name], q)
    ensures Under(c.dst, q) && Under(c.src + [name], Rebase(q, c.dst, c.src))
    ensures Rebase(q, c.dst, c.src) == Rebase(q, c.dst + [name], c.src + [name])
  {
    UnderChild(c.dst, name, q);
    assert q[|c.dst|..] == [name] + q[|c.dst| + 1..];
  }

  lemma RebaseElsewhere(c: Plan, name: string, q: Path)
    requires Under(c.dst, q) && !Under(c.dst + [name], q)
    ensures Under(c.src, Rebase(q, c.dst, c.src)) && !Under(c.src + [name], Rebase(q, c.dst, c.src))
  {
    UnderChild(c.dst, name, q);
    UnderChild(c.src, name, Rebase(q, c.dst, c.src));
  }

  /** How one entry comes out of a step: below the child it comes from the child, elsewhere it was there. */
  lemma SourceBelowChild(t: FileTree, mid: FileTree, c: Plan, name: string, below: set<Path>, q: Path)
    requires Under(c.dst + [name], q) && Under(c.dst, q) && !c.hidden(name)
    requires forall s | s in c.skipped :: !Under(c.src + [name], s)
    requires forall s | s in below :: Under(c.src + [name], s) && s != c.src + [name]
    requires Rebase(q, c.dst, c.src) in t <==> Rebase(q, c.dst, c.src) in mid
    ensures FromSource(t, c.(skipped := c.skipped + below), q) <==> FromSource(mid, Child(c, name, below), q)
  {
    RebaseBelowChild(c, name, q);
    TakenBelowChild(c, name, below, Rebase(q, c.dst, c.src));
  }

  lemma NotYetFromSource(t: FileTree, c: Plan, name: string, q: Path)
    requires Under(c.dst + [name], q)
    ensures !FromSource(t, c.(skipped := c.skipped + {c.src + [name]}), q)
  {
    RebaseBelowChild(c, name, q);
    UnderChild(c.src, name, c.src + [name]);
    SkippedIsNotTaken(c.(skipped := c.skipped + {c.src + [name]}), c.src + [name], Rebase(q, c.dst, c.src));
  }

  lemma SourceElsewhere(t: FileTree, c: Plan, name: string, below: set<Path>, q: Path)
    requires forall s | s in below :: Under(c.src + [name], s) && s != c.src + [name]
    requires !Under(c.dst + [name], q)
    ensures FromSource(t, c.(skipped := c.skipped + below), q)
            <==> FromSource(t, c.(skipped := c.skipped + {c.src + [name]}), q)
  {
    if Under(c.dst, q) {
      RebaseElsewhere(c, name, q);
      TakenElsewhere(c, name, below, Rebase(q, c.dst, c.src));
    }
  }

  /** Entry q of u is what the copy c of t makes of it. */
  ghost predicate EntryCopied(t: FileTree, u: FileTree, c: Plan, q: Path) {
    && (q in t ==> q in u)
    && (FromSource(t, c, q) ==> q in u && u[q] == t[Rebase(q, c.dst, c.src)])
    && (q in u && !FromSource(t, c, q) ==> if q in t then u[q] == t[q] else u[q] == Dir && Under(q, c.dst))
  }

  lemma EntryBelowChild(t: FileTree, mid: FileTree, u: FileTree, c: Plan, name: string, below: set<Path>, q: Path)
    requires ChildStep(t, mid, u, c, name, below) && Under(c.dst + [name], q)
    ensures EntryCopied(t, u, c.(skipped := c.skipped + below), q)
  {
    var child, d := Child(c, name, below), c.(skipped := c.skipped + {c.src + [name]});
    RebaseBelowChild(c, name, q);
    SourceIsUntouched(t, mid, d, Rebase(q, c.dst, c.src));
    SourceBelowChild(t, mid, c, name, below, q);
    NotYetFromSource(t, c, name, q);
    assert q in mid ==> (if q in t then mid[q] == t[q] else |q| <= |c.dst|);
    if Under(q, child.dst) {
      SamePlace(child.dst, q);
      assert Rebase(q, child.dst, child.src) == child.src;
      SourceIsUntouched(t, mid, d, child.src);
    }
  }

  lemma EntryElsewhere(t: FileTree, mid: FileTree, u: FileTree, c: Plan, name: string, below: set<Path>, q: Path)
    requires ChildStep(t, mid, u, c, name, below) && !Under(c.dst + [name], q)
    ensures EntryCopied(t, u, c.(skipped := c.skipped + below), q)
  {
    var child := Child(c, name, below);
    SourceElsewhere(t, c, name, below, q);
    assert !FromSource(mid, child, q);
    if Under(q, child.dst) {
      AboveChildIsThere(mid, c.dst, name, q);
    }
  }

  lemma AboveChildIsThere(t: FileTree, dir: Path, name: string, q: Path)
    requires WellFormed(t) && dir in t && Under(q, dir + [name]) && !Under(dir + [name], q)
    ensures q in t
  {
    assert |q| <= |dir| by {
      if |q| == |dir| + 1 {
        SamePlace(q, dir + [name]);
      }
    }
    assert (dir + [name])[..|q|] == dir[..|q|];
    AboveDirIsThere(t, q, dir);
  }

  lemma AboveDirIsThere(t: FileTree, q: Path, p: Path)
    requires WellFormed(t) && p in t && Under(q, p)
    ensures q in t
  {
    assert p[..|p|] == p;
    if q != p {
      AboveIsDir(t, q, p);
    }
  }

  lemma CopiedByEntry(t: FileTree, u: FileTree, c: Plan)
    ensures Copied(t, u, c) <==> forall q :: EntryCopied(t, u, c, q)
  {
    if Copied(t, u, c) {
      forall q
        ensures EntryCopied(t, u, c, q)
      {}
    }
    if forall q :: EntryCopied(t, u, c, q) {
      forall q
        ensures q in t ==> q in u
        ensures FromSource(t, c, q) ==> q in u && u[q] == t[Rebase(q, c.dst, c.src)]
        ensures q in u && !FromSource(t, c, q) ==> if q in t then u[q] == t[q] else u[q] == Dir && Under(q, c.dst)
      {
        assert EntryCopied(t, u, c, q);
      }
    }
  }

  /** Copying one more child: it is no longer among the skipped. */
  lemma ChildIsCopied(t: FileTree, mid: FileTree, u: FileTree, c: Plan, name: string, below: set<Path>)
    requires ChildStep(t, mid, u, c, name, below)
    ensures Copied(t, u, c.(skipped := c.skipped + below))
  {
    var all := c.(skipped := c.skipped + below);
    forall q
      ensures EntryCopied(t, u, all, q)
    {
      if Under(c.dst + [name], q) {
        EntryBelowChild(t, mid, u, c, name, below, q);
      } else {
        EntryElsewhere(t, mid, u, c, name, below, q);
      }
    }
    CopiedByEntry(t, u, all);
  }

  /** The counts of a directory are the sums of the counts of its children. */
  lemma ChildIsCounted(t: FileTree, mid: FileTree, u: FileTree, c: Plan, name: string, below: set<Path>)
    requires ChildStep(t, mid, u, c, name, below)
    ensures var before, child, after := SourceFiles(t, c.(skipped := c.skipped + {c.src + [name]})),
                                        SourceFiles(mid, Child(c, name, below)),
                                        SourceFiles(t, c.(skipped := c.skipped + below));
            |after| == |before| + |child| && Total(t, after) == Total(t, before) + Total(mid, child)
  {
    var before := SourceFiles(t, c.(skipped := c.skipped + {c.src + [name]}));
    var child := SourceFiles(mid, Child(c, name, below));
    var after := SourceFiles(t, c.(skipped := c.skipped + below));
    forall p
      ensures p in child ==> p in t && t[p] == mid[p]
      ensures p in after <==> p in before || p in child
      ensures !(p in before && p in child)
    {
      FileIsBelowOne(t, mid, u, c, name, below, p);
    }
    assert after == before + child;
    TotalOfUnion(t, before, child);
    TotalUnchanged(t, mid, child);
  }

  lemma FileIsBelowOne(t: FileTree, mid: FileTree, u: FileTree, c: Plan, name: string, below: set<Path>, p: Path)
    requires ChildStep(t, mid, u, c, name, below)
    ensures var before, child, after := SourceFiles(t, c.(skipped := c.skipped + {c.src + [name]})),
                                        SourceFiles(mid, Child(c, name, below)),
                                        SourceFiles(t, c.(skipped := c.skipped + below));
            && (p in child ==> p in t && t[p] == mid[p])
            && (p in after <==> p in before || p in child)
            && !(p in before && p in child)
  {
    var childSrc := c.src + [name];
    var d := c.(skipped := c.skipped + {childSrc});
    UnderChild(c.src, name, p);
    if Under(childSrc, p) {
      UnderChild(c.src, name, childSrc);
      SourceIsUntouched(t, mid, d, p);
      TakenBelowChild(c, name, below, p);
      SkippedIsNotTaken(d, childSrc, p);
    } else if Under(c.src, p) {
      TakenElsewhere(c, name, below, p);
    }
  }

  // ---------------------------------------------------------------- the loop over a directory

  predicate Distinct(names: seq<string>) { forall j, k | 0 <= j < k < |names| :: names[j] != names[k] }

  /** What a listing of a directory promises: every shown entry once, but for the unread ones. */
  ghost predicate Listing(t: FileTree, dir: Path, hidden: string -> bool, names: seq<string>, unread: set<Path>) {
    && Distinct(names)
    && (forall n | n in names :: dir + [n] in t && !hidden(n))
    && (forall s | s in unread :: s in t && IsChild(dir, s) && !hidden(s[|dir|]) && s[|dir|] !in names)
    && (forall s | s in t && IsChild(dir, s) :: hidden(s[|dir|]) || s[|dir|] in names || s in unread)
  }

  /** The children still to be copied. */
  function Pending(src: Path, names: seq<string>, i: nat): set<Path> {
    set j | i <= j < |names| :: src + [names[j]]
  }

  /** The copy has been made, and counted. */
  ghost predicate Counted(t: FileTree, u: FileTree, c: Plan, files: nat, bytes: nat) {
    Copied(t, u, c) && files == |SourceFiles(t, c)| && bytes == Total(t, SourceFiles(t, c))
  }

  /** The copy has been made of all but the pending children. */
  ghost predicate Progress(t: FileTree, u: FileTree, c: Plan, names: seq<string>, i: nat, files: nat, bytes: nat) {
    Counted(t, u, c.(skipped := c.skipped + Pending(c.src, names, i)), files, bytes)
  }

  /** Only entries that should have been listed were skipped. */
  ghost predicate SkippedOnlyShown(t: FileTree, c: Plan) {
    forall s | s in c.skipped :: s in t && s != c.src && Taken(c.(skipped := {}), s)
  }

  /** Nothing at or below a pending child has been skipped. */
  predicate NoneSkippedBelow(c: Plan, names: seq<string>, i: nat) {
    i <= |names| && forall s | s in c.skipped :: Under(c.src, s) && |s| > |c.src| && s[|c.src|] !in names[i..]
  }

  lemma NewInSourceIsOld(t: FileTree, u: FileTree, src: Path, dst: Path, p: Path)
    requires Grown(t, u, dst) && !Under(src, dst) && Under(src, p)
    ensures p in u <==> p in t
  {
    if Under(p, dst) {
      UnderIsTransitive(src, p, dst);
    }
  }

  lemma EveryChildIsOut(t: FileTree, u: FileTree, c: Plan, names: seq<string>, p: Path)
    requires p in t && IsChild(c.src, p) && p in u
    requires Listing(u, c.src, c.hidden, names, c.skipped)
    ensures c.hidden(p[|c.src|]) || p in c.skipped + Pending(c.src, names, 0)
  {
    if p[|c.src|] in names {
      var j :| 0 <= j < |names| && names[j] == p[|c.src|];
      UnderChild(c.src, names[j], p);
      SamePlace(c.src + [names[j]], p);
    }
  }

  lemma UnreadAreShown(t: FileTree, u: FileTree, c: Plan, names: seq<string>)
    requires Grown(t, u, c.dst) && !Under(c.src, c.dst)
    requires Listing(u, c.src, c.hidden, names, c.skipped)
    ensures SkippedOnlyShown(t, c) && NoneSkippedBelow(c, names, 0)
  {
    forall s | s in c.skipped
      ensures s in t && s != c.src && Taken(c.(skipped := {}), s)
    {
      NewInSourceIsOld(t, u, c.src, c.dst, s);
      assert ShownAt(c.(skipped := {}), s, |c.src|);
    }
    assert names[0..] == names;
  }

  lemma LoopStarts(t: FileTree, u: FileTree, c: Plan, names: seq<string>)
    requires WellFormed(t) && c.src in t && t[c.src] == Dir && Separate(t, c)
    requires Grown(t, u, c.dst) && c.dst in u && u[c.dst] == Dir
    requires Listing(u, c.src, c.hidden, names, c.skipped)
    ensures Progress(t, u, c, names, 0, 0, 0)
    ensures SkippedOnlyShown(t, c) && NoneSkippedBelow(c, names, 0)
  {
    UnreadAreShown(t, u, c, names);
    forall p | p in t && IsChild(c.src, p)
      ensures c.hidden(p[|c.src|]) || p in c.skipped + Pending(c.src, names, 0)
    {
      EveryChildIsOut(t, u, c, names, p);
    }
    NothingYet(t, u, c.(skipped := c.skipped + Pending(c.src, names, 0)));
  }

  lemma NothingYet(t: FileTree, u: FileTree, c: Plan)
    requires WellFormed(t) && c.src in t && t[c.src] == Dir
    requires Grown(t, u, c.dst) && c.dst in u && u[c.dst] == Dir
    requires forall p | p in t && IsChild(c.src, p) :: c.hidden(p[|c.src|]) || p in c.skipped
    ensures Counted(t, u, c, 0, 0)
  {
    DirectoryIsCopied(t, u, c);
    assert Total(t, {}) == 0;
  }

  lemma PendingShrinks(src: Path, names: seq<string>, i: nat)
    requires i < |names|
    ensures Pending(src, names, i) == Pending(src, names, i + 1) + {src + [names[i]]}
  {
    forall s | s in Pending(src, names, i)
      ensures s in Pending(src, names, i + 1) + {src + [names[i]]}
    {
      var j :| i <= j < |names| && s == src + [names[j]];
    }
  }

  lemma NotBelowNext(c: Plan, names: seq<string>, i: nat)
    requires i < |names| && Distinct(names) && NoneSkippedBelow(c, names, i)
    ensures forall s | s in c.skipped + Pending(c.src, names, i + 1) :: !Under(c.src + [names[i]], s)
  {
    assert names[i..][0] == names[i];
    forall s | s in c.skipped
      ensures !Under(c.src + [names[i]], s)
    {
      UnderChild(c.src, names[i], s);
    }
    forall j | i + 1 <= j < |names|
      ensures !Under(c.src + [names[i]], c.src + [names[j]])
    {
      UnderChild(c.src, names[i], c.src + [names[j]]);
    }
  }

  lemma StillNoneBelow(c: Plan, names: seq<string>, i: nat, below: set<Path>)
    requires i < |names| && Distinct(names) && NoneSkippedBelow(c, names, i)
    requires forall s | s in below :: Under(c.src + [names[i]], s)
    ensures NoneSkippedBelow(c.(skipped := c.skipped + below), names, i + 1)
  {
    forall s | s in c.skipped + below
      ensures Under(c.src, s) && |s| > |c.src| && s[|c.src|] !in names[i + 1..]
    {
      if s in below {
        UnderChild(c.src, names[i], s);
      } else {
        assert names[i + 1..] == names[i..][1..];
      }
    }
  }

  lemma StillOnlyShown(t: FileTree, mid: FileTree, c: Plan, d: Plan, name: string, below: set<Path>)
    requires SkippedOnlyShown(t, c) && SkippedOnlyShown(mid, Child(c, name, below)) && !c.hidden(name)
    requires WellFormed(t) && Separate(t, d) && d == c.(skipped := d.skipped) && Copied(t, mid, d)
    ensures SkippedOnlyShown(t, c.(skipped := c.skipped + below))
    ensures forall s | s in below :: Under(c.src + [name], s) && s != c.src + [name]
  {
    var bare := c.(skipped := {});
    forall s | s in below
      ensures s in t && s != c.src && Taken(bare, s) && Under(c.src + [name], s) && s != c.src + [name]
    {
      assert Taken(Child(c, name, {}), s);
      UnderChild(c.src, name, s);
      TakenBelowChild(bare, name, {}, s);
      assert bare.(skipped := bare.skipped + {}) == bare;
      assert Child(bare, name, {}) == Child(c, name, {});
      SourceIsUntouched(t, mid, d, s);
    }
  }

  lemma StepIsCounted(t: FileTree, mid: FileTree, u: FileTree, c: Plan, name: string, below: set<Path>,
                      files: nat, bytes: nat, childFiles: nat, childBytes: nat)
    requires ChildStep(t, mid, u, c, name, below)
    requires Counted(t, mid, c.(skipped := c.skipped + {c.src + [name]}), files, bytes)
    requires Counted(mid, u, Child(c, name, below), childFiles, childBytes)
    ensures Counted(t, u, c.(skipped := c.skipped + below), files + childFiles, bytes + childBytes)
  {
    ChildIsCopied(t, mid, u, c, name, below);
    ChildIsCounted(t, mid, u, c, name, below);
  }

  lemma ChildWasThere(t: FileTree, mid: FileTree, c: Plan, names: seq<string>, i: nat, name: string,
                      files: nat, bytes: nat)
    requires WellFormed(t) && Separate(t, c) && Progress(t, mid, c, names, i, files, bytes) && c.src + [name] in mid
    ensures c.src + [name] in t
  {
    UnderChild(c.src, name, c.src + [name]);
    SourceIsUntouched(t, mid, c.(skipped := c.skipped + Pending(c.src, names, i)), c.src + [name]);
  }

  /** The plan in which all later children are still out, but not the next one. */
  function After(c: Plan, names: seq<string>, i: nat): Plan {
    c.(skipped := c.skipped + Pending(c.src, names, i + 1))
  }

  lemma NextIsPending(t: FileTree, mid: FileTree, c: Plan, names: seq<string>, i: nat, files: nat, bytes: nat)
    requires i < |names| && Progress(t, mid, c, names, i, files, bytes)
    ensures var d := After(c, names, i);
            Counted(t, mid, d.(skipped := d.skipped + {c.src + [names[i]]}), files, bytes)
  {
    var d := After(c, names, i);
    PendingShrinks(c.src, names, i);
    assert c.skipped + Pending(c.src, names, i) == d.skipped + {c.src + [names[i]]};
    assert c.(skipped := c.skipped + Pending(c.src, names, i)) == d.(skipped := d.skipped + {c.src + [names[i]]});
  }

  lemma NextIsDone(t: FileTree, u: FileTree, c: Plan, names: seq<string>, i: nat, below: set<Path>,
                   files: nat, bytes: nat)
    requires i < |names|
    requires var d := After(c, names, i);
             Counted(t, u, d.(skipped := d.skipped + below), files, bytes)
    ensures Progress(t, u, c.(skipped := c.skipped + below), names, i + 1, files, bytes)
  {
    var d, e := After(c, names, i), c.(skipped := c.skipped + below);
    assert d.skipped + below == e.skipped + Pending(c.src, names, i + 1);
    assert d.(skipped := d.skipped + below) == e.(skipped := e.skipped + Pending(e.src, names, i + 1));
  }

  /** One more child has been copied, and its counts added. */
  lemma LoopContinues(t: FileTree, mid: FileTree, u: FileTree, c: Plan, names: seq<string>, i: nat, below: set<Path>,
                      files: nat, bytes: nat, childFiles: nat, childBytes: nat)
    requires WellFormed(t) && WellFormed(mid) && Separate(t, c) && c.dst in mid
    requires i < |names| && Distinct(names) && c.src + [names[i]] in t && !c.hidden(names[i])
    requires SkippedOnlyShown(t, c) && NoneSkippedBelow(c, names, i) && Progress(t, mid, c, names, i, files, bytes)
    requires SkippedOnlyShown(mid, Child(c, names[i], below))
    requires Counted(mid, u, Child(c, names[i], below), childFiles, childBytes)
    ensures Progress(t, u, c.(skipped := c.skipped + below), names, i + 1, files + childFiles, bytes + childBytes)
  {
    var name, d := names[i], After(c, names, i);
    NextIsPending(t, mid, c, names, i, files, bytes);
    NotBelowNext(c, names, i);
    StillOnlyShown(t, mid, c, d.(skipped := d.skipped + {c.src + [name]}), name, below);
    assert Child(d, name, below) == Child(c, name, below);
    assert ChildStep(t, mid, u, d, name, below);
    StepIsCounted(t, mid, u, d, name, below, files, bytes, childFiles, childBytes);
    NextIsDone(t, u, c, names, i, below, files + childFiles, bytes + childBytes);
  }

  /** And only entries that should have been listed are skipped still. */
  lemma SkippedContinues(t: FileTree, mid: FileTree, c: Plan, names: seq<string>, i: nat, below: set<Path>,
                         files: nat, bytes: nat)
    requires WellFormed(t) && Separate(t, c) && i < |names| && Distinct(names) && !c.hidden(names[i])
    requires SkippedOnlyShown(t, c) && NoneSkippedBelow(c, names, i) && Progress(t, mid, c, names, i, files, bytes)
    requires SkippedOnlyShown(mid, Child(c, names[i], below))
    ensures SkippedOnlyShown(t, c.(skipped := c.skipped + below))
    ensures NoneSkippedBelow(c.(skipped := c.skipped + below), names, i + 1)
  {
    var d := After(c, names, i);
    NextIsPending(t, mid, c, names, i, files, bytes);
    StillOnlyShown(t, mid, c, d.(skipped := d.skipped + {c.src + [names[i]]}), names[i], below);
    StillNoneBelow(c, names, i, below);
  }

  /** Nothing stands in the way of a copy to a separate place: directories can be made there, and what is there
      already may be overwritten and is of the same kind as what is copied over it. */
  predicate Fits(t: FileTree, c: Plan, overwrite: bool) {
    && c.src in t && c.dst != [] && Separate(t, c)
    && Makeable(t, if t[c.src].Dir? then c.dst else Parent(c.dst))
    && (forall q | q in t && FromSource(t, c, q) :: overwrite && t[q].Dir? == t[Rebase(q, c.dst, c.src)].Dir?)
  }

  lemma DestinationFits(t: FileTree, c: Plan, overwrite: bool)
    requires Fits(t, c, overwrite)
    ensures c.dst in t ==> overwrite && t[c.dst].Dir? == t[c.src].Dir?
  {
    assert Rebase(c.dst, c.dst, c.src) == c.src;
    assert FromSource(t, c, c.dst);
  }

  /** When nothing stands in the way of the copy of a folder, nothing stands in the way of the next child. */
  lemma ChildFits(t: FileTree, mid: FileTree, c: Plan, names: seq<string>, i: nat, files: nat, bytes: nat,
                  overwrite: bool)
    requires WellFormed(t) && WellFormed(mid) && i < |names| && c.skipped == {} && !c.hidden(names[i])
    requires Fits(t, c, overwrite) && t[c.src] == Dir && c.src + [names[i]] in mid
    requires Progress(t, mid, c, names, i, files, bytes)
    ensures Fits(mid, Child(c, names[i], {}), overwrite)
  {
    var name := names[i];
    var d := c.(skipped := c.skipped + Pending(c.src, names, i));
    ChildWasThere(t, mid, c, names, i, name, files, bytes);
    ShownChildIsApart(t, c, name);
    assert mid[c.dst] == Dir by {
      assert Rebase(c.dst, c.dst, c.src) == c.src;
      assert FromSource(t, d, c.dst);
    }
    forall q | q in mid && FromSource(mid, Child(c, name, {}), q)
      ensures overwrite && mid[q].Dir? == mid[Rebase(q, c.dst + [name], c.src + [name])].Dir?
    {
      ChildPlaceFits(t, mid, c, d, name, overwrite, q);
    }
    BelowDirFits(mid, c.dst, name);
    var e := Child(c, name, {});
    assert e.dst in mid ==> mid[e.dst].Dir? == mid[e.src].Dir? by {
      assert Rebase(e.dst, e.dst, e.src) == e.src;
      assert FromSource(mid, e, e.dst);
    }
  }

  lemma BelowDirFits(t: FileTree, dir: Path, name: string)
    requires WellFormed(t) && dir in t && t[dir] == Dir
    ensures Makeable(t, Parent(dir + [name]))
    ensures (dir + [name] in t ==> t[dir + [name]] == Dir) ==> Makeable(t, dir + [name])
  {
    assert Parent(dir + [name]) == dir;
    forall k | 0 <= k <= |dir| && dir[..k] in t
      ensures t[dir[..k]] == Dir
    {
      if dir[..k] != dir {
        AboveIsDir(t, dir[..k], dir);
      }
    }
    assert dir == (dir + [name])[..|dir|];
    MakeableNext(t, dir + [name], |dir|);
    assert (dir + [name])[..|dir| + 1] == dir + [name];
  }

  /** What is at the place of an entry below a pending child was there before the copy began. */
  lemma ChildPlaceFits(t: FileTree, mid: FileTree, c: Plan, d: Plan, name: string, overwrite: bool, q: Path)
    requires WellFormed(t) && Fits(t, c, overwrite) && c.skipped == {} && !c.hidden(name)
    requires d == c.(skipped := d.skipped) && c.src + [name] in d.skipped && Copied(t, mid, d)
    requires q in mid && FromSource(mid, Child(c, name, {}), q)
    ensures overwrite && mid[q].Dir? == mid[Rebase(q, c.dst + [name], c.src + [name])].Dir?
  {
    var p := Rebase(q, c.dst, c.src);
    RebaseBelowChild(c, name, q);
    UnderChild(c.src, name, p);
    SourceIsUntouched(t, mid, d, p);
    TakenBelowChild(c, name, {}, p);
    assert c.(skipped := c.skipped + {}) == c;
    assert FromSource(t, c, q);
    UnderChild(c.src, name, c.src + [name]);
    SkippedIsNotTaken(d, c.src + [name], p);
    UnderChild(c.dst, name, q);
    if q !in t {
      SamePlace(q, c.dst);
      assert false;
    }
  }

  lemma LoopEnds(t: FileTree, u: FileTree, c: Plan, names: seq<string>, files: nat, bytes: nat)
    requires Progress(t, u, c, names, |names|, files, bytes)
    ensures Counted(t, u, c, files, bytes)
  {
    assert Pending(c.src, names, |names|) == {};
    assert c.(skipped := c.skipped + {}) == c;
  }

  // ---------------------------------------------------------------- what a finished copy means

  /** Copied to a place where nothing was, the destination is the source with every hidden entry below the
      top cut away, and every entry that was skipped. */
  lemma FreshCopyIsPrunedSource(t: FileTree, u: FileTree, c: Plan)
    requires WellFormed(t) && c.src in t && c.dst !in t && Copied(t, u, c)
    ensures forall p :: Under(c.src, p) ==>
              (Rebase(p, c.src, c.dst) in u <==> p in t && Taken(c, p))
              && (p in t && Taken(c, p) ==> u[Rebase(p, c.src, c.dst)] == t[p])
  {
    forall p | Under(c.src, p)
      ensures Rebase(p, c.src, c.dst) in u <==> p in t && Taken(c, p)
      ensures p in t && Taken(c, p) ==> u[Rebase(p, c.src, c.dst)] == t[p]
    {
      var q := Rebase(p, c.src, c.dst);
      assert Rebase(q, c.dst, c.src) == p;
      NewIsFromSource(t, u, c, q);
    }
  }

  lemma NewIsFromSource(t: FileTree, u: FileTree, c: Plan, q: Path)
    requires WellFormed(t) && c.src in t && c.dst !in t && Copied(t, u, c) && Under(c.dst, q)
    ensures q in u <==> FromSource(t, c, q)
    ensures FromSource(t, c, q) ==> u[q] == t[Rebase(q, c.dst, c.src)]
  {
    NothingBelow(t, c.dst);
    assert q !in t;
    if Under(q, c.dst) {
      SamePlace(c.dst, q);
      assert Rebase(q, c.dst, c.src) == c.src;
    }
  }

  /** Every entry outside the destination is as it was, the source too; the only other new entries are
      directories above the destination. */
  lemma CopyChangesNothingElse(t: FileTree, u: FileTree, c: Plan)
    requires WellFormed(t) && Separate(t, c) && Copied(t, u, c)
    ensures forall p | Under(c.src, p) :: (p in t <==> p in u) && (p in t ==> u[p] == t[p])
    ensures forall p | !Under(c.dst, p) && p in t :: p in u && u[p] == t[p]
    ensures forall p | !Under(c.dst, p) && p in u && p !in t :: u[p] == Dir && Under(p, c.dst)
  {
    forall p | Under(c.src, p)
      ensures (p in t <==> p in u) && (p in t ==> u[p] == t[p])
    {
      SourceIsUntouched(t, u, c, p);
    }
  }

  /** A copy is complete exactly when no entry that should be listed was skipped. */
  lemma CopyIsCompleteIff(t: FileTree, u: FileTree, c: Plan)
    requires WellFormed(t) && c.src in t && c.dst !in t && Copied(t, u, c)
    requires SkippedOnlyShown(t, c)
    ensures c.skipped == {} <==>
            forall p | p in t && Taken(c.(skipped := {}), p) ::
              Rebase(p, c.src, c.dst) in u && u[Rebase(p, c.src, c.dst)] == t[p]
  {
    FreshCopyIsPrunedSource(t, u, c);
    if c.skipped == {} {
      assert c == c.(skipped := {});
    } else {
      var s :| s in c.skipped;
      assert s[..|s|] == s;
      SkippedIsNotTaken(c, s, s);
      assert Rebase(s, c.src, c.dst) !in u;
    }
  }

  // ---------------------------------------------------------------- copies that read what they wrote

  /** The place that q is copied from, j copies down. When the destination is above the source, what is copied
      to the source's own place can be copied again. */
  function Down(c: Plan, q: Path, j: nat): Path
    decreases j
  {
    if j == 0 || !Under(c.dst, q) then q else Down(c, Rebase(q, c.dst, c.src), j - 1)
  }

  predicate ShownName(c: Plan, q: Path) {
    Under(c.dst, q) && forall k | |c.dst| <= k < |q| :: !c.hidden(q[k])
  }

  /** It is in t, and u has at q what t has there. */
  predicate DrawnFrom(t: FileTree, u: FileTree, c: Plan, q: Path, j: nat)
    requires q in u
  {
    j > 0 && ShownName(c, q) && Down(c, q, j) in t && u[q] == t[Down(c, q, j)]
  }

  ghost predicate EntryDrawn(t: FileTree, u: FileTree, c: Plan, q: Path)
    requires q in u
  {
    || (q in t && u[q] == t[q])
    || (Under(q, c.dst) && q != c.dst && u[q] == Dir)
    || exists j: nat :: DrawnFrom(t, u, c, q, j)
  }

  /** Every entry is an old one: of its own place or of one that is drawn from. Only directories above the
      destination are made from nothing. */
  ghost predicate Drawn(t: FileTree, u: FileTree, c: Plan) {
    forall q | q in u :: EntryDrawn(t, u, c, q)
  }

  /** Every taken entry of the source has one of its kind at its place. */
  ghost predicate Filled(t: FileTree, u: FileTree, c: Plan) {
    forall p | p in t && Taken(c, p) :: Rebase(p, c.src, c.dst) in u && (u[Rebase(p, c.src, c.dst)].Dir? <==> t[p].Dir?)
  }

  /** Nothing is removed or turned from a file into a folder or back. */
  ghost predicate KindsKept(t: FileTree, u: FileTree) {
    forall q | q in t :: q in u && (u[q].Dir? <==> t[q].Dir?)
  }

  /** Only names that listings show were skipped. */
  predicate SkipsShown(c: Plan) {
    forall s | s in c.skipped :: Under(c.src, s) && |s| > |c.src| && !c.hidden(s[|s| - 1])
  }

  ghost predicate Traced(t: FileTree, u: FileTree, c: Plan) {
    Drawn(t, u, c) && Filled(t, u, c) && SkipsShown(c)
  }

  /** All but the pending children have been copied. */
  ghost predicate TracedSoFar(t: FileTree, u: FileTree, c: Plan, names: seq<string>, i: nat) {
    Drawn(t, u, c) && Filled(t, u, c.(skipped := c.skipped + Pending(c.src, names, i))) && SkipsShown(c)
  }

  lemma {:induction false} DownAdds(c: Plan, q: Path, i: nat, j: nat)
    ensures Down(c, Down(c, q, i), j) == Down(c, q, i + j)
    decreases i
  {
    if i > 0 && Under(c.dst, q) {
      DownAdds(c, Rebase(q, c.dst, c.src), i - 1, j);
    }
  }

  lemma {:induction false} DownIsBelowSource(c: Plan, q: Path, j: nat)
    requires j > 0 && Under(c.dst, q)
    ensures Under(c.src, Down(c, q, j))
    decreases j
  {
    var p := Rebase(q, c.dst, c.src);
    if j > 1 && Under(c.dst, p) {
      DownIsBelowSource(c, p, j - 1);
    }
  }

  /** The way down below a child is a part of the way down below the directory. */
  lemma {:induction false} DownBelowChild(c: Plan, name: string, below: set<Path>, q: Path, j: nat) returns (i: nat)
    ensures Down(Child(c, name, below), q, j) == Down(c, q, i)
    ensures j > 0 && Under(c.dst + [name], q) ==> i > 0
    decreases j
  {
    if j == 0 || !Under(c.dst + [name], q) {
      i := 0;
    } else {
      RebaseBelowChild(c, name, q);
      i := DownBelowChild(c, name, below, Rebase(q, c.dst, c.src), j - 1);
      i := i + 1;
    }
  }

  lemma ShownBelowChild(c: Plan, name: string, below: set<Path>, q: Path)
    requires !c.hidden(name) && ShownName(Child(c, name, below), q)
    ensures ShownName(c, q)
  {
    UnderChild(c.dst, name, q);
  }

  lemma DrawnTwice(t: FileTree, mid: FileTree, u: FileTree, c: Plan, q: Path, i: nat)
    requires !Under(c.src, c.dst) && Drawn(t, mid, c) && q in u && DrawnFrom(mid, u, c, q, i)
    ensures EntryDrawn(t, u, c, q)
  {
    var p := Down(c, q, i);
    DownIsBelowSource(c, q, i);
    assert EntryDrawn(t, mid, c, p);
    if p in t && mid[p] == t[p] {
      assert DrawnFrom(t, u, c, q, i);
    } else if Under(p, c.dst) && p != c.dst {
      UnderIsTransitive(c.src, p, c.dst);
      assert false;
    } else {
      var k: nat :| DrawnFrom(t, mid, c, p, k);
      DownAdds(c, q, i, k);
      assert DrawnFrom(t, u, c, q, i + k);
    }
  }

  lemma OneMoreIsDrawn(t: FileTree, mid: FileTree, u: FileTree, c: Plan, name: string, below: set<Path>)
    requires WellFormed(mid) && !Under(c.src, c.dst) && c.dst in mid && !c.hidden(name)
    requires KindsKept(mid, u) && Drawn(t, mid, c) && Drawn(mid, u, Child(c, name, below))
    ensures Drawn(t, u, c)
  {
    forall q | q in u
      ensures EntryDrawn(t, u, c, q)
    {
      var child := Child(c, name, below);
      assert EntryDrawn(mid, u, child, q);
      if q in mid && u[q] == mid[q] {
        StaysDrawn(t, mid, u, c, q);
      } else if Under(q, child.dst) && q != child.dst {
        if Under(child.dst, q) {
          SamePlace(q, child.dst);
        }
        AboveChildIsThere(mid, c.dst, name, q);
        assert false;
      } else {
        var j: nat :| DrawnFrom(mid, u, child, q, j);
        ShownBelowChild(c, name, below, q);
        var i := DownBelowChild(c, name, below, q, j);
        DrawnTwice(t, mid, u, c, q, i);
      }
    }
  }

  lemma StaysDrawn(t: FileTree, mid: FileTree, u: FileTree, c: Plan, q: Path)
    requires Drawn(t, mid, c) && q in mid && q in u && u[q] == mid[q]
    ensures EntryDrawn(t, u, c, q)
  {
    assert EntryDrawn(t, mid, c, q);
    if j: nat :| DrawnFrom(t, mid, c, q, j) {
      assert DrawnFrom(t, u, c, q, j);
    }
  }

  /** An exact copy is one of these too. */
  lemma CopiedIsTraced(t: FileTree, u: FileTree, c: Plan)
    requires Copied(t, u, c) && KindsKept(t, u) && c.src in t && SkipsShown(c)
    ensures Traced(t, u, c)
  {
    assert Rebase(c.dst, c.dst, c.src) == c.src;
    forall q | q in u
      ensures EntryDrawn(t, u, c, q)
    {
      if FromSource(t, c, q) {
        FromSourceIsDrawn(t, u, c, q);
      }
    }
    forall p | p in t && Taken(c, p)
      ensures Rebase(p, c.src, c.dst) in u && u[Rebase(p, c.src, c.dst)] == t[p]
    {
      var q := Rebase(p, c.src, c.dst);
      assert Rebase(q, c.dst, c.src) == p;
      assert FromSource(t, c, q);
    }
  }

  lemma FromSourceIsDrawn(t: FileTree, u: FileTree, c: Plan, q: Path)
    requires FromSource(t, c, q) && q in u && u[q] == t[Rebase(q, c.dst, c.src)]
    ensures EntryDrawn(t, u, c, q)
  {
    var p := Rebase(q, c.dst, c.src);
    forall k | |c.dst| <= k < |q|
      ensures !c.hidden(q[k])
    {
      assert ShownAt(c, p, k - |c.dst| + |c.src|);
    }
    assert Down(c, q, 1) == Down(c, p, 0) == p;
    assert DrawnFrom(t, u, c, q, 1);
  }

  /** The destination has been made, and no child has been copied. */
  lemma TracingStarts(t: FileTree, u: FileTree, c: Plan, names: seq<string>)
    requires WellFormed(t) && c.src in t && t[c.src] == Dir
    requires Grown(t, u, c.dst) && c.dst in u && u[c.dst] == Dir
    requires Listing(u, c.src, c.hidden, names, c.skipped)
    ensures TracedSoFar(t, u, c, names, 0)
  {
    var all := c.(skipped := c.skipped + Pending(c.src, names, 0));
    forall p | p in t && IsChild(c.src, p)
      ensures c.hidden(p[|c.src|]) || p in all.skipped
    {
      EveryChildIsOut(t, u, c, names, p);
    }
    SkipsShownAtFirst(u, c, names);
    DirectoryIsTraced(t, u, c);
    OnlySourceIsTaken(t, all);
    assert Rebase(c.src, c.src, c.dst) == c.dst;
  }

  lemma DirectoryIsTraced(t: FileTree, u: FileTree, c: Plan)
    requires c.src in t && t[c.src] == Dir && Grown(t, u, c.dst) && c.dst in u && u[c.dst] == Dir
    ensures Drawn(t, u, c)
  {
    assert Rebase(c.dst, c.dst, c.src) == c.src;
    assert Down(c, c.dst, 1) == Down(c, c.src, 0) == c.src;
    assert DrawnFrom(t, u, c, c.dst, 1);
  }

  lemma SkipsShownAtFirst(u: FileTree, c: Plan, names: seq<string>)
    requires Listing(u, c.src, c.hidden, names, c.skipped)
    ensures SkipsShown(c)
  {}

  lemma TakenInChild(c: Plan, name: string, below: set<Path>, rest: set<Path>, p: Path)
    requires Under(c.src + [name], p) && Taken(c.(skipped := c.skipped + below + rest), p)
    ensures Taken(Child(c, name, below), p)
  {
    UnderChild(c.src, name, p);
    forall k | |c.src| + 1 <= k < |p|
      ensures ShownAt(Child(c, name, below), p, k)
    {
      assert ShownAt(c.(skipped := c.skipped + below + rest), p, k);
    }
  }

  lemma TakenBesides(c: Plan, names: seq<string>, i: nat, below: set<Path>, p: Path)
    requires i < |names| && !Under(c.src + [names[i]], p)
    requires Taken(c.(skipped := c.skipped + below + Pending(c.src, names, i + 1)), p)
    ensures Taken(c.(skipped := c.skipped + Pending(c.src, names, i)), p)
  {
    PendingShrinks(c.src, names, i);
    forall k | |c.src| <= k < |p|
      ensures ShownAt(c.(skipped := c.skipped + Pending(c.src, names, i)), p, k)
    {
      assert ShownAt(c.(skipped := c.skipped + below + Pending(c.src, names, i + 1)), p, k);
      assert Under(p[..k + 1], p);
    }
  }

  lemma OneMoreIsFilled(t: FileTree, mid: FileTree, u: FileTree, c: Plan, names: seq<string>, i: nat, below: set<Path>)
    requires i < |names| && KindsKept(t, mid) && KindsKept(mid, u)
    requires Filled(t, mid, c.(skipped := c.skipped + Pending(c.src, names, i)))
    requires Filled(mid, u, Child(c, names[i], below))
    ensures Filled(t, u, c.(skipped := c.skipped + below + Pending(c.src, names, i + 1)))
  {
    var child := Child(c, names[i], below);
    forall p | p in t && Taken(c.(skipped := c.skipped + below + Pending(c.src, names, i + 1)), p)
      ensures Rebase(p, c.src, c.dst) in u && (u[Rebase(p, c.src, c.dst)].Dir? <==> t[p].Dir?)
    {
      if Under(child.src, p) {
        TakenInChild(c, names[i], below, Pending(c.src, names, i + 1), p);
        UnderChild(c.src, names[i], p);
        assert p[|c.src|..] == [names[i]] + p[|child.src|..];
        assert Rebase(p, c.src, c.dst) == Rebase(p, child.src, child.dst);
      } else {
        TakenBesides(c, names, i, below, p);
      }
    }
  }

  lemma SkipsShownStill(c: Plan, name: string, below: set<Path>)
    requires SkipsShown(c) && SkipsShown(Child(c, name, below))
    ensures SkipsShown(c.(skipped := c.skipped + below))
  {
    forall s | s in below
      ensures Under(c.src, s) && |s| > |c.src|
    {
      UnderChild(c.src, name, s);
    }
  }

  /** One more child has been copied. */
  lemma TracingContinues(t: FileTree, mid: FileTree, u: FileTree, c: Plan, names: seq<string>, i: nat, below: set<Path>)
    requires WellFormed(mid) && !Under(c.src, c.dst) && c.dst in mid && i < |names| && !c.hidden(names[i])
    requires KindsKept(t, mid) && KindsKept(mid, u)
    requires TracedSoFar(t, mid, c, names, i) && Traced(mid, u, Child(c, names[i], below))
    ensures TracedSoFar(t, u, c.(skipped := c.skipped + below), names, i + 1)
  {
    OneMoreIsDrawn(t, mid, u, c, names[i], below);
    OneMoreIsFilled(t, mid, u, c, names, i, below);
    SkipsShownStill(c, names[i], below);
    DrawnWhateverSkipped(t, u, c, c.skipped + below);
  }

  lemma {:induction false} DownWhateverSkipped(c: Plan, skipped: set<Path>, q: Path, j: nat)
    ensures Down(c.(skipped := skipped), q, j) == Down(c, q, j)
    decreases j
  {
    if j > 0 && Under(c.dst, q) {
      DownWhateverSkipped(c, skipped, Rebase(q, c.dst, c.src), j - 1);
    }
  }

  lemma DrawnWhateverSkipped(t: FileTree, u: FileTree, c: Plan, skipped: set<Path>)
    requires Drawn(t, u, c)
    ensures Drawn(t, u, c.(skipped := skipped))
  {
    forall q | q in u
      ensures EntryDrawn(t, u, c.(skipped := skipped), q)
    {
      assert EntryDrawn(t, u, c, q);
      if j: nat :| DrawnFrom(t, u, c, q, j) {
        DownWhateverSkipped(c, skipped, q, j);
        assert DrawnFrom(t, u, c.(skipped := skipped), q, j);
      }
    }
  }

  lemma TracingEnds(t: FileTree, u: FileTree, c: Plan, names: seq<string>)
    requires TracedSoFar(t, u, c, names, |names|)
    ensures Traced(t, u, c)
  {
    assert Pending(c.src, names, |names|) == {};
    assert c.(skipped := c.skipped + {}) == c;
  }

  lemma ChildIsDrawnFrom(t: FileTree, src: Path, dst: Path, name: string, hidden: string -> bool)
    requires src + [name] in t && !hidden(name)
    ensures FromSource(t, Plan(src, dst, hidden, {}), dst + [name])
    ensures Rebase(dst + [name], dst, src) == src + [name]
  {
    assert (dst + [name])[..|dst|] == dst && (src + [name])[..|src|] == src;
  }

  /** Why the exact statement is for separate places: when the source shows a child of the name that leads to it,
      the child's entries are copied over the source's own, and from there to the destination. */
  lemma CopyUpwardsReadsAgain(t: FileTree, mid: FileTree, u: FileTree, dst: Path, x: string, m: string,
                              hidden: string -> bool)
    requires !hidden(x) && !hidden(m) && dst + [x] + [x] + [m] in t && dst + [x] + [m] in t
    requires Copied(t, mid, Plan(dst + [x] + [x], dst + [x], hidden, {}))
    requires Copied(mid, u, Plan(dst + [x] + [m], dst + [m], hidden, {}))
    ensures dst + [m] in u && u[dst + [m]] == t[dst + [x] + [x] + [m]]
    ensures t[dst + [x] + [x] + [m]] != t[dst + [x] + [m]] ==> !Copied(t, u, Plan(dst + [x], dst, hidden, {}))
  {
    ChildIsDrawnFrom(t, dst + [x] + [x], dst + [x], m, hidden);
    assert Rebase(dst + [m], dst + [m], dst + [x] + [m]) == dst + [x] + [m];
    assert FromSource(mid, Plan(dst + [x] + [m], dst + [m], hidden, {}), dst + [m]);
    ChildIsDrawnFrom(t, dst + [x], dst, m, hidden);
  }
}
