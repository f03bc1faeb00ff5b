/** The operations of internal/storage/storage.go that change the file tree, as sequences of file-system
    calls that may each fail: copying, retaining (trash and versions), restoring, and putting a staged
    file into place. Real paths are the segments below the base directory. */
module Storage {
  import opened Bytes
  import opened Common
  import opened Copying
  import opened Retention
  import opened Tree
  import Paths
  import Text

  datatype RetainedEntry =
    RetainedEntry(id: string, originalPath: string, retainedPath: string, size: nat, isDir: bool)

  /** The JSON form of the metadata. */
  datatype Codec = Codec(encode: RetainedEntry -> seq<byte>, decode: seq<byte> -> Option<RetainedEntry>) {
    ghost predicate RoundTrips() { forall e :: decode(encode(e)) == Some(e) }
  }

  datatype Error = Unavailable | OutsideRoot | DestinationExists
    | DestinationIsDirectory | InsideSource | RollbackFailed

  datatype Result<+T> = Ok(value: T) | Err(error: Error)

  // ---------------------------------------------------------------- what a copy reports

  datatype Strategy = Unset | Clonefile | Plain | Mixed

  datatype CopyResult = CopyResult(files: nat, bytes: nat, strategy: Strategy)

  /** The strategy of a folder so far and of its next child. */
  function Merge(sofar: Strategy, child: Strategy): Strategy {
    if sofar == Unset then child
    else if child != Unset && sofar != child then Mixed
    else sofar
  }

  /** The strategy that stands for a set of ways in which files were copied. */
  function Label(used: set<Strategy>): Strategy {
    if used == {} then Unset
    else if used == {Clonefile} then Clonefile
    else if used == {Plain} then Plain
    else Mixed
  }

  /** Without deduplication every file is copied plainly. */
  predicate Used(used: set<Strategy>, deduplicate: bool) {
    used <= if deduplicate then {Clonefile, Plain} else {Plain}
  }

  /** Whatever the nesting and the order, "mixed" is reported exactly when both ways were used. */
  lemma MergeIsUnion(a: set<Strategy>, b: set<Strategy>)
    requires a + b <= {Clonefile, Plain} && b != {}
    ensures Merge(Label(a), Label(b)) == Label(a + b)
  {
    if a != {} && a != b {
      OneOrBoth(a);
      OneOrBoth(b);
    }
  }

  lemma MergedIsUsed(a: set<Strategy>, b: set<Strategy>, deduplicate: bool, sofar: Strategy, child: Strategy)
    requires Used(a, deduplicate) && Used(b, deduplicate) && b != {} && sofar == Label(a) && child == Label(b)
    ensures Used(a + b, deduplicate) && Merge(sofar, child) == Label(a + b)
  {
    MergeIsUnion(a, b);
  }

  lemma OneIsUsed(strategy: Strategy, deduplicate: bool)
    requires strategy == Plain || (strategy == Clonefile && deduplicate)
    ensures Used({strategy}, deduplicate) && Label({strategy}) == strategy
  {}

  /** A folder without files reports a plain copy. */
  function AtLeastPlain(strategy: Strategy): Strategy { if strategy == Unset then Plain else strategy }

  lemma EmptyIsPlain(used: set<Strategy>, deduplicate: bool)
    requires Used(used, deduplicate)
    ensures Label(used) == Unset <==> used == {}
    ensures Used({Plain}, deduplicate) && AtLeastPlain(Label(used)) == Label(if used == {} then {Plain} else used)
  {}

  lemma OneOrBoth(s: set<Strategy>)
    requires s <= {Clonefile, Plain} && s != {}
    ensures s == {Clonefile} || s == {Plain} || s == {Clonefile, Plain}
  {
    if Clonefile in s && Plain in s {
      assert s == {Clonefile, Plain};
    } else if Clonefile in s {
      assert s == {Clonefile};
    } else {
      assert s == {Plain};
    }
  }

  // ---------------------------------------------------------------- what a copy can touch

  /** Whether or not the copy succeeded: nothing was removed, new entries are at or below the destination
      or directories above it, and only when overwriting, and only in files below the destination, was
      anything changed. */
  ghost predicate OnlyAdds(t: FileTree, u: FileTree, dst: Path, overwrite: bool) {
    && (forall q | q in t :: q in u)
    && (forall q | q in t :: u[q] == t[q] || (overwrite && Under(dst, q) && t[q].File? && u[q].File?))
    && (forall q | q in u && q !in t :: Under(dst, q) || (Under(q, dst) && u[q] == Dir))
  }

  /** No entry at or below dir is more than `limit` segments deep. */
  ghost predicate Bounded(t: FileTree, dir: Path, limit: int) {
    forall q | q in t && Under(dir, q) :: |q| <= limit
  }

  ghost predicate NewUpTo(t: FileTree, u: FileTree, limit: int) {
    forall q | q in u && q !in t :: |q| <= limit
  }

  lemma EveryTreeIsBounded(t: FileTree) returns (limit: nat)
    requires WellFormed(t)
    ensures forall dir :: Bounded(t, dir, limit)
  {
    var longest := Longest(t.Keys);
    limit := |longest|;
  }

  lemma OnlyAddsNests(t: FileTree, u: FileTree, v: FileTree, dst: Path, name: string, overwrite: bool)
    requires WellFormed(u) && dst in u
    requires OnlyAdds(t, u, dst, overwrite) && OnlyAdds(u, v, dst + [name], overwrite)
    ensures OnlyAdds(t, v, dst, overwrite)
  {
    forall q
      ensures Under(dst + [name], q) ==> Under(dst, q)
    {
      UnderChild(dst, name, q);
    }
    forall q | Under(q, dst + [name]) && !Under(dst + [name], q)
      ensures q in u
    {
      AboveChildIsThere(u, dst, name, q);
    }
  }

  /** What the copy of one child adds is no deeper than the source allows, also where it is added to the
      source itself. */
  lemma StaysBounded(t: FileTree, u: FileTree, src: Path, dst: Path, overwrite: bool, limit: int)
    requires !Under(src, dst) && OnlyAdds(t, u, dst, overwrite) && src in t
    requires Bounded(t, src, limit) && NewUpTo(t, u, |dst| + limit - |src|)
    ensures Bounded(u, src, limit)
  {
    forall q | q in u && q !in t && Under(src, q)
      ensures |q| <= limit
    {
      if Under(q, dst) {
        UnderIsTransitive(src, q, dst);
      } else if |dst| > |src| {
        AboveAreNested(src, dst, q);
      }
    }
  }

  lemma ChildIsBounded(t: FileTree, dir: Path, name: string, limit: int)
    requires Bounded(t, dir, limit)
    ensures Bounded(t, dir + [name], limit)
    ensures dir + [name] in t ==> |dir| + 1 <= limit
  {
    forall q | q in t && Under(dir + [name], q)
      ensures |q| <= limit
    {
      UnderChild(dir, name, q);
    }
    assert Under(dir + [name], dir + [name]);
  }

  lemma GrownOnlyAdds(t: FileTree, u: FileTree, dst: Path, overwrite: bool)
    requires dst != []
    ensures Grown(t, u, dst) ==> OnlyAdds(t, u, dst, overwrite) && NewUpTo(t, u, |dst|)
    ensures Grown(t, u, Parent(dst)) ==> OnlyAdds(t, u, dst, overwrite) && NewUpTo(t, u, |dst|)
  {
    assert Under(Parent(dst), dst);
    forall q | Under(q, Parent(dst))
      ensures Under(q, dst)
    {
      UnderIsTransitive(q, Parent(dst), dst);
    }
  }

  lemma GrownToExisting(t: FileTree, u: FileTree, p: Path)
    requires WellFormed(t) && p in t && p != [] && Grown(t, u, Parent(p))
    ensures u == t
  {
    assert Under(Parent(p), p);
    forall q | q in u
      ensures q in t
    {
      if q !in t {
        AboveRealIsThere(t, q, Parent(p));
      }
    }
  }

  predicate MayWrite(t: FileTree, p: Path, overwrite: bool) { CanWrite(t, p) && (!overwrite ==> p !in t) }

  /** The file at p was made, or changed when that is allowed. */
  predicate Written(t: FileTree, u: FileTree, p: Path, overwrite: bool) {
    p in u && u[p].File? && u == t[p := u[p]] && (p in t ==> overwrite && t[p].File?)
  }

  lemma WrittenOnlyAdds(t: FileTree, mid: FileTree, u: FileTree, dst: Path, overwrite: bool)
    requires OnlyAdds(t, mid, dst, overwrite) && NewUpTo(t, mid, |dst|) && Written(mid, u, dst, overwrite)
    ensures OnlyAdds(t, u, dst, overwrite) && NewUpTo(t, u, |dst|)
  {
    assert Under(dst, dst);
  }

  /** Nothing stands in the way of copying a file. */
  predicate FileFits(t: FileTree, src: Path, dst: Path, overwrite: bool) {
    && src in t && t[src].File? && dst != [] && Makeable(t, Parent(dst))
    && (dst in t ==> overwrite && t[dst].File?)
  }

  lemma FileStillFits(t: FileTree, mid: FileTree, src: Path, dst: Path, overwrite: bool)
    requires dst != [] && Grown(t, mid, Parent(dst)) && Parent(dst) in mid && mid[Parent(dst)] == Dir
    ensures FileFits(t, src, dst, overwrite) ==> MayWrite(mid, dst, overwrite)
  {}

  lemma FileIsCounted(t: FileTree, mid: FileTree, src: Path, dst: Path, hidden: string -> bool)
    requires WellFormed(t) && src in t && t[src].File? && dst != [] && Grown(t, mid, Parent(dst))
    ensures src != dst ==> Counted(t, mid[dst := t[src]], Plan(src, dst, hidden, {}), 1, |t[src].data|)
    ensures src == dst ==> mid == t
  {
    if src != dst {
      FileIsCopied(t, mid, mid[dst := t[src]], Plan(src, dst, hidden, {}));
    } else {
      GrownToExisting(t, mid, dst);
    }
  }

  lemma FileIsAll(t: FileTree, u: FileTree, src: Path, dst: Path, hidden: string -> bool, overwrite: bool,
                  files: nat, bytes: nat)
    requires src in t && OnlyAdds(t, u, dst, overwrite)
    requires src != dst ==> Counted(t, u, Plan(src, dst, hidden, {}), files, bytes)
    ensures CopiedAll(t, u, Plan(src, dst, hidden, {}), files, bytes)
  {
    if src == dst {
      assert Under(src, src);
    } else {
      AddingKeepsKinds(t, u, dst, overwrite);
      CopiedIsTraced(t, u, Plan(src, dst, hidden, {}));
    }
  }

  /** Below a file nothing can be written. */
  lemma FileHasNothingBelow(t: FileTree, u: FileTree, src: Path, dst: Path)
    requires WellFormed(u) && src in t && t[src].File? && src in u && u[src].File? && dst in u
    ensures Under(src, dst) ==> src == dst
  {
    NothingBelow(u, src);
  }

  predicate AllThere(t: FileTree, dir: Path, names: seq<string>, hidden: string -> bool) {
    forall n | n in names :: dir + [n] in t && !hidden(n)
  }

  /** Everything a copy of src to dst has touched so far. */
  ghost predicate Touched(t: FileTree, u: FileTree, src: Path, dst: Path, overwrite: bool, limit: int) {
    && OnlyAdds(t, u, dst, overwrite) && NewUpTo(t, u, |dst| + limit - |src|) && Bounded(u, src, limit)
  }

  lemma ChildTouched(t: FileTree, mid: FileTree, u: FileTree, src: Path, dst: Path, name: string,
                     overwrite: bool, limit: int)
    requires src in t && Bounded(t, src, limit) && !Under(src, dst)
    requires WellFormed(mid) && dst in mid && Touched(t, mid, src, dst, overwrite, limit)
    requires OnlyAdds(mid, u, dst + [name], overwrite) && NewUpTo(mid, u, |dst| + limit - |src|)
    ensures Touched(t, u, src, dst, overwrite, limit)
    ensures KindsKept(t, mid) && KindsKept(mid, u)
  {
    AddingKeepsKinds(t, mid, dst, overwrite);
    AddingKeepsKinds(mid, u, dst + [name], overwrite);
    OnlyAddsNests(t, mid, u, dst, name, overwrite);
    StaysBounded(t, u, src, dst, overwrite, limit);
  }

  /** What has been copied of the source before the child with index i; the exact tree for separate places. */
  ghost predicate CopiedSoFar(t: FileTree, u: FileTree, c: Plan, names: seq<string>, i: nat, files: nat, bytes: nat) {
    && TracedSoFar(t, u, c, names, i)
    && (Separate(t, c) ==>
          Progress(t, u, c, names, i, files, bytes) && SkippedOnlyShown(t, c) && NoneSkippedBelow(c, names, i))
  }

  ghost predicate CopiedAll(t: FileTree, u: FileTree, c: Plan, files: nat, bytes: nat) {
    && (c.src != c.dst ==> Traced(t, u, c))
    && (Separate(t, c) ==> Counted(t, u, c, files, bytes) && SkippedOnlyShown(t, c))
  }

  lemma AddingKeepsKinds(t: FileTree, u: FileTree, dst: Path, overwrite: bool)
    requires OnlyAdds(t, u, dst, overwrite)
    ensures KindsKept(t, u)
  {}

  lemma ChildCopied(t: FileTree, mid: FileTree, u: FileTree, c: Plan, names: seq<string>, i: nat, below: set<Path>,
                    files: nat, bytes: nat, childFiles: nat, childBytes: nat)
    requires WellFormed(t) && WellFormed(mid) && c.dst in mid && i < |names| && Distinct(names)
    requires !Under(c.src, c.dst) && KindsKept(t, mid) && KindsKept(mid, u)
    requires c.src + [names[i]] in mid && !c.hidden(names[i])
    requires CopiedSoFar(t, mid, c, names, i, files, bytes)
    requires CopiedAll(mid, u, Child(c, names[i], below), childFiles, childBytes)
    ensures CopiedSoFar(t, u, Plan(c.src, c.dst, c.hidden, c.skipped + below), names, i + 1,
                        files + childFiles, bytes + childBytes)
  {
    assert c.(skipped := c.skipped + below) == Plan(c.src, c.dst, c.hidden, c.skipped + below);
    ChildrenAreApart(c.src, c.dst, names[i]);
    assert Under(c.src + [names[i]], c.src + [names[i]]);
    TracingContinues(t, mid, u, c, names, i, below);
    if Separate(t, c) {
      ChildCopiedExactly(t, mid, u, c, names, i, below, files, bytes, childFiles, childBytes);
    }
  }

  lemma ChildCopiedExactly(t: FileTree, mid: FileTree, u: FileTree, c: Plan, names: seq<string>, i: nat,
                           below: set<Path>, files: nat, bytes: nat, childFiles: nat, childBytes: nat)
    requires WellFormed(t) && WellFormed(mid) && c.dst in mid && i < |names| && Distinct(names)
    requires c.src + [names[i]] in mid && !c.hidden(names[i]) && Separate(t, c)
    requires CopiedSoFar(t, mid, c, names, i, files, bytes)
    requires CopiedAll(mid, u, Child(c, names[i], below), childFiles, childBytes)
    ensures var d := c.(skipped := c.skipped + below);
            Progress(t, u, d, names, i + 1, files + childFiles, bytes + childBytes)
            && SkippedOnlyShown(t, d) && NoneSkippedBelow(d, names, i + 1)
  {
    ChildWasThere(t, mid, c, names, i, names[i], files, bytes);
    ShownChildIsApart(t, c, names[i]);
    LoopContinues(t, mid, u, c, names, i, below, files, bytes, childFiles, childBytes);
    SkippedContinues(t, mid, c, names, i, below, files, bytes);
  }

  lemma AllStillThere(t: FileTree, u: FileTree, dir: Path, names: seq<string>, hidden: string -> bool)
    requires KindsKept(t, u) && AllThere(t, dir, names, hidden)
    ensures AllThere(u, dir, names, hidden)
  {}

  lemma FolderTouched(t: FileTree, u: FileTree, src: Path, dst: Path, overwrite: bool, limit: int)
    requires src in t && Bounded(t, src, limit) && !Under(src, dst) && dst != [] && Grown(t, u, dst)
    ensures Touched(t, u, src, dst, overwrite, limit)
  {
    assert Under(src, src);
    GrownOnlyAdds(t, u, dst, overwrite);
    StaysBounded(t, u, src, dst, overwrite, limit);
  }

  /** In the loop over a folder, and after it: what may have been touched, and what is still there. */
  ghost predicate Looping(t: FileTree, u: FileTree, src: Path, dst: Path, names: seq<string>,
                          hidden: string -> bool, overwrite: bool, limit: int) {
    && WellFormed(u) && dst in u && AllThere(u, src, names, hidden) && Touched(t, u, src, dst, overwrite, limit)
  }

  /** What the result says of the children copied so far. */
  ghost predicate Reported(t: FileTree, u: FileTree, c: Plan, names: seq<string>, i: nat, result: CopyResult,
                           used: set<Strategy>, deduplicate: bool) {
    && Used(used, deduplicate) && result.strategy == Label(used)
    && CopiedSoFar(t, u, c, names, i, result.files, result.bytes)
  }

  lemma FolderStarts(t: FileTree, u: FileTree, c: Plan, names: seq<string>, deduplicate: bool, overwrite: bool,
                     limit: int)
    requires WellFormed(t) && c.src in t && t[c.src] == Dir && Bounded(t, c.src, limit)
    requires !Under(c.src, c.dst) && c.dst != []
    requires WellFormed(u) && Grown(t, u, c.dst) && c.dst in u && u[c.dst] == Dir
    requires Listing(u, c.src, c.hidden, names, c.skipped)
    ensures Looping(t, u, c.src, c.dst, names, c.hidden, overwrite, limit)
    ensures Reported(t, u, c, names, 0, CopyResult(0, 0, Unset), {}, deduplicate)
  {
    FolderTouched(t, u, c.src, c.dst, overwrite, limit);
    TracingStarts(t, u, c, names);
    if Separate(t, c) {
      LoopStarts(t, u, c, names);
    }
  }

  lemma FolderEnds(t: FileTree, u: FileTree, c: Plan, names: seq<string>, result: CopyResult, used: set<Strategy>,
                   deduplicate: bool)
    requires Reported(t, u, c, names, |names|, result, used, deduplicate)
    ensures CopiedAll(t, u, c, result.files, result.bytes)
  {
    TracingEnds(t, u, c, names);
    if Separate(t, c) {
      LoopEnds(t, u, c, names, result.files, result.bytes);
    }
  }

  /** What is reported after the next child. */
  function Sum(result: CopyResult, child: CopyResult): CopyResult {
    CopyResult(result.files + child.files, result.bytes + child.bytes, Merge(result.strategy, child.strategy))
  }

  lemma EntryReported(t: FileTree, mid: FileTree, u: FileTree, c: Plan, names: seq<string>, i: nat, below: set<Path>,
                    result: CopyResult, used: set<Strategy>, child: Result<CopyResult>, childUsed: set<Strategy>,
                    deduplicate: bool, overwrite: bool, limit: int)
    requires WellFormed(t) && c.src in t && Bounded(t, c.src, limit) && !Under(c.src, c.dst) && Distinct(names)
    requires i < |names| && WellFormed(u)
    requires Looping(t, mid, c.src, c.dst, names, c.hidden, overwrite, limit)
    requires Reported(t, mid, c, names, i, result, used, deduplicate)
    requires OnlyAdds(mid, u, c.dst + [names[i]], overwrite) && NewUpTo(mid, u, |c.dst| + limit - |c.src|)
    requires child.Ok? ==> childUsed != {} && Used(childUsed, deduplicate) && child.value.strategy == Label(childUsed)
    requires child.Ok? ==> CopiedAll(mid, u, Child(c, names[i], below), child.value.files, child.value.bytes)
    ensures Looping(t, u, c.src, c.dst, names, c.hidden, overwrite, limit)
    ensures child.Ok? ==>
              Reported(t, u, Plan(c.src, c.dst, c.hidden, c.skipped + below), names, i + 1,
                       Sum(result, child.value), used + childUsed, deduplicate)
  {
    ChildTouched(t, mid, u, c.src, c.dst, names[i], overwrite, limit);
    AllStillThere(mid, u, c.src, names, c.hidden);
    if child.Ok? {
      ChildCopied(t, mid, u, c, names, i, below, result.files, result.bytes, child.value.files, child.value.bytes);
      MergedIsUsed(used, childUsed, deduplicate, result.strategy, child.value.strategy);
    }
  }

  ghost predicate FolderFits(t: FileTree, c: Plan, overwrite: bool) {
    Fits(t, c, overwrite) && t[c.src] == Dir
  }

  lemma NextFits(t: FileTree, mid: FileTree, c: Plan, names: seq<string>, i: nat, files: nat, bytes: nat,
                 overwrite: bool)
    requires WellFormed(t) && WellFormed(mid) && i < |names| && !c.hidden(names[i]) && c.src + [names[i]] in mid
    requires CopiedSoFar(t, mid, c, names, i, files, bytes)
    ensures c.skipped == {} && FolderFits(t, c, overwrite) ==> Fits(mid, Child(c, names[i], {}), overwrite)
  {
    if c.skipped == {} && FolderFits(t, c, overwrite) {
      ChildFits(t, mid, c, names, i, files, bytes, overwrite);
    }
  }

  lemma DirFits(t: FileTree, c: Plan, overwrite: bool)
    ensures FolderFits(t, c, overwrite) ==> !Under(c.src, c.dst) && (c.dst in t ==> overwrite) && Makeable(t, c.dst)
  {
    if FolderFits(t, c, overwrite) {
      DestinationFits(t, c, overwrite);
    }
  }

  lemma FileFitsToo(t: FileTree, c: Plan, overwrite: bool)
    requires c.src in t && t[c.src].File?
    ensures Fits(t, c, overwrite) ==> FileFits(t, c.src, c.dst, overwrite)
  {
    if Fits(t, c, overwrite) {
      DestinationFits(t, c, overwrite);
    }
  }

  function RetainedRoot(kind: string): string {
    if kind == "versions" || kind == "version" then Paths.VERSIONS else Paths.TRASH
  }

  function ChildNames(t: FileTree, dir: Path): set<string> {
    set p | p in t && IsChild(dir, p) :: p[|dir|]
  }

  lemma NamesAreListing(t: FileTree, dir: Path, hidden: string -> bool, names: seq<string>, left: set<string>)
    requires Distinct(names)
    requires forall n | n in names :: n in ChildNames(t, dir) && !hidden(n)
    requires forall n | n in left :: n in ChildNames(t, dir) && !hidden(n) && n !in names
    requires forall n | n in ChildNames(t, dir) :: hidden(n) || n in names || n in left
    ensures Listing(t, dir, hidden, names, set n | n in left :: dir + [n])
  {
    forall n | n in ChildNames(t, dir)
      ensures dir + [n] in t
    {
      ChildOfName(t, dir, n);
    }
    forall s | s in t && IsChild(dir, s)
      ensures s == dir + [s[|dir|]] && s[|dir|] in ChildNames(t, dir)
    {}
  }

  lemma ChildOfName(t: FileTree, dir: Path, name: string)
    requires name in ChildNames(t, dir)
    ensures dir + [name] in t
  {
    var p :| p in t && IsChild(dir, p) && p[|dir|] == name;
    assert p == dir + [name];
  }

  // ---------------------------------------------------------------- what is retained

  /** The virtual path that is recorded: the one given, or the real one. */
  function Recorded(orig: Path, virtual: string): string {
    if virtual != "" then virtual else "/" + if orig == [] then "." else Paths.Tail(orig)
  }

  /** An entry describes what is retained: what it was, where it was and where it is now. */
  predicate Describes(e: RetainedEntry, node: Node, originalPath: string, rootName: string, id: string) {
    && e.id == id && e.originalPath == originalPath && e.retainedPath == "/" + rootName + "/" + id
    && e.isDir == node.Dir? && (node.File? ==> e.size == |node.data|)
  }

  predicate Stored(t: FileTree, p: Path, data: seq<byte>) { p in t && t[p] == File(data) }

  /** The payload is a copy of what is at `orig`, without hidden and skipped entries below the top; the
      rest of the tree is unchanged. */
  ghost predicate VersionKept(t: FileTree, u: FileTree, orig: Path, dir: Path,
                              hidden: string -> bool, skipped: set<Path>) {
    var c := Plan(orig, dir + [PAYLOAD], hidden, skipped);
    && Intact(t, u) && OnlyNear(t, u, dir)
    && (forall p | Under(orig, p) :: Rebase(p, orig, c.dst) in u <==> p in t && Taken(c, p))
    && (forall p | Under(orig, p) && p in t && Taken(c, p) :: u[Rebase(p, orig, c.dst)] == t[p])
  }

  /** The directory that a restore looks in. An id of "." or ".." is cleaned away like any other. */
  function RetainedDir(kind: string, id: string): Path { Paths.Push(true, [RetainedRoot(kind)], id) }

  /** The metadata in the retained directory is that of e. */
  predicate Recalled(t: FileTree, codec: Codec, dir: Path, e: RetainedEntry) {
    dir + [META] in t && t[dir + [META]].File? && codec.decode(t[dir + [META]].data) == Some(e)
  }

  predicate HasRecord(t: FileTree, codec: Codec, dir: Path) {
    dir + [META] in t && t[dir + [META]].File? && codec.decode(t[dir + [META]].data).Some?
  }

  /** The record of an id, and the place that a restore of it goes to. */
  ghost predicate RestoresTo(t: FileTree, codec: Codec, kind: string, id: string, destVirtual: string,
                             e: RetainedEntry, dest: Path) {
    && Recalled(t, codec, RetainedDir(kind, id), e)
    && dest == Paths.VirtualSegs(if destVirtual == "" then e.originalPath else destVirtual)
  }

  /** The answer to the question for the metadata, when it is there. */
  function MetaWasRead(t: FileTree, dir: Path): (Path, Seen)
    requires dir + [META] in t
  {
    (dir + [META], Found(t[dir + [META]]))
  }

  /** What is renamed was there before its destination was versioned. */
  lemma StagedWasThere(t: FileTree, mid: FileTree, staged: Path, dest: Path, dir: Path)
    requires WellFormed(t) && Intact(t, mid) && OnlyNear(t, mid, dir) && CanRename(mid, staged, dest)
    requires !Under(dir, staged) && (dest !in t ==> mid == t)
    ensures staged in t && (dest in t ==> dest in mid)
    ensures t[staged] == Dir ==> dest !in t
  {}

  /** Nothing stands in the way of replacing the destination: the staged file can be renamed to it, and a file that
      is to be preserved can be. */
  predicate Replaceable(t: FileTree, staged: Path, dest: Path, id: string, preserve: bool) {
    CanRename(t, staged, dest) && (dest in t && preserve ==> Retainable(t, dest, [Paths.VERSIONS, id]))
  }

  lemma StillReplaceable(t: FileTree, mid: FileTree, staged: Path, dest: Path, dir: Path)
    requires WellFormed(t) && Intact(t, mid) && OnlyNear(t, mid, dir)
    requires !Under(dir, staged) && (dest in t ==> t[dest].File?) && (dest !in t ==> mid == t)
    ensures CanRename(mid, staged, dest) <==> CanRename(t, staged, dest)
  {}

  predicate Installable(t: FileTree, staged: Path, dest: Path) {
    staged in t && t[staged].File? && dest !in t && CanWrite(t, dest)
  }

  lemma LinkedIsRemovable(t: FileTree, staged: Path, dest: Path)
    requires WellFormed(t) && Installable(t, staged, dest)
    ensures CanRemove(t[dest := t[staged]], staged)
  {
    NothingBelow(t, staged);
    if Under(staged, dest) {
      ParentIsAbove(staged, dest);
    }
  }

  lemma MovedNowhere(t: FileTree, p: Path)
    ensures Moved(t, p, p) == t
  {
    MovedAt(t, p, p);
    forall q
      ensures Under(p, q) ==> Rebase(q, p, p) == q
    {}
  }

  /** The file's bytes are in the payload, and its description beside them. */
  ghost predicate FilePreserved(codec: Codec, t: FileTree, node: Node, recorded: string, id: string) {
    && [Paths.VERSIONS, id] + [PAYLOAD] in t && t[[Paths.VERSIONS, id] + [PAYLOAD]] == node
    && exists e :: Describes(e, node, Paths.CleanVirtual(recorded), Paths.VERSIONS, id)
                   && Stored(t, [Paths.VERSIONS, id] + [META], codec.encode(e))
  }

  lemma StillPreserved(t: FileTree, mid: FileTree, u: FileTree, staged: Path, dest: Path,
                       codec: Codec, recorded: string, id: string)
    requires WellFormed(t) && staged in t && [Paths.VERSIONS, id] !in t
             && !Under([Paths.VERSIONS, id], dest) && dest in t
    requires u == (mid - {staged})[dest := t[staged]] && FilePreserved(codec, mid, t[dest], recorded, id)
    ensures FilePreserved(codec, u, t[dest], recorded, id)
  {
    var dir := [Paths.VERSIONS, id];
    NothingBelow(t, dir);
    UnderParts(dir, PAYLOAD, META);
    UnderParts(dir, META, PAYLOAD);
    var e :| Describes(e, t[dest], Paths.CleanVirtual(recorded), Paths.VERSIONS, id)
             && Stored(mid, dir + [META], codec.encode(e));
    assert Stored(u, dir + [META], codec.encode(e));
  }

  /** Nothing stands in the way of moving a payload to a place: directories can be made above it, it is neither
      inside the payload nor, when what is there is removed first, around it, and otherwise nothing is there. */
  predicate Restorable(t: FileTree, dir: Path, dest: Path, overwrite: bool) {
    && dir + [PAYLOAD] in t && dest != [] && Makeable(t, Parent(dest)) && !Under(dir + [PAYLOAD], dest)
    && if overwrite then !Under(dest, dir + [PAYLOAD]) else dest !in t
  }

  lemma MoveFits(t: FileTree, grown: FileTree, mid: FileTree, dir: Path, dest: Path, overwrite: bool)
    requires WellFormed(t) && (dest != [] ==> Grown(t, grown, Parent(dest)) && Makeable(t, Parent(dest)))
    requires dest != [] ==> Parent(dest) in grown && grown[Parent(dest)] == Dir
    requires if overwrite then Cut(grown, mid, dest) && (dest != [] ==> Empty(mid, dest)) else mid == grown
    requires !overwrite ==> dest !in t
    ensures CanRename(mid, dir + [PAYLOAD], dest) <==> Restorable(t, dir, dest, overwrite)
  {
    if dest != [] {
      assert Under(dest, dest) && !Under(dest, Parent(dest));
      if dir + [PAYLOAD] in grown && dir + [PAYLOAD] !in t {
        UnderIsTransitive(dir + [PAYLOAD], Parent(dest), dest);
      }
    }
  }

  lemma RootOrPrepared(t: FileTree, u: FileTree, v: FileTree, dest: Path)
    requires WellFormed(t) && Grown(t, u, if dest == [] then [] else Parent(dest)) && (v == u || Cut(u, v, dest))
    ensures Prepared(t, v, dest)
  {
    if dest != [] {
      ParentsPrepared(t, u, v, dest);
      assert Cut(u, u, dest);
    }
  }

  lemma CopiedAside(t: FileTree, mid: FileTree, u: FileTree, dir: Path)
    requires WellFormed(t) && dir !in t && Grown(t, mid, dir) && OnlyAdds(mid, u, dir + [PAYLOAD], true)
    ensures Intact(t, u) && OnlyNear(t, u, dir)
  {
    NothingBelow(t, dir);
    UnderChild(dir, PAYLOAD, dir + [PAYLOAD]);
    forall q | Under(dir + [PAYLOAD], q)
      ensures Under(dir, q)
    {
      UnderIsTransitive(dir, dir + [PAYLOAD], q);
    }
    forall q | Under(q, dir + [PAYLOAD])
      ensures Near(dir, q)
    {
      NearChild(dir, PAYLOAD, q);
    }
  }

  lemma NearChild(dir: Path, name: string, q: Path)
    requires Under(q, dir + [name])
    ensures Under(q, dir) || q == dir + [name]
  {
    if |q| == |dir| + 1 {
      SamePlace(q, dir + [name]);
    } else {
      assert (dir + [name])[..|q|] == dir[..|q|];
    }
  }

  lemma PayloadIsVersion(t: FileTree, mid: FileTree, u: FileTree, orig: Path, dir: Path,
                         hidden: string -> bool, skipped: set<Path>, files: nat, bytes: nat)
    requires WellFormed(t) && orig in t && dir !in t && Grown(t, mid, dir) && WellFormed(mid)
    requires Intact(t, u) && OnlyNear(t, u, dir) && (Under(orig, dir + [PAYLOAD]) ==> orig == dir + [PAYLOAD])
    requires CopiedAll(mid, u, Plan(orig, dir + [PAYLOAD], hidden, skipped), files, bytes)
    ensures VersionKept(t, u, orig, dir, hidden, skipped)
  {
    var payload := dir + [PAYLOAD];
    var c := Plan(orig, payload, hidden, skipped);
    MadeDirectory(t, mid, dir);
    assert Under(payload, payload);
    assert payload !in mid && orig != payload;
    if Under(payload, orig) {
      AboveRealIsThere(t, payload, orig);
    }
    FreshCopyIsPrunedSource(mid, u, c);
    UnderParts(dir, PAYLOAD, META);
    forall p | Under(orig, p)
      ensures p in mid <==> p in t
    {
      if Under(p, dir) {
        UnderIsTransitive(orig, p, dir);
        UnderIsTransitive(orig, dir, payload);
      }
    }
  }

  lemma MetaIsAfterVersion(t: FileTree, u: FileTree, v: FileTree, orig: Path, dir: Path,
                           hidden: string -> bool, skipped: set<Path>)
    requires WellFormed(t) && dir !in t && VersionKept(t, u, orig, dir, hidden, skipped)
    requires v == u || (dir + [META] in v && v == u[dir + [META] := v[dir + [META]]])
    ensures VersionKept(t, v, orig, dir, hidden, skipped)
  {
    NothingBelow(t, dir);
    UnderParts(dir, PAYLOAD, META);
    UnderParts(dir, META, PAYLOAD);
  }

  /** Nothing stands in the way of retaining an entry: it is there, the directory can be made, and it is not
      to be made inside the entry itself. */
  predicate Retainable(t: FileTree, orig: Path, dir: Path) {
    orig in t && Makeable(t, dir) && !Under(orig, dir + [PAYLOAD])
  }

  lemma PayloadFits(t: FileTree, mid: FileTree, orig: Path, dir: Path, hidden: string -> bool)
    requires WellFormed(t) && WellFormed(mid) && orig in t && dir != [] && dir !in t
    requires Grown(t, mid, dir) && dir in mid && mid[dir] == Dir
    ensures CanRename(mid, orig, dir + [PAYLOAD]) <==> !Under(orig, dir + [PAYLOAD])
    ensures !Under(orig, dir + [PAYLOAD]) ==> Fits(mid, Plan(orig, dir + [PAYLOAD], hidden, {}), true)
  {
    var payload := dir + [PAYLOAD];
    assert Parent(payload) == dir;
    MadeDirectory(t, mid, dir);
    PayloadWasFree(t, orig, dir);
    assert Under(payload, payload);
    BelowDirFits(mid, dir, PAYLOAD);
    assert Under(payload, orig) ==> orig in mid;
  }

  /** Neither way of filling the payload touches the directory or the place of the metadata. */
  lemma MetaIsWritable(t: FileTree, mid: FileTree, u: FileTree, orig: Path, dir: Path)
    requires WellFormed(t) && dir !in t && Grown(t, mid, dir) && dir in mid && mid[dir] == Dir
    requires OnlyAdds(mid, u, dir + [PAYLOAD], true)
             || (CanRename(mid, orig, dir + [PAYLOAD]) && orig in t && u == Moved(mid, orig, dir + [PAYLOAD]))
    ensures CanWrite(u, dir + [META])
  {
    var payload, meta := dir + [PAYLOAD], dir + [META];
    assert Parent(meta) == dir;
    UnderParts(dir, PAYLOAD, META);
    UnderParts(dir, META, PAYLOAD);
    NothingBelow(t, dir);
    assert meta !in mid;
    if !OnlyAdds(mid, u, payload, true) {
      MovedAt(mid, orig, payload);
      if Under(orig, dir) {
        UnderIsTransitive(orig, dir, payload);
      }
    }
  }

  ghost predicate PayloadHolds(t: FileTree, u: FileTree, orig: Path, dir: Path, hidden: string -> bool,
                               skipped: set<Path>, move: bool) {
    if move then MovedAway(t, u, orig, dir) else VersionKept(t, u, orig, dir, hidden, skipped)
  }

  /** The tree is as it was, but for what a cleanup may leave. */
  ghost predicate NotRetained(t: FileTree, u: FileTree, dir: Path, move: bool) {
    Intact(t, u) && OnlyNear(t, u, dir) && (move ==> Empty(u, dir + [PAYLOAD]))
  }

  lemma MetaIsBeside(t: FileTree, u: FileTree, v: FileTree, orig: Path, dir: Path, hidden: string -> bool,
                     skipped: set<Path>, move: bool)
    requires WellFormed(t) && orig in t && dir !in t && PayloadHolds(t, u, orig, dir, hidden, skipped, move)
    requires v == u || (dir + [META] in v && v == u[dir + [META] := v[dir + [META]]])
    ensures PayloadHolds(t, v, orig, dir, hidden, skipped, move)
    ensures !move ==> NotRetained(t, v, dir, move)
  {
    if move {
      MetaIsApart(t, u, v, orig, dir);
    } else {
      MetaIsAfterVersion(t, u, v, orig, dir, hidden, skipped);
    }
  }

  // ---------------------------------------------------------------- what listings hide, what restores find

  /** The test that copying applies: a listing of "/" with the name in it. */
  function HiddenIn(r: Paths.Root): string -> bool {
    (name: string) => Paths.IsIgnoredVirtual(r, Paths.PathJoinVirtual("/", name))
  }

  /** It hides a name exactly when one of the segments that cleaning makes of it is hidden; of a normal name
      that is the name without trailing white space. The storage layer's own directories are never copied. */
  lemma HiddenNames(r: Paths.Root, name: string)
    ensures HiddenIn(r)(name) <==> !Paths.Visible(r, Paths.VirtualSegs("/" + name))
    ensures Paths.Normal([name]) ==> (HiddenIn(r)(name) <==> !Paths.Visible(r, Paths.Trimmed([name])))
    ensures Paths.IsInternal(name) ==> HiddenIn(r)(name)
  {
    Paths.OneSegment(name);
    Paths.IgnoredIffHidden(r, "/" + name);
    if Paths.Normal([name]) {
      assert Paths.Render([name]) == "/" + name;
      Paths.VirtualSegsOfNormal([name]);
    }
    if Paths.IsInternal(name) {
      InternalIsOrdinary(name);
    }
  }

  lemma InternalIsOrdinary(name: string)
    requires Paths.IsInternal(name)
    ensures Paths.Normal([name]) && Paths.Trimmed([name]) == [name]
  {
    assert Text.TrimRight(name) == name;
    assert [name][..0] == [];
  }

  /** A restore looks in the directory that the entry of its kind was retained in, and reads back what was
      written there. */
  lemma RecallsTheEntry(t: FileTree, codec: Codec, kind: string, id: string, e: RetainedEntry, f: RetainedEntry)
    requires codec.RoundTrips() && Paths.PathSeg(id)
    requires var dir := [if kind == "versions" || kind == "version" then Paths.VERSIONS else Paths.TRASH, id];
             Stored(t, dir + [META], codec.encode(e))
    ensures RetainedDir(kind, id)
            == [if kind == "versions" || kind == "version" then Paths.VERSIONS else Paths.TRASH, id]
    ensures HasRecord(t, codec, RetainedDir(kind, id)) && (Recalled(t, codec, RetainedDir(kind, id), f) ==> f == e)
  {
    var root := if kind == "versions" || kind == "version" then Paths.VERSIONS else Paths.TRASH;
    assert [root] + [id] == [root, id];
    assert codec.decode(codec.encode(e)) == Some(e);
  }

  /** What is retained without a virtual path is recorded under its own: unless its name ends in white space a
      restore goes back there. The base itself is never retained. */
  lemma RecordsOwnPlaceIff(orig: Path)
    requires Paths.Normal(orig) && orig != []
    ensures Paths.VirtualSegs(Paths.CleanVirtual(Recorded(orig, ""))) == orig
            <==> !Paths.EndsInSpace(Paths.Render(orig))
  {
    Paths.AbsStartsWithSlash(orig);
    assert Recorded(orig, "") == Paths.Render(orig);
    RecordedDestination(orig);
    Paths.TrimmedTwiceFixed(orig);
  }

  lemma PayloadWasFree(t: FileTree, orig: Path, dir: Path)
    requires WellFormed(t) && orig in t && dir !in t
    ensures !Under(dir + [PAYLOAD], orig)
  {
    UnderParts(dir, PAYLOAD, META);
    if Under(dir + [PAYLOAD], orig) {
      UnderIsTransitive(dir, dir + [PAYLOAD], orig);
      AboveRealIsThere(t, dir, orig);
    }
  }

  /** After trashing, nothing stands in the way of restoring to the same place. */
  lemma RestoreIsPossible(t: FileTree, u: FileTree, orig: Path, dir: Path)
    requires WellFormed(t) && orig in t && orig != [] && dir !in t && MovedAway(t, u, orig, dir)
    ensures CanRename(u, dir + [PAYLOAD], orig) && orig !in u && Restorable(u, dir, orig, false)
  {
    assert Under(orig, orig) && Rebase(orig, orig, dir + [PAYLOAD]) == dir + [PAYLOAD];
    PayloadWasFree(t, orig, dir);
    forall k | 0 <= k < |orig|
      ensures Parent(orig)[..k] == orig[..k] && orig[..k] in u && u[orig[..k]] == Dir
    {
      AboveIsDir(t, orig[..k], orig);
    }
  }

  // ---------------------------------------------------------------- the storage root

  /** `hidden` is the test that listings apply to a name. */
  class Root {
    const disk: Disk
    const hidden: string -> bool
    const codec: Codec

    ghost predicate Valid()
      reads disk`tree
    {
      disk.Valid()
    }

    constructor (disk: Disk, hidden: string -> bool, codec: Codec)
      ensures this.disk == disk && this.hidden == hidden && this.codec == codec
    {
      this.disk, this.hidden, this.codec := disk, hidden, codec;
    }

    /** A shown entry whose details cannot be read is left out without an error. */
    method List(dir: Path) returns (ok: bool, names: seq<string>, ghost unread: set<Path>)
      requires Valid()
      modifies disk`calm
      ensures ok ==> dir in disk.tree && disk.tree[dir] == Dir && Listing(disk.tree, dir, hidden, names, unread)
      ensures disk.calm ==> old(disk.calm) && unread == {} && (ok <==> dir in disk.tree && disk.tree[dir] == Dir)
    {
      names, unread := [], {};
      var fails := disk.Fails();
      ok := !fails && dir in disk.tree && disk.tree[dir].Dir?;
      if !ok {
        return;
      }
      var items := ChildNames(disk.tree, dir);
      ghost var all, left := items, {};
      while items != {}
        invariant items <= all && Distinct(names)
        invariant forall n | n in names :: n in all && n !in items && !hidden(n)
        invariant forall n | n in left :: n in all && n !in items && !hidden(n) && n !in names
        invariant forall n | n in all :: n in items || hidden(n) || n in names || n in left
        invariant disk.calm ==> old(disk.calm) && left == {}
        decreases |items|
      {
        var name :| name in items;
        items := items - {name};
        if hidden(name) {
          continue;
        }
        var unreadable := disk.Fails();
        if unreadable {
          left := left + {name};
          continue;
        }
        names := names + [name];
      }
      unread := set n | n in left :: dir + [n];
      NamesAreListing(disk.tree, dir, hidden, names, left);
    }

    /** Opens the source, makes or empties the destination, and copies the bytes. */
    method Transfer(src: Path, dst: Path, overwrite: bool) returns (ok: bool, bytes: nat)
      requires Valid() && src in disk.tree && disk.tree[src].File?
      modifies disk
      ensures Valid()
      ensures disk.tree == old(disk.tree) || Written(old(disk.tree), disk.tree, dst, overwrite)
      ensures ok ==> disk.tree == old(disk.tree)[dst := if src == dst then File([]) else old(disk.tree)[src]]
      ensures ok ==> disk.tree[dst].File? && bytes == |disk.tree[dst].data| && (src == dst ==> overwrite)
      ensures disk.calm ==> old(disk.calm) && ok == MayWrite(old(disk.tree), dst, overwrite)
    {
      bytes, ok := 0, false;
      var fails := disk.Fails();
      if fails {
        return;
      }
      ghost var t := disk.tree;
      ok := disk.Create(dst, !overwrite);
      if !ok {
        return;
      }
      var content := disk.tree[src].data;
      ok := disk.Append(dst, content);
      bytes := |content|;
      assert [] + content == content;
      assert disk.tree == t[dst := disk.tree[dst]];
    }

    /** Tries a clone first, when that is wanted. */
    method CloneOrTransfer(src: Path, dst: Path, size: nat, deduplicate: bool, overwrite: bool)
      returns (r: Result<CopyResult>)
      requires Valid() && src in disk.tree && disk.tree[src].File? && size == |disk.tree[src].data|
      modifies disk
      ensures Valid()
      ensures disk.tree == old(disk.tree) || Written(old(disk.tree), disk.tree, dst, overwrite)
      ensures r.Ok? ==> disk.tree == old(disk.tree)[dst := if src == dst then File([]) else old(disk.tree)[src]]
      ensures r.Ok? ==> r.value.files == 1 && r.value.bytes == |disk.tree[dst].data| && (src == dst ==> overwrite)
      ensures r.Ok? ==> r.value.strategy == Plain || (r.value.strategy == Clonefile && deduplicate)
      ensures r.Err? ==> r.error != InsideSource
      ensures disk.calm ==> old(disk.calm) && (MayWrite(old(disk.tree), dst, overwrite) ==> r.Ok?)
    {
      if deduplicate {
        var cloned := disk.Clone(src, dst);
        if cloned {
          return Ok(CopyResult(1, size, Clonefile));
        }
      }
      var ok, n := Transfer(src, dst, overwrite);
      r := if ok then Ok(CopyResult(1, n, Plain)) else Err(Unavailable);
    }

    /** A successful copy of a file makes the destination equal to it; only a file copied onto itself, which
        takes overwriting, is emptied instead. */
    method CopyFile(src: Path, dst: Path, deduplicate: bool, overwrite: bool)
      returns (r: Result<CopyResult>, ghost used: set<Strategy>)
      requires Valid() && dst != []
      modifies disk
      ensures Valid()
      ensures OnlyAdds(old(disk.tree), disk.tree, dst, overwrite) && NewUpTo(old(disk.tree), disk.tree, |dst|)
      ensures r.Ok? ==> src in old(disk.tree) && old(disk.tree)[src].File? && dst in disk.tree
      ensures r.Ok? ==> used != {} && Used(used, deduplicate) && r.value.strategy == Label(used)
      ensures r.Ok? && src != dst ==>
                Counted(old(disk.tree), disk.tree, Plan(src, dst, hidden, {}), r.value.files, r.value.bytes)
      ensures r.Ok? && src == dst ==>
                overwrite && disk.tree == old(disk.tree)[src := File([])] && r.value.files == 1 && r.value.bytes == 0
      ensures r.Err? ==> r.error != InsideSource
      ensures disk.calm ==> old(disk.calm) && (FileFits(old(disk.tree), src, dst, overwrite) ==> r.Ok?)
    {
      used := {};
      ghost var t := disk.tree;
      var info := disk.Stat(src);
      if !info.Found? {
        return Err(Unavailable), used;
      }
      if info.node.Dir? {
        return Err(Unavailable), used;
      }
      if !overwrite {
        var there := disk.Stat(dst);
        if there.Found? {
          return Err(DestinationExists), used;
        }
      }
      var made := disk.MkdirAll(Parent(dst));
      ghost var mid := disk.tree;
      GrownOnlyAdds(t, mid, dst, overwrite);
      if !made {
        return Err(Unavailable), used;
      }
      FileIsCounted(t, mid, src, dst, hidden);
      FileStillFits(t, mid, src, dst, overwrite);
      r := CloneOrTransfer(src, dst, |info.node.data|, deduplicate, overwrite);
      if disk.tree != mid {
        WrittenOnlyAdds(t, mid, disk.tree, dst, overwrite);
      }
      if r.Ok? {
        OneIsUsed(r.value.strategy, deduplicate);
        used := {r.value.strategy};
      }
    }

    /** Copies a folder. The test that the destination is not inside the source is made at every level; it
        can only fire at the top. */
    method CopyDir(src: Path, dst: Path, deduplicate: bool, overwrite: bool, ghost limit: nat)
      returns (r: Result<CopyResult>, ghost skipped: set<Path>, ghost used: set<Strategy>)
      requires Valid() && dst != [] && src in disk.tree && disk.tree[src] == Dir && Bounded(disk.tree, src, limit)
      modifies disk
      ensures Valid()
      ensures OnlyAdds(old(disk.tree), disk.tree, dst, overwrite) == true
      ensures NewUpTo(old(disk.tree), disk.tree, |dst| + limit - |src|)
      ensures r.Ok? ==> !Under(src, dst)
      ensures r.Ok? ==> used != {} && Used(used, deduplicate) && r.value.strategy == Label(used)
      ensures r.Ok? ==>
                CopiedAll(old(disk.tree), disk.tree, Plan(src, dst, hidden, skipped),
                          r.value.files, r.value.bytes) == true
      ensures r.Err? && r.error == InsideSource ==> Under(src, dst) && disk.tree == old(disk.tree)
      ensures disk.calm ==> old(disk.calm) && skipped == {}
      ensures disk.calm && Fits(old(disk.tree), Plan(src, dst, hidden, {}), overwrite) == true ==> r.Ok?
      decreases limit - |src|, 1
    {
      skipped, used := {}, {};
      ghost var t := disk.tree;
      DirFits(t, Plan(src, dst, hidden, {}), overwrite);
      if Under(src, dst) {
        return Err(InsideSource), skipped, used;
      }
      if !overwrite {
        var there := disk.Stat(dst);
        if there.Found? {
          return Err(DestinationExists), skipped, used;
        }
      }
      assert |src| <= limit by { assert Under(src, src); }
      var made := disk.MkdirAll(dst);
      GrownOnlyAdds(t, disk.tree, dst, overwrite);
      if !made {
        return Err(Unavailable), skipped, used;
      }
      var ok, names, unread := List(src);
      if !ok {
        return Err(Unavailable), skipped, used;
      }
      FolderStarts(t, disk.tree, Plan(src, dst, hidden, unread), names, deduplicate, overwrite, limit);
      r, skipped, used := CopyEntries(t, src, dst, names, unread, deduplicate, overwrite, limit);
      if r.Ok? {
        FolderEnds(t, disk.tree, Plan(src, dst, hidden, skipped), names, r.value, used, deduplicate);
        EmptyIsPlain(used, deduplicate);
        r := Ok(r.value.(strategy := AtLeastPlain(r.value.strategy)));
        used := if used == {} then {Plain} else used;
      }
    }

    /** The loop over the entries of a folder that was listed in the tree t. Predicates are compared with
        true to keep their bodies out of the loop. */
    method CopyEntries(ghost t: FileTree, src: Path, dst: Path, names: seq<string>, ghost unread: set<Path>,
                       deduplicate: bool, overwrite: bool, ghost limit: nat)
      returns (r: Result<CopyResult>, ghost skipped: set<Path>, ghost used: set<Strategy>)
      requires WellFormed(t) && src in t && Bounded(t, src, limit) && !Under(src, dst) && Distinct(names)
      requires Looping(t, disk.tree, src, dst, names, hidden, overwrite, limit)
      requires Reported(t, disk.tree, Plan(src, dst, hidden, unread), names, 0,
                        CopyResult(0, 0, Unset), {}, deduplicate)
      modifies disk
      ensures Looping(t, disk.tree, src, dst, names, hidden, overwrite, limit) == true
      ensures r.Ok? ==>
                Reported(t, disk.tree, Plan(src, dst, hidden, skipped), names, |names|,
                         r.value, used, deduplicate) == true
      ensures r.Err? ==> r.error != InsideSource
      ensures disk.calm ==> old(disk.calm) && (unread == {} ==> skipped == {})
      ensures disk.calm && unread == {} && FolderFits(t, Plan(src, dst, hidden, {}), overwrite) == true ==> r.Ok?
      decreases limit - |src|, 0
    {
      skipped, used := unread, {};
      var result := CopyResult(0, 0, Unset);
      var i := 0;
      while i < |names|
        invariant i <= |names|
        invariant Looping(t, disk.tree, src, dst, names, hidden, overwrite, limit) == true
        invariant Reported(t, disk.tree, Plan(src, dst, hidden, skipped), names, i, result, used, deduplicate) == true
        invariant disk.calm ==> old(disk.calm) && (unread == {} ==> skipped == {})
      {
        r, skipped, used := CopyEntry(t, src, dst, names, i, result, skipped, used, deduplicate, overwrite, limit);
        if r.Err? {
          return;
        }
        result := r.value;
        i := i + 1;
      }
      r := Ok(result);
    }

    /** The copy of the entry with index i, and what is to be reported then. */
    method CopyEntry(ghost t: FileTree, src: Path, dst: Path, names: seq<string>, i: nat, result: CopyResult,
                     ghost skippedBefore: set<Path>, ghost usedBefore: set<Strategy>, deduplicate: bool,
                     overwrite: bool, ghost limit: nat)
      returns (r: Result<CopyResult>, ghost skipped: set<Path>, ghost used: set<Strategy>)
      requires WellFormed(t) && src in t && Bounded(t, src, limit) && !Under(src, dst) && Distinct(names)
      requires i < |names| && Looping(t, disk.tree, src, dst, names, hidden, overwrite, limit)
      requires Reported(t, disk.tree, Plan(src, dst, hidden, skippedBefore), names, i, result, usedBefore, deduplicate)
      modifies disk
      ensures Looping(t, disk.tree, src, dst, names, hidden, overwrite, limit) == true
      ensures r.Ok? ==>
                Reported(t, disk.tree, Plan(src, dst, hidden, skipped), names, i + 1,
                         r.value, used, deduplicate) == true
      ensures r.Err? ==> r.error != InsideSource
      ensures disk.calm ==> old(disk.calm) && (skippedBefore == {} ==> skipped == {})
      ensures disk.calm && skippedBefore == {} && FolderFits(t, Plan(src, dst, hidden, {}), overwrite) == true ==> r.Ok?
      decreases limit - |src| - 1, 3
    {
      ghost var mid := disk.tree;
      ChildrenAreApart(src, dst, names[i]);
      ChildIsBounded(mid, src, names[i], limit);
      NextFits(t, mid, Plan(src, dst, hidden, skippedBefore), names, i, result.files, result.bytes, overwrite);
      ghost var below;
      var child;
      child, below, used := Copy(src + [names[i]], dst + [names[i]], deduplicate, overwrite, limit);
      skipped := skippedBefore + below;
      EntryReported(t, mid, disk.tree, Plan(src, dst, hidden, skippedBefore), names, i, below, result, usedBefore,
                  child, used, deduplicate, overwrite, limit);
      used := usedBefore + used;
      r := if child.Ok? then Ok(Sum(result, child.value)) else Err(child.error);
    }

    method Copy(src: Path, dst: Path, deduplicate: bool, overwrite: bool, ghost limit: nat)
      returns (r: Result<CopyResult>, ghost skipped: set<Path>, ghost used: set<Strategy>)
      requires Valid() && Bounded(disk.tree, src, limit)
      modifies disk
      ensures Valid()
      ensures OnlyAdds(old(disk.tree), disk.tree, dst, overwrite)
      ensures NewUpTo(old(disk.tree), disk.tree, |dst| + limit - |src|)
      ensures r.Ok? ==> dst != [] && src in old(disk.tree)
      ensures r.Ok? ==> used != {} && Used(used, deduplicate) && r.value.strategy == Label(used)
      ensures r.Ok? ==>
                CopiedAll(old(disk.tree), disk.tree, Plan(src, dst, hidden, skipped), r.value.files, r.value.bytes)
      ensures r.Ok? && Under(src, dst) ==>
                src == dst && old(disk.tree)[src].File? && overwrite && disk.tree == old(disk.tree)[src := File([])]
      ensures r.Err? && r.error == InsideSource ==> Under(src, dst) && disk.tree == old(disk.tree)
      ensures disk.calm ==> old(disk.calm) && skipped == {}
      ensures disk.calm && Fits(old(disk.tree), Plan(src, dst, hidden, {}), overwrite) ==> r.Ok?
      decreases limit - |src|, 2
    {
      skipped, used := {}, {};
      ghost var t := disk.tree;
      var info := disk.Stat(src);
      if !info.Found? {
        return Err(Unavailable), skipped, used;
      }
      assert |src| <= limit by { assert Under(src, src); }
      if dst == [] {
        return Err(OutsideRoot), skipped, used;
      }
      if info.node.Dir? {
        r, skipped, used := CopyDir(src, dst, deduplicate, overwrite, limit);
      } else {
        FileFitsToo(t, Plan(src, dst, hidden, {}), overwrite);
        r, used := CopyFile(src, dst, deduplicate, overwrite);
        assert Under(src, src);
        if r.Ok? {
          FileHasNothingBelow(t, disk.tree, src, dst);
          FileIsAll(t, disk.tree, src, dst, hidden, overwrite, r.value.files, r.value.bytes);
        }
      }
    }

    // -------------------------------------------------------------- trash and versions

    /** Removes the retained directory, as far as that works. */
    method Cleanup(ghost t: FileTree, dir: Path)
      requires Valid() && WellFormed(t) && dir !in t
      modifies disk
      ensures Valid()
      ensures Intact(t, old(disk.tree)) ==> Intact(t, disk.tree)
      ensures OnlyNear(t, old(disk.tree), dir) ==> OnlyNear(t, disk.tree, dir)
      ensures Empty(old(disk.tree), dir + [PAYLOAD]) ==> Empty(disk.tree, dir + [PAYLOAD])
      ensures disk.calm ==> old(disk.calm)
    {
      var _ := disk.RemoveAll(dir);
      CleanedUp(t, old(disk.tree), disk.tree, dir);
    }

    /** Moves or copies what is at `orig` to the payload of a retained directory that was made in the tree t. */
    method FillPayload(ghost t: FileTree, orig: Path, dir: Path, move: bool)
      returns (ok: bool, ghost skipped: set<Path>)
      requires Valid() && WellFormed(t) && orig in t && dir != [] && dir !in t
      requires Grown(t, disk.tree, dir) && dir in disk.tree && disk.tree[dir] == Dir
      modifies disk
      ensures Valid() && (ok ==> CanWrite(disk.tree, dir + [META]))
      ensures ok ==> PayloadHolds(t, disk.tree, orig, dir, hidden, skipped, move) == true
      ensures !ok ==> NotRetained(t, disk.tree, dir, move) == true
      ensures disk.calm ==> old(disk.calm) && skipped == {} && ok == !Under(orig, dir + [PAYLOAD])
    {
      var payload := dir + [PAYLOAD];
      skipped := {};
      ghost var mid := disk.tree;
      MadeDirectory(t, mid, dir);
      PayloadFits(t, mid, orig, dir, hidden);
      if move {
        ok := disk.Rename(orig, payload);
        if ok {
          MovedAside(t, mid, orig, dir);
          MetaIsWritable(t, mid, disk.tree, orig, dir);
        }
        return;
      }
      ghost var limit := EveryTreeIsBounded(disk.tree);
      var copied, left, used := Copy(orig, payload, true, true, limit);
      CopiedAside(t, mid, disk.tree, dir);
      MetaIsWritable(t, mid, disk.tree, orig, dir);
      ok := copied.Ok?;
      if ok {
        skipped := left;
        PayloadIsVersion(t, mid, disk.tree, orig, dir, hidden, skipped, copied.value.files, copied.value.bytes);
      }
    }

    /** Writes the metadata beside a filled payload. If that fails, what was moved is moved back. */
    method WriteMeta(ghost t: FileTree, orig: Path, dir: Path, move: bool, data: seq<byte>, ghost skipped: set<Path>)
      returns (written: bool, back: bool)
      requires Valid() && WellFormed(t) && orig in t && dir !in t && CanWrite(disk.tree, dir + [META])
      requires PayloadHolds(t, disk.tree, orig, dir, hidden, skipped, move)
      modifies disk
      ensures Valid() && (written || !back ==> PayloadHolds(t, disk.tree, orig, dir, hidden, skipped, move) == true)
      ensures written ==> Stored(disk.tree, dir + [META], data)
      ensures !written && back ==> NotRetained(t, disk.tree, dir, move) == true
      ensures !move ==> back
      ensures disk.calm ==> old(disk.calm) && written
    {
      ghost var kept := disk.tree;
      written := disk.WriteFile(dir + [META], data);
      back := true;
      MetaIsBeside(t, kept, disk.tree, orig, dir, hidden, skipped, move);
      if !written && move {
        ghost var stuck := disk.tree;
        back := disk.Rename(dir + [PAYLOAD], orig);
        if back {
          MovedBackAgain(t, stuck, orig, dir);
        }
      }
    }

    /** Moves or copies what is at `orig` to a retained directory, with metadata. The id is made from the
        time in nanoseconds and is not checked; `requires` says that it is new. */
    method Retain(orig: Path, virtual: string, id: string, rootName: string, move: bool)
      returns (r: Result<RetainedEntry>, ghost skipped: set<Path>)
      requires Valid() && codec.RoundTrips() && [rootName, id] !in disk.tree
      modifies disk
      ensures Valid()
      ensures r.Err? && r.error != RollbackFailed ==> Intact(old(disk.tree), disk.tree)
      ensures r.Err? && r.error != RollbackFailed ==> OnlyNear(old(disk.tree), disk.tree, [rootName, id])
      ensures r.Err? && r.error != RollbackFailed && move ==> Empty(disk.tree, [rootName, id] + [PAYLOAD])
      ensures r.Err? && r.error == RollbackFailed ==>
                move && orig in old(disk.tree) && MovedAway(old(disk.tree), disk.tree, orig, [rootName, id])
      ensures r.Ok? ==> orig in old(disk.tree)
      ensures r.Ok? ==>
                Describes(r.value, old(disk.tree)[orig], Paths.CleanVirtual(Recorded(orig, virtual)), rootName, id)
      ensures r.Ok? ==> Stored(disk.tree, [rootName, id] + [META], codec.encode(r.value))
      ensures r.Ok? && move ==> MovedAway(old(disk.tree), disk.tree, orig, [rootName, id])
      ensures r.Ok? && !move ==> VersionKept(old(disk.tree), disk.tree, orig, [rootName, id], hidden, skipped)
      ensures disk.calm ==> old(disk.calm) && skipped == {}
      ensures disk.calm ==> r.Ok? == Retainable(old(disk.tree), orig, [rootName, id])
    {
      ghost var t := disk.tree;
      skipped := {};
      var dir := [rootName, id];
      MadeDirectory(t, t, dir);
      var info := disk.Stat(orig);
      if !info.Found? {
        return Err(Unavailable), skipped;
      }
      var made := disk.MkdirAll(dir);
      MadeDirectory(t, disk.tree, dir);
      if !made {
        return Err(Unavailable), skipped;
      }
      var size: nat := if info.node.File? then |info.node.data| else 0;
      var entry := RetainedEntry(id, Paths.CleanVirtual(Recorded(orig, virtual)),
                                 "/" + rootName + "/" + id, size, info.node.Dir?);
      var unmarshalled := disk.Fails();
      if unmarshalled {
        Cleanup(t, dir);
        return Err(Unavailable), skipped;
      }
      var filled;
      filled, skipped := FillPayload(t, orig, dir, move);
      if !filled {
        Cleanup(t, dir);
        return Err(Unavailable), skipped;
      }
      var written, back := WriteMeta(t, orig, dir, move, codec.encode(entry), skipped);
      if !written {
        if !back {
          return Err(RollbackFailed), skipped;
        }
        Cleanup(t, dir);
        return Err(Unavailable), skipped;
      }
      r := Ok(entry);
    }

    method Trash(orig: Path, virtual: string, id: string) returns (r: Result<RetainedEntry>)
      requires Valid() && codec.RoundTrips() && [Paths.TRASH, id] !in disk.tree
      modifies disk
      ensures Valid()
      ensures r.Ok? ==> orig in old(disk.tree) && MovedAway(old(disk.tree), disk.tree, orig, [Paths.TRASH, id])
      ensures r.Ok? ==>
                Describes(r.value, old(disk.tree)[orig], Paths.CleanVirtual(Recorded(orig, virtual)), Paths.TRASH, id)
      ensures r.Ok? ==> Stored(disk.tree, [Paths.TRASH, id] + [META], codec.encode(r.value))
      ensures r.Err? && r.error == RollbackFailed ==>
                orig in old(disk.tree) && MovedAway(old(disk.tree), disk.tree, orig, [Paths.TRASH, id])
      ensures r.Err? && r.error != RollbackFailed ==> StillThere(old(disk.tree), disk.tree, [Paths.TRASH, id])
      ensures disk.calm ==> old(disk.calm) && r.Ok? == Retainable(old(disk.tree), orig, [Paths.TRASH, id])
    {
      ghost var skipped;
      r, skipped := Retain(orig, virtual, id, Paths.TRASH, true);
    }

    method Version(orig: Path, virtual: string, id: string) returns (r: Result<RetainedEntry>, ghost skipped: set<Path>)
      requires Valid() && codec.RoundTrips() && [Paths.VERSIONS, id] !in disk.tree
      modifies disk
      ensures Valid() && Intact(old(disk.tree), disk.tree) && OnlyNear(old(disk.tree), disk.tree, [Paths.VERSIONS, id])
      ensures r.Ok? ==> orig in old(disk.tree)
      ensures r.Ok? ==>
                Describes(r.value, old(disk.tree)[orig], Paths.CleanVirtual(Recorded(orig, virtual)),
                          Paths.VERSIONS, id)
      ensures r.Ok? ==> Stored(disk.tree, [Paths.VERSIONS, id] + [META], codec.encode(r.value))
      ensures r.Ok? ==> VersionKept(old(disk.tree), disk.tree, orig, [Paths.VERSIONS, id], hidden, skipped)
      ensures r.Ok? && old(disk.tree)[orig].File? ==>
                Stored(disk.tree, [Paths.VERSIONS, id] + [PAYLOAD], old(disk.tree)[orig].data)
      ensures disk.calm ==> old(disk.calm) && skipped == {}
      ensures disk.calm ==> r.Ok? == Retainable(old(disk.tree), orig, [Paths.VERSIONS, id])
    {
      r, skipped := Retain(orig, virtual, id, Paths.VERSIONS, false);
      assert Under(orig, orig)
             && Rebase(orig, orig, [Paths.VERSIONS, id] + [PAYLOAD]) == [Paths.VERSIONS, id] + [PAYLOAD];
    }

    /** Reads the metadata of a retained directory and picks the destination. */
    method ReadRecord(kind: string, id: string, destVirtual: string) returns (r: Result<string>, ghost e: RetainedEntry)
      requires Valid()
      modifies disk`answers, disk`calm
      ensures r.Ok? ==> Recalled(disk.tree, codec, RetainedDir(kind, id), e)
      ensures r.Ok? ==> r.value == if destVirtual == "" then e.originalPath else destVirtual
      ensures r.Ok? ==> disk.answers == old(disk.answers) + [MetaWasRead(disk.tree, RetainedDir(kind, id))]
      ensures disk.calm ==> old(disk.calm)
      ensures disk.calm && id != "" && '/' !in id ==> r.Ok? == HasRecord(disk.tree, codec, RetainedDir(kind, id))
    {
      e := RetainedEntry("", "", "", 0, false);
      if id == "" || '/' in id {
        return Err(OutsideRoot), e;
      }
      var raw := disk.Stat(RetainedDir(kind, id) + [META]);
      if !raw.Found? || raw.node.Dir? {
        return Err(Unavailable), e;
      }
      var entry := codec.decode(raw.node.data);
      if entry.None? {
        return Err(Unavailable), e;
      }
      e := entry.value;
      r := Ok(if destVirtual == "" then entry.value.originalPath else destVirtual);
    }

    /** Makes the directories above the destination, and removes what is there when overwriting. */
    method MakeWay(dir: Path, dest: Path, overwrite: bool) returns (made: bool)
      requires Valid()
      modifies disk`tree, disk`calm
      ensures Valid() && Prepared(old(disk.tree), disk.tree, dest) == true
      ensures !overwrite ==> Intact(old(disk.tree), disk.tree)
      ensures disk.calm ==> old(disk.calm)
      ensures disk.calm && (overwrite || dest !in old(disk.tree)) ==>
                (made && CanRename(disk.tree, dir + [PAYLOAD], dest))
                == Restorable(old(disk.tree), dir, dest, overwrite)
    {
      ghost var t := disk.tree;
      made := disk.MkdirAll(if dest == [] then [] else Parent(dest));
      ghost var grown := disk.tree;
      RootOrPrepared(t, grown, grown, dest);
      if !made {
        return;
      }
      if overwrite {
        var _ := disk.RemoveAll(dest);
      }
      RootOrPrepared(t, grown, disk.tree, dest);
      if disk.calm && (overwrite || dest !in t) {
        MoveFits(t, grown, disk.tree, dir, dest, overwrite);
      }
    }

    /** Moves a payload to its destination. Without overwriting, the destination must not be there; any
        error of the test for it, whose answer is `test`, reads as "not there". */
    method MoveBack(dir: Path, dest: Path, overwrite: bool) returns (r: Result<()>, ghost test: Seen)
      requires Valid()
      modifies disk
      ensures Valid() && disk.answers == old(disk.answers) + if overwrite then [] else [(dest, test)]
      ensures !overwrite && test.Found? <==> r == Err(DestinationExists)
      ensures r == Err(DestinationExists) ==> disk.tree == old(disk.tree)
      ensures r.Ok? ==> Restored(old(disk.tree), disk.tree, dest, dir)
      ensures r.Ok? && !overwrite && dest in old(disk.tree) ==> test.Failed? && Free(old(disk.tree), dest, dir)
      ensures r.Err? ==> Prepared(old(disk.tree), disk.tree, dest)
      ensures r.Err? && !overwrite ==> Intact(old(disk.tree), disk.tree)
      ensures disk.calm ==> old(disk.calm) && r.Ok? == Restorable(old(disk.tree), dir, dest, overwrite)
    {
      test := Absent;
      ghost var t := disk.tree;
      if !overwrite {
        var there := disk.Stat(dest);
        test := there;
        if there.Found? {
          return Err(DestinationExists), test;
        }
      }
      var made := MakeWay(dir, dest, overwrite);
      if !made {
        return Err(Unavailable), test;
      }
      ghost var mid := disk.tree;
      var moved := disk.Rename(dir + [PAYLOAD], dest);
      if !moved {
        return Err(Unavailable), test;
      }
      Tidy(dir);
      RestoredBy(t, mid, disk.tree, dest, dir);
      r := Ok(());
    }

    /** Removes the metadata and the retained directory, as far as that works. */
    method Tidy(dir: Path)
      requires Valid()
      modifies disk`tree, disk`calm
      ensures Valid() && Tidied(old(disk.tree), disk.tree, dir)
      ensures disk.calm ==> old(disk.calm)
    {
      var _ := disk.Remove(dir + [META]);
      var _ := disk.Remove(dir);
    }

    /** Restores what an id stands for, to a given virtual path or to the recorded one. `read` says whether the
        record could be read, and `test` is the answer of the existence test. */
    method Restore(kind: string, id: string, destVirtual: string, overwrite: bool)
      returns (r: Result<string>, ghost read: bool, ghost dest: Path, ghost e: RetainedEntry, ghost test: Seen)
      requires Valid()
      modifies disk
      ensures Valid() && (!read ==> r.Err? && disk.tree == old(disk.tree))
      ensures read ==> RestoresTo(old(disk.tree), codec, kind, id, destVirtual, e, dest)
      ensures read ==> disk.answers == old(disk.answers) + [MetaWasRead(old(disk.tree), RetainedDir(kind, id))]
                                       + if overwrite then [] else [(dest, test)]
      ensures read ==> (!overwrite && test.Found? <==> r == Err(DestinationExists))
      ensures r.Ok? ==> r.value == Paths.Render(dest)
      ensures r.Ok? ==> Restored(old(disk.tree), disk.tree, dest, RetainedDir(kind, id))
      ensures r.Ok? && !overwrite && dest in old(disk.tree) ==>
                test.Failed? && Free(old(disk.tree), dest, RetainedDir(kind, id))
      ensures r.Err? ==> Prepared(old(disk.tree), disk.tree, dest)
      ensures r.Err? && !overwrite ==> Intact(old(disk.tree), disk.tree)
      ensures disk.calm ==> old(disk.calm)
      ensures disk.calm && id != "" && '/' !in id ==> read == HasRecord(old(disk.tree), codec, RetainedDir(kind, id))
      ensures disk.calm && read ==> r.Ok? == Restorable(old(disk.tree), RetainedDir(kind, id), dest, overwrite)
    {
      read, dest, test := false, [], Absent;
      var record;
      record, e := ReadRecord(kind, id, destVirtual);
      if record.Err? {
        return Err(record.error), read, dest, e, test;
      }
      var place := Paths.VirtualSegs(record.value);
      read, dest := true, place;
      var moved;
      moved, test := MoveBack(RetainedDir(kind, id), place, overwrite);
      if moved.Err? {
        return Err(moved.error), read, dest, e, test;
      }
      Paths.CleanVirtualIsNormal(record.value);
      r := Ok(Paths.CleanVirtual(record.value));
    }

    // -------------------------------------------------------------- putting a staged file into place

    /** Versions a file that is about to be replaced. */
    method Preserve(dest: Path, virtual: string, id: string) returns (ok: bool)
      requires Valid() && codec.RoundTrips() && [Paths.VERSIONS, id] !in disk.tree
      requires dest in disk.tree && disk.tree[dest].File?
      modifies disk
      ensures Valid() && Intact(old(disk.tree), disk.tree) && OnlyNear(old(disk.tree), disk.tree, [Paths.VERSIONS, id])
      ensures ok ==> FilePreserved(codec, disk.tree, old(disk.tree)[dest], Recorded(dest, virtual), id)
      ensures disk.calm ==> old(disk.calm) && ok == Retainable(old(disk.tree), dest, [Paths.VERSIONS, id])
    {
      var kept, skipped := Version(dest, virtual, id);
      ok := kept.Ok?;
    }

    /** Replaces the destination by a fully written staged file. The id is new: neither path is in its
        directory. */
    method ReplaceFile(staged: Path, dest: Path, virtual: string, id: string, preserve: bool) returns (r: Result<()>)
      requires Valid() && codec.RoundTrips() && [Paths.VERSIONS, id] !in disk.tree
      requires !Under([Paths.VERSIONS, id], staged) && !Under([Paths.VERSIONS, id], dest)
      modifies disk
      ensures Valid()
      ensures r.Ok? ==> staged in old(disk.tree) && (dest in old(disk.tree) ==> old(disk.tree)[dest].File?)
      ensures r.Ok? && staged != dest && old(disk.tree)[staged].File? ==>
                Replaced(old(disk.tree), disk.tree, staged, dest, [Paths.VERSIONS, id])
      ensures r.Ok? && dest in old(disk.tree) && preserve ==>
                FilePreserved(codec, disk.tree, old(disk.tree)[dest], Recorded(dest, virtual), id)
      ensures r.Ok? && !(preserve && dest in old(disk.tree)) ==> disk.tree == Moved(old(disk.tree), staged, dest)
      ensures r.Ok? && old(disk.tree)[staged] == Dir ==> dest !in old(disk.tree)
      ensures r.Err? || staged == dest ==> Intact(old(disk.tree), disk.tree)
      ensures r.Err? || staged == dest ==> OnlyNear(old(disk.tree), disk.tree, [Paths.VERSIONS, id])
      ensures disk.calm ==> old(disk.calm) && r.Ok? == Replaceable(old(disk.tree), staged, dest, id, preserve)
    {
      ghost var t := disk.tree;
      var info := disk.Stat(dest);
      if info.Failed? {
        return Err(Unavailable);
      }
      if info.Found? && info.node.Dir? {
        return Err(DestinationIsDirectory);
      }
      if info.Found? && preserve {
        var kept := Preserve(dest, virtual, id);
        if !kept {
          return Err(Unavailable);
        }
      }
      ghost var mid := disk.tree;
      StillReplaceable(t, mid, staged, dest, [Paths.VERSIONS, id]);
      var moved := disk.Rename(staged, dest);
      if !moved {
        return Err(Unavailable);
      }
      StagedWasThere(t, mid, staged, dest, [Paths.VERSIONS, id]);
      if staged == dest {
        MovedNowhere(mid, staged);
      } else if t[staged].File? {
        RenamedIntoPlace(t, mid, staged, dest, [Paths.VERSIONS, id]);
        MovedFile(mid, staged, dest);
        if info.Found? && preserve {
          StillPreserved(t, mid, disk.tree, staged, dest, codec, Recorded(dest, virtual), id);
        }
      }
      r := Ok(());
    }

    /** Puts a staged file where nothing is. If the staged name cannot be removed the new name is, and if
        that fails too both names stay. */
    method InstallFile(staged: Path, dest: Path) returns (ok: bool)
      requires Valid()
      modifies disk
      ensures Valid()
      ensures ok ==> staged in old(disk.tree) && dest !in old(disk.tree)
      ensures ok ==> disk.tree == old(disk.tree)[dest := old(disk.tree)[staged]] - {staged}
      ensures !ok ==> disk.tree == old(disk.tree)
                      || (staged in old(disk.tree) && dest !in old(disk.tree)
                          && disk.tree == old(disk.tree)[dest := old(disk.tree)[staged]])
      ensures disk.calm ==> old(disk.calm) && ok == Installable(old(disk.tree), staged, dest)
    {
      ghost var t := disk.tree;
      ok := disk.Link(staged, dest);
      if !ok {
        return;
      }
      LinkedIsRemovable(t, staged, dest);
      ok := disk.Remove(staged);
      if !ok {
        var undone := disk.Remove(dest);
        assert undone ==> disk.tree == old(disk.tree);
      }
    }
  }

  /** Deleting and restoring without a destination, end to end: when both succeed, users have the tree they had
      exactly when the recorded path leads back to the place, and then both succeed if no call fails. When the
      restore fails, the payload is kept. */
  method TrashThenRestore(root: Root, orig: Path, virtual: string, kind: string, id: string)
    returns (trashed: bool, restored: bool)
    requires root.Valid() && root.codec.RoundTrips() && [Paths.TRASH, id] !in root.disk.tree
    requires Paths.PathSeg(id) && UserPath(orig) && orig != [] && kind != "versions" && kind != "version"
    modifies root.disk
    ensures root.Valid() && (restored ==> trashed)
    ensures restored ==> orig in old(root.disk.tree)
    ensures restored ==>
              (SameForUsers(old(root.disk.tree), root.disk.tree)
               <==> Paths.VirtualSegs(Paths.CleanVirtual(Recorded(orig, virtual))) == orig)
    ensures trashed && !restored ==>
              orig in old(root.disk.tree) && PayloadKept(old(root.disk.tree), root.disk.tree, orig, id)
    ensures root.disk.calm ==> trashed == Retainable(old(root.disk.tree), orig, [Paths.TRASH, id])
    ensures root.disk.calm && trashed && Paths.VirtualSegs(Paths.CleanVirtual(Recorded(orig, virtual))) == orig ==>
              restored
  {
    restored := false;
    ghost var t := root.disk.tree;
    var entry := root.Trash(orig, virtual, id);
    trashed := entry.Ok?;
    if !trashed {
      return;
    }
    ghost var u := root.disk.tree;
    var place, read, dest, e, test := root.Restore(kind, id, "", false);
    RecallsTheEntry(u, root.codec, kind, id, entry.value, e);
    RestoreIsPossible(t, u, orig, [Paths.TRASH, id]);
    restored := place.Ok?;
    if restored {
      TrashThenRestoreIff(t, u, root.disk.tree, orig, dest, [Paths.TRASH, id]);
    }
  }

  /** Versioning a file and restoring the version, end to end: the old bytes come to the recorded or the given
      place and users see no other change, or, without overwriting, the version is kept. If no call fails, the
      restore to a place of the users succeeds exactly when directories can be made above it and, without
      overwriting, nothing is there. */
  method VersionThenRestore(root: Root, orig: Path, virtual: string, kind: string, id: string, destVirtual: string,
                            overwrite: bool)
    returns (versioned: bool, restored: bool, ghost place: Path)
    requires root.Valid() && root.codec.RoundTrips() && [Paths.VERSIONS, id] !in root.disk.tree
    requires Paths.PathSeg(id) && kind in {"versions", "version"}
    requires orig in root.disk.tree && root.disk.tree[orig].File?
    modifies root.disk
    ensures root.Valid() && (restored ==> versioned)
    ensures place
            == Paths.VirtualSegs(if destVirtual == "" then Paths.CleanVirtual(Recorded(orig, virtual)) else destVirtual)
    ensures restored && place != [Paths.VERSIONS, id, META] ==>
              PutBack(old(root.disk.tree), root.disk.tree, place, old(root.disk.tree)[orig]) == true
    ensures versioned && !restored && !overwrite ==>
              Stored(root.disk.tree, [Paths.VERSIONS, id, PAYLOAD], old(root.disk.tree)[orig].data)
    ensures root.disk.calm ==> versioned == Retainable(old(root.disk.tree), orig, [Paths.VERSIONS, id])
    ensures root.disk.calm && versioned && UserPath(place) && place != [] ==>
              restored == (Makeable(old(root.disk.tree), Parent(place))
                           && (overwrite || place !in old(root.disk.tree)))
  {
    restored := false;
    place := Paths.VirtualSegs(if destVirtual == "" then Paths.CleanVirtual(Recorded(orig, virtual)) else destVirtual);
    ghost var t := root.disk.tree;
    ghost var dir := [Paths.VERSIONS, id];
    assert dir + [PAYLOAD] == [Paths.VERSIONS, id, PAYLOAD] && dir + [META] == [Paths.VERSIONS, id, META];
    var entry, skipped := root.Version(orig, virtual, id);
    versioned := entry.Ok?;
    if !versioned {
      return;
    }
    ghost var u := root.disk.tree;
    var result, read, dest, e, test := root.Restore(kind, id, destVirtual, overwrite);
    RecallsTheEntry(u, root.codec, kind, id, entry.value, e);
    VersionIsRestorable(t, u, dir, place, overwrite);
    restored := result.Ok?;
    if restored && place != dir + [META] {
      VersionIsPutBack(t, u, root.disk.tree, dir, place, t[orig].data);
    }
  }

  /** The entry is at the place, with directories above it; nothing else of what users see has changed. */
  ghost predicate PutBack(t: FileTree, u: FileTree, place: Path, node: Node) {
    && place in u && u[place] == node
    && (forall q | q in t && UserPath(q) && !Under(place, q) :: q in u && u[q] == t[q])
    && (forall q | q in u && UserPath(q) && q !in t && q != place :: u[q] == Dir && Under(q, place))
  }

  lemma VersionIsPutBack(t: FileTree, u: FileTree, v: FileTree, dir: Path, place: Path, data: seq<byte>)
    requires WellFormed(t) && WellFormed(u) && Retained(dir) && dir !in t && Intact(t, u) && OnlyNear(t, u, dir)
    requires Stored(u, dir + [PAYLOAD], data) && Restored(u, v, place, dir) && place != dir + [META]
    ensures PutBack(t, v, place, File(data))
  {
    var payload := dir + [PAYLOAD];
    NothingBelow(u, payload);
    assert Rebase(place, place, payload) == payload;
    forall q | q in v && Under(place, q)
      ensures q == place
    {
      assert Rebase(q, place, payload) == payload;
    }
    forall q | UserPath(q) && q != []
      ensures !Near(dir, q) && q != dir && q != dir + [META] && !Under(payload, q)
    {
      NotNear(dir, q);
    }
  }

  lemma VersionIsRestorable(t: FileTree, u: FileTree, dir: Path, place: Path, overwrite: bool)
    requires WellFormed(t) && Retained(dir) && Intact(t, u) && OnlyNear(t, u, dir) && dir + [PAYLOAD] in u
    ensures UserPath(place) && place != [] ==>
              (Restorable(u, dir, place, overwrite) <==> Makeable(t, Parent(place)) && (overwrite || place !in t))
  {
    if UserPath(place) && place != [] {
      NotNear(dir, place);
      UnderParts(dir, PAYLOAD, META);
      if Under(place, dir + [PAYLOAD]) {
        NearChild(dir, PAYLOAD, place);
      }
      forall k | 0 <= k < |place|
        ensures place[..k] in t <==> place[..k] in u
      {
        if k > 0 {
          NotNear(dir, place[..k]);
        }
      }
      forall k | 0 <= k <= |place| - 1
        ensures Parent(place)[..k] == place[..k]
      {}
    }
  }

  ghost predicate PayloadKept(t: FileTree, u: FileTree, orig: Path, id: string) {
    forall q | q in t && Under(orig, q) ::
      var p := Rebase(q, orig, [Paths.TRASH, id] + [PAYLOAD]);
      p in u && u[p] == t[q]
  }
}
