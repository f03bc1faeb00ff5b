/** What the operations of the storage layer keep over whole runs: no bytes of a user's file get lost, whichever
    calls fail, but for restores over a file that no other place holds, which takes a failed existence test, and
    restores to where users do not see. The operations are those of Storage.dfy. */
module Conservation {
  import opened Bytes
  import opened Common
  import opened Retention
  import opened Tree
  import Paths
  import Storage

  /** In the payload of a retained directory. */
  predicate InPayload(p: Path) {
    |p| >= 3 && (p[0] == Paths.TRASH || p[0] == Paths.VERSIONS) && p[2] == PAYLOAD
  }

  /** Where users see it, or retained. */
  predicate Counts(p: Path) { UserPath(p) || InPayload(p) }

  ghost predicate Holds(t: FileTree, data: seq<byte>) {
    exists p :: p in t && Counts(p) && t[p] == File(data)
  }

  /** What is at p is a file, and another place holds its bytes too. */
  ghost predicate HeldElsewhere(t: FileTree, p: Path)
    requires p in t
  {
    t[p].File? && exists q :: q in t && q != p && Counts(q) && t[q] == t[p]
  }

  ghost predicate Conserved(t: FileTree, u: FileTree) {
    forall data :: Holds(t, data) ==> Holds(u, data)
  }

  // ---------------------------------------------------------------- one operation

  /** Each file that counted before is at a place that counts. */
  ghost predicate FilesGoOn(t: FileTree, u: FileTree) {
    forall p | p in t && t[p].File? && Counts(p) :: Holds(u, t[p].data)
  }

  lemma GoingOnConserves(t: FileTree, u: FileTree)
    requires FilesGoOn(t, u)
    ensures Conserved(t, u)
  {}

  lemma IntactConserves(t: FileTree, u: FileTree)
    requires Intact(t, u)
    ensures Conserved(t, u)
  {
    GoingOnConserves(t, u);
  }

  lemma PayloadCounts(root: string, id: string, orig: Path, p: Path)
    requires (root == Paths.TRASH || root == Paths.VERSIONS) && Under(orig, p)
    ensures InPayload(Rebase(p, orig, [root, id] + [PAYLOAD]))
  {}

  lemma BelowUserPath(dest: Path, p: Path)
    requires UserPath(dest) && dest != [] && Under(dest, p)
    ensures UserPath(p)
  {
    assert p[0] == p[..|dest|][0];
  }

  lemma TrashConserves(t: FileTree, u: FileTree, orig: Path, id: string)
    requires MovedAway(t, u, orig, [Paths.TRASH, id])
    ensures Conserved(t, u)
  {
    forall p | p in t && t[p].File? && Counts(p)
      ensures Holds(u, t[p].data)
    {
      if Under(orig, p) {
        PayloadCounts(Paths.TRASH, id, orig, p);
      }
    }
    GoingOnConserves(t, u);
  }

  lemma ReplaceConserves(t: FileTree, u: FileTree, staged: Path, dest: Path, id: string)
    requires UserPath(dest) && staged in t && Replaced(t, u, staged, dest, [Paths.VERSIONS, id])
    requires dest in t ==> [Paths.VERSIONS, id] + [PAYLOAD] in u && u[[Paths.VERSIONS, id] + [PAYLOAD]] == t[dest]
    ensures Conserved(t, u)
  {
    var kept := [Paths.VERSIONS, id] + [PAYLOAD];
    forall p | p in t && t[p].File? && Counts(p)
      ensures Holds(u, t[p].data)
    {
      var q := if p == staged then dest else if p == dest then kept else p;
      assert q in u && Counts(q) && u[q] == t[p];
    }
    GoingOnConserves(t, u);
  }

  lemma MoveConserves(t: FileTree, a: Path, b: Path)
    requires WellFormed(t) && b !in t && UserPath(b)
    ensures Conserved(t, Moved(t, a, b))
  {
    var u := Moved(t, a, b);
    MovedAt(t, a, b);
    NothingBelow(t, b);
    forall p | p in t && t[p].File? && Counts(p)
      ensures Holds(u, t[p].data)
    {
      if Under(a, p) {
        var q := Rebase(p, a, b);
        assert Rebase(q, b, a) == p;
        BelowUserPath(b, q);
        assert q in u && u[q] == t[p];
      } else {
        assert p in u && u[p] == t[p];
      }
    }
    GoingOnConserves(t, u);
  }

  lemma InstallConserves(t: FileTree, u: FileTree, staged: Path, dest: Path)
    requires UserPath(dest) && staged in t && dest !in t
    requires u == t[dest := t[staged]] || u == t[dest := t[staged]] - {staged}
    ensures Conserved(t, u)
  {
    forall p | p in t && t[p].File? && Counts(p)
      ensures Holds(u, t[p].data)
    {
      var q := if p == staged then dest else p;
      assert q in u && Counts(q) && u[q] == t[p];
    }
    GoingOnConserves(t, u);
  }

  /** Where a file that counts is after a restore. */
  lemma RestoreKeeps(t: FileTree, u: FileTree, dest: Path, root: string, id: string, p: Path)
    requires WellFormed(t) && Restored(t, u, dest, [root, id]) && (root == Paths.TRASH || root == Paths.VERSIONS)
    requires UserPath(dest) && (dest in t ==> t[dest].File?) && dest != []
    requires p in t && t[p].File? && Counts(p) && p != dest
    ensures Holds(u, t[p].data)
  {
    var dir := [root, id];
    NothingBelow(t, dest);
    NotInPayload(root, id);
    if Under(dir + [PAYLOAD], p) {
      var q := Rebase(p, dir + [PAYLOAD], dest);
      assert Rebase(q, dest, dir + [PAYLOAD]) == p;
      BelowUserPath(dest, q);
      assert q in u && u[q] == t[p];
    } else {
      assert p in u && u[p] == t[p];
    }
  }

  /** What is held after a restore was held before it, at another place than the destination. */
  lemma RestoreInventsNothing(t: FileTree, u: FileTree, dest: Path, root: string, id: string, q: Path)
    requires Restored(t, u, dest, [root, id]) && (root == Paths.TRASH || root == Paths.VERSIONS)
    requires UserPath(dest) && q in u && u[q].File? && Counts(q)
    ensures exists p :: p in t && p != dest && Counts(p) && t[p] == u[q]
  {
    var dir := [root, id];
    if Under(dest, q) {
      var p := Rebase(q, dest, dir + [PAYLOAD]);
      PayloadCounts(root, id, dest, q);
      assert !UserPath(dir + [PAYLOAD]) && !UserPath(p);
      assert p in t && t[p] == u[q];
    } else {
      assert q in t && t[q] == u[q];
    }
  }

  /** A restore loses bytes exactly when it replaces a file that no other place holds. */
  lemma RestoreConservesIff(t: FileTree, u: FileTree, dest: Path, root: string, id: string)
    requires WellFormed(t) && Restored(t, u, dest, [root, id]) && (root == Paths.TRASH || root == Paths.VERSIONS)
    requires UserPath(dest) && Free(t, dest, [root, id])
    ensures Conserved(t, u) <==> dest !in t || HeldElsewhere(t, dest)
  {
    assert dest != [root, id] + [PAYLOAD];
    if dest in t && Conserved(t, u) {
      assert Holds(t, t[dest].data);
      var q :| q in u && Counts(q) && u[q] == File(t[dest].data);
      RestoreInventsNothing(t, u, dest, root, id, q);
    }
    if dest !in t || HeldElsewhere(t, dest) {
      forall p | p in t && t[p].File? && Counts(p)
        ensures Holds(u, t[p].data)
      {
        if p == dest {
          var q :| q in t && q != dest && Counts(q) && t[q] == t[dest];
          RestoreKeeps(t, u, dest, root, id, q);
        } else {
          RestoreKeeps(t, u, dest, root, id, p);
        }
      }
      GoingOnConserves(t, u);
    }
  }

  lemma NotInPayload(root: string, id: string)
    requires root == Paths.TRASH || root == Paths.VERSIONS
    ensures !UserPath([root, id] + [META]) && !InPayload([root, id] + [META])
    ensures !UserPath([root, id]) && !InPayload([root, id])
  {
    assert ([root, id] + [META])[2] == META;
    assert META[0] != PAYLOAD[0];
  }

  /** A restore onto a file whose existence test failed is the exception. */
  lemma FailedTestDoesNotConserve(payload: Path)
    requires payload == [Paths.TRASH, "id"] + [PAYLOAD]
    ensures WellFormed(OCCUPIED) && CanRename(OCCUPIED, payload, ["f"])
    ensures !Conserved(OCCUPIED, Moved(OCCUPIED, payload, ["f"]))
  {
    FailedTestLosesBytes(payload);
    assert UserPath(["f"]);
    assert Holds(OCCUPIED, [1]);
  }

  // ---------------------------------------------------------------- what a call can do

  datatype Call =
    | Replace(staged: Path, dest: Path, virtual: string, id: string)
    | Install(staged: Path, dest: Path)
    | Copy(src: Path, dst: Path, deduplicate: bool)
    | Trash(orig: Path, virtual: string, id: string)
    | Version(orig: Path, virtual: string, id: string)
    | Restore(kind: string, id: string, destVirtual: string)

  /** Uploads go to where users see them, new ids are new, and a restore is asked for by an id. */
  predicate Proper(t: FileTree, c: Call) {
    match c
    case Replace(staged, dest, _, id) =>
      UserPath(dest) && [Paths.VERSIONS, id] !in t && !Under([Paths.VERSIONS, id], staged)
    case Install(_, dest) => UserPath(dest)
    case Copy(_, _, _) => true
    case Trash(_, _, id) => [Paths.TRASH, id] !in t
    case Version(_, _, id) => [Paths.VERSIONS, id] !in t
    case Restore(_, id, _) => Paths.PathSeg(id)
  }

  ghost predicate ReplaceOutcome(codec: Storage.Codec, t: FileTree, u: FileTree, staged: Path, dest: Path,
                                 recorded: string, id: string) {
    || (Intact(t, u) && OnlyNear(t, u, [Paths.VERSIONS, id]))
    || (staged in t && staged != dest && t[staged].Dir? && dest !in t && u == Moved(t, staged, dest))
    || (staged in t && staged != dest && t[staged].File? && Replaced(t, u, staged, dest, [Paths.VERSIONS, id])
        && (dest in t ==> t[dest].File? && Storage.FilePreserved(codec, u, t[dest], recorded, id)))
  }

  ghost predicate InstallOutcome(t: FileTree, u: FileTree, staged: Path, dest: Path) {
    || u == t
    || (staged in t && dest !in t && (u == t[dest := t[staged]] || u == t[dest := t[staged]] - {staged}))
  }

  ghost predicate RestoreOutcome(codec: Storage.Codec, t: FileTree, u: FileTree, kind: string, id: string,
                                 destVirtual: string) {
    || u == t
    || exists e, dest ::
         && Storage.RestoresTo(t, codec, kind, id, destVirtual, e, dest)
         && RestoredOrNot(t, u, dest, Storage.RetainedDir(kind, id))
  }

  ghost predicate RestoredOrNot(t: FileTree, u: FileTree, dest: Path, dir: Path) {
    (Restored(t, u, dest, dir) && Free(t, dest, dir)) || (Intact(t, u) && Prepared(t, u, dest))
  }

  /** What the tree t can be after a call, whatever fails in it. */
  ghost predicate Outcome(codec: Storage.Codec, t: FileTree, u: FileTree, c: Call) {
    match c
    case Replace(staged, dest, virtual, id) =>
      ReplaceOutcome(codec, t, u, staged, dest, Storage.Recorded(dest, virtual), id)
    case Install(staged, dest) => InstallOutcome(t, u, staged, dest)
    case Copy(_, dst, _) => Storage.OnlyAdds(t, u, dst, false)
    case Trash(orig, _, id) =>
      MovedAway(t, u, orig, [Paths.TRASH, id]) || StillThere(t, u, [Paths.TRASH, id])
    case Version(_, _, id) => Intact(t, u) && OnlyNear(t, u, [Paths.VERSIONS, id])
    case Restore(kind, id, destVirtual) => RestoreOutcome(codec, t, u, kind, id, destVirtual)
  }

  /** Before the call: if it is a restore, the place it goes to is one that users see, and nothing is there or
      what is there is also held elsewhere. */
  ghost predicate Safe(codec: Storage.Codec, t: FileTree, c: Call) {
    c.Restore? ==>
      forall e, dest | Storage.RestoresTo(t, codec, c.kind, c.id, c.destVirtual, e, dest) ::
        UserPath(dest) && (dest in t ==> HeldElsewhere(t, dest))
  }

  lemma RestoredConserves(t: FileTree, u: FileTree, kind: string, id: string, dest: Path)
    requires WellFormed(t) && Paths.PathSeg(id) && RestoredOrNot(t, u, dest, Storage.RetainedDir(kind, id))
    requires UserPath(dest) && (dest in t ==> HeldElsewhere(t, dest))
    ensures Conserved(t, u)
  {
    var name := Storage.RetainedRoot(kind);
    assert Storage.RetainedDir(kind, id) == [name] + [id] == [name, id];
    if Intact(t, u) {
      IntactConserves(t, u);
    } else {
      RestoreConservesIff(t, u, dest, name, id);
    }
  }

  lemma RestoreOutcomeConserves(codec: Storage.Codec, t: FileTree, u: FileTree, kind: string, id: string,
                                destVirtual: string)
    requires WellFormed(t) && Paths.PathSeg(id) && Safe(codec, t, Restore(kind, id, destVirtual))
    requires RestoreOutcome(codec, t, u, kind, id, destVirtual)
    ensures Conserved(t, u)
  {
    if u != t {
      var e, dest :| Storage.RestoresTo(t, codec, kind, id, destVirtual, e, dest)
                     && RestoredOrNot(t, u, dest, Storage.RetainedDir(kind, id));
      RestoredConserves(t, u, kind, id, dest);
    }
  }

  lemma ReplaceOutcomeConserves(codec: Storage.Codec, t: FileTree, u: FileTree, staged: Path, dest: Path,
                                recorded: string, id: string)
    requires WellFormed(t) && UserPath(dest) && ReplaceOutcome(codec, t, u, staged, dest, recorded, id)
    ensures Conserved(t, u)
  {
    if Intact(t, u) {
      IntactConserves(t, u);
    } else if t[staged].Dir? {
      MoveConserves(t, staged, dest);
    } else {
      ReplaceConserves(t, u, staged, dest, id);
    }
  }

  /** Every call that is safe conserves every user's bytes, whatever fails in it. */
  lemma OutcomeConserves(codec: Storage.Codec, t: FileTree, u: FileTree, c: Call)
    requires WellFormed(t) && Proper(t, c) && Safe(codec, t, c) && Outcome(codec, t, u, c)
    ensures Conserved(t, u)
  {
    match c
    case Replace(staged, dest, virtual, id) =>
      ReplaceOutcomeConserves(codec, t, u, staged, dest, Storage.Recorded(dest, virtual), id);
    case Install(staged, dest) =>
      if u != t {
        InstallConserves(t, u, staged, dest);
      }
    case Copy(_, _, _) => IntactConserves(t, u);
    case Trash(orig, _, id) =>
      if MovedAway(t, u, orig, [Paths.TRASH, id]) {
        TrashConserves(t, u, orig, id);
      } else {
        IntactConserves(t, u);
      }
    case Version(_, _, _) => IntactConserves(t, u);
    case Restore(kind, id, destVirtual) => RestoreOutcomeConserves(codec, t, u, kind, id, destVirtual);
  }

  // ---------------------------------------------------------------- calls, one after the other

  /** A call that is not proper is not made. */
  ghost predicate Made(codec: Storage.Codec, t: FileTree, u: FileTree, c: Call) {
    if Proper(t, c) then Outcome(codec, t, u, c) else u == t
  }

  /** The trees before, between and after the calls, from t to u. */
  ghost predicate IsRun(codec: Storage.Codec, trees: seq<FileTree>, calls: seq<Call>, t: FileTree, u: FileTree) {
    && |trees| == |calls| + 1 && trees[0] == t && trees[|calls|] == u
    && forall i | 0 <= i < |calls| :: WellFormed(trees[i]) && Made(codec, trees[i], trees[i + 1], calls[i])
  }

  /** Each call is safe when it is made. */
  ghost predicate AllSafe(codec: Storage.Codec, trees: seq<FileTree>, calls: seq<Call>) {
    |trees| == |calls| + 1 && forall i | 0 <= i < |calls| :: Safe(codec, trees[i], calls[i])
  }

  lemma MadeConserves(codec: Storage.Codec, t: FileTree, u: FileTree, c: Call)
    requires WellFormed(t) && Safe(codec, t, c) && Made(codec, t, u, c)
    ensures Conserved(t, u)
  {
    if Proper(t, c) {
      OutcomeConserves(codec, t, u, c);
    }
  }

  /** Over every run of safe calls, every user's bytes are conserved. */
  lemma {:induction false} RunConserves(codec: Storage.Codec, trees: seq<FileTree>, calls: seq<Call>,
                                        t: FileTree, u: FileTree)
    requires IsRun(codec, trees, calls, t, u) && AllSafe(codec, trees, calls)
    ensures Conserved(t, u)
    decreases |calls|
  {
    if calls != [] {
      var n := |calls| - 1;
      RunConserves(codec, trees[..n + 1], calls[..n], t, trees[n]);
      MadeConserves(codec, trees[n], trees[n + 1], calls[n]);
    }
  }

  lemma NoCalls(codec: Storage.Codec, t: FileTree)
    ensures IsRun(codec, [t], [], t, t)
  {}

  lemma OneMoreCall(codec: Storage.Codec, trees: seq<FileTree>, calls: seq<Call>,
                    t: FileTree, u: FileTree, v: FileTree, c: Call)
    requires IsRun(codec, trees, calls, t, u) && WellFormed(u) && Made(codec, u, v, c)
    ensures IsRun(codec, trees + [v], calls + [c], t, v)
  {
    var more, all := trees + [v], calls + [c];
    forall i | 0 <= i < |all|
      ensures WellFormed(more[i]) && Made(codec, more[i], more[i + 1], all[i])
    {
      if i < |calls| {
        assert more[i] == trees[i] && more[i + 1] == trees[i + 1] && all[i] == calls[i];
      }
    }
  }

  method Perform(root: Storage.Root, c: Call)
    requires root.Valid() && root.codec.RoundTrips()
    modifies root.disk
    ensures root.Valid() && Made(root.codec, old(root.disk.tree), root.disk.tree, c) == true
  {
    if !Proper(root.disk.tree, c) {
      return;
    }
    match c
    case Replace(staged, dest, virtual, id) => PerformReplace(root, staged, dest, virtual, id);
    case Install(staged, dest) => var _ := root.InstallFile(staged, dest);
    case Copy(src, dst, deduplicate) =>
      ghost var limit := Storage.EveryTreeIsBounded(root.disk.tree);
      var _, _, _ := root.Copy(src, dst, deduplicate, false, limit);
    case Trash(orig, virtual, id) => var _ := root.Trash(orig, virtual, id);
    case Version(orig, virtual, id) => var _, _ := root.Version(orig, virtual, id);
    case Restore(kind, id, destVirtual) =>
      var _, _, _, _, _ := root.Restore(kind, id, destVirtual, false);
  }

  method PerformReplace(root: Storage.Root, staged: Path, dest: Path, virtual: string, id: string)
    requires root.Valid() && root.codec.RoundTrips() && [Paths.VERSIONS, id] !in root.disk.tree
    requires UserPath(dest) && !Under([Paths.VERSIONS, id], staged)
    modifies root.disk
    ensures root.Valid()
    ensures ReplaceOutcome(root.codec, old(root.disk.tree), root.disk.tree, staged, dest,
                           Storage.Recorded(dest, virtual), id)
  {
    if Near([Paths.VERSIONS, id], dest) {
      UnseenBelow([Paths.VERSIONS, id], dest);
    }
    var _ := root.ReplaceFile(staged, dest, virtual, id, true);
  }

  /** Any sequence of calls. */
  method PerformAll(root: Storage.Root, calls: seq<Call>) returns (ghost trees: seq<FileTree>)
    requires root.Valid() && root.codec.RoundTrips()
    modifies root.disk
    ensures root.Valid() && IsRun(root.codec, trees, calls, old(root.disk.tree), root.disk.tree) == true
    ensures AllSafe(root.codec, trees, calls) ==> Conserved(old(root.disk.tree), root.disk.tree)
    decreases |calls|
  {
    ghost var t := root.disk.tree;
    if calls == [] {
      NoCalls(root.codec, t);
      return [t];
    }
    var n := |calls| - 1;
    trees := PerformAll(root, calls[..n]);
    ghost var u := root.disk.tree;
    Perform(root, calls[n]);
    OneMoreCall(root.codec, trees, calls[..n], t, u, root.disk.tree, calls[n]);
    AllButLast(calls);
    trees := trees + [root.disk.tree];
    if AllSafe(root.codec, trees, calls) {
      RunConserves(root.codec, trees, calls, t, root.disk.tree);
    }
  }
}
