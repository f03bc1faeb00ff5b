/** The share-link store of internal/share/share.go: download reservations as a counting semaphore that
    also survives saving and reloading.

    Every method runs under the store's lock, so any interleaving of callers is a sequence of calls.
    Random ids, the clock and whether a save reaches the file are parameters. */
module Share {
  import opened Common

  datatype Kind = Download | Upload

  datatype Link = Link(id: string, kind: Kind, path: string, urlPath: string, createdAt: int, expiresAt: int,
                       maxDownloads: int, downloadCount: int, lastDownloadAt: int, secret: string, disabled: bool)

  datatype Error = NotFound | Expired | Disabled | NotReserved | NoRandomness | SaveFailed
  datatype State = State(links: map<string, Link>, active: map<string, nat>, disk: map<string, Link>)

  datatype Op =
    | Create(link: Link, ids: seq<string>, writes: bool)
    | SetUrlPath(id: string, urlPath: string, writes: bool)
    | Remove(id: string, writes: bool)
    | Reserve(id: string, now: int)
    | Finish(id: string, completed: bool, now: int, writes: bool)
    | Reload

  // ---------------------------------------------------------------- the file

  /** load: links without an id are skipped, and the last of several with one id wins. */
  function FromList(list: seq<Link>): (r: map<string, Link>)
    decreases |list|
  {
    if list == [] then map[]
    else
      var link := list[|list| - 1];
      var before := FromList(list[..|list| - 1]);
      if link.id == "" then before else before[link.id := link]
  }

  /** The list holds each link of the map once, in any order. */
  predicate Lists(list: seq<Link>, links: map<string, Link>) {
    && (forall i | 0 <= i < |list| :: list[i].id in links && links[list[i].id] == list[i])
    && (forall i, j | 0 <= i < j < |list| :: list[i].id != list[j].id)
    && |list| == |links|
  }

  /** Every link is stored under its own, non-empty id. */
  predicate Keyed(links: map<string, Link>) {
    forall k | k in links :: links[k].id == k && k != ""
  }

  lemma {:induction false} FromListKeys(list: seq<Link>)
    requires forall i | 0 <= i < |list| :: list[i].id != ""
    requires forall i, j | 0 <= i < j < |list| :: list[i].id != list[j].id
    ensures |FromList(list)| == |list|
    ensures forall k | k in FromList(list) :: FromList(list)[k].id == k && FromList(list)[k] in list
    decreases |list|
  {
    if list != [] {
      var n := |list| - 1;
      FromListKeys(list[..n]);
      var before := FromList(list[..n]);
      LastIsNew(list, before);
      assert FromList(list).Keys == before.Keys + {list[n].id};
    }
  }

  lemma LastIsNew(list: seq<Link>, before: map<string, Link>)
    requires list != [] && forall i, j | 0 <= i < j < |list| :: list[i].id != list[j].id
    requires forall k | k in before :: before[k].id == k && before[k] in list[..|list| - 1]
    ensures list[|list| - 1].id !in before
  {}

  lemma SubsetOfSameSize<T>(a: set<T>, b: set<T>)
    requires a <= b && |a| == |b|
    ensures a == b
  {
    if x :| x in b && x !in a {
      assert a <= b - {x};
      SubsetSize(a, b - {x});
    }
  }

  lemma {:induction false} SubsetSize<T>(a: set<T>, b: set<T>)
    requires a <= b
    ensures |a| <= |b|
    decreases a
  {
    if x :| x in a {
      SubsetSize(a - {x}, b - {x});
    }
  }

  /** What is saved is what is reloaded, however the list is ordered. */
  lemma SaveThenLoad(list: seq<Link>, links: map<string, Link>)
    requires Keyed(links) && Lists(list, links)
    ensures FromList(list) == links
  {
    FromListKeys(list);
    var m := FromList(list);
    forall k | k in m
      ensures k in links && m[k] == links[k]
    {
      var i :| 0 <= i < |list| && list[i] == m[k];
    }
    assert |m.Keys| == |m| && |links.Keys| == |links|;
    SubsetOfSameSize(m.Keys, links.Keys);
  }

  // ---------------------------------------------------------------- one call

  function Active(s: State, id: string): nat {
    if id in s.active then s.active[id] else 0
  }

  function Available(link: Link, active: int, now: int): Outcome<Error> {
    if link.disabled then Fail(Disabled)
    else if link.expiresAt != 0 && now > link.expiresAt then Fail(Expired)
    else if link.maxDownloads > 0 && link.downloadCount + active >= link.maxDownloads then Fail(Expired)
    else Pass
  }

  /** The first generated id that no current link has. */
  function FirstUnused(links: map<string, Link>, ids: seq<string>): (r: Option<string>)
    ensures r.Some? ==> r.value !in links && r.value in ids
  {
    if ids == [] then None
    else if ids[0] !in links then Some(ids[0])
    else FirstUnused(links, ids[1..])
  }

  function Saved(s: State, writes: bool): (Outcome<Error>, State) {
    if writes then (Pass, s.(disk := s.links)) else (Fail(SaveFailed), s)
  }

  function Step(s: State, op: Op): (Outcome<Error>, State) {
    match op
    case Create(link, ids, writes) =>
      (match FirstUnused(s.links, ids)
       case None => (Fail(NoRandomness), s)
       case Some(id) => Saved(s.(links := s.links[id := link.(id := id, downloadCount := 0)]), writes))
    case SetUrlPath(id, urlPath, writes) =>
      if id !in s.links then (Fail(NotFound), s)
      else Saved(s.(links := s.links[id := s.links[id].(urlPath := urlPath)]), writes)
    case Remove(id, writes) =>
      if id !in s.links then (Fail(NotFound), s) else Saved(s.(links := s.links - {id}), writes)
    case Reserve(id, now) =>
      if id !in s.links then (Fail(NotFound), s)
      else
        var r := Available(s.links[id], Active(s, id), now);
        if r.Fail? then (r, s) else (Pass, s.(active := s.active[id := Active(s, id) + 1]))
    case Finish(id, completed, now, writes) =>
      if Active(s, id) == 0 then (Fail(NotReserved), s)
      else
        var s1 := s.(active := if Active(s, id) == 1 then s.active - {id} else s.active[id := Active(s, id) - 1]);
        if !completed then (Pass, s1)
        else if id !in s.links then (Fail(NotFound), s1)
        else
          var link := s.links[id];
          Saved(s1.(links := s.links[id := link.(downloadCount := link.downloadCount + 1,
                                                               lastDownloadAt := now)]), writes)
    case Reload => (Pass, State(s.disk, map[], s.disk))
  }

  function Run(s: State, ops: seq<Op>): State {
    if ops == [] then s else Step(Run(s, ops[..|ops| - 1]), ops[|ops| - 1]).1
  }

  function ResultAt(s: State, ops: seq<Op>, i: nat): Outcome<Error>
    requires i < |ops|
  {
    Step(Run(s, ops[..i]), ops[i]).0
  }

  // ---------------------------------------------------------------- the store itself

  class Store {
    var links: map<string, Link>
    var activeDownloads: map<string, nat>
    var file: seq<Link>

    ghost predicate Valid() reads this { Keyed(links) && Keyed(FromList(file)) }

    ghost function Model(): State reads this { State(links, activeDownloads, FromList(file)) }

    /** Open on an existing file. */
    constructor (file: seq<Link>)
      requires Keyed(FromList(file))
      ensures Valid() && Model() == State(FromList(file), map[], FromList(file))
    {
      this.file, links, activeDownloads := file, map[], map[];
      new;
      Load();
    }

    method Load()
      modifies `links
      ensures links == FromList(file)
    {
      links := map[];
      var i := 0;
      while i < |file|
        invariant 0 <= i <= |file| && links == FromList(file[..i])
      {
        assert file[..i + 1][..i] == file[..i];
        if file[i].id != "" {
          links := links[file[i].id := file[i]];
        }
        i := i + 1;
      }
      assert file[..i] == file;
    }

    /** Lists the links and replaces the file in one rename; on failure the file keeps what it held. */
    method SaveLocked(writes: bool) returns (r: Outcome<Error>)
      requires Keyed(links)
      modifies `file
      ensures (r, Model()) == Saved(old(Model()), writes)
    {
      var list: seq<Link> := [];
      var rest := links.Keys;
      while rest != {}
        invariant rest <= links.Keys && |list| + |rest| == |links.Keys|
        invariant forall i | 0 <= i < |list| ::
                    list[i].id in links && list[i].id !in rest && links[list[i].id] == list[i]
        invariant forall i, j | 0 <= i < j < |list| :: list[i].id != list[j].id
        decreases rest
      {
        var k :| k in rest;
        list, rest := list + [links[k]], rest - {k};
      }
      if !writes {
        return Fail(SaveFailed);
      }
      SaveThenLoad(list, links);
      file := list;
      return Pass;
    }

    method CreateLink(link: Link, ids: seq<string>, writes: bool) returns (r: Outcome<Error>)
      requires Valid() && "" !in ids
      modifies this
      ensures Valid() && (r, Model()) == Step(old(Model()), Create(link, ids, writes))
    {
      var i := 0;
      while i < |ids| && ids[i] in links
        invariant 0 <= i <= |ids|
        invariant FirstUnused(links, ids[i..]) == FirstUnused(links, ids)
      {
        assert ids[i..][1..] == ids[i + 1..];
        i := i + 1;
      }
      if i == |ids| {
        return Fail(NoRandomness);
      }
      assert ids[i..][0] == ids[i];
      links := links[ids[i] := link.(id := ids[i], downloadCount := 0)];
      r := SaveLocked(writes);
    }

    method SetUrlPathOf(id: string, urlPath: string, writes: bool) returns (r: Outcome<Error>)
      requires Valid()
      modifies this
      ensures Valid() && (r, Model()) == Step(old(Model()), SetUrlPath(id, urlPath, writes))
    {
      if id !in links {
        return Fail(NotFound);
      }
      links := links[id := links[id].(urlPath := urlPath)];
      r := SaveLocked(writes);
    }

    method DeleteLink(id: string, writes: bool) returns (r: Outcome<Error>)
      requires Valid()
      modifies this
      ensures Valid() && (r, Model()) == Step(old(Model()), Remove(id, writes))
    {
      if id !in links {
        return Fail(NotFound);
      }
      links := links - {id};
      r := SaveLocked(writes);
    }

    method ReserveDownload(id: string, now: int) returns (r: Outcome<Error>)
      requires Valid()
      modifies this
      ensures Valid() && (r, Model()) == Step(old(Model()), Reserve(id, now))
    {
      if id !in links {
        return Fail(NotFound);
      }
      var active := if id in activeDownloads then activeDownloads[id] else 0;
      r := Available(links[id], active, now);
      if r.Fail? {
        return;
      }
      activeDownloads := activeDownloads[id := active + 1];
    }

    method FinishDownload(id: string, completed: bool, now: int, writes: bool) returns (r: Outcome<Error>)
      requires Valid()
      modifies this
      ensures Valid() && (r, Model()) == Step(old(Model()), Finish(id, completed, now, writes))
    {
      var active := if id in activeDownloads then activeDownloads[id] else 0;
      if active <= 0 {
        return Fail(NotReserved);
      }
      if active == 1 {
        activeDownloads := activeDownloads - {id};
      } else {
        activeDownloads := activeDownloads[id := active - 1];
      }
      if !completed {
        return Pass;
      }
      if id !in links {
        return Fail(NotFound);
      }
      var link := links[id];
      links := links[id := link.(downloadCount := link.downloadCount + 1, lastDownloadAt := now)];
      r := SaveLocked(writes);
    }
  }

  // ---------------------------------------------------------------- the bound

  predicate WithinLimit(link: Link, active: int) {
    link.maxDownloads > 0 ==> link.downloadCount + active <= link.maxDownloads
  }

  /** No limited link has more downloads, counted and running, than its limit, in memory or in the file. */
  predicate Bounded(s: State) {
    && (forall id | id in s.links :: WithinLimit(s.links[id], Active(s, id)))
    && (forall id | id in s.disk :: WithinLimit(s.disk[id], 0))
  }

  /** Every id the store has had so far. */
  function Used(s: State, ops: seq<Op>): set<string>
    decreases |ops|
  {
    if ops == [] then Ids(s) else Used(s, ops[..|ops| - 1]) + CreatedId(Run(s, ops[..|ops| - 1]), ops[|ops| - 1])
  }

  /** Ids are never reused: each created link gets an id the store never had. */
  predicate FreshIds(s: State, ops: seq<Op>)
    decreases |ops|
  {
    ops == [] ||
    var front, op := ops[..|ops| - 1], ops[|ops| - 1];
    FreshIds(s, front) && CreatedId(Run(s, front), op) !! Used(s, front)
  }

  function Ids(s: State): set<string> { s.links.Keys + s.disk.Keys + s.active.Keys }

  function CreatedId(s: State, op: Op): set<string> {
    if op.Create? && FirstUnused(s.links, op.ids).Some? then {FirstUnused(s.links, op.ids).value} else {}
  }

  lemma StepAddsOnlyCreatedId(s: State, op: Op)
    ensures Ids(Step(s, op).1) <= Ids(s) + CreatedId(s, op)
  {}

  lemma {:induction false} OnlyUsedIds(s: State, ops: seq<Op>)
    ensures Ids(Run(s, ops)) <= Used(s, ops)
    decreases |ops|
  {
    if ops != [] {
      OnlyUsedIds(s, ops[..|ops| - 1]);
      StepAddsOnlyCreatedId(Run(s, ops[..|ops| - 1]), ops[|ops| - 1]);
    }
  }

  predicate InheritsNoMoreThan(s: State, link: Link, ids: seq<string>) {
    FirstUnused(s.links, ids).Some? && link.maxDownloads > 0 ==>
      Active(s, FirstUnused(s.links, ids).value) <= link.maxDownloads
  }

  lemma CreateKeepsBoundIff(s: State, link: Link, ids: seq<string>, writes: bool)
    requires Bounded(s)
    ensures Bounded(Step(s, Create(link, ids, writes)).1) <==> InheritsNoMoreThan(s, link, ids)
  {
    var s' := Step(s, Create(link, ids, writes)).1;
    if FirstUnused(s.links, ids).Some? {
      var id := FirstUnused(s.links, ids).value;
      assert id in s'.links;
      assert Active(s', id) == Active(s, id);
      forall k | k in s.links
        ensures k in s'.links && s'.links[k] == s.links[k] && Active(s', k) == Active(s, k)
      {}
    }
  }

  lemma OthersKeepBound(s: State, op: Op)
    requires Bounded(s) && !op.Create?
    ensures Bounded(Step(s, op).1)
  {}

  /** A call keeps the bound, except that a created link must not inherit more running downloads than
      its limit from an earlier link of the same id. */
  lemma StepKeepsBoundIff(s: State, op: Op)
    requires Bounded(s)
    ensures Bounded(Step(s, op).1) <==> (op.Create? ==> InheritsNoMoreThan(s, op.link, op.ids))
  {
    match op
    case Create(link, ids, writes) => CreateKeepsBoundIff(s, link, ids, writes);
    case _ => OthersKeepBound(s, op);
  }

  /** With ids never reused, every interleaving of calls, failed saves and reloads keeps the bound. */
  lemma {:induction false} BoundAlwaysHolds(s: State, ops: seq<Op>)
    requires Bounded(s) && FreshIds(s, ops)
    ensures Bounded(Run(s, ops))
    decreases |ops|
  {
    if ops != [] {
      var front := ops[..|ops| - 1];
      BoundAlwaysHolds(s, front);
      OnlyUsedIds(s, front);
      StepKeepsBoundIff(Run(s, front), ops[|ops| - 1]);
    }
  }

  lemma RunOfLast(s: State, ops: seq<Op>, op: Op)
    ensures Run(s, ops + [op]) == Step(Run(s, ops), op).1
  {
    assert (ops + [op])[..|ops|] == ops;
  }

  const EMPTY := State(map[], map[], map[])
  const FREE := Link("a", Download, "/", "", 0, 0, 0, 0, 0, "", false)

  /** A link without a limit is created and two downloads of it begin. */
  const TWO_RUNNING := [Create(FREE, ["a"], true)] + [Reserve("a", 0)] + [Reserve("a", 0)]

  lemma TwoAreRunning()
    ensures Run(EMPTY, TWO_RUNNING) == State(map["a" := FREE], map["a" := 2], map["a" := FREE])
  {
    var c, r := Create(FREE, ["a"], true), Reserve("a", 0);
    assert [] + [c] == [c];
    RunOfLast(EMPTY, [], c);
    assert Run(EMPTY, [c]) == State(map["a" := FREE], map[], map["a" := FREE]);
    RunOfLast(EMPTY, [c], r);
    assert Run(EMPTY, [c] + [r]) == State(map["a" := FREE], map["a" := 1], map["a" := FREE]);
    RunOfLast(EMPTY, [c] + [r], r);
  }

  /** Reusing an id breaks the bound, in a run from an empty store: the link is deleted with two downloads
      running, and a link with the same id and a limit of one follows. */
  lemma ReusedIdBreaksBound()
    ensures var ops := TWO_RUNNING + [Remove("a", true)] + [Create(FREE.(maxDownloads := 1), ["a"], true)];
            Bounded(EMPTY) && !FreshIds(EMPTY, ops) && !Bounded(Run(EMPTY, ops))
  {
    var removed, again := Remove("a", true), Create(FREE.(maxDownloads := 1), ["a"], true);
    var before := TWO_RUNNING + [removed];
    var s := Run(EMPTY, before + [again]);
    TwoAreRunning();
    RunOfLast(EMPTY, TWO_RUNNING, removed);
    RunOfLast(EMPTY, before, again);
    assert Run(EMPTY, before) == State(map[], map["a" := 2], map[]);
    assert "a" in s.links && Active(s, "a") == 2;
    assert !WithinLimit(s.links["a"], 2);
    OnlyUsedIds(EMPTY, before);
    assert "a" in Ids(Run(EMPTY, before));
    assert (before + [again])[..|before|] == before;
  }

  // ---------------------------------------------------------------- counting

  /** Accepted reservations minus accepted finishes of an id, since the store was last loaded. */
  function Outstanding(s: State, ops: seq<Op>, id: string): int
    decreases |ops|
  {
    if ops == [] then Active(s, id)
    else
      var n := |ops| - 1;
      Counted(Outstanding(s, ops[..n], id), ops[n], ResultAt(s, ops, n), id)
  }

  function Counted(before: int, op: Op, result: Outcome<Error>, id: string): int {
    match op
    case Reload => 0
    case Reserve(i, _) => if i == id && result == Pass then before + 1 else before
    case Finish(i, _, _, _) => if i == id && result != Fail(NotReserved) then before - 1 else before
    case Create(_, _, _) => before
    case SetUrlPath(_, _, _) => before
    case Remove(_, _) => before
  }

  lemma StepCounts(s: State, op: Op, id: string)
    ensures Active(Step(s, op).1, id) == Counted(Active(s, id), op, Step(s, op).0, id)
  {}

  lemma {:induction false} ActiveIsReservationsMinusFinishes(s: State, ops: seq<Op>, id: string)
    ensures Active(Run(s, ops), id) == Outstanding(s, ops, id)
    decreases |ops|
  {
    if ops != [] {
      ActiveIsReservationsMinusFinishes(s, ops[..|ops| - 1], id);
      StepCounts(Run(s, ops[..|ops| - 1]), ops[|ops| - 1], id);
    }
  }

  /** Finishes of an id reported as complete and accepted while its link existed. */
  function Completed(s: State, ops: seq<Op>, id: string): nat
    decreases |ops|
  {
    if ops == [] then 0
    else
      var n := |ops| - 1;
      Completed(s, ops[..n], id) + Completes(ops[n], ResultAt(s, ops, n), id)
  }

  function Completes(op: Op, result: Outcome<Error>, id: string): nat {
    if op.Finish? && op.id == id && op.completed && result != Fail(NotReserved) && result != Fail(NotFound)
    then 1 else 0
  }

  /** Each reload happens when the file holds the current links, that is, after a save that succeeded. */
  predicate ReloadsAreSaved(s: State, ops: seq<Op>) {
    forall i | 0 <= i < |ops| && ops[i].Reload? :: Run(s, ops[..i]).disk == Run(s, ops[..i]).links
  }

  lemma ReloadsOfPrefix(s: State, ops: seq<Op>)
    requires ops != [] && ReloadsAreSaved(s, ops)
    ensures ReloadsAreSaved(s, ops[..|ops| - 1])
  {
    var front := ops[..|ops| - 1];
    forall i | 0 <= i < |front| && front[i].Reload?
      ensures Run(s, front[..i]).disk == Run(s, front[..i]).links
    {
      assert front[..i] == ops[..i] && ops[i].Reload?;
    }
  }

  lemma StepCountsCompletion(s: State, op: Op, id: string)
    requires id in s.links && id in Step(s, op).1.links && id !in CreatedId(s, op) && (op.Reload? ==> s.disk == s.links)
    ensures Step(s, op).1.links[id].downloadCount == s.links[id].downloadCount + Completes(op, Step(s, op).0, id)
  {}

  lemma StepBringsNothingBack(s: State, op: Op, id: string)
    requires id !in s.links && id !in CreatedId(s, op) && (op.Reload? ==> s.disk == s.links)
    ensures id !in Step(s, op).1.links
  {}

  /** A link's counter is the number of its completed downloads: what it was plus the completed
      finishes, for a link that existed at the start and still does, with ids never reused. */
  lemma {:induction false} CountIsCompletedFinishes(s: State, ops: seq<Op>, id: string)
    requires FreshIds(s, ops) && ReloadsAreSaved(s, ops) && id in s.links
    ensures id in Run(s, ops).links ==>
              Run(s, ops).links[id].downloadCount == s.links[id].downloadCount + Completed(s, ops, id)
    decreases |ops|
  {
    if ops != [] {
      ReloadsOfPrefix(s, ops);
      var front := ops[..|ops| - 1];
      CountIsCompletedFinishes(s, front, id);
      IdsStayUsed(s, front, id);
      assert front == ops[..|front|];
      if id in Run(s, ops).links {
        if id in Run(s, front).links {
          StepCountsCompletion(Run(s, front), ops[|front|], id);
        } else {
          StepBringsNothingBack(Run(s, front), ops[|front|], id);
        }
      }
    }
  }

  lemma {:induction false} IdsStayUsed(s: State, ops: seq<Op>, id: string)
    requires id in Used(s, [])
    ensures id in Used(s, ops)
    decreases |ops|
  {
    if ops != [] {
      IdsStayUsed(s, ops[..|ops| - 1], id);
    }
  }

  predicate Exhausted(link: Link) {
    link.maxDownloads > 0 && link.downloadCount >= link.maxDownloads
  }

  predicate GoneOrExhausted(links: map<string, Link>, id: string) {
    id in links ==> Exhausted(links[id])
  }

  /** At every moment of the run the link is exhausted or gone. */
  predicate StaysExhausted(s: State, ops: seq<Op>, id: string)
    decreases |ops|
  {
    && (ops == [] || StaysExhausted(s, ops[..|ops| - 1], id))
    && GoneOrExhausted(Run(s, ops).links, id)
  }

  /** At each reload the file's copy of the link is missing or exhausted too. */
  predicate ReloadsExhausted(s: State, ops: seq<Op>, id: string)
    decreases |ops|
  {
    ops == [] ||
    var front, op := ops[..|ops| - 1], ops[|ops| - 1];
    ReloadsExhausted(s, front, id) && (op.Reload? ==> GoneOrExhausted(Run(s, front).disk, id))
  }

  lemma StepStaysExhausted(s: State, op: Op, id: string)
    requires GoneOrExhausted(s.links, id) && id !in CreatedId(s, op)
    ensures GoneOrExhausted(Step(s, op).1.links, id) <==> op.Reload? ==> GoneOrExhausted(s.disk, id)
  {}

  lemma ExhaustedIsRefused(s: State, id: string, now: int)
    requires GoneOrExhausted(s.links, id)
    ensures Step(s, Reserve(id, now)).0.Fail?
  {}

  /** An exhausted link stays exhausted until it is deleted, and no reservation of it is ever accepted again,
      exactly when no reload brings back an older copy with downloads left. */
  lemma {:induction false} ExhaustedStaysExhausted(s: State, ops: seq<Op>, id: string)
    requires FreshIds(s, ops) && id in s.links && Exhausted(s.links[id])
    ensures StaysExhausted(s, ops, id) <==> ReloadsExhausted(s, ops, id)
    ensures StaysExhausted(s, ops, id) ==> forall now :: Step(Run(s, ops), Reserve(id, now)).0.Fail?
    decreases |ops|
  {
    if ops != [] {
      var front := ops[..|ops| - 1];
      ExhaustedStaysExhausted(s, front, id);
      IdsStayUsed(s, front, id);
      if StaysExhausted(s, front, id) {
        StepStaysExhausted(Run(s, front), ops[|front|], id);
      }
    }
    if StaysExhausted(s, ops, id) {
      forall now
        ensures Step(Run(s, ops), Reserve(id, now)).0.Fail?
      {
        ExhaustedIsRefused(Run(s, ops), id, now);
      }
    }
  }

  /** When no save fails before a reload, the file's copy is the link itself. */
  lemma {:induction false} SavedReloadsAreExhausted(s: State, ops: seq<Op>, id: string)
    requires FreshIds(s, ops) && ReloadsAreSaved(s, ops) && id in s.links && Exhausted(s.links[id])
    ensures ReloadsExhausted(s, ops, id)
    decreases |ops|
  {
    if ops != [] {
      ReloadsOfPrefix(s, ops);
      var front := ops[..|ops| - 1];
      SavedReloadsAreExhausted(s, front, id);
      ExhaustedStaysExhausted(s, front, id);
      assert front == ops[..|front|];
    }
  }

  /** Such a reload exists: when the save of the last completed download fails, a reload makes the link
      available again. */
  lemma UnsavedFinishIsForgotten()
    ensures exists s, finish: Op, id, now ::
              finish.Finish? && id in Step(s, finish).1.links && Exhausted(Step(s, finish).1.links[id])
              && Step(Step(Step(s, finish).1, Reload).1, Reserve(id, now)).0 == Pass
  {
    var link := Link("a", Download, "/", "", 0, 0, 1, 0, 0, "", false);
    var s := State(map["a" := link], map["a" := 1], map["a" := link]);
    var finish := Finish("a", true, 5, false);
    var s1 := Step(s, finish).1;
    assert Exhausted(s1.links["a"]);
    assert Step(Step(s1, Reload).1, Reserve("a", 6)).0 == Pass;
  }

  // ---------------------------------------------------------------- which reservations are granted

  /** What no call changes of a link. */
  predicate SameTerms(a: Link, b: Link) {
    && a.disabled == b.disabled && a.expiresAt == b.expiresAt && a.maxDownloads == b.maxDownloads
    && a.kind == b.kind && a.path == b.path && a.createdAt == b.createdAt && a.secret == b.secret
  }

  lemma StepKeepsTerms(s: State, op: Op, id: string)
    requires id in s.links && id in Step(s, op).1.links && id !in CreatedId(s, op) && (op.Reload? ==> s.disk == s.links)
    ensures SameTerms(s.links[id], Step(s, op).1.links[id])
  {}

  lemma {:induction false} TermsStay(s: State, ops: seq<Op>, id: string)
    requires FreshIds(s, ops) && ReloadsAreSaved(s, ops) && id in s.links
    ensures id in Run(s, ops).links ==> SameTerms(s.links[id], Run(s, ops).links[id])
    decreases |ops|
  {
    if ops != [] {
      ReloadsOfPrefix(s, ops);
      var front := ops[..|ops| - 1];
      TermsStay(s, front, id);
      IdsStayUsed(s, front, id);
      assert front == ops[..|front|];
      if id in Run(s, ops).links {
        if id in Run(s, front).links {
          StepKeepsTerms(Run(s, front), ops[|front|], id);
        } else {
          StepBringsNothingBack(Run(s, front), ops[|front|], id);
        }
      }
    }
  }

  lemma ReservedIff(s: State, id: string, now: int)
    requires id in s.links
    ensures var link := s.links[id];
            Step(s, Reserve(id, now)).0 == Pass
            <==> !link.disabled && (link.expiresAt == 0 || now <= link.expiresAt)
                 && (link.maxDownloads <= 0 || link.downloadCount + Active(s, id) < link.maxDownloads)
  {}

  /** With ids never reused and reloads after saves, a reservation of a link is granted exactly while the link as
      it was made is enabled and unexpired and its limit, if any, is above the downloads it started with, those
      completed and those running since, counted from the calls alone. */
  lemma ReservationIsGrantedIff(s: State, ops: seq<Op>, id: string, now: int)
    requires FreshIds(s, ops) && ReloadsAreSaved(s, ops) && id in s.links && id in Run(s, ops).links
    ensures var link := s.links[id];
            Step(Run(s, ops), Reserve(id, now)).0 == Pass
            <==> !link.disabled && (link.expiresAt == 0 || now <= link.expiresAt)
                 && (link.maxDownloads <= 0
                     || link.downloadCount + Completed(s, ops, id) + Outstanding(s, ops, id) < link.maxDownloads)
  {
    TermsStay(s, ops, id);
    CountIsCompletedFinishes(s, ops, id);
    ActiveIsReservationsMinusFinishes(s, ops, id);
    ReservedIff(Run(s, ops), id, now);
  }

  /** The URL path that was set last. */
  function LastUrlPath(s: State, ops: seq<Op>, id: string): string
    requires id in s.links
  {
    if ops == [] then s.links[id].urlPath
    else
      var op := ops[|ops| - 1];
      if op.SetUrlPath? && op.id == id then op.urlPath else LastUrlPath(s, ops[..|ops| - 1], id)
  }

  lemma StepSetsUrlPath(s: State, op: Op, id: string)
    requires id in s.links && id in Step(s, op).1.links && id !in CreatedId(s, op) && (op.Reload? ==> s.disk == s.links)
    ensures Step(s, op).1.links[id].urlPath == if op.SetUrlPath? && op.id == id then op.urlPath else s.links[id].urlPath
  {}

  predicate Removes(op: Op, id: string) { op.Remove? && op.id == id }

  lemma StepRemovesIff(s: State, op: Op, id: string)
    requires id in s.links && id !in CreatedId(s, op) && (op.Reload? ==> s.disk == s.links)
    ensures id in Step(s, op).1.links <==> !Removes(op, id)
  {}

  predicate EverRemoved(ops: seq<Op>, id: string) { exists i | 0 <= i < |ops| :: Removes(ops[i], id) }

  lemma RemovedBeforeOrNow(ops: seq<Op>, id: string)
    requires ops != []
    ensures EverRemoved(ops, id) <==> EverRemoved(ops[..|ops| - 1], id) || Removes(ops[|ops| - 1], id)
  {
    assert forall i | 0 <= i < |ops| - 1 :: ops[..|ops| - 1][i] == ops[i];
    if EverRemoved(ops[..|ops| - 1], id) {
      var i :| 0 <= i < |ops| - 1 && Removes(ops[..|ops| - 1][i], id);
      assert Removes(ops[i], id);
    }
  }

  /** With ids never reused and reloads after saves, a link is there until it is removed, under the URL path that was
      set last; a removed one never comes back. */
  lemma {:induction false} LinkStaysUntilRemoved(s: State, ops: seq<Op>, id: string)
    requires FreshIds(s, ops) && ReloadsAreSaved(s, ops) && id in s.links
    ensures id in Run(s, ops).links <==> !EverRemoved(ops, id)
    ensures id in Run(s, ops).links ==> Run(s, ops).links[id].urlPath == LastUrlPath(s, ops, id)
    decreases |ops|
  {
    if ops != [] {
      ReloadsOfPrefix(s, ops);
      var front := ops[..|ops| - 1];
      LinkStaysUntilRemoved(s, front, id);
      IdsStayUsed(s, front, id);
      assert front == ops[..|front|];
      RemovedBeforeOrNow(ops, id);
      if id in Run(s, front).links {
        StepRemovesIff(Run(s, front), ops[|front|], id);
        if id in Run(s, ops).links {
          StepSetsUrlPath(Run(s, front), ops[|front|], id);
        }
      } else {
        StepBringsNothingBack(Run(s, front), ops[|front|], id);
      }
    }
  }
}
