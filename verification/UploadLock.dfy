/** The reference-counted table of per-upload locks in internal/httpapi/server.go (lockUpload and the
    release function it returns), as a step system for any number of threads.

    One step is one line of code: the table mutex, the lookup that may insert a lock, the two counter
    updates, the conditional delete and the per-key mutex are all separate steps, interleaved at will. */
module UploadLock {
  import opened Common

  type Key = string
  type Tid = nat
  type LockId = nat

  /** Where a thread is: the comment says what it has just done. */
  datatype Phase =
    | Idle
    | Entering    // called lockUpload
    | Looking     // locked the table
    | Found       // holds the key's lock object, inserted if it was missing
    | Counted     // refs++
    | Waiting     // unlocked the table
    | Inside      // locked the key's lock
    | Leaving     // released it
    | Uncounting  // locked the table again
    | Uncounted   // refs--
    | Erased      // deleted the entry if refs was 0

  datatype Thread = Thread(phase: Phase, key: Key, lock: LockId)
  datatype Lock = Lock(refs: int, holder: Option<Tid>)
  datatype State = State(threads: map<Tid, Thread>, tableMu: Option<Tid>,
                         table: map<Key, LockId>, locks: map<LockId, Lock>)

  const INITIAL := State(map[], None, map[], map[])

  // ---------------------------------------------------------------- steps

  predicate CanStart(s: State, t: Tid) {
    t !in s.threads || s.threads[t].phase == Idle
  }

  function Start(s: State, t: Tid, key: Key): State {
    s.(threads := s.threads[t := Thread(Entering, key, 0)])
  }

  /** A busy thread can take its next line unless that line locks a mutex that is taken. `spare` names
      the lock object a lookup would allocate. */
  predicate CanGo(s: State, t: Tid, spare: LockId) {
    && t in s.threads
    && match s.threads[t].phase
       case Idle => false
       case Entering => s.tableMu.None?
       case Leaving => s.tableMu.None?
       case Waiting => s.threads[t].lock in s.locks && s.locks[s.threads[t].lock].holder.None?
       case Looking => s.threads[t].key in s.table || spare !in s.locks
       case Found => s.threads[t].lock in s.locks
       case Inside => s.threads[t].lock in s.locks
       case Uncounting => s.threads[t].lock in s.locks
       case Uncounted => s.threads[t].lock in s.locks
       case Counted => true
       case Erased => true
  }

  function Go(s: State, t: Tid, spare: LockId): State
    requires CanGo(s, t, spare)
  {
    match s.threads[t].phase
    case Entering => TakeTable(s, t, Looking)
    case Looking => LookUp(s, t, spare)
    case Found => CountIn(s, t)
    case Counted => DropTable(s, t, Waiting)
    case Waiting => Acquire(s, t)
    case Inside => Release(s, t)
    case Leaving => TakeTable(s, t, Uncounting)
    case Uncounting => CountOut(s, t)
    case Uncounted => Erase(s, t)
    case Erased => DropTable(s, t, Idle)
  }

  predicate Busy(s: State, t: Tid) { t in s.threads && s.threads[t].lock in s.locks }

  function TakeTable(s: State, t: Tid, next: Phase): State
    requires t in s.threads
  {
    At(s, t, s.threads[t].(phase := next)).(tableMu := Some(t))
  }

  function DropTable(s: State, t: Tid, next: Phase): State
    requires t in s.threads
  {
    At(s, t, s.threads[t].(phase := next)).(tableMu := None)
  }

  function LookUp(s: State, t: Tid, spare: LockId): State
    requires t in s.threads
  {
    var me := s.threads[t];
    if me.key in s.table then At(s, t, me.(phase := Found, lock := s.table[me.key]))
    else At(s, t, me.(phase := Found, lock := spare))
      .(table := s.table[me.key := spare], locks := s.locks[spare := Lock(0, None)])
  }

  function CountIn(s: State, t: Tid): State
    requires Busy(s, t)
  {
    var l := s.threads[t].lock;
    At(s, t, s.threads[t].(phase := Counted)).(locks := s.locks[l := s.locks[l].(refs := s.locks[l].refs + 1)])
  }

  function CountOut(s: State, t: Tid): State
    requires Busy(s, t)
  {
    var l := s.threads[t].lock;
    At(s, t, s.threads[t].(phase := Uncounted)).(locks := s.locks[l := s.locks[l].(refs := s.locks[l].refs - 1)])
  }

  function Acquire(s: State, t: Tid): State
    requires Busy(s, t)
  {
    var l := s.threads[t].lock;
    At(s, t, s.threads[t].(phase := Inside)).(locks := s.locks[l := s.locks[l].(holder := Some(t))])
  }

  function Release(s: State, t: Tid): State
    requires Busy(s, t)
  {
    var l := s.threads[t].lock;
    At(s, t, s.threads[t].(phase := Leaving)).(locks := s.locks[l := s.locks[l].(holder := None)])
  }

  function Erase(s: State, t: Tid): State
    requires Busy(s, t)
  {
    var s' := At(s, t, s.threads[t].(phase := Erased));
    if s.locks[s.threads[t].lock].refs == 0 then s'.(table := s.table - {s.threads[t].key}) else s'
  }

  function At(s: State, t: Tid, me: Thread): State {
    s.(threads := s.threads[t := me])
  }

  // ---------------------------------------------------------------- the invariant

  predicate HoldsTable(p: Phase) {
    p == Looking || p == Found || p == Counted || p == Uncounting || p == Uncounted || p == Erased
  }

  /** Between its increment and its decrement. */
  predicate HasRef(p: Phase) {
    p == Counted || p == Waiting || p == Inside || p == Leaving || p == Uncounting
  }

  /** Holding a lock object that must still be the table's entry. */
  predicate Knows(p: Phase) { p == Found || HasRef(p) || p == Uncounted }

  function Refs(s: State, l: LockId): set<Tid> {
    set t | t in s.threads && HasRef(s.threads[t].phase) && s.threads[t].lock == l
  }

  ghost predicate TableMutex(s: State) {
    && (forall t | t in s.threads && HoldsTable(s.threads[t].phase) :: s.tableMu == Some(t))
    && (s.tableMu.Some? ==> s.tableMu.value in s.threads && HoldsTable(s.threads[s.tableMu.value].phase))
  }

  ghost predicate EntriesKnown(s: State) {
    forall t | t in s.threads && Knows(s.threads[t].phase) ::
      s.threads[t].key in s.table && s.table[s.threads[t].key] == s.threads[t].lock
  }

  ghost predicate TableWellFormed(s: State) {
    && (forall k | k in s.table :: s.table[k] in s.locks)
    && (forall j, k | j in s.table && k in s.table && s.table[j] == s.table[k] :: j == k)
  }

  ghost predicate RefsExact(s: State) {
    forall l | l in s.locks :: s.locks[l].refs == |Refs(s, l)|
  }

  predicate HeldBy(s: State, l: LockId, t: Tid) {
    t in s.threads && s.threads[t].phase == Inside && s.threads[t].lock == l
  }

  ghost predicate HoldersExact(s: State) {
    && (forall t | t in s.threads && s.threads[t].phase == Inside ::
          s.threads[t].lock in s.locks && s.locks[s.threads[t].lock].holder == Some(t))
    && (forall l | l in s.locks && s.locks[l].holder.Some? :: HeldBy(s, l, s.locks[l].holder.value))
  }

  /** An entry with no references belongs to the thread that is about to count itself in or to delete it. */
  ghost predicate EntriesUsed(s: State) {
    forall k | k in s.table && s.table[k] in s.locks && s.locks[s.table[k]].refs == 0 ::
      && s.tableMu.Some? && s.tableMu.value in s.threads
      && s.threads[s.tableMu.value].key == k
      && (s.threads[s.tableMu.value].phase == Found || s.threads[s.tableMu.value].phase == Uncounted)
  }

  ghost predicate TableOk(s: State) {
    TableMutex(s) && EntriesKnown(s) && TableWellFormed(s) && EntriesUsed(s)
  }

  ghost predicate Inv(s: State) { TableOk(s) && RefsExact(s) && HoldersExact(s) }

  lemma RefsAfter(s: State, s': State, t: Tid, me: Thread, l: LockId)
    requires s'.threads == s.threads[t := me]
    ensures Refs(s', l) == (if HasRef(me.phase) && me.lock == l then Refs(s, l) + {t} else Refs(s, l) - {t})
  {}

  lemma StartKeepsRefs(s: State, t: Tid, key: Key)
    requires RefsExact(s) && CanStart(s, t)
    ensures RefsExact(Start(s, t, key))
  {
    var s' := Start(s, t, key);
    forall l | l in s'.locks
      ensures s'.locks[l].refs == |Refs(s', l)|
    {
      StartKeepsRefsOf(s, t, key, l);
    }
  }

  lemma StartKeepsRefsOf(s: State, t: Tid, key: Key, l: LockId)
    requires CanStart(s, t)
    ensures Refs(Start(s, t, key), l) == Refs(s, l)
  {
    RefsAfter(s, Start(s, t, key), t, Thread(Entering, key, 0), l);
    assert t !in Refs(s, l);
  }

  lemma StartKeepsTable(s: State, t: Tid, key: Key)
    requires TableOk(s) && CanStart(s, t)
    ensures TableOk(Start(s, t, key))
  {}

  lemma StartKeepsInv(s: State, t: Tid, key: Key)
    requires Inv(s) && CanStart(s, t)
    ensures Inv(Start(s, t, key))
  {
    StartKeepsRefs(s, t, key);
    StartKeepsTable(s, t, key);
    SameHoldersStayExact(s, Start(s, t, key), t);
  }

  /** A line that takes or gives back no per-key mutex. */
  lemma SameHoldersStayExact(s: State, s': State, t: Tid)
    requires HoldersExact(s) && t in s'.threads && s'.threads == s.threads[t := s'.threads[t]]
    requires (t in s.threads ==> s.threads[t].phase != Inside) && s'.threads[t].phase != Inside
    requires forall l | l in s.locks :: l in s'.locks && s'.locks[l].holder == s.locks[l].holder
    requires forall l | l in s'.locks && l !in s.locks :: s'.locks[l].holder.None?
    ensures HoldersExact(s')
  {}

  lemma TakeTableKeepsTable(s: State, t: Tid, next: Phase)
    requires TableOk(s) && t in s.threads && s.tableMu.None?
    requires (s.threads[t].phase == Entering && next == Looking)
             || (s.threads[t].phase == Leaving && next == Uncounting)
    ensures TableOk(TakeTable(s, t, next))
  {}

  lemma TakeTableKeepsInv(s: State, t: Tid, next: Phase)
    requires Inv(s) && t in s.threads && s.tableMu.None?
    requires (s.threads[t].phase == Entering && next == Looking)
             || (s.threads[t].phase == Leaving && next == Uncounting)
    ensures Inv(TakeTable(s, t, next))
  {
    TakeTableKeepsTable(s, t, next);
    SameCountsStayExact(s, TakeTable(s, t, next), t);
    SameHoldersStayExact(s, TakeTable(s, t, next), t);
  }

  lemma DropTableKeepsTable(s: State, t: Tid, next: Phase)
    requires TableOk(s) && t in s.threads
    requires (s.threads[t].phase == Counted && next == Waiting) || (s.threads[t].phase == Erased && next == Idle)
    ensures TableOk(DropTable(s, t, next))
  {}

  lemma DropTableKeepsInv(s: State, t: Tid, next: Phase)
    requires Inv(s) && t in s.threads
    requires (s.threads[t].phase == Counted && next == Waiting) || (s.threads[t].phase == Erased && next == Idle)
    ensures Inv(DropTable(s, t, next))
  {
    DropTableKeepsTable(s, t, next);
    SameCountsStayExact(s, DropTable(s, t, next), t);
    SameHoldersStayExact(s, DropTable(s, t, next), t);
  }

  lemma SamePlacesSameRefs(s: State, s': State, t: Tid)
    requires t in s.threads && t in s'.threads && s'.threads == s.threads[t := s'.threads[t]]
    requires HasRef(s.threads[t].phase) == HasRef(s'.threads[t].phase)
    requires HasRef(s.threads[t].phase) ==> s.threads[t].lock == s'.threads[t].lock
    ensures forall l :: Refs(s', l) == Refs(s, l)
  {
    forall l
      ensures Refs(s', l) == Refs(s, l)
    {
      RefsAfter(s, s', t, s'.threads[t], l);
    }
  }

  lemma LookUpKeepsTable(s: State, t: Tid, spare: LockId)
    requires TableOk(s) && t in s.threads && s.threads[t].phase == Looking
    requires s.threads[t].key in s.table || spare !in s.locks
    ensures TableOk(LookUp(s, t, spare))
  {}

  lemma LookUpKeepsRefs(s: State, t: Tid, spare: LockId)
    requires RefsExact(s) && TableOk(s) && t in s.threads && s.threads[t].phase == Looking
    requires s.threads[t].key in s.table || spare !in s.locks
    ensures RefsExact(LookUp(s, t, spare))
  {
    SamePlacesSameRefs(s, LookUp(s, t, spare), t);
    if s.threads[t].key !in s.table {
      assert Refs(s, spare) == {};
    }
  }

  lemma LookUpKeepsInv(s: State, t: Tid, spare: LockId)
    requires Inv(s) && t in s.threads && s.threads[t].phase == Looking
    requires s.threads[t].key in s.table || spare !in s.locks
    ensures Inv(LookUp(s, t, spare))
  {
    LookUpKeepsTable(s, t, spare);
    LookUpKeepsRefs(s, t, spare);
    SameHoldersStayExact(s, LookUp(s, t, spare), t);
  }

  lemma CountInKeepsRefs(s: State, t: Tid)
    requires RefsExact(s) && Busy(s, t) && s.threads[t].phase == Found
    ensures RefsExact(CountIn(s, t))
    ensures CountIn(s, t).locks[s.threads[t].lock].refs > 0
  {
    var s', mine := CountIn(s, t), s.threads[t].lock;
    forall l | l in s'.locks
      ensures s'.locks[l].refs == |Refs(s', l)|
    {
      RefsAfter(s, s', t, s'.threads[t], l);
      assert t !in Refs(s, l);
      assert Refs(s, l) - {t} == Refs(s, l);
    }
    assert t in Refs(s', mine);
  }

  lemma CountInKeepsTable(s: State, t: Tid)
    requires TableOk(s) && Busy(s, t) && s.threads[t].phase == Found
    requires CountIn(s, t).locks[s.threads[t].lock].refs > 0
    ensures TableOk(CountIn(s, t))
  {}

  lemma CountInKeepsInv(s: State, t: Tid)
    requires Inv(s) && Busy(s, t) && s.threads[t].phase == Found
    ensures Inv(CountIn(s, t))
  {
    CountInKeepsRefs(s, t);
    CountInKeepsTable(s, t);
    SameHoldersStayExact(s, CountIn(s, t), t);
  }

  lemma CountOutKeepsRefs(s: State, t: Tid)
    requires RefsExact(s) && Busy(s, t) && s.threads[t].phase == Uncounting
    ensures RefsExact(CountOut(s, t))
  {
    var s', mine := CountOut(s, t), s.threads[t].lock;
    assert t in Refs(s, mine);
    forall l | l in s'.locks
      ensures s'.locks[l].refs == |Refs(s', l)|
    {
      RefsAfter(s, s', t, s'.threads[t], l);
      assert l != mine ==> Refs(s, l) - {t} == Refs(s, l);
    }
  }

  lemma CountOutKeepsTable(s: State, t: Tid)
    requires TableOk(s) && Busy(s, t) && s.threads[t].phase == Uncounting
    ensures TableOk(CountOut(s, t))
  {}

  lemma CountOutKeepsInv(s: State, t: Tid)
    requires Inv(s) && Busy(s, t) && s.threads[t].phase == Uncounting
    ensures Inv(CountOut(s, t))
  {
    CountOutKeepsRefs(s, t);
    CountOutKeepsTable(s, t);
    SameHoldersStayExact(s, CountOut(s, t), t);
  }

  /** A line that moves no thread across a counter line and changes no counter. */
  lemma SameCountsStayExact(s: State, s': State, t: Tid)
    requires RefsExact(s) && t in s.threads && t in s'.threads && s'.threads == s.threads[t := s'.threads[t]]
    requires HasRef(s.threads[t].phase) == HasRef(s'.threads[t].phase)
    requires HasRef(s.threads[t].phase) ==> s.threads[t].lock == s'.threads[t].lock
    requires forall l | l in s'.locks :: l in s.locks && s'.locks[l].refs == s.locks[l].refs
    ensures RefsExact(s')
  {
    SamePlacesSameRefs(s, s', t);
  }

  lemma AcquireKeepsHolders(s: State, t: Tid)
    requires HoldersExact(s) && Busy(s, t) && s.threads[t].phase == Waiting && s.locks[s.threads[t].lock].holder.None?
    ensures HoldersExact(Acquire(s, t))
  {}

  lemma AcquireKeepsInv(s: State, t: Tid)
    requires Inv(s) && Busy(s, t) && s.threads[t].phase == Waiting && s.locks[s.threads[t].lock].holder.None?
    ensures Inv(Acquire(s, t))
  {
    SameCountsStayExact(s, Acquire(s, t), t);
    AcquireKeepsHolders(s, t);
    PerKeyMutexKeepsTable(s, Acquire(s, t), t);
  }

  lemma ReleaseKeepsHolders(s: State, t: Tid)
    requires HoldersExact(s) && Busy(s, t) && s.threads[t].phase == Inside
    ensures HoldersExact(Release(s, t))
  {}

  lemma ReleaseKeepsInv(s: State, t: Tid)
    requires Inv(s) && Busy(s, t) && s.threads[t].phase == Inside
    ensures Inv(Release(s, t))
  {
    SameCountsStayExact(s, Release(s, t), t);
    ReleaseKeepsHolders(s, t);
    PerKeyMutexKeepsTable(s, Release(s, t), t);
  }

  /** The table does not see the per-key mutexes. */
  lemma PerKeyMutexKeepsTable(s: State, s': State, t: Tid)
    requires TableOk(s)
    requires t in s.threads && t in s'.threads && s'.threads == s.threads[t := s'.threads[t]]
    requires s'.threads[t] == s.threads[t].(phase := s'.threads[t].phase)
    requires HasRef(s.threads[t].phase) && HasRef(s'.threads[t].phase)
    requires !HoldsTable(s.threads[t].phase) && !HoldsTable(s'.threads[t].phase)
    requires s'.table == s.table && s'.tableMu == s.tableMu && s'.locks.Keys == s.locks.Keys
    requires forall l | l in s.locks :: s'.locks[l].refs == s.locks[l].refs
    ensures TableOk(s')
  {}

  /** Deleting an entry takes it from nobody: when the counter is 0 no other thread holds the key's lock
      object, counted or about to be. */
  lemma DeleteDropsNoLockInUse(s: State, t: Tid)
    requires Inv(s) && Busy(s, t) && s.threads[t].phase == Uncounted && s.locks[s.threads[t].lock].refs == 0
    ensures forall u | u in s.threads && u != t && Knows(s.threads[u].phase) :: s.threads[u].key != s.threads[t].key
  {
    var l := s.threads[t].lock;
    forall u | u in s.threads && u != t && Knows(s.threads[u].phase)
      ensures s.threads[u].key != s.threads[t].key
    {
      assert Refs(s, l) == {};
      assert u !in Refs(s, l);
    }
  }

  lemma EraseKeepsKnown(s: State, t: Tid)
    requires EntriesKnown(s) && Busy(s, t) && s.threads[t].phase == Uncounted && s.threads[t].lock in s.locks
    requires s.locks[s.threads[t].lock].refs == 0 ==>
               forall u | u in s.threads && u != t && Knows(s.threads[u].phase) :: s.threads[u].key != s.threads[t].key
    ensures EntriesKnown(Erase(s, t))
  {}

  lemma EraseKeepsUsed(s: State, t: Tid)
    requires TableOk(s) && Busy(s, t) && s.threads[t].phase == Uncounted && s.threads[t].lock in s.locks
    ensures EntriesUsed(Erase(s, t))
  {
    var s' := Erase(s, t);
    forall k | k in s'.table && s'.table[k] in s'.locks
      ensures s'.locks[s'.table[k]].refs != 0
    {
      assert k in s.table && s'.table[k] == s.table[k];
      assert s.tableMu == Some(t);
    }
  }

  lemma EraseKeepsTable(s: State, t: Tid)
    requires Inv(s) && Busy(s, t) && s.threads[t].phase == Uncounted
    ensures TableOk(Erase(s, t))
  {
    if s.locks[s.threads[t].lock].refs == 0 {
      DeleteDropsNoLockInUse(s, t);
    }
    EraseKeepsKnown(s, t);
    EraseKeepsUsed(s, t);
  }

  lemma EraseKeepsInv(s: State, t: Tid)
    requires Inv(s) && Busy(s, t) && s.threads[t].phase == Uncounted
    ensures Inv(Erase(s, t))
  {
    EraseKeepsTable(s, t);
    SameCountsStayExact(s, Erase(s, t), t);
    SameHoldersStayExact(s, Erase(s, t), t);
  }

  lemma GoKeepsInv(s: State, t: Tid, spare: LockId)
    requires Inv(s) && CanGo(s, t, spare)
    ensures Inv(Go(s, t, spare))
  {
    match s.threads[t].phase
    case Entering => TakeTableKeepsInv(s, t, Looking);
    case Looking => LookUpKeepsInv(s, t, spare);
    case Found => CountInKeepsInv(s, t);
    case Counted => DropTableKeepsInv(s, t, Waiting);
    case Waiting => AcquireKeepsInv(s, t);
    case Inside => ReleaseKeepsInv(s, t);
    case Leaving => TakeTableKeepsInv(s, t, Uncounting);
    case Uncounting => CountOutKeepsInv(s, t);
    case Uncounted => EraseKeepsInv(s, t);
    case Erased => DropTableKeepsInv(s, t, Idle);
  }

  // ---------------------------------------------------------------- every run

  ghost predicate Next(s: State, s': State) {
    || (exists t, key :: CanStart(s, t) && s' == Start(s, t, key))
    || (exists t, spare :: CanGo(s, t, spare) && s' == Go(s, t, spare))
  }

  ghost predicate IsRun(run: seq<State>) {
    && run != [] && run[0] == INITIAL
    && forall i | 0 <= i < |run| - 1 :: Next(run[i], run[i + 1])
  }

  lemma {:induction false} RunsKeepInv(run: seq<State>)
    requires IsRun(run)
    ensures Inv(run[|run| - 1])
    decreases |run|
  {
    if |run| > 1 {
      var n := |run| - 2;
      RunsKeepInv(run[..n + 1]);
      assert Next(run[n], run[n + 1]);
      if t, key :| CanStart(run[n], t) && run[n + 1] == Start(run[n], t, key) {
        StartKeepsInv(run[n], t, key);
      } else {
        var t, spare :| CanGo(run[n], t, spare) && run[n + 1] == Go(run[n], t, spare);
        GoKeepsInv(run[n], t, spare);
      }
    }
  }

  predicate AllIdle(s: State) {
    forall t | t in s.threads :: s.threads[t].phase == Idle
  }

  /** For any number of threads and any interleaving: at most one thread is inside per key, each
      counter is the number of threads between increment and decrement, the table's entry for a key is
      the lock object every such thread holds, and when all threads are idle the table is empty. */
  lemma LocksAreExclusiveAndExact(run: seq<State>)
    requires IsRun(run)
    ensures var s := run[|run| - 1];
            && (forall t, u | t in s.threads && u in s.threads && s.threads[t].phase == Inside == s.threads[u].phase
                              && s.threads[t].key == s.threads[u].key :: t == u)
            && (forall l | l in s.locks :: s.locks[l].refs == |Refs(s, l)|)
            && (forall t | t in s.threads && HasRef(s.threads[t].phase) ::
                  s.threads[t].key in s.table && s.table[s.threads[t].key] == s.threads[t].lock)
            && (AllIdle(s) ==> s.table == map[])
  {
    RunsKeepInv(run);
    var s := run[|run| - 1];
    InsideIsExclusive(s);
    if AllIdle(s) {
      forall l: LockId
        ensures Refs(s, l) == {}
      {}
      assert s.table == map[];
    }
  }

  lemma InsideIsExclusive(s: State)
    requires Inv(s)
    ensures forall t, u | t in s.threads && u in s.threads && s.threads[t].phase == Inside == s.threads[u].phase
                          && s.threads[t].key == s.threads[u].key :: t == u
  {
    forall t, u | t in s.threads && u in s.threads && s.threads[t].phase == Inside == s.threads[u].phase
                  && s.threads[t].key == s.threads[u].key
      ensures t == u
    {
      var l := s.table[s.threads[t].key];
      assert s.locks[l].holder == Some(t) && s.locks[l].holder == Some(u);
    }
  }

  /** No deadlock: in every reachable state with a thread that is not idle, some busy thread can take
      its next line. */
  lemma SomeoneCanGo(run: seq<State>, t: Tid, spare: LockId)
    requires IsRun(run)
    requires t in run[|run| - 1].threads && run[|run| - 1].threads[t].phase != Idle
    requires spare !in run[|run| - 1].locks
    ensures var s := run[|run| - 1]; exists u :: CanGo(s, u, spare)
  {
    RunsKeepInv(run);
    var s := run[|run| - 1];
    if s.tableMu.Some? {
      assert CanGo(s, s.tableMu.value, spare);
    } else if s.threads[t].phase == Waiting && s.locks[s.threads[t].lock].holder.Some? {
      assert CanGo(s, s.locks[s.threads[t].lock].holder.value, spare);
    } else {
      assert CanGo(s, t, spare);
    }
  }
}
