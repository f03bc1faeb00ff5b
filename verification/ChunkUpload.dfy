/** Chunked uploads of internal/httpapi/server.go: what uploadChunk and dropChunk do with a part file
    while they hold its lock, what copyChunk writes, and what the stale-part cleanup may remove meanwhile.

    The machine runs on top of the lock table of UploadLock: any number of requests, any interleaving of
    their lines, failing system calls, cleanup at any moment and server crashes. A part path names a
    file object (an inode); a request keeps writing to the object it opened even after the path is gone. */
module ChunkUpload {
  import opened Bytes
  import Lock = UploadLock

  type Data = seq<byte>
  newtype int64 = x: int | -0x8000_0000_0000_0000 <= x < 0x8000_0000_0000_0000
  const MAX_INT64: int64 := 0x7fff_ffff_ffff_ffff

  // ---------------------------------------------------------------- copyChunk

  datatype CopyError = None | ReadOrWriteFailed | ExceedsTotal | ExceedsTotalAndTruncateFailed

  /** The part file that a request has open, positioned at its end. */
  class PartFile {
    var data: Data

    constructor (data: Data)
      ensures this.data == data
    {
      this.data := data;
    }

    /** io.Copy from a reader limited to `limit` bytes; it may fail after any prefix. */
    method Copy(chunk: Data, limit: int64) returns (n: int64, ok: bool)
      requires 0 <= limit
      modifies this
      ensures 0 <= n as int <= |chunk| && n <= limit
      ensures data == old(data) + chunk[..n as int]
      ensures ok ==> n == limit || n as int == |chunk|
    {
      n, ok := 0, true;
      while n < limit && (n as int) < |chunk|
        invariant 0 <= n as int <= |chunk| && n <= limit
        invariant data == old(data) + chunk[..n as int]
      {
        if * {
          return n, false;
        }
        data := data + [chunk[n as int]];
        n := n + 1;
      }
    }

    method Truncate(size: int64) returns (ok: bool)
      requires 0 <= size as int <= |data|
      modifies this
      ensures data == if ok then old(data)[..size as int] else old(data)
    {
      ok := *;
      if ok {
        data := data[..size as int];
      }
    }
  }

  /** How many bytes of a chunk are read at most: one more than what is missing, unless that is no int64. */
  function Limit(total: nat, offset: nat): nat {
    if total < offset then 0
    else if total - offset < MAX_INT64 as nat then total - offset + 1
    else total - offset
  }

  function Taken(total: nat, offset: nat, chunk: Data): (n: nat)
    ensures n <= |chunk|
  {
    if |chunk| <= Limit(total, offset) then |chunk| else Limit(total, offset)
  }

  /** At most one byte more than what is missing is written, so an oversized chunk is noticed and undone;
      neither the subtraction nor the increment overflows. */
  method CopyChunk(part: PartFile, chunk: Data, offset: int64, total: int64) returns (n: int64, err: CopyError)
    requires 0 <= offset <= total && |part.data| == offset as int
    modifies part
    ensures err == None || err == ReadOrWriteFailed ==>
              0 <= n as int <= |chunk| && part.data == old(part.data) + chunk[..n as int]
    ensures err == None ==>
              && n as int == Taken(total as int, offset as int, chunk)
              && offset as int + n as int <= total as int
    ensures err == ExceedsTotal ==> part.data == old(part.data) && |chunk| > total as int - offset as int
    ensures err == ExceedsTotalAndTruncateFailed ==>
              && |chunk| > total as int - offset as int
              && part.data == old(part.data) + chunk[..total as int - offset as int + 1]
    ensures |chunk| <= total as int - offset as int ==> err == None || err == ReadOrWriteFailed
    ensures |chunk| > total as int - offset as int && total - offset < MAX_INT64 ==> err != None
  {
    var remaining := total - offset;
    var limit := remaining;
    if remaining < MAX_INT64 {
      limit := limit + 1;
    }
    var ok;
    n, ok := part.Copy(chunk, limit);
    if !ok {
      return n, ReadOrWriteFailed;
    }
    if n <= remaining {
      return n, None;
    }
    var cut := part.Truncate(offset);
    if !cut {
      return n, ExceedsTotalAndTruncateFailed;
    }
    return n, ExceedsTotal;
  }

  // ---------------------------------------------------------------- requests as step systems

  type Inode = nat
  datatype File = File(key: Lock.Key, data: Data)

  /** How far a request that holds its part's lock has come. */
  datatype Job =
    | Begun(offset: nat, chunk: Data)
    | Restarted(offset: nat, chunk: Data)                            // after the conditional remove
    | Opened(offset: nat, chunk: Data, inode: Inode)
    | Copying(offset: nat, chunk: Data, inode: Inode, copied: nat)   // sizes agreed, positioned at offset
    | Exceeded(offset: nat, inode: Inode)                             // offset + n > total_size
    | Complete(inode: Inode)                                          // offset + n == total_size

  /** `committed` and `uncut` are a record of the run: what was committed, and the parts of which a request wrote
      one byte behind the end and ended without cutting it off. */
  datatype State = State(
    lock: Lock.State,
    jobs: map<Lock.Tid, Job>,
    paths: map<Lock.Key, Inode>,
    files: map<Inode, File>,
    committed: set<(Lock.Key, Data)>,
    uncut: set<Lock.Key>)

  /** How the commit ends: ReplaceFile or InstallFile fails and changes nothing; moves the part to the
      destination; or links it there and then fails to remove the part and the new link. */
  datatype CommitResult = CommitFails | CommitMoves | CommitLeavesBoth

  datatype Move =
    | Arrive(t: Lock.Tid, key: Lock.Key)
    | LockLine(t: Lock.Tid, spare: Lock.LockId)
    | Begin(t: Lock.Tid, offset: nat, chunk: Data)
    | Restart(t: Lock.Tid, removed: bool)
    | Open(t: Lock.Tid, ok: bool, spareInode: Inode)
    | CheckSize(t: Lock.Tid)
    | Write(t: Lock.Tid, n: nat)
    | Finish(t: Lock.Tid, ok: bool)
    | Undo(t: Lock.Tid, ok: bool)
    | Commit(t: Lock.Tid, how: CommitResult)
    | Cleanup(key: Lock.Key)
    | Crash

  /** The file each part's requests upload; its length is the total_size that is part of the key. */
  type Sources = Lock.Key -> Data

  predicate IsInside(s: State, t: Lock.Tid) {
    t in s.lock.threads && s.lock.threads[t].phase == Lock.Inside
  }

  function KeyOf(s: State, t: Lock.Tid): Lock.Key
    requires t in s.lock.threads
  {
    s.lock.threads[t].key
  }

  /** The chunk is what the source holds at the stated offset. */
  predicate IsSlice(source: Data, offset: nat, chunk: Data) {
    offset + |chunk| <= |source| && chunk == source[offset..offset + |chunk|]
  }

  /** The chunk is what the source holds at the stated offset, and may go on after the source's end. */
  predicate Agrees(source: Data, offset: nat, chunk: Data) {
    offset <= |source| && (chunk <= source[offset..] || source[offset..] <= chunk)
  }

  predicate Enabled(source: Sources, s: State, m: Move) {
    match m
    case Arrive(t, _) => Lock.CanStart(s.lock, t)
    case LockLine(t, spare) => Lock.CanGo(s.lock, t, spare) && t !in s.jobs
    case Begin(t, offset, chunk) => IsInside(s, t) && t !in s.jobs && Agrees(source(KeyOf(s, t)), offset, chunk)
    case Restart(t, _) => IsInside(s, t) && t in s.jobs && s.jobs[t].Begun?
    case Open(t, _, spareInode) => IsInside(s, t) && t in s.jobs && s.jobs[t].Restarted? && spareInode !in s.files
    case CheckSize(t) => IsInside(s, t) && t in s.jobs && s.jobs[t].Opened? && s.jobs[t].inode in s.files
    case Write(t, n) =>
      IsInside(s, t) && t in s.jobs && s.jobs[t].Copying? && s.jobs[t].inode in s.files
      && s.jobs[t].copied + n <= Taken(|source(KeyOf(s, t))|, s.jobs[t].offset, s.jobs[t].chunk)
    case Finish(t, ok) =>
      IsInside(s, t) && t in s.jobs && s.jobs[t].Copying?
      && (ok ==> s.jobs[t].copied == Taken(|source(KeyOf(s, t))|, s.jobs[t].offset, s.jobs[t].chunk))
    case Undo(t, _) => IsInside(s, t) && t in s.jobs && s.jobs[t].Exceeded? && s.jobs[t].inode in s.files
    case Commit(t, how) =>
      IsInside(s, t) && t in s.jobs && s.jobs[t].Complete?
      && (how != CommitFails ==> KeyOf(s, t) in s.paths && s.paths[KeyOf(s, t)] in s.files)
    case Cleanup(_) => true
    case Crash => true
  }

  function Apply(source: Sources, s: State, m: Move): State
    requires Enabled(source, s, m)
  {
    match m
    case Arrive(t, key) => s.(lock := Lock.Start(s.lock, t, key))
    case LockLine(t, spare) => s.(lock := Lock.Go(s.lock, t, spare))
    case Begin(t, offset, chunk) => s.(jobs := s.jobs[t := Begun(offset, chunk)])
    case Restart(t, removed) => RestartPart(s, t, removed)
    case Open(t, ok, spareInode) => if ok then OpenPart(s, t, spareInode) else Quit(s, t)
    case CheckSize(t) => CheckPart(s, t)
    case Write(t, n) => WritePart(s, t, n)
    case Finish(t, ok) => if ok then FinishPart(s, t, |source(KeyOf(s, t))|) else GiveUp(s, t, |source(KeyOf(s, t))|)
    case Undo(t, ok) => if ok then UndoPart(s, t) else GiveUp(s, t, |source(KeyOf(s, t))|)
    case Commit(t, how) => CommitPart(s, t, how)
    case Cleanup(key) => s.(paths := s.paths - {key}, uncut := s.uncut - {key})
    case Crash => s.(lock := Lock.INITIAL, jobs := map[], uncut := s.uncut + OverKeys(source, s))
  }

  /** The handler returns; its lock is released by the lines that follow. */
  function Quit(s: State, t: Lock.Tid): State { s.(jobs := s.jobs - {t}) }

  /** The request has written behind the end. */
  predicate IsOver(total: nat, job: Job) {
    job.Exceeded? || (job.Copying? && job.offset + job.copied > total)
  }

  /** The parts on disk for which this is so now. */
  function OverKeys(source: Sources, s: State): set<Lock.Key> {
    set t | t in s.jobs && t in s.lock.threads && IsOver(|source(KeyOf(s, t))|, s.jobs[t]) && KeyOf(s, t) in s.paths
      :: KeyOf(s, t)
  }

  /** The handler returns after a failure, whatever it has written. */
  function GiveUp(s: State, t: Lock.Tid, total: nat): State
    requires t in s.lock.threads && t in s.jobs
  {
    Quit(s, t).(uncut := if IsOver(total, s.jobs[t]) && KeyOf(s, t) in s.paths then s.uncut + {KeyOf(s, t)}
                         else s.uncut)
  }

  function RestartPart(s: State, t: Lock.Tid, removed: bool): State
    requires t in s.lock.threads && t in s.jobs && s.jobs[t].Begun?
  {
    var gone := if s.jobs[t].offset == 0 && removed then {KeyOf(s, t)} else {};
    s.(jobs := s.jobs[t := Restarted(s.jobs[t].offset, s.jobs[t].chunk)],
       paths := s.paths - gone, uncut := s.uncut - gone)
  }

  function CheckPart(s: State, t: Lock.Tid): State
    requires t in s.jobs && s.jobs[t].Opened? && s.jobs[t].inode in s.files
  {
    var job := s.jobs[t];
    if |s.files[job.inode].data| != job.offset then Quit(s, t)
    else s.(jobs := s.jobs[t := Copying(job.offset, job.chunk, job.inode, 0)])
  }

  function FinishPart(s: State, t: Lock.Tid, total: nat): State
    requires t in s.jobs && s.jobs[t].Copying?
  {
    var job := s.jobs[t];
    if job.offset + job.copied < total then Quit(s, t)
    else if job.offset + job.copied > total then s.(jobs := s.jobs[t := Exceeded(job.offset, job.inode)])
    else s.(jobs := s.jobs[t := Complete(job.inode)])
  }

  /** The part is cut back to the offset, and the handler returns. */
  function UndoPart(s: State, t: Lock.Tid): State
    requires t in s.jobs && s.jobs[t].Exceeded? && s.jobs[t].inode in s.files
  {
    var job := s.jobs[t];
    var file := s.files[job.inode];
    Quit(s.(files := s.files[job.inode := file.(data := Resized(file.data, job.offset))]), t)
  }

  function OpenPart(s: State, t: Lock.Tid, spareInode: Inode): State
    requires t in s.lock.threads && t in s.jobs && s.jobs[t].Restarted?
  {
    var key := KeyOf(s, t);
    var inode := if key in s.paths then s.paths[key] else spareInode;
    s.(jobs := s.jobs[t := Opened(s.jobs[t].offset, s.jobs[t].chunk, inode)],
       paths := s.paths[key := inode],
       files := if key in s.paths then s.files else s.files[inode := File(key, [])])
  }

  function WritePart(s: State, t: Lock.Tid, n: nat): State
    requires t in s.jobs && s.jobs[t].Copying? && s.jobs[t].inode in s.files
             && s.jobs[t].copied + n <= |s.jobs[t].chunk|
  {
    var job := s.jobs[t];
    var file := s.files[job.inode];
    var data := Overwritten(file.data, job.offset + job.copied, job.chunk[job.copied..job.copied + n]);
    s.(jobs := s.jobs[t := job.(copied := job.copied + n)], files := s.files[job.inode := file.(data := data)])
  }

  function CommitPart(s: State, t: Lock.Tid, how: CommitResult): State
    requires t in s.lock.threads
    requires how != CommitFails ==> KeyOf(s, t) in s.paths && s.paths[KeyOf(s, t)] in s.files
  {
    var key := KeyOf(s, t);
    var s' := s.(jobs := s.jobs - {t});
    if how == CommitFails then s'
    else
      var s'' := s'.(committed := s.committed + {(key, s.files[s.paths[key]].data)});
      if how == CommitMoves then s''.(paths := s.paths - {key}) else s''
  }

  // ---------------------------------------------------------------- the invariant

  /** One byte too many. */
  predicate Spoilt(source: Data, data: Data) { |data| == |source| + 1 && source <= data }

  ghost predicate PartOk(source: Data, data: Data) { data <= source || Spoilt(source, data) }

  /** Every part file object is a prefix of its source or one byte longer, and each path names an object of its
      own part. */
  ghost predicate PartsOk(source: Sources, s: State) {
    && (forall i | i in s.files :: PartOk(source(s.files[i].key), s.files[i].data))
    && (forall k | k in s.paths :: s.paths[k] in s.files && s.files[s.paths[k]].key == k)
  }

  ghost predicate JobOk(source: Sources, s: State, t: Lock.Tid)
    requires t in s.lock.threads && t in s.jobs
  {
    var job, key := s.jobs[t], KeyOf(s, t);
    && (job.Begun? || job.Restarted? || job.Opened? || job.Copying? ==>
          Agrees(source(key), job.offset, job.chunk))
    && (!job.Begun? && !job.Restarted? ==>
          && job.inode in s.files && s.files[job.inode].key == key
          && (key in s.paths ==> s.paths[key] == job.inode))
    && (job.Copying? ==>
          && job.copied <= Taken(|source(key)|, job.offset, job.chunk)
          && |s.files[job.inode].data| == job.offset + job.copied)
    && (job.Exceeded? ==> job.offset <= |source(key)| && |s.files[job.inode].data| == |source(key)| + 1)
    && (job.Complete? ==> |s.files[job.inode].data| == |source(key)|)
  }

  ghost predicate JobsOk(source: Sources, s: State) {
    forall t | t in s.jobs :: IsInside(s, t) && JobOk(source, s, t)
  }

  ghost predicate CommitsAreSources(source: Sources, s: State) {
    forall c | c in s.committed :: c.1 == source(c.0)
  }

  ghost predicate PartInv(source: Sources, s: State) {
    PartsOk(source, s) && JobsOk(source, s) && CommitsAreSources(source, s)
  }

  /** The only request past the lock of its part. */
  ghost predicate Alone(s: State, t: Lock.Tid) {
    && IsInside(s, t)
    && forall u | u in s.jobs && u != t :: u in s.lock.threads && KeyOf(s, u) != KeyOf(s, t)
  }

  ghost predicate Inv(source: Sources, s: State) { Lock.Inv(s.lock) && PartInv(source, s) }

  /** The lock at work. */
  lemma InsideIsAlone(source: Sources, s: State, t: Lock.Tid)
    requires Inv(source, s) && IsInside(s, t)
    ensures Alone(s, t)
  {
    Lock.InsideIsExclusive(s.lock);
  }

  lemma QuitKeepsInv(source: Sources, s: State, t: Lock.Tid)
    requires PartInv(source, s)
    ensures PartInv(source, Quit(s, t))
  {}

  lemma GiveUpKeepsInv(source: Sources, s: State, t: Lock.Tid, total: nat)
    requires PartInv(source, s) && t in s.lock.threads && t in s.jobs
    ensures PartInv(source, GiveUp(s, t, total))
  {}

  lemma BeginKeepsInv(source: Sources, s: State, t: Lock.Tid, offset: nat, chunk: Data)
    requires PartInv(source, s) && IsInside(s, t) && Agrees(source(KeyOf(s, t)), offset, chunk)
    ensures PartInv(source, s.(jobs := s.jobs[t := Begun(offset, chunk)]))
  {}

  lemma RestartKeepsInv(source: Sources, s: State, t: Lock.Tid, removed: bool)
    requires PartInv(source, s) && IsInside(s, t) && t in s.jobs && s.jobs[t].Begun?
    ensures PartInv(source, RestartPart(s, t, removed))
  {}

  /** What a request that has the lock of its part changes in that part concerns no other request. */
  lemma OthersStayOk(source: Sources, s: State, s': State, t: Lock.Tid)
    requires JobsOk(source, s) && Alone(s, t) && s'.lock == s.lock
    requires forall u | u in s'.jobs && u != t :: u in s.jobs && s'.jobs[u] == s.jobs[u]
    requires forall i | i in s.files && s.files[i].key != KeyOf(s, t) :: i in s'.files && s'.files[i] == s.files[i]
    requires forall k | k in s'.paths && k != KeyOf(s, t) :: k in s.paths && s'.paths[k] == s.paths[k]
    ensures forall u | u in s'.jobs && u != t :: IsInside(s', u) && JobOk(source, s', u)
  {
    forall u | u in s'.jobs && u != t
      ensures IsInside(s', u) && JobOk(source, s', u)
    {
      assert JobOk(source, s, u);
    }
  }

  lemma OpenKeepsInv(source: Sources, s: State, t: Lock.Tid, spareInode: Inode)
    requires PartInv(source, s) && Alone(s, t) && t in s.jobs && s.jobs[t].Restarted? && spareInode !in s.files
    ensures PartInv(source, OpenPart(s, t, spareInode))
  {
    OpenKeepsParts(source, s, t, spareInode);
    OpenKeepsJobs(source, s, t, spareInode);
  }

  lemma OpenKeepsParts(source: Sources, s: State, t: Lock.Tid, spareInode: Inode)
    requires PartsOk(source, s) && IsInside(s, t) && t in s.jobs && s.jobs[t].Restarted? && spareInode !in s.files
    ensures PartsOk(source, OpenPart(s, t, spareInode))
  {}

  lemma OpenKeepsJobs(source: Sources, s: State, t: Lock.Tid, spareInode: Inode)
    requires JobsOk(source, s) && Alone(s, t) && t in s.jobs && s.jobs[t].Restarted? && spareInode !in s.files
    requires KeyOf(s, t) in s.paths ==>
               s.paths[KeyOf(s, t)] in s.files && s.files[s.paths[KeyOf(s, t)]].key == KeyOf(s, t)
    ensures JobsOk(source, OpenPart(s, t, spareInode))
  {
    var s' := OpenPart(s, t, spareInode);
    OthersStayOk(source, s, s', t);
    assert JobOk(source, s, t);
    assert JobOk(source, s', t);
  }

  lemma CheckKeepsInv(source: Sources, s: State, t: Lock.Tid)
    requires PartInv(source, s) && t in s.jobs && s.jobs[t].Opened? && s.jobs[t].inode in s.files
    ensures PartInv(source, CheckPart(s, t))
  {
    assert JobOk(source, s, t);
  }

  lemma SliceOfSlice(source: Data, offset: nat, chunk: Data, copied: nat, n: nat)
    requires IsSlice(source, offset, chunk) && copied + n <= |chunk|
    ensures chunk[copied..copied + n] == source[offset + copied..offset + copied + n]
  {
    var part, same := chunk[copied..copied + n], source[offset + copied..offset + copied + n];
    forall i | 0 <= i < |part|
      ensures part[i] == same[i]
    {
      assert part[i] == chunk[copied + i] == source[offset + (copied + i)];
    }
  }

  lemma PrefixGrows(source: Data, data: Data, n: nat)
    requires data <= source && |data| + n <= |source|
    ensures data + source[|data|..|data| + n] <= source
  {
    assert data == source[..|data|];
    assert source[..|data|] + source[|data|..|data| + n] == source[..|data| + n];
  }

  /** Writing the next bytes of a slice at the end of a prefix makes a longer prefix. */
  lemma WriteExtendsPrefix(source: Data, data: Data, offset: nat, chunk: Data, copied: nat, n: nat)
    requires data <= source && IsSlice(source, offset, chunk) && copied + n <= |chunk|
    requires |data| == offset + copied
    ensures data + chunk[copied..copied + n] <= source
  {
    SliceOfSlice(source, offset, chunk, copied, n);
    PrefixGrows(source, data, n);
  }

  lemma FittingIsSlice(source: Data, offset: nat, chunk: Data, n: nat)
    requires Agrees(source, offset, chunk) && n <= |chunk| && offset + n <= |source|
    ensures IsSlice(source, offset, chunk[..n])
  {
    var part, same := chunk[..n], source[offset..offset + n];
    forall i | 0 <= i < n
      ensures part[i] == same[i]
    {
      assert source[offset..][i] == source[offset + i];
    }
  }

  lemma WriteWithinSource(source: Data, data: Data, offset: nat, chunk: Data, copied: nat, n: nat)
    requires data <= source && Agrees(source, offset, chunk) && copied + n <= |chunk|
    requires |data| == offset + copied && offset + copied + n <= |source|
    ensures data + chunk[copied..copied + n] <= source
  {
    FittingIsSlice(source, offset, chunk, copied + n);
    WriteExtendsPrefix(source, data, offset, chunk[..copied + n], copied, n);
    assert chunk[..copied + n][copied..copied + n] == chunk[copied..copied + n];
  }

  /** Only the byte that shows a chunk to be too long comes to lie behind the source. */
  lemma WriteKeepsPart(source: Data, data: Data, offset: nat, chunk: Data, copied: nat, n: nat)
    requires PartOk(source, data) && Agrees(source, offset, chunk)
    requires copied + n <= Taken(|source|, offset, chunk) && |data| == offset + copied
    ensures PartOk(source, data + chunk[copied..copied + n])
  {
    if offset + copied + n <= |source| {
      WriteWithinSource(source, data, offset, chunk, copied, n);
    } else if n == 0 {
      assert data + chunk[copied..copied] == data;
    } else {
      WriteWithinSource(source, data, offset, chunk, copied, n - 1);
      var last := copied + n - 1;
      assert data + chunk[copied..copied + n] == data + chunk[copied..last] + [chunk[last]];
    }
  }

  lemma WriteKeepsJobs(source: Sources, s: State, t: Lock.Tid, n: nat)
    requires JobsOk(source, s) && Alone(s, t) && t in s.jobs && s.jobs[t].Copying? && s.jobs[t].inode in s.files
    requires s.jobs[t].copied + n <= Taken(|source(KeyOf(s, t))|, s.jobs[t].offset, s.jobs[t].chunk)
    requires |WritePart(s, t, n).files[s.jobs[t].inode].data| == s.jobs[t].offset + s.jobs[t].copied + n
    ensures JobsOk(source, WritePart(s, t, n))
  {
    var s' := WritePart(s, t, n);
    assert JobOk(source, s, t);
    OthersStayOk(source, s, s', t);
    assert JobOk(source, s', t);
  }

  lemma FileKeepsParts(source: Sources, s: State, inode: Inode, data: Data, s': State)
    requires PartsOk(source, s) && inode in s.files
    requires PartOk(source(s.files[inode].key), data)
    requires s'.paths == s.paths
    requires s'.files == s.files[inode := s.files[inode].(data := data)]
    ensures PartsOk(source, s')
  {}

  lemma WriteKeepsInv(source: Sources, s: State, t: Lock.Tid, n: nat)
    requires PartInv(source, s) && Alone(s, t) && t in s.jobs && s.jobs[t].Copying? && s.jobs[t].inode in s.files
    requires s.jobs[t].copied + n <= Taken(|source(KeyOf(s, t))|, s.jobs[t].offset, s.jobs[t].chunk)
    ensures PartInv(source, WritePart(s, t, n))
  {
    var job, key := s.jobs[t], KeyOf(s, t);
    var data, more := s.files[job.inode].data, job.chunk[job.copied..job.copied + n];
    assert JobOk(source, s, t);
    WriteKeepsPart(source(key), data, job.offset, job.chunk, job.copied, n);
    OverwrittenAtEnd(data, more);
    FileKeepsParts(source, s, job.inode, data + more, WritePart(s, t, n));
    WriteKeepsJobs(source, s, t, n);
  }

  lemma FinishKeepsInv(source: Sources, s: State, t: Lock.Tid)
    requires PartInv(source, s) && Alone(s, t) && t in s.jobs && s.jobs[t].Copying?
    requires s.jobs[t].copied == Taken(|source(KeyOf(s, t))|, s.jobs[t].offset, s.jobs[t].chunk)
    ensures PartInv(source, FinishPart(s, t, |source(KeyOf(s, t))|))
  {
    var s' := FinishPart(s, t, |source(KeyOf(s, t))|);
    assert JobOk(source, s, t);
    OthersStayOk(source, s, s', t);
    assert t in s'.jobs ==> JobOk(source, s', t);
  }

  /** Cutting back to an offset within the source leaves a prefix. */
  lemma CutIsPrefix(source: Data, data: Data, offset: nat)
    requires PartOk(source, data) && offset <= |source| && offset <= |data|
    ensures Resized(data, offset) <= source
  {
    assert forall i | 0 <= i < offset :: data[..offset][i] == source[i];
  }

  lemma UndoKeepsInv(source: Sources, s: State, t: Lock.Tid)
    requires PartInv(source, s) && Alone(s, t) && t in s.jobs && s.jobs[t].Exceeded? && s.jobs[t].inode in s.files
    ensures PartInv(source, UndoPart(s, t))
  {
    var s' := UndoPart(s, t);
    var inode, key := s.jobs[t].inode, KeyOf(s, t);
    assert JobOk(source, s, t);
    CutIsPrefix(source(key), s.files[inode].data, s.jobs[t].offset);
    FileKeepsParts(source, s, inode, Resized(s.files[inode].data, s.jobs[t].offset), s');
    OthersStayOk(source, s, s', t);
  }

  lemma CommitKeepsInv(source: Sources, s: State, t: Lock.Tid, how: CommitResult)
    requires PartInv(source, s) && Alone(s, t) && t in s.jobs && s.jobs[t].Complete?
    requires how != CommitFails ==> KeyOf(s, t) in s.paths && s.paths[KeyOf(s, t)] in s.files
    ensures PartInv(source, CommitPart(s, t, how))
  {
    var key := KeyOf(s, t);
    assert JobOk(source, s, t);
    OthersStayOk(source, s, CommitPart(s, t, how), t);
    if how != CommitFails {
      var data := s.files[s.paths[key]].data;
      assert PartOk(source(key), data);
      assert data == source(key)[..|data|] == source(key);
    }
  }

  lemma LockChangeKeepsParts(source: Sources, s: State, lock: Lock.State)
    requires PartInv(source, s)
    requires forall u | u in s.jobs :: u in lock.threads && lock.threads[u] == s.lock.threads[u]
    ensures PartInv(source, s.(lock := lock))
  {
    var s' := s.(lock := lock);
    forall u | u in s'.jobs
      ensures IsInside(s', u) && JobOk(source, s', u)
    {
      assert JobOk(source, s, u);
    }
  }

  lemma GoMovesOnlyItself(s: Lock.State, t: Lock.Tid, spare: Lock.LockId)
    requires Lock.CanGo(s, t, spare)
    ensures forall u | u in s.threads && u != t ::
              u in Lock.Go(s, t, spare).threads && Lock.Go(s, t, spare).threads[u] == s.threads[u]
  {}

  lemma StartMovesOnlyItself(s: Lock.State, t: Lock.Tid, key: Lock.Key)
    ensures forall u | u in s.threads && u != t ::
              u in Lock.Start(s, t, key).threads && Lock.Start(s, t, key).threads[u] == s.threads[u]
  {}

  lemma IdleHasNoJob(source: Sources, s: State, t: Lock.Tid)
    requires JobsOk(source, s) && Lock.CanStart(s.lock, t)
    ensures t !in s.jobs
  {}

  lemma ArriveKeepsParts(source: Sources, s: State, t: Lock.Tid, key: Lock.Key)
    requires PartInv(source, s) && Lock.CanStart(s.lock, t)
    ensures PartInv(source, s.(lock := Lock.Start(s.lock, t, key)))
  {
    IdleHasNoJob(source, s, t);
    StartMovesOnlyItself(s.lock, t, key);
    assert forall u | u in s.jobs :: IsInside(s, u);
    LockChangeKeepsParts(source, s, Lock.Start(s.lock, t, key));
  }

  lemma ArriveKeepsInv(source: Sources, s: State, t: Lock.Tid, key: Lock.Key)
    requires Inv(source, s) && Lock.CanStart(s.lock, t)
    ensures Inv(source, s.(lock := Lock.Start(s.lock, t, key)))
  {
    Lock.StartKeepsInv(s.lock, t, key);
    ArriveKeepsParts(source, s, t, key);
    assert s.(lock := Lock.Start(s.lock, t, key)).lock == Lock.Start(s.lock, t, key);
  }

  lemma LockLineKeepsParts(source: Sources, s: State, t: Lock.Tid, spare: Lock.LockId)
    requires PartInv(source, s) && Lock.CanGo(s.lock, t, spare) && t !in s.jobs
    ensures PartInv(source, s.(lock := Lock.Go(s.lock, t, spare)))
  {
    GoMovesOnlyItself(s.lock, t, spare);
    assert forall u | u in s.jobs :: IsInside(s, u);
    LockChangeKeepsParts(source, s, Lock.Go(s.lock, t, spare));
  }

  lemma LockLineKeepsInv(source: Sources, s: State, t: Lock.Tid, spare: Lock.LockId)
    requires Inv(source, s) && Lock.CanGo(s.lock, t, spare) && t !in s.jobs
    ensures Inv(source, s.(lock := Lock.Go(s.lock, t, spare)))
  {
    Lock.GoKeepsInv(s.lock, t, spare);
    LockLineKeepsParts(source, s, t, spare);
    assert s.(lock := Lock.Go(s.lock, t, spare)).lock == Lock.Go(s.lock, t, spare);
  }

  lemma NothingRunsAtStart()
    ensures Lock.Inv(Lock.INITIAL)
  {}

  /** A line of a request's handler. */
  lemma JobMoveKeepsInv(source: Sources, s: State, m: Move)
    requires PartInv(source, s) && Enabled(source, s, m) && !m.Arrive? && !m.LockLine?
    requires m.Open? || m.Write? || m.Finish? || m.Undo? || m.Commit? ==> Alone(s, m.t)
    ensures PartInv(source, Apply(source, s, m))
  {
    match m
    case Begin(t, offset, chunk) => BeginKeepsInv(source, s, t, offset, chunk);
    case Restart(t, removed) => RestartKeepsInv(source, s, t, removed);
    case Open(t, ok, spareInode) =>
      if ok { OpenKeepsInv(source, s, t, spareInode); } else { QuitKeepsInv(source, s, t); }
    case CheckSize(t) => CheckKeepsInv(source, s, t);
    case Write(t, n) => WriteKeepsInv(source, s, t, n);
    case Finish(t, ok) =>
      if ok { FinishKeepsInv(source, s, t); } else { GiveUpKeepsInv(source, s, t, |source(KeyOf(s, t))|); }
    case Undo(t, ok) =>
      if ok { UndoKeepsInv(source, s, t); } else { GiveUpKeepsInv(source, s, t, |source(KeyOf(s, t))|); }
    case Commit(t, how) => CommitKeepsInv(source, s, t, how);
    case Cleanup(_) =>
    case Crash =>
  }

  lemma MoveKeepsInv(source: Sources, s: State, m: Move)
    requires Inv(source, s) && Enabled(source, s, m)
    ensures Inv(source, Apply(source, s, m))
  {
    match m
    case Arrive(t, key) => ArriveKeepsInv(source, s, t, key);
    case LockLine(t, spare) => LockLineKeepsInv(source, s, t, spare);
    case Crash => NothingRunsAtStart(); JobMoveKeepsInv(source, s, m);
    case Open(t, _, _) => InsideIsAlone(source, s, t); OneJobKeepsInv(source, s, m);
    case Write(t, _) => InsideIsAlone(source, s, t); OneJobKeepsInv(source, s, m);
    case Finish(t, _) => InsideIsAlone(source, s, t); OneJobKeepsInv(source, s, m);
    case Undo(t, _) => InsideIsAlone(source, s, t); OneJobKeepsInv(source, s, m);
    case Commit(t, _) => InsideIsAlone(source, s, t); OneJobKeepsInv(source, s, m);
    case _ => OneJobKeepsInv(source, s, m);
  }

  lemma OneJobKeepsInv(source: Sources, s: State, m: Move)
    requires Inv(source, s) && Enabled(source, s, m) && !m.Arrive? && !m.LockLine? && !m.Crash?
    requires m.Open? || m.Write? || m.Finish? || m.Undo? || m.Commit? ==> Alone(s, m.t)
    ensures Inv(source, Apply(source, s, m))
  {
    JobMoveKeepsInv(source, s, m);
    JobMoveKeepsLock(source, s, m);
  }

  lemma JobMoveKeepsLock(source: Sources, s: State, m: Move)
    requires Enabled(source, s, m) && !m.Arrive? && !m.LockLine? && !m.Crash?
    ensures Apply(source, s, m).lock == s.lock
  {}

  // ---------------------------------------------------------------- which parts are a byte too long

  ghost predicate SpoiltAt(source: Sources, s: State, k: Lock.Key) {
    k in s.paths && s.paths[k] in s.files && Spoilt(source(k), s.files[s.paths[k]].data)
  }

  /** A request that has written behind the end of this part is still at work. */
  ghost predicate InProgress(source: Sources, s: State, k: Lock.Key) {
    exists t :: t in s.jobs && t in s.lock.threads && KeyOf(s, t) == k && IsOver(|source(k)|, s.jobs[t])
  }

  /** The part on disk is a byte too long exactly when it is on record or a request is at it. */
  ghost predicate RecordOk(source: Sources, s: State, k: Lock.Key) {
    && (k in s.uncut ==> SpoiltAt(source, s, k) && !InProgress(source, s, k))
    && (SpoiltAt(source, s, k) ==> k in s.uncut || InProgress(source, s, k))
  }

  ghost predicate RecordsOk(source: Sources, s: State) { forall k :: RecordOk(source, s, k) }

  /** Nothing has changed but for this part. */
  ghost predicate SameElsewhere(s: State, s': State, key: Lock.Key) {
    && s'.lock == s.lock
    && (forall k | k != key :: k in s'.uncut <==> k in s.uncut)
    && (forall k | k != key :: k in s'.paths <==> k in s.paths)
    && (forall k | k != key && k in s.paths :: s'.paths[k] == s.paths[k])
    && (forall i | i in s.files && s.files[i].key != key :: i in s'.files && s'.files[i] == s.files[i])
    && (forall u | u in s.lock.threads && KeyOf(s, u) != key :: u in s'.jobs <==> u in s.jobs)
    && (forall u | u in s.lock.threads && KeyOf(s, u) != key && u in s.jobs :: s'.jobs[u] == s.jobs[u])
  }

  lemma ElsewhereInProgress(source: Sources, s: State, s': State, key: Lock.Key, k: Lock.Key)
    requires SameElsewhere(s, s', key) && k != key
    ensures InProgress(source, s', k) <==> InProgress(source, s, k)
  {
    if InProgress(source, s, k) {
      var t :| t in s.jobs && t in s.lock.threads && KeyOf(s, t) == k && IsOver(|source(k)|, s.jobs[t]);
      assert KeyOf(s', t) == k && s'.jobs[t] == s.jobs[t];
    }
    if InProgress(source, s', k) {
      var t :| t in s'.jobs && t in s'.lock.threads && KeyOf(s', t) == k && IsOver(|source(k)|, s'.jobs[t]);
      assert KeyOf(s, t) == k && s'.jobs[t] == s.jobs[t];
    }
  }

  lemma ElsewhereRecorded(source: Sources, s: State, s': State, key: Lock.Key, k: Lock.Key)
    requires PartsOk(source, s) && SameElsewhere(s, s', key) && k != key && RecordOk(source, s, k)
    ensures RecordOk(source, s', k)
  {
    ElsewhereInProgress(source, s, s', key, k);
  }

  /** The only request past the lock of its part is the one that can be in progress. */
  lemma OwnInProgress(source: Sources, s: State, t: Lock.Tid)
    requires Alone(s, t)
    ensures InProgress(source, s, KeyOf(s, t)) <==> t in s.jobs && IsOver(|source(KeyOf(s, t))|, s.jobs[t])
  {}

  /** A request in progress has made its part too long. */
  lemma OverIsSpoilt(source: Sources, s: State, t: Lock.Tid)
    requires PartInv(source, s) && t in s.jobs && t in s.lock.threads && IsOver(|source(KeyOf(s, t))|, s.jobs[t])
    ensures KeyOf(s, t) in s.paths ==> SpoiltAt(source, s, KeyOf(s, t))
  {
    assert JobOk(source, s, t);
    assert PartOk(source(KeyOf(s, t)), s.files[s.jobs[t].inode].data);
  }

  predicate IsJobMove(m: Move) { !m.Arrive? && !m.LockLine? && !m.Cleanup? && !m.Crash? }

  lemma JobMoveIsElsewhereSame(source: Sources, s: State, m: Move)
    requires JobsOk(source, s) && Enabled(source, s, m) && IsJobMove(m) && Alone(s, m.t)
    ensures SameElsewhere(s, Apply(source, s, m), KeyOf(s, m.t))
  {
    match m
    case Begin(_, _, _) =>
    case Restart(t, removed) => RestartIsElsewhereSame(s, t, removed);
    case Open(t, ok, spareInode) =>
      if ok { OpenIsElsewhereSame(s, t, spareInode); } else { QuitIsElsewhereSame(s, t); }
    case CheckSize(t) => CheckIsElsewhereSame(s, t);
    case Write(t, n) => assert JobOk(source, s, t); WriteIsElsewhereSame(s, t, n);
    case Finish(t, ok) =>
      if ok { FinishIsElsewhereSame(s, t, |source(KeyOf(s, t))|); }
      else { GiveUpIsElsewhereSame(s, t, |source(KeyOf(s, t))|); }
    case Undo(t, ok) =>
      assert JobOk(source, s, t);
      if ok { UndoIsElsewhereSame(s, t); } else { GiveUpIsElsewhereSame(s, t, |source(KeyOf(s, t))|); }
    case Commit(t, how) => CommitIsElsewhereSame(s, t, how);
  }

  lemma QuitIsElsewhereSame(s: State, t: Lock.Tid)
    requires IsInside(s, t)
    ensures SameElsewhere(s, Quit(s, t), KeyOf(s, t))
  {}

  lemma GiveUpIsElsewhereSame(s: State, t: Lock.Tid, total: nat)
    requires IsInside(s, t) && t in s.jobs
    ensures SameElsewhere(s, GiveUp(s, t, total), KeyOf(s, t))
  {}

  lemma RestartIsElsewhereSame(s: State, t: Lock.Tid, removed: bool)
    requires IsInside(s, t) && t in s.jobs && s.jobs[t].Begun?
    ensures SameElsewhere(s, RestartPart(s, t, removed), KeyOf(s, t))
  {}

  lemma OpenIsElsewhereSame(s: State, t: Lock.Tid, spareInode: Inode)
    requires IsInside(s, t) && t in s.jobs && s.jobs[t].Restarted? && spareInode !in s.files
    ensures SameElsewhere(s, OpenPart(s, t, spareInode), KeyOf(s, t))
  {}

  lemma CheckIsElsewhereSame(s: State, t: Lock.Tid)
    requires IsInside(s, t) && t in s.jobs && s.jobs[t].Opened? && s.jobs[t].inode in s.files
    ensures SameElsewhere(s, CheckPart(s, t), KeyOf(s, t))
  {}

  lemma WriteIsElsewhereSame(s: State, t: Lock.Tid, n: nat)
    requires IsInside(s, t) && t in s.jobs && s.jobs[t].Copying? && s.jobs[t].inode in s.files
    requires s.jobs[t].copied + n <= |s.jobs[t].chunk| && s.files[s.jobs[t].inode].key == KeyOf(s, t)
    ensures SameElsewhere(s, WritePart(s, t, n), KeyOf(s, t))
  {}

  lemma FinishIsElsewhereSame(s: State, t: Lock.Tid, total: nat)
    requires IsInside(s, t) && t in s.jobs && s.jobs[t].Copying?
    ensures SameElsewhere(s, FinishPart(s, t, total), KeyOf(s, t))
  {}

  lemma UndoIsElsewhereSame(s: State, t: Lock.Tid)
    requires IsInside(s, t) && t in s.jobs && s.jobs[t].Exceeded? && s.jobs[t].inode in s.files
    requires s.files[s.jobs[t].inode].key == KeyOf(s, t)
    ensures SameElsewhere(s, UndoPart(s, t), KeyOf(s, t))
  {}

  lemma CommitIsElsewhereSame(s: State, t: Lock.Tid, how: CommitResult)
    requires IsInside(s, t)
    requires how != CommitFails ==> KeyOf(s, t) in s.paths && s.paths[KeyOf(s, t)] in s.files
    ensures SameElsewhere(s, CommitPart(s, t, how), KeyOf(s, t))
  {}

  /** The record of a part, when this request is the only one that can be at it. */
  ghost predicate OwnRecordOk(source: Sources, s: State, t: Lock.Tid)
    requires t in s.lock.threads
  {
    var key := KeyOf(s, t);
    var busy := t in s.jobs && IsOver(|source(key)|, s.jobs[t]);
    && (key in s.uncut ==> SpoiltAt(source, s, key) && !busy)
    && (SpoiltAt(source, s, key) ==> key in s.uncut || busy)
    && (busy && key in s.paths ==> SpoiltAt(source, s, key))
  }

  lemma OwnRecord(source: Sources, s: State, t: Lock.Tid)
    requires PartInv(source, s) && Alone(s, t)
    ensures RecordOk(source, s, KeyOf(s, t)) <==> OwnRecordOk(source, s, t)
  {
    OwnInProgress(source, s, t);
    if t in s.jobs && IsOver(|source(KeyOf(s, t))|, s.jobs[t]) {
      OverIsSpoilt(source, s, t);
    }
  }

  /** Lines that change no file object. */
  lemma QuietMoveIsRecorded(source: Sources, s: State, m: Move)
    requires Enabled(source, s, m) && (m.Begin? || m.Restart? || m.CheckSize? || (m.Open? && !m.ok))
    requires OwnRecordOk(source, s, m.t) && (m.t in s.jobs ==> JobOk(source, s, m.t))
    ensures OwnRecordOk(source, Apply(source, s, m), m.t)
  {}

  lemma OpenIsRecorded(source: Sources, s: State, t: Lock.Tid, spareInode: Inode)
    requires IsInside(s, t) && t in s.jobs && s.jobs[t].Restarted? && spareInode !in s.files
    requires OwnRecordOk(source, s, t)
    ensures OwnRecordOk(source, OpenPart(s, t, spareInode), t)
  {}

  lemma WriteIsRecorded(source: Sources, s: State, t: Lock.Tid, n: nat)
    requires IsInside(s, t) && t in s.jobs && s.jobs[t].Copying? && s.jobs[t].inode in s.files
    requires s.jobs[t].copied + n <= Taken(|source(KeyOf(s, t))|, s.jobs[t].offset, s.jobs[t].chunk)
    requires OwnRecordOk(source, s, t) && JobOk(source, s, t)
    requires JobOk(source, WritePart(s, t, n), t)
    requires PartOk(source(KeyOf(s, t)), WritePart(s, t, n).files[s.jobs[t].inode].data)
    ensures OwnRecordOk(source, WritePart(s, t, n), t)
  {}

  lemma EndIsRecorded(source: Sources, s: State, m: Move)
    requires Enabled(source, s, m) && (m.Finish? || (m.Undo? && !m.ok) || m.Commit?)
    requires m.t in s.jobs && OwnRecordOk(source, s, m.t) && JobOk(source, s, m.t)
    ensures OwnRecordOk(source, Apply(source, s, m), m.t)
  {}

  lemma UndoIsRecorded(source: Sources, s: State, t: Lock.Tid)
    requires IsInside(s, t) && t in s.jobs && s.jobs[t].Exceeded? && s.jobs[t].inode in s.files
    requires OwnRecordOk(source, s, t) && JobOk(source, s, t)
    ensures OwnRecordOk(source, UndoPart(s, t), t)
  {}

  lemma OwnMoveIsRecorded(source: Sources, s: State, m: Move)
    requires PartInv(source, s) && Enabled(source, s, m) && IsJobMove(m)
    requires PartInv(source, Apply(source, s, m)) && OwnRecordOk(source, s, m.t)
    ensures OwnRecordOk(source, Apply(source, s, m), m.t)
  {
    assert m.t in s.jobs ==> JobOk(source, s, m.t);
    match m
    case Open(t, ok, spareInode) =>
      if ok { OpenIsRecorded(source, s, t, spareInode); } else { QuietMoveIsRecorded(source, s, m); }
    case Write(t, n) =>
      assert JobOk(source, WritePart(s, t, n), t);
      WriteIsRecorded(source, s, t, n);
    case Finish(_, _) => EndIsRecorded(source, s, m);
    case Undo(t, ok) =>
      if ok { UndoIsRecorded(source, s, t); } else { EndIsRecorded(source, s, m); }
    case Commit(_, _) => EndIsRecorded(source, s, m);
    case _ => QuietMoveIsRecorded(source, s, m);
  }

  /** What a request does to its own part. */
  lemma OwnIsRecorded(source: Sources, s: State, m: Move)
    requires PartInv(source, s) && Enabled(source, s, m) && IsJobMove(m) && Alone(s, m.t)
    requires PartInv(source, Apply(source, s, m)) && Alone(Apply(source, s, m), m.t)
    requires RecordOk(source, s, KeyOf(s, m.t)) && KeyOf(Apply(source, s, m), m.t) == KeyOf(s, m.t)
    ensures RecordOk(source, Apply(source, s, m), KeyOf(s, m.t))
  {
    OwnRecord(source, s, m.t);
    OwnMoveIsRecorded(source, s, m);
    OwnRecord(source, Apply(source, s, m), m.t);
  }

  lemma StillAlone(s: State, s': State, t: Lock.Tid)
    requires Alone(s, t) && SameElsewhere(s, s', KeyOf(s, t)) && s'.jobs.Keys <= s.jobs.Keys + {t}
    ensures Alone(s', t) && KeyOf(s', t) == KeyOf(s, t)
  {}

  lemma JobsStayTheirs(source: Sources, s: State, m: Move)
    requires Enabled(source, s, m) && IsJobMove(m)
    ensures Apply(source, s, m).jobs.Keys <= s.jobs.Keys + {m.t}
  {}

  lemma JobMoveIsRecorded(source: Sources, s: State, m: Move)
    requires PartInv(source, s) && RecordsOk(source, s) && Enabled(source, s, m) && IsJobMove(m) && Alone(s, m.t)
    requires PartInv(source, Apply(source, s, m))
    ensures RecordsOk(source, Apply(source, s, m))
  {
    var s', key := Apply(source, s, m), KeyOf(s, m.t);
    JobMoveIsElsewhereSame(source, s, m);
    JobsStayTheirs(source, s, m);
    StillAlone(s, s', m.t);
    assert RecordOk(source, s, key);
    OwnIsRecorded(source, s, m);
    forall k | k != key
      ensures RecordOk(source, s', k)
    {
      assert RecordOk(source, s, k);
      ElsewhereRecorded(source, s, s', key, k);
    }
  }

  lemma LockChangeIsRecorded(source: Sources, s: State, lock: Lock.State)
    requires JobsOk(source, s) && RecordsOk(source, s)
    requires forall u | u in s.jobs :: u in lock.threads && lock.threads[u] == s.lock.threads[u]
    ensures RecordsOk(source, s.(lock := lock))
  {
    var s' := s.(lock := lock);
    forall k
      ensures RecordOk(source, s', k)
    {
      assert RecordOk(source, s, k);
      if t :| t in s.jobs && t in s.lock.threads && KeyOf(s, t) == k && IsOver(|source(k)|, s.jobs[t]) {
        assert KeyOf(s', t) == k && s'.jobs[t] == s.jobs[t];
      }
      if t :| t in s'.jobs && t in s'.lock.threads && KeyOf(s', t) == k && IsOver(|source(k)|, s'.jobs[t]) {
        assert IsInside(s, t);
        assert KeyOf(s, t) == k;
      }
    }
  }

  lemma CleanupIsRecorded(source: Sources, s: State, key: Lock.Key)
    requires PartsOk(source, s) && RecordsOk(source, s)
    ensures RecordsOk(source, s.(paths := s.paths - {key}, uncut := s.uncut - {key}))
  {
    var s' := s.(paths := s.paths - {key}, uncut := s.uncut - {key});
    forall k
      ensures RecordOk(source, s', k)
    {
      assert RecordOk(source, s, k);
      InProgressWithoutPaths(source, s, s', k);
    }
  }

  lemma InProgressWithoutPaths(source: Sources, s: State, s': State, k: Lock.Key)
    requires s'.lock == s.lock && s'.jobs == s.jobs
    ensures InProgress(source, s', k) <==> InProgress(source, s, k)
  {
    if t :| t in s.jobs && t in s.lock.threads && KeyOf(s, t) == k && IsOver(|source(k)|, s.jobs[t]) {
      assert KeyOf(s', t) == k;
    }
    if t :| t in s'.jobs && t in s'.lock.threads && KeyOf(s', t) == k && IsOver(|source(k)|, s'.jobs[t]) {
      assert KeyOf(s, t) == k;
    }
  }

  lemma CrashIsRecorded(source: Sources, s: State)
    requires PartInv(source, s) && RecordsOk(source, s)
    ensures RecordsOk(source, s.(lock := Lock.INITIAL, jobs := map[], uncut := s.uncut + OverKeys(source, s)))
  {
    var s' := s.(lock := Lock.INITIAL, jobs := map[], uncut := s.uncut + OverKeys(source, s));
    forall k
      ensures RecordOk(source, s', k)
    {
      assert RecordOk(source, s, k);
      if k in OverKeys(source, s) {
        var t :| t in s.jobs && t in s.lock.threads && IsOver(|source(KeyOf(s, t))|, s.jobs[t]) && KeyOf(s, t) == k;
        OverIsSpoilt(source, s, t);
      }
    }
  }

  lemma ArriveIsRecorded(source: Sources, s: State, t: Lock.Tid, key: Lock.Key)
    requires JobsOk(source, s) && RecordsOk(source, s) && Lock.CanStart(s.lock, t)
    ensures RecordsOk(source, s.(lock := Lock.Start(s.lock, t, key)))
  {
    IdleHasNoJob(source, s, t);
    StartMovesOnlyItself(s.lock, t, key);
    assert forall u | u in s.jobs :: IsInside(s, u);
    LockChangeIsRecorded(source, s, Lock.Start(s.lock, t, key));
  }

  lemma LockLineIsRecorded(source: Sources, s: State, t: Lock.Tid, spare: Lock.LockId)
    requires JobsOk(source, s) && RecordsOk(source, s) && Lock.CanGo(s.lock, t, spare) && t !in s.jobs
    ensures RecordsOk(source, s.(lock := Lock.Go(s.lock, t, spare)))
  {
    GoMovesOnlyItself(s.lock, t, spare);
    assert forall u | u in s.jobs :: IsInside(s, u);
    LockChangeIsRecorded(source, s, Lock.Go(s.lock, t, spare));
  }

  lemma MoveIsRecorded(source: Sources, s: State, m: Move)
    requires Inv(source, s) && RecordsOk(source, s) && Enabled(source, s, m)
    ensures RecordsOk(source, Apply(source, s, m))
  {
    if m.Arrive? {
      ArriveIsRecorded(source, s, m.t, m.key);
    } else if m.LockLine? {
      LockLineIsRecorded(source, s, m.t, m.spare);
    } else if m.Cleanup? {
      CleanupIsRecorded(source, s, m.key);
    } else if m.Crash? {
      CrashIsRecorded(source, s);
    } else {
      InsideIsAlone(source, s, m.t);
      MoveKeepsInv(source, s, m);
      JobMoveIsRecorded(source, s, m);
    }
  }

  // ---------------------------------------------------------------- every run

  const INITIAL := State(Lock.INITIAL, map[], map[], map[], {}, {})

  ghost predicate IsRun(source: Sources, run: seq<State>) {
    && run != [] && run[0] == INITIAL
    && forall i | 0 <= i < |run| - 1 :: Next(source, run[i], run[i + 1])
  }

  ghost predicate Next(source: Sources, s: State, s': State) {
    exists m :: Enabled(source, s, m) && s' == Apply(source, s, m)
  }

  lemma NextKeepsInv(source: Sources, s: State, s': State)
    requires Inv(source, s) && RecordsOk(source, s) && Next(source, s, s')
    ensures Inv(source, s') && RecordsOk(source, s')
  {
    var m :| Enabled(source, s, m) && s' == Apply(source, s, m);
    MoveKeepsInv(source, s, m);
    MoveIsRecorded(source, s, m);
  }

  lemma StartsInv(source: Sources)
    ensures Inv(source, INITIAL) && RecordsOk(source, INITIAL)
  {}

  lemma {:induction false} RunsKeepInv(source: Sources, run: seq<State>)
    requires IsRun(source, run)
    ensures Inv(source, run[|run| - 1]) && RecordsOk(source, run[|run| - 1])
    decreases |run|
  {
    if |run| > 1 {
      var n := |run| - 2;
      RunsKeepInv(source, run[..n + 1]);
      NextKeepsInv(source, run[n], run[n + 1]);
    } else {
      StartsInv(source);
    }
  }

  /** When all chunk requests of a part send what one file holds at their offsets, then under any order,
      retries, duplicates, restarts, chunks that run past the end, failed copies, failed truncations, cleanups
      and crashes, by any number of requests at once, every committed file is that file, and every part on disk
      is a prefix of it: except that it is one byte longer exactly while a request is at it that has just
      written this byte, or after such a request ended without cutting it off, until the part is restarted or
      cleaned up. */
  lemma PartsArePrefixesAndCommitsWhole(source: Sources, run: seq<State>)
    requires IsRun(source, run)
    ensures var s := run[|run| - 1];
            && (forall k | k in s.paths :: s.paths[k] in s.files
                  && if k in s.uncut || InProgress(source, s, k) then Spoilt(source(k), s.files[s.paths[k]].data)
                     else s.files[s.paths[k]].data <= source(k))
            && (forall c | c in s.committed :: c.1 == source(c.0))
  {
    RunsKeepInv(source, run);
    var s := run[|run| - 1];
    forall k | k in s.paths
      ensures if k in s.uncut || InProgress(source, s, k) then Spoilt(source(k), s.files[s.paths[k]].data)
              else s.files[s.paths[k]].data <= source(k)
    {
      assert s.files[s.paths[k]].key == k && RecordOk(source, s, k);
      if t :| t in s.jobs && t in s.lock.threads && KeyOf(s, t) == k && IsOver(|source(k)|, s.jobs[t]) {
        OverIsSpoilt(source, s, t);
      }
    }
  }

  /** A part with one byte too many accepts no request until it is restarted or cleaned up. */
  lemma SpoiltPartRefuses(source: Sources, s: State, t: Lock.Tid)
    requires Inv(source, s) && IsInside(s, t) && t in s.jobs && s.jobs[t].Opened? && s.jobs[t].inode in s.files
    requires Spoilt(source(KeyOf(s, t)), s.files[s.jobs[t].inode].data)
    ensures CheckPart(s, t) == Quit(s, t)
  {
    assert JobOk(source, s, t);
  }
}
