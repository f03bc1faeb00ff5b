/** What chunked uploads achieve, on the machine of ChunkUpload.dfy: chunks build on one another, any split of a
    file into chunks can be committed, and what a chunk past the end can leave behind. */
module ChunkProgress {
  import opened Bytes
  import opened ChunkUpload
  import Lock = UploadLock

  // ---------------------------------------------------------------- uploads can finish

  /** Moves that can be made one after the other lead from s to u. */
  ghost predicate Leads(source: Sources, s: State, moves: seq<Move>, u: State)
    decreases |moves|
  {
    if moves == [] then s == u
    else Enabled(source, s, moves[0]) && Leads(source, Apply(source, s, moves[0]), moves[1..], u)
  }

  lemma LeadsOn(source: Sources, s: State, m: Move, moves: seq<Move>, u: State)
    requires Enabled(source, s, m) && Leads(source, Apply(source, s, m), moves, u)
    ensures Leads(source, s, [m] + moves, u)
  {
    assert ([m] + moves)[1..] == moves;
  }

  /** The state in which a request that sends this chunk from offset 0 has an empty part open. */
  ghost predicate HasEmptyPart(s: State, t: Lock.Tid, chunk: Data, inode: Inode) {
    && IsInside(s, t) && t in s.jobs && s.jobs[t] == Opened(0, chunk, inode)
    && inode in s.files && s.files[inode].data == []
    && KeyOf(s, t) in s.paths && s.paths[KeyOf(s, t)] == inode
  }

  lemma RestartEmptiesPart(source: Sources, s: State, t: Lock.Tid, chunk: Data, spare: Inode)
    returns (moves: seq<Move>, u: State)
    requires IsInside(s, t) && t !in s.jobs && spare !in s.files && Agrees(source(KeyOf(s, t)), 0, chunk)
    ensures Leads(source, s, moves, u) && HasEmptyPart(u, t, chunk, spare) && u.lock == s.lock
  {
    var a, b, c := Begin(t, 0, chunk), Restart(t, true), Open(t, true, spare);
    var s1 := Apply(source, s, a);
    var s2 := Apply(source, s1, b);
    u := Apply(source, s2, c);
    assert Leads(source, u, [], u);
    LeadsOn(source, s2, c, [], u);
    LeadsOn(source, s1, b, [c] + [], u);
    LeadsOn(source, s, a, [b] + ([c] + []), u);
    moves := [a] + ([b] + ([c] + []));
  }

  /** The state in which that request has written everything. */
  ghost predicate HasWholePart(source: Sources, s: State, t: Lock.Tid, inode: Inode) {
    && IsInside(s, t) && t in s.jobs
    && s.jobs[t] == Copying(0, source(KeyOf(s, t)), inode, |source(KeyOf(s, t))|)
    && inode in s.files && s.files[inode].data == source(KeyOf(s, t))
    && KeyOf(s, t) in s.paths && s.paths[KeyOf(s, t)] == inode
  }

  lemma EmptyPartFills(source: Sources, s: State, t: Lock.Tid, inode: Inode) returns (moves: seq<Move>, u: State)
    requires IsInside(s, t) && HasEmptyPart(s, t, source(KeyOf(s, t)), inode)
    ensures Leads(source, s, moves, u) && HasWholePart(source, u, t, inode) && u.lock == s.lock
  {
    var whole := source(KeyOf(s, t));
    var a, b := CheckSize(t), Write(t, |whole|);
    var s1 := Apply(source, s, a);
    u := Apply(source, s1, b);
    assert [] + whole[0..|whole|] == whole;
    assert Leads(source, u, [], u);
    LeadsOn(source, s1, b, [], u);
    LeadsOn(source, s, a, [b] + [], u);
    moves := [a] + ([b] + []);
  }

  lemma WholePartCommits(source: Sources, s: State, t: Lock.Tid, inode: Inode) returns (moves: seq<Move>, u: State)
    requires HasWholePart(source, s, t, inode)
    ensures Leads(source, s, moves, u) && (KeyOf(s, t), source(KeyOf(s, t))) in u.committed
  {
    var a, b := Finish(t, true), Commit(t, CommitMoves);
    var s1 := Apply(source, s, a);
    u := Apply(source, s1, b);
    assert Leads(source, u, [], u);
    LeadsOn(source, s1, b, [], u);
    LeadsOn(source, s, a, [b] + [], u);
    moves := [a] + ([b] + []);
  }

  /** The state in which a request has its part open, at the size it expects, for a chunk past the end. */
  ghost predicate HasLongChunk(source: Sources, s: State, t: Lock.Tid) {
    && IsInside(s, t) && t in s.jobs && s.jobs[t].Opened? && s.jobs[t].inode in s.files
    && |s.files[s.jobs[t].inode].data| == s.jobs[t].offset <= |source(KeyOf(s, t))|
    && s.jobs[t].offset + |s.jobs[t].chunk| > |source(KeyOf(s, t))|
    && |source(KeyOf(s, t))| - s.jobs[t].offset < MAX_INT64 as int
  }

  /** From s to u the request has written behind the old end of its part and seen that this is too much. */
  ghost predicate Noticed(s: State, u: State, t: Lock.Tid)
    requires t in s.jobs && s.jobs[t].Opened? && s.jobs[t].inode in s.files
  {
    var inode := s.jobs[t].inode;
    && u == s.(jobs := s.jobs[t := Exceeded(s.jobs[t].offset, inode)], files := u.files)
    && inode in u.files && u.files == s.files[inode := u.files[inode]]
    && u.files[inode].key == s.files[inode].key && s.files[inode].data <= u.files[inode].data
  }

  /** What is read of such a chunk. */
  function LongTaken(source: Sources, s: State, t: Lock.Tid): (n: nat)
    requires t in s.lock.threads && t in s.jobs && s.jobs[t].Opened?
    ensures n <= |s.jobs[t].chunk|
  {
    Taken(|source(KeyOf(s, t))|, s.jobs[t].offset, s.jobs[t].chunk)
  }

  lemma LongChunkGoesOver(source: Sources, s: State, t: Lock.Tid)
    requires HasLongChunk(source, s, t)
    ensures var s2 := WritePart(CheckPart(s, t), t, LongTaken(source, s, t));
            s2.jobs[t].Copying? && Noticed(s, FinishPart(s2, t, |source(KeyOf(s, t))|), t)
  {
    var job := s.jobs[t];
    OverwrittenAtEnd(s.files[job.inode].data, job.chunk[0..LongTaken(source, s, t)]);
  }

  lemma LongChunkIsNoticed(source: Sources, s: State, t: Lock.Tid) returns (moves: seq<Move>, u: State)
    requires HasLongChunk(source, s, t)
    ensures Leads(source, s, moves, u) && Noticed(s, u, t)
  {
    var a, b, c := CheckSize(t), Write(t, LongTaken(source, s, t)), Finish(t, true);
    var s1 := Apply(source, s, a);
    var s2 := Apply(source, s1, b);
    u := Apply(source, s2, c);
    LongChunkGoesOver(source, s, t);
    assert Leads(source, u, [], u);
    LeadsOn(source, s2, c, [], u);
    LeadsOn(source, s1, b, [c] + [], u);
    LeadsOn(source, s, a, [b] + ([c] + []), u);
    moves := [a] + ([b] + ([c] + []));
  }

  lemma UndoneIsQuit(s: State, mid: State, t: Lock.Tid)
    requires t in s.jobs && s.jobs[t].Opened? && s.jobs[t].inode in s.files && Noticed(s, mid, t)
    requires |s.files[s.jobs[t].inode].data| == s.jobs[t].offset
    ensures UndoPart(mid, t) == Quit(s, t)
  {
    var inode := s.jobs[t].inode;
    assert Resized(mid.files[inode].data, s.jobs[t].offset) == s.files[inode].data;
    assert mid.files[inode := s.files[inode]] == s.files;
    assert mid.jobs - {t} == s.jobs - {t};
  }

  /** A chunk past the end, when no call fails, leaves every part as it was. */
  lemma LongChunkIsUndone(source: Sources, s: State, t: Lock.Tid) returns (moves: seq<Move>, u: State)
    requires HasLongChunk(source, s, t)
    ensures Leads(source, s, moves, u) && u == Quit(s, t)
  {
    var first, mid := LongChunkIsNoticed(source, s, t);
    u := Apply(source, mid, Undo(t, true));
    UndoneIsQuit(s, mid, t);
    assert Leads(source, u, [], u);
    LeadsOn(source, mid, Undo(t, true), [], u);
    LeadsJoin(source, s, first, mid, [Undo(t, true)] + [], u);
    moves := first + ([Undo(t, true)] + []);
  }

  /** Such a chunk, when the truncation fails, leaves the part a byte too long. */
  lemma LongChunkIsLeft(source: Sources, s: State, t: Lock.Tid) returns (moves: seq<Move>, u: State)
    requires HasLongChunk(source, s, t) && KeyOf(s, t) in s.paths
    ensures Leads(source, s, moves, u) && KeyOf(s, t) in u.uncut
  {
    var first, mid := LongChunkIsNoticed(source, s, t);
    u := Apply(source, mid, Undo(t, false));
    assert Leads(source, u, [], u);
    LeadsOn(source, mid, Undo(t, false), [], u);
    LeadsJoin(source, s, first, mid, [Undo(t, false)] + [], u);
    moves := first + ([Undo(t, false)] + []);
  }

  /** A request that sends one byte more than the whole file can do that. */
  lemma InsideCanSpoil(source: Sources, s: State, t: Lock.Tid, spare: Inode) returns (moves: seq<Move>, u: State)
    requires IsInside(s, t) && t !in s.jobs && spare !in s.files && |source(KeyOf(s, t))| < MAX_INT64 as int
    ensures Leads(source, s, moves, u) && KeyOf(s, t) in u.uncut
  {
    var chunk := source(KeyOf(s, t)) + [0];
    assert source(KeyOf(s, t))[0..] <= chunk;
    var first, open := RestartEmptiesPart(source, s, t, chunk, spare);
    var second;
    second, u := LongChunkIsLeft(source, open, t);
    LeadsJoin(source, s, first, open, second, u);
    moves := first + second;
  }

  lemma {:induction false} LeadsKeepInv(source: Sources, s: State, moves: seq<Move>, u: State)
    requires Inv(source, s) && RecordsOk(source, s) && Leads(source, s, moves, u)
    ensures Inv(source, u) && RecordsOk(source, u)
    decreases |moves|
  {
    if moves != [] {
      MoveKeepsInv(source, s, moves[0]);
      MoveIsRecorded(source, s, moves[0]);
      LeadsKeepInv(source, Apply(source, s, moves[0]), moves[1..], u);
    }
  }

  /** From the start, and for every file: its part can come to be one byte too long and be left so. */
  lemma PartCanStaySpoilt(source: Sources, key: Lock.Key) returns (moves: seq<Move>, u: State)
    requires |source(key)| < MAX_INT64 as int
    ensures Leads(source, INITIAL, moves, u) && SpoiltAt(source, u, key) && !InProgress(source, u, key)
  {
    var first, mid := GetsIn(source, INITIAL, 0, key, 0);
    var second;
    second, u := InsideCanSpoil(source, mid, 0, 0);
    LeadsJoin(source, INITIAL, first, mid, second, u);
    moves := first + second;
    StartsInv(source);
    LeadsKeepInv(source, INITIAL, moves, u);
    assert RecordOk(source, u, key);
  }

  lemma {:induction false} LeadsJoin(source: Sources, s: State, first: seq<Move>, mid: State,
                                     second: seq<Move>, u: State)
    requires Leads(source, s, first, mid) && Leads(source, mid, second, u)
    ensures Leads(source, s, first + second, u)
    decreases |first|
  {
    if first == [] {
      assert first + second == second;
    } else {
      LeadsJoin(source, Apply(source, s, first[0]), first[1..], mid, second, u);
      assert (first + second)[1..] == first[1..] + second;
    }
  }

  /** A request that has its part's lock can always upload: whatever earlier attempts left behind, one that
      sends the whole file from offset 0 can commit it. */
  lemma WholeUploadCanCommit(source: Sources, s: State, t: Lock.Tid, spare: Inode) returns (moves: seq<Move>, u: State)
    requires IsInside(s, t) && t !in s.jobs && spare !in s.files
    ensures Leads(source, s, moves, u) && (KeyOf(s, t), source(KeyOf(s, t))) in u.committed
  {
    var whole := source(KeyOf(s, t));
    assert whole[0..] == whole;
    var first, empty := RestartEmptiesPart(source, s, t, whole, spare);
    var second, filled := EmptyPartFills(source, empty, t, spare);
    var third;
    third, u := WholePartCommits(source, filled, t, spare);
    LeadsJoin(source, empty, second, filled, third, u);
    LeadsJoin(source, s, first, empty, second + third, u);
    moves := first + (second + third);
  }

  // ---------------------------------------------------------------- chunks build on one another

  /** The request is working on a chunk for this offset. */
  predicate HasOffset(job: Job) { !job.Complete? }

  /** What was in the file up to the offset is there still. */
  ghost predicate KeptBelow(before: Data, after: Data, offset: nat) {
    var n := if offset <= |before| then offset else |before|;
    n <= |after| && after[..n] == before[..n]
  }

  /** With a positive offset, no line of a request before its commit takes the part off the disk or changes a
      byte below the offset in any file, whatever removing would do. */
  lemma LaterChunkKeepsPart(source: Sources, s: State, m: Move)
    requires PartInv(source, s) && Enabled(source, s, m) && IsJobMove(m) && !m.Begin? && !m.Commit?
    requires m.t in s.jobs && HasOffset(s.jobs[m.t]) && s.jobs[m.t].offset > 0
    ensures forall k | k in s.paths :: k in Apply(source, s, m).paths && Apply(source, s, m).paths[k] == s.paths[k]
    ensures forall i | i in s.files ::
              && i in Apply(source, s, m).files
              && KeptBelow(s.files[i].data, Apply(source, s, m).files[i].data, s.jobs[m.t].offset)
  {
    assert JobOk(source, s, m.t);
    if m.Write? {
      WriteKeepsBelow(source, s, m.t, m.n);
    } else if m.Undo? && m.ok {
      UndoKeepsBelow(source, s, m.t);
    }
  }

  lemma WriteKeepsBelow(source: Sources, s: State, t: Lock.Tid, n: nat)
    requires IsInside(s, t) && t in s.jobs && s.jobs[t].Copying? && JobOk(source, s, t)
    requires s.jobs[t].copied + n <= |s.jobs[t].chunk|
    ensures forall i | i in s.files ::
              && i in WritePart(s, t, n).files
              && KeptBelow(s.files[i].data, WritePart(s, t, n).files[i].data, s.jobs[t].offset)
  {
    var job := s.jobs[t];
    OverwrittenAtEnd(s.files[job.inode].data, job.chunk[job.copied..job.copied + n]);
  }

  lemma UndoKeepsBelow(source: Sources, s: State, t: Lock.Tid)
    requires IsInside(s, t) && t in s.jobs && s.jobs[t].Exceeded? && JobOk(source, s, t)
    ensures forall i | i in s.files ::
              i in UndoPart(s, t).files && KeptBelow(s.files[i].data, UndoPart(s, t).files[i].data, s.jobs[t].offset)
  {}

  /** Over every run: before its commit, a request with a positive offset takes no part away and changes no byte
      below its offset, whatever becomes of its calls. */
  lemma LaterChunksKeepParts(source: Sources, run: seq<State>, m: Move)
    requires IsRun(source, run) && Enabled(source, run[|run| - 1], m) && IsJobMove(m) && !m.Begin? && !m.Commit?
    requires var s := run[|run| - 1]; m.t in s.jobs && HasOffset(s.jobs[m.t]) && s.jobs[m.t].offset > 0
    ensures var s, s' := run[|run| - 1], Apply(source, run[|run| - 1], m);
            && (forall k | k in s.paths :: k in s'.paths && s'.paths[k] == s.paths[k])
            && (forall i | i in s.files ::
                  i in s'.files && KeptBelow(s.files[i].data, s'.files[i].data, s.jobs[m.t].offset))
  {
    RunsKeepInv(source, run);
    LaterChunkKeepsPart(source, run[|run| - 1], m);
  }

  /** The part on disk holds the first k bytes of its source. */
  ghost predicate HasPart(source: Sources, s: State, key: Lock.Key, k: nat) {
    && k <= |source(key)| && key in s.paths && s.paths[key] in s.files
    && s.files[s.paths[key]].data == source(key)[..k]
  }

  /** What a chunk for offset k needs: the part has that length; a chunk for offset 0 starts a new part. */
  ghost predicate ReadyFor(source: Sources, s: State, key: Lock.Key, k: nat, removed: bool) {
    if k == 0 then key !in s.paths || removed else HasPart(source, s, key, k)
  }

  /** The request has the part open, at the size it expects. */
  ghost predicate HasOpened(source: Sources, s: State, t: Lock.Tid, k: nat, chunk: Data) {
    && IsInside(s, t) && t in s.jobs && s.jobs[t].Opened? && s.jobs[t].offset == k && s.jobs[t].chunk == chunk
    && HasPart(source, s, KeyOf(s, t), k) && s.paths[KeyOf(s, t)] == s.jobs[t].inode
  }

  lemma ChunkIsOpened(source: Sources, s: State, t: Lock.Tid, k: nat, chunk: Data, removed: bool, spare: Inode)
    returns (moves: seq<Move>, u: State)
    requires IsInside(s, t) && t !in s.jobs && spare !in s.files
    requires Agrees(source(KeyOf(s, t)), k, chunk) && ReadyFor(source, s, KeyOf(s, t), k, removed)
    ensures Leads(source, s, moves, u) && HasOpened(source, u, t, k, chunk)
    ensures u.lock == s.lock && u.jobs == s.jobs[t := u.jobs[t]]
  {
    var a, b, c := Begin(t, k, chunk), Restart(t, removed), Open(t, true, spare);
    var s1 := Apply(source, s, a);
    var s2 := Apply(source, s1, b);
    u := Apply(source, s2, c);
    assert Leads(source, u, [], u);
    LeadsOn(source, s2, c, [], u);
    LeadsOn(source, s1, b, [c] + [], u);
    LeadsOn(source, s, a, [b] + ([c] + []), u);
    moves := [a] + ([b] + ([c] + []));
  }

  lemma SliceIsTaken(source: Data, k: nat, chunk: Data)
    requires IsSlice(source, k, chunk)
    ensures Agrees(source, k, chunk) && Taken(|source|, k, chunk) == |chunk|
    ensures source[..k] + chunk == source[..k + |chunk|]
  {
    assert chunk == source[k..][..|chunk|];
    assert source[..k + |chunk|] == source[..k] + source[k..k + |chunk|];
  }

  /** The request has written its whole chunk. */
  ghost predicate HasWritten(source: Sources, s: State, t: Lock.Tid, k: nat, chunk: Data) {
    && IsInside(s, t) && t in s.jobs && s.jobs[t].Copying? && s.jobs[t].offset == k && s.jobs[t].chunk == chunk
    && s.jobs[t].copied == |chunk| && s.paths == s.paths[KeyOf(s, t) := s.jobs[t].inode]
    && HasPart(source, s, KeyOf(s, t), k + |chunk|)
  }

  lemma ChunkIsWritten(source: Sources, s: State, t: Lock.Tid, k: nat, chunk: Data)
    returns (moves: seq<Move>, u: State)
    requires HasOpened(source, s, t, k, chunk) && IsSlice(source(KeyOf(s, t)), k, chunk)
    ensures Leads(source, s, moves, u) && HasWritten(source, u, t, k, chunk)
    ensures u.lock == s.lock && u.jobs == s.jobs[t := u.jobs[t]]
  {
    SliceIsTaken(source(KeyOf(s, t)), k, chunk);
    var a, b := CheckSize(t), Write(t, |chunk|);
    var s1 := Apply(source, s, a);
    u := Apply(source, s1, b);
    assert chunk[0..|chunk|] == chunk;
    OverwrittenAtEnd(s.files[s.jobs[t].inode].data, chunk);
    assert Leads(source, u, [], u);
    LeadsOn(source, s1, b, [], u);
    LeadsOn(source, s, a, [b] + [], u);
    moves := [a] + ([b] + []);
  }

  /** A chunk that fits and is not the last one leaves the part longer by the chunk. */
  lemma ChunkIsFinished(source: Sources, s: State, t: Lock.Tid, k: nat, chunk: Data)
    returns (moves: seq<Move>, u: State)
    requires HasWritten(source, s, t, k, chunk) && IsSlice(source(KeyOf(s, t)), k, chunk)
    requires k + |chunk| < |source(KeyOf(s, t))|
    ensures Leads(source, s, moves, u) && u == Quit(s, t)
  {
    SliceIsTaken(source(KeyOf(s, t)), k, chunk);
    var a := Finish(t, true);
    u := Apply(source, s, a);
    assert Leads(source, u, [], u);
    LeadsOn(source, s, a, [], u);
    moves := [a] + [];
  }

  /** The last one is committed. */
  lemma LastChunkIsCommitted(source: Sources, s: State, t: Lock.Tid, k: nat, chunk: Data)
    returns (moves: seq<Move>, u: State)
    requires HasWritten(source, s, t, k, chunk) && IsSlice(source(KeyOf(s, t)), k, chunk)
    requires k + |chunk| == |source(KeyOf(s, t))|
    ensures Leads(source, s, moves, u) && (KeyOf(s, t), source(KeyOf(s, t))) in u.committed
  {
    var whole := source(KeyOf(s, t));
    SliceIsTaken(whole, k, chunk);
    assert whole[..|whole|] == whole;
    var a, b := Finish(t, true), Commit(t, CommitMoves);
    var s1 := Apply(source, s, a);
    u := Apply(source, s1, b);
    assert Leads(source, u, [], u);
    LeadsOn(source, s1, b, [], u);
    LeadsOn(source, s, a, [b] + [], u);
    moves := [a] + ([b] + []);
  }

  /** A request for the slice at k, on a part that holds the first k bytes, when no call after the conditional
      remove fails: whatever becomes of that remove, the part then holds the first k + |chunk| bytes, or is
      committed. */
  lemma ChunkIsStored(source: Sources, s: State, t: Lock.Tid, k: nat, chunk: Data, removed: bool, spare: Inode)
    returns (moves: seq<Move>, u: State)
    requires IsInside(s, t) && t !in s.jobs && spare !in s.files
    requires IsSlice(source(KeyOf(s, t)), k, chunk) && ReadyFor(source, s, KeyOf(s, t), k, removed)
    ensures Leads(source, s, moves, u)
    ensures k + |chunk| < |source(KeyOf(s, t))| ==>
              u.lock == s.lock && u.jobs == s.jobs && HasPart(source, u, KeyOf(s, t), k + |chunk|)
    ensures k + |chunk| == |source(KeyOf(s, t))| ==> (KeyOf(s, t), source(KeyOf(s, t))) in u.committed
  {
    SliceIsTaken(source(KeyOf(s, t)), k, chunk);
    var first, open := ChunkIsOpened(source, s, t, k, chunk, removed, spare);
    var second, written := ChunkIsWritten(source, open, t, k, chunk);
    var third;
    if k + |chunk| < |source(KeyOf(s, t))| {
      third, u := ChunkIsFinished(source, written, t, k, chunk);
      assert u.jobs == s.jobs;
    } else {
      third, u := LastChunkIsCommitted(source, written, t, k, chunk);
    }
    LeadsJoin(source, open, second, written, third, u);
    LeadsJoin(source, s, first, open, second + third, u);
    moves := first + (second + third);
  }

  /** A request for the slice at k has had no failure so far. */
  ghost predicate GoesWell(source: Sources, s: State, t: Lock.Tid, k: nat, chunk: Data) {
    && IsInside(s, t) && t in s.jobs && IsSlice(source(KeyOf(s, t)), k, chunk)
    && var key := KeyOf(s, t);
       match s.jobs[t]
       case Begun(offset, c) => offset == k && c == chunk && (k > 0 ==> HasPart(source, s, key, k))
       case Restarted(offset, c) =>
         offset == k && c == chunk && if k == 0 then key !in s.paths else HasPart(source, s, key, k)
       case Opened(offset, c, inode) =>
         offset == k && c == chunk && HasPart(source, s, key, k) && s.paths[key] == inode
       case Copying(offset, c, inode, copied) =>
         offset == k && c == chunk && copied <= |chunk| && HasPart(source, s, key, k + copied) && s.paths[key] == inode
       case Exceeded(_, _) => false
       case Complete(inode) =>
         k + |chunk| == |source(key)| && HasPart(source, s, key, |source(key)|) && s.paths[key] == inode
  }

  /** The line of the request did not fail; for offset 0 there was no part, or it was removed. */
  predicate IsGood(s: State, m: Move)
    requires IsJobMove(m) && IsInside(s, m.t) && m.t in s.jobs
  {
    && (m.Open? ==> m.ok) && (m.Finish? ==> m.ok)
    && (m.Restart? && s.jobs[m.t].Begun? && s.jobs[m.t].offset == 0 ==> m.removed || KeyOf(s, m.t) !in s.paths)
  }

  /** Every line that does not fail brings the request on; when it ends before a commit, its chunk is stored. */
  lemma GoodMoveGoesWell(source: Sources, s: State, m: Move, k: nat, chunk: Data)
    requires Enabled(source, s, m) && IsJobMove(m) && m.t in s.jobs && GoesWell(source, s, m.t, k, chunk)
    requires IsGood(s, m) && !m.Commit?
    ensures var s' := Apply(source, s, m);
            if m.t in s'.jobs then GoesWell(source, s', m.t, k, chunk)
            else k + |chunk| < |source(KeyOf(s, m.t))| && HasPart(source, s', KeyOf(s, m.t), k + |chunk|)
  {
    SliceIsTaken(source(KeyOf(s, m.t)), k, chunk);
    if m.Write? {
      WriteGoesWell(source, s, m.t, m.n, k, chunk);
    }
  }

  lemma WriteGoesWell(source: Sources, s: State, t: Lock.Tid, n: nat, k: nat, chunk: Data)
    requires t in s.jobs && s.jobs[t].Copying? && GoesWell(source, s, t, k, chunk)
    requires s.jobs[t].copied + n <= |chunk|
    ensures GoesWell(source, WritePart(s, t, n), t, k, chunk)
  {
    var job := s.jobs[t];
    NextIsWritten(source(KeyOf(s, t)), k, chunk, job.copied, n);
  }

  lemma NextIsWritten(source: Data, k: nat, chunk: Data, copied: nat, n: nat)
    requires IsSlice(source, k, chunk) && copied + n <= |chunk|
    ensures k + copied + n <= |source|
    ensures Overwritten(source[..k + copied], k + copied, chunk[copied..copied + n]) == source[..k + copied + n]
  {
    SliceOfSlice(source, k, chunk, copied, n);
    MoreOfSource(source, k + copied, n);
    var had, next := source[..k + copied], chunk[copied..copied + n];
    OverwrittenAtEnd(had, next);
    assert |had| == k + copied && had + next == source[..k + copied + n];
  }

  lemma MoreOfSource(source: Data, k: nat, n: nat)
    requires k + n <= |source|
    ensures source[..k] + source[k..k + n] == source[..k + n]
  {}

  /** No line of another request disturbs it. */
  lemma OthersLetItGoWell(source: Sources, s: State, m: Move, t: Lock.Tid, k: nat, chunk: Data)
    requires PartInv(source, s) && Enabled(source, s, m) && IsJobMove(m) && m.t != t && Alone(s, m.t) && Alone(s, t)
    requires GoesWell(source, s, t, k, chunk)
    ensures GoesWell(source, Apply(source, s, m), t, k, chunk)
  {
    JobMoveIsElsewhereSame(source, s, m);
    assert KeyOf(s, t) != KeyOf(s, m.t);
  }

  // ---------------------------------------------------------------- a file in any number of chunks

  /** Nobody is in lockUpload or holds a lock, and no request is at work. */
  ghost predicate Quiet(s: State) {
    && s.lock.tableMu.None? && s.lock.table == map[] && s.jobs == map[]
    && forall t | t in s.lock.threads :: s.lock.threads[t].phase == Lock.Idle
  }

  /** The thread is inside with a lock object that nobody else knows. */
  ghost predicate OnlyOneIn(s: State, t: Lock.Tid, key: Lock.Key) {
    && IsInside(s, t) && KeyOf(s, t) == key && s.lock.tableMu.None?
    && s.lock.threads[t].lock in s.lock.locks && s.lock.locks[s.lock.threads[t].lock].refs == 1
    && s.lock.table == map[key := s.lock.threads[t].lock]
    && forall u | u in s.lock.threads && u != t :: s.lock.threads[u].phase == Lock.Idle
  }

  /** It has the table locked and its new lock object in it. */
  ghost predicate OnlyOneEntering(s: State, t: Lock.Tid, key: Lock.Key, lock: Lock.LockId) {
    && t in s.lock.threads && s.lock.threads[t] == Lock.Thread(Lock.Found, key, lock)
    && lock in s.lock.locks && s.lock.locks[lock].refs == 0 && s.lock.locks[lock].holder.None?
    && s.lock.table == map[key := lock]
    && forall u | u in s.lock.threads && u != t :: s.lock.threads[u].phase == Lock.Idle
  }

  lemma Enters(source: Sources, s: State, t: Lock.Tid, key: Lock.Key, spare: Lock.LockId)
    returns (moves: seq<Move>, u: State)
    requires Quiet(s) && spare !in s.lock.locks
    ensures Leads(source, s, moves, u) && OnlyOneEntering(u, t, key, spare) && u == s.(lock := u.lock)
  {
    var a, b := Arrive(t, key), LockLine(t, spare);
    var s1 := Apply(source, s, a);
    var s2 := Apply(source, s1, b);
    u := Apply(source, s2, b);
    assert Leads(source, u, [], u);
    LeadsOn(source, s2, b, [], u);
    LeadsOn(source, s1, b, [b] + [], u);
    LeadsOn(source, s, a, [b] + ([b] + []), u);
    moves := [a] + ([b] + ([b] + []));
  }

  lemma Acquires(source: Sources, s: State, t: Lock.Tid, key: Lock.Key, lock: Lock.LockId)
    returns (moves: seq<Move>, u: State)
    requires OnlyOneEntering(s, t, key, lock) && s.jobs == map[]
    ensures Leads(source, s, moves, u) && OnlyOneIn(u, t, key) && u == s.(lock := u.lock)
  {
    var b := LockLine(t, 0);
    var s1 := Apply(source, s, b);
    var s2 := Apply(source, s1, b);
    u := Apply(source, s2, b);
    assert Leads(source, u, [], u);
    LeadsOn(source, s2, b, [], u);
    LeadsOn(source, s1, b, [b] + [], u);
    LeadsOn(source, s, b, [b] + ([b] + []), u);
    moves := [b] + ([b] + ([b] + []));
  }

  lemma GetsIn(source: Sources, s: State, t: Lock.Tid, key: Lock.Key, spare: Lock.LockId)
    returns (moves: seq<Move>, u: State)
    requires Quiet(s) && spare !in s.lock.locks
    ensures Leads(source, s, moves, u) && OnlyOneIn(u, t, key) && u == s.(lock := u.lock)
  {
    var first, mid := Enters(source, s, t, key, spare);
    var second;
    second, u := Acquires(source, mid, t, key, spare);
    LeadsJoin(source, s, first, mid, second, u);
    moves := first + second;
  }

  /** It has released the lock and locked the table again. */
  ghost predicate OnlyOneLeaving(s: State, t: Lock.Tid, key: Lock.Key) {
    && t in s.lock.threads && s.lock.threads[t].phase == Lock.Uncounting && s.lock.threads[t].key == key
    && s.lock.threads[t].lock in s.lock.locks && s.lock.locks[s.lock.threads[t].lock].refs == 1
    && s.lock.table == map[key := s.lock.threads[t].lock]
    && forall u | u in s.lock.threads && u != t :: s.lock.threads[u].phase == Lock.Idle
  }

  lemma Releases(source: Sources, s: State, t: Lock.Tid, key: Lock.Key) returns (moves: seq<Move>, u: State)
    requires OnlyOneIn(s, t, key) && s.jobs == map[]
    ensures Leads(source, s, moves, u) && OnlyOneLeaving(u, t, key) && u == s.(lock := u.lock)
  {
    var b := LockLine(t, 0);
    var s1 := Apply(source, s, b);
    u := Apply(source, s1, b);
    assert Leads(source, u, [], u);
    LeadsOn(source, s1, b, [], u);
    LeadsOn(source, s, b, [b] + [], u);
    moves := [b] + ([b] + []);
  }

  lemma Leaves(source: Sources, s: State, t: Lock.Tid, key: Lock.Key) returns (moves: seq<Move>, u: State)
    requires OnlyOneLeaving(s, t, key) && s.jobs == map[]
    ensures Leads(source, s, moves, u) && Quiet(u) && u == s.(lock := u.lock)
  {
    var b := LockLine(t, 0);
    var s1 := Apply(source, s, b);
    var s2 := Apply(source, s1, b);
    u := Apply(source, s2, b);
    assert u.lock.table == map[];
    assert Leads(source, u, [], u);
    LeadsOn(source, s2, b, [], u);
    LeadsOn(source, s1, b, [b] + [], u);
    LeadsOn(source, s, b, [b] + ([b] + []), u);
    moves := [b] + ([b] + ([b] + []));
  }

  lemma GetsOut(source: Sources, s: State, t: Lock.Tid, key: Lock.Key) returns (moves: seq<Move>, u: State)
    requires OnlyOneIn(s, t, key) && s.jobs == map[]
    ensures Leads(source, s, moves, u) && Quiet(u) && u == s.(lock := u.lock)
  {
    var first, mid := Releases(source, s, t, key);
    var second;
    second, u := Leaves(source, mid, t, key);
    LeadsJoin(source, s, first, mid, second, u);
    moves := first + second;
  }

  lemma {:induction false} UnusedNumber(used: set<nat>) returns (n: nat)
    ensures forall m | m in used :: m < n
    decreases used
  {
    n := 0;
    if used != {} {
      var one :| one in used;
      n := UnusedNumber(used - {one});
      assert forall m | m in used :: m == one || m in used - {one};
      if n <= one {
        n := one + 1;
      }
    }
  }

  /** One request from lock to release. */
  lemma RequestStoresChunk(source: Sources, s: State, t: Lock.Tid, key: Lock.Key, k: nat, chunk: Data, removed: bool)
    returns (moves: seq<Move>, u: State)
    requires Quiet(s) && IsSlice(source(key), k, chunk) && ReadyFor(source, s, key, k, removed)
    ensures Leads(source, s, moves, u)
    ensures k + |chunk| < |source(key)| ==> Quiet(u) && HasPart(source, u, key, k + |chunk|)
    ensures k + |chunk| == |source(key)| ==> (key, source(key)) in u.committed
  {
    var spare := UnusedNumber(s.lock.locks.Keys);
    var inode := UnusedNumber(s.files.Keys);
    var first, inside := GetsIn(source, s, t, key, spare);
    var second, stored := ChunkIsStored(source, inside, t, k, chunk, removed, inode);
    if k + |chunk| < |source(key)| {
      var third;
      third, u := GetsOut(source, stored, t, key);
      LeadsJoin(source, inside, second, stored, third, u);
      LeadsJoin(source, s, first, inside, second + third, u);
      moves := first + (second + third);
    } else {
      u := stored;
      LeadsJoin(source, s, first, inside, second, u);
      moves := first + second;
    }
  }

  function Joined(chunks: seq<Data>): Data {
    if chunks == [] then [] else Joined(chunks[..|chunks| - 1]) + chunks[|chunks| - 1]
  }

  lemma {:induction false} JoinedPrefix(chunks: seq<Data>, n: nat)
    requires n < |chunks|
    ensures |Joined(chunks[..n])| + |chunks[n]| <= |Joined(chunks)|
    ensures Joined(chunks)[|Joined(chunks[..n])|..|Joined(chunks[..n])| + |chunks[n]|] == chunks[n]
    decreases |chunks|
  {
    var m := |chunks| - 1;
    if n < m {
      JoinedPrefix(chunks[..m], n);
      assert chunks[..m][..n] == chunks[..n] && chunks[..m][n] == chunks[n];
      var a, k := Joined(chunks[..m]), |Joined(chunks[..n])|;
      assert Joined(chunks)[k..k + |chunks[n]|] == a[k..k + |chunks[n]|];
    }
  }

  lemma JoinedNext(chunks: seq<Data>, n: nat)
    requires n < |chunks|
    ensures Joined(chunks[..n + 1]) == Joined(chunks[..n]) + chunks[n]
  {
    assert chunks[..n + 1][..n] == chunks[..n];
  }

  /** The chunks of a file; only a chunk that is the whole file can be empty. */
  predicate AreChunks(source: Data, chunks: seq<Data>) {
    Joined(chunks) == source && chunks != [] && (|chunks| == 1 || forall i | 0 <= i < |chunks| :: chunks[i] != [])
  }

  lemma ChunkIsSlice(source: Data, chunks: seq<Data>, n: nat)
    requires AreChunks(source, chunks) && n < |chunks|
    ensures IsSlice(source, |Joined(chunks[..n])|, chunks[n])
    ensures |Joined(chunks[..n + 1])| == |Joined(chunks[..n])| + |chunks[n]|
    ensures n > 0 ==> |Joined(chunks[..n])| > 0
    ensures |Joined(chunks[..n + 1])| == |source| <==> n + 1 == |chunks|
  {
    JoinedPrefix(chunks, n);
    JoinedNext(chunks, n);
    if n > 0 {
      JoinedPrefix(chunks[..n], 0);
    }
    if n + 1 < |chunks| {
      JoinedPrefix(chunks, n + 1);
    } else {
      assert chunks[..n + 1] == chunks;
    }
  }

  /** The first chunks of a file, each in a request of its own, by any threads, whatever the conditional removes
      answer: the part holds them. */
  lemma {:induction false} FirstChunksAreStored(source: Sources, s: State, key: Lock.Key, chunks: seq<Data>,
                                                threads: seq<Lock.Tid>, removed: seq<bool>, n: nat)
    returns (moves: seq<Move>, u: State)
    requires Quiet(s) && n < |chunks| == |threads| == |removed| && AreChunks(source(key), chunks)
    requires key !in s.paths || removed[0]
    ensures Leads(source, s, moves, u) && Quiet(u)
    ensures ReadyFor(source, u, key, |Joined(chunks[..n])|, removed[n])
    decreases n
  {
    if n == 0 {
      moves, u := [], s;
    } else {
      var first, mid := FirstChunksAreStored(source, s, key, chunks, threads, removed, n - 1);
      ChunkIsSlice(source(key), chunks, n - 1);
      ChunkIsSlice(source(key), chunks, n);
      var k := |Joined(chunks[..n - 1])|;
      var second;
      second, u := RequestStoresChunk(source, mid, threads[n - 1], key, k, chunks[n - 1], removed[n - 1]);
      LeadsJoin(source, s, first, mid, second, u);
      moves := first + second;
    }
  }

  /** However a file is split into consecutive chunks, requests that send them one after the other, in which no
      call after the conditional remove fails, commit the file. */
  lemma ChunksAreCommitted(source: Sources, s: State, key: Lock.Key, chunks: seq<Data>,
                           threads: seq<Lock.Tid>, removed: seq<bool>)
    returns (moves: seq<Move>, u: State)
    requires Quiet(s) && |chunks| == |threads| == |removed| && AreChunks(source(key), chunks)
    requires key !in s.paths || removed[0]
    ensures Leads(source, s, moves, u) && (key, source(key)) in u.committed
  {
    var n := |chunks| - 1;
    var first, mid := FirstChunksAreStored(source, s, key, chunks, threads, removed, n);
    ChunkIsSlice(source(key), chunks, n);
    var second;
    second, u := RequestStoresChunk(source, mid, threads[n], key, |Joined(chunks[..n])|, chunks[n], removed[n]);
    LeadsJoin(source, s, first, mid, second, u);
    moves := first + second;
  }
}
