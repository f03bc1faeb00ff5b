/** The activity log of internal/activity/activity.go and the dashboard that internal/httpapi/server.go
    builds from it.

    The store is a bounded window over an unbounded history. The history itself exists only as a ghost
    field: every method is proved against it. A file line that does not parse is None. */
module Activity {
  import opened Common
  import opened Text

  datatype Event = Event(id: int, time: int, kind: string, protocol: string, actor: string, remote: string,
                         referrer: string, action: string, outcome: string, path: string, destPath: string,
                         bytes: int, detail: string, message: string)

  datatype LogState = LogState(count: nat, capacity: int,
                           oldestId: int, newestId: int, oldestTime: int, newestTime: int)

  // ---------------------------------------------------------------- windows over a history

  /** The last n elements, or all of them when there are fewer. */
  function Last<T>(s: seq<T>, n: nat): (r: seq<T>)
    ensures |r| == if |s| < n then |s| else n
  {
    if |s| <= n then s else s[|s| - n..]
  }

  /** Go's copy: overwrites the front of dst with as much of src as fits. */
  function Copy<T>(dst: seq<T>, src: seq<T>): (r: seq<T>)
    ensures |r| == |dst|
  {
    if |src| <= |dst| then src + dst[|src|..] else src[..|dst|]
  }

  function NewestId(s: seq<Event>): int {
    if s == [] then 0 else s[|s| - 1].id
  }

  /** Ids are positive and each is larger than the one before. */
  predicate IncreasingIds(s: seq<Event>) {
    s == [] || (IncreasingIds(s[..|s| - 1]) && NewestId(s[..|s| - 1]) < s[|s| - 1].id)
  }

  lemma {:induction false} IdsIncrease(s: seq<Event>, i: nat, j: nat)
    requires IncreasingIds(s) && i <= j < |s|
    ensures 0 < s[i].id <= s[j].id && (i < j ==> s[i].id < s[j].id)
    decreases |s|, j - i
  {
    var n := |s| - 1;
    if n > 0 {
      IdsIncrease(s[..n], if i < n then i else n - 1, if j < n then j else n - 1);
    }
  }

  /** The largest id, at least 0: what the next id is counted from. */
  function MaxId(s: seq<Event>): (m: int)
    ensures m >= 0
  {
    if s == [] then 0
    else
      var m := MaxId(s[..|s| - 1]);
      if s[|s| - 1].id > m then s[|s| - 1].id else m
  }

  lemma {:induction false} MaxIsMost(s: seq<Event>, i: nat)
    requires i < |s|
    ensures s[i].id <= MaxId(s)
    decreases |s|
  {
    if i < |s| - 1 {
      MaxIsMost(s[..|s| - 1], i);
    }
  }

  lemma AllBelowMax(s: seq<Event>)
    ensures forall e | e in s :: e.id <= MaxId(s)
  {
    forall i | 0 <= i < |s|
      ensures s[i].id <= MaxId(s)
    {
      MaxIsMost(s, i);
    }
  }

  lemma {:induction false} MaxOfIncreasing(s: seq<Event>)
    requires IncreasingIds(s)
    ensures MaxId(s) == NewestId(s)
  {
    if s != [] {
      MaxOfIncreasing(s[..|s| - 1]);
    }
  }

  /** Appending to a window and shifting it down keeps it the window of the whole history. */
  lemma WindowStep<T>(history: seq<T>, limit: nat, x: T)
    requires 0 < limit
    ensures Last(history + [x], limit) == Last(Last(history, limit) + [x], limit)
  {}

  /** The newest-first filter that Recent computes, one element at a time from the end. */
  function Newest(s: seq<Event>, limit: nat, afterId: int): (r: seq<Event>)
    ensures |r| <= limit
    decreases |s|
  {
    if s == [] || limit == 0 then []
    else
      var e := s[|s| - 1];
      if afterId > 0 && e.id <= afterId then Newest(s[..|s| - 1], limit, afterId)
      else [e] + Newest(s[..|s| - 1], limit - 1, afterId)
  }

  /** In the loop of Recent: the first k events of s are still to be looked at. */
  predicate StillToTake(out: seq<Event>, s: seq<Event>, k: nat, limit: nat, afterId: int) {
    k <= |s| && |out| <= limit && out + Newest(s[..k], limit - |out|, afterId) == Newest(s, limit, afterId)
  }

  lemma TakeStarts(s: seq<Event>, limit: nat, afterId: int)
    ensures StillToTake([], s, |s|, limit, afterId)
  {
    assert s[..|s|] == s;
  }

  /** One round: an event is skipped or taken. */
  lemma TakeGoesOn(out: seq<Event>, s: seq<Event>, i: nat, limit: nat, afterId: int)
    requires i < |s| && |out| < limit && StillToTake(out, s, i + 1, limit, afterId)
    ensures StillToTake(if afterId > 0 && s[i].id <= afterId then out else out + [s[i]], s, i, limit, afterId)
  {
    assert s[..i + 1][..i] == s[..i];
    assert out + ([s[i]] + Newest(s[..i], limit - |out| - 1, afterId))
           == (out + [s[i]]) + Newest(s[..i], limit - |out| - 1, afterId);
  }

  lemma TakeEnds(out: seq<Event>, s: seq<Event>, k: nat, limit: nat, afterId: int)
    requires StillToTake(out, s, k, limit, afterId) && (k == 0 || |out| == limit)
    ensures out == Newest(s, limit, afterId)
  {
    assert out + [] == out;
  }

  // ---------------------------------------------------------------- the store

  function DefaultLimit(limit: int): (r: nat)
    ensures 0 < r
  {
    if limit <= 0 then 1000 else limit
  }

  /** What Add makes of its argument before it takes the lock: a time, an outcome and a message are
      filled in when missing. `now` and `text` are the clock and the generated sentence. */
  function Normalized(e: Event, now: int, text: string): Event {
    e.(time := if e.time == 0 then now else e.time,
       kind := TrimSpace(e.kind), protocol := TrimSpace(e.protocol), actor := TrimSpace(e.actor),
       remote := TrimSpace(e.remote), referrer := TrimSpace(e.referrer), action := TrimSpace(e.action),
       outcome := if TrimSpace(e.outcome) == "" then "ok" else TrimSpace(e.outcome),
       message := if e.message == "" then text else e.message)
  }

  /** What a new event does to the buffer in place: append, and when that is too long, copy the last `limit`
      events to the front and cut. */
  function Shifted<T>(events: seq<T>, limit: nat, x: T): seq<T> {
    var longer := events + [x];
    if |longer| > limit then Copy(longer, longer[|longer| - limit..])[..limit] else longer
  }

  /** The buffer stays the window of the whole history. */
  lemma ShiftedIsWindow<T>(history: seq<T>, limit: nat, x: T)
    requires 0 < limit
    ensures Shifted(Last(history, limit), limit, x) == Last(history + [x], limit)
  {
    WindowStep(history, limit, x);
    ShiftIsLast(Last(history, limit) + [x], limit);
  }

  lemma ShiftIsLast<T>(s: seq<T>, limit: nat)
    ensures |s| > limit ==> Copy(s, s[|s| - limit..])[..limit] == Last(s, limit)
  {}

  lemma MaxOfSnoc(s: seq<Event>, e: Event)
    ensures MaxId(s + [e]) == if e.id > MaxId(s) then e.id else MaxId(s)
  {
    assert (s + [e])[..|s|] == s;
  }

  /** An id above all before it keeps increasing ids increasing. */
  lemma NextIdIncreases(s: seq<Event>, e: Event)
    requires MaxId(s) < e.id
    ensures MaxId(s + [e]) == e.id
    ensures IncreasingIds(s) ==> IncreasingIds(s + [e])
  {
    MaxOfSnoc(s, e);
    assert (s + [e])[..|s|] == s;
    if IncreasingIds(s) {
      MaxOfIncreasing(s);
    }
  }

  // ---------------------------------------------------------------- the file

  /** What one write to the file does. A torn one leaves the beginning of a line; only when nothing but the
      line end is missing does that beginning parse. */
  datatype Write = Whole | Nothing | Torn(parses: bool)

  /** The finished lines, None where one does not parse, and a last one without its end. */
  datatype LogFile = LogFile(lines: seq<Option<Event>>, tail: Option<Option<Event>>) {
    function Lines(): seq<Option<Event>> { if tail.Some? then lines + [tail.value] else lines }

    /** What is written after an unfinished line becomes part of it, and the two do not parse together. */
    function Append(e: Event, w: Write): LogFile {
      match w
      case Nothing => this
      case Whole => LogFile(lines + [if tail.Some? then None else Some(e)], None)
      case Torn(parses) => LogFile(lines, Some(if tail.None? && parses then Some(e) else None))
    }
  }

  const NO_FILE := LogFile([], None)

  class Store {
    const limit: nat
    const hasFile: bool
    var nextId: int
    var events: seq<Event>
    var file: LogFile
    ghost var history: seq<Event>

    ghost predicate Valid() reads this {
      && 0 < limit
      && events == Last(history, limit)
      && nextId == MaxId(history)
    }

    constructor New(limit: int)
      ensures Valid() && history == [] && !hasFile && this.limit == DefaultLimit(limit)
    {
      this.limit := DefaultLimit(limit);
      hasFile, nextId, events, file, history := false, 0, [], NO_FILE, [];
    }

    /** NewFile: the log is whatever the parsable lines of the file say. */
    constructor NewFile(limit: int, file: LogFile)
      ensures Valid() && history == Parsed(file.Lines()) && hasFile && this.file == file
      ensures this.limit == DefaultLimit(limit)
      ensures forall e | e in history :: e.id <= nextId
    {
      this.limit := DefaultLimit(limit);
      hasFile, this.file := true, file;
      nextId, events, history := 0, [], [];
      new;
      Load();
      AllBelowMax(history);
    }

    method Load()
      requires Valid() && history == []
      modifies `nextId, `events, `history
      ensures Valid() && history == Parsed(file.Lines())
    {
      var lines := file.Lines();
      var i := 0;
      while i < |lines|
        invariant 0 <= i <= |lines|
        invariant Valid() == true
        invariant history == Parsed(lines[..i])
      {
        ParsedNext(lines, i);
        if lines[i].Some? {
          LoadLine(lines[i].value);
        }
        i := i + 1;
      }
      assert lines[..i] == lines;
    }

    method LoadLine(e: Event)
      requires Valid()
      modifies `nextId, `events, `history
      ensures Valid() && history == old(history) + [e]
    {
      MaxOfSnoc(history, e);
      ShiftedIsWindow(history, limit, e);
      if e.id > nextId {
        nextId := e.id;
      }
      events := events + [e];
      if |events| > limit {
        events := Copy(events, events[|events| - limit..]);
        events := events[..limit];
      }
      history := history + [e];
    }

    /** `write` says what becomes of the line; the code ignores a failure. */
    method Add(e: Event, now: int, text: string, write: Write) returns (r: Event)
      requires Valid()
      modifies this
      ensures Valid()
      ensures r == Normalized(e, now, text).(id := old(nextId) + 1)
      ensures history == old(history) + [r] && MaxId(old(history)) < r.id
      ensures IncreasingIds(old(history)) ==> IncreasingIds(history)
      ensures file == if hasFile then old(file).Append(r, write) else old(file)
    {
      r := Append(Normalized(e, now, text), write);
    }

    /** The part of Add under the lock. */
    method Append(e: Event, write: Write) returns (r: Event)
      requires Valid()
      modifies this
      ensures Valid()
      ensures r == e.(id := old(nextId) + 1)
      ensures history == old(history) + [r] && MaxId(old(history)) < r.id
      ensures IncreasingIds(old(history)) ==> IncreasingIds(history)
      ensures file == if hasFile then old(file).Append(r, write) else old(file)
    {
      r := e.(id := nextId + 1);
      NextIdIncreases(history, r);
      ShiftedIsWindow(history, limit, r);
      nextId := nextId + 1;
      events := events + [r];
      if |events| > limit {
        events := Copy(events, events[|events| - limit..]);
        events := events[..limit];
      }
      history := history + [r];
      if hasFile {
        file := file.Append(r, write);
      }
    }

    method Recent(limit: int, afterId: int) returns (out: seq<Event>)
      requires Valid()
      ensures out == Newest(Last(history, this.limit), if limit <= 0 then 100 else limit, afterId)
    {
      var limit := if limit <= 0 then 100 else limit;
      out := [];
      var i := |events| - 1;
      TakeStarts(events, limit, afterId);
      while i >= 0 && |out| < limit
        invariant -1 <= i < |events| && |out| <= limit
        invariant StillToTake(out, events, i + 1, limit, afterId) == true
        decreases i
      {
        TakeGoesOn(out, events, i, limit, afterId);
        var e := events[i];
        if afterId > 0 && e.id <= afterId {
          i := i - 1;
          continue;
        }
        out := out + [e];
        i := i - 1;
      }
      TakeEnds(out, events, i + 1, limit, afterId);
    }

    method State() returns (s: LogState)
      requires Valid()
      ensures s.count == |Last(history, limit)| && s.capacity == limit
      ensures history != [] ==> s.newestId == NewestId(history)
      ensures history != [] ==> s.oldestId == Last(history, limit)[0].id
      ensures history != [] && IncreasingIds(history) ==> s.oldestId <= s.newestId
      ensures history == [] ==> s.oldestId == s.newestId == 0
    {
      s := LogState(|events|, limit, 0, 0, 0, 0);
      if |events| == 0 {
        return;
      }
      var oldest, newest := events[0], events[|events| - 1];
      if IncreasingIds(history) {
        IdsIncrease(history, |history| - |events|, |history| - 1);
      }
      s := s.(oldestId := oldest.id, newestId := newest.id, oldestTime := oldest.time, newestTime := newest.time);
    }
  }

  // ---------------------------------------------------------------- reload

  function Parsed(lines: seq<Option<Event>>): seq<Event>
    decreases |lines|
  {
    if lines == [] then []
    else Parsed(lines[..|lines| - 1]) + match lines[|lines| - 1] case Some(e) => [e] case None => []
  }

  lemma ParsedNext(lines: seq<Option<Event>>, i: nat)
    requires i < |lines|
    ensures Parsed(lines[..i + 1]) == Parsed(lines[..i]) + match lines[i] case Some(e) => [e] case None => []
  {
    assert lines[..i + 1][..i] == lines[..i];
  }

  /** The file after events were written to it, each with its own luck. */
  function Appended(f: LogFile, events: seq<Event>, writes: seq<Write>): LogFile
    requires |events| == |writes|
    decreases |events|
  {
    if events == [] then f
    else
      var n := |events| - 1;
      Appended(f, events[..n], writes[..n]).Append(events[n], writes[n])
  }

  predicate AllNothing(writes: seq<Write>) { forall i | 0 <= i < |writes| :: writes[i].Nothing? }

  /** No unfinished line is at the end of the file; `start` says so of the file before the writes. */
  predicate Clean(start: bool, writes: seq<Write>) {
    if writes == [] then start
    else if writes[|writes| - 1].Nothing? then Clean(start, writes[..|writes| - 1])
    else writes[|writes| - 1].Whole?
  }

  /** The event with index i can be read back: nothing unfinished was before it, and it was written whole, or
      only its line end is missing and nothing was written after it. */
  predicate Reached(start: bool, writes: seq<Write>, i: nat)
    requires i < |writes|
  {
    && Clean(start, writes[..i])
    && (writes[i].Whole? || (writes[i] == Torn(true) && forall k | i < k < |writes| :: writes[k].Nothing?))
  }

  /** For each event whether it is on a finished line of its own. */
  function Settled(start: bool, writes: seq<Write>): (ok: seq<bool>)
    ensures |ok| == |writes|
  {
    if writes == [] then []
    else
      var n := |writes| - 1;
      Settled(start, writes[..n]) + [writes[n].Whole? && Clean(start, writes[..n])]
  }

  /** For each event whether it can be read back. */
  function Readable(start: bool, writes: seq<Write>): (ok: seq<bool>)
    ensures |ok| == |writes|
  {
    if writes == [] then []
    else
      var n := |writes| - 1;
      if writes[n].Nothing? then Readable(start, writes[..n]) + [false]
      else Settled(start, writes[..n]) + [Clean(start, writes[..n]) && writes[n] != Torn(false)]
  }

  lemma {:induction false} SettledAt(start: bool, writes: seq<Write>, i: nat)
    requires i < |writes|
    ensures Settled(start, writes)[i] <==> writes[i].Whole? && Clean(start, writes[..i])
    decreases |writes|
  {
    var n := |writes| - 1;
    if i < n {
      SettledAt(start, writes[..n], i);
      assert writes[..n][..i] == writes[..i];
    }
  }

  lemma {:induction false} ReadableIsReached(start: bool, writes: seq<Write>, i: nat)
    requires i < |writes|
    ensures Readable(start, writes)[i] <==> Reached(start, writes, i)
    decreases |writes|
  {
    var n := |writes| - 1;
    if i < n {
      assert writes[..n][..i] == writes[..i];
      if writes[n].Nothing? {
        ReadableIsReached(start, writes[..n], i);
        StillReached(start, writes, i);
      } else {
        SettledAt(start, writes[..n], i);
      }
    }
  }

  lemma StillReached(start: bool, writes: seq<Write>, i: nat)
    requires i < |writes| - 1 && writes[|writes| - 1].Nothing?
    ensures Reached(start, writes, i) <==> Reached(start, writes[..|writes| - 1], i)
  {
    var n := |writes| - 1;
    assert writes[..n][..i] == writes[..i];
    if Reached(start, writes[..n], i) && !writes[i].Whole? {
      forall k | i < k < |writes|
        ensures writes[k].Nothing?
      {
        if k < n {
          assert writes[..n][k] == writes[k];
        }
      }
    }
    if Reached(start, writes, i) {
      forall k | i < k < n
        ensures writes[..n][k] == writes[k]
      {}
    }
  }

  /** The window and next id that load builds from the file. */
  function Reloaded(file: LogFile, limit: nat): (seq<Event>, int) {
    (Last(Parsed(file.Lines()), limit), MaxId(Parsed(file.Lines())))
  }

  function Kept(history: seq<Event>, ok: seq<bool>): seq<Event>
    requires |history| == |ok|
    decreases |history|
  {
    if history == [] then []
    else
      var n := |history| - 1;
      Kept(history[..n], ok[..n]) + if ok[n] then [history[n]] else []
  }

  lemma KeptNext(history: seq<Event>, ok: seq<bool>, e: Event, b: bool)
    requires |history| == |ok|
    ensures Kept(history + [e], ok + [b]) == Kept(history, ok) + if b then [e] else []
  {
    assert (history + [e])[..|history|] == history && (ok + [b])[..|ok|] == ok;
  }

  lemma ParsedOfSnoc(lines: seq<Option<Event>>, l: Option<Event>)
    ensures Parsed(lines + [l]) == Parsed(lines) + OrNothing(l)
  {
    assert (lines + [l])[..|lines|] == lines;
  }

  /** What was readable in the file before the writes and still is: an unfinished line that parses is kept only
      if nothing is written after it. */
  function Before(f: LogFile, writes: seq<Write>): seq<Event> {
    Parsed(if AllNothing(writes) then f.Lines() else f.lines)
  }

  /** The finished lines of g, and its unfinished one, after the writes to f. */
  ghost predicate LinesReadBack(f: LogFile, g: LogFile, events: seq<Event>, writes: seq<Write>)
    requires |events| == |writes|
  {
    && Parsed(g.lines) == Parsed(f.lines) + Kept(events, Settled(f.tail.None?, writes))
    && (g.tail.None? <==> Clean(f.tail.None?, writes))
    && (AllNothing(writes) ==> g == f)
  }

  lemma {:induction false} LinesAreKept(f: LogFile, events: seq<Event>, writes: seq<Write>)
    requires |events| == |writes|
    ensures LinesReadBack(f, Appended(f, events, writes), events, writes)
    decreases |events|
  {
    if events != [] {
      var n := |events| - 1;
      LinesAreKept(f, events[..n], writes[..n]);
      assert events == events[..n] + [events[n]] && writes == writes[..n] + [writes[n]];
      OneMoreLine(f, Appended(f, events[..n], writes[..n]), events[..n], writes[..n], events[n], writes[n]);
      assert LinesReadBack(f, Appended(f, events, writes), events, writes) == true;
    } else {
      assert Parsed(f.lines) + [] == Parsed(f.lines);
    }
  }

  lemma WritesNext(start: bool, writes: seq<Write>, w: Write)
    ensures Settled(start, writes + [w]) == Settled(start, writes) + [w.Whole? && Clean(start, writes)]
    ensures Clean(start, writes + [w]) <==> if w.Nothing? then Clean(start, writes) else w.Whole?
    ensures Readable(start, writes + [w]) ==
            if w.Nothing? then Readable(start, writes) + [false]
            else Settled(start, writes) + [Clean(start, writes) && w != Torn(false)]
  {
    assert (writes + [w])[..|writes|] == writes;
  }

  lemma OneMoreFinished(g: LogFile, p: seq<Event>, events: seq<Event>, ok: seq<bool>, clean: bool, e: Event, w: Write)
    requires |events| == |ok| && Parsed(g.lines) == p + Kept(events, ok) && (g.tail.None? <==> clean)
    ensures Parsed(g.Append(e, w).lines) == p + Kept(events + [e], ok + [w.Whole? && clean])
  {
    var x := if w.Whole? && clean then Some(e) else None;
    KeptNext(events, ok, e, w.Whole? && clean);
    Associates(p, Kept(events, ok), OrNothing(x));
    if w.Whole? {
      ParsedOfSnoc(g.lines, x);
    } else {
      assert Kept(events, ok) + [] == Kept(events, ok);
    }
  }

  lemma OneMoreLine(f: LogFile, g: LogFile, events: seq<Event>, writes: seq<Write>, e: Event, w: Write)
    requires |events| == |writes| && LinesReadBack(f, g, events, writes)
    ensures LinesReadBack(f, g.Append(e, w), events + [e], writes + [w])
  {
    var start := f.tail.None?;
    WritesNext(start, writes, w);
    OneMoreFinished(g, Parsed(f.lines), events, Settled(start, writes), Clean(start, writes), e, w);
    NothingMore(writes, w);
  }

  lemma NothingMore(writes: seq<Write>, w: Write)
    ensures AllNothing(writes + [w]) <==> AllNothing(writes) && w.Nothing?
  {
    assert (writes + [w])[|writes|] == w;
    forall i | 0 <= i < |writes|
      ensures (writes + [w])[i] == writes[i]
    {}
  }

  /** What a reload parses: what was readable before and still is, and the events that reached the file. */
  lemma {:induction false} ParsedIsKept(f: LogFile, events: seq<Event>, writes: seq<Write>)
    requires |events| == |writes|
    ensures Parsed(Appended(f, events, writes).Lines())
            == Before(f, writes) + Kept(events, Readable(f.tail.None?, writes))
    decreases |events|
  {
    if events == [] {
      assert Before(f, writes) + [] == Before(f, writes);
    } else {
      var n := |events| - 1;
      var g := Appended(f, events[..n], writes[..n]);
      assert events == events[..n] + [events[n]] && writes == writes[..n] + [writes[n]];
      LinesAreKept(f, events[..n], writes[..n]);
      if writes[n].Nothing? {
        ParsedIsKept(f, events[..n], writes[..n]);
      }
      OneMoreIsRead(f, g, events[..n], writes[..n], events[n], writes[n]);
    }
  }

  lemma LastLine(g: LogFile, e: Event, w: Write)
    requires !w.Nothing?
    ensures g.Append(e, w).Lines() == g.lines + [NewLine(g, e, w)]
  {}

  lemma Associates<T>(a: seq<T>, b: seq<T>, c: seq<T>)
    ensures (a + b) + c == a + (b + c)
  {}

  function OrNothing(o: Option<Event>): seq<Event> { match o case Some(e) => [e] case None => [] }

  lemma OneMoreLast(g: LogFile, p: seq<Event>, events: seq<Event>, ok: seq<bool>, clean: bool, e: Event, w: Write)
    requires |events| == |ok| && Parsed(g.lines) == p + Kept(events, ok) && (g.tail.None? <==> clean) && !w.Nothing?
    ensures Parsed(g.Append(e, w).Lines()) == p + Kept(events + [e], ok + [clean && w != Torn(false)])
  {
    var x := NewLine(g, e, w);
    LastLine(g, e, w);
    ParsedOfSnoc(g.lines, x);
    KeptNext(events, ok, e, clean && w != Torn(false));
    Associates(p, Kept(events, ok), OrNothing(x));
  }

  lemma OneMoreIsRead(f: LogFile, g: LogFile, events: seq<Event>, writes: seq<Write>, e: Event, w: Write)
    requires |events| == |writes| && LinesReadBack(f, g, events, writes)
    requires w.Nothing? ==> Parsed(g.Lines()) == Before(f, writes) + Kept(events, Readable(f.tail.None?, writes))
    ensures Parsed(g.Append(e, w).Lines())
            == Before(f, writes + [w]) + Kept(events + [e], Readable(f.tail.None?, writes + [w]))
  {
    var start := f.tail.None?;
    WritesNext(start, writes, w);
    NothingMore(writes, w);
    if w.Nothing? {
      KeptNext(events, Readable(start, writes), e, false);
      assert Kept(events, Readable(start, writes)) + [] == Kept(events, Readable(start, writes));
    } else {
      OneMoreLast(g, Parsed(f.lines), events, Settled(start, writes), Clean(start, writes), e, w);
    }
  }

  /** The last line after a write, finished or not. */
  function NewLine(g: LogFile, e: Event, w: Write): Option<Event> {
    if g.tail.None? && w != Torn(false) then Some(e) else None
  }

  /** The same, as one list of flags over everything the store has had: the loaded events, of which only the
      one on an unfinished line can be lost, and the new ones. */
  function Survives(f: LogFile, writes: seq<Write>): (ok: seq<bool>)
    ensures |ok| == |Parsed(f.Lines())| + |writes|
  {
    ParsedGrows(f);
    Loaded(f, AllNothing(writes)) + Readable(f.tail.None?, writes)
  }

  function Loaded(f: LogFile, untouched: bool): (ok: seq<bool>)
    ensures |ok| == |Parsed(f.Lines())|
  {
    ParsedGrows(f);
    seq(|Parsed(f.lines)|, _ => true) + seq(|Parsed(f.Lines())| - |Parsed(f.lines)|, _ => untouched)
  }

  lemma ParsedGrows(f: LogFile)
    ensures |Parsed(f.lines)| <= |Parsed(f.Lines())| <= |Parsed(f.lines)| + 1
    ensures Parsed(f.Lines())[..|Parsed(f.lines)|] == Parsed(f.lines)
  {
    if f.tail.Some? {
      ParsedOfSnoc(f.lines, f.tail.value);
    }
  }

  lemma {:induction false} KeptOfConcat(a: seq<Event>, b: seq<Event>, ok: seq<bool>, ok': seq<bool>)
    requires |a| == |ok| && |b| == |ok'|
    ensures Kept(a + b, ok + ok') == Kept(a, ok) + Kept(b, ok')
    decreases |b|
  {
    if b == [] {
      assert a + b == a && ok + ok' == ok;
    } else {
      var n := |b| - 1;
      KeptOfConcat(a, b[..n], ok, ok'[..n]);
      assert (a + b)[..|a + b| - 1] == a + b[..n] && (ok + ok')[..|a + b| - 1] == ok + ok'[..n];
    }
  }

  lemma {:induction false} KeptAll(s: seq<Event>, ok: seq<bool>)
    requires |s| == |ok| && forall i | 0 <= i < |ok| :: ok[i]
    ensures Kept(s, ok) == s
    decreases |s|
  {
    if s != [] {
      KeptAll(s[..|s| - 1], ok[..|s| - 1]);
      assert s == s[..|s| - 1] + [s[|s| - 1]];
    }
  }

  lemma {:induction false} KeptNone(s: seq<Event>, ok: seq<bool>)
    requires |s| == |ok| && forall i | 0 <= i < |ok| :: !ok[i]
    ensures Kept(s, ok) == []
    decreases |s|
  {
    if s != [] {
      KeptNone(s[..|s| - 1], ok[..|s| - 1]);
    }
  }

  lemma KeptParts(p: seq<Event>, x: seq<Event>, b: bool)
    ensures Kept(p + x, seq(|p|, _ => true) + seq(|x|, _ => b)) == if b then p + x else p
  {
    var ok, ok' := seq(|p|, _ => true), seq(|x|, _ => b);
    KeptOfConcat(p, x, ok, ok');
    KeptAll(p, ok);
    if b {
      KeptAll(x, ok');
    } else {
      KeptNone(x, ok');
      assert p + [] == p;
    }
  }

  lemma LoadedIsBefore(f: LogFile, writes: seq<Write>)
    ensures Kept(Parsed(f.Lines()), Loaded(f, AllNothing(writes))) == Before(f, writes)
  {
    ParsedGrows(f);
    var p, x := Parsed(f.lines), Parsed(f.Lines())[|Parsed(f.lines)|..];
    assert Parsed(f.Lines()) == p + x;
    KeptParts(p, x, AllNothing(writes));
  }

  lemma ReloadIsKept(f: LogFile, events: seq<Event>, writes: seq<Write>)
    requires |events| == |writes|
    ensures Parsed(Appended(f, events, writes).Lines()) == Kept(Parsed(f.Lines()) + events, Survives(f, writes))
  {
    ParsedIsKept(f, events, writes);
    LoadedIsBefore(f, writes);
    KeptOfConcat(Parsed(f.Lines()), events, Loaded(f, AllNothing(writes)), Readable(f.tail.None?, writes));
  }

  lemma {:induction false} KeptIsOlder(history: seq<Event>, ok: seq<bool>, bound: int)
    requires |history| == |ok| && IncreasingIds(history) && NewestId(history) < bound
    ensures forall x | x in Kept(history, ok) :: x.id < bound
    decreases |history|
  {
    if history != [] {
      KeptIsOlder(history[..|history| - 1], ok[..|history| - 1], bound);
    }
  }

  /** An event of the log is read back only if it is among those kept. */
  lemma {:induction false} KeptOnlyAppended(history: seq<Event>, ok: seq<bool>, i: nat)
    requires |history| == |ok| && IncreasingIds(history) && i < |history|
    requires history[i] in Kept(history, ok)
    ensures ok[i]
    decreases |history|
  {
    var n := |history| - 1;
    KeptIsOlder(history[..n], ok[..n], history[n].id);
    if i < n {
      IdsIncrease(history, i, n);
      KeptOnlyAppended(history[..n], ok[..n], i);
    }
  }

  lemma NewestSurvivesIff(f: LogFile, writes: seq<Write>)
    requires writes != []
    ensures Survives(f, writes)[|Parsed(f.Lines())| + |writes| - 1] == Reached(f.tail.None?, writes, |writes| - 1)
  {
    ReadableIsReached(f.tail.None?, writes, |writes| - 1);
  }

  /** Whatever file a store was opened on, with an unfinished line or without: reloading gives back the next
      id exactly when there is no new event or the newest one reached the file. */
  lemma ReloadKeepsNextIdIff(f: LogFile, events: seq<Event>, writes: seq<Write>, limit: nat)
    requires |events| == |writes| && IncreasingIds(Parsed(f.Lines()) + events)
    ensures Reloaded(Appended(f, events, writes), limit).1 == MaxId(Parsed(f.Lines()) + events)
            <==> events == [] || Reached(f.tail.None?, writes, |writes| - 1)
  {
    if events == [] {
      assert Parsed(f.Lines()) + events == Parsed(f.Lines());
    } else {
      ReloadIsKept(f, events, writes);
      NewestSurvivesIff(f, writes);
      NewestIsKeptIff(Parsed(f.Lines()) + events, Survives(f, writes));
    }
  }

  lemma NewestIsKeptIff(history: seq<Event>, ok: seq<bool>)
    requires |history| == |ok| && IncreasingIds(history) && history != []
    ensures MaxId(Kept(history, ok)) == MaxId(history) <==> ok[|history| - 1]
  {
    var n := |history| - 1;
    var k := Kept(history[..n], ok[..n]);
    KeptIsOlder(history[..n], ok[..n], history[n].id);
    IdsIncrease(history, n, n);
    MaxOfIncreasing(history);
    MaxIsBelow(k, history[n].id);
    MaxOfSnoc(k, history[n]);
    assert k + [] == k;
  }

  lemma {:induction false} MaxIsBelow(s: seq<Event>, bound: int)
    requires 0 < bound && forall e | e in s :: e.id < bound
    ensures MaxId(s) < bound
  {
    if s != [] {
      MaxIsBelow(s[..|s| - 1], bound);
    }
  }

  predicate AllIn(ok: seq<bool>, from: nat) {
    forall i | from <= i < |ok| :: ok[i]
  }

  /** When every append of a suffix succeeded, the file ends with that suffix. */
  lemma {:induction false} SuffixReachesFile(history: seq<Event>, ok: seq<bool>, from: nat)
    requires |history| == |ok| && from <= |history| && AllIn(ok, from)
    ensures Kept(history, ok) == Kept(history[..from], ok[..from]) + history[from..]
    decreases |history|
  {
    var n := |history| - 1;
    if from == |history| {
      assert history[..from] == history && ok[..from] == ok;
    } else {
      SuffixReachesFile(history[..n], ok[..n], from);
      assert history[..n][..from] == history[..from] && ok[..n][..from] == ok[..from];
      assert history[from..] == history[..n][from..] + [history[n]];
    }
  }

  /** From this place on in the loaded and new events, everything can be read back: the new events reached the
      file, and if the last loaded one is on an unfinished line, nothing was written after it. */
  predicate AllReached(f: LogFile, writes: seq<Write>, from: nat) {
    var loaded := |Parsed(f.Lines())|;
    && (forall i | 0 <= i < |writes| && from <= loaded + i :: Reached(f.tail.None?, writes, i))
    && (f.tail.Some? && f.tail.value.Some? && from < loaded ==> AllNothing(writes))
  }

  lemma SurvivesAt(f: LogFile, writes: seq<Write>, i: nat)
    requires i < |Parsed(f.Lines())| + |writes|
    ensures Survives(f, writes)[i] <==>
            if i < |Parsed(f.Lines())| then i < |Parsed(f.lines)| || AllNothing(writes)
            else Reached(f.tail.None?, writes, i - |Parsed(f.Lines())|)
  {
    ParsedGrows(f);
    if i >= |Parsed(f.Lines())| {
      ReadableIsReached(f.tail.None?, writes, i - |Parsed(f.Lines())|);
    }
  }

  lemma LastMayBeUnfinished(f: LogFile)
    ensures |Parsed(f.Lines())| == |Parsed(f.lines)| + if f.tail.Some? && f.tail.value.Some? then 1 else 0
  {
    if f.tail.Some? {
      ParsedOfSnoc(f.lines, f.tail.value);
    }
  }

  lemma ReachedSurvive(f: LogFile, writes: seq<Write>, from: nat)
    requires AllReached(f, writes, from)
    ensures AllIn(Survives(f, writes), from)
  {
    LastMayBeUnfinished(f);
    var loaded := |Parsed(f.Lines())|;
    forall i | from <= i < loaded + |writes|
      ensures Survives(f, writes)[i]
    {
      SurvivesAt(f, writes, i);
      if i >= loaded {
        assert Reached(f.tail.None?, writes, i - loaded);
      }
    }
  }

  lemma SurvivorsReached(f: LogFile, writes: seq<Write>, from: nat)
    requires AllIn(Survives(f, writes), from)
    ensures AllReached(f, writes, from)
  {
    LastMayBeUnfinished(f);
    var loaded := |Parsed(f.Lines())|;
    forall i | 0 <= i < |writes| && from <= loaded + i
      ensures Reached(f.tail.None?, writes, i)
    {
      SurvivesAt(f, writes, loaded + i);
    }
    if from < loaded {
      SurvivesAt(f, writes, loaded - 1);
    }
  }

  /** Where the window begins in all events. */
  function WindowStart(all: seq<Event>, limit: nat): nat { |all| - |Last(all, limit)| }

  /** Reloading gives back the window. */
  predicate KeepsWindow(f: LogFile, events: seq<Event>, writes: seq<Write>, limit: nat)
    requires |events| == |writes|
  {
    Reloaded(Appended(f, events, writes), limit).0 == Last(Parsed(f.Lines()) + events, limit)
  }

  lemma WindowSurvivesIff(f: LogFile, events: seq<Event>, writes: seq<Write>, limit: nat)
    requires |events| == |writes| && IncreasingIds(Parsed(f.Lines()) + events) && 0 < limit
    ensures KeepsWindow(f, events, writes, limit)
            == AllIn(Survives(f, writes), WindowStart(Parsed(f.Lines()) + events, limit))
  {
    ReloadIsKept(f, events, writes);
    KeepsWindowIff(Parsed(f.Lines()) + events, Survives(f, writes), limit);
  }

  /** Whatever file a store was opened on: reloading gives back the window exactly when everything in it can be
      read back. With every write whole to a file without an unfinished line it therefore always does. */
  lemma ReloadKeepsWindowIff(f: LogFile, events: seq<Event>, writes: seq<Write>, limit: nat)
    requires |events| == |writes| && IncreasingIds(Parsed(f.Lines()) + events) && 0 < limit
    ensures KeepsWindow(f, events, writes, limit)
            == AllReached(f, writes, WindowStart(Parsed(f.Lines()) + events, limit))
  {
    var start := WindowStart(Parsed(f.Lines()) + events, limit);
    WindowSurvivesIff(f, events, writes, limit);
    if AllReached(f, writes, start) {
      ReachedSurvive(f, writes, start);
    } else if AllIn(Survives(f, writes), start) {
      SurvivorsReached(f, writes, start);
    }
  }

  /** The ids in the file keep increasing, so that the above holds for every store opened on the file of an
      earlier one, however that one ended. */
  lemma FileStaysIncreasing(f: LogFile, events: seq<Event>, writes: seq<Write>)
    requires |events| == |writes| && IncreasingIds(Parsed(f.Lines()) + events)
    ensures IncreasingIds(Parsed(Appended(f, events, writes).Lines()))
  {
    ReloadIsKept(f, events, writes);
    KeptIncreases(Parsed(f.Lines()) + events, Survives(f, writes));
  }

  lemma {:induction false} KeptIncreases(s: seq<Event>, ok: seq<bool>)
    requires |s| == |ok| && IncreasingIds(s)
    ensures IncreasingIds(Kept(s, ok))
    decreases |s|
  {
    if s != [] {
      var n := |s| - 1;
      var k := Kept(s[..n], ok[..n]);
      KeptIncreases(s[..n], ok[..n]);
      KeptIsOlder(s[..n], ok[..n], s[n].id);
      IdsIncrease(s, n, n);
      assert k + [] == k && (k + [s[n]])[..|k|] == k;
      if k != [] {
        assert k[|k| - 1] in k;
      }
    }
  }

  /** After a torn write and a restart the first whole write is lost as well: its line begins with the torn
      one. */
  lemma TornBeforeRestartSpoilsFirst(f: LogFile, e: Event, limit: nat)
    requires f.tail.Some?
    ensures Parsed(Appended(f, [e], [Whole]).Lines()) == Parsed(f.lines)
    ensures f == LogFile([], Some(None)) ==> Reloaded(Appended(f, [e], [Whole]), limit) == ([], 0)
  {
    assert [e][..0] == [] && [Whole][..0] == [];
    assert Appended(f, [e][..0], [Whole][..0]) == f;
    ParsedOfSnoc(f.lines, None);
    assert Parsed(f.lines) + [] == Parsed(f.lines);
  }

  lemma WindowIsKept(history: seq<Event>, ok: seq<bool>, limit: nat, i: nat)
    requires |history| == |ok| && IncreasingIds(history) && 0 < limit
    requires |history| - |Last(history, limit)| <= i < |history|
    requires Last(Kept(history, ok), limit) == Last(history, limit)
    ensures ok[i]
  {
    var j := i - (|history| - |Last(history, limit)|);
    assert history[i] == Last(history, limit)[j];
    InLast(Kept(history, ok), limit, j);
    KeptOnlyAppended(history, ok, i);
  }

  lemma InLast<T>(s: seq<T>, limit: nat, j: nat)
    requires j < |Last(s, limit)|
    ensures Last(s, limit)[j] in s
  {}

  lemma LastOfSuffix<T>(s: seq<T>, suffix: seq<T>, limit: nat)
    requires |suffix| <= limit
    ensures |suffix| == limit ==> Last(s + suffix, limit) == suffix
  {}

  /** When the window is the whole history, or when the whole window is kept, the window is kept. */
  lemma SuffixIsWindow(history: seq<Event>, ok: seq<bool>, limit: nat)
    requires |history| == |ok| && 0 < limit && AllIn(ok, |history| - |Last(history, limit)|)
    ensures Last(Kept(history, ok), limit) == Last(history, limit)
  {
    var from := |history| - |Last(history, limit)|;
    SuffixReachesFile(history, ok, from);
    var k := Kept(history[..from], ok[..from]);
    assert history[from..] == Last(history, limit);
    if from == 0 {
      assert history[..0] == [] && k == [];
      assert [] + history[0..] == history;
    } else {
      LastOfSuffix(k, history[from..], limit);
    }
  }

  lemma KeepsWindowIff(history: seq<Event>, ok: seq<bool>, limit: nat)
    requires |history| == |ok| && IncreasingIds(history) && 0 < limit
    ensures Last(Kept(history, ok), limit) == Last(history, limit) <==> AllIn(ok, |history| - |Last(history, limit)|)
  {
    if AllIn(ok, |history| - |Last(history, limit)|) {
      SuffixIsWindow(history, ok, limit);
    }
    if Last(Kept(history, ok), limit) == Last(history, limit) {
      forall i | |history| - |Last(history, limit)| <= i < |ok|
        ensures ok[i]
      {
        WindowIsKept(history, ok, limit, i);
      }
    }
  }

  /** One torn write costs two events: its own and the next. */
  lemma TornWriteSpoilsNext(start: bool, writes: seq<Write>)
    ensures var all := writes + [Torn(false), Whole];
            !Reached(start, all, |writes|) && !Reached(start, all, |writes| + 1) && Clean(start, all)
  {
    var all := writes + [Torn(false), Whole];
    assert all[..|writes| + 1][|writes|] == Torn(false);
  }

  // ---------------------------------------------------------------- the dashboard

  /** The event classifiers, as functions: the results hold for whatever they say. */
  datatype Classifier = Classifier(monitor: Event -> bool, maintenance: Event -> bool,
                                   security: Event -> bool, localOrAdmin: Event -> bool)

  /** The selections the dashboard and Recent make. */
  datatype Selection =
    | After(id: int) | Human | Security | External | Mistakes | Monitor | MonitorOk | MonitorFailed
    | Both(a: Selection, b: Selection)

  predicate IsHuman(c: Classifier, e: Event) { !c.monitor(e) && !c.maintenance(e) }

  predicate Selects(c: Classifier, sel: Selection, e: Event) {
    match sel
    case After(id) => !(id > 0 && e.id <= id)
    case Human => IsHuman(c, e)
    case Security => IsHuman(c, e) && c.security(e)
    case External => IsHuman(c, e) && c.security(e) && !c.localOrAdmin(e)
    case Mistakes => IsHuman(c, e) && c.security(e) && c.localOrAdmin(e)
    case Monitor => c.monitor(e)
    case MonitorOk => c.monitor(e) && !c.security(e)
    case MonitorFailed => c.monitor(e) && c.security(e)
    case Both(a, b) => Selects(c, a, e) && Selects(c, b, e)
  }

  datatype Dashboard = Dashboard(events: seq<Event>, security: seq<Event>, external: seq<Event>, mistakes: seq<Event>,
                                 monitorCount: nat, monitorOk: nat, monitorFailed: nat,
                                 last: Option<Event>, lastOk: Option<Event>, lastFailed: Option<Event>)

  const SCAN_LIMIT := 2000

  function Filter(c: Classifier, sel: Selection, s: seq<Event>): (r: seq<Event>)
    decreases |s|
  {
    if s == [] then []
    else
      var n := |s| - 1;
      Filter(c, sel, s[..n]) + if Selects(c, sel, s[n]) then [s[n]] else []
  }

  function First<T>(s: seq<T>, n: nat): seq<T> {
    if |s| <= n then s else s[..n]
  }

  /** The event that a "last" field shows: the first with an id; while there is none, the latest looked at,
      because a field with id 0 reads as unset. */
  function FirstWithId(s: seq<Event>): Option<Event> {
    if s == [] then None
    else
      var o := FirstWithId(s[..|s| - 1]);
      if o.None? || o.value.id == 0 then Some(s[|s| - 1]) else o
  }

  lemma {:induction false} FirstWithIdIsFirst(s: seq<Event>)
    requires s != [] && s[0].id != 0
    ensures FirstWithId(s) == Some(s[0])
  {
    if |s| > 1 {
      FirstWithIdIsFirst(s[..|s| - 1]);
    } else {
      assert s[..0] == [];
    }
  }

  function Reverse(s: seq<Event>): (r: seq<Event>)
    ensures |r| == |s|
  {
    if s == [] then [] else [s[|s| - 1]] + Reverse(s[..|s| - 1])
  }

  /** The dashboard over a newest-first list, said list by list: each list is a filter of the input cut
      to its cap, each counter is the length of a filter, each "last" event its first element with an id. */
  function DashboardOf(c: Classifier, recent: seq<Event>, limit: nat): Dashboard {
    var monitor := Filter(c, Monitor, recent);
    var monitorOk := Filter(c, MonitorOk, recent);
    var monitorFailed := Filter(c, MonitorFailed, recent);
    Dashboard(
      First(Filter(c, Human, recent), limit), First(Filter(c, Security, recent), 12),
      First(Filter(c, External, recent), 8), First(Filter(c, Mistakes, recent), 8),
      |monitor|, |monitorOk|, |monitorFailed|, FirstWithId(monitor), FirstWithId(monitorOk),
      FirstWithId(monitorFailed))
  }

  lemma FilterSnoc(c: Classifier, sel: Selection, s: seq<Event>, e: Event)
    ensures Filter(c, sel, s + [e]) == Filter(c, sel, s) + if Selects(c, sel, e) then [e] else []
  {
    assert (s + [e])[..|s|] == s;
  }

  function Push(s: seq<Event>, e: Event, p: bool, n: nat): seq<Event> {
    if p && |s| < n then s + [e] else s
  }

  predicate Unset(o: Option<Event>) { o.None? || o.value.id == 0 }

  function Keep(o: Option<Event>, e: Event, p: bool): Option<Event> {
    if p && Unset(o) then Some(e) else o
  }

  lemma FirstWithIdOfSnoc(s: seq<Event>, e: Event)
    ensures FirstWithId(s + [e]) == Keep(FirstWithId(s), e, true)
  {
    assert (s + [e])[..|s|] == s;
  }

  lemma FirstOfSnoc(s: seq<Event>, e: Event, n: nat)
    ensures First(s + [e], n) == Push(First(s, n), e, true, n)
  {}

  lemma CappedStep(c: Classifier, sel: Selection, s: seq<Event>, e: Event, n: nat)
    ensures First(Filter(c, sel, s + [e]), n) == Push(First(Filter(c, sel, s), n), e, Selects(c, sel, e), n)
  {
    var f := Filter(c, sel, s);
    FilterSnoc(c, sel, s, e);
    FirstOfSnoc(f, e, n);
    assert f + [] == f;
  }

  lemma CountStep(c: Classifier, sel: Selection, s: seq<Event>, e: Event)
    ensures FirstWithId(Filter(c, sel, s + [e])) == Keep(FirstWithId(Filter(c, sel, s)), e, Selects(c, sel, e))
    ensures |Filter(c, sel, s + [e])| == |Filter(c, sel, s)| + if Selects(c, sel, e) then 1 else 0
  {
    var f := Filter(c, sel, s);
    FilterSnoc(c, sel, s, e);
    FirstWithIdOfSnoc(f, e);
    assert f + [] == f;
  }

  /** One turn of the loop, on the value. */
  function Recorded(c: Classifier, d: Dashboard, e: Event, limit: nat): Dashboard {
    Dashboard(Push(d.events, e, Selects(c, Human, e), limit), Push(d.security, e, Selects(c, Security, e), 12),
              Push(d.external, e, Selects(c, External, e), 8), Push(d.mistakes, e, Selects(c, Mistakes, e), 8),
              d.monitorCount + (if c.monitor(e) then 1 else 0),
              d.monitorOk + (if Selects(c, MonitorOk, e) then 1 else 0),
              d.monitorFailed + (if Selects(c, MonitorFailed, e) then 1 else 0),
              Keep(d.last, e, c.monitor(e)), Keep(d.lastOk, e, Selects(c, MonitorOk, e)),
              Keep(d.lastFailed, e, Selects(c, MonitorFailed, e)))
  }

  lemma ListsStep(c: Classifier, s: seq<Event>, e: Event, limit: nat)
    ensures var d', r := DashboardOf(c, s + [e], limit), Recorded(c, DashboardOf(c, s, limit), e, limit);
            d'.events == r.events && d'.security == r.security && d'.external == r.external && d'.mistakes == r.mistakes
  {
    var d', r := DashboardOf(c, s + [e], limit), Recorded(c, DashboardOf(c, s, limit), e, limit);
    assert d'.events == r.events by { CappedStep(c, Human, s, e, limit); }
    assert d'.security == r.security by { CappedStep(c, Security, s, e, 12); }
    assert d'.external == r.external by { CappedStep(c, External, s, e, 8); }
    assert d'.mistakes == r.mistakes by { CappedStep(c, Mistakes, s, e, 8); }
  }

  lemma MonitorStep(c: Classifier, s: seq<Event>, e: Event, limit: nat)
    ensures var d', r := DashboardOf(c, s + [e], limit), Recorded(c, DashboardOf(c, s, limit), e, limit);
            d'.monitorCount == r.monitorCount && d'.last == r.last
  {
    CountStep(c, Monitor, s, e);
  }

  lemma MonitorOkStep(c: Classifier, s: seq<Event>, e: Event, limit: nat)
    ensures var d', r := DashboardOf(c, s + [e], limit), Recorded(c, DashboardOf(c, s, limit), e, limit);
            d'.monitorOk == r.monitorOk && d'.lastOk == r.lastOk
  {
    CountStep(c, MonitorOk, s, e);
  }

  lemma MonitorFailedStep(c: Classifier, s: seq<Event>, e: Event, limit: nat)
    ensures var d', r := DashboardOf(c, s + [e], limit), Recorded(c, DashboardOf(c, s, limit), e, limit);
            d'.monitorFailed == r.monitorFailed && d'.lastFailed == r.lastFailed
  {
    CountStep(c, MonitorFailed, s, e);
  }

  lemma DashboardStep(c: Classifier, s: seq<Event>, e: Event, limit: nat)
    ensures DashboardOf(c, s + [e], limit) == Recorded(c, DashboardOf(c, s, limit), e, limit)
  {
    ListsStep(c, s, e, limit);
    MonitorStep(c, s, e, limit);
    MonitorOkStep(c, s, e, limit);
    MonitorFailedStep(c, s, e, limit);
  }

  lemma EmptyDashboard(c: Classifier, recent: seq<Event>, limit: nat)
    ensures DashboardOf(c, recent[..0], limit) == Dashboard([], [], [], [], 0, 0, 0, None, None, None)
  {
    assert recent[..0] == [];
  }

  lemma DashboardGoesOn(c: Classifier, recent: seq<Event>, i: nat, limit: nat)
    requires i < |recent|
    ensures DashboardOf(c, recent[..i + 1], limit) == Recorded(c, DashboardOf(c, recent[..i], limit), recent[i], limit)
  {
    assert recent[..i + 1] == recent[..i] + [recent[i]];
    DashboardStep(c, recent[..i], recent[i], limit);
  }

  /** The body of the dashboard loop, with its early exits. */
  method Record(c: Classifier, before: Dashboard, e: Event, limit: nat) returns (d: Dashboard)
    ensures d == Recorded(c, before, e, limit)
  {
    d := before;
    if c.monitor(e) {
      d := d.(monitorCount := d.monitorCount + 1, last := if Unset(d.last) then Some(e) else d.last);
      if c.security(e) {
        d := d.(monitorFailed := d.monitorFailed + 1,
               lastFailed := if Unset(d.lastFailed) then Some(e) else d.lastFailed);
      } else {
        d := d.(monitorOk := d.monitorOk + 1, lastOk := if Unset(d.lastOk) then Some(e) else d.lastOk);
      }
      return;
    }
    if c.maintenance(e) {
      return;
    }
    if c.security(e) {
      if |d.security| < 12 {
        d := d.(security := d.security + [e]);
      }
      if c.localOrAdmin(e) {
        if |d.mistakes| < 8 {
          d := d.(mistakes := d.mistakes + [e]);
        }
      } else if |d.external| < 8 {
        d := d.(external := d.external + [e]);
      }
    }
    if |d.events| < limit {
      d := d.(events := d.events + [e]);
    }
  }

  /** activityDashboard: one pass over at most 2,000 recent events. */
  method ActivityDashboard(store: Store, c: Classifier, limit: int, after: int) returns (d: Dashboard)
    requires store.Valid()
    ensures d == DashboardOf(c, Newest(Last(store.history, store.limit), SCAN_LIMIT, after),
                             if limit <= 0 || limit > 200 then 80 else limit)
  {
    var limit := if limit <= 0 || limit > 200 then 80 else limit;
    d := Dashboard([], [], [], [], 0, 0, 0, None, None, None);
    var recent := store.Recent(SCAN_LIMIT, after);
    EmptyDashboard(c, recent, limit);
    var i := 0;
    while i < |recent|
      invariant 0 <= i <= |recent|
      invariant d == DashboardOf(c, recent[..i], limit)
    {
      DashboardGoesOn(c, recent, i, limit);
      d := Record(c, d, recent[i], limit);
      i := i + 1;
    }
    assert recent[..i] == recent;
  }

  /** Recent is the newest-first filter of the window, cut to its limit. */
  lemma {:induction false} RecentIsNewestFirst(c: Classifier, s: seq<Event>, limit: nat, id: int)
    ensures Newest(s, limit, id) == First(Reverse(Filter(c, After(id), s)), limit)
    decreases |s|
  {
    if s != [] && limit > 0 {
      var front, e := s[..|s| - 1], s[|s| - 1];
      var f := Filter(c, After(id), front);
      if Selects(c, After(id), e) {
        RecentIsNewestFirst(c, front, limit - 1, id);
        ReverseSnoc(f, e);
        assert First([e] + Reverse(f), limit) == [e] + First(Reverse(f), limit - 1);
      } else {
        RecentIsNewestFirst(c, front, limit, id);
        assert f + [] == f;
      }
    }
  }

  lemma ReverseSnoc(s: seq<Event>, e: Event)
    ensures Reverse(s + [e]) == [e] + Reverse(s)
  {
    assert (s + [e])[..|s|] == s;
  }

  lemma {:induction false} FilterCons(c: Classifier, sel: Selection, e: Event, s: seq<Event>)
    ensures Filter(c, sel, [e] + s) == (if Selects(c, sel, e) then [e] else []) + Filter(c, sel, s)
    decreases |s|
  {
    if s == [] {
      assert [e] + s == [] + [e];
      FilterSnoc(c, sel, [], e);
    } else {
      var front, last := s[..|s| - 1], s[|s| - 1];
      FilterCons(c, sel, e, front);
      FilterSnoc(c, sel, [e] + front, last);
      assert ([e] + front) + [last] == [e] + s;
    }
  }

  lemma {:induction false} FilterOfReverse(c: Classifier, sel: Selection, s: seq<Event>)
    ensures Filter(c, sel, Reverse(s)) == Reverse(Filter(c, sel, s))
    decreases |s|
  {
    if s != [] {
      var front, e := s[..|s| - 1], s[|s| - 1];
      FilterOfReverse(c, sel, front);
      FilterCons(c, sel, e, Reverse(front));
      var f := Filter(c, sel, front);
      ReverseSnoc(f, e);
      assert f + [] == f;
    }
  }

  lemma {:induction false} FilterTwice(c: Classifier, p: Selection, q: Selection, s: seq<Event>)
    ensures Filter(c, q, Filter(c, p, s)) == Filter(c, Both(p, q), s)
    decreases |s|
  {
    if s != [] {
      var front, e := s[..|s| - 1], s[|s| - 1];
      FilterTwice(c, p, q, front);
      var f := Filter(c, p, front);
      FilterSnoc(c, q, f, e);
      assert f + [] == f;
      assert Filter(c, q, f) + [] == Filter(c, q, f);
    }
  }

  lemma {:induction false} FilterSwap(c: Classifier, p: Selection, q: Selection, s: seq<Event>)
    ensures Filter(c, Both(p, q), s) == Filter(c, Both(q, p), s)
    decreases |s|
  {
    if s != [] {
      FilterSwap(c, p, q, s[..|s| - 1]);
    }
  }

  lemma {:induction false} FilterShortens(c: Classifier, sel: Selection, s: seq<Event>)
    ensures |Filter(c, sel, s)| <= |s|
    decreases |s|
  {
    if s != [] {
      FilterShortens(c, sel, s[..|s| - 1]);
    }
  }

  /** Monitor and maintenance traffic cannot hide human events: for a window of at most 2,000 events the
      dashboard's event list depends only on the window's human events, and is the newest `limit` of
      those after the given id. */
  lemma DashboardShowsHumanEvents(c: Classifier, window: seq<Event>, limit: nat, after: int)
    requires |window| <= SCAN_LIMIT
    ensures DashboardOf(c, Newest(window, SCAN_LIMIT, after), limit).events
            == First(Reverse(Filter(c, After(after), Filter(c, Human, window))), limit)
  {
    var recent := Filter(c, After(after), window);
    RecentIsNewestFirst(c, window, SCAN_LIMIT, after);
    FilterShortens(c, After(after), window);
    FilterOfReverse(c, Human, recent);
    FilterTwice(c, After(after), Human, window);
    FilterSwap(c, After(after), Human, window);
    FilterTwice(c, Human, After(after), window);
  }

  lemma MonitorTrafficHidesNothing(c: Classifier, window: seq<Event>, noisy: seq<Event>, limit: nat, after: int)
    requires |window| <= SCAN_LIMIT && |noisy| <= SCAN_LIMIT
    requires Filter(c, Human, window) == Filter(c, Human, noisy)
    ensures DashboardOf(c, Newest(window, SCAN_LIMIT, after), limit).events
            == DashboardOf(c, Newest(noisy, SCAN_LIMIT, after), limit).events
  {
    DashboardShowsHumanEvents(c, window, limit, after);
    DashboardShowsHumanEvents(c, noisy, limit, after);
  }

  // ---------------------------------------------------------------- what the other lists and counters say

  /** The positions of the events that a test holds of. */
  function Positions(s: seq<Event>, test: Event -> bool): set<nat> {
    set i: nat | i < |s| && test(s[i])
  }

  lemma {:induction false} FilterCounts(c: Classifier, sel: Selection, s: seq<Event>, test: Event -> bool)
    requires forall e :: Selects(c, sel, e) <==> test(e)
    ensures |Filter(c, sel, s)| == |Positions(s, test)|
    ensures forall e :: e in Filter(c, sel, s) <==> e in s && test(e)
    decreases |s|
  {
    if s != [] {
      var front, e := s[..|s| - 1], s[|s| - 1];
      FilterCounts(c, sel, front, test);
      AllButLast(s);
      PositionsNext(front, e, test);
      assert Selects(c, sel, e) <==> test(e);
    }
  }

  lemma PositionsNext(s: seq<Event>, e: Event, test: Event -> bool)
    ensures |Positions(s + [e], test)| == |Positions(s, test)| + if test(e) then 1 else 0
    ensures forall x :: x in s + [e] <==> x in s || x == e
  {
    assert Positions(s + [e], test) == Positions(s, test) + if test(e) then {|s|} else {};
  }

  lemma PositionsSplit(s: seq<Event>, test: Event -> bool, good: Event -> bool, bad: Event -> bool)
    requires forall e :: (test(e) <==> good(e) || bad(e)) && !(good(e) && bad(e))
    ensures |Positions(s, test)| == |Positions(s, good)| + |Positions(s, bad)|
  {
    assert Positions(s, test) == Positions(s, good) + Positions(s, bad);
  }

  /** A list shows events that a test holds of, and no others, as many as fit. */
  ghost predicate Shows(list: seq<Event>, recent: seq<Event>, test: Event -> bool, cap: nat) {
    && |list| == (if |Positions(recent, test)| <= cap then |Positions(recent, test)| else cap)
    && (forall e | e in list :: e in recent && test(e))
    && (|Positions(recent, test)| <= cap ==> forall e | e in recent && test(e) :: e in list)
  }

  lemma CutShows(c: Classifier, sel: Selection, recent: seq<Event>, test: Event -> bool, cap: nat)
    requires forall e :: Selects(c, sel, e) <==> test(e)
    ensures Shows(First(Filter(c, sel, recent), cap), recent, test, cap)
  {
    FilterCounts(c, sel, recent, test);
  }

  /** The security list shows what people did that concerns security; the external and the mistakes list are the
      parts of it by strangers, and by local users and administrators. */
  lemma SecurityIsSplit(c: Classifier, recent: seq<Event>, limit: nat)
    ensures var d := DashboardOf(c, recent, limit);
            var mine := (e: Event) => !c.monitor(e) && !c.maintenance(e) && c.security(e);
            && Shows(d.security, recent, mine, 12)
            && Shows(d.external, recent, (e: Event) => mine(e) && !c.localOrAdmin(e), 8)
            && Shows(d.mistakes, recent, (e: Event) => mine(e) && c.localOrAdmin(e), 8)
  {
    var mine := (e: Event) => !c.monitor(e) && !c.maintenance(e) && c.security(e);
    CutShows(c, Security, recent, mine, 12);
    CutShows(c, External, recent, (e: Event) => mine(e) && !c.localOrAdmin(e), 8);
    CutShows(c, Mistakes, recent, (e: Event) => mine(e) && c.localOrAdmin(e), 8);
  }

  /** Every monitor event is counted once, as good or as bad. */
  lemma MonitorIsCounted(c: Classifier, recent: seq<Event>, limit: nat)
    ensures var d := DashboardOf(c, recent, limit);
            && d.monitorCount == |Positions(recent, c.monitor)| == d.monitorOk + d.monitorFailed
            && d.monitorFailed == |Positions(recent, (e: Event) => c.monitor(e) && c.security(e))|
  {
    var bad, good := (e: Event) => c.monitor(e) && c.security(e), (e: Event) => c.monitor(e) && !c.security(e);
    FilterCounts(c, Monitor, recent, c.monitor);
    FilterCounts(c, MonitorOk, recent, good);
    FilterCounts(c, MonitorFailed, recent, bad);
    PositionsSplit(recent, c.monitor, good, bad);
  }
}
