/** Suppression of repeated read errors in internal/ftpserver/server.go (logReadError, for the errors it
    classifies as noise). A key is the remote host and the kind of error; times are as in RateLimit. */
module ReadNoise {
  import opened Common

  const INTERVAL := 10 * MINUTE
  const HOUR := 60 * MINUTE
  const CAPACITY := 1000

  datatype Event = Event(count: nat, last: int, nextLog: int)

  /** What one call logs: nothing, the first error of a key, or how many were suppressed. */
  datatype Line = Nothing | First | Suppressed(n: nat)

  type State = map<string, Event>
  datatype Error = Error(key: string, now: int)

  function Evicted(s: State, now: int): State {
    if |s| > CAPACITY then map k | k in s && !(now - s[k].last > HOUR) :: s[k] else s
  }

  /** The event of the key with this error counted in. */
  function Counted(s: State, e: Error): Event {
    var event := if e.key in s then s[e.key] else Event(0, 0, 0);
    Event(event.count + 1, e.now, if event.nextLog == 0 then e.now + INTERVAL else event.nextLog)
  }

  function Step(s: State, e: Error): (State, Line) {
    var event := Counted(s, e);
    var rest := Evicted(s, e.now);
    if event.count == 1 then (rest[e.key := event], First)
    else if e.now >= event.nextLog then (rest[e.key := Event(1, e.now, e.now + INTERVAL)], Suppressed(event.count - 1))
    else (rest[e.key := event], Nothing)
  }

  class Noise {
    var events: State

    constructor ()
      ensures events == map[]
    {
      events := map[];
    }

    method LogReadError(key: string, now: int) returns (line: Line)
      modifies this
      ensures (events, line) == Step(old(events), Error(key, now))
    {
      var event := if key in events then events[key] else Event(0, 0, 0);
      event := event.(count := event.count + 1, last := now);
      if event.nextLog == 0 {
        event := event.(nextLog := now + INTERVAL);
      }
      if |events| > CAPACITY {
        Evict(now);
      }
      if event.count == 1 {
        events := events[key := event];
        return First;
      }
      if now >= event.nextLog {
        var suppressed := event.count - 1;
        event := event.(count := 1, nextLog := now + INTERVAL);
        events := events[key := event];
        return Suppressed(suppressed);
      }
      events := events[key := event];
      return Nothing;
    }

    method Evict(now: int)
      modifies this
      ensures events == map k | k in old(events) && !(now - old(events)[k].last > HOUR) :: old(events)[k]
    {
      var rest := events.Keys;
      while rest != {}
        invariant rest <= old(events).Keys
        invariant events == map k | k in old(events) && (k in rest || !(now - old(events)[k].last > HOUR)) ::
                          old(events)[k]
        decreases rest
      {
        var k :| k in rest;
        if now - events[k].last > HOUR {
          events := events - {k};
        }
        rest := rest - {k};
      }
    }
  }

  // ---------------------------------------------------------------- runs

  function Run(errors: seq<Error>): State {
    if errors == [] then map[] else Step(Run(errors[..|errors| - 1]), errors[|errors| - 1]).0
  }

  function LineAt(errors: seq<Error>, i: nat): Line
    requires i < |errors|
  {
    Step(Run(errors[..i]), errors[i]).1
  }

  predicate Timed(errors: seq<Error>) {
    && (forall i | 0 <= i < |errors| :: 0 < errors[i].now)
    && (forall i, j | 0 <= i < j < |errors| :: errors[i].now <= errors[j].now)
  }

  function Clock(errors: seq<Error>): int {
    if errors == [] then 0 else errors[|errors| - 1].now
  }

  /** The books of one key: `seen` and `reported` since its entry was created, and over the whole run the
      errors, the first lines, the reported suppressed errors and the pending ones lost with an evicted
      entry. */
  datatype Ledger = Ledger(seen: nat, reported: nat, total: nat, firsts: nat, allReported: nat, lost: nat)

  function Pending(s: State, key: string): int {
    if key in s then s[key].count - 1 else 0
  }

  function Books(errors: seq<Error>, key: string): Ledger
    decreases |errors|
  {
    if errors == [] then Ledger(0, 0, 0, 0, 0, 0)
    else
      var n := |errors| - 1;
      Booked(Books(errors[..n], key), Run(errors[..n]), errors[n], key)
  }

  function Booked(b: Ledger, s: State, e: Error, key: string): Ledger {
    var (s', line) := Step(s, e);
    if e.key == key then
      match line
      case Nothing => b.(seen := b.seen + 1, total := b.total + 1)
      case First => Ledger(1, 0, b.total + 1, b.firsts + 1, b.allReported, b.lost)
      case Suppressed(k) => Ledger(b.seen + 1, b.reported + k, b.total + 1, b.firsts, b.allReported + k, b.lost)
    else if key in s && key !in s' then
      Ledger(0, 0, b.total, b.firsts, b.allReported, b.lost + if Pending(s, key) > 0 then Pending(s, key) else 0)
    else b
  }

  predicate Balanced(b: Ledger, s: State, key: string) {
    && (key in s ==> 1 <= s[key].count && b.seen == 1 + b.reported + (s[key].count - 1))
    && b.total == b.firsts + b.allReported + Pending(s, key) + b.lost
  }

  lemma BookedStaysBalanced(b: Ledger, s: State, e: Error, key: string)
    requires Balanced(b, s, key) && 0 < e.now
    ensures Balanced(Booked(b, s, e, key), Step(s, e).0, key)
  {}

  /** Nothing is miscounted: since a key's entry was created, the errors seen are one plus the reported
      suppressed counts plus those pending; and over any run with evictions every error of a key was a
      first line, was reported as suppressed, is pending, or was lost with an evicted entry. */
  lemma {:induction false} EveryErrorIsAccountedFor(errors: seq<Error>, key: string)
    requires Timed(errors)
    ensures Balanced(Books(errors, key), Run(errors), key)
    decreases |errors|
  {
    if errors != [] {
      var n := |errors| - 1;
      EveryErrorIsAccountedFor(errors[..n], key);
      BookedStaysBalanced(Books(errors[..n], key), Run(errors[..n]), errors[n], key);
    }
  }

  // ---------------------------------------------------------------- spacing of the log lines

  /** The times at which a line for the key was logged. */
  function LineTimes(errors: seq<Error>, key: string): seq<int>
    decreases |errors|
  {
    if errors == [] then []
    else
      var n := |errors| - 1;
      LineTimes(errors[..n], key) + if errors[n].key == key && LineAt(errors, n) != Nothing then [errors[n].now] else []
  }

  ghost predicate Spaced(times: seq<int>) {
    forall i, j | 0 <= i < j < |times| :: times[j] - times[i] >= INTERVAL
  }

  lemma OneMoreSpaced(times: seq<int>, t: int)
    requires Spaced(times) && (times != [] ==> t - times[|times| - 1] >= INTERVAL)
    ensures Spaced(times + [t])
  {
    forall i | 0 <= i < |times|
      ensures t - times[i] >= INTERVAL
    {
      if i < |times| - 1 {
        assert times[|times| - 1] - times[i] >= INTERVAL;
      }
    }
  }

  /** An entry knows when its key was last logged; a key without one was last logged over an hour ago. */
  ghost predicate KnowsLastLine(s: State, key: string, times: seq<int>, clock: int) {
    && (key in s ==> times != [] && s[key].nextLog == times[|times| - 1] + INTERVAL
                     && times[|times| - 1] <= s[key].last <= clock && 1 <= s[key].count)
    && (key !in s && times != [] ==> clock - times[|times| - 1] > HOUR)
    && (times != [] ==> 0 < times[|times| - 1])
  }

  lemma StepKeepsLastLine(s: State, e: Error, key: string, times: seq<int>, clock: int)
    requires KnowsLastLine(s, key, times, clock) && 0 < e.now && clock <= e.now
    ensures var (s', line) := Step(s, e);
            var times' := times + if e.key == key && line != Nothing then [e.now] else [];
            && KnowsLastLine(s', key, times', e.now)
            && (e.key == key && line != Nothing && times != [] ==> e.now - times[|times| - 1] >= INTERVAL)
  {}

  lemma {:induction false} LinesAreSpaced(errors: seq<Error>, key: string)
    requires Timed(errors)
    ensures Spaced(LineTimes(errors, key))
    ensures KnowsLastLine(Run(errors), key, LineTimes(errors, key), Clock(errors))
    decreases |errors|
  {
    if errors != [] {
      var n := |errors| - 1;
      var times := LineTimes(errors[..n], key);
      LinesAreSpaced(errors[..n], key);
      StepKeepsLastLine(Run(errors[..n]), errors[n], key, times, Clock(errors[..n]));
      if errors[n].key == key && LineAt(errors, n) != Nothing {
        OneMoreSpaced(times, errors[n].now);
      } else {
        assert times + [] == times;
      }
    }
  }

  /** An error is logged exactly when it is the first of its key or ten minutes have passed since the key's last
      line, whatever came between: nothing is suppressed for longer. */
  lemma LineIsLoggedIff(errors: seq<Error>, i: nat)
    requires Timed(errors) && i < |errors|
    ensures var times := LineTimes(errors[..i], errors[i].key);
            LineAt(errors, i) != Nothing <==> times == [] || errors[i].now - times[|times| - 1] >= INTERVAL
  {
    var before, e := errors[..i], errors[i];
    LinesAreSpaced(before, e.key);
    LoggedIff(Run(before), e, LineTimes(before, e.key), Clock(before));
  }

  lemma LoggedIff(s: State, e: Error, times: seq<int>, clock: int)
    requires KnowsLastLine(s, e.key, times, clock) && 0 < e.now && clock <= e.now
    ensures Step(s, e).1 != Nothing <==> times == [] || e.now - times[|times| - 1] >= INTERVAL
  {}
}
