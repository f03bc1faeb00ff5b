/** The login limiter of internal/ratelimit/ratelimit.go.

    Times are integers on one non-decreasing clock; 0 is Go's zero time, so every clock reading is
    positive. The class holds the fields the Go struct holds and updates them in place; each method is
    proved equal to one step of the specification functions above it, and the theorems are about runs
    of those steps. */
module RateLimit {
  import Common

  datatype Entry = Entry(failures: nat, firstFailed: int, lockedUntil: int, lastSeen: int)

  datatype Config = Config(limit: int, window: int, lockout: int) {
    predicate Valid() { limit > 0 && window > 0 && lockout > 0 }
  }

  datatype State = State(entries: map<string, Entry>, lastTrim: int)

  datatype Op = Allow(key: string, now: int) | Fail(key: string, now: int) | Reset(key: string)

  const NEVER := Entry(0, 0, 0, 0)
  const EMPTY := State(map[], 0)

  // ---------------------------------------------------------------- specification of one step

  function Lookup(s: State, key: string): Entry {
    if key in s.entries then s.entries[key] else NEVER
  }

  predicate Stale(c: Config, e: Entry, now: int) {
    now - e.lastSeen > c.window + c.lockout
  }

  function Trim(c: Config, s: State, now: int): State {
    if now - s.lastTrim < Common.MINUTE then s
    else State(map k | k in s.entries && !Stale(c, s.entries[k], now) :: s.entries[k], now)
  }

  function Failed(c: Config, e: Entry, now: int): Entry {
    var e := if e.firstFailed == 0 || now - e.firstFailed > c.window then Entry(0, now, 0, 0) else e;
    Entry(e.failures + 1, e.firstFailed, if e.failures + 1 >= c.limit then now + c.lockout else e.lockedUntil, now)
  }

  /** One call. `trimming` false is the limiter that never forgets an entry. The answer is that of
      Allow, and true for the two calls that answer nothing. */
  function Step(c: Config, s: State, op: Op, trimming: bool): (State, bool) {
    match op
    case Allow(key, now) =>
      var s := if trimming then Trim(c, s, now) else s;
      var e := Lookup(s, key);
      if now > e.lockedUntil then (s, true)
      else (s.(entries := s.entries[key := e.(lastSeen := now)]), false)
    case Fail(key, now) =>
      var s := if trimming then Trim(c, s, now) else s;
      (s.(entries := s.entries[key := Failed(c, Lookup(s, key), now)]), true)
    case Reset(key) =>
      (s.(entries := s.entries - {key}), true)
  }

  function Run(c: Config, s: State, ops: seq<Op>, trimming: bool): (State, seq<bool>)
    decreases |ops|
  {
    if ops == [] then (s, [])
    else
      var (s', answers) := Run(c, s, ops[..|ops| - 1], trimming);
      var (s'', answer) := Step(c, s', ops[|ops| - 1], trimming);
      (s'', answers + [answer])
  }

  // ---------------------------------------------------------------- the limiter itself

  class Limiter {
    const config: Config
    var entries: map<string, Entry>
    var lastTrim: int

    ghost predicate Valid() { config.Valid() }

    ghost function Model(): State reads this { State(entries, lastTrim) }

    constructor (limit: int, window: int, lockout: int)
      ensures Valid() && Model() == EMPTY
      ensures config.limit == (if limit <= 0 then 5 else limit)
      ensures config.window == (if window <= 0 then 10 * Common.MINUTE else window)
      ensures config.lockout == (if lockout <= 0 then 5 * Common.MINUTE else lockout)
    {
      config := Config(if limit <= 0 then 5 else limit,
                       if window <= 0 then 10 * Common.MINUTE else window,
                       if lockout <= 0 then 5 * Common.MINUTE else lockout);
      entries, lastTrim := map[], 0;
    }

    method AllowKey(key: string, now: int) returns (ok: bool)
      modifies this
      ensures (Model(), ok) == Step(config, old(Model()), Allow(key, now), true)
    {
      TrimLocked(now);
      var e := if key in entries then entries[key] else NEVER;
      if now > e.lockedUntil {
        return true;
      }
      entries := entries[key := e.(lastSeen := now)];
      return false;
    }

    method FailKey(key: string, now: int)
      modifies this
      ensures (Model(), true) == Step(config, old(Model()), Fail(key, now), true)
    {
      TrimLocked(now);
      var e := if key in entries then entries[key] else NEVER;
      if e.firstFailed == 0 || now - e.firstFailed > config.window {
        e := Entry(0, now, 0, 0);
      }
      e := e.(failures := e.failures + 1);
      e := e.(lastSeen := now);
      if e.failures >= config.limit {
        e := e.(lockedUntil := now + config.lockout);
      }
      entries := entries[key := e];
    }

    method ResetKey(key: string)
      modifies this
      ensures (Model(), true) == Step(config, old(Model()), Reset(key), true)
    {
      entries := entries - {key};
    }

    method TrimLocked(now: int)
      modifies this
      ensures Model() == Trim(config, old(Model()), now)
    {
      if now - lastTrim < Common.MINUTE {
        return;
      }
      var rest := entries.Keys;
      while rest != {}
        invariant rest <= old(entries).Keys
        invariant lastTrim == old(lastTrim)
        invariant entries == map k | k in old(entries) && (k in rest || !Stale(config, old(entries)[k], now))
                                 :: old(entries)[k]
        decreases rest
      {
        var key :| key in rest;
        if now - entries[key].lastSeen > config.window + config.lockout {
          entries := entries - {key};
        }
        rest := rest - {key};
      }
      lastTrim := now;
    }
  }

  // ---------------------------------------------------------------- runs on one clock

  function TimeOf(op: Op, before: int): int {
    if op.Reset? then before else op.now
  }

  /** The last clock reading of the run. */
  function Clock(ops: seq<Op>): int {
    if ops == [] then 0 else TimeOf(ops[|ops| - 1], Clock(ops[..|ops| - 1]))
  }

  /** Clock readings are positive and never go back. */
  predicate Timed(ops: seq<Op>) {
    ops == [] ||
    (Timed(ops[..|ops| - 1]) &&
     (ops[|ops| - 1].Reset? || (0 < ops[|ops| - 1].now && Clock(ops[..|ops| - 1]) <= ops[|ops| - 1].now)))
  }

  predicate EntryOk(c: Config, e: Entry, now: int) {
    && 0 < e.firstFailed <= e.lastSeen <= now
    && e.lockedUntil <= e.lastSeen + c.lockout
    && 0 < e.failures
  }

  /** In every run, with or without trimming, each entry was seen no earlier than its first failure and
      its lock ends at most one lockout after it was last seen. */
  lemma {:induction false} EntriesStayOk(c: Config, ops: seq<Op>, trimming: bool)
    requires c.Valid() && Timed(ops)
    ensures forall k | k in Run(c, EMPTY, ops, trimming).0.entries ::
              EntryOk(c, Run(c, EMPTY, ops, trimming).0.entries[k], Clock(ops))
  {
    if ops != [] {
      EntriesStayOk(c, ops[..|ops| - 1], trimming);
    }
  }

  /** What a trimmed limiter remembers of an untrimmed one: everything but stale entries. */
  ghost predicate Forgets(c: Config, trimmed: State, full: State, now: int) {
    && (forall k | k in trimmed.entries :: k in full.entries && trimmed.entries[k] == full.entries[k])
    && (forall k | k in full.entries && k !in trimmed.entries :: Stale(c, full.entries[k], now))
  }

  /** Trimming is invisible: over every run at non-decreasing times the limiter that deletes stale
      entries gives the answers of the one that keeps them all. */
  lemma {:induction false} TrimmingIsInvisible(c: Config, ops: seq<Op>)
    requires c.Valid() && Timed(ops)
    ensures Run(c, EMPTY, ops, true).1 == Run(c, EMPTY, ops, false).1
    ensures Forgets(c, Run(c, EMPTY, ops, true).0, Run(c, EMPTY, ops, false).0, Clock(ops))
  {
    if ops != [] {
      var front, op := ops[..|ops| - 1], ops[|ops| - 1];
      TrimmingIsInvisible(c, front);
      EntriesStayOk(c, front, false);
      StepKeepsForgets(c, Run(c, EMPTY, front, true).0, Run(c, EMPTY, front, false).0, op, Clock(front));
    }
  }

  lemma StepKeepsForgets(c: Config, trimmed: State, full: State, op: Op, before: int)
    requires c.Valid() && Forgets(c, trimmed, full, before)
    requires forall k | k in full.entries :: EntryOk(c, full.entries[k], before)
    requires !op.Reset? ==> 0 < op.now && before <= op.now
    ensures Step(c, trimmed, op, true).1 == Step(c, full, op, false).1
    ensures Forgets(c, Step(c, trimmed, op, true).0, Step(c, full, op, false).0, TimeOf(op, before))
  {
    if !op.Reset? {
      var t := Trim(c, trimmed, op.now);
      assert Forgets(c, t, full, op.now);
      if op.key in full.entries && op.key !in t.entries {
        assert Stale(c, full.entries[op.key], op.now);
      }
    }
  }

  // ---------------------------------------------------------------- how many failures fit in one window

  /** The failures of one key, grouped by the calls alone: a group starts with a failure more than one
      window after the start of the group before it, or with the first failure after a Reset. */
  datatype Epochs = Epochs(closed: seq<seq<int>>, current: seq<int>)

  function FailureEpochs(c: Config, ops: seq<Op>, key: string): Epochs
    decreases |ops|
  {
    if ops == [] then Epochs([], [])
    else
      var e := FailureEpochs(c, ops[..|ops| - 1], key);
      match ops[|ops| - 1]
      case Fail(k, now) =>
        if k != key then e
        else if e.current == [] || now - e.current[0] > c.window then Epochs(e.closed + [e.current], [now])
        else e.(current := e.current + [now])
      case Reset(k) => if k != key then e else Epochs(e.closed + [e.current], [])
      case Allow(_, _) => e
  }

  /** Whether the key has been allowed since its last failure. */
  predicate Granted(ops: seq<Op>, answers: seq<bool>, key: string)
    requires |ops| == |answers|
    decreases |ops|
  {
    ops != [] &&
    var n := |ops| - 1;
    if ops[n].Allow? && ops[n].key == key && answers[n] then true
    else if ops[n].Fail? && ops[n].key == key then false
    else Granted(ops[..n], answers[..n], key)
  }

  /** The callers' discipline: a failure is recorded only for an attempt that was allowed. */
  predicate Disciplined(ops: seq<Op>, answers: seq<bool>, key: string)
    requires |ops| == |answers|
    decreases |ops|
  {
    ops == [] ||
    var n := |ops| - 1;
    && Disciplined(ops[..n], answers[..n], key)
    && (ops[n].Fail? && ops[n].key == key ==> Granted(ops[..n], answers[..n], key))
  }

  lemma {:induction false} RunLength(c: Config, s: State, ops: seq<Op>, trimming: bool)
    ensures |Run(c, s, ops, trimming).1| == |ops|
  {
    if ops != [] {
      RunLength(c, s, ops[..|ops| - 1], trimming);
    }
  }

  /** What the entry of a key says about its current epoch, in the limiter that forgets nothing. */
  ghost predicate EntryCounts(c: Config, s: State, key: string, current: seq<int>) {
    && (key in s.entries <==> current != [])
    && (current != [] ==>
          var e := s.entries[key];
          e.firstFailed == current[0] && e.failures == |current| && 0 < current[0] <= current[|current| - 1])
  }

  /** Once the limit is reached, each further failure of the epoch waited for the lockout to pass. */
  ghost predicate Spaced(c: Config, s: State, key: string, current: seq<int>)
    requires c.Valid()
  {
    |current| >= c.limit ==>
      && key in s.entries
      && s.entries[key].lockedUntil == current[|current| - 1] + c.lockout
      && current[0] + (|current| - c.limit) * (c.lockout + 1) <= current[|current| - 1] <= current[0] + c.window
  }

  /** The entry's counter is the length of the current epoch, whatever the callers do. */
  lemma {:induction false} EntryCountsItsEpoch(c: Config, ops: seq<Op>, key: string)
    requires c.Valid() && Timed(ops)
    ensures EntryCounts(c, Run(c, EMPTY, ops, false).0, key, FailureEpochs(c, ops, key).current)
    ensures var cur := FailureEpochs(c, ops, key).current; cur != [] ==> cur[|cur| - 1] <= Clock(ops)
  {
    if ops != [] {
      EntryCountsItsEpoch(c, ops[..|ops| - 1], key);
      EntriesStayOk(c, ops[..|ops| - 1], false);
    }
  }

  predicate EpochFits(c: Config, epoch: seq<int>)
    requires c.Valid()
  {
    |epoch| <= c.limit + c.window / (c.lockout + 1)
  }

  lemma SpacedFits(c: Config, s: State, key: string, current: seq<int>)
    requires c.Valid() && Spaced(c, s, key, current)
    ensures EpochFits(c, current)
  {
    if |current| > c.limit {
      DivLower(c.window, c.lockout + 1, |current| - c.limit);
    }
  }

  /** A granted key is past its lock, and stays past it until its next failure. */
  lemma {:induction false} GrantedIsUnlocked(c: Config, ops: seq<Op>, key: string)
    requires c.Valid() && Timed(ops)
    requires |Run(c, EMPTY, ops, false).1| == |ops|
    requires Granted(ops, Run(c, EMPTY, ops, false).1, key)
    ensures Lookup(Run(c, EMPTY, ops, false).0, key).lockedUntil < Clock(ops)
  {
    var n := |ops| - 1;
    RunLength(c, EMPTY, ops[..n], false);
    var answers := Run(c, EMPTY, ops, false).1;
    assert answers[..n] == Run(c, EMPTY, ops[..n], false).1;
    EntriesStayOk(c, ops[..n], false);
    if !(ops[n].Allow? && ops[n].key == key && answers[n]) {
      GrantedIsUnlocked(c, ops[..n], key);
    }
  }

  lemma {:induction false} EpochsFit(c: Config, ops: seq<Op>, key: string)
    requires c.Valid() && Timed(ops)
    requires |Run(c, EMPTY, ops, false).1| == |ops|
    requires Disciplined(ops, Run(c, EMPTY, ops, false).1, key)
    ensures Spaced(c, Run(c, EMPTY, ops, false).0, key, FailureEpochs(c, ops, key).current)
    ensures forall g | g in FailureEpochs(c, ops, key).closed :: EpochFits(c, g)
  {
    if ops != [] {
      var n := |ops| - 1;
      var front, op := ops[..n], ops[n];
      RunLength(c, EMPTY, front, false);
      var answers := Run(c, EMPTY, ops, false).1;
      assert answers[..n] == Run(c, EMPTY, front, false).1;
      EpochsFit(c, front, key);
      EntryCountsItsEpoch(c, front, key);
      SpacedFits(c, Run(c, EMPTY, front, false).0, key, FailureEpochs(c, front, key).current);
      if op.Fail? && op.key == key {
        GrantedIsUnlocked(c, front, key);
        FailStaysSpaced(c, Run(c, EMPTY, front, false).0, key, FailureEpochs(c, front, key).current, op.now);
      }
    }
  }

  lemma FailStaysSpaced(c: Config, s: State, key: string, current: seq<int>, now: int)
    requires c.Valid() && EntryCounts(c, s, key, current) && Spaced(c, s, key, current)
    requires 0 < now && Lookup(s, key).lockedUntil < now && (current != [] ==> current[|current| - 1] <= now)
    ensures var s' := Step(c, s, Fail(key, now), false).0;
            if current == [] || now - current[0] > c.window then Spaced(c, s', key, [now])
            else Spaced(c, s', key, current + [now])
  {
    if current != [] && now - current[0] <= c.window && |current| >= c.limit {
      var j := |current| - c.limit;
      assert (j + 1) * (c.lockout + 1) == j * (c.lockout + 1) + (c.lockout + 1);
    }
  }

  function CeilDiv(a: int, b: int): int
    requires b > 0
  {
    (a + b - 1) / b
  }

  lemma CeilDivBound(w: int, l: int)
    requires w > 0 && l > 0
    ensures w / (l + 1) <= CeilDiv(w, l) - 1
  {
    var q := w / (l + 1);
    assert w == q * (l + 1) + w % (l + 1);
    assert q * (l + 1) == q * l + q;
    if q == 0 {
      assert w + l - 1 >= l;
      assert (w + l - 1) / l >= 1;
    } else {
      assert w + l - 1 >= q * l + l;
      assert q * l + l == (q + 1) * l;
      DivLower(w + l - 1, l, q + 1);
    }
  }

  lemma DivLower(a: int, b: int, q: int)
    requires b > 0 && a >= q * b
    ensures a / b >= q
  {
    var d := a / b;
    assert a < (d + 1) * b;
    if d + 1 <= q {
      Common.MulMonotone(d + 1, q, b);
    }
  }

  /** The bound: over every run of the limiter at non-decreasing times in which failures are recorded
      only for allowed attempts, no window epoch of a key holds more than
      limit - 1 + ceil(window / lockout) failures. */
  lemma FailuresPerEpochAreBounded(c: Config, ops: seq<Op>, key: string)
    requires c.Valid() && Timed(ops)
    requires |Run(c, EMPTY, ops, true).1| == |ops|
    requires Disciplined(ops, Run(c, EMPTY, ops, true).1, key)
    ensures var e := FailureEpochs(c, ops, key);
            forall g | g in e.closed + [e.current] :: |g| <= c.limit - 1 + CeilDiv(c.window, c.lockout)
  {
    TrimmingIsInvisible(c, ops);
    EpochsFit(c, ops, key);
    SpacedFits(c, Run(c, EMPTY, ops, false).0, key, FailureEpochs(c, ops, key).current);
    CeilDivBound(c.window, c.lockout);
    var e := FailureEpochs(c, ops, key);
    forall g | g in e.closed + [e.current]
      ensures |g| <= c.limit - 1 + CeilDiv(c.window, c.lockout)
    {
      assert EpochFits(c, g);
    }
  }

  /** The epochs counted above are the limiter's own: the trimmed limiter's entry for a key, when it
      still has one, started with the current epoch and counts exactly its failures; when it has none,
      the key's current epoch is empty or already over. */
  lemma EpochsAreTheLimitersOwn(c: Config, ops: seq<Op>, key: string)
    requires c.Valid() && Timed(ops)
    ensures var s, cur := Run(c, EMPTY, ops, true).0, FailureEpochs(c, ops, key).current;
            if key in s.entries
            then cur != [] && s.entries[key].firstFailed == cur[0] && s.entries[key].failures == |cur|
            else cur == [] || Clock(ops) - cur[0] > c.window
  {
    TrimmingIsInvisible(c, ops);
    EntryCountsItsEpoch(c, ops, key);
    EntriesStayOk(c, ops, false);
  }

  lemma {:induction false} TimedPrefix(ops: seq<Op>, i: nat)
    requires Timed(ops) && i <= |ops|
    ensures Timed(ops[..i])
    decreases |ops|
  {
    if i == |ops| {
      assert ops[..i] == ops;
    } else {
      TimedPrefix(ops[..|ops| - 1], i);
      assert ops[..|ops| - 1][..i] == ops[..i];
    }
  }

  predicate NoReset(ops: seq<Op>, key: string, i: nat, j: nat)
    requires i <= j <= |ops|
  {
    forall k | i <= k < j :: ops[k] != Reset(key)
  }

  /** While a key is not reset, its epoch either goes on or has been followed by one that started more than a
      window later. */
  lemma {:induction false} LaterEpoch(c: Config, ops: seq<Op>, key: string, i: nat, j: nat)
    requires c.Valid() && i <= j <= |ops| && NoReset(ops, key, i, j)
    requires FailureEpochs(c, ops[..i], key).current != []
    ensures var first, later := FailureEpochs(c, ops[..i], key).current, FailureEpochs(c, ops[..j], key).current;
            later != [] && (later[0] == first[0] || later[0] - first[0] > c.window)
    decreases j
  {
    if i < j {
      LaterEpoch(c, ops, key, i, j - 1);
      assert ops[..j][..j - 1] == ops[..j - 1] && ops[..j][j - 1] == ops[j - 1];
    }
  }

  /** Epoch starts are more than a window apart without Reset: whenever the limiter's entry for a key has
      another first failure than it had earlier in the run, the two are more than a window apart, even if
      the entry was trimmed in between. */
  lemma EpochStartsAreApart(c: Config, ops: seq<Op>, key: string, i: nat, j: nat)
    requires c.Valid() && Timed(ops) && i < j <= |ops| && NoReset(ops, key, i, j)
    requires key in Run(c, EMPTY, ops[..i], true).0.entries && key in Run(c, EMPTY, ops[..j], true).0.entries
    ensures var before, after := Run(c, EMPTY, ops[..i], true).0.entries[key],
                                 Run(c, EMPTY, ops[..j], true).0.entries[key];
            after.firstFailed == before.firstFailed || after.firstFailed - before.firstFailed > c.window
  {
    TimedPrefix(ops, i);
    TimedPrefix(ops, j);
    EpochsAreTheLimitersOwn(c, ops[..i], key);
    EpochsAreTheLimitersOwn(c, ops[..j], key);
    LaterEpoch(c, ops, key, i, j);
  }

  // ---------------------------------------------------------------- which attempts are allowed

  /** When the lock ends that the failures of the current epoch have set; 0 when there is none. */
  function LockedUntil(c: Config, current: seq<int>): int
    requires c.Valid()
  {
    if |current| >= c.limit then current[|current| - 1] + c.lockout else 0
  }

  lemma {:induction false} EntryHoldsTheLock(c: Config, ops: seq<Op>, key: string)
    requires c.Valid() && Timed(ops)
    ensures Lookup(Run(c, EMPTY, ops, false).0, key).lockedUntil == LockedUntil(c, FailureEpochs(c, ops, key).current)
    decreases |ops|
  {
    if ops != [] {
      var front := ops[..|ops| - 1];
      EntryHoldsTheLock(c, front, key);
      EntryCountsItsEpoch(c, front, key);
      StepHoldsTheLock(c, Run(c, EMPTY, front, false).0, front, ops[|ops| - 1], key);
      assert ops == front + [ops[|ops| - 1]];
    }
  }

  lemma StepHoldsTheLock(c: Config, s: State, ops: seq<Op>, op: Op, key: string)
    requires c.Valid() && EntryCounts(c, s, key, FailureEpochs(c, ops, key).current)
    requires Lookup(s, key).lockedUntil == LockedUntil(c, FailureEpochs(c, ops, key).current)
    ensures Lookup(Step(c, s, op, false).0, key).lockedUntil
            == LockedUntil(c, FailureEpochs(c, ops + [op], key).current)
  {
    assert (ops + [op])[..|ops|] == ops;
  }

  /** The answer to every attempt, by the calls alone: it is allowed exactly when the failures since the current
      epoch began are fewer than the limit, or the last of them is more than a lockout ago. */
  lemma AttemptIsAllowedIff(c: Config, ops: seq<Op>, key: string, now: int)
    requires c.Valid() && Timed(ops + [Allow(key, now)])
    ensures |Run(c, EMPTY, ops + [Allow(key, now)], true).1| == |ops| + 1
    ensures Run(c, EMPTY, ops + [Allow(key, now)], true).1[|ops|]
            <==> var current := FailureEpochs(c, ops, key).current;
                 |current| < c.limit || now > current[|current| - 1] + c.lockout
  {
    var all := ops + [Allow(key, now)];
    assert all[..|ops|] == ops;
    TrimmingIsInvisible(c, all);
    EntryHoldsTheLock(c, ops, key);
    RunLength(c, EMPTY, ops, false);
  }

  // ---------------------------------------------------------------- what is remembered

  /** What was not seen for a window and a lockout was not kept at the last trimming. */
  ghost predicate TrimmedSince(c: Config, s: State, now: int) {
    && s.lastTrim <= now
    && forall k | k in s.entries :: s.entries[k].lastSeen >= s.lastTrim - (c.window + c.lockout)
  }

  lemma {:induction false} RunsAreTrimmed(c: Config, ops: seq<Op>)
    requires c.Valid() && Timed(ops)
    ensures TrimmedSince(c, Run(c, EMPTY, ops, true).0, Clock(ops))
    decreases |ops|
  {
    if ops != [] {
      RunsAreTrimmed(c, ops[..|ops| - 1]);
    }
  }

  /** The table does not grow without bound: after every attempt and every failure, each entry has been seen
      within a window, a lockout and a minute. */
  lemma EntriesAreRecent(c: Config, ops: seq<Op>)
    requires c.Valid() && Timed(ops) && ops != [] && !ops[|ops| - 1].Reset?
    ensures forall k | k in Run(c, EMPTY, ops, true).0.entries ::
              Clock(ops) - Run(c, EMPTY, ops, true).0.entries[k].lastSeen < c.window + c.lockout + Common.MINUTE
  {
    RunsAreTrimmed(c, ops);
    assert Clock(ops) - Run(c, EMPTY, ops, true).0.lastTrim < Common.MINUTE;
  }

  // ---------------------------------------------------------------- how long a lock holds

  /** A failure of the key that starts a new entry: it was recorded more than a window after the first
      failure, for an attempt that was allowed before the lock. */
  predicate IsLate(c: Config, e: Entry, op: Op, key: string) {
    op.Fail? && op.key == key && op.now - e.firstFailed > c.window
  }

  /** The calls are made, in order of time, while the lock of the entry lasts. */
  predicate DuringLock(e: Entry, ops: seq<Op>) {
    && (forall i | 0 <= i < |ops| && !ops[i].Reset? :: e.lastSeen <= ops[i].now <= e.lockedUntil)
    && (forall i, j | 0 <= i < j < |ops| && !ops[i].Reset? && !ops[j].Reset? :: ops[i].now <= ops[j].now)
  }

  /** The key is not reset, and no failure of it is late; with a limit of one, late failures do no harm. */
  predicate KeepsLock(c: Config, e: Entry, ops: seq<Op>, key: string) {
    forall i | 0 <= i < |ops| :: ops[i] != Reset(key) && (c.limit > 1 ==> !IsLate(c, e, ops[i], key))
  }

  /** What a locked entry becomes while its lock is kept. */
  predicate StillLocked(c: Config, e: Entry, s: State, key: string) {
    && key in s.entries
    && e.lockedUntil <= s.entries[key].lockedUntil <= s.entries[key].lastSeen + c.lockout
    && e.lastSeen <= s.entries[key].lastSeen
    && 0 < s.entries[key].firstFailed
    && (c.limit > 1 ==> s.entries[key].firstFailed == e.firstFailed)
  }

  lemma StepKeepsLock(c: Config, e: Entry, s: State, op: Op, key: string, trimming: bool)
    requires c.Valid() && EntryOk(c, e, e.lastSeen) && StillLocked(c, e, s, key)
    requires op != Reset(key) && (c.limit > 1 ==> !IsLate(c, e, op, key))
    requires !op.Reset? ==> op.now <= e.lockedUntil && (op.key == key ==> s.entries[key].lastSeen <= op.now)
    ensures StillLocked(c, e, Step(c, s, op, trimming).0, key)
    ensures op.Allow? && op.key == key ==> !Step(c, s, op, trimming).1
    ensures !op.Reset? ==>
              Step(c, s, op, trimming).0.entries[key].lastSeen ==
              if op.key == key then op.now else s.entries[key].lastSeen
    ensures op.Reset? ==> Step(c, s, op, trimming).0.entries[key] == s.entries[key]
  {
    if !op.Reset? {
      assert !Stale(c, s.entries[key], op.now);
    }
  }

  predicate SeenBy(s: State, key: string, seen: int, ops: seq<Op>) {
    key in s.entries && (s.entries[key].lastSeen == seen
      || exists i :: 0 <= i < |ops| && !ops[i].Reset? && ops[i].now == s.entries[key].lastSeen)
  }

  /** A locked key is refused until its lockout has passed, whatever is trimmed, whatever the other keys do,
      and however it fails within its window, which can only prolong the lock: only a Reset or a late failure
      of the key itself can end it. */
  lemma {:induction false} LockedKeyIsRefused(c: Config, s: State, ops: seq<Op>, key: string, trimming: bool)
    requires c.Valid() && key in s.entries && EntryOk(c, s.entries[key], s.entries[key].lastSeen)
    requires DuringLock(s.entries[key], ops) && KeepsLock(c, s.entries[key], ops, key)
    ensures |Run(c, s, ops, trimming).1| == |ops|
    ensures forall i | 0 <= i < |ops| && ops[i].Allow? && ops[i].key == key :: !Run(c, s, ops, trimming).1[i]
    ensures StillLocked(c, s.entries[key], Run(c, s, ops, trimming).0, key)
    ensures SeenBy(Run(c, s, ops, trimming).0, key, s.entries[key].lastSeen, ops)
    decreases |ops|
  {
    if ops != [] {
      var n := |ops| - 1;
      var front, op := ops[..n], ops[n];
      var e, mid := s.entries[key], Run(c, s, front, trimming).0;
      LockedKeyIsRefused(c, s, front, key, trimming);
      forall i | 0 <= i < n
        ensures front[i] == ops[i]
      {}
      StepKeepsLock(c, e, mid, op, key, trimming);
      SeenLater(c, mid, Run(c, s, ops, trimming).0, key, e.lastSeen, ops);
    }
  }

  lemma SeenLater(c: Config, mid: State, s: State, key: string, seen: int, ops: seq<Op>)
    requires ops != [] && SeenBy(mid, key, seen, ops[..|ops| - 1]) && key in s.entries
    requires s.entries[key].lastSeen == mid.entries[key].lastSeen
             || (!ops[|ops| - 1].Reset? && s.entries[key].lastSeen == ops[|ops| - 1].now)
    ensures SeenBy(s, key, seen, ops)
  {
    if s.entries[key].lastSeen != seen && s.entries[key].lastSeen == mid.entries[key].lastSeen {
      var i :| 0 <= i < |ops| - 1 && !ops[..|ops| - 1][i].Reset?
               && ops[..|ops| - 1][i].now == mid.entries[key].lastSeen;
      assert ops[i].now == s.entries[key].lastSeen;
    }
  }

  /** The condition is exact: after such calls, a failure of the key lets the next attempt through during the
      lock exactly when the limit is above one and the failure is late. */
  lemma LateFailureLiftsLockIff(c: Config, s: State, ops: seq<Op>, key: string, now: int, next: int, trimming: bool)
    requires c.Valid() && key in s.entries && EntryOk(c, s.entries[key], s.entries[key].lastSeen)
    requires KeepsLock(c, s.entries[key], ops, key)
    requires DuringLock(s.entries[key], ops + [Fail(key, now), Allow(key, next)])
    ensures var all := ops + [Fail(key, now), Allow(key, next)];
            && |Run(c, s, all, trimming).1| == |all|
            && (Run(c, s, all, trimming).1[|all| - 1] <==>
                c.limit > 1 && now - s.entries[key].firstFailed > c.window)
  {
    var e, some, all := s.entries[key], ops + [Fail(key, now)], ops + [Fail(key, now), Allow(key, next)];
    assert all[..|ops|] == ops && all[..|all| - 1] == some && some[..|ops|] == ops;
    assert all[|ops|] == Fail(key, now) && all[|ops| + 1] == Allow(key, next);
    forall i | 0 <= i < |ops|
      ensures ops[i] == all[i]
    {}
    LockedKeyIsRefused(c, s, ops, key, trimming);
    var mid := Run(c, s, ops, trimming).0;
    assert mid.entries[key].lastSeen <= now by { SeenIsEarlier(mid, key, e, ops, now, all); }
    FailThenAllow(c, e, mid, key, now, next, trimming);
  }

  lemma SeenIsEarlier(mid: State, key: string, e: Entry, ops: seq<Op>, now: int, all: seq<Op>)
    requires SeenBy(mid, key, e.lastSeen, ops) && DuringLock(e, all) && |ops| < |all| && all[..|ops|] == ops
    requires !all[|ops|].Reset? && all[|ops|].now == now
    ensures mid.entries[key].lastSeen <= now
  {
    if mid.entries[key].lastSeen != e.lastSeen {
      var i :| 0 <= i < |ops| && !ops[i].Reset? && ops[i].now == mid.entries[key].lastSeen;
      assert all[i] == ops[i];
    }
  }

  lemma FailThenAllow(c: Config, e: Entry, s: State, key: string, now: int, next: int, trimming: bool)
    requires c.Valid() && EntryOk(c, e, e.lastSeen) && StillLocked(c, e, s, key)
    requires s.entries[key].lastSeen <= now <= next <= e.lockedUntil
    ensures var failed := Step(c, s, Fail(key, now), trimming).0;
            Step(c, failed, Allow(key, next), trimming).1 <==> c.limit > 1 && now - e.firstFailed > c.window
  {
    assert !Stale(c, s.entries[key], now);
    var failed := Step(c, s, Fail(key, now), trimming).0;
    assert failed.entries[key] == Failed(c, s.entries[key], now);
    assert !Stale(c, failed.entries[key], next);
  }

  /** The call op, appended to a run that ends in the state `before`, ends in `after`. */
  lemma RunGoesOn(c: Config, ops: seq<Op>, op: Op, before: State, after: State, answer: bool)
    requires Timed(ops) && !op.Reset? && 0 < op.now && Clock(ops) <= op.now
    requires Run(c, EMPTY, ops, true).0 == before && Step(c, before, op, true) == (after, answer)
    ensures Timed(ops + [op]) && Clock(ops + [op]) == op.now
    ensures Run(c, EMPTY, ops + [op], true) == (after, Run(c, EMPTY, ops, true).1 + [answer])
  {
    assert (ops + [op])[..|ops|] == ops;
  }

  function Locking(key: string): seq<Op> {
    [Allow(key, 5)] + [Allow(key, 6)] + [Allow(key, 7)] + [Fail(key, 10)] + [Fail(key, 100)]
  }

  const TWO_FAILURES := Config(2, 100, 50)

  lemma LockingLocks(key: string)
    ensures Timed(Locking(key)) && Clock(Locking(key)) == 100
    ensures Run(TWO_FAILURES, EMPTY, Locking(key), true).0 == State(map[key := Entry(2, 10, 150, 100)], 0)
  {
    var c, a := TWO_FAILURES, [Allow(key, 5)];
    var b := a + [Allow(key, 6)];
    var d := b + [Allow(key, 7)];
    assert [] + a == a;
    RunGoesOn(c, [], Allow(key, 5), EMPTY, EMPTY, true);
    RunGoesOn(c, a, Allow(key, 6), EMPTY, EMPTY, true);
    RunGoesOn(c, b, Allow(key, 7), EMPTY, EMPTY, true);
    var one, two := State(map[key := Entry(1, 10, 0, 10)], 0), State(map[key := Entry(2, 10, 150, 100)], 0);
    assert Step(c, EMPTY, Fail(key, 10), true).0.entries == one.entries;
    RunGoesOn(c, d, Fail(key, 10), EMPTY, one, true);
    assert Step(c, one, Fail(key, 100), true).0.entries == two.entries;
    RunGoesOn(c, d + [Fail(key, 10)], Fail(key, 100), one, two, true);
  }

  /** Such a failure exists: with a limit of two, a window of 100 and a lockout of 50, an attempt allowed
      before the lock and recorded as failed at 111 opens a key that was locked until 150. */
  lemma LateFailureLiftsLock(key: string)
    ensures Run(TWO_FAILURES, EMPTY, Locking(key), true).0.entries == map[key := Entry(2, 10, 150, 100)]
    ensures var late := Locking(key) + [Fail(key, 111)] + [Allow(key, 112)];
            Timed(late) && |Run(TWO_FAILURES, EMPTY, late, true).1| == |late|
            && Run(TWO_FAILURES, EMPTY, late, true).1[6]
  {
    var c, ops := TWO_FAILURES, Locking(key);
    var two, three := State(map[key := Entry(2, 10, 150, 100)], 0), State(map[key := Entry(1, 111, 0, 111)], 0);
    LockingLocks(key);
    assert Step(c, two, Fail(key, 111), true).0.entries == three.entries;
    RunGoesOn(c, ops, Fail(key, 111), two, three, true);
    RunGoesOn(c, ops + [Fail(key, 111)], Allow(key, 112), three, three, true);
    RunLength(c, EMPTY, ops, true);
  }
}
