/** Data-channel set-up of one FTP session in internal/ftpserver/server.go: the passive listener, the
    active address, the data connection, and the ledger of port mappings made and released for them.

    A mapping is an abstract event; whether listening, accepting, dialling and handshakes succeed is
    chosen by the environment. The handler's data connection is a field, because a session runs one
    command at a time. */
module PassivePorts {
  import opened Common

  datatype Event = Mapped(port: int) | Unmapped(port: int)

  /** A data connection: accepted on a passive port that its Close releases, or any other. */
  datatype Conn = PassiveConn(port: int) | PlainConn

  datatype State = State(passive: Option<int>, passivePort: int, activeAddr: Option<string>, conn: Option<Conn>,
                         log: seq<Event>)

  const IDLE := State(None, 0, None, None, [])

  // ---------------------------------------------------------------- steps

  datatype Step =
    | EnterPassive(listened: Option<int>)  // PASV or EPSV; None when no port could be listened on
    | EnterActive(addr: string)            // PORT or EPRT with an accepted argument
    | OpenData(connected: bool)
    | Handshake(ok: bool)                  // protectDataConn on a private data channel
    | CloseConn                            // the handler's deferred Close
    | CloseDataSetup
    | CloseSession

  /** The session is single-threaded: while a handler has a data connection nothing else runs.
      Ports that can be listened on are positive. */
  predicate Enabled(s: State, step: Step) {
    match step
    case EnterPassive(listened) => s.conn.None? && (listened.Some? ==> listened.value > 0)
    case EnterActive(_) => s.conn.None?
    case OpenData(_) => s.conn.None?
    case Handshake(_) => s.conn.Some?
    case CloseConn => s.conn.Some?
    case CloseDataSetup => s.conn.None?
    case CloseSession => s.conn.None?
  }

  function ClosePassive(s: State): State {
    s.(passive := None, passivePort := 0, log := if s.passivePort > 0 then s.log + [Unmapped(s.passivePort)] else s.log)
  }

  function Apply(s: State, step: Step): State {
    match step
    case EnterPassive(listened) =>
      var s := ClosePassive(s);
      if listened.None? then s
      else s.(log := s.log + [Mapped(listened.value)], passive := listened, passivePort := listened.value,
              activeAddr := None)
    case EnterActive(addr) => ClosePassive(s).(activeAddr := Some(addr))
    case OpenData(connected) =>
      if s.passive.Some? then
        var port := s.passivePort;
        var s := s.(passive := None, passivePort := 0);
        if connected then s.(conn := Some(if port > 0 then PassiveConn(port) else PlainConn))
        else if port > 0 then s.(log := s.log + [Unmapped(port)]) else s
      else if s.activeAddr.Some? then s.(activeAddr := None, conn := if connected then Some(PlainConn) else None)
      else s
    case Handshake(ok) => if ok then s else s.(conn := None)
    case CloseConn =>
      if s.conn.Some? && s.conn.value.PassiveConn? then s.(conn := None, log := s.log + [Unmapped(s.conn.value.port)])
      else s.(conn := None)
    case CloseDataSetup => ClosePassive(s).(activeAddr := None)
    case CloseSession => ClosePassive(s)
  }

  // ---------------------------------------------------------------- the session

  class Session {
    var passive: Option<int>
    var passivePort: int
    var activeAddr: Option<string>
    var conn: Option<Conn>
    ghost var log: seq<Event>

    ghost function Model(): State reads this { State(passive, passivePort, activeAddr, conn, log) }

    constructor ()
      ensures Model() == IDLE
    {
      passive, passivePort, activeAddr, conn, log := None, 0, None, None, [];
    }

    method ReleasePassivePort(port: int)
      modifies `log
      ensures log == old(log) + [Unmapped(port)]
    {
      log := log + [Unmapped(port)];
    }

    method CloseListener()
      modifies this
      ensures Model() == ClosePassive(old(Model()))
    {
      if passive.Some? {
        passive := None;
      }
      if passivePort > 0 {
        var port := passivePort;
        passivePort := 0;
        ReleasePassivePort(port);
      } else {
        passivePort := 0;
      }
    }

    method EnterPassiveMode(server: PortPool, busy: set<int>, ephemeral: Option<int>) returns (listened: Option<int>)
      requires server.Valid() && server != this as object
      modifies this, server
      ensures server.Valid()
      ensures Model() == Apply(old(Model()), EnterPassive(listened))
    {
      CloseListener();
      listened := server.ListenPassive(busy, ephemeral);
      if listened.None? {
        return;
      }
      log := log + [Mapped(listened.value)];
      passive := listened;
      passivePort := listened.value;
      activeAddr := None;
    }

    method EnterActiveMode(addr: string)
      modifies this
      ensures Model() == Apply(old(Model()), EnterActive(addr))
    {
      CloseListener();
      activeAddr := Some(addr);
    }

    method Open(connected: bool)
      requires conn.None?
      modifies this
      ensures Model() == Apply(old(Model()), OpenData(connected))
    {
      if passive.Some? {
        var port := passivePort;
        passive := None;
        passivePort := 0;
        if !connected {
          if port > 0 {
            ReleasePassivePort(port);
          }
          return;
        }
        if port > 0 {
          conn := Some(PassiveConn(port));
          return;
        }
        conn := Some(PlainConn);
        return;
      }
      if activeAddr.Some? {
        activeAddr := None;
        if connected {
          conn := Some(PlainConn);
        }
        return;
      }
    }

    method CloseData()
      requires conn.Some?
      modifies this
      ensures Model() == Apply(old(Model()), CloseConn)
    {
      var c := conn.value;
      conn := None;
      if c.PassiveConn? {
        ReleasePassivePort(c.port);
      }
    }

    method CloseSetup()
      modifies this
      ensures Model() == Apply(old(Model()), CloseDataSetup)
    {
      CloseListener();
      activeAddr := None;
    }
  }

  /** The configured ports and where the next search starts. */
  class PortPool {
    const ports: seq<int>
    var nextPort: nat

    ghost predicate Valid() reads this {
      && (forall i | 0 <= i < |ports| :: ports[i] > 0)
      && (ports != [] ==> nextPort < |ports|)
    }

    constructor (ports: seq<int>)
      requires forall i | 0 <= i < |ports| :: ports[i] > 0
      ensures Valid() && this.ports == ports
    {
      this.ports, nextPort := ports, 0;
    }

    /** Tries every configured port once, starting after the last one handed out; with no configured
        ports the system picks one. */
    method ListenPassive(busy: set<int>, ephemeral: Option<int>) returns (port: Option<int>)
      requires Valid()
      modifies this
      ensures Valid() && (port.Some? ==> port.value > 0)
      ensures ports == [] ==> nextPort == old(nextPort) && (ephemeral.None? ==> port.None?)
      ensures ports != [] ==>
                match FirstFree(ports, busy, old(nextPort), 0)
                case None => port.None? && nextPort == old(nextPort)
                case Some(idx) => port == Some(ports[idx]) && nextPort == (idx + 1) % |ports|
    {
      if |ports| == 0 {
        return if ephemeral.Some? && ephemeral.value > 0 then ephemeral else None;
      }
      var i := 0;
      while i < |ports|
        invariant 0 <= i <= |ports|
        invariant FirstFree(ports, busy, nextPort, i) == FirstFree(ports, busy, nextPort, 0)
        invariant nextPort == old(nextPort)
      {
        var idx := Place(nextPort, i, |ports|);
        if ports[idx] !in busy {
          nextPort := (idx + 1) % |ports|;
          return Some(ports[idx]);
        }
        i := i + 1;
      }
      return None;
    }
  }

  function Place(start: nat, j: nat, n: nat): (r: nat)
    requires n > 0
    ensures r < n
  {
    (start + j) % n
  }

  /** The first port that can be listened on, going around from `start`, the first i places known busy. */
  function FirstFree(ports: seq<int>, busy: set<int>, start: nat, i: nat): (r: Option<nat>)
    requires ports != [] && i <= |ports|
    ensures r.Some? ==> r.value < |ports|
    decreases |ports| - i
  {
    if i == |ports| then None
    else if ports[Place(start, i, |ports|)] !in busy then Some(Place(start, i, |ports|))
    else FirstFree(ports, busy, start, i + 1)
  }

  lemma {:induction false} FirstFreeIsFree(ports: seq<int>, busy: set<int>, start: nat, i: nat)
    requires ports != [] && i <= |ports|
    ensures var r := FirstFree(ports, busy, start, i); r.Some? ==> ports[r.value] !in busy
    decreases |ports| - i
  {
    if i < |ports| {
      FirstFreeIsFree(ports, busy, start, i + 1);
    }
  }

  lemma {:induction false} FirstFreeMissesNone(ports: seq<int>, busy: set<int>, start: nat, i: nat, j: nat)
    requires ports != [] && i <= j < |ports| && FirstFree(ports, busy, start, i).None?
    ensures ports[Place(start, j, |ports|)] in busy
    decreases |ports| - i
  {
    if i < j {
      FirstFreeMissesNone(ports, busy, start, i + 1, j);
    }
  }

  lemma ModOfShift(k: nat, n: nat)
    requires k < n
    ensures (k + n) % n == k
  {
    var d := (k + n) / n;
    assert k + n == d * n + (k + n) % n;
    if d <= 0 {
      MulMonotone(d, 0, n);
    } else if d >= 2 {
      MulMonotone(2, d, n);
    }
  }

  lemma RotationReaches(start: nat, k: nat, n: nat) returns (j: nat)
    requires start < n && k < n
    ensures j < n && Place(start, j, n) == k
  {
    j := if k >= start then k - start else k + n - start;
    if k < start {
      ModOfShift(k, n);
    }
  }

  /** The search fails exactly when every configured port is busy, and otherwise finds a free one. */
  lemma ListenFailsIffAllBusy(ports: seq<int>, busy: set<int>, start: nat)
    requires ports != [] && start < |ports|
    ensures FirstFree(ports, busy, start, 0).None? <==> forall k | 0 <= k < |ports| :: ports[k] in busy
    ensures var r := FirstFree(ports, busy, start, 0); r.Some? ==> ports[r.value] !in busy
  {
    FirstFreeIsFree(ports, busy, start, 0);
    if FirstFree(ports, busy, start, 0).None? {
      forall k | 0 <= k < |ports|
        ensures ports[k] in busy
      {
        var j := RotationReaches(start, k, |ports|);
        FirstFreeMissesNone(ports, busy, start, 0, j);
      }
    }
  }

  lemma {:induction false} NextRotation(ports: seq<int>, busy: set<int>, start: nat, idx: nat, i: nat)
    requires idx < |ports| && i < |ports| && start == (idx + 1) % |ports|
    requires FirstFree(ports, busy, start, i) == Some(idx)
    ensures forall j | i <= j < |ports| - 1 :: ports[Place(start, j, |ports|)] in busy
    decreases |ports| - i
  {
    if i < |ports| - 1 {
      PlaceIsOther(idx, i, |ports|);
      NextRotation(ports, busy, start, idx, i + 1);
    }
  }

  /** Going around from the place after idx, idx comes last. */
  lemma PlaceIsOther(idx: nat, j: nat, n: nat)
    requires idx < n && j < n - 1
    ensures Place((idx + 1) % n, j, n) != idx
  {
    PlaceAfter(idx, n);
    PlaceSum((idx + 1) % n, j, n);
  }

  lemma PlaceSum(start: nat, j: nat, n: nat)
    requires start < n && j < n
    ensures Place(start, j, n) == if start + j < n then start + j else start + j - n
  {
    if start + j >= n {
      ModOfShift(start + j - n, n);
    }
  }

  lemma PlaceAfter(idx: nat, n: nat)
    requires idx < n
    ensures (idx + 1) % n == if idx + 1 == n then 0 else idx + 1
  {
    PlaceSum(0, 0, n);
    if idx + 1 == n {
      ModOfShift(0, n);
    }
  }

  /** Two searches, one after the other: the port just found is found again only if every other one is busy. */
  method ListenTwice(server: PortPool, busy: set<int>, later: set<int>)
    returns (first: Option<int>, second: Option<int>)
    requires server.Valid() && server.ports != []
    requires forall i, j | 0 <= i < j < |server.ports| :: server.ports[i] != server.ports[j]
    modifies server
    ensures server.Valid()
    ensures first.Some? ==> first.value in server.ports && first.value !in busy
    ensures first.Some? && second == first ==> forall p | p in server.ports && p != first.value :: p in later
  {
    var ports := server.ports;
    ListenFailsIffAllBusy(ports, busy, server.nextPort);
    ghost var found := FirstFree(ports, busy, server.nextPort, 0);
    first := server.ListenPassive(busy, None);
    ghost var start := server.nextPort;
    second := server.ListenPassive(later, None);
    if first.Some? && second == first {
      var idx := found.value;
      assert FirstFree(ports, later, start, 0) == Some(idx);
      NextRotation(ports, later, start, idx, 0);
      forall p | p in ports && p != first.value
        ensures p in later
      {
        var k :| 0 <= k < |ports| && ports[k] == p;
        var j := RotationReaches(start, k, |ports|);
        LastIsBefore(idx, |ports|);
      }
    }
  }

  lemma LastIsBefore(idx: nat, n: nat)
    requires idx < n
    ensures Place((idx + 1) % n, n - 1, n) == idx
  {
    PlaceAfter(idx, n);
    PlaceSum((idx + 1) % n, n - 1, n);
  }

  // ---------------------------------------------------------------- the ledger

  /** How many mappings of a port are not released. */
  function Outstanding(log: seq<Event>, port: int): int {
    if log == [] then 0
    else
      Outstanding(log[..|log| - 1], port)
      + match log[|log| - 1] case Mapped(p) => if p == port then 1 else 0
              case Unmapped(p) => if p == port then -1 else 0
  }

  function Count(held: bool): int { if held then 1 else 0 }

  /** What the session still owns: its listener's port and its passive data connection's. */
  function Owned(s: State, port: int): int {
    Count(s.passivePort > 0 && s.passivePort == port) + Count(s.conn == Some(PassiveConn(port)))
  }

  predicate Inv(s: State) {
    && (s.passive.Some? ==> s.activeAddr.None?)
    && (s.passive.Some? <==> s.passivePort > 0)
    && (s.passive.Some? ==> s.passive.value == s.passivePort)
    && (s.conn.Some? ==> s.passive.None?)
  }

  function Run(steps: seq<Step>): State {
    if steps == [] then IDLE else Apply(Run(steps[..|steps| - 1]), steps[|steps| - 1])
  }

  predicate IsRun(steps: seq<Step>)
    decreases |steps|
  {
    steps == [] || (IsRun(steps[..|steps| - 1]) && Enabled(Run(steps[..|steps| - 1]), steps[|steps| - 1]))
  }

  /** Ports whose data connection was dropped by a failed handshake. */
  function Leaked(steps: seq<Step>, port: int): nat
    decreases |steps|
  {
    if steps == [] then 0
    else
      var front, step := steps[..|steps| - 1], steps[|steps| - 1];
      Leaked(front, port) + Leaks(Run(front), step, port)
  }

  function Leaks(s: State, step: Step, port: int): nat {
    if step.Handshake? && !step.ok && s.conn == Some(PassiveConn(port)) then 1 else 0
  }

  lemma OutstandingAfter(log: seq<Event>, e: Event, port: int)
    ensures Outstanding(log + [e], port) ==
            Outstanding(log, port) + match e case Mapped(p) => Count(p == port) case Unmapped(p) => -Count(p == port)
  {
    assert (log + [e])[..|log|] == log;
  }

  lemma ClosePassiveOwes(s: State, port: int)
    ensures Outstanding(ClosePassive(s).log, port) ==
            Outstanding(s.log, port) - Count(s.passivePort > 0 && s.passivePort == port)
  {
    OutstandingAfter(s.log, Unmapped(s.passivePort), port);
  }

  predicate Balances(s: State, step: Step, port: int) {
    Outstanding(Apply(s, step).log, port) - Owned(Apply(s, step), port)
    == Outstanding(s.log, port) - Owned(s, port) + Leaks(s, step, port)
  }

  lemma SetUpBalances(s: State, step: Step, port: int)
    requires Inv(s) && Enabled(s, step)
    requires step.EnterPassive? || step.EnterActive? || step.CloseDataSetup? || step.CloseSession?
    ensures Balances(s, step, port)
  {
    ClosePassiveOwes(s, port);
    if step.EnterPassive? && step.listened.Some? {
      OutstandingAfter(ClosePassive(s).log, Mapped(step.listened.value), port);
    }
  }

  lemma OpenBalances(s: State, connected: bool, port: int)
    requires Inv(s) && s.conn.None?
    ensures Balances(s, OpenData(connected), port)
  {
    OutstandingAfter(s.log, Unmapped(s.passivePort), port);
  }

  lemma CloseBalances(s: State, port: int)
    requires Inv(s) && s.conn.Some?
    ensures Balances(s, CloseConn, port)
  {
    if s.conn.value.PassiveConn? {
      OutstandingAfter(s.log, Unmapped(s.conn.value.port), port);
    }
  }

  lemma TransferBalances(s: State, step: Step, port: int)
    requires Inv(s) && Enabled(s, step)
    requires step.OpenData? || step.Handshake? || step.CloseConn?
    ensures Balances(s, step, port)
  {
    match step
    case OpenData(connected) => OpenBalances(s, connected, port);
    case Handshake(_) =>
    case CloseConn => CloseBalances(s, port);
  }

  lemma StepBalances(s: State, step: Step, port: int)
    requires Inv(s) && Enabled(s, step)
    ensures Inv(Apply(s, step)) && Balances(s, step, port)
  {
    if step.OpenData? || step.Handshake? || step.CloseConn? {
      TransferBalances(s, step, port);
    } else {
      SetUpBalances(s, step, port);
    }
  }

  /** Over every command sequence a listener and an active address are never both set, and the mappings
      of a port not yet released are exactly those the session owns, plus one for each passive
      connection lost to a failed handshake. */
  lemma {:induction false} LedgerBalances(steps: seq<Step>, port: int)
    requires IsRun(steps)
    ensures Inv(Run(steps))
    ensures Outstanding(Run(steps).log, port) == Owned(Run(steps), port) + Leaked(steps, port)
    decreases |steps|
  {
    if steps != [] {
      LedgerBalances(steps[..|steps| - 1], port);
      StepBalances(Run(steps[..|steps| - 1]), steps[|steps| - 1], port);
    }
  }

  /** After the session closes, a port is outstanding once for each handshake that failed on it: without
      failed handshakes every mapping has been released. */
  lemma ClosedSessionOwesOnlyLeaks(steps: seq<Step>, port: int)
    requires IsRun(steps) && steps != [] && steps[|steps| - 1] == CloseSession
    ensures Outstanding(Run(steps).log, port) == Leaked(steps, port)
  {
    LedgerBalances(steps, port);
  }

  predicate NoFailedHandshake(steps: seq<Step>) {
    forall i | 0 <= i < |steps| :: steps[i] != Handshake(false)
  }

  lemma {:induction false} NothingLeaks(steps: seq<Step>, port: int)
    requires NoFailedHandshake(steps)
    ensures Leaked(steps, port) == 0
    decreases |steps|
  {
    if steps != [] {
      NothingLeaks(steps[..|steps| - 1], port);
    }
  }

  /** Without failed handshakes and without a data connection that is still open, closing what is set up
      leaves no port mapped, at any moment of any run. */
  lemma ClosingOwesNothing(steps: seq<Step>, port: int)
    requires IsRun(steps) && NoFailedHandshake(steps) && Run(steps).conn.None?
    ensures Outstanding(ClosePassive(Run(steps)).log, port) == 0
  {
    LedgerBalances(steps, port);
    ClosePassiveOwes(Run(steps), port);
    NothingLeaks(steps, port);
  }

  lemma ClosingReleasesNoMore(steps: seq<Step>, port: int)
    requires IsRun(steps)
    ensures Outstanding(ClosePassive(Run(steps)).log, port) >= 0
  {
    LedgerBalances(steps, port);
    ClosePassiveOwes(Run(steps), port);
  }

  /** One step appends at most one release of the listener's port and then one other event. */
  lemma LogGrows(s: State, step: Step)
    requires Inv(s) && Enabled(s, step)
    ensures var log := Apply(s, step).log;
            && |s.log| <= |log| <= |s.log| + 2 && log[..|s.log|] == s.log
            && (|log| == |s.log| + 2 ==> log[..|s.log| + 1] == ClosePassive(s).log)
  {}

  /** No port is released that is not mapped: no prefix of a run's ledger has more releases of a port
      than mappings. */
  lemma {:induction false} NeverReleasedTwice(steps: seq<Step>, port: int, n: nat)
    requires IsRun(steps) && n <= |Run(steps).log|
    ensures Outstanding(Run(steps).log[..n], port) >= 0
    decreases |steps|
  {
    if steps != [] {
      var front, step := steps[..|steps| - 1], steps[|steps| - 1];
      var log, log' := Run(front).log, Run(steps).log;
      LedgerBalances(front, port);
      LogGrows(Run(front), step);
      if n <= |log| {
        NeverReleasedTwice(front, port, n);
        assert log'[..n] == log[..n];
      } else if n == |log'| {
        LedgerBalances(steps, port);
        assert log'[..n] == log';
      } else {
        ClosingReleasesNoMore(front, port);
      }
    }
  }

  // ---------------------------------------------------------------- which set-up a transfer uses

  /** A set-up that was accepted: a port that is listened on, or an address to connect to. */
  predicate Offers(step: Step) { (step.EnterPassive? && step.listened.Some?) || step.EnterActive? }

  /** A later step makes an offer void: it replaces or uses it, or closes it. A failed PASV and the end of the
      session close a listener, but leave an address. */
  predicate Voids(step: Step, offer: Step) {
    || Offers(step) || step.OpenData? || step.CloseDataSetup?
    || (offer.EnterPassive? && (step.EnterPassive? || step.CloseSession?))
  }

  /** The offer at j stands before the step at i. */
  predicate Stands(steps: seq<Step>, j: nat, i: nat)
    requires i <= |steps|
  {
    j < i && Offers(steps[j]) && forall k | j < k < i :: !Voids(steps[k], steps[j])
  }

  lemma StandsNext(steps: seq<Step>, j: nat, i: nat)
    requires 0 < i <= |steps|
    ensures Stands(steps, j, i)
            <==> (j == i - 1 && Offers(steps[j])) || (Stands(steps, j, i - 1) && !Voids(steps[i - 1], steps[j]))
  {
    if Stands(steps, j, i - 1) && !Voids(steps[i - 1], steps[j]) {
      forall k | j < k < i
        ensures !Voids(steps[k], steps[j])
      {
        assert k == i - 1 || k < i - 1;
      }
    }
  }

  /** What the session has set up is this offer. */
  predicate Holds(s: State, offer: Step) {
    if offer.EnterPassive?
    then offer.listened.Some? && s.passive == offer.listened && s.passivePort == offer.listened.value
    else offer.EnterActive? && s.passive.None? && s.activeAddr == Some(offer.addr)
  }

  predicate HoldsNone(s: State) { s.passive.None? && s.activeAddr.None? }

  lemma StepKeepsOffer(s: State, step: Step, offer: Step)
    requires Inv(s) && Enabled(s, step) && Holds(s, offer)
    ensures Offers(step) ==> Holds(Apply(s, step), step)
    ensures !Voids(step, offer) ==> Holds(Apply(s, step), offer)
    ensures Voids(step, offer) && !Offers(step) ==> HoldsNone(Apply(s, step))
  {}

  lemma StepMakesOffer(s: State, step: Step)
    requires Inv(s) && Enabled(s, step) && HoldsNone(s)
    ensures if Offers(step) then Holds(Apply(s, step), step) else HoldsNone(Apply(s, step))
  {}

  /** In every run the session has set up the offer that stands, if there is one, and otherwise nothing. */
  lemma {:induction false} SetUpIsStandingOffer(steps: seq<Step>) returns (j: Option<nat>)
    requires IsRun(steps)
    ensures j.Some? ==> Stands(steps, j.value, |steps|) && Holds(Run(steps), steps[j.value])
    ensures j.None? ==> HoldsNone(Run(steps)) && forall k: nat :: !Stands(steps, k, |steps|)
    decreases |steps|
  {
    if steps == [] {
      return None;
    }
    var front, step := steps[..|steps| - 1], steps[|steps| - 1];
    LedgerBalances(front, 0);
    j := SetUpIsStandingOffer(front);
    StandsAfter(steps);
    if j.Some? {
      OneStands(front, j.value);
      StepKeepsOffer(Run(front), step, front[j.value]);
    } else {
      StepMakesOffer(Run(front), step);
    }
    if Offers(step) {
      j := Some(|front|);
    } else if j.Some? && Voids(step, front[j.value]) {
      j := None;
    }
  }

  lemma StandsAfter(steps: seq<Step>)
    requires steps != []
    ensures var front, step := steps[..|steps| - 1], steps[|steps| - 1];
            forall k: nat :: Stands(steps, k, |steps|)
                             <==> (k == |front| && Offers(step))
                                  || (Stands(front, k, |front|) && !Voids(step, front[k]))
  {
    var front := steps[..|steps| - 1];
    forall k: nat
      ensures Stands(steps, k, |steps|)
              <==> (k == |front| && Offers(steps[|front|]))
                   || (Stands(front, k, |front|) && !Voids(steps[|front|], front[k]))
    {
      StandsNext(steps, k, |steps|);
      StandsInFront(steps, k);
    }
  }

  lemma StandsInFront(steps: seq<Step>, k: nat)
    requires steps != []
    ensures Stands(steps, k, |steps| - 1) <==> Stands(steps[..|steps| - 1], k, |steps| - 1)
  {}

  /** No two offers stand together. */
  lemma OneStands(steps: seq<Step>, j: nat)
    requires Stands(steps, j, |steps|)
    ensures forall k: nat | Stands(steps, k, |steps|) :: k == j
  {}

  /** A transfer gets a data connection exactly when it connects and an offer stands; on a passive offer it is the
      connection that releases that port, and an address is the one it connects to. */
  lemma TransferUsesStandingOfferIff(steps: seq<Step>, connected: bool)
    requires IsRun(steps) && Run(steps).conn.None?
    ensures var conn := Apply(Run(steps), OpenData(connected)).conn;
            && (conn.Some? <==> connected && exists j: nat :: Stands(steps, j, |steps|))
            && (forall j: nat | Stands(steps, j, |steps|) && connected ::
                  conn == Some(if steps[j].EnterPassive? then PassiveConn(steps[j].listened.value) else PlainConn))
    ensures forall j: nat | Stands(steps, j, |steps|) && steps[j].EnterActive? ::
              Run(steps).activeAddr == Some(steps[j].addr)
  {
    LedgerBalances(steps, 0);
    var j := SetUpIsStandingOffer(steps);
    if j.Some? {
      OneStands(steps, j.value);
    }
  }
}
