/** The file transfers of internal/ftpserver/server.go: REST, STOR, APPE and RETR, after section 5 of
    RFC 3659 and section 4.1.3 of RFC 959. Uploads are staged and then put into place by the storage
    layer; the resolver's answer and what the data connection delivers are parameters. */
module FtpTransfer {
  import opened Bytes
  import opened Common
  import opened Retention
  import opened Text
  import opened Tree
  import Paths
  import Storage

  // ---------------------------------------------------------------- the offset of REST

  const MAX_INT64: int := 0x7fff_ffff_ffff_ffff

  predicate IsDigit(c: char) { '0' <= c <= '9' }

  function DigitsValue(s: string): nat
    requires forall c | c in s :: IsDigit(c)
  {
    if s == "" then 0
    else
      assert s[|s| - 1] in s && IsDigit(s[|s| - 1]);
      DigitsValue(s[..|s| - 1]) * 10 + (s[|s| - 1] as int - '0' as int)
  }

  /** strconv.ParseInt in base 10 for 64 bits. */
  function ParseInt(s: string): Option<int> {
    var signed := s != "" && (s[0] == '+' || s[0] == '-');
    var digits := if signed then s[1..] else s;
    if digits == "" || exists c | c in digits :: !IsDigit(c) then None
    else
      var v: int := if signed && s[0] == '-' then 0 - DigitsValue(digits) else DigitsValue(digits);
      if -MAX_INT64 - 1 <= v <= MAX_INT64 then Some(v) else None
  }

  /** The offset that an argument of REST asks for, if it is accepted. */
  function Offset(arg: string): Option<nat> {
    var v := ParseInt(TrimSpace(arg));
    if v.Some? && v.value >= 0 then Some(v.value) else None
  }

  // ---------------------------------------------------------------- which arguments ask for which offset

  function Digit(d: nat): (c: char)
    requires d < 10
    ensures IsDigit(c) && c as int - '0' as int == d
  {
    ('0' as int + d) as char
  }

  function Decimal(n: nat): (s: string)
    ensures s != ""
  {
    if n < 10 then [Digit(n)] else Decimal(n / 10) + [Digit(n % 10)]
  }

  predicate AllDigits(s: string) { forall i | 0 <= i < |s| :: IsDigit(s[i]) }

  lemma DigitsValueOfSnoc(s: string, c: char)
    requires AllDigits(s) && IsDigit(c)
    ensures AllDigits(s + [c]) && DigitsValue(s + [c]) == DigitsValue(s) * 10 + (c as int - '0' as int)
  {
    assert (s + [c])[..|s|] == s;
  }

  lemma {:induction false} DecimalIsDigits(n: nat)
    ensures AllDigits(Decimal(n)) && DigitsValue(Decimal(n)) == n
  {
    if n < 10 {
      assert [Digit(n)] == "" + [Digit(n)];
      DigitsValueOfSnoc("", Digit(n));
    } else {
      DecimalIsDigits(n / 10);
      DigitsValueOfSnoc(Decimal(n / 10), Digit(n % 10));
    }
  }

  function ZeroDigits(k: nat): (s: string)
    ensures |s| == k && AllDigits(s)
  {
    seq(k, _ => '0')
  }

  lemma {:induction false} LeadingZeros(k: nat, s: string)
    requires AllDigits(s)
    ensures AllDigits(ZeroDigits(k) + s) && DigitsValue(ZeroDigits(k) + s) == DigitsValue(s)
    decreases |s|, k
  {
    if s != "" {
      var n := |s| - 1;
      LeadingZeros(k, s[..n]);
      assert ZeroDigits(k) + s == (ZeroDigits(k) + s[..n]) + [s[n]] && s == s[..n] + [s[n]];
      DigitsValueOfSnoc(ZeroDigits(k) + s[..n], s[n]);
      DigitsValueOfSnoc(s[..n], s[n]);
    } else if k > 0 {
      LeadingZeros(k - 1, "");
      assert ZeroDigits(k) + "" == (ZeroDigits(k - 1) + "") + ['0'];
      DigitsValueOfSnoc(ZeroDigits(k - 1) + "", '0');
    }
  }

  /** Digits are the decimal form of their value, after some zeros. */
  lemma {:induction false} DigitsAreDecimal(s: string) returns (k: nat)
    requires s != "" && AllDigits(s)
    ensures s == ZeroDigits(k) + Decimal(DigitsValue(s))
    decreases |s|
  {
    var n := |s| - 1;
    assert s == s[..n] + [s[n]];
    DigitsValueOfSnoc(s[..n], s[n]);
    if n == 0 {
      k := 0;
      assert s == [s[0]] == Decimal(DigitsValue(s));
    } else {
      k := DigitsAreDecimal(s[..n]);
      if DigitsValue(s[..n]) == 0 {
        k := k + 1;
        assert s[..n] == ZeroDigits(k);
      }
    }
  }

  lemma DigitsParse(s: string)
    requires s != "" && AllDigits(s)
    ensures s[0] != '+' && s[0] != '-'
    ensures ParseInt(s) == if DigitsValue(s) <= MAX_INT64 then Some(DigitsValue(s)) else None
    ensures ParseInt("+" + s) == ParseInt(s)
    ensures ParseInt("-" + s) == if DigitsValue(s) <= MAX_INT64 + 1 then Some(0 - DigitsValue(s)) else None
  {
    assert IsDigit(s[0]);
    assert ("+" + s)[1..] == s && ("-" + s)[1..] == s;
  }

  /** Signs and leading zeros are allowed; a minus only before zero. */
  predicate AsksFor(s: string, k: nat, n: nat) {
    var digits := ZeroDigits(k) + Decimal(n);
    n <= MAX_INT64 && (s == digits || s == "+" + digits || (s == "-" + digits && n == 0))
  }

  lemma AskedIsParsed(s: string, k: nat, n: nat)
    requires AsksFor(s, k, n)
    ensures ParseInt(s) == Some(n)
  {
    DecimalIsDigits(n);
    LeadingZeros(k, Decimal(n));
    DigitsParse(ZeroDigits(k) + Decimal(n));
  }

  lemma ParsedIsAsked(s: string, n: nat) returns (k: nat)
    requires ParseInt(s) == Some(n)
    ensures AsksFor(s, k, n)
  {
    var signed := s[0] == '+' || s[0] == '-';
    var digits := if signed then s[1..] else s;
    assert AllDigits(digits) by {
      forall i | 0 <= i < |digits|
        ensures IsDigit(digits[i])
      {
        assert digits[i] in digits;
      }
    }
    k := DigitsAreDecimal(digits);
    if signed {
      assert s == [s[0]] + digits;
    }
  }

  lemma NothingParsesToNoOffset(arg: string)
    ensures Offset(arg).Some? <==> ParseInt(TrimSpace(arg)).Some? && ParseInt(TrimSpace(arg)).value >= 0
    ensures Offset(arg).Some? ==> ParseInt(TrimSpace(arg)) == Some(Offset(arg).value)
  {}

  /** Which arguments of REST are accepted, and for which offset: white space around, then the decimal digits of
      the offset, perhaps after a sign and zeros; nothing that is not a number, negative, or too large. */
  lemma OffsetIff(arg: string, n: nat)
    ensures Offset(arg) == Some(n) <==> exists k: nat :: AsksFor(TrimSpace(arg), k, n)
  {
    NothingParsesToNoOffset(arg);
    if Offset(arg) == Some(n) {
      var k := ParsedIsAsked(TrimSpace(arg), n);
    }
    if k: nat :| AsksFor(TrimSpace(arg), k, n) {
      AskedIsParsed(TrimSpace(arg), k, n);
    }
  }

  /** "REST n" asks for n, whatever white space is around it. */
  lemma OffsetOfDecimal(pre: string, n: nat, post: string)
    requires AllSpace(pre) && AllSpace(post) && n <= MAX_INT64
    ensures Offset(pre + Decimal(n) + post) == Some(n)
  {
    var s := Decimal(n);
    DecimalIsDigits(n);
    assert IsDigit(s[0]) && IsDigit(s[|s| - 1]);
    TrimSpaceOfPadded(pre, s, post);
    DigitsParse(s);
  }

  method ReadOffset(arg: string) returns (offset: Option<nat>)
    ensures offset == Offset(arg)
  {
    var trimmed := TrimSpace(arg);
    if trimmed == "" {
      return None;
    }
    var v := ParseInt(trimmed);
    if v.None? || v.value < 0 {
      return None;
    }
    offset := Some(v.value);
  }

  // ---------------------------------------------------------------- what a transfer commits

  datatype Mode = Stor | Appe

  /** The new content of a file of which `current` is the content now, if there is one. */
  function Commit(mode: Mode, offset: Option<nat>, current: Option<seq<byte>>, data: seq<byte>): seq<byte> {
    if current.None? then data
    else if mode == Appe then current.value + data
    else if offset.Some? && offset.value <= |current.value| then current.value[..offset.value] + data
    else data
  }

  /** REST is not for APPE; a positive offset needs a file that long. */
  predicate Acceptable(mode: Mode, offset: Option<nat>, current: Option<seq<byte>>) {
    && !(mode == Appe && offset.Some?)
    && (offset.Some? && offset.value > 0 ==> current.Some? && offset.value <= |current.value|)
  }

  function Content(t: FileTree, p: Path): Option<seq<byte>> {
    if p in t && t[p].File? then Some(t[p].data) else None
  }

  /** Nothing that was in t has changed; new are only entries that users do not see, and directories above
      dest. */
  ghost predicate Unaffected(t: FileTree, u: FileTree, dest: Path) {
    && Intact(t, u)
    && (forall q | q in u && q !in t :: !UserPath(q) || (Under(q, dest) && q != dest && u[q] == Dir))
  }

  /** The file at dest has the new content; otherwise as above. */
  ghost predicate Uploaded(t: FileTree, u: FileTree, dest: Path, data: seq<byte>) {
    && dest in u && u[dest] == File(data) && (dest in t ==> t[dest].File?)
    && (forall q | q in t && q != dest :: q in u && u[q] == t[q])
    && (forall q | q in u && q !in t && q != dest :: !UserPath(q) || (Under(q, dest) && u[q] == Dir))
  }

  datatype Stream = Stream(data: seq<byte>, clean: bool)

  // ---------------------------------------------------------------- the staged file

  lemma ParentsAreUnaffected(t: FileTree, u: FileTree, dest: Path)
    requires dest != [] && Grown(t, u, Parent(dest))
    ensures Unaffected(t, u, dest)
  {
    assert Under(Parent(dest), dest);
    forall q | Under(q, Parent(dest))
      ensures Under(q, dest) && q != dest
    {
      UnderIsTransitive(q, Parent(dest), dest);
    }
  }

  lemma UploadsOrRoot(q: Path)
    ensures Under(q, [Paths.UPLOADS]) ==> q == [] || q == [Paths.UPLOADS]
    ensures Under([Paths.UPLOADS], q) ==> !UserPath(q)
  {
    if Under(q, [Paths.UPLOADS]) && q != [] {
      assert q == [Paths.UPLOADS][..1];
    }
    if Under([Paths.UPLOADS], q) {
      assert q[..1][0] == q[0];
    }
  }

  /** The state while an upload is staged: the staged file is new and has this content. */
  ghost predicate Staging(t: FileTree, u: FileTree, dest: Path, staged: Path, data: seq<byte>) {
    && Unaffected(t, u, dest) && |staged| == 2 && staged[0] == Paths.UPLOADS && staged !in t
    && staged in u && u[staged] == File(data)
  }

  lemma StagingIsApart(t: FileTree, u: FileTree, dest: Path, staged: Path, data: seq<byte>, id: string)
    requires Staging(t, u, dest, staged, data) && UserPath(dest)
    ensures staged != dest && !Under([Paths.VERSIONS, id], dest) && !Under([Paths.VERSIONS, id], staged)
  {
    assert [Paths.VERSIONS, id][0] != staged[0];
    if Near([Paths.VERSIONS, id], dest) {
      UnseenBelow([Paths.VERSIONS, id], dest);
    }
  }

  lemma StagedIsPutInPlace(t: FileTree, u: FileTree, v: FileTree, dest: Path, staged: Path, data: seq<byte>, id: string)
    requires WellFormed(t) && Staging(t, u, dest, staged, data) && UserPath(dest)
    requires Replaced(u, v, staged, dest, [Paths.VERSIONS, id]) && (dest in u ==> u[dest].File?)
    ensures Uploaded(t, v, dest, data)
  {
    forall q | q in v && q !in t && q != dest
      ensures !UserPath(q) || (Under(q, dest) && v[q] == Dir)
    {
      if q !in u {
        UnseenBelow([Paths.VERSIONS, id], q);
      }
    }
  }

  lemma StagedIsNotPutInPlace(t: FileTree, u: FileTree, v: FileTree, dest: Path, id: string)
    requires WellFormed(t) && Unaffected(t, u, dest) && Intact(u, v) && OnlyNear(u, v, [Paths.VERSIONS, id])
    ensures Unaffected(t, v, dest)
  {
    forall q | q in v && q !in u
      ensures !UserPath(q) || q == []
    {
      UnseenBelow([Paths.VERSIONS, id], q);
    }
  }

  lemma NowStaging(t: FileTree, u: FileTree, v: FileTree, dest: Path)
    requires Unaffected(t, u, dest) && Intact(u, v)
    requires forall q | q in v && q !in u :: Under([Paths.UPLOADS], q)
    ensures Unaffected(t, v, dest)
  {
    forall q | q in v && q !in u
      ensures !UserPath(q)
    {
      UploadsOrRoot(q);
    }
  }

  /** Neither the directories above a destination nor the staging area are those of a version. */
  lemma VersionsStillNew(t: FileTree, u: FileTree, dest: Path, id: string)
    requires [Paths.VERSIONS, id] !in t && UserPath(dest)
    requires forall q | q in u && q !in t :: Under(q, dest) || Under([Paths.UPLOADS], q)
    ensures [Paths.VERSIONS, id] !in u
  {
    var dir := [Paths.VERSIONS, id];
    if Near(dir, dest) {
      UnseenBelow(dir, dest);
    }
    assert dir[..1] != [Paths.UPLOADS] by { assert dir[..1][0] == Paths.VERSIONS; }
  }

  lemma StagedOnly(t: FileTree, u: FileTree, v: FileTree, dest: Path, staged: Path)
    requires Staging(t, u, dest, staged, []) && staged in v && v[staged].File? && v == u[staged := v[staged]]
    ensures Staging(t, v, dest, staged, v[staged].data)
  {}

  lemma DiscardedIsUnaffected(t: FileTree, u: FileTree, v: FileTree, dest: Path, staged: Path)
    requires Unaffected(t, u, dest) && staged !in t && (v == u || v == u - {staged})
    ensures Unaffected(t, v, dest)
  {}

  /** Staged files can be made, and a version of a file that is there can be. */
  predicate AreasAreReady(t: FileTree, dest: Path, id: string) {
    Makeable(t, [Paths.UPLOADS]) && (dest in t ==> Makeable(t, [Paths.VERSIONS, id]))
  }

  /** Nothing stands in the way of an upload. */
  predicate Storable(t: FileTree, dest: Path, mode: Mode, offset: Option<nat>, id: string) {
    && dest != [] && Makeable(t, Parent(dest)) && (dest in t ==> t[dest].File?)
    && Acceptable(mode, offset, Content(t, dest)) && AreasAreReady(t, dest, id)
  }

  lemma AreaStays(t: FileTree, u: FileTree, area: Path)
    requires Intact(t, u) && forall q | q in u && Under(q, area) && q !in t :: u[q] == Dir
    ensures Makeable(t, area) <==> Makeable(u, area)
  {
    forall k | 0 <= k <= |area|
      ensures Under(area[..k], area)
    {}
    assert forall k | 0 <= k <= |area| && area[..k] in t :: u[area[..k]] == t[area[..k]];
  }

  lemma AreasAreApart(q: Path, id: string)
    ensures !(Under(q, [Paths.VERSIONS, id]) && Under([Paths.UPLOADS], q))
  {
    if q != [] && Under(q, [Paths.VERSIONS, id]) {
      assert q[0] == [Paths.VERSIONS, id][..|q|][0];
    }
  }

  /** Neither the directories above a destination nor a staged file are in the way of the two areas. */
  lemma AreasStillReady(t: FileTree, before: FileTree, u: FileTree, dest: Path, id: string)
    requires dest != [] && Grown(t, before, Parent(dest)) && Intact(before, u)
    requires forall q | q in u && q !in before :: Under([Paths.UPLOADS], q)
    ensures Makeable(t, [Paths.UPLOADS]) <==> Makeable(before, [Paths.UPLOADS])
    ensures Makeable(t, [Paths.VERSIONS, id]) <==> Makeable(u, [Paths.VERSIONS, id])
  {
    AreaStays(t, before, [Paths.UPLOADS]);
    AreaStays(t, before, [Paths.VERSIONS, id]);
    forall q
      ensures !(Under(q, [Paths.VERSIONS, id]) && Under([Paths.UPLOADS], q))
    {
      AreasAreApart(q, id);
    }
    AreaStays(before, u, [Paths.VERSIONS, id]);
  }

  /** The directories above a destination, which may be a file, were made. */
  ghost predicate DirsMade(t: FileTree, before: FileTree, dest: Path) {
    && dest != [] && UserPath(dest) && Grown(t, before, Parent(dest))
    && Parent(dest) in before && before[Parent(dest)] == Dir
    && (dest in before <==> dest in t) && (dest in t ==> t[dest].File?)
  }

  /** Then a staged file was made. */
  ghost predicate StagedFor(t: FileTree, before: FileTree, u: FileTree, dest: Path, staged: Path) {
    && DirsMade(t, before, dest) && Intact(before, u)
    && (forall q | q in u && q !in before :: Under([Paths.UPLOADS], q))
    && |staged| == 2 && staged[0] == Paths.UPLOADS && staged !in before && staged in u && u[staged].File?
  }

  lemma StagedIsReplaceable(t: FileTree, before: FileTree, u: FileTree, dest: Path, staged: Path, id: string)
    requires StagedFor(t, before, u, dest, staged)
    ensures Storage.Replaceable(u, staged, dest, id, true)
            <==> (dest in t ==> Makeable(t, [Paths.VERSIONS, id]))
  {
    var dir := [Paths.VERSIONS, id];
    AreasStillReady(t, before, u, dest, id);
    UploadsOrRoot(dest);
    assert Under([Paths.UPLOADS], staged);
    if Under(staged, dest) {
      UnderIsTransitive([Paths.UPLOADS], staged, dest);
    }
    NotNear(dir, dest);
    if Under(dest, dir + [PAYLOAD]) {
      Storage.NearChild(dir, PAYLOAD, dest);
      UnderParts(dir, PAYLOAD, META);
    }
  }

  lemma StagingBegins(t: FileTree, before: FileTree, u: FileTree, dest: Path, id: string)
    requires DirsMade(t, before, dest) && Intact(before, u) && [Paths.VERSIONS, id] !in before
    requires forall q | q in u && q !in before :: Under([Paths.UPLOADS], q)
    ensures Unaffected(t, u, dest) == true && [Paths.VERSIONS, id] !in u
    ensures Makeable(t, [Paths.UPLOADS]) == Makeable(before, [Paths.UPLOADS])
  {
    ParentsAreUnaffected(t, before, dest);
    NowStaging(t, before, u, dest);
    VersionsStillNew(before, u, dest, id);
    AreasStillReady(t, before, u, dest, id);
  }

  lemma StagedNow(t: FileTree, before: FileTree, u: FileTree, dest: Path, staged: Path)
    requires DirsMade(t, before, dest) && Intact(before, u) && Unaffected(t, u, dest)
    requires forall q | q in u && q !in before :: Under([Paths.UPLOADS], q)
    requires |staged| == 2 && staged[0] == Paths.UPLOADS && staged !in before && staged in u && u[staged] == File([])
    ensures StagedFor(t, before, u, dest, staged) == true && Staging(t, u, dest, staged, []) == true
    ensures Content(t, dest) == Content(u, dest) && (dest in t <==> Content(t, dest).Some?)
  {
    UploadsOrRoot(dest);
  }

  lemma FilledIsStaged(t: FileTree, before: FileTree, empty: FileTree, u: FileTree, dest: Path, staged: Path,
                       id: string)
    requires StagedFor(t, before, empty, dest, staged) && Staging(t, empty, dest, staged, [])
    requires staged in u && u[staged].File? && u == empty[staged := u[staged]]
    ensures Staging(t, u, dest, staged, u[staged].data) == true && Unaffected(t, u, dest) == true
    ensures Storage.Replaceable(u, staged, dest, id, true) == (dest in t ==> Makeable(t, [Paths.VERSIONS, id]))
  {
    StagedOnly(t, empty, u, dest, staged);
    StagedIsReplaceable(t, before, u, dest, staged, id);
  }

  function OrEmpty(current: Option<seq<byte>>): seq<byte> {
    if current.Some? then current.value else []
  }

  /** The staged bytes when the transfer begins: the current file for APPE, cut to the offset after REST. */
  function StagedBytes(mode: Mode, offset: Option<nat>, current: Option<seq<byte>>): seq<byte> {
    if mode == Appe then OrEmpty(current)
    else if offset.Some? then Resized(OrEmpty(current), offset.value)
    else []
  }

  /** Writing the received data at the end of the prepared bytes gives what is to be committed. */
  lemma PreparedThenReceived(mode: Mode, offset: Option<nat>, current: Option<seq<byte>>, data: seq<byte>,
                             staged: seq<byte>)
    requires Acceptable(mode, offset, current) && staged == StagedBytes(mode, offset, current)
    ensures Overwritten(staged, |staged|, data) == Commit(mode, offset, current, data)
  {
    OverwrittenAtEnd(staged, data);
    assert [] + data == data;
  }

  // ---------------------------------------------------------------- the session

  /** `dest` is where the resolver put the request, with the virtual path. */
  datatype Target = Target(path: Path, virtual: string)

  class Session {
    const root: Storage.Root
    var restartOffset: nat
    var restartSet: bool

    ghost predicate Valid()
      reads this, root.disk`tree
    {
      root.Valid() && root.codec.RoundTrips() && (!restartSet ==> restartOffset == 0)
    }

    /** The pending offset, if any. */
    ghost function Pending(): Option<nat>
      reads this
    {
      if restartSet then Some(restartOffset) else None
    }

    constructor (root: Storage.Root)
      requires root.Valid() && root.codec.RoundTrips()
      ensures Valid() && this.root == root && Pending() == None
    {
      this.root, restartOffset, restartSet := root, 0, false;
    }

    method Restart(arg: string) returns (reply: nat)
      requires Valid()
      modifies this
      ensures Valid() && reply == (if Offset(arg).Some? then 350 else 501)
      ensures Pending() == if Offset(arg).Some? then Offset(arg) else old(Pending())
    {
      var offset := ReadOffset(arg);
      reply := Accept(offset);
    }

    method Accept(offset: Option<nat>) returns (reply: nat)
      requires Valid()
      modifies this
      ensures Valid() && reply == (if offset.Some? then 350 else 501)
      ensures Pending() == if offset.Some? then offset else old(Pending())
    {
      if offset.None? {
        return 501;
      }
      restartOffset, restartSet := offset.value, true;
      reply := 350;
    }

    method ConsumeRestart() returns (offset: nat, ok: bool)
      requires Valid()
      modifies this
      ensures Valid() && Pending() == None
      ensures old(Pending()) == (if ok then Some(offset) else None) && (!ok ==> offset == 0)
    {
      offset, ok := restartOffset, restartSet;
      restartOffset, restartSet := 0, false;
    }

    /** Ten attempts at a name made from the time and a counter. */
    method CreateStagedUpload() returns (ok: bool, staged: Path)
      requires root.Valid()
      modifies root.disk
      ensures root.Valid() && Intact(old(root.disk.tree), root.disk.tree)
      ensures forall q | q in root.disk.tree && q !in old(root.disk.tree) :: Under([Paths.UPLOADS], q)
      ensures ok ==> |staged| == 2 && staged[0] == Paths.UPLOADS && staged !in old(root.disk.tree)
      ensures ok ==> staged in root.disk.tree && root.disk.tree[staged] == File([])
      ensures root.disk.calm ==> old(root.disk.calm) && ok == Makeable(old(root.disk.tree), [Paths.UPLOADS])
    {
      staged := [Paths.UPLOADS];
      ghost var t := root.disk.tree;
      ok := root.disk.MkdirAll([Paths.UPLOADS]);
      forall q | q in root.disk.tree && q !in t
        ensures Under([Paths.UPLOADS], q)
      {
        UploadsOrRoot(q);
      }
      if !ok {
        return;
      }
      var attempt := 0;
      while attempt < 10
        invariant root.Valid() && Intact(t, root.disk.tree)
        invariant forall q | q in root.disk.tree && q !in t :: Under([Paths.UPLOADS], q)
        invariant [Paths.UPLOADS] in root.disk.tree && root.disk.tree[[Paths.UPLOADS]] == Dir
        invariant root.disk.calm ==> old(root.disk.calm) && attempt == 0 && Makeable(t, [Paths.UPLOADS])
      {
        var name := root.disk.NewName([Paths.UPLOADS]);
        staged := [Paths.UPLOADS, name];
        assert staged == [Paths.UPLOADS] + [name] && Parent(staged) == [Paths.UPLOADS];
        ok := root.disk.Create(staged, true);
        if ok {
          return;
        }
        var taken: bool := *;
        if !taken {
          return;
        }
        attempt := attempt + 1;
      }
      ok := false;
    }

    /** Copies the current file to the staged one. */
    method CopyCurrent(staged: Path, dest: Path) returns (ok: bool, cursor: nat)
      requires root.Valid() && staged != dest && staged in root.disk.tree && root.disk.tree[staged] == File([])
      requires dest in root.disk.tree && root.disk.tree[dest].File?
      modifies root.disk
      ensures root.Valid() && staged in root.disk.tree && root.disk.tree[staged].File?
      ensures root.disk.tree == old(root.disk.tree)[staged := root.disk.tree[staged]]
      ensures ok ==>
                root.disk.tree[staged].data == old(root.disk.tree)[dest].data && cursor == |root.disk.tree[staged].data|
      ensures root.disk.calm ==> old(root.disk.calm) && ok
    {
      cursor := 0;
      var current := root.disk.tree[dest].data;
      var unreadable := root.disk.Fails();
      if unreadable {
        return false, cursor;
      }
      var n;
      ok, n := root.disk.WriteAt(staged, 0, current);
      cursor := n;
      if ok {
        OverwrittenAtEnd([], current);
        assert [] + current == current;
      }
    }

    /** Brings the staged file to the state from which the transfer writes, and says where it writes. */
    method Prepare(staged: Path, dest: Path, mode: Mode, offset: nat, restarting: bool, present: bool)
      returns (ok: bool, cursor: nat)
      requires root.Valid() && staged != dest && staged in root.disk.tree && root.disk.tree[staged] == File([])
      requires present == Content(root.disk.tree, dest).Some?
      requires Acceptable(mode, if restarting then Some(offset) else None, Content(root.disk.tree, dest))
      modifies root.disk
      ensures root.Valid() && staged in root.disk.tree && root.disk.tree[staged].File?
      ensures root.disk.tree == old(root.disk.tree)[staged := root.disk.tree[staged]]
      ensures ok ==>
                var bytes := StagedBytes(mode, if restarting then Some(offset) else None,
                                         Content(old(root.disk.tree), dest));
                root.disk.tree[staged].data == bytes && cursor == |bytes|
      ensures root.disk.calm ==> old(root.disk.calm) && ok
    {
      cursor := 0;
      if (mode == Appe || restarting) && present {
        ok, cursor := CopyCurrent(staged, dest);
        if !ok {
          return;
        }
      }
      if mode == Appe {
        cursor := |root.disk.tree[staged].data|;
        var unsought := root.disk.Fails();
        if unsought {
          return false, cursor;
        }
      }
      if restarting {
        cursor := offset;
        var unsought := root.disk.Fails();
        if unsought {
          return false, cursor;
        }
        ok := root.disk.Truncate(staged, offset);
        if !ok {
          return;
        }
      }
      ok := true;
    }

    /** Receives the data into the staged file. */
    method Receive(staged: Path, cursor: nat, stream: Stream, ghost whole: seq<byte>) returns (reply: nat)
      requires root.Valid() && staged in root.disk.tree && root.disk.tree[staged].File?
      requires whole == Overwritten(root.disk.tree[staged].data, cursor, stream.data)
      modifies root.disk
      ensures root.Valid() && staged in root.disk.tree && root.disk.tree[staged].File?
      ensures root.disk.tree == old(root.disk.tree)[staged := root.disk.tree[staged]]
      ensures reply in {226, 426, 451} && (!stream.clean ==> reply == 426)
      ensures reply == 226 ==> stream.clean && root.disk.tree[staged].data == whole
      ensures root.disk.calm ==> old(root.disk.calm) && (stream.clean ==> reply == 226)
    {
      var written, n := root.disk.WriteAt(staged, cursor, stream.data);
      if !written || !stream.clean {
        return 426;
      }
      var unclosed := root.disk.Fails();
      if unclosed {
        return 451;
      }
      var unpermitted := root.disk.Fails();
      reply := if unpermitted then 451 else 226;
    }

    /** Puts the staged file into place. */
    method PutInPlace(ghost t: FileTree, staged: Path, target: Target, id: string, ghost data: seq<byte>)
      returns (ok: bool)
      requires root.Valid() && root.codec.RoundTrips() && WellFormed(t) && UserPath(target.path)
      requires Staging(t, root.disk.tree, target.path, staged, data) && [Paths.VERSIONS, id] !in root.disk.tree
      modifies root.disk
      ensures root.Valid()
      ensures ok ==> Uploaded(t, root.disk.tree, target.path, data) && staged !in root.disk.tree
      ensures ok && target.path in t ==>
                Storage.FilePreserved(root.codec, root.disk.tree, t[target.path],
                                      Storage.Recorded(target.path, target.virtual), id)
      ensures !ok ==> Unaffected(t, root.disk.tree, target.path)
      ensures root.disk.calm ==>
                old(root.disk.calm) && ok == Storage.Replaceable(old(root.disk.tree), staged, target.path, id, true)
    {
      ghost var u := root.disk.tree;
      StagingIsApart(t, u, target.path, staged, data, id);
      var replaced := root.ReplaceFile(staged, target.path, target.virtual, id, true);
      ok := replaced.Ok?;
      if ok {
        StagedIsPutInPlace(t, u, root.disk.tree, target.path, staged, data, id);
      } else {
        StagedIsNotPutInPlace(t, u, root.disk.tree, target.path, id);
      }
    }

    /** The part of an upload after the checks; the staged file is removed at the end if it is there. */
    method StoreStaged(ghost t: FileTree, target: Target, mode: Mode, offset: nat, restarting: bool, present: bool,
                       conn: Option<Stream>, id: string)
      returns (reply: nat)
      requires root.Valid() && root.codec.RoundTrips() && WellFormed(t) && DirsMade(t, root.disk.tree, target.path)
      requires [Paths.VERSIONS, id] !in root.disk.tree && present == (target.path in t)
      requires Acceptable(mode, if restarting then Some(offset) else None, Content(t, target.path))
      modifies root.disk
      ensures root.Valid() && reply !in {503, 554}
      ensures reply == 226 ==> conn.Some? && conn.value.clean
      ensures reply == 226 ==>
                Uploaded(t, root.disk.tree, target.path,
                         Commit(mode, if restarting then Some(offset) else None,
                                Content(t, target.path), conn.value.data)) == true
      ensures reply == 226 && target.path in t ==>
                Storage.FilePreserved(root.codec, root.disk.tree, t[target.path],
                                      Storage.Recorded(target.path, target.virtual), id) == true
      ensures reply != 226 ==> Unaffected(t, root.disk.tree, target.path) == true
      ensures root.disk.calm ==>
                old(root.disk.calm)
                && (reply == 226) == (conn.Some? && conn.value.clean && AreasAreReady(t, target.path, id))
    {
      ghost var before := root.disk.tree;
      var ok, staged := CreateStagedUpload();
      StagingBegins(t, before, root.disk.tree, target.path, id);
      if !ok {
        return 550;
      }
      StagedNow(t, before, root.disk.tree, target.path, staged);
      reply := FillAndPlace(t, before, staged, target, mode, offset, restarting, present, conn, id);
      ghost var last := root.disk.tree;
      var _ := root.disk.Remove(staged);
      if reply != 226 {
        DiscardedIsUnaffected(t, last, root.disk.tree, target.path, staged);
      }
    }

    method FillAndPlace(ghost t: FileTree, ghost before: FileTree, staged: Path, target: Target, mode: Mode,
                        offset: nat, restarting: bool, present: bool, conn: Option<Stream>, id: string)
      returns (reply: nat)
      requires root.Valid() && root.codec.RoundTrips() && WellFormed(t) && UserPath(target.path)
      requires StagedFor(t, before, root.disk.tree, target.path, staged) == true
      requires Staging(t, root.disk.tree, target.path, staged, [])
      requires [Paths.VERSIONS, id] !in root.disk.tree && present == (target.path in t)
      requires Content(t, target.path) == Content(root.disk.tree, target.path)
      requires present == Content(t, target.path).Some?
      requires Acceptable(mode, if restarting then Some(offset) else None, Content(t, target.path))
      modifies root.disk
      ensures root.Valid() && reply !in {503, 554}
      ensures reply == 226 ==> conn.Some? && conn.value.clean && staged !in root.disk.tree
      ensures reply == 226 ==>
                Uploaded(t, root.disk.tree, target.path,
                         Commit(mode, if restarting then Some(offset) else None,
                                Content(t, target.path), conn.value.data)) == true
      ensures reply == 226 && target.path in t ==>
                Storage.FilePreserved(root.codec, root.disk.tree, t[target.path],
                                      Storage.Recorded(target.path, target.virtual), id) == true
      ensures reply != 226 ==> Unaffected(t, root.disk.tree, target.path) == true
      ensures root.disk.calm ==>
                old(root.disk.calm)
                && (reply == 226) == (conn.Some? && conn.value.clean
                                      && (target.path in t ==> Makeable(t, [Paths.VERSIONS, id])))
    {
      ghost var empty := root.disk.tree;
      reply := FillStaged(t, staged, target.path, mode, offset, restarting, present, conn);
      FilledIsStaged(t, before, empty, root.disk.tree, target.path, staged, id);
      if reply == 226 {
        var placed := PutInPlace(t, staged, target, id, root.disk.tree[staged].data);
        if !placed {
          reply := 451;
        }
      }
    }

    /** Everything that happens to the staged file before it is put into place; 226 means it is complete. */
    method FillStaged(ghost t: FileTree, staged: Path, dest: Path, mode: Mode, offset: nat, restarting: bool,
                      present: bool, conn: Option<Stream>)
      returns (reply: nat)
      requires root.Valid() && staged != dest && staged in root.disk.tree && root.disk.tree[staged] == File([])
      requires Content(t, dest) == Content(root.disk.tree, dest) && present == Content(t, dest).Some?
      requires Acceptable(mode, if restarting then Some(offset) else None, Content(t, dest))
      modifies root.disk
      ensures root.Valid() && reply in {226, 425, 426, 451, 550}
      ensures staged in root.disk.tree && root.disk.tree[staged].File?
      ensures root.disk.tree == old(root.disk.tree)[staged := root.disk.tree[staged]]
      ensures root.disk.calm ==> old(root.disk.calm) && (conn.Some? && conn.value.clean ==> reply == 226)
      ensures reply == 226 ==>
                && conn.Some? && conn.value.clean
                && root.disk.tree[staged].data
                   == Commit(mode, if restarting then Some(offset) else None, Content(t, dest), conn.value.data)
    {
      ghost var asked := if restarting then Some(offset) else None;
      var ok, cursor := Prepare(staged, dest, mode, offset, restarting, present);
      if !ok {
        return 550;
      }
      if conn.None? {
        return 425;
      }
      ghost var prepared := root.disk.tree[staged].data;
      assert prepared == StagedBytes(mode, asked, Content(t, dest)) && cursor == |prepared|;
      PreparedThenReceived(mode, asked, Content(t, dest), conn.value.data, prepared);
      reply := Receive(staged, cursor, conn.value, Commit(mode, asked, Content(t, dest), conn.value.data));
    }

    /** STOR and APPE. The data connection may fail to open; what comes over it may be cut off. */
    method Store(target: Option<Target>, mode: Mode, conn: Option<Stream>, id: string)
      returns (reply: nat)
      requires Valid() && [Paths.VERSIONS, id] !in root.disk.tree && (target.Some? ==> UserPath(target.value.path))
      modifies this, root.disk
      ensures Valid() && Pending() == None
      ensures reply == 226 ==> target.Some? && conn.Some? && conn.value.clean
      ensures reply == 226 ==> Acceptable(mode, old(Pending()), Content(old(root.disk.tree), target.value.path))
      ensures reply == 226 ==>
                Uploaded(old(root.disk.tree), root.disk.tree, target.value.path,
                         Commit(mode, old(Pending()), Content(old(root.disk.tree), target.value.path),
                                conn.value.data)) == true
      ensures reply == 226 && target.value.path in old(root.disk.tree) ==>
                Storage.FilePreserved(root.codec, root.disk.tree, old(root.disk.tree)[target.value.path],
                                      Storage.Recorded(target.value.path, target.value.virtual), id) == true
      ensures reply != 226 && target.Some? ==>
                Unaffected(old(root.disk.tree), root.disk.tree, target.value.path) == true
      ensures reply != 226 && target.None? ==> root.disk.tree == old(root.disk.tree)
      ensures reply == 503 <==> mode == Appe && old(Pending()).Some?
      ensures reply == 554 ==>
                target.Some? && old(Pending()).Some? && Content(old(root.disk.tree), target.value.path).Some?
                && old(Pending()).value > |Content(old(root.disk.tree), target.value.path).value|
      ensures root.disk.calm ==>
                old(root.disk.calm)
                && (reply == 226) == (target.Some? && conn.Some? && conn.value.clean
                                      && Storable(old(root.disk.tree), target.value.path, mode, old(Pending()), id))
    {
      ghost var t := root.disk.tree;
      var offset, restarting := ConsumeRestart();
      if mode == Appe && restarting {
        return 503;
      }
      if target.None? || target.value.path == [] {
        return 550;
      }
      var dest := target.value.path;
      var made := root.disk.MkdirAll(Parent(dest));
      ParentsAreUnaffected(t, root.disk.tree, dest);
      if !made {
        return 550;
      }
      var info := root.disk.Stat(dest);
      if info.Found? && info.node.Dir? {
        return 550;
      }
      if info.Failed? {
        return 550;
      }
      if restarting && offset > 0 {
        if info.Absent? {
          return 550;
        }
        if offset > |info.node.data| {
          return 554;
        }
      }
      VersionsStillNew(t, root.disk.tree, dest, id);
      reply := StoreStaged(t, target.value, mode, offset, restarting, info.Found?, conn, id);
    }

    /** RETR sends the file from the offset, or the beginning of that when the connection breaks. A folder
        opens, but cannot be read. */
    method Retrieve(target: Option<Target>, connects: bool) returns (reply: nat, sent: seq<byte>)
      requires Valid()
      modifies this, root.disk`answers, root.disk`calm
      ensures Valid() && Pending() == None
      ensures reply in {226, 425, 426, 550, 554} && (reply !in {226, 426} ==> sent == [])
      ensures reply == 226 || sent != [] ==>
                && connects && target.Some? && Content(root.disk.tree, target.value.path).Some?
                && var rest := Remaining(Content(root.disk.tree, target.value.path).value, old(Pending()));
                   rest.Some? && if reply == 226 then sent == rest.value else sent <= rest.value
      ensures reply == 554 ==>
                && target.Some? && Content(root.disk.tree, target.value.path).Some?
                && Remaining(Content(root.disk.tree, target.value.path).value, old(Pending())).None?
      ensures root.disk.calm ==>
                old(root.disk.calm)
                && (reply == 226 <==> target.Some? && connects
                                      && Readable(root.disk.tree, target.value.path, old(Pending())))
    {
      sent := [];
      var offset, restarting := ConsumeRestart();
      if target.None? {
        return 550, sent;
      }
      var file := root.disk.Stat(target.value.path);
      if !file.Found? {
        return 550, sent;
      }
      if restarting {
        var unreadable := root.disk.Fails();
        if unreadable || file.node.Dir? {
          return 550, sent;
        }
        if offset > |file.node.data| {
          return 554, sent;
        }
        var unsought := root.disk.Fails();
        if unsought {
          return 550, sent;
        }
      }
      if !connects {
        return 425, sent;
      }
      if file.node.Dir? {
        return 426, sent;
      }
      var rest := file.node.data[offset..];
      var broken := root.disk.Fails();
      var n :| 0 <= n <= |rest|;
      n := if broken then n else |rest|;
      sent := rest[..n];
      var unclean := root.disk.Fails();
      reply := if n == |rest| && !unclean then 226 else 426;
    }
  }

  /** There is a file, and the pending offset, if any, is in it. */
  predicate Readable(t: FileTree, p: Path, offset: Option<nat>) {
    Content(t, p).Some? && Remaining(Content(t, p).value, offset).Some?
  }

  /** What is left of a file from the pending offset on, if the offset is in the file. */
  function Remaining(data: seq<byte>, offset: Option<nat>): Option<seq<byte>> {
    if offset.None? then Some(data)
    else if offset.value <= |data| then Some(data[offset.value..])
    else None
  }

  // ---------------------------------------------------------------- which transfer uses which REST

  /** The commands of a session, as far as they matter here: `Rest` with the offset its argument asks for, if
      it is accepted; `Transfer` is RETR, STOR or APPE; one that the
      user has no permission for is refused before it looks at the offset. */
  datatype Command = Rest(offset: Option<nat>, authenticated: bool) | Transfer(permitted: bool) | Other

  predicate Sets(c: Command) { c.Rest? && c.authenticated && c.offset.Some? }

  predicate Uses(c: Command) { c == Transfer(true) }

  /** The pending offset after some commands, as the session's methods leave it. */
  function OffsetAfter(cmds: seq<Command>): Option<nat> {
    if cmds == [] then None
    else
      var c := cmds[|cmds| - 1];
      if Sets(c) then c.offset else if Uses(c) then None else OffsetAfter(cmds[..|cmds| - 1])
  }

  lemma OffsetAfterOne(cmds: seq<Command>, c: Command)
    ensures OffsetAfter(cmds + [c]) == if Sets(c) then c.offset else if Uses(c) then None else OffsetAfter(cmds)
  {
    assert (cmds + [c])[..|cmds|] == cmds;
  }

  /** A line from the control connection, with what the resolver and the data connection make of it. */
  datatype Line =
    | RestLine(arg: string, authenticated: bool)
    | StoreLine(target: Option<Target>, mode: Mode, conn: Option<Stream>, permitted: bool)
    | RetrieveLine(target: Option<Target>, connects: bool, permitted: bool)
    | OtherLine

  function AsCommand(line: Line): Command {
    match line
    case RestLine(arg, authenticated) => Rest(Offset(arg), authenticated)
    case StoreLine(_, _, _, permitted) => Transfer(permitted)
    case RetrieveLine(_, _, permitted) => Transfer(permitted)
    case OtherLine => Other
  }

  function Commands(lines: seq<Line>): (cmds: seq<Command>)
    ensures |cmds| == |lines|
  {
    if lines == [] then [] else Commands(lines[..|lines| - 1]) + [AsCommand(lines[|lines| - 1])]
  }

  lemma CommandsNext(lines: seq<Line>, i: nat)
    requires i < |lines|
    ensures Commands(lines[..i + 1]) == Commands(lines[..i]) + [AsCommand(lines[i])]
  {
    assert lines[..i + 1][..i] == lines[..i];
  }

  predicate StoresForUsers(line: Line) {
    line.StoreLine? && line.target.Some? ==> UserPath(line.target.value.path)
  }

  method Execute(session: Session, line: Line)
    requires session.Valid() && StoresForUsers(line)
    modifies session, session.root.disk
    ensures session.Valid()
    ensures session.Pending() == if Sets(AsCommand(line)) then AsCommand(line).offset
                                 else if Uses(AsCommand(line)) then None else old(session.Pending())
  {
    match line
    case RestLine(arg, authenticated) =>
      if authenticated {
        var _ := session.Restart(arg);
      }
    case StoreLine(target, mode, conn, permitted) =>
      if permitted {
        var id := NewVersion(session.root);
        var _ := session.Store(target, mode, conn, id);
      }
    case RetrieveLine(target, connects, permitted) =>
      if permitted {
        var _, _ := session.Retrieve(target, connects);
      }
    case OtherLine =>
  }

  /** The loop over the commands of a session: the pending offset is the one that the theorems speak of. */
  method ExecuteAll(session: Session, lines: seq<Line>)
    requires session.Valid() && session.Pending() == None
    requires forall i | 0 <= i < |lines| :: StoresForUsers(lines[i])
    modifies session, session.root.disk
    ensures session.Valid() && session.Pending() == OffsetAfter(Commands(lines))
  {
    var i := 0;
    while i < |lines|
      invariant i <= |lines| && session.Valid() && session.Pending() == OffsetAfter(Commands(lines[..i]))
    {
      CommandsNext(lines, i);
      OffsetAfterOne(Commands(lines[..i]), AsCommand(lines[i]));
      Execute(session, lines[i]);
      i := i + 1;
    }
    assert lines[..i] == lines;
  }

  lemma {:induction false} LongName(paths: set<Path>) returns (n: nat)
    ensures forall p | p in paths && |p| == 2 :: |p[1]| <= n
    decreases paths
  {
    n := 0;
    if paths != {} {
      var p :| p in paths;
      n := LongName(paths - {p});
      if |p| == 2 && |p[1]| > n {
        n := |p[1]|;
      }
    }
  }

  lemma NewVersionExists(t: FileTree) returns (id: string)
    ensures [Paths.VERSIONS, id] !in t
  {
    var n := LongName(t.Keys);
    id := seq(n + 1, _ => 'x');
    assert |[Paths.VERSIONS, id][1]| > n;
  }

  /** Some id that no version has; the code makes one from the time. */
  method NewVersion(root: Storage.Root) returns (id: string)
    ensures [Paths.VERSIONS, id] !in root.disk.tree
  {
    ghost var some := NewVersionExists(root.disk.tree);
    id :| [Paths.VERSIONS, id] !in root.disk.tree;
  }

  /** The command at j is a REST that no later command has replaced or used before i. */
  predicate InForce(cmds: seq<Command>, j: nat, i: nat)
    requires i <= |cmds|
  {
    j < i && Sets(cmds[j]) && forall k | j < k < i :: !Sets(cmds[k]) && !Uses(cmds[k])
  }

  lemma StaysInForce(cmds: seq<Command>, j: nat, i: nat)
    requires 0 < i <= |cmds| && !Sets(cmds[i - 1]) && !Uses(cmds[i - 1])
    ensures InForce(cmds, j, i) <==> InForce(cmds, j, i - 1)
  {
    if InForce(cmds, j, i - 1) {
      forall k | j < k < i
        ensures !Sets(cmds[k]) && !Uses(cmds[k])
      {
        assert k == i - 1 || k < i - 1;
      }
    }
  }

  /** There is a pending offset exactly when a REST is in force, and it is that one's. */
  lemma {:induction false} PendingIsInForce(cmds: seq<Command>, i: nat)
    requires i <= |cmds|
    ensures OffsetAfter(cmds[..i]).Some? <==> exists j: nat :: InForce(cmds, j, i)
    ensures forall j: nat | InForce(cmds, j, i) :: OffsetAfter(cmds[..i]) == cmds[j].offset
  {
    if i > 0 {
      var c := cmds[i - 1];
      assert cmds[..i][..i - 1] == cmds[..i - 1] && cmds[..i][i - 1] == c;
      PendingIsInForce(cmds, i - 1);
      if Sets(c) {
        assert InForce(cmds, i - 1, i);
      } else if !Uses(c) {
        forall j: nat
          ensures InForce(cmds, j, i) <==> InForce(cmds, j, i - 1)
        {
          StaysInForce(cmds, j, i);
        }
        if OffsetAfter(cmds[..i]).Some? {
          var j: nat :| InForce(cmds, j, i - 1);
          assert InForce(cmds, j, i);
        }
      }
    }
  }

  /** A transfer uses the offset of a REST when it is pending before the transfer. */
  ghost predicate UsedBy(cmds: seq<Command>, j: nat, i: nat) {
    i < |cmds| && Uses(cmds[i]) && InForce(cmds, j, i)
  }

  /** No REST is used by two transfers, and no transfer uses two. */
  lemma RestIsUsedOnce(cmds: seq<Command>, j: nat, i: nat, k: nat, l: nat)
    requires UsedBy(cmds, j, i) && UsedBy(cmds, k, l)
    ensures j == k <==> i == l
  {}

  /** A REST that is not replaced is used by the first transfer after it, whatever else comes between. */
  lemma {:induction false} NextTransferUsesRest(cmds: seq<Command>, j: nat, i: nat)
    requires j < i < |cmds| && Sets(cmds[j]) && Uses(cmds[i])
    requires forall k | j < k < i :: !Sets(cmds[k])
    ensures exists m: nat :: m <= i && UsedBy(cmds, j, m)
    decreases i
  {
    if k :| j < k < i && Uses(cmds[k]) {
      NextTransferUsesRest(cmds, j, k);
    } else {
      assert UsedBy(cmds, j, i);
    }
  }

  // ---------------------------------------------------------------- resumed transfers of one file

  /** An attempt to upload the bytes from..to of a source; `stored` says whether it was acknowledged. */
  datatype Attempt = Attempt(mode: Mode, offset: Option<nat>, start: nat, end: nat, stored: bool)

  /** The client sends what belongs where the server will put it, and the server accepts the offset. */
  predicate Fits(source: seq<byte>, current: Option<seq<byte>>, a: Attempt) {
    && a.start <= a.end <= |source| && Acceptable(a.mode, a.offset, current)
    && a.start == if a.mode == Appe then |OrEmpty(current)| else if a.offset.Some? then a.offset.value else 0
  }

  function AfterAttempt(source: seq<byte>, current: Option<seq<byte>>, a: Attempt): Option<seq<byte>> {
    if a.stored && a.start <= a.end <= |source|
    then Some(Commit(a.mode, a.offset, current, source[a.start..a.end]))
    else current
  }

  function AfterAll(source: seq<byte>, first: Option<seq<byte>>, attempts: seq<Attempt>): Option<seq<byte>> {
    if attempts == [] then first
    else AfterAttempt(source, AfterAll(source, first, attempts[..|attempts| - 1]), attempts[|attempts| - 1])
  }

  predicate AllFit(source: seq<byte>, first: Option<seq<byte>>, attempts: seq<Attempt>) {
    attempts == [] ||
    (AllFit(source, first, attempts[..|attempts| - 1])
     && (attempts[|attempts| - 1].stored ==>
           Fits(source, AfterAll(source, first, attempts[..|attempts| - 1]), attempts[|attempts| - 1])))
  }

  /** An upload that fits extends or cuts a prefix to another prefix. */
  lemma AttemptKeepsPrefix(source: seq<byte>, current: Option<seq<byte>>, a: Attempt)
    requires a.stored && Fits(source, current, a) && OrEmpty(current) <= source
    ensures AfterAttempt(source, current, a) == Some(source[..a.end])
  {
    var had := OrEmpty(current);
    assert had == source[..|had|];
    assert had[..a.start] == source[..a.start];
    assert source[..a.start] + source[a.start..a.end] == source[..a.end];
    assert had[..|had|] == had;
    assert a.start == 0 ==> source[0..a.end] == source[..a.end] && [] + source[..a.end] == source[..a.end];
  }

  /** However uploads of one file are broken off, resumed, appended or started over, the file on the server
      is a beginning of it, up to where the last stored attempt ended. */
  lemma {:induction false} UploadsRebuildSource(source: seq<byte>, first: Option<seq<byte>>, attempts: seq<Attempt>)
    requires AllFit(source, first, attempts) && OrEmpty(first) <= source
    ensures OrEmpty(AfterAll(source, first, attempts)) <= source
    ensures attempts != [] && attempts[|attempts| - 1].stored ==>
              AfterAll(source, first, attempts) == Some(source[..attempts[|attempts| - 1].end])
  {
    if attempts != [] {
      var before, a := attempts[..|attempts| - 1], attempts[|attempts| - 1];
      UploadsRebuildSource(source, first, before);
      if a.stored {
        AttemptKeepsPrefix(source, AfterAll(source, first, before), a);
      }
    }
  }

  /** What a client does for one piece of a file: a REST, if it likes, and a STOR or an APPE with at most that
      many bytes. `connects` and `clean` say what becomes of the data connection. */
  datatype Piece = Piece(rest: Option<string>, mode: Mode, size: nat, connects: bool, clean: bool)

  /** The pending offset when the piece is sent. */
  function Asked(pending: Option<nat>, piece: Piece): Option<nat> {
    if piece.rest.Some? && Offset(piece.rest.value).Some? then Offset(piece.rest.value) else pending
  }

  /** The client sends what the file holds from where the server will put it. */
  function Sent(source: seq<byte>, current: Option<seq<byte>>, offset: Option<nat>, piece: Piece): (r: (nat, nat))
    ensures r.0 <= r.1 <= |source| && r.1 <= r.0 + piece.size
  {
    var place := if piece.mode == Appe then |OrEmpty(current)| else offset.GetOr(0);
    var start := if place <= |source| then place else |source|;
    (start, if start + piece.size <= |source| then start + piece.size else |source|)
  }

  function AttemptOf(source: seq<byte>, current: Option<seq<byte>>, pending: Option<nat>, piece: Piece,
                     reply: nat): (a: Attempt)
    ensures a.start <= a.end <= |source|
  {
    var offset := Asked(pending, piece);
    var (start, end) := Sent(source, current, offset, piece);
    Attempt(piece.mode, offset, start, end, reply == 226)
  }

  /** The attempts that the pieces of a plan are, when they get these replies. */
  function AttemptsOf(source: seq<byte>, first: Option<seq<byte>>, pending: Option<nat>, plan: seq<Piece>,
                      replies: seq<nat>): (attempts: seq<Attempt>)
    requires |plan| == |replies|
    ensures |attempts| == |plan|
    decreases |plan|
  {
    if plan == [] then []
    else
      var n := |plan| - 1;
      var before := AttemptsOf(source, first, pending, plan[..n], replies[..n]);
      var current := AfterAll(source, first, before);
      before + [AttemptOf(source, current, if n == 0 then pending else None, plan[n], replies[n])]
  }

  /** The attempts of a plan fit, and lead from the first content to this one. */
  ghost predicate Led(source: seq<byte>, first: Option<seq<byte>>, pending: Option<nat>, plan: seq<Piece>,
                      replies: seq<nat>, current: Option<seq<byte>>) {
    && |plan| == |replies|
    && AllFit(source, first, AttemptsOf(source, first, pending, plan, replies))
    && current == AfterAll(source, first, AttemptsOf(source, first, pending, plan, replies))
  }

  lemma NothingSent(source: seq<byte>, first: Option<seq<byte>>, pending: Option<nat>)
    ensures Led(source, first, pending, [], [], first)
  {}

  lemma AttemptsOfNext(source: seq<byte>, first: Option<seq<byte>>, pending: Option<nat>, plan: seq<Piece>,
                       replies: seq<nat>, piece: Piece, reply: nat)
    requires |plan| == |replies|
    ensures var before := AttemptsOf(source, first, pending, plan, replies);
            var a := AttemptOf(source, AfterAll(source, first, before), if plan == [] then pending else None,
                               piece, reply);
            AttemptsOf(source, first, pending, plan + [piece], replies + [reply]) == before + [a]
  {
    assert (plan + [piece])[..|plan|] == plan && (replies + [reply])[..|replies|] == replies;
  }

  lemma AttemptIsAdded(source: seq<byte>, first: Option<seq<byte>>, attempts: seq<Attempt>, a: Attempt)
    ensures AfterAll(source, first, attempts + [a]) == AfterAttempt(source, AfterAll(source, first, attempts), a)
    ensures AllFit(source, first, attempts) && (a.stored ==> Fits(source, AfterAll(source, first, attempts), a)) ==>
              AllFit(source, first, attempts + [a])
  {
    assert (attempts + [a])[..|attempts|] == attempts;
  }

  lemma OneMoreAttempt(source: seq<byte>, first: Option<seq<byte>>, pending: Option<nat>, plan: seq<Piece>,
                       replies: seq<nat>, current: Option<seq<byte>>, piece: Piece, reply: nat, a: Attempt)
    requires Led(source, first, pending, plan, replies, current)
    requires a == AttemptOf(source, current, if plan == [] then pending else None, piece, reply)
    requires a.stored ==> Fits(source, current, a)
    ensures Led(source, first, pending, plan + [piece], replies + [reply], AfterAttempt(source, current, a))
  {
    AttemptsOfNext(source, first, pending, plan, replies, piece, reply);
    AttemptIsAdded(source, first, AttemptsOf(source, first, pending, plan, replies), a);
  }

  /** Whatever the replies, the content is a prefix of the file; after an acknowledged last piece it ends where
      the piece ended, and is the file when the piece reached its end. */
  lemma LedToPrefix(source: seq<byte>, first: Option<seq<byte>>, pending: Option<nat>, plan: seq<Piece>,
                    replies: seq<nat>, current: Option<seq<byte>>)
    requires Led(source, first, pending, plan, replies, current) && OrEmpty(first) <= source
    ensures OrEmpty(current) <= source
    ensures var attempts := AttemptsOf(source, first, pending, plan, replies);
            plan != [] && replies[|plan| - 1] == 226 ==> current == Some(source[..attempts[|plan| - 1].end])
    ensures IsComplete(source, first, pending, plan, replies) ==> current == Some(source)
  {
    UploadsRebuildSource(source, first, AttemptsOf(source, first, pending, plan, replies));
    assert source[..|source|] == source;
  }

  /** What uploads to dest have changed: its file, and things that users do not see but for directories above. */
  ghost predicate OnlyDest(t: FileTree, u: FileTree, dest: Path) {
    && (forall q | q in t && q != dest :: q in u && u[q] == t[q])
    && (forall q | q in u && q !in t && q != dest :: !UserPath(q) || (Under(q, dest) && u[q] == Dir))
  }

  /** What a reply of Store means for the content at the destination. */
  lemma StoredOrNot(t: FileTree, u: FileTree, dest: Path, source: seq<byte>, a: Attempt)
    requires UserPath(dest) && a.start <= a.end <= |source|
    requires a.stored ==> Uploaded(t, u, dest, Commit(a.mode, a.offset, Content(t, dest), source[a.start..a.end]))
    requires !a.stored ==> Unaffected(t, u, dest)
    ensures Content(u, dest) == AfterAttempt(source, Content(t, dest), a) && OnlyDest(t, u, dest)
  {}

  lemma OnlyDestGoesOn(t: FileTree, u: FileTree, v: FileTree, dest: Path)
    requires OnlyDest(t, u, dest) && OnlyDest(u, v, dest)
    ensures OnlyDest(t, v, dest)
  {}

  method UploadPiece(session: Session, target: Target, source: seq<byte>, piece: Piece)
    returns (reply: nat, ghost a: Attempt)
    requires session.Valid() && UserPath(target.path)
    requires OrEmpty(Content(session.root.disk.tree, target.path)) <= source
    modifies session, session.root.disk
    ensures session.Valid() && session.Pending() == None
    ensures a == AttemptOf(source, Content(old(session.root.disk.tree), target.path), old(session.Pending()),
                           piece, reply)
    ensures a.stored ==> Fits(source, Content(old(session.root.disk.tree), target.path), a)
    ensures Content(session.root.disk.tree, target.path)
            == AfterAttempt(source, Content(old(session.root.disk.tree), target.path), a)
    ensures OnlyDest(old(session.root.disk.tree), session.root.disk.tree, target.path)
  {
    ghost var t, pending := session.root.disk.tree, session.Pending();
    if piece.rest.Some? {
      var _ := session.Restart(piece.rest.value);
    }
    var offset := if session.restartSet then Some(session.restartOffset) else None;
    var (start, end) := Sent(source, Content(session.root.disk.tree, target.path), offset, piece);
    ghost var current := Content(t, target.path);
    var conn := if piece.connects then Some(Stream(source[start..end], piece.clean)) else None;
    var id := NewVersion(session.root);
    reply := session.Store(Some(target), piece.mode, conn, id);
    a := Attempt(piece.mode, offset, start, end, reply == 226);
    if reply == 226 {
      PieceFits(source, current, piece, a);
    }
    StoredOrNot(t, session.root.disk.tree, target.path, source, a);
  }

  lemma PieceFits(source: seq<byte>, current: Option<seq<byte>>, piece: Piece, a: Attempt)
    requires OrEmpty(current) <= source && Acceptable(a.mode, a.offset, current) && a.mode == piece.mode
    requires (a.start, a.end) == Sent(source, current, a.offset, piece)
    ensures Fits(source, current, a)
  {}

  /** The last piece was acknowledged and reached the end of the file. */
  predicate IsComplete(source: seq<byte>, first: Option<seq<byte>>, pending: Option<nat>, plan: seq<Piece>,
                       replies: seq<nat>)
    requires |plan| == |replies|
  {
    plan != [] && replies[|plan| - 1] == 226
    && AttemptsOf(source, first, pending, plan, replies)[|plan| - 1].end == |source|
  }

  /** A client uploads one file in pieces, in any order of first tries, resumptions and appends, over any
      connections. */
  method UploadPieces(session: Session, target: Target, source: seq<byte>, plan: seq<Piece>)
    returns (replies: seq<nat>)
    requires session.Valid() && UserPath(target.path)
    requires OrEmpty(Content(session.root.disk.tree, target.path)) <= source
    modifies session, session.root.disk
    ensures session.Valid() && session.Pending() == (if plan == [] then old(session.Pending()) else None)
    ensures |replies| == |plan|
    ensures Led(source, Content(old(session.root.disk.tree), target.path), old(session.Pending()), plan, replies,
                Content(session.root.disk.tree, target.path)) == true
    ensures OrEmpty(Content(session.root.disk.tree, target.path)) <= source
    ensures IsComplete(source, Content(old(session.root.disk.tree), target.path), old(session.Pending()),
                       plan, replies) ==>
              Content(session.root.disk.tree, target.path) == Some(source)
    ensures OnlyDest(old(session.root.disk.tree), session.root.disk.tree, target.path) == true
    decreases |plan|
  {
    ghost var t, dest, pending := session.root.disk.tree, target.path, session.Pending();
    if plan == [] {
      NothingSent(source, Content(t, dest), pending);
      return [];
    }
    var n := |plan| - 1;
    replies := UploadPieces(session, target, source, plan[..n]);
    ghost var u := session.root.disk.tree;
    var reply;
    ghost var a;
    reply, a := UploadPiece(session, target, source, plan[n]);
    OneMoreAttempt(source, Content(t, dest), pending, plan[..n], replies, Content(u, dest), plan[n], reply, a);
    AllButLast(plan);
    OnlyDestGoesOn(t, u, session.root.disk.tree, dest);
    replies := replies + [reply];
    LedToPrefix(source, Content(t, dest), pending, plan, replies, Content(session.root.disk.tree, dest));
  }

  function Joined(chunks: seq<seq<byte>>): seq<byte> {
    if chunks == [] then [] else Joined(chunks[..|chunks| - 1]) + chunks[|chunks| - 1]
  }

  /** Each download was started with REST at the number of bytes already there; the last one may have been
      complete, each one may have been broken off. */
  predicate Resumed(source: seq<byte>, chunks: seq<seq<byte>>) {
    chunks == [] ||
    (Resumed(source, chunks[..|chunks| - 1])
     && var rest := Remaining(source, Some(|Joined(chunks[..|chunks| - 1])|));
        rest.Some? && chunks[|chunks| - 1] <= rest.value)
  }

  /** The pieces of broken-off and resumed downloads join to a beginning of the file, and to all of it when
      the last was complete. */
  lemma {:induction false} DownloadsRebuildSource(source: seq<byte>, chunks: seq<seq<byte>>)
    requires Resumed(source, chunks)
    ensures Joined(chunks) <= source
    ensures chunks != [] && Some(chunks[|chunks| - 1]) == Remaining(source, Some(|Joined(chunks[..|chunks| - 1])|)) ==>
              Joined(chunks) == source
  {
    if chunks != [] {
      var before := chunks[..|chunks| - 1];
      DownloadsRebuildSource(source, before);
      var n := |Joined(before)|;
      assert Joined(before) == source[..n];
      assert source[..n] + source[n..] == source;
    }
  }
}
