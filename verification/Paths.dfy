/** The path resolver of internal/storage/storage.go: lexical cleaning, the home directory as a jail, the
    virtual "public" and "dropbox" mounts, and the inverse between virtual and real paths.

    Strings are cleaned the way the code cleans them; the lemmas then say what happens to the list of
    segments a path stands for, and the theorems about Resolve are about those lists. */
module Paths {
  import opened Common
  import opened Text

  // ---------------------------------------------------------------- strings and segments

  /** strings.Split on "/". */
  function Split(s: string): (r: Path)
    ensures |r| >= 1
  {
    if s == [] then [""]
    else if s[0] == '/' then [""] + Split(s[1..])
    else
      var r := Split(s[1..]);
      [[s[0]] + r[0]] + r[1..]
  }

  /** Each segment with a slash before it; the empty string for no segments. */
  function Abs(segs: Path): string {
    if segs == [] then "" else Abs(segs[..|segs| - 1]) + "/" + segs[|segs| - 1]
  }

  /** The normal virtual path of a list of segments. */
  function Render(segs: Path): string {
    if segs == [] then "/" else Abs(segs)
  }

  predicate PathSeg(s: string) { s != "" && s != "." && s != ".." && '/' !in s }

  predicate AllPathSegs(segs: Path) { forall i | 0 <= i < |segs| :: PathSeg(segs[i]) }

  predicate NoBackslashes(segs: Path) { forall i | 0 <= i < |segs| :: '\\' !in segs[i] }

  /** Segments as cleanVirtual yields them: also without backslashes. */
  predicate Normal(segs: Path) { AllPathSegs(segs) && NoBackslashes(segs) }

  /** Split loses only the separators. */
  lemma {:induction false} SplitPieces(s: string)
    ensures forall i | 0 <= i < |Split(s)| :: '/' !in Split(s)[i]
    ensures '\\' !in s ==> NoBackslashes(Split(s))
  {
    if s != [] {
      SplitPieces(s[1..]);
    }
  }

  lemma SplitOfCons(c: char, s: string)
    ensures Split([c] + s) == if c == '/' then [""] + Split(s) else [[c] + Split(s)[0]] + Split(s)[1..]
  {
    assert ([c] + s)[1..] == s;
  }

  lemma {:induction false} SplitOfConcat(a: string, b: string)
    ensures Split(a + "/" + b) == Split(a) + Split(b)
  {
    if a == [] {
      assert a + "/" + b == ['/'] + b;
      SplitOfCons('/', b);
    } else {
      var rest := a[1..];
      assert a == [a[0]] + rest && a + "/" + b == [a[0]] + (rest + "/" + b);
      SplitOfConcat(rest, b);
      SplitOfCons(a[0], rest);
      SplitOfCons(a[0], rest + "/" + b);
      ConcatHeads(a[0], Split(rest), Split(b));
    }
  }

  lemma ConcatHeads(c: char, r: Path, t: Path)
    requires r != []
    ensures [""] + (r + t) == ([""] + r) + t
    ensures [[c] + (r + t)[0]] + (r + t)[1..] == ([[c] + r[0]] + r[1..]) + t
  {
    assert (r + t)[1..] == r[1..] + t;
  }

  lemma {:induction false} SplitOfPlain(s: string)
    requires '/' !in s
    ensures Split(s) == [s]
  {
    if s != [] {
      SplitOfPlain(s[1..]);
      assert [s[0]] + s[1..] == s;
    }
  }

  lemma {:induction false} SplitOfAbs(segs: Path)
    requires AllPathSegs(segs)
    ensures Split(Abs(segs)) == [""] + segs
  {
    if segs != [] {
      var n := |segs| - 1;
      SplitOfAbs(segs[..n]);
      SplitOfConcat(Abs(segs[..n]), segs[n]);
      SplitOfPlain(segs[n]);
      assert segs == segs[..n] + [segs[n]];
    }
  }

  lemma {:induction false} AbsOfConcat(a: Path, b: Path)
    ensures Abs(a + b) == Abs(a) + Abs(b)
    decreases |b|
  {
    if b == [] {
      assert a + b == a;
    } else {
      AbsOfConcat(a, b[..|b| - 1]);
      assert (a + b)[..|a + b| - 1] == a + b[..|b| - 1];
    }
  }

  lemma {:induction false} AbsStartsWithSlash(segs: Path)
    requires segs != []
    ensures Abs(segs) != "" && Abs(segs)[0] == '/'
    decreases |segs|
  {
    if |segs| > 1 {
      AbsStartsWithSlash(segs[..|segs| - 1]);
    }
  }

  lemma OneSegment(s: string)
    ensures Abs([s]) == "/" + s
  {
    assert [s][..0] == [];
    assert Abs([s][..0]) == "";
  }

  lemma StringPrefixIsPrefix(a: Path, b: Path, rest: string)
    requires AllPathSegs(a) && AllPathSegs(b) && Abs(b) == Abs(a) + "/" + rest
    ensures b == a + Split(rest)
  {
    SplitOfConcat(Abs(a), rest);
    SplitOfAbs(a);
    SplitOfAbs(b);
    SameTails(b, a, Split(rest));
  }

  lemma SameTails(x: Path, a: Path, b: Path)
    requires [""] + x == ([""] + a) + b
    ensures x == a + b
  {
    assert x == ([""] + x)[1..] && a + b == (([""] + a) + b)[1..];
  }

  lemma PrefixIsStringPrefix(a: Path, b: Path)
    requires Under(a, b) && a != b
    ensures HasPrefix(Abs(b), Abs(a) + "/") && Abs(b)[|Abs(a)| + 1..] == Abs(b[|a|..])[1..]
  {
    assert b == a + b[|a|..];
    AbsOfConcat(a, b[|a|..]);
    AbsStartsWithSlash(b[|a|..]);
  }

  /** The string test for "below" is the segment test. */
  lemma BelowIsProperPrefix(a: Path, b: Path)
    requires AllPathSegs(a) && AllPathSegs(b)
    ensures HasPrefix(Abs(b), Abs(a) + "/") <==> Under(a, b) && a != b
  {
    if HasPrefix(Abs(b), Abs(a) + "/") {
      var rest := Abs(b)[|Abs(a)| + 1..];
      StringPrefixIsPrefix(a, b, rest);
    }
    if Under(a, b) && a != b {
      PrefixIsStringPrefix(a, b);
    }
  }

  // ---------------------------------------------------------------- filepath.Clean and filepath.Join

  /** One segment of a path being cleaned, on the stack of segments kept so far. */
  function Push(rooted: bool, stack: Path, seg: string): Path {
    if seg == "" || seg == "." then stack
    else if seg == ".." then
      if stack != [] && stack[|stack| - 1] != ".." then stack[..|stack| - 1]
      else if rooted then stack else stack + [".."]
    else stack + [seg]
  }

  function Fold(rooted: bool, stack: Path, segs: Path): Path
    decreases |segs|
  {
    if segs == [] then stack else Push(rooted, Fold(rooted, stack, segs[..|segs| - 1]), segs[|segs| - 1])
  }

  function Clean(path: string): string {
    if path == "" then "."
    else if path[0] == '/' then Render(Stack(path))
    else
      var stack := Fold(false, [], Split(path));
      if stack == [] then "." else Abs(stack)[1..]
  }

  /** What cleaning a rooted path keeps of it. */
  function Stack(path: string): Path { Fold(true, [], Split(path)) }

  function Join(a: string, b: string): string {
    if a != "" then Clean(a + "/" + b) else if b != "" then Clean(b) else ""
  }

  lemma {:induction false} FoldOfConcat(rooted: bool, stack: Path, a: Path, b: Path)
    ensures Fold(rooted, stack, a + b) == Fold(rooted, Fold(rooted, stack, a), b)
    decreases |b|
  {
    if b == [] {
      assert a + b == a;
    } else {
      FoldOfConcat(rooted, stack, a, b[..|b| - 1]);
      assert (a + b)[..|a + b| - 1] == a + b[..|b| - 1];
    }
  }

  lemma FoldOfOne(rooted: bool, stack: Path, seg: string)
    ensures Fold(rooted, stack, [seg]) == Push(rooted, stack, seg)
  {
    assert [seg][..0] == [];
    assert Fold(rooted, stack, [seg][..0]) == stack;
  }

  lemma StackOfConcat(a: string, b: string)
    ensures Stack(a + "/" + b) == Fold(true, Stack(a), Split(b))
  {
    SplitOfConcat(a, b);
    FoldOfConcat(true, [], Split(a), Split(b));
  }

  lemma StackOfSlash(a: string)
    ensures Stack(a + "/") == Stack(a)
  {
    assert a + "/" + "" == a + "/";
    StackOfConcat(a, "");
    FoldOfOne(true, Stack(a), "");
  }

  lemma StackOfEmpty()
    ensures Stack("") == [] && Stack("/") == []
  {
    FoldOfOne(true, [], "");
    StackOfSlash("");
    assert "" + "/" == "/";
  }

  /** Cleaning keeps the segments of a path that has nothing to clean. */
  lemma {:induction false} StackOfAbs(a: string, segs: Path)
    requires AllPathSegs(segs)
    ensures Stack(a + Abs(segs)) == Stack(a) + segs
    decreases |segs|
  {
    if segs == [] {
      assert a + Abs(segs) == a;
    } else {
      var init, last := segs[..|segs| - 1], segs[|segs| - 1];
      StackOfAbs(a, init);
      assert a + Abs(segs) == (a + Abs(init)) + "/" + last;
      StackOfOneMore(a + Abs(init), last);
      assert Stack(a) + segs == Stack(a) + init + [last];
    }
  }

  lemma StackOfOneMore(a: string, last: string)
    requires PathSeg(last)
    ensures Stack(a + "/" + last) == Stack(a) + [last]
  {
    StackOfConcat(a, last);
    SplitOfPlain(last);
    FoldOfOne(true, Stack(a), last);
  }

  lemma StackOfRender(segs: Path)
    requires AllPathSegs(segs)
    ensures Stack(Render(segs)) == segs
  {
    StackOfEmpty();
    StackOfAbs("", segs);
    assert "" + Abs(segs) == Abs(segs);
    assert [] + segs == segs;
  }

  /** A normal path determines its segments. */
  lemma RenderInjective(a: Path, b: Path)
    requires AllPathSegs(a) && AllPathSegs(b) && Render(a) == Render(b)
    ensures a == b
  {
    StackOfRender(a);
    StackOfRender(b);
  }

  /** Cleaning a rooted path leaves no empty, "." or ".." segment and no separator. */
  lemma {:induction false} FoldIsNormal(segs: Path)
    requires forall i | 0 <= i < |segs| :: '/' !in segs[i]
    ensures AllPathSegs(Fold(true, [], segs))
    ensures NoBackslashes(segs) ==> NoBackslashes(Fold(true, [], segs))
    decreases |segs|
  {
    if segs != [] {
      FoldIsNormal(segs[..|segs| - 1]);
    }
  }

  // ---------------------------------------------------------------- cleanVirtual

  /** strings.ReplaceAll of backslashes by slashes. */
  function Slashes(s: string): (r: string)
    ensures |r| == |s| && '\\' !in r
    ensures '\\' !in s ==> r == s
  {
    if s == [] then [] else [if s[0] == '\\' then '/' else s[0]] + Slashes(s[1..])
  }

  function CleanVirtual(p: string): string {
    var p := TrimSpace(Slashes(p));
    if p == "" then "/"
    else
      var clean := Clean("/" + TrimPrefix(p, "/"));
      if clean == "." then "/" else clean
  }

  /** The segments of the path that cleanVirtual returns. */
  function VirtualSegs(p: string): Path {
    var p := TrimSpace(Slashes(p));
    if p == "" then [] else Stack("/" + TrimPrefix(p, "/"))
  }

  lemma RenderStartsWithSlash(segs: Path)
    ensures Render(segs) != "" && Render(segs)[0] == '/'
  {
    if segs != [] {
      AbsStartsWithSlash(segs);
    }
  }

  /** cleanVirtual always yields "/" or "/s1/.../sn" with no empty, "." or ".." segment and no slash or
      backslash inside one. */
  lemma CleanVirtualIsNormal(p: string)
    ensures CleanVirtual(p) == Render(VirtualSegs(p)) && Normal(VirtualSegs(p))
  {
    var q := TrimSpace(Slashes(p));
    if q != "" {
      SlashesSurvive(p);
      StackIsNormal("/" + TrimPrefix(q, "/"));
      RenderStartsWithSlash(VirtualSegs(p));
    }
  }

  lemma StackIsNormal(full: string)
    requires '\\' !in full
    ensures Normal(Stack(full))
  {
    SplitPieces(full);
    FoldIsNormal(Split(full));
  }

  lemma SlashesSurvive(p: string)
    ensures '\\' !in "/" + TrimPrefix(TrimSpace(Slashes(p)), "/")
  {
    TrimDropsOnly(Slashes(p), '\\');
    assert "/"[0] != '\\';
  }

  lemma TrimDropsOnly(s: string, c: char)
    requires c !in s
    ensures c !in TrimSpace(s)
  {
    var t := TrimLeft(s);
    assert c !in t;
    assert c !in TrimRight(t);
  }

  /** What cleaning once more does to a normal path: only its last segment can lose trailing space. */
  function Trimmed(segs: Path): Path {
    if segs == [] then [] else Push(true, segs[..|segs| - 1], TrimRight(segs[|segs| - 1]))
  }

  lemma {:induction false} TrimRightOfConcat(a: string, b: string)
    requires a != "" && !IsSpace(a[|a| - 1])
    ensures TrimRight(a + b) == a + TrimRight(b)
    decreases |b|
  {
    if b == "" {
      assert a + b == a;
    } else if IsSpace(b[|b| - 1]) {
      TrimRightOfConcat(a, b[..|b| - 1]);
      assert (a + b)[..|a + b| - 1] == a + b[..|b| - 1];
    }
  }

  lemma PushIsNormal(stack: Path, seg: string)
    requires Normal(stack) && '/' !in seg && '\\' !in seg
    ensures Normal(Push(true, stack, seg))
  {}

  lemma TrimmedIsNormal(segs: Path)
    requires Normal(segs)
    ensures Normal(Trimmed(segs))
  {
    if segs != [] {
      var last := segs[|segs| - 1];
      assert PathSeg(last);
      assert forall c | c in TrimRight(last) :: c in last;
      PushIsNormal(segs[..|segs| - 1], TrimRight(last));
    }
  }

  lemma NoBackslashInAbs(segs: Path)
    requires NoBackslashes(segs)
    ensures '\\' !in Abs(segs)
  {
    if segs != [] {
      NoBackslashInAbs(segs[..|segs| - 1]);
    }
  }

  /** A path that starts with a slash only loses white space at its end. */
  lemma TrimSpaceOfRooted(head: string, last: string)
    requires head != "" && head[0] == '/' && head[|head| - 1] == '/'
    ensures TrimSpace(head + last) == head + TrimRight(last)
  {
    assert TrimLeft(head + last) == head + last;
    TrimRightOfConcat(head, last);
  }

  lemma StackOfLast(init: Path, t: string)
    requires AllPathSegs(init) && '/' !in t
    ensures Stack(Abs(init) + "/" + t) == Push(true, init, t)
  {
    StackOfConcat(Abs(init), t);
    StackOfAbs("", init);
    StackOfEmpty();
    assert "" + Abs(init) == Abs(init) && [] + init == init;
    SplitOfPlain(t);
    FoldOfOne(true, init, t);
  }

  lemma TrimOfRender(segs: Path)
    requires Normal(segs) && segs != []
    ensures TrimSpace(Slashes(Render(segs))) == Abs(segs[..|segs| - 1]) + "/" + TrimRight(segs[|segs| - 1])
  {
    var init, last := segs[..|segs| - 1], segs[|segs| - 1];
    var head := Abs(init) + "/";
    NoBackslashInAbs(segs);
    assert Render(segs) == head + last;
    if init != [] {
      AbsStartsWithSlash(init);
    }
    TrimSpaceOfRooted(head, last);
  }

  lemma Reslash(q: string)
    requires q != "" && q[0] == '/'
    ensures "/" + TrimPrefix(q, "/") == q
  {}

  lemma VirtualSegsOfSlash()
    ensures VirtualSegs("/") == []
  {
    TrimSpaceOfRooted("/", "");
    assert "/" + "" == "/" && Slashes("/") == "/";
    Reslash("/");
    StackOfEmpty();
  }

  lemma VirtualSegsOfNormal(segs: Path)
    requires Normal(segs)
    ensures VirtualSegs(Render(segs)) == Trimmed(segs)
  {
    if segs == [] {
      VirtualSegsOfSlash();
    } else {
      var init, t := segs[..|segs| - 1], TrimRight(segs[|segs| - 1]);
      var q := Abs(init) + "/" + t;
      TrimOfRender(segs);
      StackOfLast(init, t);
      if init != [] {
        AbsStartsWithSlash(init);
      }
      Reslash(q);
    }
  }

  lemma CleanVirtualOfNormal(segs: Path)
    requires Normal(segs)
    ensures CleanVirtual(Render(segs)) == Render(Trimmed(segs))
  {
    CleanVirtualIsNormal(Render(segs));
    VirtualSegsOfNormal(segs);
  }

  predicate EndsInSpace(s: string) { s != "" && IsSpace(s[|s| - 1]) }

  lemma TrimmedFixed(segs: Path)
    requires Normal(segs)
    ensures Trimmed(segs) == segs <==> !EndsInSpace(Render(segs))
  {
    if segs == [] {
      assert !IsSpace('/');
    } else {
      var last := segs[|segs| - 1];
      assert Render(segs)[|Render(segs)| - 1] == last[|last| - 1];
      if IsSpace(last[|last| - 1]) {
        assert |TrimRight(last)| < |last|;
      } else {
        assert TrimRight(last) == last;
        assert segs == segs[..|segs| - 1] + [last];
      }
    }
  }

  lemma TrimmedTwiceFixed(segs: Path)
    requires Normal(segs)
    ensures Trimmed(Trimmed(segs)) == segs <==> !EndsInSpace(Render(segs))
  {
    TrimmedFixed(segs);
    if Trimmed(segs) != segs {
      var init, t := segs[..|segs| - 1], TrimRight(segs[|segs| - 1]);
      TrimmedIsShorter(segs);
      TrimmedIsShorter(Trimmed(segs));
      if |Trimmed(segs)| == |segs| {
        assert Trimmed(segs) == init + [t] && TrimRight(t) == t;
      }
    }
  }

  lemma TrimmedIsShorter(segs: Path)
    ensures |Trimmed(segs)| <= |segs|
  {}

  /** Cleaning is the identity on a normal path exactly when the path does not end in white space, so
      cleaning twice is cleaning once exactly when the first result does not. */
  lemma CleanVirtualIdempotentIff(p: string)
    ensures CleanVirtual(CleanVirtual(p)) == CleanVirtual(p) <==> !EndsInSpace(CleanVirtual(p))
  {
    CleanVirtualIsNormal(p);
    var segs := VirtualSegs(p);
    CleanVirtualOfNormal(segs);
    TrimmedFixed(segs);
    TrimmedIsNormal(segs);
    if CleanVirtual(CleanVirtual(p)) == CleanVirtual(p) {
      RenderInjective(Trimmed(segs), segs);
    }
  }

  // ---------------------------------------------------------------- full paths

  function RealFromVirtual(base: string, virtual: string): Option<string> {
    var full := Clean(Join(base, TrimPrefix(virtual, "/")));
    if full != base && !HasPrefix(full, base + "/") then None else Some(full)
  }

  /** filepath.Rel is only reached for a path at or below the base. */
  function RelFromReal(base: string, full: string): Option<string> {
    var full := Clean(full);
    if full != base && !HasPrefix(full, base + "/") then None
    else if full == base then Some(".")
    else Some(full[|base| + 1..])
  }

  lemma CleanOfAbs(segs: Path)
    requires AllPathSegs(segs) && segs != []
    ensures Clean(Abs(segs)) == Abs(segs)
  {
    AbsStartsWithSlash(segs);
    StackOfRender(segs);
  }

  /** The rest of a path after a mount point or base, as the code cuts and joins it. */
  function Tail(segs: Path): string {
    if segs == [] then "" else Abs(segs)[1..]
  }

  lemma StackOfTail(a: string, segs: Path)
    requires AllPathSegs(segs)
    ensures Stack(a + "/" + Tail(segs)) == Stack(a) + segs
  {
    if segs == [] {
      assert a + "/" + "" == a + "/";
      StackOfSlash(a);
      assert Stack(a) + segs == Stack(a);
    } else {
      AbsStartsWithSlash(segs);
      assert a + "/" + Tail(segs) == a + Abs(segs);
      StackOfAbs(a, segs);
    }
  }

  /** Joining a clean base and a normal path appends the segments. */
  lemma JoinAppends(base: Path, segs: Path)
    requires base != [] && AllPathSegs(base) && AllPathSegs(segs)
    ensures Join(Abs(base), Tail(segs)) == Abs(base + segs)
  {
    AbsStartsWithSlash(base);
    StackOfTail(Abs(base), segs);
    StackOfRender(base);
  }

  lemma TailOfRender(segs: Path)
    ensures TrimPrefix(Render(segs), "/") == Tail(segs)
  {
    RenderStartsWithSlash(segs);
  }

  lemma RealOfNormal(base: Path, segs: Path)
    requires base != [] && AllPathSegs(base) && AllPathSegs(segs)
    ensures RealFromVirtual(Abs(base), Render(segs)) == Some(Abs(base + segs))
  {
    TailOfRender(segs);
    JoinAppends(base, segs);
    CleanOfAbs(base + segs);
    BaseOrBelow(base, segs);
  }

  lemma BackFromReal(base: Path, segs: Path)
    requires base != [] && AllPathSegs(base) && AllPathSegs(segs)
    ensures RelFromReal(Abs(base), Abs(base + segs)) == Some(if segs == [] then "." else Render(segs)[1..])
  {
    CleanOfAbs(base + segs);
    BaseOrBelow(base, segs);
  }

  /** On normal paths the conversion never fails, and converting back gives the path without its slash. */
  lemma RealAndBack(base: Path, segs: Path)
    requires base != [] && AllPathSegs(base) && AllPathSegs(segs)
    ensures var full := RealFromVirtual(Abs(base), Render(segs));
            full.Some? && RelFromReal(Abs(base), full.value) == Some(if segs == [] then "." else Render(segs)[1..])
  {
    RealOfNormal(base, segs);
    BackFromReal(base, segs);
  }

  lemma BaseOrBelow(base: Path, segs: Path)
    requires base != [] && AllPathSegs(base) && AllPathSegs(segs)
    ensures segs == [] ==> Abs(base + segs) == Abs(base)
    ensures segs != [] ==> Abs(base + segs) != Abs(base) && HasPrefix(Abs(base + segs), Abs(base) + "/")
    ensures segs != [] ==> Abs(base + segs)[|Abs(base)| + 1..] == Render(segs)[1..]
  {
    if segs == [] {
      assert base + segs == base;
    } else {
      assert (base + segs)[|base|..] == segs && (base + segs)[..|base|] == base;
      PrefixIsStringPrefix(base, base + segs);
    }
  }

  // ---------------------------------------------------------------- Resolve

  const PUBLIC := "public"
  const DROPBOX := "dropbox"

  /** `ignored` stands for the configured patterns; base is the list of the base directory's segments. */
  datatype Root = Root(base: Path, publicDir: string, dropboxDir: string, ignored: string -> bool) {
    /** A clean base other than "/", and single ordinary directory names. */
    ghost predicate Valid() {
      base != [] && AllPathSegs(base) && Ordinary(publicDir) && Ordinary(dropboxDir)
    }
  }

  datatype User = User(username: string, home: string, public: bool, dropbox: bool)

  predicate Ordinary(name: string) { Normal([name]) && !EndsInSpace(name) }

  const TRASH := "._macftpd_trash"
  const VERSIONS := "._macftpd_versions"
  const UPLOADS := "._macftpd_uploads"

  /** The names of the storage layer's own directories. */
  predicate IsInternal(name: string) {
    name == TRASH || name == VERSIONS || name == UPLOADS
  }

  predicate IsIgnoredVirtual(r: Root, virtual: string) {
    var virtual := CleanVirtual(virtual);
    if virtual == "/" then false
    else
      var segs := Split(TrimPrefix(virtual, "/"));
      exists i :: 0 <= i < |segs| && (IsInternal(segs[i]) || r.ignored(segs[i]))
  }

  function PathJoinVirtual(base: string, name: string): string {
    if base == "/" then "/" + name else Join(base, name)
  }

  function MountSuffix(home: string, virtual: string, mount: string): Option<string> {
    var root := PathJoinVirtual(home, mount);
    if virtual == root then Some("")
    else if HasPrefix(virtual, root + "/") then Some(TrimPrefix(virtual, root + "/"))
    else None
  }

  function MountVirtual(r: Root, user: User, home: string, virtual: string): string {
    var public := if user.public then MountSuffix(home, virtual, PUBLIC) else None;
    var dropbox := if user.dropbox then MountSuffix(home, virtual, DROPBOX) else None;
    if public.Some? then CleanVirtual(Clean("/" + "/" + r.publicDir + "/" + public.value))
    else if dropbox.Some? then CleanVirtual(Clean("/" + "/" + r.dropboxDir + "/" + user.username + "/" + dropbox.value))
    else virtual
  }

  /** The real and the virtual path of an accepted request. */
  function Resolve(r: Root, user: User, cwd: string, requested: string): Option<(string, string)> {
    var home := CleanVirtual(user.home);
    var requested := if requested == "" then cwd else requested;
    var virtual := if HasPrefix(requested, "/") then CleanVirtual(requested) else CleanVirtual(Join(cwd, requested));
    var mounted := MountVirtual(r, user, home, virtual);
    if home != "/" && virtual != home && !HasPrefix(virtual, home + "/") then None
    else if IsIgnoredVirtual(r, mounted) then None
    else
      var full := RealFromVirtual(Abs(r.base), mounted);
      if full.None? then None else Some((full.value, virtual))
  }

  function ResolveAdmin(r: Root, virtual: string): Option<(string, string)> {
    var virtual := CleanVirtual(virtual);
    if IsIgnoredVirtual(r, virtual) then None
    else
      var full := RealFromVirtual(Abs(r.base), virtual);
      if full.None? then None else Some((full.value, virtual))
  }

  // ---------------------------------------------------------------- Resolve, on segments

  predicate Visible(r: Root, segs: Path) {
    forall i | 0 <= i < |segs| :: !IsInternal(segs[i]) && !r.ignored(segs[i])
  }

  lemma IgnoredIffHidden(r: Root, p: string)
    ensures IsIgnoredVirtual(r, p) <==> !Visible(r, VirtualSegs(p))
  {
    var t := VirtualSegs(p);
    CleanVirtualIsNormal(p);
    if t != [] {
      RenderNotSlash(t);
      TailOfRender(t);
      SplitOfTail(t);
    }
  }

  lemma IgnoredOnSegments(r: Root, segs: Path)
    requires Normal(segs)
    ensures IsIgnoredVirtual(r, Render(segs)) <==> !Visible(r, Trimmed(segs))
  {
    IgnoredIffHidden(r, Render(segs));
    VirtualSegsOfNormal(segs);
  }

  lemma SplitOfTail(segs: Path)
    requires AllPathSegs(segs) && segs != []
    ensures Split(Tail(segs)) == segs
  {
    AbsStartsWithSlash(segs);
    assert Abs(segs) == "" + "/" + Tail(segs);
    SplitOfConcat("", Tail(segs));
    SplitOfAbs(segs);
    assert Split(Tail(segs)) == ([""] + Split(Tail(segs)))[1..] == ([""] + segs)[1..] == segs;
  }

  /** The part of a path below a mount point of the home directory, if it is there. */
  function Below(mount: Path, segs: Path): Option<Path> {
    if Under(mount, segs) then Some(segs[|mount|..]) else None
  }

  function MountSegs(r: Root, user: User, home: Path, segs: Path): Path {
    var public := if user.public then Below(home + [PUBLIC], segs) else None;
    var dropbox := if user.dropbox then Below(home + [DROPBOX], segs) else None;
    if public.Some? then Trimmed([r.publicDir] + public.value)
    else if dropbox.Some? then Trimmed([r.dropboxDir, user.username] + dropbox.value)
    else segs
  }

  lemma MountPoint(home: Path, mount: string)
    requires Normal(home) && PathSeg(mount)
    ensures PathJoinVirtual(Render(home), mount) == Abs(home + [mount])
  {
    OneSegment(mount);
    if home == [] {
      assert home + [mount] == [mount];
    } else {
      RenderNotSlash(home);
      JoinAppends(home, [mount]);
      assert Tail([mount]) == mount;
    }
  }

  lemma MountSuffixAbove(home: Path, segs: Path, mount: string)
    requires Normal(home) && Normal(segs) && PathSeg(mount) && !Under(home + [mount], segs)
    ensures MountSuffix(Render(home), Render(segs), mount) == None
  {
    var root := home + [mount];
    MountPoint(home, mount);
    RenderNotSlash(root);
    if segs != [] {
      BelowIsProperPrefix(root, segs);
      if Abs(segs) == Abs(root) {
        RenderInjective(segs, root);
      }
    }
  }

  lemma SuffixOf(home: string, mount: string, root: string, rest: string)
    requires PathJoinVirtual(home, mount) == root && rest != "" && rest[0] == '/'
    ensures MountSuffix(home, root + rest, mount) == Some(rest[1..])
  {
    assert rest == "/" + rest[1..];
    assert root + rest == (root + "/") + rest[1..];
  }

  lemma MountSuffixAt(home: Path, mount: string)
    requires Normal(home) && PathSeg(mount)
    ensures MountSuffix(Render(home), Render(home + [mount]), mount) == Some("")
  {
    MountPoint(home, mount);
  }

  lemma MountSuffixBelow(home: Path, rest: Path, mount: string)
    requires Normal(home) && PathSeg(mount) && rest != []
    ensures MountSuffix(Render(home), Abs(home + [mount] + rest), mount) == Some(Tail(rest))
  {
    MountPoint(home, mount);
    AbsOfConcat(home + [mount], rest);
    AbsStartsWithSlash(rest);
    SuffixOf(Render(home), mount, Abs(home + [mount]), Abs(rest));
  }

  lemma ProperPrefixSplits(a: Path, b: Path)
    requires Under(a, b) && a != b
    ensures b == a + b[|a|..] && b[|a|..] != [] && b != []
  {
    assert b[..|b|] == b;
  }

  lemma MountSuffixOnSegments(home: Path, segs: Path, mount: string)
    requires Normal(home) && Normal(segs) && PathSeg(mount)
    ensures MountSuffix(Render(home), Render(segs), mount) ==
            (match Below(home + [mount], segs)
             case None => None
             case Some(rest) => Some(Tail(rest)))
  {
    if segs == home + [mount] {
      MountSuffixAt(home, mount);
      assert segs[|home| + 1..] == [];
    } else if Under(home + [mount], segs) {
      ProperPrefixSplits(home + [mount], segs);
      MountSuffixBelow(home, segs[|home + [mount]|..], mount);
    } else {
      MountSuffixAbove(home, segs, mount);
    }
  }

  lemma RenderNotSlash(segs: Path)
    requires AllPathSegs(segs) && segs != []
    ensures |Abs(segs)| > 1 && Render(segs) != "/"
  {
    assert PathSeg(segs[|segs| - 1]);
  }

  /** Cleaning "/" + "/" + the mount's directory + the rest, as mountVirtual joins them. */
  lemma MountJoin(dirs: Path, rest: Path, joined: string)
    requires dirs != [] && Normal(dirs) && Normal(rest) && joined == "/" + Abs(dirs) + "/" + Tail(rest)
    ensures CleanVirtual(Clean(joined)) == Render(Trimmed(dirs + rest))
  {
    MountStack(dirs, rest);
    CleanOfRooted(joined);
    NormalConcat(dirs, rest);
    CleanVirtualOfNormal(dirs + rest);
  }

  lemma MountStack(dirs: Path, rest: Path)
    requires AllPathSegs(dirs) && AllPathSegs(rest)
    ensures Stack("/" + Abs(dirs) + "/" + Tail(rest)) == dirs + rest
  {
    StackOfTail("/" + Abs(dirs), rest);
    StackOfAbs("/", dirs);
    StackOfEmpty();
    assert [] + dirs == dirs;
  }

  lemma CleanOfRooted(p: string)
    requires p != "" && p[0] == '/'
    ensures Clean(p) == Render(Stack(p))
  {}

  lemma NormalConcat(a: Path, b: Path)
    requires Normal(a) && Normal(b)
    ensures Normal(a + b)
  {}

  lemma PublicText(d: string, t: string)
    ensures "/" + "/" + d + "/" + t == "/" + Abs([d]) + "/" + t
  {
    OneSegment(d);
    assert "/" + "/" + d == "/" + ("/" + d);
  }

  lemma DropboxText(d: string, u: string, t: string)
    ensures "/" + "/" + d + "/" + u + "/" + t == "/" + Abs([d, u]) + "/" + t
  {
    PublicText(d, u);
    assert [d, u][..1] == [d];
    assert "/" + Abs([d, u]) == "/" + Abs([d]) + "/" + u;
  }

  lemma PublicJoin(dir: string, rest: Path, joined: string)
    requires Normal([dir]) && Normal(rest) && joined == "/" + "/" + dir + "/" + Tail(rest)
    ensures CleanVirtual(Clean(joined)) == Render(Trimmed([dir] + rest))
  {
    PublicText(dir, Tail(rest));
    MountJoin([dir], rest, joined);
  }

  lemma MountedIsNormal(dirs: Path, rest: Path)
    requires Normal(dirs) && Normal(rest)
    ensures Normal(Trimmed(dirs + rest))
  {
    NormalConcat(dirs, rest);
    TrimmedIsNormal(dirs + rest);
  }

  lemma TwoOrdinary(d: string, u: string)
    requires Ordinary(d) && Ordinary(u)
    ensures Normal([d, u])
  {
    assert PathSeg([d][0]) && PathSeg([u][0]) && '\\' !in [d][0] && '\\' !in [u][0];
  }

  lemma DropboxJoin(dir: string, username: string, rest: Path, joined: string)
    requires Normal([dir, username]) && Normal(rest)
    requires joined == "/" + "/" + dir + "/" + username + "/" + Tail(rest)
    ensures CleanVirtual(Clean(joined)) == Render(Trimmed([dir, username] + rest))
  {
    DropboxText(dir, username, Tail(rest));
    MountJoin([dir, username], rest, joined);
  }

  lemma NormalRest(segs: Path, n: nat)
    requires Normal(segs)
    ensures n <= |segs| ==> Normal(segs[n..])
  {}

  lemma MountOnSegments(r: Root, user: User, home: Path, segs: Path)
    requires r.Valid() && Ordinary(user.username) && Normal(home) && Normal(segs)
    ensures MountVirtual(r, user, Render(home), Render(segs)) == Render(MountSegs(r, user, home, segs))
    ensures Normal(MountSegs(r, user, home, segs))
  {
    MountSuffixOnSegments(home, segs, PUBLIC);
    MountSuffixOnSegments(home, segs, DROPBOX);
    var public := if user.public then Below(home + [PUBLIC], segs) else None;
    var dropbox := if user.dropbox then Below(home + [DROPBOX], segs) else None;
    NormalRest(segs, |home| + 1);
    if public.Some? {
      MountedIsNormal([r.publicDir], public.value);
      PublicJoin(r.publicDir, public.value, "/" + "/" + r.publicDir + "/" + Tail(public.value));
    } else if dropbox.Some? {
      TwoOrdinary(r.dropboxDir, user.username);
      MountedIsNormal([r.dropboxDir, user.username], dropbox.value);
      DropboxJoin(r.dropboxDir, user.username, dropbox.value,
                  "/" + "/" + r.dropboxDir + "/" + user.username + "/" + Tail(dropbox.value));
    }
  }

  /** The segments of the cleaned request. */
  function RequestSegs(cwd: string, requested: string): Path { VirtualSegs(RequestPath(cwd, requested)) }

  function RequestPath(cwd: string, requested: string): string {
    var requested := if requested == "" then cwd else requested;
    if HasPrefix(requested, "/") then requested else Join(cwd, requested)
  }

  lemma RequestIsNormal(cwd: string, requested: string)
    ensures Normal(RequestSegs(cwd, requested))
  {
    CleanVirtualIsNormal(RequestPath(cwd, requested));
  }

  /** Resolve accepts exactly the requests below the home directory whose mounted path, cleaned once
      more, has no hidden segment; the real path is the mounted path below the base. */
  lemma ResolveOnSegments(r: Root, user: User, cwd: string, requested: string)
    requires r.Valid() && Ordinary(user.username)
    ensures var home, segs := VirtualSegs(user.home), RequestSegs(cwd, requested);
            var mounted := MountSegs(r, user, home, segs);
            Resolve(r, user, cwd, requested) ==
            if Under(home, segs) && Visible(r, Trimmed(mounted))
            then Some((Abs(r.base + mounted), Render(segs))) else None
  {
    var home, segs := VirtualSegs(user.home), RequestSegs(cwd, requested);
    CleanVirtualIsNormal(user.home);
    RequestIsNormal(cwd, requested);
    CleanVirtualIsNormal(RequestPath(cwd, requested));
    var mounted := MountSegs(r, user, home, segs);
    MountOnSegments(r, user, home, segs);
    IgnoredOnSegments(r, mounted);
    RealOfNormal(r.base, mounted);
    if home != [] {
      RenderNotSlash(home);
      InHome(home, segs);
    }
  }

  lemma ResolveTo(r: Root, user: User, cwd: string, requested: string, home: Path, segs: Path, mounted: Path)
    requires r.Valid() && Ordinary(user.username) && VirtualSegs(user.home) == home
    requires RequestSegs(cwd, requested) == segs && MountSegs(r, user, home, segs) == mounted
    ensures Resolve(r, user, cwd, requested) ==
            if Under(home, segs) && Visible(r, Trimmed(mounted))
            then Some((Abs(r.base + mounted), Render(segs))) else None
  {
    ResolveOnSegments(r, user, cwd, requested);
  }

  lemma InHome(home: Path, segs: Path)
    requires AllPathSegs(home) && AllPathSegs(segs) && home != []
    ensures Render(segs) == Render(home) || HasPrefix(Render(segs), Render(home) + "/") <==> Under(home, segs)
  {
    if segs == [] {
      RenderNotSlash(home);
    } else {
      BelowIsProperPrefix(home, segs);
      if Render(segs) == Render(home) {
        RenderInjective(segs, home);
      }
    }
  }

  // ---------------------------------------------------------------- what a request names

  predicate IsRelative(requested: string) { requested != "" && requested[0] != '/' && '\\' !in requested }

  lemma JoinOfRelative(c: Path, requested: string)
    requires AllPathSegs(c) && IsRelative(requested)
    ensures Join(Render(c), requested) == Render(Fold(true, c, Split(requested)))
  {
    var full := Render(c) + "/" + requested;
    RenderStartsWithSlash(c);
    assert full[0] == '/';
    StackOfConcat(Render(c), requested);
    StackOfRender(c);
  }

  /** A relative request walks from the current directory, segment by segment. */
  lemma RelativeOnSegments(c: Path, requested: string)
    requires Normal(c) && IsRelative(requested)
    ensures RequestSegs(Render(c), requested) == Trimmed(Fold(true, c, Split(requested)))
    ensures Normal(Fold(true, c, Split(requested)))
  {
    var walked := Fold(true, c, Split(requested));
    RelativePath(c, requested);
    WalkedIsNormal(c, requested);
    VirtualSegsOfNormal(walked);
  }

  lemma RelativePath(c: Path, requested: string)
    requires AllPathSegs(c) && IsRelative(requested)
    ensures RequestPath(Render(c), requested) == Render(Fold(true, c, Split(requested)))
  {
    RelativeIsJoined(Render(c), requested);
    JoinOfRelative(c, requested);
  }

  lemma RelativeIsJoined(cwd: string, requested: string)
    requires IsRelative(requested)
    ensures RequestPath(cwd, requested) == Join(cwd, requested)
  {}

  lemma WalkedIsNormal(c: Path, requested: string)
    requires Normal(c) && IsRelative(requested)
    ensures Normal(Fold(true, c, Split(requested)))
  {
    StackOfConcat(Render(c), requested);
    StackOfRender(c);
    NoBackslashInRender(c);
    StackIsNormal(Render(c) + "/" + requested);
  }

  lemma NoBackslashInRender(segs: Path)
    requires NoBackslashes(segs)
    ensures '\\' !in Render(segs)
  {
    NoBackslashInAbs(segs);
  }

  lemma {:induction false} FoldOfSegs(c: Path, s: Path)
    requires AllPathSegs(s)
    ensures Fold(true, c, s) == c + s
    decreases |s|
  {
    if s == [] {
      assert c + s == c;
    } else {
      FoldOfSegs(c, s[..|s| - 1]);
      assert c + s == c + s[..|s| - 1] + [s[|s| - 1]];
    }
  }

  lemma SplitHead(t: string)
    ensures t == "" || t[0] == '/' ==> Split(t)[0] == ""
  {}

  lemma TailIsRelative(s: Path)
    requires Normal(s) && s != []
    ensures IsRelative(Tail(s)) && Split(Tail(s)) == s
  {
    SplitOfTail(s);
    NoBackslashInAbs(s);
    AbsStartsWithSlash(s);
    assert PathSeg(s[0]);
    SplitHead(Tail(s));
  }

  function ParentOf(c: Path): Path { if c == [] then [] else c[..|c| - 1] }

  lemma DotDotIsParent(c: Path)
    requires AllPathSegs(c)
    ensures IsRelative("..") && Fold(true, c, Split("..")) == ParentOf(c)
  {
    SplitOfPlain("..");
    FoldOfOne(true, c, "..");
    if c != [] {
      assert PathSeg(c[|c| - 1]);
    }
  }

  lemma DotIsSame(c: Path)
    ensures IsRelative(".") && Fold(true, c, Split(".")) == c
  {
    SplitOfPlain(".");
    FoldOfOne(true, c, ".");
  }

  lemma WalkInTwo(c: Path, a: string, b: string)
    requires IsRelative(a) && IsRelative(b)
    ensures IsRelative(a + "/" + b)
    ensures Fold(true, c, Split(a + "/" + b)) == Fold(true, Fold(true, c, Split(a)), Split(b))
  {
    SplitOfConcat(a, b);
    FoldOfConcat(true, c, Split(a), Split(b));
  }

  /** The walk leads there. */
  lemma WalkTo(c: Path, requested: string, to: Path)
    requires Normal(c) && IsRelative(requested) && Fold(true, c, Split(requested)) == to
    ensures Normal(to) && RequestSegs(Render(c), requested) == Trimmed(to)
  {
    RelativeOnSegments(c, requested);
  }

  lemma FixedWithoutSpace(segs: Path)
    requires Normal(segs) && !EndsInSpace(Render(segs))
    ensures Trimmed(segs) == segs
  {
    TrimmedFixed(segs);
  }

  /** "s1/.../sn" in the directory c names c/s1/.../sn. */
  lemma RelativeRequest(c: Path, s: Path)
    requires Normal(c) && Normal(s) && s != [] && !EndsInSpace(Render(s))
    ensures RequestSegs(Render(c), Tail(s)) == c + s
  {
    TailIsRelative(s);
    FoldOfSegs(c, s);
    WalkTo(c, Tail(s), c + s);
    RelativeIsFixed(c, s);
  }

  /** ".." names the directory above; that of the root is the root. */
  lemma ParentRequest(c: Path)
    requires Normal(c) && !EndsInSpace(Render(ParentOf(c)))
    ensures RequestSegs(Render(c), "..") == ParentOf(c)
  {
    DotDotIsParent(c);
    WalkTo(c, "..", ParentOf(c));
    FixedWithoutSpace(ParentOf(c));
  }

  /** No request and "." name the current directory. */
  lemma SelfRequest(c: Path)
    requires Normal(c) && !EndsInSpace(Render(c))
    ensures RequestSegs(Render(c), "") == c && RequestSegs(Render(c), ".") == c
  {
    FixedWithoutSpace(c);
    EmptyRequest(c);
    DotIsSame(c);
    WalkTo(c, ".", c);
  }

  lemma EmptyRequest(c: Path)
    requires Normal(c)
    ensures RequestSegs(Render(c), "") == Trimmed(c)
  {
    RenderStartsWithSlash(c);
    NothingIsCurrent(Render(c));
    VirtualSegsOfNormal(c);
  }

  lemma NothingIsCurrent(cwd: string)
    requires cwd != "" && cwd[0] == '/'
    ensures RequestPath(cwd, "") == cwd
  {}

  /** A rooted request names the same from everywhere. */
  lemma AbsoluteRequest(cwd: string, s: Path)
    requires Normal(s) && !EndsInSpace(Render(s))
    ensures RequestSegs(cwd, Render(s)) == s
  {
    RenderStartsWithSlash(s);
    RootedRequest(cwd, Render(s));
    VirtualSegsOfNormal(s);
    FixedWithoutSpace(s);
  }

  /** A request in two parts names what the second part names where the first one leads. */
  lemma StepwiseRequest(c: Path, a: string, b: string)
    requires Normal(c) && IsRelative(a) && IsRelative(b) && !EndsInSpace(Render(Fold(true, c, Split(a))))
    ensures RequestSegs(Render(c), a + "/" + b) == RequestSegs(Render(RequestSegs(Render(c), a)), b)
  {
    var mid := Fold(true, c, Split(a));
    WalkTo(c, a, mid);
    FixedWithoutSpace(mid);
    assert RequestSegs(Render(c), a) == mid;
    WalkInTwo(c, a, b);
    var to := Fold(true, mid, Split(b));
    WalkTo(mid, b, to);
    WalkTo(c, a + "/" + b, to);
  }

  /** A backslash in a request is a slash, and nothing else changes. */
  lemma {:induction false} SlashesAt(s: string, i: nat)
    requires i < |s|
    ensures Slashes(s)[i] == if s[i] == '\\' then '/' else s[i]
  {
    if i > 0 {
      SlashesAt(s[1..], i - 1);
    }
  }

  /** Where the mounts lead, below their points. */
  lemma MountedPlace(r: Root, user: User, home: Path, rest: Path)
    requires r.Valid() && Ordinary(user.username) && Normal(home) && Normal(rest) && !EndsInSpace(Render(rest))
    ensures user.public ==> MountSegs(r, user, home, home + [PUBLIC] + rest) == [r.publicDir] + rest
    ensures user.dropbox ==>
              MountSegs(r, user, home, home + [DROPBOX] + rest) == [r.dropboxDir, user.username] + rest
  {
    MountedDirs(r, user);
    NormalConcat([r.publicDir], rest);
    NormalConcat([r.dropboxDir, user.username], rest);
    StillNoSpace([r.publicDir], rest);
    StillNoSpace([r.dropboxDir, user.username], rest);
    assert (home + [PUBLIC] + rest)[..|home| + 1] == home + [PUBLIC];
    assert (home + [PUBLIC] + rest)[|home| + 1..] == rest;
    assert (home + [DROPBOX] + rest)[..|home| + 1] == home + [DROPBOX];
    assert (home + [DROPBOX] + rest)[|home| + 1..] == rest;
    assert (home + [DROPBOX] + rest)[|home|] == DROPBOX && (home + [PUBLIC])[|home|] == PUBLIC;
  }

  lemma MountedDirs(r: Root, user: User)
    requires r.Valid() && Ordinary(user.username)
    ensures Normal([r.publicDir]) && Normal([r.dropboxDir, user.username])
    ensures !EndsInSpace(r.publicDir) && !EndsInSpace(user.username)
  {
    TwoOrdinary(r.dropboxDir, user.username);
  }

  lemma StillNoSpace(dirs: Path, rest: Path)
    requires dirs != [] && Normal(dirs) && Normal(rest) && Normal(dirs + rest)
    requires !EndsInSpace(dirs[|dirs| - 1]) && !EndsInSpace(Render(rest))
    ensures Trimmed(dirs + rest) == dirs + rest
  {
    var all := dirs + rest;
    var last := all[|all| - 1];
    assert PathSeg(last);
    assert Render(all)[|Render(all)| - 1] == last[|last| - 1];
    if rest != [] {
      assert last == rest[|rest| - 1];
      assert Render(rest)[|Render(rest)| - 1] == last[|last| - 1];
    } else {
      assert last == dirs[|dirs| - 1];
    }
    FixedWithoutSpace(all);
  }

  /** An ordinary relative request, end to end: it is accepted exactly when it stays below the home and has no
      hidden segment, and means that place below the base. */
  lemma ResolveRelative(r: Root, user: User, c: Path, s: Path)
    requires r.Valid() && Ordinary(user.username) && Normal(c) && Normal(s) && s != [] && !EndsInSpace(Render(s))
    requires user.public ==> !Under(VirtualSegs(user.home) + [PUBLIC], c + s)
    requires user.dropbox ==> !Under(VirtualSegs(user.home) + [DROPBOX], c + s)
    ensures Resolve(r, user, Render(c), Tail(s)) ==
            if Under(VirtualSegs(user.home), c + s) && Visible(r, c + s)
            then Some((Abs(r.base + (c + s)), Render(c + s))) else None
  {
    RelativeRequest(c, s);
    RelativeIsFixed(c, s);
    ResolveTo(r, user, Render(c), Tail(s), VirtualSegs(user.home), c + s, c + s);
  }

  lemma RelativeIsFixed(c: Path, s: Path)
    requires Normal(c) && Normal(s) && s != [] && !EndsInSpace(Render(s))
    ensures Trimmed(c + s) == c + s
  {
    assert (c + s)[|c + s| - 1] == s[|s| - 1];
    assert PathSeg(s[|s| - 1]);
    FixedWithoutSpace(c + s);
  }

  /** A rooted request below a granted mount means the place below the public directory, or below the user's
      own dropbox. */
  lemma ResolveMounted(r: Root, user: User, cwd: string, rest: Path)
    requires r.Valid() && Ordinary(user.username) && Normal(rest) && !EndsInSpace(Render(rest))
    ensures var home := VirtualSegs(user.home);
            && (user.public ==>
                  Resolve(r, user, cwd, Render(home + [PUBLIC] + rest)) ==
                  if Visible(r, [r.publicDir] + rest)
                  then Some((Abs(r.base + ([r.publicDir] + rest)), Render(home + [PUBLIC] + rest))) else None)
            && (user.dropbox ==>
                  Resolve(r, user, cwd, Render(home + [DROPBOX] + rest)) ==
                  if Visible(r, [r.dropboxDir, user.username] + rest)
                  then Some((Abs(r.base + ([r.dropboxDir, user.username] + rest)), Render(home + [DROPBOX] + rest)))
                  else None)
  {
    var home := VirtualSegs(user.home);
    CleanVirtualIsNormal(user.home);
    MountedPlace(r, user, home, rest);
    MountedDirs(r, user);
    NormalConcat([r.publicDir], rest);
    NormalConcat([r.dropboxDir, user.username], rest);
    StillNoSpace([r.publicDir], rest);
    StillNoSpace([r.dropboxDir, user.username], rest);
    ResolveBelowMount(r, user, cwd, home, PUBLIC, rest);
    ResolveBelowMount(r, user, cwd, home, DROPBOX, rest);
  }

  lemma ResolveBelowMount(r: Root, user: User, cwd: string, home: Path, mount: string, rest: Path)
    requires r.Valid() && Ordinary(user.username) && Normal(rest) && !EndsInSpace(Render(rest))
    requires Normal(home) && home == VirtualSegs(user.home) && (mount == PUBLIC || mount == DROPBOX)
    ensures var segs := home + [mount] + rest;
            Resolve(r, user, cwd, Render(segs)) ==
            if Visible(r, Trimmed(MountSegs(r, user, home, segs)))
            then Some((Abs(r.base + MountSegs(r, user, home, segs)), Render(segs))) else None
  {
    var segs := home + [mount] + rest;
    MountPathIsPlain(home, mount, rest);
    AbsoluteRequest(cwd, segs);
    ResolveTo(r, user, cwd, Render(segs), home, segs, MountSegs(r, user, home, segs));
  }

  lemma MountPathIsPlain(home: Path, mount: string, rest: Path)
    requires Normal(home) && (mount == PUBLIC || mount == DROPBOX) && Normal(rest) && !EndsInSpace(Render(rest))
    ensures var segs := home + [mount] + rest;
            Normal(segs) && !EndsInSpace(Render(segs)) && Under(home, segs)
  {
    var segs := home + [mount] + rest;
    PublicIsSegment();
    DropboxIsSegment();
    NormalConcat(home, [mount]);
    NormalConcat(home + [mount], rest);
    assert (home + [mount])[|home|] == mount && !EndsInSpace(mount);
    StillNoSpace(home + [mount], rest);
    TrimmedFixed(segs);
    assert segs[..|home|] == home;
  }

  // ---------------------------------------------------------------- what an accepted path is

  /** At or below the home directory, the public directory if granted, or the user's own dropbox
      directory if granted. */
  predicate Inside(r: Root, user: User, segs: Path) {
    || Under(VirtualSegs(user.home), segs)
    || (user.public && Under([r.publicDir], segs))
    || (user.dropbox && Under([r.dropboxDir, user.username], segs))
  }

  predicate ViaPublic(user: User, home: Path, segs: Path) { user.public && Under(home + [PUBLIC], segs) }

  /** The request names, directly below a mount point, a segment that is ".." followed by white space.
      The code's second cleaning of mounted paths then turns it into "..". */
  predicate Climbs(user: User, home: Path, segs: Path) {
    var public := if user.public then Below(home + [PUBLIC], segs) else None;
    var dropbox := if user.dropbox then Below(home + [DROPBOX], segs) else None;
    var rest := if public.Some? then public else dropbox;
    rest.Some? && |rest.value| == 1 && TrimRight(rest.value[0]) == ".."
  }

  lemma TrimmedStaysBelow(dirs: Path, rest: Path)
    requires dirs != [] && Normal(dirs) && Normal(rest) && !EndsInSpace(dirs[|dirs| - 1])
    ensures !(|rest| == 1 && TrimRight(rest[0]) == "..") ==> Under(dirs, Trimmed(dirs + rest))
    ensures |rest| == 1 && TrimRight(rest[0]) == ".." ==> Trimmed(dirs + rest) == dirs[..|dirs| - 1]
  {
    var all := dirs + rest;
    assert dirs[|dirs| - 1] in dirs;
    if rest == [] {
      assert all == dirs;
      assert TrimRight(dirs[|dirs| - 1]) == dirs[|dirs| - 1];
      assert dirs == dirs[..|dirs| - 1] + [dirs[|dirs| - 1]];
    } else {
      var init := all[..|all| - 1];
      assert init == dirs + rest[..|rest| - 1];
      if |rest| > 1 {
        assert init[|init| - 1] == rest[|rest| - 2];
        assert init[..|init| - 1] == dirs + rest[..|rest| - 2];
      }
    }
  }

  lemma PublicStaysInside(r: Root, user: User, home: Path, segs: Path)
    requires r.Valid() && Normal(home) && Normal(segs) && ViaPublic(user, home, segs)
    ensures !Climbs(user, home, segs) ==> Under([r.publicDir], MountSegs(r, user, home, segs))
    ensures Climbs(user, home, segs) ==> MountSegs(r, user, home, segs) == []
  {
    NormalRest(segs, |home| + 1);
    TrimmedStaysBelow([r.publicDir], segs[|home| + 1..]);
    assert [r.publicDir][..0] == [];
  }

  lemma DropboxStaysInside(r: Root, user: User, home: Path, segs: Path)
    requires r.Valid() && Ordinary(user.username) && Normal(home) && Normal(segs)
    requires !ViaPublic(user, home, segs) && user.dropbox && Under(home + [DROPBOX], segs)
    ensures !Climbs(user, home, segs) ==> Under([r.dropboxDir, user.username], MountSegs(r, user, home, segs))
    ensures Climbs(user, home, segs) ==> MountSegs(r, user, home, segs) == [r.dropboxDir]
  {
    NormalRest(segs, |home| + 1);
    TwoOrdinary(r.dropboxDir, user.username);
    TrimmedStaysBelow([r.dropboxDir, user.username], segs[|home| + 1..]);
    assert [r.dropboxDir, user.username][..1] == [r.dropboxDir];
  }

  lemma MountedStaysInside(r: Root, user: User, home: Path, segs: Path)
    requires r.Valid() && Ordinary(user.username) && Normal(home) && Normal(segs) && Under(home, segs)
    requires home == VirtualSegs(user.home)
    ensures !Climbs(user, home, segs) ==> Inside(r, user, MountSegs(r, user, home, segs))
    ensures Climbs(user, home, segs) ==>
              MountSegs(r, user, home, segs) == if ViaPublic(user, home, segs) then [] else [r.dropboxDir]
  {
    if ViaPublic(user, home, segs) {
      PublicStaysInside(r, user, home, segs);
    } else if user.dropbox && Under(home + [DROPBOX], segs) {
      DropboxStaysInside(r, user, home, segs);
    }
  }

  /** Every accepted path is inside the home directory, the granted public directory or the user's own
      granted dropbox directory, unless the request climbs; a climbing request that is accepted gets the
      directory above the mount: the base itself for the public directory, the directory of all
      dropboxes for a dropbox. */
  lemma ResolveStaysInside(r: Root, user: User, cwd: string, requested: string)
    requires r.Valid() && Ordinary(user.username) && Resolve(r, user, cwd, requested).Some?
    ensures var home, segs := VirtualSegs(user.home), RequestSegs(cwd, requested);
            var mounted := MountSegs(r, user, home, segs);
            && Resolve(r, user, cwd, requested).value.0 == Abs(r.base + mounted)
            && (!Climbs(user, home, segs) ==> Inside(r, user, mounted))
            && (Climbs(user, home, segs) ==>
                  mounted == if ViaPublic(user, home, segs) then [] else [r.dropboxDir])
  {
    ResolveOnSegments(r, user, cwd, requested);
    CleanVirtualIsNormal(user.home);
    RequestIsNormal(cwd, requested);
    MountedStaysInside(r, user, VirtualSegs(user.home), RequestSegs(cwd, requested));
  }

  /** Climbing does no harm: the home directory is the base, or the request goes through the dropbox mount
      and the directory of all dropboxes is itself the home or the granted public directory. */
  predicate ClimbsWithin(r: Root, user: User, home: Path, segs: Path) {
    home == [] || (!ViaPublic(user, home, segs)
                   && (home == [r.dropboxDir] || (user.public && r.publicDir == r.dropboxDir)))
  }

  lemma PrefixOfBase(dirs: Path)
    ensures Under(dirs, []) <==> dirs == []
  {}

  lemma PrefixOfOne(dirs: Path, name: string)
    ensures Under(dirs, [name]) <==> dirs == [] || dirs == [name]
  {
    assert [name][..1] == [name] && [name][..0] == [];
  }

  lemma TwoIsNoPrefix(a: string, b: string, name: string)
    ensures !Under([a, b], [name]) && !Under([a, b], [])
  {}

  /** Containment fails exactly for climbing requests that are not harmless. */
  lemma ResolveStaysInsideIff(r: Root, user: User, cwd: string, requested: string)
    requires r.Valid() && Ordinary(user.username) && Resolve(r, user, cwd, requested).Some?
    ensures var home, segs := VirtualSegs(user.home), RequestSegs(cwd, requested);
            Inside(r, user, MountSegs(r, user, home, segs))
            <==> (Climbs(user, home, segs) ==> ClimbsWithin(r, user, home, segs))
  {
    ResolveStaysInside(r, user, cwd, requested);
    var home := VirtualSegs(user.home);
    PrefixOfBase(home);
    PrefixOfBase([r.publicDir]);
    PrefixOfOne(home, r.dropboxDir);
    PrefixOfOne([r.publicDir], r.dropboxDir);
    TwoIsNoPrefix(r.dropboxDir, user.username, r.dropboxDir);
  }

  predicate HasInternal(segs: Path) { exists i :: 0 <= i < |segs| && IsInternal(segs[i]) }

  /** The path ends in ".." and white space, directly below an internal name. */
  predicate EndsBelowInternal(segs: Path) {
    |segs| >= 2 && TrimRight(segs[|segs| - 1]) == ".." && IsInternal(segs[|segs| - 2])
  }

  /** The hidden-name test looks at the path after cleaning it once more. It therefore misses an internal
      name exactly when the path ends in ".." and white space and the name is the segment before. */
  lemma VisibleHidesInternalIff(r: Root, segs: Path)
    requires Normal(segs) && Visible(r, Trimmed(segs))
    ensures HasInternal(segs) <==> EndsBelowInternal(segs)
  {
    if EndsBelowInternal(segs) {
      assert IsInternal(segs[|segs| - 2]);
    }
    if i :| 0 <= i < |segs| && IsInternal(segs[i]) {
      TrimmedKeeps(segs, i);
    }
  }

  /** Only the last segment, or with ".." the one before it, can change. */
  lemma TrimmedKeeps(segs: Path, i: nat)
    requires Normal(segs) && i < |segs|
    requires TrimRight(segs[i]) == segs[i]
    ensures (i < |Trimmed(segs)| && Trimmed(segs)[i] == segs[i])
            || (i == |segs| - 2 && TrimRight(segs[|segs| - 1]) == "..")
  {
    var last := segs[|segs| - 1];
    assert PathSeg(segs[i]);
    if i == |segs| - 1 {
      assert Trimmed(segs) == segs[..i] + [segs[i]];
    }
  }

  lemma AcceptedIsVisible(r: Root, user: User, cwd: string, requested: string)
    requires r.Valid() && Ordinary(user.username) && Resolve(r, user, cwd, requested).Some?
    ensures var m := MountSegs(r, user, VirtualSegs(user.home), RequestSegs(cwd, requested));
            Normal(m) && Visible(r, Trimmed(m))
  {
    ResolveOnSegments(r, user, cwd, requested);
    CleanVirtualIsNormal(user.home);
    RequestIsNormal(cwd, requested);
    MountOnSegments(r, user, VirtualSegs(user.home), RequestSegs(cwd, requested));
  }

  /** No accepted path has an internal storage name among its segments, with that one exception. */
  lemma ResolveHidesInternalIff(r: Root, user: User, cwd: string, requested: string)
    requires r.Valid() && Ordinary(user.username) && Resolve(r, user, cwd, requested).Some?
    ensures var m := MountSegs(r, user, VirtualSegs(user.home), RequestSegs(cwd, requested));
            HasInternal(m) <==> EndsBelowInternal(m)
  {
    AcceptedIsVisible(r, user, cwd, requested);
    VisibleHidesInternalIff(r, MountSegs(r, user, VirtualSegs(user.home), RequestSegs(cwd, requested)));
  }

  /** The administrator's resolver accepts the same normal paths, without jail or mounts. */
  lemma ResolveAdminOnSegments(r: Root, virtual: string)
    requires r.Valid()
    ensures var segs := VirtualSegs(virtual);
            && ResolveAdmin(r, virtual) == (if Visible(r, Trimmed(segs))
                                              then Some((Abs(r.base + segs), Render(segs))) else None)
            && (ResolveAdmin(r, virtual).Some? ==> (HasInternal(segs) <==> EndsBelowInternal(segs)))
  {
    var segs := VirtualSegs(virtual);
    CleanVirtualIsNormal(virtual);
    IgnoredOnSegments(r, segs);
    RealOfNormal(r.base, segs);
    if Visible(r, Trimmed(segs)) {
      VisibleHidesInternalIff(r, segs);
    }
  }

  // ---------------------------------------------------------------- the exceptions, on concrete requests

  lemma TrailingSlashIsDropped(segs: Path)
    requires Normal(segs) && segs != []
    ensures VirtualSegs(Abs(segs) + "/") == segs
  {
    var p := Abs(segs) + "/";
    NoBackslashInAbs(segs);
    AbsStartsWithSlash(segs);
    assert '\\' !in p && p[0] == '/';
    TrimSpaceOfRooted(p, "");
    assert p + "" == p;
    Reslash(p);
    StackOfSlash(Abs(segs));
    StackOfRender(segs);
  }

  /** ".." followed by white space, such as ".. ". */
  predicate SpacedDots(dots: string) { Normal([dots]) && TrimRight(dots) == ".." }

  lemma SpacedDotsExist()
    ensures SpacedDots(".. ")
  {
    assert ".. "[..2] == "..";
    assert TrimRight("..") == "..";
    assert PathSeg([".. "][0]);
  }

  lemma SpacedDotsAreSegment(dots: string)
    requires SpacedDots(dots)
    ensures PathSeg(dots) && '\\' !in dots
  {
    assert PathSeg([dots][0]) && '\\' !in [dots][0];
  }

  lemma OrdinaryIsSegment(name: string)
    requires Ordinary(name)
    ensures PathSeg(name) && '\\' !in name && TrimRight(name) == name
  {
    assert PathSeg([name][0]) && '\\' !in [name][0];
  }

  lemma PushOfDots(stack: Path, last: string)
    requires PathSeg(last)
    ensures Push(true, stack + [last], "..") == stack
  {
    assert (stack + [last])[..|stack|] == stack;
  }

  /** cleanVirtual is not idempotent: for a name "x", "/x /" becomes "/x " and that becomes "/x". */
  lemma CleaningTwiceCanDiffer(name: string, space: char)
    requires Ordinary(name) && IsSpace(space)
    ensures CleanVirtual(Abs([name + [space]]) + "/") == Render([name + [space]])
    ensures CleanVirtual(Render([name + [space]])) == Render([name])
  {
    var spaced := name + [space];
    OrdinaryIsSegment(name);
    assert TrimRight(spaced) == name by { assert spaced[..|name|] == name; }
    assert PathSeg(spaced) && '\\' !in spaced;
    assert Normal([spaced]);
    TrailingSlashIsDropped([spaced]);
    CleanVirtualIsNormal(Abs([spaced]) + "/");
    CleanVirtualOfNormal([spaced]);
    assert [spaced][..0] == [];
    assert Trimmed([spaced]) == [name];
  }

  /** Climbing requests exist for every user with the public directory granted and an ordinary home
      directory: "/home/public/.. /" is accepted and means the base directory. */
  lemma PublicMountCanClimb(r: Root, user: User, cwd: string, home: string, dots: string)
    requires r.Valid() && Ordinary(user.username) && Ordinary(home) && SpacedDots(dots)
    requires user.public && user.home == Render([home])
    ensures Resolve(r, user, cwd, Abs([home, PUBLIC, dots]) + "/") == Some((Abs(r.base), Render([home, PUBLIC, dots])))
  {
    var segs := [home, PUBLIC, dots];
    ClimbingRequest(user, cwd, home, dots);
    ClimbingMount(r, user, [home], segs, dots);
    ResolveTo(r, user, cwd, Abs(segs) + "/", [home], segs, []);
    assert r.base + [] == r.base;
    assert Under([home], segs);
  }

  lemma ClimbingRequest(user: User, cwd: string, home: string, dots: string)
    requires Ordinary(home) && SpacedDots(dots) && user.home == Render([home])
    ensures RequestSegs(cwd, Abs([home, PUBLIC, dots]) + "/") == [home, PUBLIC, dots]
    ensures VirtualSegs(user.home) == [home]
  {
    var segs := [home, PUBLIC, dots];
    ClimbingIsNormal(home, dots);
    TrailingSlashIsDropped(segs);
    AbsStartsWithSlash(segs);
    RootedRequest(cwd, Abs(segs) + "/");
    OrdinaryHome(home);
  }

  lemma ClimbingIsNormal(home: string, dots: string)
    requires Ordinary(home) && SpacedDots(dots)
    ensures Normal([home, PUBLIC, dots])
  {
    OrdinaryIsSegment(home);
    SpacedDotsAreSegment(dots);
    PublicIsSegment();
  }

  lemma RootedRequest(cwd: string, p: string)
    requires p != "" && p[0] == '/'
    ensures RequestSegs(cwd, p) == VirtualSegs(p)
  {
    RootedPath(cwd, p);
  }

  lemma RootedPath(cwd: string, p: string)
    requires p != "" && p[0] == '/'
    ensures RequestPath(cwd, p) == p
  {}

  lemma OrdinaryHome(home: string)
    requires Ordinary(home)
    ensures VirtualSegs(Render([home])) == [home]
  {
    OrdinaryIsSegment(home);
    VirtualSegsOfNormal([home]);
    assert [home][..0] == [];
    assert Trimmed([home]) == [home];
  }

  lemma DropboxIsSegment()
    ensures PathSeg(DROPBOX) && '\\' !in DROPBOX
  {}

  lemma PublicIsSegment()
    ensures PathSeg(PUBLIC) && '\\' !in PUBLIC
  {}

  lemma ClimbingMount(r: Root, user: User, home: Path, segs: Path, dots: string)
    requires r.Valid() && user.public && segs == home + [PUBLIC, dots] && TrimRight(dots) == ".."
    ensures MountSegs(r, user, home, segs) == []
  {
    OrdinaryIsSegment(r.publicDir);
    assert segs[..|home| + 1] == home + [PUBLIC] && segs[|home| + 1..] == [dots];
    var all := [r.publicDir] + [dots];
    assert all[..1] == [] + [r.publicDir];
    PushOfDots([], r.publicDir);
  }

  /** The hidden-name test misses the path ".. " below an internal directory. */
  lemma NameBelowInternalIsAccepted(r: Root, internal: string, dots: string)
    requires r.Valid() && IsInternal(internal) && Ordinary(internal) && SpacedDots(dots)
    ensures ResolveAdmin(r, Abs([internal, dots]) + "/") ==
            Some((Abs(r.base + [internal, dots]), Render([internal, dots])))
  {
    var segs := [internal, dots];
    OrdinaryIsSegment(internal);
    SpacedDotsAreSegment(dots);
    assert Normal(segs);
    TrailingSlashIsDropped(segs);
    assert segs[..1] == [] + [internal];
    PushOfDots([], internal);
    assert Trimmed(segs) == [];
    ResolveAdminTo(r, Abs(segs) + "/", segs, []);
  }

  lemma ResolveAdminTo(r: Root, virtual: string, segs: Path, trimmed: Path)
    requires r.Valid() && VirtualSegs(virtual) == segs && Trimmed(segs) == trimmed
    ensures ResolveAdmin(r, virtual) == if Visible(r, trimmed) then Some((Abs(r.base + segs), Render(segs))) else None
  {
    ResolveAdminOnSegments(r, virtual);
  }
}
