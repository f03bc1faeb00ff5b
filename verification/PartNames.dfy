/** The names of part files in internal/httpapi/server.go: what is hashed determines the upload.

    A part is named after a hash of its scope, a NUL and the client's upload id. The hash is a
    parameter, assumed injective where two names are compared. */
module PartNames {
  import Auth

  datatype Kind = Admin | Drop

  /** Everything that should keep two uploads apart. The owner is a username or a link id. */
  datatype Upload = Upload(kind: Kind, owner: string, dest: string, total: nat, uploadId: string)

  predicate SafeUploadId(id: string) {
    && 8 <= |id| <= 96
    && forall i | 0 <= i < |id| ::
         'a' <= id[i] <= 'z' || 'A' <= id[i] <= 'Z' || '0' <= id[i] <= '9' || id[i] == '-' || id[i] == '_'
  }

  /** The assumptions on names: no colon in the owner. */
  predicate Valid(u: Upload) { SafeUploadId(u.uploadId) && ':' !in u.owner }

  function Digit(d: nat): char
    requires d < 10
  {
    ('0' as int + d) as char
  }

  /** strconv.FormatInt in base ten. */
  function Decimal(n: nat): string {
    if n < 10 then [Digit(n)] else Decimal(n / 10) + [Digit(n % 10)]
  }

  function Prefix(kind: Kind): string {
    match kind case Admin => "admin" case Drop => "drop"
  }

  function Scope(u: Upload): string {
    Prefix(u.kind) + ":" + u.owner + ":" + u.dest + ":" + Decimal(u.total)
  }

  /** What uploadPartName hashes. */
  function Hashed(u: Upload): string { Scope(u) + "\0" + u.uploadId }

  function PartName(hash: string -> string, u: Upload): string { hash(Hashed(u)) + ".part" }

  /** Characters before the first separator, and characters after the last one. */
  function Before(s: string, sep: char): nat {
    if s == "" || s[0] == sep then 0 else 1 + Before(s[1..], sep)
  }

  function After(s: string, sep: char): nat {
    if s == "" || s[|s| - 1] == sep then 0 else 1 + After(s[..|s| - 1], sep)
  }

  lemma {:induction false} BeforeSplit(a: string, b: string, sep: char)
    requires sep !in a
    ensures Before(a + [sep] + b, sep) == |a|
  {
    if a != "" {
      BeforeSplit(a[1..], b, sep);
      assert (a + [sep] + b)[1..] == a[1..] + [sep] + b;
    }
  }

  lemma {:induction false} AfterSplit(a: string, b: string, sep: char)
    requires sep !in b
    ensures After(a + [sep] + b, sep) == |b|
  {
    if b != "" {
      var n := |b| - 1;
      AfterSplit(a, b[..n], sep);
      assert (a + [sep] + b)[..|a| + 1 + n] == a + [sep] + b[..n];
    }
  }

  lemma CutAt(a: string, b: string, c: string, d: string, sep: char)
    requires a + [sep] + b == c + [sep] + d && |a| == |c|
    ensures a == c && b == d
  {
    var s := a + [sep] + b;
    assert s[..|a|] == a && s[..|c|] == c;
    assert s[|a| + 1..] == b && s[|c| + 1..] == d;
  }

  lemma FirstSplit(a: string, b: string, c: string, d: string, sep: char)
    requires a + [sep] + b == c + [sep] + d && sep !in a && sep !in c
    ensures a == c && b == d
  {
    BeforeSplit(a, b, sep);
    BeforeSplit(c, d, sep);
    CutAt(a, b, c, d, sep);
  }

  lemma LastSplit(a: string, b: string, c: string, d: string, sep: char)
    requires a + [sep] + b == c + [sep] + d && sep !in b && sep !in d
    ensures a == c && b == d
  {
    AfterSplit(a, b, sep);
    AfterSplit(c, d, sep);
    assert |a + [sep] + b| == |c + [sep] + d|;
    CutAt(a, b, c, d, sep);
  }

  lemma {:induction false} DecimalHasOnlyDigits(n: nat)
    ensures forall c | c in Decimal(n) :: '0' <= c <= '9'
  {
    if n >= 10 {
      DecimalHasOnlyDigits(n / 10);
    }
  }

  lemma {:induction false} DecimalInjective(m: nat, n: nat)
    requires Decimal(m) == Decimal(n)
    ensures m == n
  {
    var s := Decimal(m);
    if m >= 10 && n >= 10 {
      assert s[..|s| - 1] == Decimal(m / 10) && s[..|s| - 1] == Decimal(n / 10);
      assert s[|s| - 1] == Digit(m % 10) == Digit(n % 10);
      DecimalInjective(m / 10, n / 10);
    } else if m >= 10 {
      DecimalNotEmpty(m / 10);
    } else if n >= 10 {
      DecimalNotEmpty(n / 10);
    } else {
      assert s[0] == Digit(m) == Digit(n);
    }
  }

  lemma DecimalNotEmpty(n: nat)
    ensures |Decimal(n)| >= 1
  {}

  /** The scope determines kind, owner, destination and total size, although destinations may contain
      colons: the first two colons and the last one are separators. */
  lemma ScopeDetermines(u: Upload, v: Upload)
    requires ':' !in u.owner && ':' !in v.owner && Scope(u) == Scope(v)
    ensures u.kind == v.kind && u.owner == v.owner && u.dest == v.dest && u.total == v.total
  {
    DecimalHasOnlyDigits(u.total);
    DecimalHasOnlyDigits(v.total);
    var a, c := Prefix(u.kind) + ":" + u.owner + ":" + u.dest, Prefix(v.kind) + ":" + v.owner + ":" + v.dest;
    LastSplit(a, Decimal(u.total), c, Decimal(v.total), ':');
    DecimalInjective(u.total, v.total);
    var b, d := u.owner + ":" + u.dest, v.owner + ":" + v.dest;
    assert a == Prefix(u.kind) + [':'] + b && c == Prefix(v.kind) + [':'] + d;
    FirstSplit(Prefix(u.kind), b, Prefix(v.kind), d, ':');
    FirstSplit(u.owner, u.dest, v.owner, v.dest, ':');
    assert "admin" != "drop" by { assert |"admin"| != |"drop"|; }
  }

  /** What is hashed determines the upload. */
  lemma HashedDetermines(u: Upload, v: Upload)
    requires Valid(u) && Valid(v) && Hashed(u) == Hashed(v)
    ensures u == v
  {
    assert '\0' !in u.uploadId && '\0' !in v.uploadId;
    LastSplit(Scope(u), u.uploadId, Scope(v), v.uploadId, '\0');
    ScopeDetermines(u, v);
  }

  /** With an injective hash two uploads share a part file exactly when they are the same upload. */
  lemma PartNamesDoNotCollide(hash: string -> string, u: Upload, v: Upload)
    requires forall a, b :: hash(a) == hash(b) ==> a == b
    requires Valid(u) && Valid(v)
    ensures PartName(hash, u) == PartName(hash, v) <==> u == v
  {
    if PartName(hash, u) == PartName(hash, v) {
      var x, y := hash(Hashed(u)), hash(Hashed(v));
      assert (x + ".part")[..|x|] == x && (y + ".part")[..|y|] == y;
      HashedDetermines(u, v);
    }
  }

  /** Administrator uploads meet the assumption: a valid username has no colon. */
  lemma UsernamesHaveNoColon(name: string)
    requires Auth.ValidName(name)
    ensures ':' !in name
  {}

  /** The assumption is needed: with a colon in the owner, two different uploads share a scope. */
  lemma ColonInOwnerCollides(id: string)
    requires SafeUploadId(id)
    ensures var u, v := Upload(Drop, "a:b", "c", 1, id), Upload(Drop, "a", "b:c", 1, id);
            u != v && Hashed(u) == Hashed(v)
  {
    assert "a:b" + ":" + "c" == "a" + ":" + "b:c";
    var u, v := Upload(Drop, "a:b", "c", 1, id), Upload(Drop, "a", "b:c", 1, id);
    assert Scope(u) == "drop" + ":" + ("a:b" + ":" + "c") + ":" + Decimal(1);
    assert Scope(v) == "drop" + ":" + ("a" + ":" + "b:c") + ":" + Decimal(1);
    assert "a" != "a:b" by { assert |"a"| != |"a:b"|; }
  }
}
