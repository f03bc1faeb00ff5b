/** The user store of internal/auth/auth.go: groups, merged permissions and the last-administrator rule.

    Password hashing is a parameter: a request carries the hash it would produce. JSON encoding is
    assumed to give back what was written. */
module Auth {
  import opened Common

  datatype Permission = List | Download | Upload | Delete | Mkdir | Rename | Admin | Public | Dropbox

  datatype PermissionSet = PermissionSet(list: bool, download: bool, upload: bool, delete: bool, mkdir: bool,
                                         rename: bool, admin: bool, public: bool, dropbox: bool)
  {
    predicate Has(p: Permission) {
      match p
      case List => list
      case Download => download
      case Upload => upload
      case Delete => delete
      case Mkdir => mkdir
      case Rename => rename
      case Admin => admin
      case Public => public
      case Dropbox => dropbox
    }

    function Merge(other: PermissionSet): PermissionSet {
      PermissionSet(list || other.list, download || other.download, upload || other.upload, delete || other.delete,
                    mkdir || other.mkdir, rename || other.rename, admin || other.admin, public || other.public,
                    dropbox || other.dropbox)
    }
  }

  const ALL := PermissionSet(true, true, true, true, true, true, true, true, true)

  /** A merge grants exactly what one of the two grants. */
  lemma MergeGrants(a: PermissionSet, b: PermissionSet, p: Permission)
    ensures a.Merge(b).Has(p) <==> a.Has(p) || b.Has(p)
  {}

  lemma SamePermissions(a: PermissionSet, b: PermissionSet)
    requires forall p: Permission :: a.Has(p) <==> b.Has(p)
    ensures a == b
  {
    assert a.Has(List) <==> b.Has(List);
    assert a.Has(Download) <==> b.Has(Download);
    assert a.Has(Upload) <==> b.Has(Upload);
    assert a.Has(Delete) <==> b.Has(Delete);
    assert a.Has(Mkdir) <==> b.Has(Mkdir);
    assert a.Has(Rename) <==> b.Has(Rename);
    assert a.Has(Admin) <==> b.Has(Admin);
    assert a.Has(Public) <==> b.Has(Public);
    assert a.Has(Dropbox) <==> b.Has(Dropbox);
  }

  datatype User = User(username: string, passwordHash: string, groups: seq<string>, home: string, disabled: bool,
                       permissions: PermissionSet)
  datatype Group = Group(name: string, home: string, permissions: PermissionSet)
  datatype Database = Database(users: map<string, User>, groups: map<string, Group>)
  datatype Error = InvalidUsername | LastAdmin | PasswordRequired | HashFailed | SaveFailed

  // ---------------------------------------------------------------- names

  predicate NameChar(c: char) {
    'a' <= c <= 'z' || '0' <= c <= '9' || c == '_' || c == '-' || c == '.'
  }

  /** unicode.ToLower, as far as its result can be a name character: besides A to Z, only the dotted
      capital I and the Kelvin sign have ASCII lower-case forms. */
  function Lower(c: char): char {
    if 'A' <= c <= 'Z' then (c as int + 32) as char
    else if c == '\U{130}' then 'i'
    else if c == '\U{212a}' then 'k'
    else c
  }

  /** Lower-cases and drops every other character, surrounding space among them. */
  function NormalizeName(name: string): (r: string)
    ensures forall c | c in r :: NameChar(c)
    ensures |r| <= |name|
  {
    if name == [] then []
    else (if NameChar(Lower(name[0])) then [Lower(name[0])] else []) + NormalizeName(name[1..])
  }

  /** The username pattern: a lower-case letter or digit, then at most 63 name characters. */
  predicate ValidName(name: string) {
    && 1 <= |name| <= 64
    && ('a' <= name[0] <= 'z' || '0' <= name[0] <= '9')
    && forall i | 0 <= i < |name| :: NameChar(name[i])
  }

  lemma {:induction false} NormalizeFixes(name: string)
    requires forall c | c in name :: NameChar(c)
    ensures NormalizeName(name) == name
  {
    if name != [] {
      assert NameChar(name[0]) && name == [name[0]] + name[1..];
      NormalizeFixes(name[1..]);
    }
  }

  /** Normalizing twice is normalizing once, and valid names are already normal: a store key found by
      one lookup is found by every later one. */
  lemma NormalizeIsIdempotent(name: string)
    ensures NormalizeName(NormalizeName(name)) == NormalizeName(name)
    ensures ValidName(name) ==> NormalizeName(name) == name
  {
    NormalizeFixes(NormalizeName(name));
    if ValidName(name) {
      NormalizeFixes(name);
    }
  }

  // ---------------------------------------------------------------- effective permissions

  function Merged(db: Database, start: PermissionSet, groups: seq<string>): PermissionSet
    decreases |groups|
  {
    if groups == [] then start
    else
      var n := |groups| - 1;
      var before := Merged(db, start, groups[..n]);
      var name := NormalizeName(groups[n]);
      if name in db.groups then before.Merge(db.groups[name].permissions) else before
  }

  function Permissions(db: Database, user: User): PermissionSet {
    Merged(db, user.permissions, user.groups)
  }

  predicate IsAdmin(db: Database, user: User) {
    !user.disabled && Permissions(db, user).admin
  }

  function GroupNames(groups: seq<string>): set<string> {
    set g | g in groups :: NormalizeName(g)
  }

  /** A merged set grants a permission exactly when the user or one of the user's groups does. */
  lemma {:induction false} MergedGrants(db: Database, start: PermissionSet, groups: seq<string>, p: Permission)
    ensures Merged(db, start, groups).Has(p) <==>
            start.Has(p) || exists g :: g in GroupNames(groups) && g in db.groups && db.groups[g].permissions.Has(p)
    decreases |groups|
  {
    if groups != [] {
      var n := |groups| - 1;
      MergedGrants(db, start, groups[..n], p);
      var name := NormalizeName(groups[n]);
      if name in db.groups {
        MergeGrants(Merged(db, start, groups[..n]), db.groups[name].permissions, p);
      }
      assert groups == groups[..n] + [groups[n]];
      assert GroupNames(groups) == GroupNames(groups[..n]) + {NormalizeName(groups[n])};
    }
  }

  /** Merged permissions do not depend on the order or repetition of a user's groups. */
  lemma MergeIgnoresOrder(db: Database, a: User, b: User)
    requires a.permissions == b.permissions && GroupNames(a.groups) == GroupNames(b.groups)
    ensures Permissions(db, a) == Permissions(db, b)
  {
    forall p: Permission
      ensures Permissions(db, a).Has(p) <==> Permissions(db, b).Has(p)
    {
      MergedGrants(db, a.permissions, a.groups, p);
      MergedGrants(db, b.permissions, b.groups, p);
    }
    SamePermissions(Permissions(db, a), Permissions(db, b));
  }

  // ---------------------------------------------------------------- the last administrator

  function Admins(db: Database): set<string> {
    set k | k in db.users && IsAdmin(db, db.users[k])
  }

  predicate HasAdmin(db: Database) { Admins(db) != {} }

  /** Every user is stored under its own username. */
  predicate Keyed(db: Database) {
    forall k | k in db.users :: db.users[k].username == k
  }

  predicate IsLastAdmin(db: Database, username: string) {
    username in Admins(db) && |Admins(db)| <= 1
  }

  function Hashed(db: Database, user: User, password: string, hash: string): User {
    var name := NormalizeName(user.username);
    var home := if user.home == "" then "/" + name else user.home;
    user.(username := name, home := home,
          passwordHash := if password != "" then hash else if name in db.users then db.users[name].passwordHash else "")
  }

  /** UpsertUser on the value. `hash` is None when hashing the new password fails. */
  function WithUser(db: Database, user: User, password: string, hash: Option<string>): (Outcome<Error>, Database) {
    var name := NormalizeName(user.username);
    if !ValidName(name) then (Fail(InvalidUsername), db)
    else if password != "" && hash.None? then (Fail(HashFailed), db)
    else
      var u := Hashed(db, user, password, hash.GetOr(""));
      if u.passwordHash == "" then (Fail(PasswordRequired), db)
      else if name in db.users && IsLastAdmin(db, db.users[name].username) && !IsAdmin(db, u) then (Fail(LastAdmin), db)
      else (Pass, db.(users := db.users[name := u]))
  }

  function WithoutUser(db: Database, username: string): (Outcome<Error>, Database) {
    var name := NormalizeName(username);
    if !ValidName(name) then (Fail(InvalidUsername), db)
    else if IsLastAdmin(db, name) then (Fail(LastAdmin), db)
    else (Pass, db.(users := db.users - {name}))
  }

  function WithGroup(db: Database, group: Group): (Outcome<Error>, Database) {
    var name := NormalizeName(group.name);
    if !ValidName(name) then (Fail(InvalidUsername), db)
    else (Pass, db.(groups := db.groups[name := group.(name := name)]))
  }

  function WithBootstrap(db: Database, username: string, hash: Option<string>): (Outcome<Error>, Database) {
    var name := if NormalizeName(username) == "" then "admin" else NormalizeName(username);
    if !ValidName(name) then (Fail(InvalidUsername), db)
    else if name in db.users then (Pass, db)
    else if hash.None? then (Fail(HashFailed), db)
    else (Pass, Database(db.users[name := User(name, hash.value, ["admins"], "/", false, ALL)],
                         db.groups["admins" := Group("admins", "/", ALL)]))
  }

  datatype Op =
    | UpsertUser(user: User, password: string, hash: Option<string>)
    | DeleteUser(username: string)
    | BootstrapAdmin(username: string, hash: Option<string>)
    | UpsertGroup(group: Group)

  function Apply(db: Database, op: Op): (Outcome<Error>, Database) {
    match op
    case UpsertUser(user, password, hash) => WithUser(db, user, password, hash)
    case DeleteUser(username) => WithoutUser(db, username)
    case BootstrapAdmin(username, hash) => WithBootstrap(db, username, hash)
    case UpsertGroup(group) => WithGroup(db, group)
  }

  // ---------------------------------------------------------------- the store itself

  class Store {
    var db: Database
    var disk: Database

    constructor (db: Database)
      ensures this.db == db && disk == db
    {
      this.db, disk := db, db;
    }

    /** Writes the whole database; on failure the file keeps what it held. */
    method SaveLocked(writes: bool) returns (r: Outcome<Error>)
      modifies `disk
      ensures disk == if writes then db else old(disk)
      ensures r == if writes then Pass else Fail(SaveFailed)
    {
      if !writes {
        return Fail(SaveFailed);
      }
      disk := db;
      return Pass;
    }

    method PermissionsLocked(user: User) returns (merged: PermissionSet)
      ensures merged == Permissions(db, user)
    {
      merged := user.permissions;
      var i := 0;
      while i < |user.groups|
        invariant 0 <= i <= |user.groups|
        invariant merged == Merged(db, user.permissions, user.groups[..i])
      {
        assert user.groups[..i + 1][..i] == user.groups[..i];
        var name := NormalizeName(user.groups[i]);
        i := i + 1;
        if name !in db.groups {
          continue;
        }
        merged := merged.Merge(db.groups[name].permissions);
      }
      assert user.groups[..i] == user.groups;
    }

    method Authenticate(username: string, password: string, verify: (string, string) -> bool)
      returns (r: Option<(User, PermissionSet)>)
      ensures r == LoggedIn(db, verify, username, password)
    {
      var name := NormalizeName(username);
      if name !in db.users || db.users[name].disabled || db.users[name].passwordHash == "" {
        return None;
      }
      if !verify(db.users[name].passwordHash, password) {
        return None;
      }
      var merged := PermissionsLocked(db.users[name]);
      r := Some((db.users[name], merged));
    }

    method UserWouldBeAdminLocked(user: User) returns (r: bool)
      ensures r == IsAdmin(db, user)
    {
      if user.disabled {
        return false;
      }
      var p := PermissionsLocked(user);
      return p.admin;
    }

    method IsLastAdminLocked(username: string) returns (last: bool)
      ensures last == IsLastAdmin(db, username)
    {
      if username !in db.users {
        return false;
      }
      var admin := UserWouldBeAdminLocked(db.users[username]);
      if !admin {
        return false;
      }
      var admins := 0;
      var rest := db.users.Keys;
      ghost var seen: set<string> := {};
      while rest != {}
        invariant seen + rest == db.users.Keys && seen !! rest
        invariant admins == |set k | k in seen && IsAdmin(db, db.users[k])|
        decreases rest
      {
        var k :| k in rest;
        ghost var before := set k | k in seen && IsAdmin(db, db.users[k]);
        var admin := UserWouldBeAdminLocked(db.users[k]);
        rest, seen := rest - {k}, seen + {k};
        ghost var after := set k | k in seen && IsAdmin(db, db.users[k]);
        assert after == if admin then before + {k} else before;
        if admin {
          admins := admins + 1;
        }
      }
      assert (set k | k in seen && IsAdmin(db, db.users[k])) == Admins(db);
      return admins <= 1;
    }

    method UpsertUserIn(user: User, password: string, hash: Option<string>, writes: bool) returns (r: Outcome<Error>)
      modifies this
      ensures db == WithUser(old(db), user, password, hash).1
      ensures r == var o := WithUser(old(db), user, password, hash).0;
                        if o.Pass? && !writes then Fail(SaveFailed) else o
      ensures disk == if r.Pass? then db else old(disk)
    {
      var name := NormalizeName(user.username);
      if !ValidName(name) {
        return Fail(InvalidUsername);
      }
      var u := user.(username := name);
      if u.home == "" {
        u := u.(home := "/" + name);
      }
      u := u.(passwordHash := "");
      var existed := name in db.users;
      if existed && password == "" {
        u := u.(passwordHash := db.users[name].passwordHash);
      }
      if password != "" {
        if hash.None? {
          return Fail(HashFailed);
        }
        u := u.(passwordHash := hash.value);
      }
      if u.passwordHash == "" {
        return Fail(PasswordRequired);
      }
      if existed {
        var last := IsLastAdminLocked(db.users[name].username);
        var admin := UserWouldBeAdminLocked(u);
        if last && !admin {
          return Fail(LastAdmin);
        }
      }
      db := db.(users := db.users[name := u]);
      r := SaveLocked(writes);
    }

    method DeleteUserIn(username: string, writes: bool) returns (r: Outcome<Error>)
      modifies this
      ensures db == WithoutUser(old(db), username).1
      ensures r == var o := WithoutUser(old(db), username).0; if o.Pass? && !writes then Fail(SaveFailed) else o
      ensures disk == if r.Pass? then db else old(disk)
    {
      var name := NormalizeName(username);
      if !ValidName(name) {
        return Fail(InvalidUsername);
      }
      var last := IsLastAdminLocked(name);
      if last {
        return Fail(LastAdmin);
      }
      db := db.(users := db.users - {name});
      r := SaveLocked(writes);
    }

    method BootstrapAdminIn(username: string, hash: Option<string>, writes: bool) returns (r: Outcome<Error>)
      modifies this
      ensures db == WithBootstrap(old(db), username, hash).1
      ensures r == var o := WithBootstrap(old(db), username, hash).0;
                   if o.Pass? && db != old(db) && !writes then Fail(SaveFailed) else o
      ensures disk == if r.Pass? && db != old(db) then db else old(disk)
    {
      var name := NormalizeName(username);
      if name == "" {
        name := "admin";
      }
      if !ValidName(name) {
        return Fail(InvalidUsername);
      }
      if name in db.users {
        return Pass;
      }
      if hash.None? {
        return Fail(HashFailed);
      }
      assert name !in old(db).users;
      db := Database(db.users[name := User(name, hash.value, ["admins"], "/", false, ALL)],
                     db.groups["admins" := Group("admins", "/", ALL)]);
      r := SaveLocked(writes);
    }

    method UpsertGroupIn(group: Group, writes: bool) returns (r: Outcome<Error>)
      modifies this
      ensures db == WithGroup(old(db), group).1
      ensures r == var o := WithGroup(old(db), group).0; if o.Pass? && !writes then Fail(SaveFailed) else o
      ensures disk == if r.Pass? then db else old(disk)
    {
      var name := NormalizeName(group.name);
      if !ValidName(name) {
        return Fail(InvalidUsername);
      }
      db := db.(groups := db.groups[name := group.(name := name)]);
      r := SaveLocked(writes);
    }
  }

  // ---------------------------------------------------------------- what every run keeps

  /** A user that is an administrator by more than the group of this name. */
  predicate AdminWithout(db: Database, user: User, group: string) {
    && !user.disabled
    && (user.permissions.admin
        || exists g :: g in GroupNames(user.groups) && g != group && g in db.groups && db.groups[g].permissions.admin)
  }

  /** The group write does not take the Admin bit from a stored group. */
  predicate KeepsAdminBit(db: Database, group: Group) {
    var name := NormalizeName(group.name);
    name in db.groups && db.groups[name].permissions.admin ==> group.permissions.admin
  }

  lemma AdminChar(db: Database, user: User)
    ensures IsAdmin(db, user) <==>
            !user.disabled && (user.permissions.admin
              || exists g :: g in GroupNames(user.groups) && g in db.groups && db.groups[g].permissions.admin)
  {
    MergedGrants(db, user.permissions, user.groups, Admin);
  }

  /** Adding Admin bits to groups takes no administrator away. */
  lemma MoreGroupsKeepAdmins(db: Database, groups: map<string, Group>)
    requires forall g | g in db.groups && db.groups[g].permissions.admin :: g in groups && groups[g].permissions.admin
    ensures Admins(db) <= Admins(db.(groups := groups))
  {
    forall k | k in Admins(db)
      ensures k in Admins(db.(groups := groups))
    {
      AdminChar(db, db.users[k]);
      AdminChar(db.(groups := groups), db.users[k]);
    }
  }

  lemma {:induction false} MergedIgnoresUsers(a: Database, b: Database, start: PermissionSet, groups: seq<string>)
    requires a.groups == b.groups
    ensures Merged(a, start, groups) == Merged(b, start, groups)
    decreases |groups|
  {
    if groups != [] {
      MergedIgnoresUsers(a, b, start, groups[..|groups| - 1]);
    }
  }

  lemma UserWritesKeepAdmin(db: Database, name: string, users: map<string, User>)
    requires HasAdmin(db)
    requires forall k | k in db.users && k != name :: k in users && users[k] == db.users[k]
    requires !IsLastAdmin(db, name) || (name in users && IsAdmin(db, users[name]))
    ensures HasAdmin(db.(users := users))
  {
    var db' := db.(users := users);
    forall u: User
      ensures IsAdmin(db, u) <==> IsAdmin(db', u)
    {
      MergedIgnoresUsers(db, db', u.permissions, u.groups);
    }
    if IsLastAdmin(db, name) {
      assert name in Admins(db');
    } else if Admins(db) <= {name} {
      var k :| k in Admins(db);
      assert Admins(db) == {name};
    } else {
      var k :| k in Admins(db) && k != name;
      assert k in Admins(db');
    }
  }

  /** One call keeps the keys and an administrator. */
  lemma StepKeepsAdmin(db: Database, op: Op)
    requires Keyed(db) && HasAdmin(db)
    requires op.UpsertGroup? ==> KeepsAdminBit(db, op.group)
    ensures Keyed(Apply(db, op).1) && HasAdmin(Apply(db, op).1)
  {
    var db' := Apply(db, op).1;
    match op
    case UpsertUser(user, _, _) =>
      if db' != db {
        UserWritesKeepAdmin(db, NormalizeName(user.username), db'.users);
      }
    case DeleteUser(username) =>
      if db' != db {
        UserWritesKeepAdmin(db, NormalizeName(username), db'.users);
      }
    case BootstrapAdmin(_, _) =>
      if db' != db {
        MoreGroupsKeepAdmins(db, db'.groups);
        var k :| k in Admins(db);
        var mid := db.(groups := db'.groups);
        MergedIgnoresUsers(mid, db', mid.users[k].permissions, mid.users[k].groups);
        assert k in Admins(db');
      }
    case UpsertGroup(_) =>
      MoreGroupsKeepAdmins(db, db'.groups);
  }

  /** A run, with for each call whether the save reaches the file. The file always holds one of the
      states the run went through. */
  datatype Stores = Stores(db: Database, disk: Database)

  function Run(s: Stores, ops: seq<(Op, bool)>): Stores {
    if ops == [] then s
    else
      var before := Run(s, ops[..|ops| - 1]);
      var (op, writes) := ops[|ops| - 1];
      var (r, db) := Apply(before.db, op);
      Stores(db, if r.Pass? && writes && !(op.BootstrapAdmin? && db == before.db) then db else before.disk)
  }

  /** Over every run from a store keyed by username with an enabled administrator, in which no group
      write clears an Admin bit, an enabled administrator remains, in memory and in the file, whichever
      saves fail. */
  lemma {:induction false} AnAdminAlwaysRemains(s: Stores, ops: seq<(Op, bool)>)
    requires Keyed(s.db) && HasAdmin(s.db) && Keyed(s.disk) && HasAdmin(s.disk)
    requires forall i | 0 <= i < |ops| && ops[i].0.UpsertGroup? :: KeepsAdminBit(Run(s, ops[..i]).db, ops[i].0.group)
    ensures Keyed(Run(s, ops).db) && HasAdmin(Run(s, ops).db)
    ensures Keyed(Run(s, ops).disk) && HasAdmin(Run(s, ops).disk)
    decreases |ops|
  {
    if ops != [] {
      var n := |ops| - 1;
      GroupWritesBefore(s, ops);
      AnAdminAlwaysRemains(s, ops[..n]);
      assert ops[n].0.UpsertGroup? ==> KeepsAdminBit(Run(s, ops[..n]).db, ops[n].0.group);
      StepKeepsAdmin(Run(s, ops[..n]).db, ops[n].0);
    }
  }

  lemma GroupWritesBefore(s: Stores, ops: seq<(Op, bool)>)
    requires ops != []
    requires forall i | 0 <= i < |ops| && ops[i].0.UpsertGroup? :: KeepsAdminBit(Run(s, ops[..i]).db, ops[i].0.group)
    ensures var before := ops[..|ops| - 1];
            forall i | 0 <= i < |before| && before[i].0.UpsertGroup? ::
              KeepsAdminBit(Run(s, before[..i]).db, before[i].0.group)
  {
    var before := ops[..|ops| - 1];
    forall i | 0 <= i < |before|
      ensures before[i] == ops[i] && before[..i] == ops[..i]
    {}
  }

  // ---------------------------------------------------------------- who can log in

  function Stored(db: Database, name: string): Option<User> {
    if name in db.users then Some(db.users[name]) else None
  }

  function HashOf(user: Option<User>): string { if user.Some? then user.value.passwordHash else "" }

  /** What an accepted call makes of the user of a name. */
  function UserAfter(before: Option<User>, op: Op, name: string): Option<User> {
    match op
    case UpsertUser(user, password, hash) =>
      if NormalizeName(user.username) != name then before
      else Some(User(name, if password != "" then hash.GetOr("") else HashOf(before), user.groups,
                     if user.home == "" then "/" + name else user.home, user.disabled, user.permissions))
    case DeleteUser(username) => if NormalizeName(username) == name then None else before
    case BootstrapAdmin(username, hash) =>
      if before.None? && name == (if NormalizeName(username) == "" then "admin" else NormalizeName(username))
      then Some(User(name, hash.GetOr(""), ["admins"], "/", false, ALL))
      else before
    case UpsertGroup(_) => before
  }

  /** The user as the history of accepted calls leaves it: what was written last, with the hash of the password that
      was set last since the name was last deleted. */
  function LastSet(s: Stores, ops: seq<(Op, bool)>, name: string): Option<User>
    decreases |ops|
  {
    if ops == [] then Stored(s.db, name)
    else
      var n := |ops| - 1;
      var before := LastSet(s, ops[..n], name);
      if Apply(Run(s, ops[..n]).db, ops[n].0).0.Pass? then UserAfter(before, ops[n].0, name) else before
  }

  lemma StepSetsUser(db: Database, op: Op, name: string)
    ensures Stored(Apply(db, op).1, name)
            == if Apply(db, op).0.Pass? then UserAfter(Stored(db, name), op, name) else Stored(db, name)
  {}

  /** Over every run the store holds the user of a name as it was last set, also when saves fail. */
  lemma {:induction false} UserIsLastSet(s: Stores, ops: seq<(Op, bool)>, name: string)
    ensures Stored(Run(s, ops).db, name) == LastSet(s, ops, name)
    decreases |ops|
  {
    if ops != [] {
      UserIsLastSet(s, ops[..|ops| - 1], name);
      StepSetsUser(Run(s, ops[..|ops| - 1]).db, ops[|ops| - 1].0, name);
    }
  }

  /** The group of a name as the history leaves it; the first administrator's group is made or replaced when that
      user is made. */
  function LastGroup(s: Stores, ops: seq<(Op, bool)>, name: string): Option<Group>
    decreases |ops|
  {
    if ops == [] then if name in s.db.groups then Some(s.db.groups[name]) else None
    else
      var n := |ops| - 1;
      var before, db := LastGroup(s, ops[..n], name), Run(s, ops[..n]).db;
      match ops[n].0
      case UpsertGroup(group) =>
        if NormalizeName(group.name) == name && ValidName(name) then Some(group.(name := name)) else before
      case BootstrapAdmin(_, _) =>
        if name == "admins" && Apply(db, ops[n].0).1.users != db.users then Some(Group("admins", "/", ALL)) else before
      case _ => before
  }

  /** Nothing but such a write, and no failed one, changes what a group grants. */
  lemma {:induction false} GroupIsLastSet(s: Stores, ops: seq<(Op, bool)>, name: string)
    ensures var groups := Run(s, ops).db.groups;
            LastGroup(s, ops, name) == if name in groups then Some(groups[name]) else None
    decreases |ops|
  {
    if ops != [] {
      GroupIsLastSet(s, ops[..|ops| - 1], name);
      StepSetsGroup(Run(s, ops[..|ops| - 1]).db, ops[|ops| - 1].0, name);
    }
  }

  lemma StepSetsGroup(db: Database, op: Op, name: string)
    ensures var groups := Apply(db, op).1.groups;
            if op.UpsertGroup? && NormalizeName(op.group.name) == name && ValidName(name)
            then name in groups && groups[name] == op.group.(name := name)
            else if op.BootstrapAdmin? && name == "admins" && Apply(db, op).1.users != db.users
            then name in groups && groups[name] == Group("admins", "/", ALL)
            else (name in groups <==> name in db.groups) && (name in groups ==> groups[name] == db.groups[name])
  {
    if op.BootstrapAdmin? {
      var key := if NormalizeName(op.username) == "" then "admin" else NormalizeName(op.username);
      assert Apply(db, op).1 != db ==> key in Apply(db, op).1.users && key !in db.users;
    }
  }

  /** Authenticate on the value. `verify` tells whether a password fits a hash. */
  function LoggedIn(db: Database, verify: (string, string) -> bool, username: string, password: string)
    : Option<(User, PermissionSet)>
  {
    var name := NormalizeName(username);
    if name in db.users && !db.users[name].disabled && db.users[name].passwordHash != ""
       && verify(db.users[name].passwordHash, password)
    then Some((db.users[name], Permissions(db, db.users[name])))
    else None
  }

  predicate LetsIn(user: Option<User>, verify: (string, string) -> bool, password: string) {
    && user.Some? && !user.value.disabled
    && user.value.passwordHash != "" && verify(user.value.passwordHash, password)
  }

  /** After every run a log-in succeeds exactly when the user last set under the normalized name is enabled and has a
      hash that fits the password, and it is for that user. */
  lemma LogsInIff(s: Stores, ops: seq<(Op, bool)>, verify: (string, string) -> bool, username: string,
                  password: string)
    ensures var user := LastSet(s, ops, NormalizeName(username));
            var r := LoggedIn(Run(s, ops).db, verify, username, password);
            (r.Some? <==> LetsIn(user, verify, password)) && (r.Some? ==> r.value.0 == user.value)
  {
    UserIsLastSet(s, ops, NormalizeName(username));
  }

  predicate LeavesPassword(op: Op, name: string) {
    && (op.UpsertUser? && NormalizeName(op.user.username) == name ==> op.password == "" && !op.user.disabled)
    && (op.DeleteUser? ==> NormalizeName(op.username) != name)
  }

  lemma StillLetsIn(before: Option<User>, op: Op, name: string, verify: (string, string) -> bool, password: string)
    requires LetsIn(before, verify, password) && LeavesPassword(op, name)
    ensures LetsIn(UserAfter(before, op, name), verify, password) == true
  {}

  /** The call sets an enabled user's password, with a hash that fits it. */
  predicate SetsPassword(op: Op, name: string, verify: (string, string) -> bool, password: string) {
    && op.UpsertUser? && NormalizeName(op.user.username) == name && !op.user.disabled
    && op.password == password && password != ""
    && op.hash.Some? && op.hash.value != "" && verify(op.hash.value, password)
  }

  lemma NowLetsIn(before: Option<User>, op: Op, name: string, verify: (string, string) -> bool, password: string)
    requires SetsPassword(op, name, verify, password)
    ensures LetsIn(UserAfter(before, op, name), verify, password) == true
  {}

  lemma WriteLetsIn(s: Stores, ops: seq<(Op, bool)>, name: string, verify: (string, string) -> bool, password: string)
    requires ops != [] && Apply(Run(s, ops[..|ops| - 1]).db, ops[|ops| - 1].0).0.Pass?
    requires SetsPassword(ops[|ops| - 1].0, name, verify, password)
    ensures LetsIn(LastSet(s, ops, name), verify, password) == true
  {
    NowLetsIn(LastSet(s, ops[..|ops| - 1], name), ops[|ops| - 1].0, name, verify, password);
  }

  lemma OtherLetsIn(s: Stores, ops: seq<(Op, bool)>, name: string, verify: (string, string) -> bool, password: string)
    requires ops != [] && LeavesPassword(ops[|ops| - 1].0, name) == true
    requires LetsIn(LastSet(s, ops[..|ops| - 1], name), verify, password) == true
    ensures LetsIn(LastSet(s, ops, name), verify, password) == true
  {
    StillLetsIn(LastSet(s, ops[..|ops| - 1], name), ops[|ops| - 1].0, name, verify, password);
  }

  /** So the password that an accepted call has set lets the user in, as long as no call replaces it or disables or
      deletes the user, whatever else is written. */
  lemma {:induction false} PasswordStaysValid(s: Stores, ops: seq<(Op, bool)>, i: nat, name: string,
                                              verify: (string, string) -> bool, password: string)
    requires i < |ops| && SetsPassword(ops[i].0, name, verify, password)
    requires Apply(Run(s, ops[..i]).db, ops[i].0).0.Pass?
    requires AllLeavePassword(ops, i + 1, name)
    ensures LetsIn(LastSet(s, ops, name), verify, password) == true
    decreases |ops|
  {
    var front := ops[..|ops| - 1];
    if i == |front| {
      WriteLetsIn(s, ops, name, verify, password);
    } else {
      AllButLastLeave(ops, i + 1, name);
      assert front[i] == ops[i] && front[..i] == ops[..i];
      PasswordStaysValid(s, front, i, name, verify, password);
      OtherLetsIn(s, ops, name, verify, password);
    }
  }

  predicate AllLeavePassword(ops: seq<(Op, bool)>, from: nat, name: string) {
    forall k | from <= k < |ops| :: LeavesPassword(ops[k].0, name)
  }

  lemma AllButLastLeave(ops: seq<(Op, bool)>, from: nat, name: string)
    requires AllLeavePassword(ops, from, name) && from < |ops|
    ensures AllLeavePassword(ops[..|ops| - 1], from, name) == true
    ensures LeavesPassword(ops[|ops| - 1].0, name) == true
  {
    assert LeavesPassword(ops[|ops| - 1].0, name);
  }

  // ---------------------------------------------------------------- what is refused

  /** The input of a user write or removal is complete: the name is valid, a new password can be hashed, and the user
      ends up with a hash. */
  predicate Sound(db: Database, op: Op)
    requires op.UpsertUser? || op.DeleteUser?
  {
    match op
    case DeleteUser(username) => ValidName(NormalizeName(username))
    case UpsertUser(user, password, hash) =>
      && ValidName(NormalizeName(user.username)) && (password != "" ==> hash.Some?)
      && HashOf(UserAfter(Stored(db, NormalizeName(user.username)), op, NormalizeName(user.username))) != ""
  }

  /** The users as the call asks for them. */
  function Wanted(db: Database, op: Op): Database
    requires op.UpsertUser? || op.DeleteUser?
  {
    match op
    case DeleteUser(username) => db.(users := db.users - {NormalizeName(username)})
    case UpsertUser(user, _, _) =>
      var name := NormalizeName(user.username);
      db.(users := db.users[name := UserAfter(Stored(db, name), op, name).value])
  }

  lemma AdminAgain(db: Database, users: map<string, User>)
    ensures forall u: User :: IsAdmin(db.(users := users), u) <==> IsAdmin(db, u)
  {
    forall u: User
      ensures IsAdmin(db.(users := users), u) <==> IsAdmin(db, u)
    {
      MergedIgnoresUsers(db, db.(users := users), u.permissions, u.groups);
    }
  }

  /** Only the loss of the last administrator shows in who is one. */
  lemma LosesLastAdminIff(db: Database, name: string, users: map<string, User>)
    requires forall k | k in db.users && k != name :: k in users && users[k] == db.users[k]
    requires forall k | k in users && k != name :: k in db.users
    ensures HasAdmin(db) && !HasAdmin(db.(users := users))
            <==> IsLastAdmin(db, name) && !(name in users && IsAdmin(db, users[name]))
  {
    var db' := db.(users := users);
    AdminAgain(db, users);
    assert name in Admins(db') <==> name in users && IsAdmin(db, users[name]);
    assert forall k | k != name :: k in Admins(db) <==> k in Admins(db');
    if IsLastAdmin(db, name) {
      OnlyOne(Admins(db), name);
    } else if HasAdmin(db) {
      Another(Admins(db), name);
    }
  }

  lemma Another(some: set<string>, name: string)
    requires some != {} && !(name in some && |some| <= 1)
    ensures exists k :: k in some && k != name
  {
    var k :| k in some;
    if some <= {k} {
      assert some == {k};
    } else {
      var other :| other in some && other != k;
    }
  }

  lemma OnlyOne(some: set<string>, name: string)
    requires name in some && |some| <= 1
    ensures some == {name}
  {
    if k :| k in some && k != name {
      SubsetIsSmaller({k, name}, some);
    }
  }

  lemma SubsetIsSmaller(a: set<string>, b: set<string>)
    requires a <= b
    ensures |a| <= |b|
  {
    assert b == a + (b - a);
  }

  /** Writing or removing a user is refused exactly when the input is unsound, or when there is an administrator and
      there would be none; an accepted call leaves the users that it asks for, with the rest of the store. */
  lemma AcceptedIff(db: Database, op: Op)
    requires Keyed(db) && (op.UpsertUser? || op.DeleteUser?)
    ensures Apply(db, op).0.Pass? <==> Sound(db, op) && (HasAdmin(db) ==> HasAdmin(Wanted(db, op)))
    ensures Apply(db, op).1 == if Apply(db, op).0.Pass? then Wanted(db, op) else db
  {
    match op
    case DeleteUser(username) =>
      LosesLastAdminIff(db, NormalizeName(username), Wanted(db, op).users);
    case UpsertUser(user, _, _) =>
      if Sound(db, op) {
        LosesLastAdminIff(db, NormalizeName(user.username), Wanted(db, op).users);
      }
  }

  /** The letters, digits and marks of a name are kept in order, in lower case. */
  lemma {:induction false} NormalizeKeeps(name: string)
    requires forall c | c in name :: NameChar(Lower(c))
    ensures |NormalizeName(name)| == |name|
    ensures forall i | 0 <= i < |name| :: NormalizeName(name)[i] == Lower(name[i])
  {
    if name != [] {
      NormalizeKeeps(name[1..]);
    }
  }

  /** A group write can remove the last administrator. From a store that has one it leaves one exactly
      when the new group grants Admin to an enabled member, or some enabled user is an administrator by
      more than that group. */
  lemma GroupWriteKeepsAdminIff(db: Database, group: Group)
    requires ValidName(NormalizeName(group.name))
    ensures HasAdmin(WithGroup(db, group).1) <==>
            exists k :: k in db.users &&
              (AdminWithout(db, db.users[k], NormalizeName(group.name))
               || (group.permissions.admin && !db.users[k].disabled
                   && NormalizeName(group.name) in GroupNames(db.users[k].groups)))
  {
    var db', name := WithGroup(db, group).1, NormalizeName(group.name);
    forall k | k in db.users
      ensures k in Admins(db') <==>
              (AdminWithout(db, db.users[k], name)
               || (group.permissions.admin && !db.users[k].disabled && name in GroupNames(db.users[k].groups)))
    {
      AdminChar(db', db.users[k]);
      assert name in db'.groups;
    }
  }

  const NONE := PermissionSet(false, false, false, false, false, false, false, false, false)

  /** One user, who is an administrator by membership of "ops" only. */
  const OPS_USER := User("sam", "h", ["ops"], "/", false, NONE)
  const OPS_STORE := Database(map["sam" := OPS_USER], map["ops" := Group("ops", "/", ALL)])

  lemma OneGroup(db: Database, g: string)
    requires NormalizeName(g) == g && g in db.groups
    ensures Merged(db, NONE, [g]).admin == db.groups[g].permissions.admin
  {
    assert [g][..0] == [];
    assert Merged(db, NONE, []) == NONE;
  }

  lemma OpsStoreHasAdmin()
    ensures Keyed(OPS_STORE) && HasAdmin(OPS_STORE)
  {
    NormalizeFixes("ops");
    OneGroup(OPS_STORE, "ops");
    assert "sam" in Admins(OPS_STORE);
  }

  /** The failing case: a write that clears the Admin bit of "ops" is accepted and leaves nobody. */
  lemma GroupWriteCanRemoveLastAdmin()
    ensures Keyed(OPS_STORE) && HasAdmin(OPS_STORE)
    ensures WithGroup(OPS_STORE, Group("ops", "/", NONE)).0 == Pass
    ensures !HasAdmin(WithGroup(OPS_STORE, Group("ops", "/", NONE)).1)
  {
    OpsStoreHasAdmin();
    NormalizeFixes("ops");
    var db' := WithGroup(OPS_STORE, Group("ops", "/", NONE)).1;
    OneGroup(db', "ops");
    assert Admins(db') == {};
  }
}
