/** `initDb` from src/db/schema.ts: the migration check that drops the seven
    tables when they come from the older NOT NULL schema, the creation of any
    missing table, and the seeding of the four roles, the super admin and the
    default dealership with its principal and three sample leads.

    `InitSpec` states what one run does to the database; `Database.InitDb` is
    the statement-by-statement procedure, proved to do exactly that; the
    lemmas below state what a run guarantees, including that a second run
    changes nothing. */
module Schema {
  import opened Base
  import opened Store
  import Seqs

  // ---------------------------------------------------------------------------
  // Specification of one run

  /** Either of the two columns is still declared NOT NULL. */
  predicate NeedsMigration(t: Tables) {
    t.usersDealershipNotNull || t.commsUserIdNotNull
  }

  /** DROP TABLE of all seven tables when the old schema is detected, then
      CREATE TABLE IF NOT EXISTS (which leaves existing tables alone). */
  function Migrate(t: Tables): (r: Tables)
    ensures !NeedsMigration(r) && r.clock == t.clock
    ensures NeedsMigration(t) ==> r == Fresh(t.clock)
    ensures !NeedsMigration(t) ==> r == t
  {
    if NeedsMigration(t) then Fresh(t.clock) else t
  }

  /** `INSERT OR IGNORE` of each name in turn. */
  function SeedRoles(t: Tables, names: seq<string>): (r: Tables)
    ensures Consistent(t) ==> Consistent(r)
    ensures r.(roles := t.roles, clock := t.clock) == t
    ensures |t.roles| <= |r.roles| && r.roles[..|t.roles|] == t.roles
  {
    if names == [] then t
    else InsertRoleOrIgnore(SeedRoles(t, names[..|names| - 1]), names[|names| - 1])
  }

  /** Seeding one more name is one more `INSERT OR IGNORE`. */
  lemma SeedRolesStep(t: Tables, names: seq<string>, k: nat)
    requires k < |names|
    ensures SeedRoles(t, names[..k + 1]) == InsertRoleOrIgnore(SeedRoles(t, names[..k]), names[k])
  {
    assert names[..k + 1][..k] == names[..k];
  }

  predicate HasRole(t: Tables, name: string) {
    exists i :: 0 <= i < |t.roles| && t.roles[i].name == name
  }

  /** A role row, once present, stays present when rows are appended. */
  lemma HasRoleKept(a: Tables, b: Tables, name: string)
    requires |a.roles| <= |b.roles| && b.roles[..|a.roles|] == a.roles
    requires HasRole(a, name)
    ensures HasRole(b, name)
  {
    var i :| 0 <= i < |a.roles| && a.roles[i].name == name;
    assert b.roles[..|a.roles|][i] == b.roles[i];
  }

  /** After seeding, every seeded name has a role row. */
  lemma {:induction false} SeedRolesPresent(t: Tables, names: seq<string>)
    ensures forall n :: n in names ==> HasRole(SeedRoles(t, names), n)
  {
    if names != [] {
      var init, last := names[..|names| - 1], names[|names| - 1];
      var prev := SeedRoles(t, init);
      var r := SeedRoles(t, names);
      SeedRolesPresent(t, init);
      assert r == InsertRoleOrIgnore(prev, last);
      if !HasRole(prev, last) {
        assert r.roles[|prev.roles|].name == last;
      }
      forall n | n in names ensures HasRole(r, n) {
        if n != last {
          assert n in init by {
            var k :| 0 <= k < |names| && names[k] == n;
            assert init[k] == n;
          }
          HasRoleKept(prev, r, n);
        }
      }
    }
  }

  /** Seeding names that are all present already changes nothing (INSERT OR IGNORE). */
  lemma {:induction false} SeedRolesIdle(t: Tables, names: seq<string>)
    requires forall n :: n in names ==> HasRole(t, n)
    ensures SeedRoles(t, names) == t
  {
    if names != [] {
      var init := names[..|names| - 1];
      assert forall n :: n in init ==> n in names;
      SeedRolesIdle(t, init);
      assert names[|names| - 1] in names;
    }
  }

  /** The users whose role_id is `roleId` (`SELECT COUNT(*) FROM users WHERE role_id = ?`). */
  function CountUsersWithRole(users: seq<User>, roleId: nat): (n: nat)
    ensures n == 0 <==> forall i :: 0 <= i < |users| ==> users[i].roleId != roleId
  {
    var holders := Seqs.Filter(users, (u: User) => u.roleId == roleId);
    assert forall i :: 0 <= i < |users| && users[i].roleId == roleId ==> users[i] in holders;
    assert |holders| > 0 ==> holders[0] in users && holders[0].roleId == roleId;
    |holders|
  }

  /** Some user holds the role named super_admin. */
  predicate HasSuperAdmin(t: Tables) {
    var role := FindRoleByName(t.roles, SuperAdmin);
    role.Some? && CountUsersWithRole(t.users, role.value.id) > 0
  }

  /** Seeds 'super@dealflow.com' when nobody holds the super_admin role.
      The boolean is false when a statement throws: the role row is missing
      (reading `.id` of undefined) or the email is already taken. */
  function SeedSuperAdmin(t: Tables): (r: (Tables, bool))
    ensures r.0.(users := t.users, clock := t.clock) == t
    ensures |t.users| <= |r.0.users| && r.0.users[..|t.users|] == t.users
    ensures r.1 ==> HasSuperAdmin(r.0)
    ensures HasSuperAdmin(t) ==> r == (t, true)
    ensures Consistent(t) ==> Consistent(r.0)
  {
    var role := FindRoleByName(t.roles, SuperAdmin);
    if role.None? then (t, false)
    else if CountUsersWithRole(t.users, role.value.id) != 0 then (t, true)
    else
      match InsertUser(t, None, None, role.value.id, Some("Super Admin"), Some("super@dealflow.com"),
                       HashPassword("superadmin123"))
      case None => (t, false)
      case Some(t') => (t', true)
  }

  /** One sample lead of the seeding code: every column it names is given. */
  datatype SampleLead = SampleLead(
    firstName: string, lastName: string, email: string, phone: string,
    source: string, vehicleInterest: string, status: string)
  {
    function Fields(): LeadFields {
      LeadFields(Some(firstName), Some(lastName), Some(email), Some(phone), Some(source), Some(vehicleInterest))
    }
  }

  const SeedLeads: seq<SampleLead> := [
    SampleLead("John", "Doe", "john@example.com", "555-0101", "Web Inquiry", "2024 Ford F-150", "new"),
    SampleLead("Jane", "Smith", "jane@example.com", "555-0102", "Walk-in", "2024 Mustang GT", "contacted"),
    SampleLead("Robert", "Brown", "robert@example.com", "555-0103", "Referral", "2024 Explorer", "new")
  ]

  /** The lead at position `base + k` is the `k`-th seed, for dealership `dealerId`. */
  ghost predicate SeededAt(r: Tables, base: nat, dealerId: nat, seeds: seq<SampleLead>, k: nat)
    requires k < |seeds|
  {
    base + k < |r.leads| && r.leads[base + k].dealershipId == dealerId && r.leads[base + k].status == seeds[k].status
  }

  /** Inserts the sample leads `seeds` for dealership `dealerId`, in order. */
  function SeedLeadRows(t: Tables, dealerId: nat, seeds: seq<SampleLead>): (r: Tables)
    requires DealershipExists(t, dealerId)
    ensures r.(leads := t.leads, clock := r.clock) == t.(clock := r.clock)
    ensures |r.leads| == |t.leads| + |seeds| && r.leads[..|t.leads|] == t.leads
    ensures forall k :: 0 <= k < |seeds| ==> SeededAt(r, |t.leads|, dealerId, seeds, k)
    ensures Consistent(t) ==> Consistent(r)
    decreases |seeds|
  {
    if seeds == [] then t
    else
      var t1 := InsertLead(t, Some(dealerId), None, seeds[0].Fields(), Some(seeds[0].status)).value;
      var r := SeedLeadRows(t1, dealerId, seeds[1..]);
      assert r.leads[..|t.leads|] == r.leads[..|t1.leads|][..|t.leads|];
      assert forall k :: 0 <= k < |seeds| ==> SeededAt(r, |t.leads|, dealerId, seeds, k) by {
        forall k | 0 <= k < |seeds| ensures SeededAt(r, |t.leads|, dealerId, seeds, k) {
          if k == 0 {
            assert r.leads[|t.leads|] == r.leads[..|t1.leads|][|t.leads|] == t1.leads[|t.leads|];
          } else {
            assert SeededAt(r, |t1.leads|, dealerId, seeds[1..], k - 1);
          }
        }
      }
      r
  }

  /** When there is no dealership: 'Default Motors', its principal and three leads. */
  function SeedDefaultDealership(t: Tables): (r: (Tables, bool))
    ensures Consistent(t) ==> Consistent(r.0)
    ensures r.0.roles == t.roles && r.0.locations == t.locations
    ensures r.0.communications == t.communications && r.0.tasks == t.tasks
    ensures r.0.usersDealershipNotNull == t.usersDealershipNotNull && r.0.commsUserIdNotNull == t.commsUserIdNotNull
    ensures |t.users| <= |r.0.users| && r.0.users[..|t.users|] == t.users
    ensures |t.dealerships| != 0 ==> r == (t, true)
    ensures r.1 ==> |r.0.dealerships| != 0
    ensures |t.dealerships| == 0 && r.1 ==>
      |r.0.dealerships| == 1 && r.0.dealerships[0].name == "Default Motors" && PrincipalOf(r.0, 1)
    ensures |t.dealerships| == 0 && |t.leads| == 0 && r.1 ==> SampleLeadsOf(r.0.leads, 1)
    ensures |t.dealerships| == 0 && r.1 ==> |r.0.users| == |t.users| + 1
  {
    if |t.dealerships| != 0 then (t, true)
    else SeedPrincipalAndLeads(InsertDealership(t, Some("Default Motors")).value, |t.dealerships| + 1)
  }

  /** The principal 'principal@dealflow.com' and the sample leads of the new
      dealership `dealerId`. The boolean is false when a statement throws: the
      principal role row is missing or the email is already taken. */
  function SeedPrincipalAndLeads(t: Tables, dealerId: nat): (r: (Tables, bool))
    requires DealershipExists(t, dealerId)
    ensures Consistent(t) ==> Consistent(r.0)
    ensures r.0.roles == t.roles && r.0.locations == t.locations && r.0.dealerships == t.dealerships
    ensures r.0.communications == t.communications && r.0.tasks == t.tasks
    ensures r.0.usersDealershipNotNull == t.usersDealershipNotNull && r.0.commsUserIdNotNull == t.commsUserIdNotNull
    ensures |t.users| <= |r.0.users| && r.0.users[..|t.users|] == t.users
    ensures r.1 ==> PrincipalOf(r.0, dealerId)
    ensures r.1 && |t.leads| == 0 ==> SampleLeadsOf(r.0.leads, dealerId)
    ensures r.1 ==> |r.0.users| == |t.users| + 1
  {
    var role := FindRoleByName(t.roles, Principal);
    if role.None? then (t, false)
    else
      match InsertUser(t, Some(dealerId), None, role.value.id, Some("Principal User"),
                       Some("principal@dealflow.com"), HashPassword("principal123"))
      case None => (t, false)
      case Some(t2) =>
        var r := SeedLeadRows(t2, dealerId, SeedLeads);
        assert r.users[|t.users|] == t2.users[|t.users|];
        assert role.value == Role(r.users[|t.users|].roleId, Principal);
        if |t.leads| == 0 then
          SeedLeadRowsFromEmpty(t2, dealerId);
          (r, true)
        else (r, true)
  }

  /** Some user of dealership `dealerId` is 'principal@dealflow.com' with the principal role. */
  predicate PrincipalOf(t: Tables, dealerId: nat) {
    exists i :: 0 <= i < |t.users| && t.users[i].dealershipId == Some(dealerId)
      && t.users[i].email == "principal@dealflow.com"
      && FindRoleByName(t.roles, Principal) == Some(Role(t.users[i].roleId, Principal))
  }

  /** Exactly one user belongs to dealership `dealerId`. */
  predicate SoleUserOf(t: Tables, dealerId: nat) {
    && (exists i :: 0 <= i < |t.users| && t.users[i].dealershipId == Some(dealerId))
    && forall i, j ::
         (0 <= i < |t.users| && 0 <= j < |t.users| &&
          t.users[i].dealershipId == Some(dealerId) && t.users[j].dealershipId == Some(dealerId)) ==> i == j
  }

  /** One run of `initDb`: the resulting database, and whether it ran to the end
      (false when a statement threw, which aborts the run and the server start). */
  function InitSpec(t: Tables): (r: (Tables, bool))
    ensures Consistent(t) ==> Consistent(r.0)
  {
    var t1 := SeedRoles(Migrate(t), RoleNames);
    var (t2, ok) := SeedSuperAdmin(t1);
    if !ok then (t2, false) else SeedDefaultDealership(t2)
  }

  // ---------------------------------------------------------------------------
  // What a run guarantees

  /** `name` is the name of exactly one row of `roles`. */
  predicate ExactlyOnce(roles: seq<Role>, name: string) {
    exists i :: 0 <= i < |roles| && roles[i].name == name &&
      forall j :: 0 <= j < |roles| && roles[j].name == name ==> j == i
  }

  /** Each listed name has exactly one row, given UNIQUE names. */
  lemma PresentUniqueOnce(t: Tables, names: seq<string>)
    requires UniqueHolds(t)
    requires forall n :: n in names ==> HasRole(t, n)
    ensures forall n :: n in names ==> ExactlyOnce(t.roles, n)
  {
    forall n | n in names ensures ExactlyOnce(t.roles, n) {
      var i :| 0 <= i < |t.roles| && t.roles[i].name == n;
      assert forall j :: 0 <= j < |t.roles| && t.roles[j].name == n ==> j == i;
    }
  }

  /** Each table of `a` is a prefix of the same table of `b`: rows were only appended. */
  predicate Extends(a: Tables, b: Tables) {
    && a.dealerships <= b.dealerships && a.locations <= b.locations && a.roles <= b.roles
    && a.users <= b.users && a.leads <= b.leads && a.communications <= b.communications
    && a.tasks <= b.tasks
  }

  /** A user holding the super_admin role keeps holding it when rows are appended. */
  lemma HasSuperAdminKept(a: Tables, b: Tables)
    requires a.roles == b.roles && a.users <= b.users
    requires HasSuperAdmin(a)
    ensures HasSuperAdmin(b)
  {
    var id := FindRoleByName(a.roles, SuperAdmin).value.id;
    var i :| 0 <= i < |a.users| && a.users[i].roleId == id;
    assert b.users[i] == a.users[i];
  }

  /** Without a migration no row is dropped; and when a dealership exists
      already, no dealership and no lead is added. */
  lemma InitKeepsRows(t: Tables)
    requires Consistent(t) && !NeedsMigration(t)
    ensures Extends(t, InitSpec(t).0)
    ensures |t.dealerships| != 0 ==>
              InitSpec(t).0.dealerships == t.dealerships && InitSpec(t).0.leads == t.leads
  {
    var t1 := SeedRoles(Migrate(t), RoleNames);
    var (t2, ok) := SeedSuperAdmin(t1);
    assert Extends(t, t1);
    assert Extends(t1, t2);
    if ok {
      var t3 := SeedDefaultDealership(t2).0;
      if |t2.dealerships| == 0 {
        assert |t.leads| > 0 ==> DealershipExists(t, t.leads[0].dealershipId);
      }
      assert Extends(t2, t3);
    }
  }

  /** With a migration every old row is gone: the run is the run on an empty file. */
  lemma InitAfterMigration(t: Tables)
    requires Consistent(t) && NeedsMigration(t)
    ensures InitSpec(t) == InitSpec(Fresh(t.clock))
  {
  }

  /** After a run each of the four role names has exactly one row. */
  lemma InitSeedsRolesOnce(t: Tables)
    requires Consistent(t)
    ensures forall n :: n in RoleNames ==> ExactlyOnce(InitSpec(t).0.roles, n)
  {
    var t1 := SeedRoles(Migrate(t), RoleNames);
    var r := InitSpec(t).0;
    SeedRolesPresent(Migrate(t), RoleNames);
    assert r.roles == t1.roles;
    assert forall n :: n in RoleNames ==> HasRole(r, n) by {
      forall n | n in RoleNames ensures HasRole(r, n) {
        assert HasRole(t1, n);
      }
    }
    PresentUniqueOnce(r, RoleNames);
  }

  /** A run that completes leaves at least one user with the super_admin role. */
  lemma InitLeavesSuperAdmin(t: Tables)
    requires Consistent(t) && InitSpec(t).1
    ensures HasSuperAdmin(InitSpec(t).0)
  {
    var t1 := SeedRoles(Migrate(t), RoleNames);
    var t2 := SeedSuperAdmin(t1).0;
    HasSuperAdminKept(t2, SeedDefaultDealership(t2).0);
  }

  /** 'super@dealflow.com', with no dealership, is added exactly when no user
      holds the super_admin role; otherwise the users are left alone. */
  lemma SeedSuperAdminInserts(t: Tables)
    requires Consistent(t) && HasRole(t, SuperAdmin) && !EmailTaken(t, "super@dealflow.com")
    ensures var (r, ok) := SeedSuperAdmin(t);
      && ok
      && (HasSuperAdmin(t) ==> r.users == t.users)
      && (!HasSuperAdmin(t) ==>
            r.users == t.users + [User(|t.users| + 1, None, None, FindRoleByName(t.roles, SuperAdmin).value.id,
                                       "Super Admin", "super@dealflow.com", HashPassword("superadmin123"),
                                       "active", t.clock)])
  {
    var role := FindRoleByName(t.roles, SuperAdmin).value;
    var i :| 0 <= i < |t.roles| && t.roles[i] == role;
    assert RoleExists(t, role.id);
  }

  /** `leads` are exactly three leads of dealership `dealerId`, with statuses
      new, contacted and new. */
  predicate SampleLeadsOf(leads: seq<Lead>, dealerId: nat) {
    && |leads| == 3
    && leads[0].dealershipId == dealerId && leads[0].status == "new"
    && leads[1].dealershipId == dealerId && leads[1].status == "contacted"
    && leads[2].dealershipId == dealerId && leads[2].status == "new"
  }

  /** The three sample leads on an empty leads table are leads 1 to 3. */
  lemma SeedLeadRowsFromEmpty(t: Tables, dealerId: nat)
    requires DealershipExists(t, dealerId) && |t.leads| == 0
    ensures var r := SeedLeadRows(t, dealerId, SeedLeads);
      && r.users == t.users && r.roles == t.roles && r.dealerships == t.dealerships
      && SampleLeadsOf(r.leads, dealerId)
  {
    var r := SeedLeadRows(t, dealerId, SeedLeads);
    assert SeededAt(r, 0, dealerId, SeedLeads, 0);
    assert SeededAt(r, 0, dealerId, SeedLeads, 1);
    assert SeededAt(r, 0, dealerId, SeedLeads, 2);
  }

  /** When the run finds no dealership (an empty table, or one just emptied by
      the migration) and completes, it has added 'Default Motors' as
      dealership 1, a principal user of that dealership, and three leads of
      that dealership with statuses new, contacted and new. */
  lemma InitSeedsDefaultDealership(t: Tables)
    requires Consistent(t) && (NeedsMigration(t) || |t.dealerships| == 0)
    requires InitSpec(t).1
    ensures var r := InitSpec(t).0;
      && |r.dealerships| == 1 && r.dealerships[0].name == "Default Motors"
      && PrincipalOf(r, 1) && SoleUserOf(r, 1) && SampleLeadsOf(r.leads, 1)
  {
    var t1 := SeedRoles(Migrate(t), RoleNames);
    var t2 := SeedSuperAdmin(t1).0;
    assert |t2.leads| > 0 ==> DealershipExists(t2, t2.leads[0].dealershipId);
    assert forall k :: 0 <= k < |t2.users| ==> NullOrIn(t2.users[k].dealershipId, |t2.dealerships|);
    DefaultPrincipalAlone(t2, SeedDefaultDealership(t2).0);
  }

  /** When no existing user has a dealership (as on a consistent database
      without dealerships), the principal the seeding appends is the one and
      only user of dealership 1. */
  lemma DefaultPrincipalAlone(t: Tables, r: Tables)
    requires |r.users| == |t.users| + 1 && r.users[..|t.users|] == t.users && PrincipalOf(r, 1)
    requires forall k :: 0 <= k < |t.users| ==> t.users[k].dealershipId.None?
    ensures SoleUserOf(r, 1)
  {
    assert forall k :: 0 <= k < |t.users| ==> r.users[k] == r.users[..|t.users|][k];
    PrincipalLastAlone(r, |t.users|, 1);
  }

  /** When every user before the last has a NULL dealership, the principal of
      `dealerId` is its only user. */
  lemma PrincipalLastAlone(r: Tables, n: nat, dealerId: nat)
    requires |r.users| == n + 1 && PrincipalOf(r, dealerId)
    requires forall k :: 0 <= k < n ==> r.users[k].dealershipId.None?
    ensures SoleUserOf(r, dealerId)
  {
  }

  /** A run on an empty database file (the first start, or any start that
      migrates) completes. */
  lemma InitCompletesOnEmpty(clock: nat)
    ensures InitSpec(Fresh(clock)).1
  {
    var t1 := SeedRoles(Migrate(Fresh(clock)), RoleNames);
    RolesSeededOnEmpty(clock);
    SuperAdminSeededOnEmpty(t1);
    SeedDefaultDealershipCompletes(SeedSuperAdmin(t1).0);
  }

  /** Seeding the roles of an empty database leaves it consistent, with
      both roles the later steps need and still no user or dealership. */
  lemma RolesSeededOnEmpty(clock: nat)
    ensures var t1 := SeedRoles(Migrate(Fresh(clock)), RoleNames);
      Consistent(t1) && HasRole(t1, SuperAdmin) && HasRole(t1, Principal) && t1.users == [] && t1.dealerships == []
  {
    var t0 := Migrate(Fresh(clock));
    SeedRolesPresent(t0, RoleNames);
  }

  /** On a database with both roles and no user, the super admin seeding
      completes and leaves a free principal email. */
  lemma SuperAdminSeededOnEmpty(t1: Tables)
    requires Consistent(t1) && HasRole(t1, SuperAdmin) && HasRole(t1, Principal)
    requires t1.users == [] && t1.dealerships == []
    ensures var t2 := SeedSuperAdmin(t1).0;
      && SeedSuperAdmin(t1).1 && Consistent(t2) && |t2.dealerships| == 0
      && HasRole(t2, Principal) && !EmailTaken(t2, "principal@dealflow.com")
  {
    SeedSuperAdminInserts(t1);
    var t2 := SeedSuperAdmin(t1).0;
    assert |t2.users| == 1 && t2.users[0].email == "super@dealflow.com";
  }

  /** With no dealership yet, a principal role and a free principal email,
      the default-dealership seeding completes. */
  lemma SeedDefaultDealershipCompletes(t: Tables)
    requires Consistent(t) && |t.dealerships| == 0
    requires HasRole(t, Principal) && !EmailTaken(t, "principal@dealflow.com")
    ensures SeedDefaultDealership(t).1
  {
    var d := InsertDealership(t, Some("Default Motors")).value;
    var principalRole := FindRoleByName(d.roles, Principal).value;
    var k :| 0 <= k < |d.roles| && d.roles[k] == principalRole;
    assert RoleExists(d, principalRole.id);
    assert !EmailTaken(d, "principal@dealflow.com");
  }

  /** A completed run is a fixed point: running again drops nothing, inserts
      nothing and completes. */
  lemma InitIdempotent(t: Tables)
    requires Consistent(t) && InitSpec(t).1
    ensures InitSpec(InitSpec(t).0) == (InitSpec(t).0, true)
  {
    var r := InitSpec(t).0;
    var t1 := SeedRoles(Migrate(t), RoleNames);
    var t2 := SeedSuperAdmin(t1).0;
    assert !NeedsMigration(r);
    SeedRolesPresent(Migrate(t), RoleNames);
    assert r.roles == t1.roles;
    assert forall n :: n in RoleNames ==> HasRole(r, n) by {
      forall n | n in RoleNames ensures HasRole(r, n) {
        assert HasRole(t1, n);
      }
    }
    SeedRolesIdle(r, RoleNames);
    InitLeavesSuperAdmin(t);
  }

  // ---------------------------------------------------------------------------
  // The procedure

  class Database {
    var tables: Tables

    ghost predicate Valid()
      reads this
    {
      Consistent(tables)
    }

    constructor (t: Tables)
      requires Consistent(t)
      ensures Valid() && tables == t
    {
      tables := t;
    }

    /** The whole run, in the order of the source: migration check, role seeding,
        super-admin seeding, default-dealership seeding. */
    method InitDb() returns (ok: bool)
      requires Valid()
      modifies this
      ensures Valid()
      ensures (tables, ok) == InitSpec(old(tables))
    {
      DropLegacyTables();
      SeedRoleRows();
      ok := SeedSuperAdminRow();
      if ok {
        ok := SeedDefaultDealershipRows();
      }
    }

    /** `PRAGMA table_info` finds a NOT NULL column: DROP TABLE all seven, then CREATE TABLE. */
    method DropLegacyTables()
      requires Valid()
      modifies this
      ensures Valid()
      ensures tables == Migrate(old(tables))
    {
      if tables.usersDealershipNotNull || tables.commsUserIdNotNull {
        tables := Fresh(tables.clock);
      }
    }

    /** `roles.forEach(role => insertRole.run(role))`. */
    method SeedRoleRows()
      requires Valid()
      modifies this
      ensures Valid()
      ensures tables == SeedRoles(old(tables), RoleNames)
    {
      ghost var t0 := tables;
      var k := 0;
      while k < |RoleNames|
        invariant 0 <= k <= |RoleNames|
        invariant tables == SeedRoles(t0, RoleNames[..k])
        invariant Consistent(tables)
      {
        SeedRolesStep(t0, RoleNames, k);
        tables := InsertRoleOrIgnore(tables, RoleNames[k]);
        k := k + 1;
      }
      assert RoleNames[..k] == RoleNames;
    }

    method SeedSuperAdminRow() returns (ok: bool)
      requires Valid()
      modifies this
      ensures Valid()
      ensures (tables, ok) == SeedSuperAdmin(old(tables))
    {
      var superRole := FindRoleByName(tables.roles, SuperAdmin);
      if superRole.None? {
        return false;
      }
      if CountUsersWithRole(tables.users, superRole.value.id) == 0 {
        var inserted := InsertUser(tables, None, None, superRole.value.id, Some("Super Admin"),
                                   Some("super@dealflow.com"), HashPassword("superadmin123"));
        if inserted.None? {
          return false;
        }
        tables := inserted.value;
      }
      return true;
    }

    method SeedDefaultDealershipRows() returns (ok: bool)
      requires Valid()
      modifies this
      ensures Valid()
      ensures (tables, ok) == SeedDefaultDealership(old(tables))
    {
      if |tables.dealerships| != 0 {
        return true;
      }
      tables := InsertDealership(tables, Some("Default Motors")).value;
      var dealerId := |tables.dealerships|;
      var principalRole := FindRoleByName(tables.roles, Principal);
      if principalRole.None? {
        return false;
      }
      var inserted := InsertUser(tables, Some(dealerId), None, principalRole.value.id, Some("Principal User"),
                                 Some("principal@dealflow.com"), HashPassword("principal123"));
      if inserted.None? {
        return false;
      }
      tables := inserted.value;
      InsertSeedLeads(dealerId);
      return true;
    }

    /** The three `insertLead.run(...)` calls. */
    method InsertSeedLeads(dealerId: nat)
      requires Valid() && DealershipExists(tables, dealerId)
      modifies this
      ensures Valid()
      ensures tables == SeedLeadRows(old(tables), dealerId, SeedLeads)
    {
      var i := 0;
      while i < |SeedLeads|
        invariant 0 <= i <= |SeedLeads|
        invariant DealershipExists(tables, dealerId) && Valid()
        invariant SeedLeadRows(tables, dealerId, SeedLeads[i..]) == SeedLeadRows(old(tables), dealerId, SeedLeads)
      {
        assert SeedLeads[i..][1..] == SeedLeads[i + 1..];
        tables := InsertLead(tables, Some(dealerId), None, SeedLeads[i].Fields(), Some(SeedLeads[i].status)).value;
        i := i + 1;
      }
    }
  }
}
