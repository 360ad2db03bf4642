/** The sidebar and header logic of src/components/Layout.tsx: which
    navigation entries a role sees, how many notifications are unread, when
    the badge shows and which entry is highlighted. */
module Layout {
  import opened Base
  import Seqs

  /** An entry of the navigation table: its label, its path and the roles it is shown to. */
  datatype NavItem = NavItem(name: string, href: string, roles: seq<string>)

  const StaffRoles: seq<string> := [Principal, Admin, StaffUser]

  const DashboardItem: NavItem := NavItem("Dashboard", "/", RoleNames)
  const DealershipsItem: NavItem := NavItem("Dealerships", "/dealerships", [SuperAdmin])
  const UsersItem: NavItem := NavItem("Users", "/users", [Principal])
  const LeadsItem: NavItem := NavItem("Leads", "/leads", StaffRoles)
  const CommunicationItem: NavItem := NavItem("Communication", "/messages", StaffRoles)
  const SettingsItem: NavItem := NavItem("Settings", "/settings", RoleNames)

  /** The table, in display order. */
  const NavTable: seq<NavItem> :=
    [DashboardItem, DealershipsItem, UsersItem, LeadsItem, CommunicationItem, SettingsItem]

  /** `navigation`: the entries whose roles include the user's, in table order. */
  function Navigation(role: string): (r: seq<NavItem>)
    ensures forall item :: item in r <==> item in NavTable && role in item.roles
    ensures |r| <= |NavTable|
  {
    Seqs.Filter(NavTable, ShownTo(role))
  }

  /** The entries a user with `role` is shown. */
  function ShownTo(role: string): NavItem -> bool {
    (item: NavItem) => role in item.roles
  }

  /** Filtering a list of six is filtering each of them. */
  lemma FilterSix<T(!new)>(a: T, b: T, c: T, d: T, e: T, f: T, p: T -> bool)
    ensures Seqs.Filter([a, b, c, d, e, f], p) ==
      Seqs.Filter([a], p) + (Seqs.Filter([b], p) + (Seqs.Filter([c], p)
      + (Seqs.Filter([d], p) + (Seqs.Filter([e], p) + Seqs.Filter([f], p)))))
  {
    assert [a, b, c, d, e, f] == [a] + [b, c, d, e, f];
    assert [b, c, d, e, f] == [b] + [c, d, e, f];
    assert [c, d, e, f] == [c] + [d, e, f];
    assert [d, e, f] == [d] + [e, f];
    assert [e, f] == [e] + [f];
    Seqs.FilterConcat([a], [b, c, d, e, f], p);
    Seqs.FilterConcat([b], [c, d, e, f], p);
    Seqs.FilterConcat([c], [d, e, f], p);
    Seqs.FilterConcat([d], [e, f], p);
    Seqs.FilterConcat([e], [f], p);
  }

  /** The entry alone when `role` is among its roles, nothing otherwise. */
  function Keep(item: NavItem, role: string): seq<NavItem> {
    if role in item.roles then [item] else []
  }

  /** Filtering a single element keeps it exactly when it satisfies `p`. */
  lemma FilterOne<T(!new)>(x: T, p: T -> bool)
    ensures Seqs.Filter([x], p) == if p(x) then [x] else []
  {
    assert [x][1..] == [];
  }

  /** Filtering the table one entry at a time, each entry kept exactly when
      the role is among its roles. */
  lemma NavigationSteps(role: string)
    ensures Navigation(role) ==
      Keep(DashboardItem, role) + (Keep(DealershipsItem, role) + (Keep(UsersItem, role)
      + (Keep(LeadsItem, role) + (Keep(CommunicationItem, role) + Keep(SettingsItem, role)))))
  {
    FilterSix(DashboardItem, DealershipsItem, UsersItem, LeadsItem, CommunicationItem, SettingsItem, ShownTo(role));
    FilterKeep(DashboardItem, role);
    FilterKeep(DealershipsItem, role);
    FilterKeep(UsersItem, role);
    FilterKeep(LeadsItem, role);
    FilterKeep(CommunicationItem, role);
    FilterKeep(SettingsItem, role);
  }

  /** Filtering one entry by `ShownTo(role)` is `Keep`. */
  lemma FilterKeep(item: NavItem, role: string)
    ensures Seqs.Filter([item], ShownTo(role)) == Keep(item, role)
  {
    FilterOne(item, ShownTo(role));
  }

  /** Concatenating the kept entries when only the first, second and last of six are kept. */
  lemma KeepFirstTwoAndLast<T>(a: T, b: T, f: T)
    ensures [a] + ([b] + ([] + ([] + ([] + [f])))) == [a, b, f]
  {
  }

  /** Concatenating the kept entries when only the second of six is dropped. */
  lemma DropSecond<T>(a: T, c: T, d: T, e: T, f: T)
    ensures [a] + ([] + ([c] + ([d] + ([e] + [f])))) == [a, c, d, e, f]
  {
  }

  /** Concatenating the kept entries when the second and the third are dropped. */
  lemma DropSecondAndThird<T>(a: T, d: T, e: T, f: T)
    ensures [a] + ([] + ([] + ([d] + ([e] + [f])))) == [a, d, e, f]
  {
  }

  /** A super_admin sees the dashboard, the dealerships and the settings. */
  lemma NavigationOfSuperAdmin()
    ensures Navigation(SuperAdmin) == [DashboardItem, DealershipsItem, SettingsItem]
  {
    NavigationSteps(SuperAdmin);
    KeepFirstTwoAndLast(DashboardItem, DealershipsItem, SettingsItem);
    assert Keep(DashboardItem, SuperAdmin) == [DashboardItem] && Keep(DealershipsItem, SuperAdmin) == [DealershipsItem];
    assert Keep(UsersItem, SuperAdmin) == [] && Keep(LeadsItem, SuperAdmin) == [];
    assert Keep(CommunicationItem, SuperAdmin) == [] && Keep(SettingsItem, SuperAdmin) == [SettingsItem];
  }

  /** A principal sees everything but the dealerships. */
  lemma NavigationOfPrincipal()
    ensures Navigation(Principal) == [DashboardItem, UsersItem, LeadsItem, CommunicationItem, SettingsItem]
  {
    NavigationSteps(Principal);
    DropSecond(DashboardItem, UsersItem, LeadsItem, CommunicationItem, SettingsItem);
    assert Keep(DashboardItem, Principal) == [DashboardItem] && Keep(DealershipsItem, Principal) == [];
    assert Keep(UsersItem, Principal) == [UsersItem] && Keep(LeadsItem, Principal) == [LeadsItem];
    assert Keep(CommunicationItem, Principal) == [CommunicationItem] && Keep(SettingsItem, Principal) == [SettingsItem];
  }

  /** An admin or a plain user sees the dashboard, the leads, the
      communication feed and the settings. */
  lemma NavigationOfStaff(role: string)
    requires role == Admin || role == StaffUser
    ensures Navigation(role) == [DashboardItem, LeadsItem, CommunicationItem, SettingsItem]
  {
    NavigationSteps(role);
    DropSecondAndThird(DashboardItem, LeadsItem, CommunicationItem, SettingsItem);
    assert Keep(DashboardItem, role) == [DashboardItem] && Keep(DealershipsItem, role) == [];
    assert Keep(UsersItem, role) == [] && Keep(LeadsItem, role) == [LeadsItem];
    assert Keep(CommunicationItem, role) == [CommunicationItem] && Keep(SettingsItem, role) == [SettingsItem];
  }

  /** A role outside the four sees no entry. */
  lemma NavigationOfUnknownRole(role: string)
    requires role !in RoleNames
    ensures Navigation(role) == []
  {
    NavigationSteps(role);
  }

  /** A notification; `read` is absent on one never marked. */
  datatype Notification = Notification(read: Option<bool>)

  /** `!n.read`. */
  predicate Unread(n: Notification) {
    n.read != Some(true)
  }

  /** `unreadCount`: the notifications not marked read. Together with the
      read ones they make up all of them, and there are none exactly when no
      notification is unread. */
  function UnreadCount(ns: seq<Notification>): (k: nat)
    ensures k <= |ns|
    ensures k + |Seqs.Filter(ns, (n: Notification) => !Unread(n))| == |ns|
    ensures k == 0 <==> forall n :: n in ns ==> !Unread(n)
  {
    var unread := Seqs.Filter(ns, (n: Notification) => Unread(n));
    Seqs.FilterPartition(ns, (n: Notification) => Unread(n), (n: Notification) => !Unread(n));
    assert unread != [] ==> unread[0] in unread;
    |unread|
  }

  /** The bell shows the red badge exactly when something is unread. */
  predicate ShowBadge(ns: seq<Notification>) {
    UnreadCount(ns) > 0
  }

  lemma BadgeIffUnread(ns: seq<Notification>)
    ensures ShowBadge(ns) <==> exists n :: n in ns && Unread(n)
  {
  }

  /** An entry is highlighted when the current path is its path. */
  predicate IsActive(pathname: string, item: NavItem) {
    pathname == item.href
  }

  /** No two entries of the table share a path, so at most one entry is
      highlighted on any page; on a path outside the table none is. */
  lemma AtMostOneActive(pathname: string)
    ensures forall a, b :: a in NavTable && b in NavTable && IsActive(pathname, a) && IsActive(pathname, b) ==> a == b
    ensures pathname !in {"/", "/dealerships", "/users", "/leads", "/messages", "/settings"} ==>
      forall a :: a in NavTable ==> !IsActive(pathname, a)
  {
  }
}
