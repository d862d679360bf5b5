/**
 * Staff and permissions (components/UsersView.tsx): adding, editing and
 * removing staff accounts, the staff search, the per-role counts, and the
 * manager permission switches.
 */
module Staff {
  import opened Wrappers
  import opened Types
  import opened Text
  import opened Seqs
  import opened Settings

  /** The "Add Team Member" form; an unset role or status is `None`. */
  datatype NewUserForm = NewUserForm(name: string, email: string, role: Option<UserRole>, status: Option<UserStatus>)

  const BlankUserForm: NewUserForm := NewUserForm("", "", Some(Cashier), Some(Active))

  /** The generated avatar address; `encode` is `encodeURIComponent`. */
  function AvatarUrl(name: string, encode: string -> string): string {
    "https://ui-avatars.com/api/?name=" + encode(name) + "&background=random&size=100"
  }

  datatype AddUserResult =
    | MissingNameOrEmail              // alert, nothing changes
    | Added(users: seq<User>)

  /**
   * `handleAddUser`: a form without a name or an e-mail is refused; otherwise
   * the new account is appended, a Cashier and Active unless chosen otherwise.
   */
  function AddUser(users: seq<User>, form: NewUserForm, now: nat, encode: string -> string): (r: AddUserResult)
    ensures r.MissingNameOrEmail? <==> form.name == "" || form.email == ""
    ensures r.Added? ==>
      |r.users| == |users| + 1 && r.users[..|users|] == users &&
      var u := r.users[|users|];
      u.id == "u-" + NatToString(now) && u.name == form.name && u.email == form.email &&
      u.role == form.role.GetOr(Cashier) && u.status == form.status.GetOr(Active) &&
      u.avatar == Some(AvatarUrl(form.name, encode)) && u.password.None?
  {
    if form.name == "" || form.email == "" then MissingNameOrEmail
    else
      var u := User("u-" + NatToString(now), form.name, form.role.GetOr(Cashier), form.email, None,
                    form.status.GetOr(Active), Some(AvatarUrl(form.name, encode)), None, None);
      var r := users + [u];
      assert r[..|users|] == users;
      Added(r)
  }

  /** `handleUpdateUser`: with an account being edited, every account with its id is replaced by it. */
  function UpdateUser(users: seq<User>, editing: Option<User>): (r: seq<User>)
    ensures editing.None? ==> r == users
    ensures |r| == |users|
    ensures forall i | 0 <= i < |users| ::
      r[i] == if editing.Some? && users[i].id == editing.value.id then editing.value else users[i]
  {
    match editing
    case None => users
    case Some(e) => seq(|users|, i requires 0 <= i < |users| => if users[i].id == e.id then e else users[i])
  }

  function OtherUser(id: string): User -> bool {
    (u: User) => u.id != id
  }

  /**
   * `handleDeleteUser` (the confirmation is `confirmed`): removes every
   * account with this id and keeps the others in their order.
   */
  function DeleteUser(users: seq<User>, id: string, confirmed: bool): (r: seq<User>)
    ensures !confirmed ==> r == users
    ensures confirmed ==> Filtered(r, users, OtherUser(id))
    ensures confirmed ==> forall u | u in r :: u in users && u.id != id
    ensures confirmed ==> forall u | u in users && u.id != id :: u in r
  {
    FilterIsFiltered(users, OtherUser(id));
    if confirmed then Filter(users, OtherUser(id)) else users
  }

  /** An edit is invisible once the edited account is removed. */
  lemma {:induction false} UpdateThenDelete(users: seq<User>, e: User)
    ensures DeleteUser(UpdateUser(users, Some(e)), e.id, true) == DeleteUser(users, e.id, true)
  {
    if |users| > 0 {
      var r := UpdateUser(users, Some(e));
      assert r[1..] == UpdateUser(users[1..], Some(e));
      UpdateThenDelete(users[1..], e);
    }
  }

  /** Adding an account and removing it again gives back the staff list, when its id was new. */
  lemma AddThenDeleteUser(users: seq<User>, form: NewUserForm, now: nat, encode: string -> string)
    requires form.name != "" && form.email != ""
    requires forall i | 0 <= i < |users| :: users[i].id != "u-" + NatToString(now)
    ensures DeleteUser(AddUser(users, form, now, encode).users, "u-" + NatToString(now), true) == users
  {
    var id := "u-" + NatToString(now);
    var p := OtherUser(id);
    var added := AddUser(users, form, now, encode).users;
    assert added == users + [added[|users|]];
    FilterAppend(users, [added[|users|]], p);
    FilterAll(users, p);
  }

  predicate MatchesStaffSearch(u: User, term: string) {
    IncludesIgnoringCase(u.name, term) || IncludesIgnoringCase(RoleName(u.role), term) || IncludesIgnoringCase(u.email, term)
  }

  function Found(term: string): User -> bool {
    (u: User) => MatchesStaffSearch(u, term)
  }

  /**
   * `filteredUsers`: accounts whose name, role or e-mail contains the search
   * text, ignoring case, in list order and each as often as listed.
   */
  function FilterUsers(users: seq<User>, term: string): (r: seq<User>)
    ensures Filtered(r, users, Found(term))
    ensures forall u | u in r :: u in users && MatchesStaffSearch(u, term)
    ensures forall u | u in users && MatchesStaffSearch(u, term) :: u in r
  {
    FilterIsFiltered(users, Found(term));
    Filter(users, Found(term))
  }

  /** An empty search lists every account. */
  lemma EmptySearchListsAll(users: seq<User>)
    ensures FilterUsers(users, "") == users
  {
    forall i | 0 <= i < |users|
      ensures MatchesStaffSearch(users[i], "")
    {
      IncludesEmpty(ToLower(users[i].name));
    }
    FilterAll(users, Found(""));
  }

  datatype RoleCounts = RoleCounts(admins: nat, managers: nat, cashiers: nat)

  /** The "Assigned" cards: how many accounts hold each role. */
  function CountRoles(users: seq<User>): (r: RoleCounts)
    ensures r.admins + r.managers + r.cashiers == |users|
  {
    RolesPartition(users);
    RoleCounts(Count(users, (u: User) => u.role == Admin), Count(users, (u: User) => u.role == Manager),
               Count(users, (u: User) => u.role == Cashier))
  }

  lemma {:induction false} RolesPartition(users: seq<User>)
    ensures Count(users, (u: User) => u.role == Admin) + Count(users, (u: User) => u.role == Manager)
      + Count(users, (u: User) => u.role == Cashier) == |users|
  {
    if |users| > 0 {
      RolesPartition(users[1..]);
    }
  }

  /** Adding an account raises exactly the count of its role by one. */
  lemma AddUserCountsRole(users: seq<User>, form: NewUserForm, now: nat, encode: string -> string)
    requires form.name != "" && form.email != ""
    ensures var before := CountRoles(users);
      var after := CountRoles(AddUser(users, form, now, encode).users);
      var role := form.role.GetOr(Cashier);
      after.admins == before.admins + (if role == Admin then 1 else 0) &&
      after.managers == before.managers + (if role == Manager then 1 else 0) &&
      after.cashiers == before.cashiers + (if role == Cashier then 1 else 0)
  {
    var added := AddUser(users, form, now, encode).users;
    var u := added[|users|];
    assert added == users + [u];
    FilterAppend(users, [u], (x: User) => x.role == Admin);
    FilterAppend(users, [u], (x: User) => x.role == Manager);
    FilterAppend(users, [u], (x: User) => x.role == Cashier);
  }

  /**
   * `toggleManagerPermission`: `{...settings, [key]: !settings[key]}` with no
   * type guard, so a switch the record lacks is turned on.
   */
  function ToggleManagerPermission(s: SystemSettings, f: FlagKey): (r: SystemSettings)
    ensures f in r.flags && r.flags[f] == !Flag(s, f)
    ensures forall k | k != FlagSetting(f) :: GetSetting(r, k) == GetSetting(s, k)
  {
    s.(flags := s.flags[f := !Flag(s, f)])
  }

  /** On a switch holding a boolean, the permissions dialog and the settings page toggle alike. */
  lemma PermissionToggleAgreesWithSettings(s: SystemSettings, f: FlagKey)
    requires f in s.flags
    ensures ToggleManagerPermission(s, f) == HandleToggle(s, FlagSetting(f))
  {
  }

  /** On a switch the record lacks, the permissions dialog grants access where the settings page does nothing. */
  lemma PermissionToggleGrantsMissing(s: SystemSettings, f: FlagKey)
    requires f !in s.flags
    ensures Flag(ToggleManagerPermission(s, f), f) && HandleToggle(s, FlagSetting(f)) == s
  {
  }
}
