/** What the user administration answers and stores: when each request goes through, and the account,
    roles and sessions it leaves, column by column. */
module AccountOutcomes {
  import opened Wrappers
  import opened Administrators

  /** The company's Administrator role is found by name. */
  lemma {:induction false} AdministratorRoleFinds(roles: seq<Role>, company: string)
    ensures AdministratorRole(roles, company).Some? <==> exists r :: r in roles && r.company == company && r.name == "Administrator"
    ensures AdministratorRole(roles, company).Some? ==>
      exists r :: r in roles && r.company == company && r.name == "Administrator" && r.id == AdministratorRole(roles, company).value
  {
    if roles != [] {
      AdministratorRoleFinds(roles[1..], company);
      assert forall r :: r in roles <==> r == roles[0] || r in roles[1..];
    }
  }

  ghost predicate OfCompany(roles: seq<Role>, company: string, id: Id) {
    exists r :: r in roles && r.id == id && r.company == company
  }

  ghost predicate AllOfCompany(roles: seq<Role>, company: string, roleIds: seq<Id>) {
    forall i :: i in roleIds ==> OfCompany(roles, company, i)
  }

  lemma RolesExistIff(roles: seq<Role>, company: string, roleIds: seq<Id>)
    ensures RolesExist(roles, company, roleIds) <==> AllOfCompany(roles, company, roleIds)
  {
    if RolesExist(roles, company, roleIds) {
      forall i | i in roleIds ensures OfCompany(roles, company, i) {
        var k :| 0 <= k < |roleIds| && roleIds[k] == i;
        assert exists r :: r in roles && r.id == roleIds[k] && r.company == company;
      }
    }
    if AllOfCompany(roles, company, roleIds) {
      forall k | 0 <= k < |roleIds| ensures exists r :: r in roles && r.id == roleIds[k] && r.company == company {
        assert OfCompany(roles, company, roleIds[k]);
      }
      assert forall k :: 0 <= k < |roleIds| ==> exists r :: r in roles && r.id == roleIds[k] && r.company == company;
    }
  }

  /** The user's roles are exactly these; all other users keep theirs. */
  ghost predicate HasExactly(d: Directory, after: Directory, user: Id, roleIds: seq<Id>) {
    forall l: Link :: l in after.links <==> if l.user == user then l.role in roleIds else l in d.links
  }

  lemma WithRolesHasExactly(d: Directory, user: Id, roleIds: seq<Id>)
    ensures HasExactly(d, WithRoles(d, user, roleIds), user, roleIds)
  {
    forall l: Link ensures l in WithRoles(d, user, roleIds).links <==> if l.user == user then l.role in roleIds else l in d.links {
      if l.user == user && l.role in roleIds {
        assert Link(user, l.role) in (set r | r in roleIds :: Link(user, r));
      }
    }
  }

  /** No session of the user is left, and every other session is. */
  ghost predicate OnlySessionsOfEnded(d: Directory, after: Directory, user: Id) {
    forall s :: s in after.sessions <==> s in d.sessions && s.0 != user
  }

  ghost predicate OtherUsersStay(d: Directory, after: Directory, user: Id) {
    after.roles == d.roles && (forall u :: u != user ==> (u in after.users <==> u in d.users))
    && forall u :: u in d.users && u != user ==> after.users[u] == d.users[u]
  }

  // ----- updates -----

  /** An update goes through if and only if the user is the company's, username and email are free,
      the final-administrator guard lets it pass, and its roles are the company's. */
  lemma UpdateIff(d: Directory, company: string, user: Id, u: Update)
    ensures UpdateUser(d, company, user, u).Success?
       <==> && user in d.users && d.users[user].company == company
            && (u.username.Some? ==> forall o :: o in d.users && o != user && d.users[o].company == company ==>
                  d.users[o].username != u.username.value)
            && (u.email.Some? ==> forall o :: o in d.users && o != user ==> d.users[o].email != u.email)
            && !GuardRefuses(d, company, user, u)
            && (u.roleIds.Some? ==> AllOfCompany(d.roles, company, u.roleIds.value))
  {
    if u.roleIds.Some? {
      RolesExistIff(d.roles, company, u.roleIds.value);
    }
  }

  /** The later field decides: `account_status` sets the status, and enables the account unless it is
      stopped; otherwise clearing `is_active` stops the account, and setting it revives a stopped one. */
  ghost predicate AccountState(was: User, after: User, u: Update) {
    if u.status.Some? then after.status == u.status.value && after.isActive == (u.status.value != Stopped)
    else if u.isActive == Some(false) then after.status == Stopped && !after.isActive
    else if u.isActive == Some(true) then after.isActive && after.status == (if was.status == Stopped then Active else was.status)
    else after.status == was.status && after.isActive == was.isActive
  }

  ghost predicate StoredRow(was: User, row: User, u: Update) {
    && row.company == was.company
    && row.username == (if u.username.Some? then u.username.value else was.username)
    && row.email == (if u.email.Some? then u.email else was.email)
    && AccountState(was, row, u)
  }

  lemma RowIsStored(was: User, u: Update)
    ensures StoredRow(was, Applied(Named(was, u), u), u)
  {
  }

  /** A change of username or password, or any field that disables the account. */
  ghost predicate EndsSessions(was: User, u: Update) {
    || u.password || (u.username.Some? && u.username.value != was.username)
    || u.isActive == Some(false) || (u.status.Some? && u.status.value != Active)
  }

  lemma SessionsAndRoles(d: Directory, user: Id, u: Update)
    requires user in d.users
    ensures var after := Changed(d, user, u);
      && (if EndsSessions(d.users[user], u) then OnlySessionsOfEnded(d, after, user) else after.sessions == d.sessions)
      && (if u.roleIds.Some? then HasExactly(d, after, user, u.roleIds.value) else after.links == d.links)
  {
    if u.roleIds.Some? {
      WithRolesHasExactly(d, user, u.roleIds.value);
    }
  }

  /** What an accepted update has stored: the account field by field, exactly the given roles, and no
      session where it has to end them; nothing of any other user changes. */
  lemma UpdateStores(d: Directory, company: string, user: Id, u: Update)
    requires UpdateUser(d, company, user, u).Success?
    ensures var after := UpdateUser(d, company, user, u).value;
      && OtherUsersStay(d, after, user) && after.nextId == d.nextId
      && user in after.users && StoredRow(d.users[user], after.users[user], u)
      && (if EndsSessions(d.users[user], u) then OnlySessionsOfEnded(d, after, user) else after.sessions == d.sessions)
      && (if u.roleIds.Some? then HasExactly(d, after, user, u.roleIds.value) else after.links == d.links)
  {
    RowIsStored(d.users[user], u);
    SessionsAndRoles(d, user, u);
    ChangedTouchesOnly(d, user, u);
  }

  // ----- new accounts -----

  /** A creation goes through if and only if the username is free in the company, a non-empty email
      everywhere, and the roles are the company's; it adds one enabled account with those roles. */
  lemma CreateOutcome(d: Directory, company: string, username: string, email: Option<string>, status: Status, roleIds: seq<Id>)
    requires forall l :: l in d.links ==> l.user != d.nextId
    ensures var r := CreateUser(d, company, username, email, status, roleIds);
      && (r.Success? <==>
            && (forall o :: o in d.users && d.users[o].company == company ==> d.users[o].username != username)
            && (email.Some? && email.value != "" ==> forall o :: o in d.users ==> d.users[o].email != email)
            && AllOfCompany(d.roles, company, roleIds))
      && (r.Success? ==>
            && r.value.users == d.users[d.nextId := User(company, username, email, true, status)]
            && HasExactly(d, r.value, d.nextId, roleIds)
            && r.value.roles == d.roles && r.value.sessions == d.sessions && r.value.nextId == d.nextId + 1)
  {
    RolesExistIff(d.roles, company, roleIds);
    WithRolesHasExactly(d, d.nextId, roleIds);
  }

  // ----- registrations -----

  /** The roles an approval assigns: those selected, and a vendor's own role. */
  ghost predicate Selects(roleIds: seq<Id>, vendorRole: Option<Id>, role: Id) {
    role in roleIds || vendorRole == Some(role)
  }

  /** An approval goes through if and only if the account is pending, somebody's role is selected and
      all selected are the company's; it activates the account with exactly those roles. */
  lemma ApproveOutcome(d: Directory, company: string, user: Id, roleIds: seq<Id>, vendorRole: Option<Id>)
    ensures var r := ApproveRegistration(d, company, user, roleIds, vendorRole);
      var pending := user in d.users && d.users[user].company == company && d.users[user].status == Pending;
      && (r.Success? <==>
            && pending && (roleIds != [] || vendorRole.Some?) && AllOfCompany(d.roles, company, roleIds)
            && (vendorRole.Some? ==> OfCompany(d.roles, company, vendorRole.value)))
      && (r.Success? ==>
            && r.value.users == d.users[user := d.users[user].(status := Active, isActive := true)]
            && (forall l: Link :: l in r.value.links <==>
                  if l.user == user then Selects(roleIds, vendorRole, l.role) else l in d.links)
            && r.value.roles == d.roles && r.value.sessions == d.sessions && r.value.nextId == d.nextId)
  {
    var selected := if vendorRole.Some? && vendorRole.value !in roleIds then [vendorRole.value] + roleIds else roleIds;
    assert forall x :: x in selected <==> Selects(roleIds, vendorRole, x);
    SelectedOfCompany(d.roles, company, roleIds, vendorRole, selected);
    RolesExistIff(d.roles, company, selected);
    WithRolesHasExactly(d, user, selected);
  }

  lemma SelectedOfCompany(roles: seq<Role>, company: string, roleIds: seq<Id>, vendorRole: Option<Id>, selected: seq<Id>)
    requires forall x :: x in selected <==> Selects(roleIds, vendorRole, x)
    ensures AllOfCompany(roles, company, selected)
       <==> AllOfCompany(roles, company, roleIds)
            && (vendorRole.Some? ==> OfCompany(roles, company, vendorRole.value))
  {
    assert forall x :: x in roleIds ==> x in selected;
    if vendorRole.Some? {
      assert vendorRole.value in selected;
    }
  }

  /** A rejection goes through if and only if the account is pending; it stops the account and ends
      its sessions, and touches no role. */
  lemma RejectOutcome(d: Directory, company: string, user: Id)
    ensures var r := RejectRegistration(d, company, user);
      && (r.Success? <==> user in d.users && d.users[user].company == company && d.users[user].status == Pending)
      && (r.Success? ==>
            && r.value.users == d.users[user := d.users[user].(status := Stopped, isActive := false)]
            && OnlySessionsOfEnded(d, r.value, user)
            && r.value.links == d.links && r.value.roles == d.roles && r.value.nextId == d.nextId)
  {
  }

  /** A step of a run is its request where that succeeds, and nothing where it fails. */
  lemma StepIsItsRequest(d: Directory, op: Op)
    ensures op.Modify? ==> Outcome(d, op) == UpdateUser(d, op.company, op.user, op.update)
    ensures op.Create? ==> Outcome(d, op) == CreateUser(d, op.company, op.username, op.email, op.status, op.roleIds)
    ensures op.Approve? ==> Outcome(d, op) == ApproveRegistration(d, op.company, op.user, op.roleIds, op.vendorRole)
    ensures op.Reject? ==> Outcome(d, op) == RejectRegistration(d, op.company, op.user)
    ensures Outcome(d, op).Success? ==> Step(d, op) == Outcome(d, op).value
    ensures Outcome(d, op).Failure? ==> Step(d, op) == d
  {
  }
}
