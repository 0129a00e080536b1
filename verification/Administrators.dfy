/** User administration of admin_services.py, as far as it decides who is an active administrator. */
module Administrators {
  import opened Wrappers

  type Id = nat

  datatype Error =
    | UserMissing
    | UsernameTaken
    | EmailTaken
    | LastAdministrator
    | RoleMissing
    | NotPending
    | NoRoleSelected

  datatype Status = Active | Pending | Paused | Stopped

  datatype User = User(company: string, username: string, email: Option<string>, isActive: bool, status: Status)

  datatype Role = Role(id: Id, company: string, name: string)

  datatype Link = Link(user: Id, role: Id)

  /** `sessions` are the live sessions, by user. */
  datatype Directory = Directory(users: map<Id, User>, roles: seq<Role>, links: set<Link>, sessions: set<(Id, nat)>, nextId: Id)

  const ADMINISTRATOR := "Administrator"

  /** The company's Administrator role. */
  function AdministratorRole(roles: seq<Role>, company: string): Option<Id> {
    if roles == [] then None
    else if roles[0].company == company && roles[0].name == ADMINISTRATOR then Some(roles[0].id)
    else AdministratorRole(roles[1..], company)
  }

  predicate HoldsRole(d: Directory, user: Id, role: Option<Id>) {
    role.Some? && Link(user, role.value) in d.links
  }

  /** The users the final-administrator guard counts. */
  function ActiveAdministrators(d: Directory, company: string): set<Id> {
    set u | u in d.users && d.users[u].company == company && d.users[u].status == Active && d.users[u].isActive
            && HoldsRole(d, u, AdministratorRole(d.roles, company))
  }

  predicate RolesExist(roles: seq<Role>, company: string, roleIds: seq<Id>) {
    forall i :: 0 <= i < |roleIds| ==> exists r :: r in roles && r.id == roleIds[i] && r.company == company
  }

  /** set_user_roles: the user's links become exactly these roles. */
  function WithRoles(d: Directory, user: Id, roleIds: seq<Id>): Directory {
    d.(links := (set l | l in d.links && l.user != user) + (set r | r in roleIds :: Link(user, r)))
  }

  function Remaining(sessions: set<(Id, nat)>, user: Id): set<(Id, nat)> {
    set s | s in sessions && s.0 != user
  }

  function WithoutSessions(d: Directory, user: Id): Directory {
    d.(sessions := Remaining(d.sessions, user))
  }

  datatype Update = Update(username: Option<string>, email: Option<string>, isActive: Option<bool>,
                           status: Option<Status>, password: bool, roleIds: Option<seq<Id>>)

  predicate Disables(u: Update) {
    u.isActive == Some(false) || (u.status.Some? && u.status != Some(Active))
  }

  predicate RemovesRole(u: Update, role: Option<Id>) {
    role.Some? && u.roleIds.Some? && role.value !in u.roleIds.value
  }

  /** The guard of update_user refuses. */
  predicate GuardRefuses(d: Directory, company: string, user: Id, u: Update) {
    var role := AdministratorRole(d.roles, company);
    HoldsRole(d, user, role) && (RemovesRole(u, role) || Disables(u)) && |ActiveAdministrators(d, company)| <= 1
  }

  predicate UsernameClash(d: Directory, company: string, user: Id, username: Option<string>) {
    username.Some? && exists o :: o in d.users && o != user && d.users[o].company == company && d.users[o].username == username.value
  }

  predicate EmailClash(d: Directory, user: Option<Id>, email: Option<string>) {
    email.Some? && exists o :: o in d.users && Some(o) != user && d.users[o].email == email
  }

  /** The account state after `is_active` and then `account_status` have been applied. */
  function Applied(user: User, u: Update): User {
    var first :=
      if u.isActive.None? then user
      else if !u.isActive.value then user.(isActive := false, status := Stopped)
      else user.(isActive := true, status := if user.status == Stopped then Active else user.status);
    if u.status.None? then first else first.(status := u.status.value, isActive := u.status.value != Stopped)
  }

  function Named(user: User, u: Update): User {
    user.(username := if u.username.Some? then u.username.value else user.username,
          email := if u.email.Some? then u.email else user.email)
  }

  predicate RevokesSessions(user: User, u: Update) {
    || (u.username.Some? && u.username.value != user.username)
    || Disables(u)
    || u.password
  }

  /** The tables once the request's fields and roles have been written. */
  function Changed(d: Directory, user: Id, u: Update): Directory
    requires user in d.users
  {
    var row := d.users[user];
    var d1 := d.(users := d.users[user := Applied(Named(row, u), u)]);
    var d2 := if RevokesSessions(row, u) then WithoutSessions(d1, user) else d1;
    if u.roleIds.Some? then WithRoles(d2, user, u.roleIds.value) else d2
  }

  function UpdateUser(d: Directory, company: string, user: Id, u: Update): Result<Directory, Error> {
    if user !in d.users || d.users[user].company != company then Failure(UserMissing)
    else if UsernameClash(d, company, user, u.username) then Failure(UsernameTaken)
    else if GuardRefuses(d, company, user, u) then Failure(LastAdministrator)
    else if EmailClash(d, Some(user), u.email) then Failure(EmailTaken)
    else if u.roleIds.Some? && !RolesExist(d.roles, company, u.roleIds.value) then Failure(RoleMissing)
    else Success(Changed(d, user, u))
  }

  /** create_user: the new account is enabled whatever its status. */
  function CreateUser(d: Directory, company: string, username: string, email: Option<string>, status: Status, roleIds: seq<Id>)
    : Result<Directory, Error>
  {
    if exists o :: o in d.users && d.users[o].company == company && d.users[o].username == username then Failure(UsernameTaken)
    else if email.Some? && email.value != "" && EmailClash(d, None, email) then Failure(EmailTaken)
    else if !RolesExist(d.roles, company, roleIds) then Failure(RoleMissing)
    else
      var d1 := d.(users := d.users[d.nextId := User(company, username, email, true, status)], nextId := d.nextId + 1);
      Success(if roleIds == [] then d1 else WithRoles(d1, d.nextId, roleIds))
  }

  /** `vendorRole` is the role a vendor registration brings with it, if the user is a vendor's. */
  function ApproveRegistration(d: Directory, company: string, user: Id, roleIds: seq<Id>, vendorRole: Option<Id>): Result<Directory, Error> {
    if user !in d.users || d.users[user].company != company then Failure(UserMissing)
    else if d.users[user].status != Pending then Failure(NotPending)
    else
      var selected := if vendorRole.Some? && vendorRole.value !in roleIds then [vendorRole.value] + roleIds else roleIds;
      if selected == [] then Failure(NoRoleSelected)
      else if !RolesExist(d.roles, company, selected) then Failure(RoleMissing)
      else
        var d1 := WithRoles(d, user, selected);
        Success(d1.(users := d1.users[user := d1.users[user].(status := Active, isActive := true)]))
  }

  function RejectRegistration(d: Directory, company: string, user: Id): Result<Directory, Error> {
    if user !in d.users || d.users[user].company != company then Failure(UserMissing)
    else if d.users[user].status != Pending then Failure(NotPending)
    else Success(WithoutSessions(d.(users := d.users[user := d.users[user].(status := Stopped, isActive := false)]), user))
  }

  // ----- the tables -----

  class DirectoryTables {
    var users: map<Id, User>
    var roles: seq<Role>
    var links: set<Link>
    var sessions: set<(Id, nat)>
    var nextId: Id

    function Contents(): Directory
      reads this
    {
      Directory(users, roles, links, sessions, nextId)
    }

    method RevokeUserSessions(user: Id)
      modifies this`sessions
      ensures sessions == Remaining(old(sessions), user)
    {
      sessions := Remaining(sessions, user);
    }

    method SetUserRoles(user: Id, roleIds: seq<Id>) returns (found: bool)
      requires user in users
      modifies this`links
      ensures found == RolesExist(roles, users[user].company, roleIds)
      ensures Contents() == if found then WithRoles(old(Contents()), user, roleIds) else old(Contents())
    {
      found := RolesExist(roles, users[user].company, roleIds);
      if found {
        links := (set l | l in links && l.user != user) + (set r | r in roleIds :: Link(user, r));
      }
    }

    /** Applies `is_active`, then `account_status`, then a new password. */
    method AssignAccountState(user: Id, u: Update)
      requires user in users
      modifies this`users, this`sessions
      ensures users == old(users)[user := Applied(old(users)[user], u)]
      ensures sessions == if Disables(u) || u.password then Remaining(old(sessions), user) else old(sessions)
    {
      var row := users[user];
      if u.isActive.Some? {
        row := row.(isActive := u.isActive.value);
        if !u.isActive.value {
          row := row.(status := Stopped);
          RevokeUserSessions(user);
        } else if row.status == Stopped {
          row := row.(status := Active);
        }
      }
      if u.status.Some? {
        row := row.(status := u.status.value, isActive := u.status.value != Stopped);
        if u.status.value != Active {
          RevokeUserSessions(user);
        }
      }
      if u.password {
        RevokeUserSessions(user);
      }
      users := users[user := row];
    }

    /** Assigns the fields one after another, as the request carries them. */
    method AssignFields(user: Id, u: Update)
      requires user in users
      modifies this`users, this`sessions
      ensures users == old(users)[user := Applied(Named(old(users)[user], u), u)]
      ensures sessions == if RevokesSessions(old(users)[user], u) then Remaining(old(sessions), user) else old(sessions)
    {
      if u.username.Some? {
        var changed := u.username.value != users[user].username;
        users := users[user := users[user].(username := u.username.value)];
        if changed {
          RevokeUserSessions(user);
        }
      }
      if u.email.Some? {
        users := users[user := users[user].(email := u.email)];
      }
      assert users[user] == Named(old(users)[user], u);
      AssignAccountState(user, u);
    }

    /** The update request; a refusal rolls the tables back. */
    method Update(company: string, user: Id, u: Update) returns (outcome: Result<(), Error>)
      modifies this
      ensures match UpdateUser(old(Contents()), company, user, u)
              case Success(after) => outcome == Success(()) && Contents() == after
              case Failure(e) => outcome == Failure(e) && Contents() == old(Contents())
    {
      if user !in users || users[user].company != company {
        return Failure(UserMissing);
      }
      if UsernameClash(Contents(), company, user, u.username) {
        return Failure(UsernameTaken);
      }
      if GuardRefuses(Contents(), company, user, u) {
        return Failure(LastAdministrator);
      }
      if EmailClash(Contents(), Some(user), u.email) {
        return Failure(EmailTaken);
      }
      var savedUsers, savedSessions := users, sessions;
      AssignFields(user, u);
      outcome := Success(());
      if u.roleIds.Some? {
        var found := SetUserRoles(user, u.roleIds.value);
        if !found {
          users, sessions := savedUsers, savedSessions;
          outcome := Failure(RoleMissing);
        }
      }
    }

    method Create(company: string, username: string, email: Option<string>, status: Status, roleIds: seq<Id>)
      returns (outcome: Result<Id, Error>)
      requires nextId !in users
      modifies this
      ensures match CreateUser(old(Contents()), company, username, email, status, roleIds)
              case Success(after) => outcome == Success(old(nextId)) && Contents() == after
              case Failure(e) => outcome == Failure(e) && Contents() == old(Contents())
    {
      if exists o :: o in users && users[o].company == company && users[o].username == username {
        return Failure(UsernameTaken);
      }
      if email.Some? && email.value != "" && EmailClash(Contents(), None, email) {
        return Failure(EmailTaken);
      }
      var savedUsers, id := users, nextId;
      users := users[id := User(company, username, email, true, status)];
      nextId := id + 1;
      outcome := Success(id);
      if roleIds != [] {
        var found := SetUserRoles(id, roleIds);
        if !found {
          users, nextId := savedUsers, id;
          outcome := Failure(RoleMissing);
        }
      }
    }

    method Approve(company: string, user: Id, roleIds: seq<Id>, vendorRole: Option<Id>) returns (outcome: Result<(), Error>)
      modifies this
      ensures match ApproveRegistration(old(Contents()), company, user, roleIds, vendorRole)
              case Success(after) => outcome == Success(()) && Contents() == after
              case Failure(e) => outcome == Failure(e) && Contents() == old(Contents())
    {
      if user !in users || users[user].company != company {
        return Failure(UserMissing);
      }
      if users[user].status != Pending {
        return Failure(NotPending);
      }
      var selected := roleIds;
      if vendorRole.Some? && vendorRole.value !in selected {
        selected := [vendorRole.value] + selected;
      } else if vendorRole.None? && selected == [] {
        return Failure(NoRoleSelected);
      }
      var found := SetUserRoles(user, selected);
      if !found {
        return Failure(RoleMissing);
      }
      users := users[user := users[user].(status := Active, isActive := true)];
      outcome := Success(());
    }

    method Reject(company: string, user: Id) returns (outcome: Result<(), Error>)
      modifies this
      ensures match RejectRegistration(old(Contents()), company, user)
              case Success(after) => outcome == Success(()) && Contents() == after
              case Failure(e) => outcome == Failure(e) && Contents() == old(Contents())
    {
      if user !in users || users[user].company != company {
        return Failure(UserMissing);
      }
      if users[user].status != Pending {
        return Failure(NotPending);
      }
      users := users[user := users[user].(status := Stopped, isActive := false)];
      RevokeUserSessions(user);
      outcome := Success(());
    }
  }

  // ----- the last administrator -----

  /** Nobody but `user` gains or loses anything that makes an active administrator. */
  ghost predicate OnlyTouches(d: Directory, after: Directory, user: Id) {
    && after.roles == d.roles
    && (forall u :: u != user ==> (u in after.users <==> u in d.users))
    && (forall u :: u in d.users && u != user ==> after.users[u] == d.users[u])
    && (forall l: Link :: l.user != user ==> (l in after.links <==> l in d.links))
  }

  lemma OthersStay(d: Directory, after: Directory, user: Id, company: string)
    requires OnlyTouches(d, after, user)
    ensures ActiveAdministrators(d, company) - {user} <= ActiveAdministrators(after, company)
  {
    forall u | u in ActiveAdministrators(d, company) - {user} ensures u in ActiveAdministrators(after, company) {
      assert HoldsRole(after, u, AdministratorRole(after.roles, company));
    }
  }

  lemma AnotherOne(s: set<Id>, x: Id)
    requires |s| >= 2
    ensures s - {x} != {}
  {
    if x in s {
      assert |s - {x}| == |s| - 1;
    } else {
      assert s - {x} == s;
    }
  }

  /** An active administrator that an update neither disables nor strips of the role stays one. */
  lemma HarmlessUpdateKeeps(d: Directory, company: string, user: Id, u: Update, other: string)
    requires UpdateUser(d, company, user, u).Success?
    requires user in ActiveAdministrators(d, other)
    requires !RemovesRole(u, AdministratorRole(d.roles, other)) && !Disables(u)
    ensures user in ActiveAdministrators(UpdateUser(d, company, user, u).value, other)
  {
    var after := UpdateUser(d, company, user, u).value;
    assert after.roles == d.roles;
    assert HoldsRole(after, user, AdministratorRole(d.roles, other));
  }

  lemma UpdateKeepsAdministrator(d: Directory, company: string, user: Id, u: Update, other: string)
    requires UpdateUser(d, company, user, u).Success?
    requires ActiveAdministrators(d, other) != {}
    ensures ActiveAdministrators(UpdateUser(d, company, user, u).value, other) != {}
  {
    var after := UpdateUser(d, company, user, u).value;
    OthersStay(d, after, user, other);
    if user in ActiveAdministrators(d, other) {
      if RemovesRole(u, AdministratorRole(d.roles, other)) || Disables(u) {
        AnotherOne(ActiveAdministrators(d, other), user);
      } else {
        HarmlessUpdateKeeps(d, company, user, u, other);
      }
    }
  }

  // ----- runs -----

  datatype Op =
    | Modify(company: string, user: Id, update: Update)
    | Create(company: string, username: string, email: Option<string>, status: Status, roleIds: seq<Id>)
    | Approve(company: string, user: Id, roleIds: seq<Id>, vendorRole: Option<Id>)
    | Reject(company: string, user: Id)

  function Outcome(d: Directory, op: Op): Result<Directory, Error> {
    match op
    case Modify(c, user, u) => UpdateUser(d, c, user, u)
    case Create(c, username, email, status, roleIds) => CreateUser(d, c, username, email, status, roleIds)
    case Approve(c, user, roleIds, vendorRole) => ApproveRegistration(d, c, user, roleIds, vendorRole)
    case Reject(c, user) => RejectRegistration(d, c, user)
  }

  function Step(d: Directory, op: Op): Directory {
    var r := Outcome(d, op);
    if r.Success? then r.value else d
  }

  function Run(d: Directory, ops: seq<Op>): Directory {
    if ops == [] then d else Step(Run(d, ops[..|ops| - 1]), ops[|ops| - 1])
  }

  ghost predicate IdsAreOld(d: Directory) {
    forall u :: u in d.users ==> u < d.nextId
  }

  lemma StepKeepsAdministrator(d: Directory, op: Op, company: string)
    requires IdsAreOld(d) && ActiveAdministrators(d, company) != {}
    ensures IdsAreOld(Step(d, op)) && ActiveAdministrators(Step(d, op), company) != {}
  {
    if Outcome(d, op).Success? {
      match op
      case Modify(c, user, u) => UpdateKeepsAdministrator(d, c, user, u, company);
      case Create(_, _, _, _, _) => OthersStay(d, Step(d, op), d.nextId, company);
      case Approve(_, user, _, _) => OthersStay(d, Step(d, op), user, company);
      case Reject(_, user) => OthersStay(d, Step(d, op), user, company);
    }
  }

  /** A company that starts with an active administrator has one after every run, whatever
      combination of fields each update carries. */
  lemma {:induction false} AnAdministratorRemains(d: Directory, ops: seq<Op>, company: string)
    requires IdsAreOld(d) && ActiveAdministrators(d, company) != {}
    ensures IdsAreOld(Run(d, ops)) && ActiveAdministrators(Run(d, ops), company) != {}
  {
    if ops != [] {
      AnAdministratorRemains(d, ops[..|ops| - 1], company);
      StepKeepsAdministrator(Run(d, ops[..|ops| - 1]), ops[|ops| - 1], company);
    }
  }

  /** The final active administrator cannot be paused, stopped, disabled or stripped of the role. */
  lemma FinalAdministratorIsProtected(d: Directory, company: string, user: Id, u: Update)
    requires ActiveAdministrators(d, company) == {user}
    requires Disables(u) || RemovesRole(u, AdministratorRole(d.roles, company))
    ensures UpdateUser(d, company, user, u).Failure?
  {
    assert user in ActiveAdministrators(d, company);
  }

  // ----- how exact the guard is -----

  /** The account is not active once `is_active` and then `account_status` have been applied: the
      later field decides. */
  predicate EndsInactive(u: Update) {
    if u.status.Some? then u.status.value != Active else u.isActive == Some(false)
  }

  /** The update takes the last active administrator away. */
  ghost predicate TakesLast(d: Directory, company: string, user: Id, u: Update) {
    && ActiveAdministrators(d, company) == {user}
    && (RemovesRole(u, AdministratorRole(d.roles, company)) || EndsInactive(u))
  }

  /** The update says both: not active by one field, active by the other. */
  predicate Contradictory(u: Update) {
    u.isActive == Some(false) && u.status == Some(Active)
  }

  lemma ChangedTouchesOnly(d: Directory, user: Id, u: Update)
    requires user in d.users
    ensures OnlyTouches(d, Changed(d, user, u), user)
  {
  }

  /** An active administrator stays one exactly when the update neither strips the role nor leaves
      the account inactive. */
  lemma StaysAdministrator(d: Directory, company: string, user: Id, u: Update)
    requires user in ActiveAdministrators(d, company)
    ensures user in ActiveAdministrators(Changed(d, user, u), company)
       <==> !RemovesRole(u, AdministratorRole(d.roles, company)) && !EndsInactive(u)
  {
    var after, role := Changed(d, user, u), AdministratorRole(d.roles, company);
    assert after.roles == d.roles;
    assert after.users[user] == Applied(Named(d.users[user], u), u);
    assert HoldsRole(after, user, role) <==> !RemovesRole(u, role);
  }

  /** Writing an update, guard or no guard, leaves a company that has an active administrator without
      one exactly when the update takes the last one away: by stripping the role or by any way of
      disabling the account. */
  lemma NoneLeftIffTakesLast(d: Directory, company: string, user: Id, u: Update)
    requires user in d.users && ActiveAdministrators(d, company) != {}
    ensures ActiveAdministrators(Changed(d, user, u), company) == {} <==> TakesLast(d, company, user, u)
  {
    var admins, after := ActiveAdministrators(d, company), Changed(d, user, u);
    ChangedTouchesOnly(d, user, u);
    OthersStay(d, after, user, company);
    ChangedBack(d, user, u, company);
    var left := ActiveAdministrators(after, company);
    if user in admins {
      StaysAdministrator(d, company, user, u);
      if x :| x in admins && x != user {
        assert x in left;
      } else {
        assert admins == {user};
        assert forall y :: y in left && y != user ==> y in left - {user};
        assert left != {} ==> exists y :: y in left;
      }
    } else {
      var x :| x in admins;
      assert x in left;
    }
  }

  /** Nobody but `user` becomes an administrator. */
  lemma ChangedBack(d: Directory, user: Id, u: Update, company: string)
    requires user in d.users
    ensures ActiveAdministrators(Changed(d, user, u), company) - {user} <= ActiveAdministrators(d, company)
  {
    var after := Changed(d, user, u);
    ChangedTouchesOnly(d, user, u);
    forall x | x in ActiveAdministrators(after, company) - {user} ensures x in ActiveAdministrators(d, company) {
      assert HoldsRole(d, x, AdministratorRole(d.roles, company));
    }
  }

  /** The guard is needed: it refuses every update that would leave the company without an active
      administrator. */
  lemma GuardIsNeeded(d: Directory, company: string, user: Id, u: Update)
    requires user in d.users && ActiveAdministrators(d, company) != {}
    requires ActiveAdministrators(Changed(d, user, u), company) == {}
    ensures GuardRefuses(d, company, user, u)
  {
    NoneLeftIffTakesLast(d, company, user, u);
    assert user in ActiveAdministrators(d, company);
  }

  /** The guard is stricter than it has to be in exactly two ways. While an active administrator
      exists, an update that it refuses would leave none if and only if the user is an active
      administrator and the update does not merely contradict itself about being active. */
  lemma GuardIsExactForActiveAdministrators(d: Directory, company: string, user: Id, u: Update)
    requires user in d.users && ActiveAdministrators(d, company) != {}
    requires GuardRefuses(d, company, user, u)
    ensures ActiveAdministrators(Changed(d, user, u), company) == {}
       <==> && user in ActiveAdministrators(d, company)
            && (RemovesRole(u, AdministratorRole(d.roles, company)) || !Contradictory(u))
  {
    var admins := ActiveAdministrators(d, company);
    NoneLeftIffTakesLast(d, company, user, u);
    if user in admins {
      OnlyMember(admins, user);
    }
  }

  lemma OnlyMember(s: set<Id>, x: Id)
    requires x in s && |s| <= 1
    ensures s == {x}
  {
    if s != {x} {
      var y :| y in s && y != x;
      assert {x, y} <= s;
      SubsetSize({x, y}, s);
    }
  }

  lemma {:induction false} SubsetSize(a: set<Id>, b: set<Id>)
    requires a <= b
    ensures |a| <= |b|
  {
    if a != {} {
      var x :| x in a;
      SubsetSize(a - {x}, b - {x});
    }
  }

  /** The first way: it counts active administrators without asking whether this user is one of
      them, so a paused or stopped holder of the role can be neither stripped of it nor disabled
      while one active administrator is left, although that one would remain. */
  lemma GuardAlsoProtectsInactiveAdministrators(d: Directory, company: string, user: Id, other: Id, u: Update)
    requires user in d.users && d.users[user].company == company && HoldsRole(d, user, AdministratorRole(d.roles, company))
    requires user != other && ActiveAdministrators(d, company) == {other}
    requires RemovesRole(u, AdministratorRole(d.roles, company)) || Disables(u)
    ensures UpdateUser(d, company, user, u).Failure?
    ensures other in ActiveAdministrators(Changed(d, user, u), company)
  {
    ChangedTouchesOnly(d, user, u);
    OthersStay(d, Changed(d, user, u), user, company);
  }

  /** The second way: an update that clears `is_active` and sets `account_status` to active is refused
      for the last active administrator, although the account would end active. */
  lemma GuardRefusesContradictoryUpdate(d: Directory, company: string, user: Id, u: Update)
    requires user in d.users && d.users[user].company == company && ActiveAdministrators(d, company) == {user}
    requires Contradictory(u) && !RemovesRole(u, AdministratorRole(d.roles, company))
    ensures UpdateUser(d, company, user, u).Failure?
    ensures ActiveAdministrators(Changed(d, user, u), company) == {user}
  {
    assert user in ActiveAdministrators(d, company);
    StaysAdministrator(d, company, user, u);
    ChangedBack(d, user, u, company);
  }

  /** An accepted update that disables an account in any way ends all its sessions. */
  lemma DisabledAccountHasNoSessions(d: Directory, company: string, user: Id, u: Update)
    requires UpdateUser(d, company, user, u).Success? && Disables(u)
    ensures forall s :: s in UpdateUser(d, company, user, u).value.sessions ==> s.0 != user
  {
  }
}
