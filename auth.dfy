/** The `AUTH` session service (js/auth.js): two independent login slots, one
    for a user and one for an admin. Each slot is a field of the service and a
    session key in local storage; the stored keys are the `storedUser` and
    `storedAdmin` fields here, and they are what the store's methods receive
    as the acting user and admin. */
module Auth {
  import opened Seqs
  import opened Records

  /** What `AUTH.init` reports: `'user'`, `'admin'` (and `null` as `None`). */
  datatype Role = UserRole | AdminRole

  /** The first admin whose username and password both equal the given ones. */
  function AdminWithCredentials(admins: seq<Admin>, username: string, password: string): (r: Option<Admin>)
    ensures r.None? <==> forall j :: 0 <= j < |admins| ==> admins[j].username != username || admins[j].password != password
    ensures r.Some? ==>
      exists k :: 0 <= k < |admins| && admins[k] == r.value
        && r.value.username == username && r.value.password == password
        && forall j :: 0 <= j < k ==> admins[j].username != username || admins[j].password != password
  {
    match FirstIndex(admins, (a: Admin) => a.username == username && a.password == password)
    case None => None
    case Some(k) => Some(admins[k])
  }

  /** The first admin who matches the credentials is the one selected, whatever follows. */
  lemma FirstCredentialsWin(before: seq<Admin>, admin: Admin, after: seq<Admin>)
    requires forall j :: 0 <= j < |before| ==> before[j].username != admin.username || before[j].password != admin.password
    ensures AdminWithCredentials(before + [admin] + after, admin.username, admin.password) == Some(admin)
  {
    var all := before + [admin] + after;
    assert all[|before|] == admin;
  }

  class Session {
    var currentUser: Option<User>
    var currentAdmin: Option<Admin>
    /** The `CURRENT_USER` and `CURRENT_ADMIN` keys in local storage. */
    var storedUser: Option<User>
    var storedAdmin: Option<Admin>

    /** A slot that is logged in holds exactly what its session key stores. */
    predicate Consistent()
      reads this
    {
      && (currentUser.Some? ==> storedUser == currentUser)
      && (currentAdmin.Some? ==> storedAdmin == currentAdmin)
    }

    /** A fresh page: both slots empty, whatever the stored keys hold. */
    constructor(storedUser: Option<User>, storedAdmin: Option<Admin>)
      ensures this.storedUser == storedUser && this.storedAdmin == storedAdmin
      ensures currentUser.None? && currentAdmin.None?
      ensures Consistent()
    {
      this.storedUser := storedUser;
      this.storedAdmin := storedAdmin;
      currentUser := None;
      currentAdmin := None;
    }

    /** `AUTH.init`: a stored user session wins and only the user slot is
        loaded; the admin session is restored only when there is no user
        session; with neither, nothing changes. */
    method Init() returns (role: Option<Role>)
      modifies this`currentUser, this`currentAdmin
      ensures storedUser.Some? ==> role == Some(UserRole) && currentUser == storedUser && currentAdmin == old(currentAdmin)
      ensures storedUser.None? && storedAdmin.Some? ==>
        role == Some(AdminRole) && currentAdmin == storedAdmin && currentUser == old(currentUser)
      ensures storedUser.None? && storedAdmin.None? ==>
        role.None? && currentUser == old(currentUser) && currentAdmin == old(currentAdmin)
      ensures old(Consistent()) ==> Consistent()
    {
      if storedUser.Some? {
        currentUser := storedUser;
        return Some(UserRole);
      }
      if storedAdmin.Some? {
        currentAdmin := storedAdmin;
        return Some(AdminRole);
      }
      role := None;
    }

    /** `AUTH.loginUser`: succeeds exactly when some user has the id, and then
        logs in (and stores) the first such user; otherwise nothing changes. */
    method LoginUser(users: seq<User>, userId: string) returns (ok: bool)
      modifies this`currentUser, this`storedUser
      ensures ok <==> exists j :: 0 <= j < |users| && users[j].id == userId
      ensures ok ==> currentUser == storedUser == UserWithId(users, userId) && currentUser.value.id == userId
      ensures !ok ==> currentUser == old(currentUser) && storedUser == old(storedUser)
      ensures old(Consistent()) ==> Consistent()
    {
      var user := UserWithId(users, userId);
      if user.Some? {
        currentUser := user;
        storedUser := user;
        return true;
      }
      ok := false;
    }

    /** `AUTH.logoutUser`: empties the user slot and its key, nothing else. */
    method LogoutUser()
      modifies this`currentUser, this`storedUser
      ensures currentUser.None? && storedUser.None?
      ensures old(Consistent()) ==> Consistent()
    {
      currentUser := None;
      storedUser := None;
    }

    /** `AUTH.loginAdmin`: succeeds exactly when some admin has both the
        username and the password, and then logs in (and stores) the first
        such admin; otherwise nothing changes. */
    method LoginAdmin(admins: seq<Admin>, username: string, password: string) returns (ok: bool)
      modifies this`currentAdmin, this`storedAdmin
      ensures ok <==> exists j :: 0 <= j < |admins| && admins[j].username == username && admins[j].password == password
      ensures ok ==> currentAdmin == storedAdmin == AdminWithCredentials(admins, username, password)
      ensures !ok ==> currentAdmin == old(currentAdmin) && storedAdmin == old(storedAdmin)
      ensures old(Consistent()) ==> Consistent()
    {
      var admin := AdminWithCredentials(admins, username, password);
      if admin.Some? {
        currentAdmin := admin;
        storedAdmin := admin;
        return true;
      }
      ok := false;
    }

    /** `AUTH.logoutAdmin`: empties the admin slot and its key, nothing else. */
    method LogoutAdmin()
      modifies this`currentAdmin, this`storedAdmin
      ensures currentAdmin.None? && storedAdmin.None?
      ensures old(Consistent()) ==> Consistent()
    {
      currentAdmin := None;
      storedAdmin := None;
    }
  }
}
