/** services/user_service.py: creating a login user after its guards, and
    the listing of every user for the administration screen. The password
    hash is an opaque function the caller passes in. */
module UserService {
  import opened DbModels
  import opened Store

  /** Why `create_user` adds no user. */
  datatype UserRefusal =
    | EmptyInput        // the username or the password is empty
    | DuplicateUsername // a user with this exact username exists
    | RoleRejected      // the commit fails: the role is not a `user_roles` label

  /** Whether some stored user has exactly this username. */
  predicate UsernameTaken(users: map<Id, User>, username: string)
  {
    exists k :: k in users && users[k].username == username
  }

  /** The guards of `create_user`, in the order the code meets them; None
      when the user is inserted. */
  function CreateUserCheck(users: map<Id, User>, username: string, password: string, role: string): (r: Option<UserRefusal>)
    ensures r.None? <==> username != "" && password != "" && !UsernameTaken(users, username) && ParseRole(role).Some?
    ensures r == Some(EmptyInput) <==> username == "" || password == ""
    ensures r == Some(DuplicateUsername) ==> UsernameTaken(users, username)
  {
    if username == "" || password == "" then Some(EmptyInput)
    else if UsernameTaken(users, username) then Some(DuplicateUsername)
    else if ParseRole(role).None? then Some(RoleRejected)
    else None
  }

  /** A fixed description standing for the driver's text when the enum
      column refuses a role. */
  const RoleRejectedText: string := "(DataError) invalid value for column 'role'"

  /** The message `create_user` returns for each outcome. */
  function CreateUserMessage(username: string, refusal: Option<UserRefusal>): (msg: string)
    ensures refusal == Some(RoleRejected) ==> |msg| >= 7 && msg[..7] == "Error: "
  {
    match refusal
    case None => "Usuario '" + username + "' creado correctamente."
    case Some(EmptyInput) => "Usuario o clave vacios."
    case Some(DuplicateUsername) => "El usuario '" + username + "' ya existe."
    case Some(RoleRejected) =>
      var m := "Error: " + RoleRejectedText;
      assert m[..7] == "Error: ";
      m
  }

  /** The row `create_user` inserts: username, hashed password, role and
      the active flag are given, the other columns keep their defaults. */
  function NewUser(username: string, passwordHash: string, role: Role, now: Timestamp): (u: User)
    ensures u.username == username && u.passwordHash == passwordHash && u.role == role
    ensures u.isActive && u.email.None? && u.createdAt == now && u.updatedAt.None?
  {
    User(username, None, passwordHash, role, true, now, None)
  }

  /** `create_user(username, password, role="analyst")`: empty input and an
      existing username are reported without touching the table; a role the
      enum column refuses fails the commit, which is rolled back; otherwise
      exactly one user is added, holding the hash of the password. */
  method CreateUser(db: Database, username: string, password: string, hash: string -> string,
                    now: Timestamp, role: string := DefaultRole)
    returns (msg: string, ghost id: Id)
    requires db.Valid()
    modifies db
    ensures db.Valid()
    ensures var check := CreateUserCheck(old(db.users), username, password, role);
      && msg == CreateUserMessage(username, check)
      && (check.Some? ==> db.Snapshot() == old(db.Snapshot()))
      && (check.None? ==>
            id !in old(db.users) &&
            db.Snapshot() == old(db.Snapshot()).(users := old(db.users)[id := NewUser(username, hash(password), ParseRole(role).value, now)]))
  {
    var check := CreateUserCheck(db.users, username, password, role);
    msg := CreateUserMessage(username, check);
    id := 0;
    if check.None? {
      id := db.AddUser(NewUser(username, hash(password), ParseRole(role).value, now));
    }
  }

  /** The default role is one the column accepts: a call that leaves the
      role out creates an analyst. */
  lemma DefaultRoleIsAnalyst()
    ensures ParseRole(DefaultRole) == Some(Analyst)
  {
  }

  /** Once a username is stored, every later `create_user` with it is
      refused with the "already exists" message, whatever the password and
      role. */
  lemma SecondCreateRefused(users: map<Id, User>, id: Id, username: string, password: string, role: string)
    requires id in users && users[id].username == username && username != "" && password != ""
    ensures CreateUserCheck(users, username, password, role) == Some(DuplicateUsername)
    ensures CreateUserMessage(username, CreateUserCheck(users, username, password, role))
      == "El usuario '" + username + "' ya existe."
  {
    assert UsernameTaken(users, username);
  }

  /** One entry of `get_all_users`. */
  datatype UserView = UserView(username: string, role: string, isActive: bool)

  /** `get_all_users()`: one entry per stored user, active or not, in
      ascending id order. */
  function GetAllUsers(users: map<Id, User>): (r: seq<UserView>)
    ensures |r| == |users|
    ensures forall i :: 0 <= i < |r| ==> r[i] in AllViews(users)
    ensures forall k :: k in users ==> ViewOf(users, k) in r
  {
    var ids := Ascending(users.Keys);
    ViewsCover(users, ids);
    ViewsOfUsers(users, ids);
    Views(users, ids)
  }

  /** The entry of the user stored under `k`. */
  function ViewOf(users: map<Id, User>, k: Id): UserView
    requires k in users
  {
    UserView(users[k].username, RoleName(users[k].role), users[k].isActive)
  }

  /** One entry per id of `ids`, in the same order. */
  function Views(users: map<Id, User>, ids: seq<Id>): (r: seq<UserView>)
    requires forall i :: 0 <= i < |ids| ==> ids[i] in users
    ensures |r| == |ids|
    ensures forall i :: 0 <= i < |r| ==> r[i] == ViewOf(users, ids[i])
  {
    seq(|ids|, i requires 0 <= i < |ids| => ViewOf(users, ids[i]))
  }

  /** The entries of all stored users. */
  function AllViews(users: map<Id, User>): set<UserView>
  {
    set k | k in users :: ViewOf(users, k)
  }

  /** Every entry is the entry of some stored user. */
  lemma ViewsOfUsers(users: map<Id, User>, ids: seq<Id>)
    requires forall i :: 0 <= i < |ids| ==> ids[i] in users
    ensures forall i :: 0 <= i < |Views(users, ids)| ==> Views(users, ids)[i] in AllViews(users)
  {
    var r := Views(users, ids);
    forall i | 0 <= i < |r|
      ensures r[i] in AllViews(users)
    {
      assert r[i] == ViewOf(users, ids[i]);
    }
  }

  /** Every user whose id is listed has its entry. */
  lemma ViewsCover(users: map<Id, User>, ids: seq<Id>)
    requires forall i :: 0 <= i < |ids| ==> ids[i] in users
    requires forall k :: k in users ==> k in ids
    ensures forall k :: k in users ==> ViewOf(users, k) in Views(users, ids)
  {
    var r := Views(users, ids);
    forall k | k in users
      ensures ViewOf(users, k) in r
    {
      var i :| 0 <= i < |ids| && ids[i] == k;
      assert r[i] == ViewOf(users, k);
    }
  }

  /** Inactive users are listed too: the listing has no filter on the
      active flag. */
  lemma InactiveUsersListed(users: map<Id, User>, k: Id)
    requires k in users && !users[k].isActive
    ensures exists i ::
      0 <= i < |GetAllUsers(users)| && GetAllUsers(users)[i].username == users[k].username && !GetAllUsers(users)[i].isActive
  {
    var v := ViewOf(users, k);
    assert v in GetAllUsers(users);
  }
}
