/** Accounts: registration, login, the login session, logout, the admin test
    and the public user view (UserServiceImpl). */
module Users {
  import opened Common
  import UserRoles

  /** A row of the user table. */
  datatype User = User(
    id: int,
    userAccount: Option<string>,
    userPassword: Option<string>,
    userName: Option<string>,
    userRole: Option<string>,
    userProfile: Option<string>)

  /** The public view of a user: every column but the password. */
  datatype UserVO = UserVO(
    id: int,
    userAccount: Option<string>,
    userName: Option<string>,
    userRole: Option<string>,
    userProfile: Option<string>)

  datatype RegisterRequest = RegisterRequest(
    userAccount: Option<string>,
    userPassword: Option<string>,
    checkPassword: Option<string>)

  const Salt: string := "gqz"
  const DefaultUserName: string := "无名"

  /** isAdmin: a user is present and its role column holds the ADMIN value. */
  predicate IsAdmin(user: Option<User>)
    ensures IsAdmin(user) <==> user.Some? && user.value.userRole == Some("admin")
  {
    user.Some? && user.value.userRole == Some(UserRoles.Value(UserRoles.Admin))
  }

  /** getEncryptPassword: the digest of the salted password; the digest
      itself (MD5 as hex) is the parameter md5. */
  function EncryptPassword(md5: string -> string, password: string): string {
    md5(Salt + password)
  }

  /** The property copy from a user to its view (BeanUtils.copyProperties). */
  function View(u: User): UserVO {
    UserVO(u.id, u.userAccount, u.userName, u.userRole, u.userProfile)
  }

  /** getUserVO: null gives null, a user gives its public view. */
  function GetUserVO(user: Option<User>): (r: Option<UserVO>)
    ensures r.None? <==> user.None?
    ensures r.Some? ==> r.value.id == user.value.id && r.value.userAccount == user.value.userAccount
                        && r.value.userName == user.value.userName && r.value.userRole == user.value.userRole
                        && r.value.userProfile == user.value.userProfile
  {
    match user
    case None => None
    case Some(u) => Some(View(u))
  }

  /** getUserVOList: the view of each user, same length and order. */
  function GetUserVOList(users: seq<Option<User>>): (r: seq<Option<UserVO>>)
    ensures |r| == |users|
    ensures forall i :: 0 <= i < |users| ==> r[i] == GetUserVO(users[i])
  {
    if users == [] then [] else [GetUserVO(users[0])] + GetUserVOList(users[1..])
  }

  /** getById followed by getUserVO: the view of the row with that id, or
      none when the id is null or no row has it. */
  function UserViewById(users: map<int, User>, userId: Option<int>): (r: Option<UserVO>)
    ensures r.Some? <==> userId.Some? && userId.value in users
    ensures r.Some? ==> r.value == View(users[userId.value])
  {
    if userId.Some? && userId.value in users then GetUserVO(Some(users[userId.value])) else None
  }

  /** The argument checks of userRegister, in source order. */
  function RegisterGuard(req: RegisterRequest): (r: Outcome)
    ensures r == Pass <==>
      !Blank(req.userAccount) && !Blank(req.userPassword) && !Blank(req.checkPassword)
      && JavaLength(req.userAccount.value) >= 4
      && JavaLength(req.userPassword.value) >= 8 && JavaLength(req.checkPassword.value) >= 8
      && req.userPassword == req.checkPassword
    ensures Blank(req.userAccount) || Blank(req.userPassword) || Blank(req.checkPassword)
      ==> r == Fails(ParamsError, "参数为空")
    ensures r.Fail? ==> r.error.code == ParamsError
  {
    if Blank(req.userAccount) || Blank(req.userPassword) || Blank(req.checkPassword) then
      Fails(ParamsError, "参数为空")
    else if JavaLength(req.userAccount.value) < 4 then Fails(ParamsError, "用户账号过短")
    else if JavaLength(req.userPassword.value) < 8 || JavaLength(req.checkPassword.value) < 8 then
      Fails(ParamsError, "用户密码过短")
    else if req.userPassword.value != req.checkPassword.value then
      Fails(ParamsError, "两次输入密码不一致")
    else Pass
  }

  /** The argument checks of userLogin, in source order. */
  function LoginGuard(account: Option<string>, password: Option<string>): (r: Outcome)
    ensures r == Pass <==>
      !Blank(account) && !Blank(password) && JavaLength(account.value) >= 4 && JavaLength(password.value) >= 8
    ensures Blank(account) || Blank(password) ==> r == Fails(ParamsError, "参数为空")
    ensures r.Fail? ==> r.error.code == ParamsError
  {
    if Blank(account) || Blank(password) then Fails(ParamsError, "参数为空")
    else if JavaLength(account.value) < 4 then Fails(ParamsError, "用户账号错误")
    else if JavaLength(password.value) < 8 then Fails(ParamsError, "用户密码过短")
    else Pass
  }

  /** Blank means blank by hutool's wider rule: an account of four em
      spaces is refused as empty, not taken as a four-character name. */
  lemma WideSpaceAccountRefused()
    ensures RegisterGuard(RegisterRequest(Some("\U{2003}\U{2003}\U{2003}\U{2003}"), Some("12345678"),
                                          Some("12345678")))
            == Fails(ParamsError, "参数为空")
    ensures LoginGuard(Some("\U{2003}\U{2003}\U{2003}\U{2003}"), Some("12345678")).Fail?
  {
  }

  /** A password accepted at registration passes the login checks too. */
  lemma RegisterGuardImpliesLoginGuard(req: RegisterRequest)
    requires RegisterGuard(req) == Pass
    ensures LoginGuard(req.userAccount, req.userPassword) == Pass
  {
  }

  /** An account name is already taken in the table. */
  predicate AccountTaken(users: map<int, User>, account: string) {
    exists k :: k in users && users[k].userAccount == Some(account)
  }

  /** No two rows share an account name. */
  ghost predicate AccountsUnique(users: map<int, User>) {
    forall j, k ::
      (j in users && k in users && users[j].userAccount == users[k].userAccount
       && users[j].userAccount.Some?) ==> j == k
  }

  /** The rows the login query selects: account and hash both match. */
  function LoginMatches(users: map<int, User>, account: string, hash: string): (r: set<int>)
    ensures forall k :: k in r <==>
      (k in users && users[k].userAccount == Some(account) && users[k].userPassword == Some(hash))
  {
    set k | k in users && users[k].userAccount == Some(account) && users[k].userPassword == Some(hash)
  }

  /** With unique accounts, the row created for an account and password is
      the one and only row the login query returns for them. */
  lemma RegisteredUserMatchesLogin(users: map<int, User>, k: int, account: string,
                                   md5: string -> string, password: string)
    requires AccountsUnique(users)
    requires k in users && users[k].userAccount == Some(account)
    requires users[k].userPassword == Some(EncryptPassword(md5, password))
    ensures LoginMatches(users, account, EncryptPassword(md5, password)) == {k}
  {
    var m := LoginMatches(users, account, EncryptPassword(md5, password));
    forall j | j in m ensures j == k {
      assert users[j].userAccount == users[k].userAccount;
    }
  }

  /** The row userRegister inserts. */
  function NewUser(id: int, account: string, hash: string): User {
    User(id, Some(account), Some(hash), Some(DefaultUserName), Some(UserRoles.Value(UserRoles.User)), None)
  }

  /** The logged-in user as getLoginUser finds it: the session's user,
      looked up again by id in the table. */
  function CurrentUser(users: map<int, User>, session: Option<User>): (r: Result<User>)
    ensures r.Err? ==> r.error == Error(NotLoginError, "")
    ensures r.Ok? <==> session.Some? && session.value.id in users
    ensures r.Ok? ==> r.value == users[session.value.id]
  {
    if session.None? || session.value.id !in users then Err(Error(NotLoginError, ""))
    else Ok(users[session.value.id])
  }

  /** The user table and the login session of one client. */
  class UserService {
    var users: map<int, User>
    /** The session attribute USER_LOGIN_STATE: the user as read at login. */
    var session: Option<User>

    /** Every row's id is its key. */
    ghost predicate Valid()
      reads this
    {
      forall k :: k in users ==> users[k].id == k
    }

    constructor (users0: map<int, User>)
      requires forall k :: k in users0 ==> users0[k].id == k
      ensures Valid() && users == users0 && session == None
    {
      users := users0;
      session := None;
    }

    /** userRegister; newId is the identifier the store assigns to the insert. */
    method Register(req: RegisterRequest, md5: string -> string, newId: int) returns (r: Result<int>)
      requires Valid() && newId !in users
      modifies this`users
      ensures Valid()
      ensures RegisterGuard(req).Fail? ==> r == Err(RegisterGuard(req).error) && users == old(users)
      ensures RegisterGuard(req) == Pass && AccountTaken(old(users), req.userAccount.value) ==>
        r == Err(Error(ParamsError, "账号重复")) && users == old(users)
      ensures RegisterGuard(req) == Pass && !AccountTaken(old(users), req.userAccount.value) ==>
        r == Ok(newId)
        && users == old(users)[newId := NewUser(newId, req.userAccount.value,
                                                 EncryptPassword(md5, req.userPassword.value))]
      ensures AccountsUnique(old(users)) ==> AccountsUnique(users)
    {
      var guard := RegisterGuard(req);
      if guard.Fail? {
        return Err(guard.error);
      }
      var account := req.userAccount.value;
      if AccountTaken(users, account) {
        return Err(Error(ParamsError, "账号重复"));
      }
      var encryptPassword := EncryptPassword(md5, req.userPassword.value);
      var user := NewUser(newId, account, encryptPassword);
      users := users[newId := user];
      r := Ok(newId);
    }

    /** userLogin: checks, then the row whose account and hash match is put in
        the session. More than one match makes selectOne throw. */
    method Login(account: Option<string>, password: Option<string>, md5: string -> string)
      returns (r: Result<UserVO>)
      requires Valid()
      modifies this`session
      ensures LoginGuard(account, password).Fail? ==>
        r == Err(LoginGuard(account, password).error) && session == old(session)
      ensures LoginGuard(account, password) == Pass ==>
        var m := LoginMatches(users, account.value, EncryptPassword(md5, password.value));
        && (m == {} ==> r == Err(Error(ParamsError, "用户不存在或密码错误")) && session == old(session))
        && ((exists i, j :: i in m && j in m && i != j) ==>
              r.Err? && r.error.code == Uncaught && session == old(session))
        && (forall k :: k in m && (forall j :: j in m ==> j == k) ==>
              session == Some(users[k]) && r == Ok(View(users[k])))
      ensures r.Ok? ==> session.Some? && session.value in users.Values
    {
      var guard := LoginGuard(account, password);
      if guard.Fail? {
        return Err(guard.error);
      }
      var hash := EncryptPassword(md5, password.value);
      var m := LoginMatches(users, account.value, hash);
      if m == {} {
        return Err(Error(ParamsError, "用户不存在或密码错误"));
      }
      assert exists x :: x in m by {
        if forall x :: x !in m {
          assert false;
        }
      }
      var k :| k in m;
      if exists j :: j in m && j != k {
        return Err(Error(Uncaught, "TooManyResultsException"));
      }
      session := Some(users[k]);
      r := Ok(View(users[k]));
    }

    /** getLoginUser: the session's user as the table holds it now. */
    method GetLoginUser() returns (r: Result<User>)
      ensures r == CurrentUser(users, session)
      ensures session.None? ==> r == Err(Error(NotLoginError, ""))
      ensures session.Some? && session.value.id !in users ==> r == Err(Error(NotLoginError, ""))
      ensures session.Some? && session.value.id in users ==> r == Ok(users[session.value.id])
    {
      if session.None? {
        return Err(Error(NotLoginError, ""));
      }
      var userId := session.value.id;
      if userId !in users {
        return Err(Error(NotLoginError, ""));
      }
      r := Ok(users[userId]);
    }

    /** userLogout: fails when no one is logged in, else clears the session. */
    method Logout() returns (r: Result<bool>)
      modifies this`session
      ensures old(session).None? ==> r == Err(Error(OperationError, "未登录")) && session == None
      ensures old(session).Some? ==> r == Ok(true) && session == None
    {
      if session.None? {
        return Err(Error(OperationError, "未登录"));
      }
      session := None;
      r := Ok(true);
    }
  }
}
