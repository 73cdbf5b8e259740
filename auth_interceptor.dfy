/** The role check run around every endpoint that carries a required role
    (AuthInterceptor.doInterceptor). */
module Auth {
  import opened Common
  import opened UserRoles
  import Users

  /** Pass means the endpoint proceeds. loginUser is the outcome of
      getLoginUser for the current request, so a caller who is not logged in
      fails with that error before any role is looked at. */
  function DoInterceptor(loginUser: Result<Users.User>, mustRole: string): (r: Outcome)
    ensures loginUser.Err? ==> r == Fail(loginUser.error)
    ensures loginUser.Ok? && mustRole != "admin" && mustRole != "user" ==> r == Pass
    ensures loginUser.Ok? && (mustRole == "admin" || mustRole == "user")
            && loginUser.value.userRole != Some("admin") && loginUser.value.userRole != Some("user")
            ==> r == Fails(NoAuthError, "")
    ensures loginUser.Ok? && mustRole == "admin" && loginUser.value.userRole != Some("admin")
            ==> r == Fails(NoAuthError, "")
    ensures r == Pass <==>
      loginUser.Ok? &&
      ((mustRole != "admin" && mustRole != "user")
       || (mustRole == "admin" && loginUser.value.userRole == Some("admin"))
       || (mustRole == "user" && loginUser.value.userRole in {Some("admin"), Some("user")}))
  {
    match loginUser
    case Err(e) => Fail(e)
    case Ok(user) =>
      var mustRoleEnum := GetEnumByValue(Some(mustRole));
      if mustRoleEnum.None? then Pass
      else
        var userRoleEnum := GetEnumByValue(user.userRole);
        if userRoleEnum.None? then Fails(NoAuthError, "")
        else if mustRoleEnum == Some(Admin) && userRoleEnum != Some(Admin) then Fails(NoAuthError, "")
        else Pass
  }

  /** A logged-in administrator passes every role requirement. */
  lemma AdminAlwaysProceeds(user: Users.User, mustRole: string)
    requires Users.IsAdmin(Some(user))
    ensures DoInterceptor(Ok(user), mustRole) == Pass
  {
  }

  /** A logged-in ordinary user is refused exactly the admin-only endpoints. */
  lemma UserRefusedOnlyForAdmin(user: Users.User, mustRole: string)
    requires user.userRole == Some("user")
    ensures DoInterceptor(Ok(user), mustRole).Fail? <==> mustRole == "admin"
  {
  }
}
