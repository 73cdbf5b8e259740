/** The two user roles and the lookup from a role's stored value to the role
    (UserRoleEnum). */
module UserRoles {
  import opened Common

  datatype UserRole = Admin | User

  /** The display text of a role. */
  function Text(r: UserRole): string {
    match r
    case Admin => "管理员"
    case User => "普通用户"
  }

  /** The value stored in a user's role column. */
  function Value(r: UserRole): string {
    match r
    case Admin => "admin"
    case User => "user"
  }

  /** The constants in declaration order, as values() returns them. */
  const AllRoles: seq<UserRole> := [Admin, User]

  /** The first role of the list whose value equals v exactly. */
  function FindByValue(roles: seq<UserRole>, v: string): (r: Option<UserRole>)
    ensures r.Some? ==> r.value in roles && Value(r.value) == v
    ensures r.None? ==> forall e :: e in roles ==> Value(e) != v
  {
    if roles == [] then None
    else if Value(roles[0]) == v then Some(roles[0])
    else FindByValue(roles[1..], v)
  }

  /** getEnumByValue: null and "" give null; otherwise the role whose value is
      exactly the argument (case-sensitive), or null. */
  function GetEnumByValue(value: Option<string>): (r: Option<UserRole>)
    ensures value == None || value == Some("") ==> r == None
    ensures r == Some(Admin) <==> value == Some("admin")
    ensures r == Some(User) <==> value == Some("user")
    ensures r == None <==> value != Some("admin") && value != Some("user")
  {
    if value.None? || value.value == "" then None
    else FindByValue(AllRoles, value.value)
  }

  /** Every role is found again from its own value. */
  lemma GetEnumByValueOfValue(e: UserRole)
    ensures GetEnumByValue(Some(Value(e))) == Some(e)
  {
  }
}
