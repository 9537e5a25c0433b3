/** The User document of models/User.js. */
module UserModel {
  import opened Wrappers

  datatype Role = UserRole | AdminRole | DepartmentRole

  datatype Department = DeptPwd | DeptWater | DeptEnv

  const RoleNames: seq<string> := ["user", "admin", "department"]
  const DepartmentNames: seq<string> := ["DEPT_PWD", "DEPT_WATER", "DEPT_ENV"]

  function RoleName(r: Role): (n: string)
    ensures n in RoleNames
  {
    match r
    case UserRole => RoleNames[0]
    case AdminRole => RoleNames[1]
    case DepartmentRole => RoleNames[2]
  }

  function DepartmentName(d: Department): (n: string)
    ensures n in DepartmentNames
  {
    match d
    case DeptPwd => DepartmentNames[0]
    case DeptWater => DepartmentNames[1]
    case DeptEnv => DepartmentNames[2]
  }

  /**
   * A stored user. `id` is the `_id` path, the identity provider's user id; `department`
   * is `null` (None) unless assigned; `createdAt` comes from the `timestamps` option.
   */
  datatype User = User(
    id: string,
    name: Option<string>,
    email: Option<string>,
    role: Role,
    department: Option<Department>,
    points: int,
    createdAt: int)

  /** `_id` is a required string: Mongoose's `required` rejects the empty string. */
  predicate ValidUser(u: User)
  {
    u.id != ""
  }

  /**
   * A user document created with only `_id`, `name` and `email` given: the schema defaults
   * fill in role "user", department null and 0 points.
   */
  function NewUser(id: string, name: Option<string>, email: Option<string>, now: int): (u: User)
    requires id != ""
    ensures ValidUser(u)
    ensures RoleName(u.role) == "user" && u.department == None && u.points == 0
    ensures u.id == id && u.name == name && u.email == email && u.createdAt == now
  {
    User(id, name, email, UserRole, None, 0, now)
  }
}
