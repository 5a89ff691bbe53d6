/**
 * The client's user roles: the string union UserRole and the enum schema
 * userRoleSchema that validates it.
 */
module UserRoles {
  import opened Json
  import opened Wrappers
  import Jtd

  /** The three members of the UserRole union type. */
  datatype UserRole = Admin | Editor | Viewer

  /** The string literal each member of the union stands for. */
  function Name(r: UserRole): string {
    match r
    case Admin => "admin"
    case Editor => "editor"
    case Viewer => "viewer"
  }

  /** The values listed in the enum schema, in the order written. */
  const RoleNames: seq<string> := ["admin", "editor", "viewer"]

  /** userRoleSchema: { enum: ["admin", "editor", "viewer"] }. */
  const RoleSchema: Jtd.Schema := Jtd.EnumForm(RoleNames, false)

  /** The compiled enum schema applied to an instance. */
  predicate ValidRole(v: Json) {
    Jtd.Valid(RoleSchema, v)
  }

  /** The member of the union a string literal denotes, if any. */
  function ParseRole(s: string): (r: Option<UserRole>)
    ensures r.Some? ==> Name(r.value) == s
    ensures r.None? ==> forall role: UserRole :: Name(role) != s
  {
    if s == "admin" then Some(Admin)
    else if s == "editor" then Some(Editor)
    else if s == "viewer" then Some(Viewer)
    else None
  }

  lemma RoleSchemaWellFormed()
    ensures Jtd.WellFormed(RoleSchema)
  {
  }

  /** Exactly the three literals pass the enum, and nothing that is not a string does. */
  lemma ValidRoleExactly(v: Json)
    ensures ValidRole(v) <==> v.JString? && (v.s == "admin" || v.s == "editor" || v.s == "viewer")
  {
  }

  /** The union type and the enum name the same set of strings. */
  lemma UnionMatchesEnum(s: string)
    ensures ValidRole(JString(s)) <==> ParseRole(s).Some?
  {
  }

  lemma EveryRoleValidates(r: UserRole)
    ensures ValidRole(JString(Name(r)))
    ensures ParseRole(Name(r)) == Some(r)
  {
  }

  /** Matching is exact: no case folding, no other strings. */
  lemma RoleSamplePoints()
    ensures ValidRole(JString("editor"))
    ensures !ValidRole(JString("Editor"))
    ensures !ValidRole(JString("invalidrole"))
    ensures !ValidRole(JString(""))
  {
  }

  /** A non-string instance is rejected (the enum is not nullable). */
  lemma NonStringRoleRejected(v: Json)
    requires !v.JString?
    ensures !ValidRole(v)
  {
  }
}
