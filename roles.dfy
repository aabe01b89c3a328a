/** The three account roles shared by the backend models and the pages'
    capability gating. */
module Roles {
  import opened Wrappers

  datatype Role = Donor | Hospital | Admin

  /** The wire spelling of a role (the `Literal` values of `User.role`). */
  function RoleName(r: Role): string {
    match r
    case Donor => "donor"
    case Hospital => "hospital"
    case Admin => "admin"
  }

  /** Validation of a role string against `Literal["donor", "hospital", "admin"]`. */
  function ParseRole(s: string): (r: Option<Role>)
    ensures r.Some? ==> RoleName(r.value) == s
    ensures r.None? ==> s != "donor" && s != "hospital" && s != "admin"
  {
    if s == "donor" then Some(Donor)
    else if s == "hospital" then Some(Hospital)
    else if s == "admin" then Some(Admin)
    else None
  }

  /** Parsing a role's name gives the role back. */
  lemma ParseRoleName(r: Role)
    ensures ParseRole(RoleName(r)) == Some(r)
  {
  }
}
