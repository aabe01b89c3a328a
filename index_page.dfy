/** The landing page's calls to action, which depend on who is signed in. */
module IndexPage {
  import opened Wrappers
  import opened Roles
  import opened Navigation

  datatype Cta = Cta(target: string, text: string)

  const JoinCommunity := Cta("/community", "Join Community")

  /** The donor button: shown to visitors and to donors and admins; it
      leads visitors to registration and signed-in users to the donor form. */
  function DonorCta(user: Option<AuthUser>): (c: Option<Cta>)
    ensures c.Some? <==> user.None? || MayDonate(user.value.role)
    ensures user.None? ==> c == Some(Cta("/register", "Register as Donor"))
    ensures user.Some? && c.Some? ==> c.value == Cta("/donate", "Donate Organs")
  {
    if user.None? || user.value.role == Donor || user.value.role == Admin then
      Some(if user.Some? then Cta("/donate", "Donate Organs") else Cta("/register", "Register as Donor"))
    else None
  }

  /** The requirement button with the given text: shown to visitors and to
      hospitals and admins, always leading to the recipient portal. */
  function RequirementCta(user: Option<AuthUser>, text: string): (c: Option<Cta>)
    ensures c.Some? <==> user.None? || MayPostRequirement(user.value.role)
    ensures c.Some? ==> c.value == Cta("/recipient-portal", text)
  {
    if user.None? || user.value.role == Hospital || user.value.role == Admin then
      Some(Cta("/recipient-portal", text))
    else None
  }

  function Shown(c: Option<Cta>): seq<Cta> {
    if c.Some? then [c.value] else []
  }

  /** The hero section's buttons, in order. */
  function HeroCtas(user: Option<AuthUser>): (cs: seq<Cta>)
    ensures |cs| >= 2 && cs[|cs| - 1] == JoinCommunity
  {
    Shown(DonorCta(user)) + Shown(RequirementCta(user, "Post Requirement")) + [JoinCommunity]
  }

  /** The closing section's buttons, in order. */
  function ClosingCtas(user: Option<AuthUser>): (cs: seq<Cta>)
    ensures |cs| >= 1
  {
    Shown(DonorCta(user)) + Shown(RequirementCta(user, "Post Your Requirement"))
  }

  /** Both sections lead to the same places. */
  lemma SectionsShareTargets(user: Option<AuthUser>)
    ensures |HeroCtas(user)| == |ClosingCtas(user)| + 1
    ensures forall i :: 0 <= i < |ClosingCtas(user)| ==> HeroCtas(user)[i].target == ClosingCtas(user)[i].target
  {
  }

  /** For a signed-in user the page offers an action exactly when the
      navigation bar offers it, and to the same place. */
  lemma SignedInAgreesWithNavigation(u: AuthUser)
    ensures DonorCta(Some(u)).Some? <==> DonateLink in AccountButtons(Some(u))
    ensures DonorCta(Some(u)).Some? ==> DonorCta(Some(u)).value.target == DonateLink.target
    ensures RequirementCta(Some(u), "Post Requirement").Some? <==> PostRequirementLink in AccountButtons(Some(u))
    ensures RequirementCta(Some(u), "Post Requirement").Some? ==>
      RequirementCta(Some(u), "Post Requirement").value == Cta(PostRequirementLink.target, PostRequirementLink.text)
  {
  }

  /** A visitor who is not signed in sees both actions on the page, though
      the navigation bar offers neither. */
  lemma VisitorSeesBothActions()
    ensures DonorCta(None).Some? && RequirementCta(None, "Post Requirement").Some?
    ensures DonateLink !in AccountButtons(None) && PostRequirementLink !in AccountButtons(None)
  {
  }
}
