/** The navigation bar: which account buttons each visitor sees, the theme
    toggle, and the mobile menu. The signed-in user and `logout` belong to
    the auth context, and the stored theme to the theme provider; the user
    is a parameter here and the theme a field. */
module Navigation {
  import opened Wrappers
  import opened Roles

  /** The signed-in user as the pages see it. */
  datatype AuthUser = AuthUser(name: string, role: Role)

  datatype NavButton = LinkTo(target: string, text: string) | LogoutButton

  const DonateLink := LinkTo("/donate", "Donate")
  const PostRequirementLink := LinkTo("/recipient-portal", "Post Requirement")
  const LoginLink := LinkTo("/login", "Login")
  const RegisterLink := LinkTo("/register", "Register")

  predicate MayDonate(role: Role) {
    role == Donor || role == Admin
  }

  predicate MayPostRequirement(role: Role) {
    role == Hospital || role == Admin
  }

  /** The account buttons, in order; the desktop bar and the mobile menu
      show the same ones. */
  function AccountButtons(user: Option<AuthUser>): (bs: seq<NavButton>)
    ensures user.None? ==> bs == [LoginLink, RegisterLink]
    ensures user.Some? ==> (DonateLink in bs <==> MayDonate(user.value.role))
    ensures user.Some? ==> (PostRequirementLink in bs <==> MayPostRequirement(user.value.role))
    ensures user.Some? ==> LoginLink !in bs && RegisterLink !in bs
    ensures user.Some? ==> |bs| >= 1 && bs[|bs| - 1] == LogoutButton
    ensures LogoutButton in bs <==> user.Some?
  {
    match user
    case None => [LoginLink, RegisterLink]
    case Some(u) =>
      (if MayDonate(u.role) then [DonateLink] else [])
      + (if MayPostRequirement(u.role) then [PostRequirementLink] else [])
      + [LogoutButton]
  }

  /** A signed-in donor or hospital sees exactly one of the two action
      links, an admin both. */
  lemma RoleLinks(u: AuthUser)
    ensures var bs := AccountButtons(Some(u));
      && (u.role == Admin ==> DonateLink in bs && PostRequirementLink in bs)
      && (u.role == Donor ==> DonateLink in bs && PostRequirementLink !in bs)
      && (u.role == Hospital ==> DonateLink !in bs && PostRequirementLink in bs)
  {
  }

  /** The theme a click on the toggle selects: light from dark, dark from
      anything else, including an unset theme. */
  function NextTheme(theme: Option<string>): (r: string)
    ensures r == "light" || r == "dark"
    ensures r == "light" <==> theme == Some("dark")
  {
    if theme == Some("dark") then "light" else "dark"
  }

  /** The mobile toggle's caption names the theme a click selects. */
  function ThemeButtonLabel(theme: Option<string>): (caption: string)
    ensures caption == (if NextTheme(theme) == "light" then "Light Mode" else "Dark Mode")
  {
    if theme == Some("dark") then "Light Mode" else "Dark Mode"
  }

  /** From light or dark, two clicks come back; from any other theme they
      end on light. */
  lemma ThemeToggleTwice(theme: string)
    ensures theme == "light" || theme == "dark" ==> NextTheme(Some(NextTheme(Some(theme)))) == theme
    ensures theme != "light" && theme != "dark" ==> NextTheme(Some(NextTheme(Some(theme)))) == "light"
  {
  }

  class NavigationBar {
    var isOpen: bool
    var theme: Option<string>

    constructor (theme: Option<string>)
      ensures !isOpen && this.theme == theme
    {
      isOpen := false;
      this.theme := theme;
    }

    /** The menu button of the mobile bar. */
    method ToggleMenu()
      modifies this`isOpen
      ensures isOpen == !old(isOpen)
    {
      isOpen := !isOpen;
    }

    /** A link of the mobile menu, or its logout button: the menu closes. */
    method CloseMenu()
      modifies this`isOpen
      ensures !isOpen
    {
      isOpen := false;
    }

    /** Either theme toggle; the mobile menu stays as it is. */
    method ToggleTheme()
      modifies this`theme
      ensures theme == Some(NextTheme(old(theme)))
    {
      theme := Some(NextTheme(theme));
    }
  }
}
