/** The organizers' landing page: one primary call to action chosen by
    role (frontend/src/pages/organizers-landing-page.tsx). */
module OrganizerLandingPage {
  import opened Routes

  /** `handlePrimaryAction`: start the OIDC sign-in, or push a page. */
  datatype Action = SignIn | GoTo(page: Page)

  /** What the page shows: the loader, or the hero with its button. */
  datatype View = Loading | Hero(buttonText: string, isNonOrganizer: bool)

  function PrimaryAction(authenticated: bool, roles: Roles): (a: Action)
    ensures a.GoTo? ==> Static(a.page)
  {
    if !authenticated then SignIn
    else if roles.isOrganizer then GoTo(CreateEvent)
    else if roles.isStaff then GoTo(ValidateQr)
    else if roles.isAttendee then GoTo(MyTickets)
    else GoTo(Landing)
  }

  /** `getPrimaryButtonText`. */
  function PrimaryButtonText(authenticated: bool, roles: Roles): string {
    if !authenticated then "Sign In to Get Started"
    else if roles.isOrganizer then "Create an Event"
    else if roles.isStaff then "Validate Tickets"
    else if roles.isAttendee then "View My Tickets"
    else "Get Started"
  }

  /** The label that belongs to each action. */
  function ActionLabel(a: Action): string {
    match a
    case SignIn => "Sign In to Get Started"
    case GoTo(p) =>
      if p == CreateEvent then "Create an Event"
      else if p == ValidateQr then "Validate Tickets"
      else if p == MyTickets then "View My Tickets"
      else "Get Started"
  }

  function LandingView(authLoading: bool, rolesLoading: bool, authenticated: bool, roles: Roles): (v: View)
    ensures authLoading || rolesLoading <==> v == Loading
    ensures v.Hero? ==> v.buttonText == ActionLabel(PrimaryAction(authenticated, roles))
    ensures v.Hero? ==> (v.isNonOrganizer <==> authenticated && PrimaryAction(authenticated, roles) != GoTo(CreateEvent))
  {
    if authLoading || rolesLoading then Loading
    else
      TextFollowsAction(authenticated, roles);
      Hero(PrimaryButtonText(authenticated, roles), authenticated && !roles.isOrganizer)
  }

  /** The button text follows the same priority as the action, case for
      case, and different actions carry different texts. */
  lemma TextFollowsAction(authenticated: bool, roles: Roles)
    ensures PrimaryButtonText(authenticated, roles) == ActionLabel(PrimaryAction(authenticated, roles))
    ensures forall a, b: Action :: a in ActionsShown() && b in ActionsShown() && ActionLabel(a) == ActionLabel(b) ==> a == b
    ensures PrimaryAction(authenticated, roles) in ActionsShown()
  {
  }

  function ActionsShown(): seq<Action> {
    [SignIn, GoTo(CreateEvent), GoTo(ValidateQr), GoTo(MyTickets), GoTo(Landing)]
  }

  /** The action never leads a signed-in user to a page that turns them
      away: each target's guard admits the roles that chose it. */
  lemma ActionAdmitted(s: Session, location: string, store: Store)
    requires Settled(s) && s.authenticated
    ensures var a := PrimaryAction(true, s.roles);
      a.GoTo? && Enter(a.page, s, location, store) == (Render(a.page), store)
  {
  }
}

/** The navigation bar: the role links and their visibility
    (frontend/src/components/layout/navbar.tsx). */
module NavBar {
  import opened Wrappers
  import opened Routes

  datatype NavLink = NavLink(to: Page, caption: string, isPublic: bool)

  const Discover: NavLink := NavLink(Landing, "Discover", true)

  /** Every link the bar can hold, in its fixed order, with the role each
      non-public one stands for. */
  const AllLinks: seq<(NavLink, Option<Role>)> := [
    (Discover, None),
    (NavLink(MyEvents, "My Events", false), Some(Organizer)),
    (NavLink(MyTickets, "My Tickets", false), Some(Attendee)),
    (NavLink(ValidateQr, "Validate", false), Some(Staff))]

  /** `navLinks`: Discover, then one link per role held. */
  function NavLinks(roles: Roles): (r: seq<NavLink>)
    ensures |r| >= 1 && r[0] == Discover
    ensures forall l :: l in r ==> Static(l.to)
  {
    StaticTargets();
    [Discover]
      + (if roles.isOrganizer then [NavLink(MyEvents, "My Events", false)] else [])
      + (if roles.isAttendee then [NavLink(MyTickets, "My Tickets", false)] else [])
      + (if roles.isStaff then [NavLink(ValidateQr, "Validate", false)] else [])
  }

  /** Every page a link can point to has a fixed path: each is the
      fallback of some set of roles, whose contract says so. */
  lemma StaticTargets()
    ensures Static(Landing) && Static(MyEvents) && Static(MyTickets) && Static(ValidateQr)
  {
    assert Fallback(Roles(false, false, false)) == Landing;
    assert Fallback(Roles(true, false, false)) == MyEvents;
    assert Fallback(Roles(false, true, false)) == MyTickets;
    assert Fallback(Roles(false, false, true)) == ValidateQr;
  }

  /** The links of `all` whose role is held or that have none. */
  function KeepHeld(all: seq<(NavLink, Option<Role>)>, roles: Roles): seq<NavLink> {
    if |all| == 0 then []
    else
      var rest := KeepHeld(all[1..], roles);
      if all[0].1.None? || Holds(roles, all[0].1.value) then [all[0].0] + rest else rest
  }

  /** `navLinks` is the fixed list with the links of roles not held taken
      out: order is kept, and a role link is there iff its role is held. */
  lemma NavLinksKeepOrder(roles: Roles)
    ensures NavLinks(roles) == KeepHeld(AllLinks, roles)
  {
    var a1, a2, a3 := AllLinks[1..], AllLinks[2..], AllLinks[3..];
    assert a1[1..] == a2 && a2[1..] == a3 && a3[1..] == [];
    assert KeepHeld(a3, roles) == (if roles.isStaff then [a3[0].0] else []);
    assert KeepHeld(a2, roles) == (if roles.isAttendee then [a2[0].0] else []) + KeepHeld(a3, roles);
    assert KeepHeld(a1, roles) == (if roles.isOrganizer then [a1[0].0] else []) + KeepHeld(a2, roles);
  }

  /** `navLinks.filter(link => link.public || isAuthenticated)`. */
  function ShownLinks(roles: Roles, authenticated: bool): (r: seq<NavLink>)
    ensures forall l :: l in r <==> l in NavLinks(roles) && (l.isPublic || authenticated)
  {
    Shown(NavLinks(roles), authenticated)
  }

  function Shown(links: seq<NavLink>, authenticated: bool): (r: seq<NavLink>)
    ensures forall l :: l in r <==> l in links && (l.isPublic || authenticated)
    ensures |r| <= |links|
  {
    if |links| == 0 then []
    else
      assert forall l :: l in links <==> l == links[0] || l in links[1..];
      var rest := Shown(links[1..], authenticated);
      if links[0].isPublic || authenticated then [links[0]] + rest else rest
  }

  /** Signed out, only Discover shows; signed in, every link shows. */
  lemma ShownBySignIn(roles: Roles)
    ensures ShownLinks(roles, false) == [Discover]
    ensures ShownLinks(roles, true) == NavLinks(roles)
  {
    ShownAll(NavLinks(roles));
    var all := NavLinks(roles);
    assert all == [Discover] + all[1..];
    assert forall l :: l in all[1..] ==> !l.isPublic;
    ShownNone(all[1..]);
  }

  lemma {:induction false} ShownAll(links: seq<NavLink>)
    ensures Shown(links, true) == links
  {
    if |links| > 0 {
      ShownAll(links[1..]);
    }
  }

  lemma {:induction false} ShownNone(links: seq<NavLink>)
    requires forall l :: l in links ==> !l.isPublic
    ensures Shown(links, false) == []
  {
    if |links| > 0 {
      assert links[0] in links;
      ShownNone(links[1..]);
    }
  }

  /** `location.pathname === link.to`. */
  predicate IsActive(pathname: string, link: NavLink)
    requires Static(link.to)
  {
    pathname == Href(PathOf(link.to))
  }

  /** Each link of the bar is Discover or the link of a role held. */
  lemma NavLinkCases(roles: Roles, l: NavLink)
    requires l in NavLinks(roles)
    ensures l == Discover
      || (l == NavLink(MyEvents, "My Events", false) && roles.isOrganizer)
      || (l == NavLink(MyTickets, "My Tickets", false) && roles.isAttendee)
      || (l == NavLink(ValidateQr, "Validate", false) && roles.isStaff)
  {
  }

  /** At most one shown link is highlighted, since distinct links name
      distinct paths. */
  lemma OneActive(roles: Roles, authenticated: bool, pathname: string, a: NavLink, b: NavLink)
    requires a in ShownLinks(roles, authenticated) && b in ShownLinks(roles, authenticated)
    requires IsActive(pathname, a) && IsActive(pathname, b)
    ensures a == b
  {
    PathResolves(a.to);
    PathResolves(b.to);
    assert PathOf(a.to) == PathOf(b.to);
    assert a.to == b.to;
    NavLinkCases(roles, a);
    NavLinkCases(roles, b);
  }

  /** A shown link never leads a signed-in user to a page that turns them
      away. */
  lemma ShownLinksAdmitted(s: Session, link: NavLink, location: string, store: Store)
    requires Settled(s) && s.authenticated && link in ShownLinks(s.roles, true)
    ensures Enter(link.to, s, location, store) == (Render(link.to), store)
  {
    NavLinkCases(s.roles, link);
    if link != Discover {
      LinkRoleAdmits(s, link, location, store);
    }
  }

  /** A role's own link opens for a settled user holding that role. */
  lemma LinkRoleAdmits(s: Session, link: NavLink, location: string, store: Store)
    requires Settled(s) && s.authenticated
    requires (link.to == MyEvents && s.roles.isOrganizer) || (link.to == MyTickets && s.roles.isAttendee)
      || (link.to == ValidateQr && s.roles.isStaff)
    ensures Enter(link.to, s, location, store) == (Render(link.to), store)
  {
    var role := if link.to == MyEvents then Organizer else if link.to == MyTickets then Attendee else Staff;
    GuardAdmits(link.to, role, s, location, store);
  }

  /** A page guarded by one role opens for a settled user holding it. */
  lemma GuardAdmits(p: Page, role: Role, s: Session, location: string, store: Store)
    requires Settled(s) && s.authenticated
    requires GuardOf(p) == RequireRoles([role]) && Holds(s.roles, role)
    ensures Enter(p, s, location, store) == (Render(p), store)
  {
    Admission(p, s, location, store);
    assert GuardOf(p).allowed[0] == role;
  }

  /** The Dashboard button shows iff signed in. */
  predicate ShowsDashboardLink(authenticated: bool) {
    authenticated
  }

  /** Whenever the Dashboard button shows, following it passes the
      Dashboard's guard once the session has settled. */
  lemma DashboardLinkAdmitted(s: Session, location: string, store: Store)
    requires !s.authLoading
    ensures ShowsDashboardLink(s.authenticated) <==> Enter(Dashboard, s, location, store) == (Render(Dashboard), store)
  {
  }
}
