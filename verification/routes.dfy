/** The browser router (frontend/src/main.tsx) and its two guards
    (`RoleProtectedRoute`, `ProtectedRoute`), together with the pages that
    finish a redirect: the OIDC callback, which consumes the `redirectPath`
    a guard saved, and the dashboard page, which forwards by role. Hooks
    become inputs: `useAuth` and `useRoles` are a `Session`, `localStorage`
    is a `Store`. */
module Routes {
  import opened Wrappers
  import opened Strings

  datatype Role = Organizer | Attendee | Staff

  /** What `useRoles` reports once loaded. */
  datatype Roles = Roles(isOrganizer: bool, isAttendee: bool, isStaff: bool)

  predicate Holds(roles: Roles, role: Role) {
    match role
    case Organizer => roles.isOrganizer
    case Attendee => roles.isAttendee
    case Staff => roles.isStaff
  }

  predicate AnyRole(roles: Roles) {
    roles.isOrganizer || roles.isAttendee || roles.isStaff
  }

  /** What a route puts around its page: nothing, `ProtectedRoute`, or
      `RoleProtectedRoute` with its `allowedRoles`. */
  datatype Guard = Public | SignedIn | RequireRoles(allowed: seq<Role>)

  /** Text that can stand between two slashes of a pathname. */
  type PathText = s: string | s != "" && '/' !in s witness "a"

  /** The literal texts of the route paths. */
  const CallbackText: PathText := "callback"
  const LoginText: PathText := "login"
  const AboutText: PathText := "about"
  const HelpText: PathText := "help"
  const ContactText: PathText := "contact"
  const TermsText: PathText := "terms"
  const PrivacyText: PathText := "privacy"
  const EventsText: PathText := "events"
  const PurchaseText: PathText := "purchase"
  const OrganizersText: PathText := "organizers"
  const DashboardText: PathText := "dashboard"
  const TicketsText: PathText := "tickets"
  const ValidateQrText: PathText := "validate-qr"
  const CreateText: PathText := "create"
  const UpdateText: PathText := "update"

  /** One piece of a route path: literal text, or a `:name` parameter. */
  datatype Segment = Fixed(text: PathText) | Param(name: string)

  /** The routes of the router, one per entry. */
  datatype Page =
    | Landing | AuthCallback | Login | About | HelpCenter | Contact | Terms | Privacy
    | AllEvents | PublishedEvent | PurchaseTickets | OrganizersLanding
    | Dashboard | MyEvents | MyTickets | TicketDetails | ValidateQr | CreateEvent | UpdateEvent

  function Pattern(p: Page): seq<Segment> {
    match p
    case Landing => []
    case AuthCallback => [Fixed(CallbackText)]
    case Login => [Fixed(LoginText)]
    case About => [Fixed(AboutText)]
    case HelpCenter => [Fixed(HelpText)]
    case Contact => [Fixed(ContactText)]
    case Terms => [Fixed(TermsText)]
    case Privacy => [Fixed(PrivacyText)]
    case AllEvents => [Fixed(EventsText)]
    case PublishedEvent => [Fixed(EventsText), Param("id")]
    case PurchaseTickets => [Fixed(EventsText), Param("eventId"), Fixed(PurchaseText), Param("ticketTypeId")]
    case OrganizersLanding => [Fixed(OrganizersText)]
    case Dashboard => [Fixed(DashboardText)]
    case MyEvents => [Fixed(DashboardText), Fixed(EventsText)]
    case MyTickets => [Fixed(DashboardText), Fixed(TicketsText)]
    case TicketDetails => [Fixed(DashboardText), Fixed(TicketsText), Param("id")]
    case ValidateQr => [Fixed(DashboardText), Fixed(ValidateQrText)]
    case CreateEvent => [Fixed(DashboardText), Fixed(EventsText), Fixed(CreateText)]
    case UpdateEvent => [Fixed(DashboardText), Fixed(EventsText), Fixed(UpdateText), Param("id")]
  }

  function GuardOf(p: Page): Guard {
    match p
    case PurchaseTickets => RequireRoles([Attendee])
    case Dashboard => SignedIn
    case MyEvents => RequireRoles([Organizer])
    case MyTickets => RequireRoles([Attendee])
    case TicketDetails => RequireRoles([Attendee])
    case ValidateQr => RequireRoles([Staff])
    case CreateEvent => RequireRoles([Organizer])
    case UpdateEvent => RequireRoles([Organizer])
    case _ => Public
  }

  /** The router's entries in declaration order. */
  const Router: seq<Page> := [
    Landing, AuthCallback, Login, About, HelpCenter, Contact, Terms, Privacy,
    AllEvents, PublishedEvent, PurchaseTickets, OrganizersLanding,
    Dashboard, MyEvents, MyTickets, TicketDetails, ValidateQr, CreateEvent, UpdateEvent]

  /** A parameter takes any text; a literal matches ignoring ASCII case, as
      the router does for routes without `caseSensitive`. */
  predicate SegmentMatches(s: Segment, text: string) {
    s.Param? || Lower(s.text) == Lower(text)
  }

  /** A path matches a pattern with as many segments, literal for literal. */
  predicate Matches(pattern: seq<Segment>, segs: seq<string>) {
    |pattern| == |segs| && forall i :: 0 <= i < |segs| ==> SegmentMatches(pattern[i], segs[i])
  }

  /** The first entry of `table` whose pattern the path matches. */
  function Resolve(table: seq<Page>, segs: seq<string>): (r: Option<Page>)
    ensures r.Some? ==> r.value in table && Matches(Pattern(r.value), segs)
    ensures r.None? <==> forall p :: p in table ==> !Matches(Pattern(p), segs)
  {
    if |table| == 0 then None
    else if Matches(Pattern(table[0]), segs) then Some(table[0])
    else
      assert forall p :: p in table <==> p == table[0] || p in table[1..];
      Resolve(table[1..], segs)
  }

  /** Texts equal up to ASCII case have the same length and first letter
      up to case. */
  lemma SameFold(a: string, b: string)
    requires Lower(a) == Lower(b)
    ensures |a| == |b| && (|a| > 0 ==> LowerChar(a[0]) == LowerChar(b[0]))
  {
    if |a| > 0 {
      assert Lower(a)[0] == Lower(b)[0];
    }
  }

  /** No path matches two entries, so the router's ranking of routes never
      has to break a tie: any two literals at the same place in two
      patterns differ in length or in their first letter, whatever the case. */
  lemma Unambiguous(segs: seq<string>, p: Page, q: Page)
    requires Matches(Pattern(p), segs) && Matches(Pattern(q), segs)
    ensures p == q
  {
    if |segs| >= 1 {
      SameLiteralAt(segs, Pattern(p), Pattern(q), 0);
    }
    if |segs| >= 2 {
      SameLiteralAt(segs, Pattern(p), Pattern(q), 1);
    }
    if |segs| >= 3 {
      SameLiteralAt(segs, Pattern(p), Pattern(q), 2);
    }
  }

  /** Two literals that match the same text agree in length and first letter. */
  lemma SameLiteralAt(segs: seq<string>, pp: seq<Segment>, qq: seq<Segment>, i: nat)
    requires Matches(pp, segs) && Matches(qq, segs) && i < |segs|
    ensures pp[i].Fixed? && qq[i].Fixed? ==>
      |pp[i].text| == |qq[i].text| && LowerChar(pp[i].text[0]) == LowerChar(qq[i].text[0])
  {
    if pp[i].Fixed? && qq[i].Fixed? {
      assert SegmentMatches(pp[i], segs[i]) && SegmentMatches(qq[i], segs[i]);
      SameFold(pp[i].text, qq[i].text);
    }
  }

  lemma {:induction false} ResolveUnique(table: seq<Page>, segs: seq<string>, p: Page)
    requires p in table && Matches(Pattern(p), segs)
    requires forall q :: Matches(Pattern(q), segs) ==> q == p
    ensures Resolve(table, segs) == Some(p)
  {
    if table[0] != p {
      ResolveUnique(table[1..], segs, p);
    }
  }

  /** A path reaches exactly the entry whose pattern it matches. */
  lemma RouterResolves(segs: seq<string>, p: Page)
    ensures Resolve(Router, segs) == Some(p) <==> Matches(Pattern(p), segs)
  {
    if Matches(Pattern(p), segs) {
      assert p in Router by {
        match p
        case Landing => assert Router[0] == p;
        case AuthCallback => assert Router[1] == p;
        case Login => assert Router[2] == p;
        case About => assert Router[3] == p;
        case HelpCenter => assert Router[4] == p;
        case Contact => assert Router[5] == p;
        case Terms => assert Router[6] == p;
        case Privacy => assert Router[7] == p;
        case AllEvents => assert Router[8] == p;
        case PublishedEvent => assert Router[9] == p;
        case PurchaseTickets => assert Router[10] == p;
        case OrganizersLanding => assert Router[11] == p;
        case Dashboard => assert Router[12] == p;
        case MyEvents => assert Router[13] == p;
        case MyTickets => assert Router[14] == p;
        case TicketDetails => assert Router[15] == p;
        case ValidateQr => assert Router[16] == p;
        case CreateEvent => assert Router[17] == p;
        case UpdateEvent => assert Router[18] == p;
      }
      forall q | Matches(Pattern(q), segs) ensures q == p {
        Unambiguous(segs, p, q);
      }
      ResolveUnique(Router, segs, p);
    }
  }

  /** Paths that differ only in the case of their letters reach the same
      entry, or none alike. */
  lemma {:induction false} ResolveIgnoresCase(table: seq<Page>, segs: seq<string>, other: seq<string>)
    requires |segs| == |other|
    requires forall i :: 0 <= i < |segs| ==> Lower(segs[i]) == Lower(other[i])
    ensures Resolve(table, segs) == Resolve(table, other)
  {
    if |table| > 0 {
      assert Matches(Pattern(table[0]), segs) == Matches(Pattern(table[0]), other);
      ResolveIgnoresCase(table[1..], segs, other);
    }
  }

  /** The pieces of a pathname between slashes, empty pieces ignored. */
  function Segments(pathname: string): seq<string> {
    NonEmpty(Split(pathname, '/'))
  }

  function NonEmpty(pieces: seq<string>): (r: seq<string>)
    ensures forall s :: s in r <==> s in pieces && s != ""
  {
    if |pieces| == 0 then []
    else
      assert forall s :: s in pieces <==> s == pieces[0] || s in pieces[1..];
      if pieces[0] == "" then NonEmpty(pieces[1..]) else [pieces[0]] + NonEmpty(pieces[1..])
  }

  /** Segments that can stand in a pathname: non-empty, without a slash. */
  predicate Clean(segs: seq<string>) {
    forall i :: 0 <= i < |segs| ==> segs[i] != "" && '/' !in segs[i]
  }

  /** `"/" + segs.join("/")`. */
  function Href(segs: seq<string>): (r: string)
    ensures |r| > 0 && r[0] == '/'
  {
    if |segs| == 0 then "/" else SlashEach(segs)
  }

  function SlashEach(segs: seq<string>): string {
    if |segs| == 0 then "" else "/" + segs[0] + SlashEach(segs[1..])
  }

  lemma {:induction false} SplitSlashEach(x: string, segs: seq<string>)
    requires '/' !in x && Clean(segs)
    ensures Split(x + SlashEach(segs), '/') == [x] + segs
    decreases |segs|
  {
    if |segs| == 0 {
      assert x + SlashEach(segs) == x;
    } else {
      var tail := segs[1..];
      var b := segs[0] + SlashEach(tail);
      assert SlashEach(segs) == "/" + segs[0] + SlashEach(tail);
      assert x + SlashEach(segs) == x + ['/'] + b;
      SplitAt(x, '/', b);
      assert Clean(tail) by {
        forall i | 0 <= i < |tail| ensures tail[i] != "" && '/' !in tail[i] {
          assert tail[i] == segs[i + 1];
        }
      }
      assert '/' !in segs[0];
      SplitSlashEach(segs[0], tail);
      assert segs == [segs[0]] + tail;
    }
  }

  lemma {:induction false} NonEmptyClean(segs: seq<string>)
    requires Clean(segs)
    ensures NonEmpty(segs) == segs
  {
    if |segs| > 0 {
      NonEmptyClean(segs[1..]);
    }
  }

  /** Reading a built link back gives its segments. */
  lemma SegmentsOfHref(segs: seq<string>)
    requires Clean(segs)
    ensures Segments(Href(segs)) == segs
  {
    if |segs| == 0 {
      SplitAt("", '/', "");
      assert "" + ['/'] + "" == "/";
      assert Split("", '/') == [""];
      assert NonEmpty(["", ""]) == [];
    } else {
      SplitSlashEach("", segs);
      assert "" + SlashEach(segs) == SlashEach(segs);
      NonEmptyClean(segs);
    }
  }


  /** A page whose pattern has no parameter. */
  predicate Static(p: Page) {
    forall s :: s in Pattern(p) ==> s.Fixed?
  }

  function Texts(pattern: seq<Segment>): (r: seq<PathText>)
    requires forall s :: s in pattern ==> s.Fixed?
    ensures |r| == |pattern| && forall i :: 0 <= i < |r| ==> r[i] == pattern[i].text
  {
    if |pattern| == 0 then [] else [pattern[0].text] + Texts(pattern[1..])
  }

  /** The path a `<Navigate to=…>` names for a parameterless page. */
  function PathOf(p: Page): (r: seq<PathText>)
    requires Static(p)
    ensures Matches(Pattern(p), r)
  {
    Texts(Pattern(p))
  }

  /** Navigating to a parameterless page reaches it, and its link text
      reads back as its path. */
  lemma PathResolves(p: Page)
    requires Static(p)
    ensures Resolve(Router, PathOf(p)) == Some(p)
    ensures Segments(Href(PathOf(p))) == PathOf(p)
  {
    RouterResolves(PathOf(p), p);
    SegmentsOfHref(PathOf(p));
  }

  /** The concrete paths of the guarded entries. */
  lemma GuardedPaths(id: string, eventId: string, ticketTypeId: string)
    ensures Matches(Pattern(Dashboard), ["dashboard"])
    ensures Matches(Pattern(MyEvents), ["dashboard", "events"])
    ensures Matches(Pattern(CreateEvent), ["dashboard", "events", "create"])
    ensures Matches(Pattern(UpdateEvent), ["dashboard", "events", "update", id])
    ensures Matches(Pattern(MyTickets), ["dashboard", "tickets"])
    ensures Matches(Pattern(TicketDetails), ["dashboard", "tickets", id])
    ensures Matches(Pattern(PurchaseTickets), ["events", eventId, "purchase", ticketTypeId])
    ensures Matches(Pattern(ValidateQr), ["dashboard", "validate-qr"])
  {
    OrganizerPaths(id);
    AttendeePaths(id, eventId, ticketTypeId);
    assert Pattern(ValidateQr) == [Fixed(DashboardText), Fixed(ValidateQrText)];
    Literal2(ValidateQr, "dashboard", "validate-qr");
  }

  lemma OrganizerPaths(id: string)
    ensures Matches(Pattern(Dashboard), ["dashboard"])
    ensures Matches(Pattern(MyEvents), ["dashboard", "events"])
    ensures Matches(Pattern(CreateEvent), ["dashboard", "events", "create"])
    ensures Matches(Pattern(UpdateEvent), ["dashboard", "events", "update", id])
  {
    assert Pattern(Dashboard) == [Fixed(DashboardText)];
    Literal1(Dashboard, "dashboard");
    assert Pattern(MyEvents) == [Fixed(DashboardText), Fixed(EventsText)];
    Literal2(MyEvents, "dashboard", "events");
    assert Pattern(CreateEvent) == [Fixed(DashboardText), Fixed(EventsText), Fixed(CreateText)];
    Literal3(CreateEvent, "dashboard", "events", "create");
    assert Pattern(UpdateEvent) == [Fixed(DashboardText), Fixed(EventsText), Fixed(UpdateText), Param("id")];
    Literal4(UpdateEvent, "dashboard", "events", "update", id);
  }

  lemma AttendeePaths(id: string, eventId: string, ticketTypeId: string)
    ensures Matches(Pattern(MyTickets), ["dashboard", "tickets"])
    ensures Matches(Pattern(TicketDetails), ["dashboard", "tickets", id])
    ensures Matches(Pattern(PurchaseTickets), ["events", eventId, "purchase", ticketTypeId])
  {
    assert Pattern(MyTickets) == [Fixed(DashboardText), Fixed(TicketsText)];
    Literal2(MyTickets, "dashboard", "tickets");
    assert Pattern(TicketDetails) == [Fixed(DashboardText), Fixed(TicketsText), Param("id")];
    Literal3(TicketDetails, "dashboard", "tickets", id);
    assert Pattern(PurchaseTickets) == [Fixed(EventsText), Param("eventId"), Fixed(PurchaseText), Param("ticketTypeId")];
    Literal4(PurchaseTickets, "events", eventId, "purchase", ticketTypeId);
  }

  /** A pattern matches the texts it is written with, parameters aside. */
  predicate Spells(s: Segment, text: string) {
    s.Param? || s.text == text
  }

  lemma Literal1(p: Page, a: string)
    requires |Pattern(p)| == 1 && Spells(Pattern(p)[0], a)
    ensures Matches(Pattern(p), [a])
  {
  }

  lemma Literal2(p: Page, a: string, b: string)
    requires |Pattern(p)| == 2 && Spells(Pattern(p)[0], a) && Spells(Pattern(p)[1], b)
    ensures Matches(Pattern(p), [a, b])
  {
  }

  lemma Literal3(p: Page, a: string, b: string, c: string)
    requires |Pattern(p)| == 3 && Spells(Pattern(p)[0], a) && Spells(Pattern(p)[1], b) && Spells(Pattern(p)[2], c)
    ensures Matches(Pattern(p), [a, b, c])
  {
  }

  lemma Literal4(p: Page, a: string, b: string, c: string, d: string)
    requires |Pattern(p)| == 4 && Spells(Pattern(p)[0], a) && Spells(Pattern(p)[1], b)
      && Spells(Pattern(p)[2], c) && Spells(Pattern(p)[3], d)
    ensures Matches(Pattern(p), [a, b, c, d])
  {
  }

  /** Which entries need which role: exactly three need ORGANIZER, three
      ATTENDEE, one STAFF, one only a sign-in, and every other is public. */
  lemma RoleRequirements(p: Page)
    ensures GuardOf(p) == RequireRoles([Organizer]) <==> p in {MyEvents, CreateEvent, UpdateEvent}
    ensures GuardOf(p) == RequireRoles([Attendee]) <==> p in {MyTickets, TicketDetails, PurchaseTickets}
    ensures GuardOf(p) == RequireRoles([Staff]) <==> p == ValidateQr
    ensures GuardOf(p) == SignedIn <==> p == Dashboard
    ensures GuardOf(p).RequireRoles? ==> |GuardOf(p).allowed| == 1
    ensures GuardOf(p) == Public <==> p in {Landing, AuthCallback, Login, About, HelpCenter, Contact, Terms,
                                             Privacy, AllEvents, PublishedEvent, OrganizersLanding}
  {
  }

  // ----- guards -----

  /** `localStorage`, as far as these pages use it. */
  type Store = map<string, string>

  const RedirectKey: string := "redirectPath"

  /** What a guarded route shows: the loader, a `<Navigate replace>` to a
      parameterless page, or its own page. `NoRoute` is a path no entry
      matches. */
  datatype Outcome = Loader | Redirect(to: Page) | Render(page: Page) | NoRoute

  /** What `useAuth` and `useRoles` report. */
  datatype Session = Session(authLoading: bool, rolesLoading: bool, authenticated: bool, roles: Roles)

  predicate Settled(s: Session) {
    !s.authLoading && !s.rolesLoading
  }

  /** `allowedRoles.some(...)`. */
  function HasRequiredRole(allowed: seq<Role>, roles: Roles): (b: bool)
    ensures b <==> exists i :: 0 <= i < |allowed| && Holds(roles, allowed[i])
  {
    if |allowed| == 0 then false
    else
      assert forall i :: 1 <= i < |allowed| ==> allowed[i] == allowed[1..][i - 1];
      Holds(roles, allowed[0]) || HasRequiredRole(allowed[1..], roles)
  }

  /** Where a user without the required role is sent: their own
      dashboard, by the priority organizer, staff, attendee, else home. */
  function Fallback(roles: Roles): (p: Page)
    ensures Static(p)
  {
    if roles.isOrganizer then MyEvents
    else if roles.isStaff then ValidateQr
    else if roles.isAttendee then MyTickets
    else Landing
  }

  /** The fallback page admits the user it was chosen for. */
  lemma FallbackAdmits(roles: Roles)
    ensures Fallback(roles) == Landing <==> !AnyRole(roles)
    ensures GuardOf(Fallback(roles)).RequireRoles? ==> HasRequiredRole(GuardOf(Fallback(roles)).allowed, roles)
    ensures GuardOf(Fallback(roles)) != SignedIn
  {
  }

  /** `RoleProtectedRoute` around page `p`, visited at `location`
      (`pathname + search`). */
  function RoleProtectedRoute(p: Page, allowed: seq<Role>, s: Session, location: string, store: Store)
    : (r: (Outcome, Store))
    ensures !Settled(s) ==> r == (Loader, store)
    ensures Settled(s) && !s.authenticated ==> r == (Redirect(Login), store[RedirectKey := location])
    ensures Settled(s) && s.authenticated ==> r.1 == store
    ensures Settled(s) && s.authenticated ==>
      (r.0 == Render(p) <==> exists i :: 0 <= i < |allowed| && Holds(s.roles, allowed[i]))
    ensures Settled(s) && s.authenticated && r.0 != Render(p) ==> r.0 == Redirect(Fallback(s.roles))
  {
    if !Settled(s) then (Loader, store)
    else if !s.authenticated then (Redirect(Login), store[RedirectKey := location])
    else if HasRequiredRole(allowed, s.roles) then (Render(p), store)
    else (Redirect(Fallback(s.roles)), store)
  }

  /** `ProtectedRoute`: authentication only; it does not wait for roles. */
  function ProtectedRoute(p: Page, s: Session, location: string, store: Store): (r: (Outcome, Store))
    ensures s.authLoading ==> r == (Loader, store)
    ensures !s.authLoading && !s.authenticated ==> r == (Redirect(Login), store[RedirectKey := location])
    ensures !s.authLoading && s.authenticated ==> r == (Render(p), store)
  {
    if s.authLoading then (Loader, store)
    else if !s.authenticated then (Redirect(Login), store[RedirectKey := location])
    else (Render(p), store)
  }

  /** Entering a page through its entry's guard. */
  function Enter(p: Page, s: Session, location: string, store: Store): (r: (Outcome, Store))
    ensures r.0 != NoRoute
    ensures r.0.Render? ==> r.0.page == p && r.1 == store
    ensures r.1 != store ==> r.0 == Redirect(Login) && r.1 == store[RedirectKey := location]
  {
    match GuardOf(p)
    case Public => (Render(p), store)
    case SignedIn => ProtectedRoute(p, s, location, store)
    case RequireRoles(allowed) => RoleProtectedRoute(p, allowed, s, location, store)
  }

  /** A visit to the pathname with segments `segs`, with query `search`. */
  function Visit(segs: seq<string>, search: string, s: Session, store: Store): (r: (Outcome, Store))
    ensures Resolve(Router, segs).None? <==> r.0 == NoRoute
    ensures r.0.Render? ==> Matches(Pattern(r.0.page), segs)
  {
    match Resolve(Router, segs)
    case None => (NoRoute, store)
    case Some(p) => Enter(p, s, Href(segs) + search, store)
  }

  /** A settled, signed-in user gets a page iff its guard admits them;
      nothing is written to storage either way. */
  lemma Admission(p: Page, s: Session, location: string, store: Store)
    requires Settled(s) && s.authenticated
    ensures Enter(p, s, location, store).1 == store
    ensures Enter(p, s, location, store).0 == Render(p) <==>
      (GuardOf(p).RequireRoles? ==> HasRequiredRole(GuardOf(p).allowed, s.roles))
  {
  }

  /** While anything is loading a guarded entry shows the loader and
      neither redirects nor writes. */
  lemma LoadingNeverRedirects(p: Page, s: Session, location: string, store: Store)
    requires (GuardOf(p).RequireRoles? && !Settled(s)) || (GuardOf(p) == SignedIn && s.authLoading)
    ensures Enter(p, s, location, store) == (Loader, store)
  {
  }

  /** A denied user is redirected at most once: the fallback entry renders
      for the same session. */
  lemma FallbackNeverLoops(p: Page, s: Session, location: string, store: Store, search: string)
    requires Settled(s) && s.authenticated
    ensures var (o, st) := Enter(p, s, location, store);
      o.Redirect? ==>
        o.to == Fallback(s.roles) && st == store
        && Visit(PathOf(o.to), search, s, st) == (Render(o.to), st)
  {
    var (o, st) := Enter(p, s, location, store);
    Admission(p, s, location, store);
    if o.Redirect? {
      var target := Fallback(s.roles);
      assert GuardOf(p).RequireRoles?;
      assert o == Redirect(target);
      PathResolves(target);
      FallbackAdmits(s.roles);
      var loc := Href(PathOf(target)) + search;
      assert Visit(PathOf(target), search, s, st) == Enter(target, s, loc, st);
      Admission(target, s, loc, st);
    }
  }

  // ----- the pages that finish a redirect -----

  /** What `useAuth` reports on `/callback`. */
  datatype CallbackState = CallbackState(loading: bool, authenticated: bool, error: bool)

  /** A `navigate(...)` that pushes a history entry: to a page, or to the
      saved location text. */
  datatype Nav = ToPage(page: Page) | ToUrl(url: string)

  /** `CallbackPage`'s effect: wait, go to the saved path once, else home
      or back to sign-in. A saved empty string is falsy and left in place. */
  function CallbackRedirect(c: CallbackState, store: Store): (r: (Option<Nav>, Store))
    ensures c.loading ==> r == (None, store)
    ensures !c.loading && (c.error || !c.authenticated) ==> r == (Some(ToPage(Login)), store)
    ensures !c.loading && !c.error && c.authenticated && RedirectKey in store && store[RedirectKey] != "" ==>
      r == (Some(ToUrl(store[RedirectKey])), store - {RedirectKey})
    ensures !c.loading && !c.error && c.authenticated && (RedirectKey !in store || store[RedirectKey] == "") ==>
      r == (Some(ToPage(Landing)), store)
  {
    if c.loading then (None, store)
    else if c.error then (Some(ToPage(Login)), store)
    else if c.authenticated then
      if RedirectKey in store && store[RedirectKey] != "" then
        (Some(ToUrl(store[RedirectKey])), store - {RedirectKey})
      else (Some(ToPage(Landing)), store)
    else (Some(ToPage(Login)), store)
  }

  /** Sign-in returns to the guarded location: a visit that a guard sent
      to sign-in saved `pathname + search`, the callback goes there and
      drops the entry, and that pathname reads back as the same path. */
  lemma SaveThenReturn(segs: seq<PathText>, search: string, s: Session, store: Store, c: CallbackState)
    requires Settled(s) && !s.authenticated
    requires !c.loading && !c.error && c.authenticated
    ensures var (o, st) := Visit(segs, search, s, store);
      o == Redirect(Login) ==>
        CallbackRedirect(c, st) == (Some(ToUrl(Href(segs) + search)), st - {RedirectKey})
        && Segments(Href(segs)) == segs
  {
    SegmentsOfHref(segs);
  }

  /** The saved path is used at most once: a second callback goes home. */
  lemma ConsumedOnce(c: CallbackState, store: Store)
    requires !c.loading && !c.error && c.authenticated
    ensures var st := CallbackRedirect(c, store).1;
      CallbackRedirect(c, st) == (Some(ToPage(Landing)), st)
  {
  }

  /** `DashboardPage`: organizer, then staff, and everyone else to the
      ticket list, whether or not they are an attendee; always `replace`. */
  function DashboardRedirect(rolesLoading: bool, roles: Roles): (r: Option<Page>)
    ensures rolesLoading <==> r.None?
    ensures r.Some? ==> Static(r.value)
  {
    if rolesLoading then None
    else if roles.isOrganizer then Some(MyEvents)
    else if roles.isStaff then Some(ValidateQr)
    else Some(MyTickets)
  }

  /** The dashboard forwards to the page a denied guard would pick for a
      user with any role; a user with none lands on the ticket list, whose
      guard sends them home, where the landing page renders. (Each target
      is reached by its path: `PathResolves`.) */
  lemma DashboardSettles(s: Session, location: string, store: Store)
    requires Settled(s) && s.authenticated
    ensures AnyRole(s.roles) ==> DashboardRedirect(false, s.roles) == Some(Fallback(s.roles))
    ensures !AnyRole(s.roles) ==>
      DashboardRedirect(false, s.roles) == Some(MyTickets)
      && Enter(MyTickets, s, location, store) == (Redirect(Landing), store)
      && Enter(Landing, s, location, store) == (Render(Landing), store)
  {
  }
}
