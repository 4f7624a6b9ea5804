/** The attendee's ticket list: two independently paged lists (active and
    past), a tab choosing which one is on screen, and the summary cards
    (frontend/src/pages/dashboard-list-tickets.tsx). */
module TicketStats {
  import opened Wrappers
  import opened Domain

  /** The part of a `SpringBootPagination<TicketSummary>` the page reads:
      the row count over all pages and the statuses on this page. */
  datatype TicketPage = TicketPage(totalElements: nat, content: seq<TicketStatus>)

  datatype Tab = ActiveTab | PastTab

  /** The component's state: the two fetched pages (absent until loaded),
      the error, the loading flag, the two page numbers and the tab. */
  datatype ListState = ListState(
    active: Option<TicketPage>,
    past: Option<TicketPage>,
    error: Option<string>,
    loading: bool,
    activePage: nat,
    pastPage: nat,
    tab: Tab)

  /** The first render: nothing fetched, loading, first pages, "active" tab. */
  const Initial: ListState := ListState(None, None, None, true, 0, 0, ActiveTab)

  /** `content.filter(t => t.status === s).length`. */
  function CountStatus(content: seq<TicketStatus>, s: TicketStatus): (n: nat)
    ensures n <= |content|
    ensures n == 0 <==> forall i :: 0 <= i < |content| ==> content[i] != s
  {
    if |content| == 0 then 0
    else
      assert forall i :: 1 <= i < |content| ==> content[i] == content[1..][i - 1];
      (if content[0] == s then 1 else 0) + CountStatus(content[1..], s)
  }

  /** Two different statuses together never count more rows than there are. */
  lemma {:induction false} CountTwoStatuses(content: seq<TicketStatus>, s: TicketStatus, s': TicketStatus)
    requires s != s'
    ensures CountStatus(content, s) + CountStatus(content, s') <= |content|
  {
    if |content| > 0 {
      CountTwoStatuses(content[1..], s, s');
    }
  }

  datatype Stats = Stats(upcoming: nat, used: nat, expired: nat, total: nat)

  /** `totalActive`, `totalUsed`, `totalExpired` and the Total card. */
  function ComputeStats(st: ListState): (r: Stats)
    ensures st.active.None? ==> r.upcoming == 0
    ensures st.active.Some? ==> r.upcoming == st.active.value.totalElements
    ensures st.past.None? ==> r.used == 0 && r.expired == 0 && r.total == r.upcoming
    ensures st.past.Some? ==>
      r.used == CountStatus(st.past.value.content, Used)
      && r.expired == CountStatus(st.past.value.content, TicketExpired)
      && r.used + r.expired <= |st.past.value.content|
      && r.total == r.upcoming + st.past.value.totalElements
    ensures r.upcoming <= r.total
  {
    var totalActive := if st.active.Some? then st.active.value.totalElements else 0;
    match st.past
    case None => Stats(totalActive, 0, 0, totalActive)
    case Some(p) =>
      CountTwoStatuses(p.content, Used, TicketExpired);
      Stats(totalActive, CountStatus(p.content, Used), CountStatus(p.content, TicketExpired),
            totalActive + p.totalElements)
  }

  /** `!isLoading && (totalActive > 0 || totalPast > 0)`. */
  predicate ShowsStats(st: ListState) {
    var totalActive := if st.active.Some? then st.active.value.totalElements else 0;
    var totalPast := if st.past.Some? then st.past.value.totalElements else 0;
    !st.loading && (totalActive > 0 || totalPast > 0)
  }

  /** The cards show exactly when loading is over and the Total card would
      not read zero; nothing shows before both lists are in. */
  lemma StatsShownIff(st: ListState)
    ensures ShowsStats(st) <==> !st.loading && ComputeStats(st).total > 0
    ensures st.active.None? && st.past.None? ==> !ShowsStats(st)
  {
  }

  /** The list under a tab, and that tab's page number. */
  function ListOf(st: ListState, tab: Tab): Option<TicketPage> {
    if tab == ActiveTab then st.active else st.past
  }

  function PageOf(st: ListState, tab: Tab): nat {
    if tab == ActiveTab then st.activePage else st.pastPage
  }

  /** The `onPageChange` of the pager under a tab's list: the Upcoming
      pager is wired to `setActivePage`, the Past pager to `setPastPage`. */
  function PageChange(st: ListState, pager: Tab, n: nat): ListState {
    if pager == ActiveTab then st.(activePage := n) else st.(pastPage := n)
  }

  /** A tab's pager moves that tab's page and nothing else: the other
      tab's page, the selected tab and both lists stay as they were. */
  lemma PagerStaysOnTab(st: ListState, pager: Tab, n: nat)
    ensures PageOf(PageChange(st, pager, n), pager) == n
    ensures var other := if pager == ActiveTab then PastTab else ActiveTab;
      PageOf(PageChange(st, pager, n), other) == PageOf(st, other)
    ensures var st' := PageChange(st, pager, n);
      st'.tab == st.tab && st'.active == st.active && st'.past == st.past
      && st'.error == st.error && st'.loading == st.loading
    ensures PageChange(st, pager, PageOf(st, pager)) == st
  {
  }

  /** The effect's guard: nothing is fetched while auth is loading or
      without an access token. */
  predicate Fetches(authLoading: bool, accessToken: Option<string>) {
    !authLoading && accessToken.Some? && accessToken.value != ""
  }

  /** How the two parallel requests ended: both pages, or a throw carrying
      an `Error`'s message or some other value. */
  datatype FetchOutcome = Loaded(active: TicketPage, past: TicketPage) | Threw(message: Option<string>)

  /** The effect's body, guard included. */
  function RunFetch(st: ListState, authLoading: bool, accessToken: Option<string>, o: FetchOutcome): (r: ListState)
    ensures !Fetches(authLoading, accessToken) ==> r == st
    ensures Fetches(authLoading, accessToken) ==>
      !r.loading && r.activePage == st.activePage && r.pastPage == st.pastPage && r.tab == st.tab
    ensures Fetches(authLoading, accessToken) && o.Loaded? ==>
      r.active == Some(o.active) && r.past == Some(o.past) && r.error == st.error
    ensures Fetches(authLoading, accessToken) && o.Threw? ==>
      r.active == st.active && r.past == st.past && r.error.Some?
      && (o.message.Some? ==> r.error == o.message)
      && (o.message.None? ==> r.error.value == "An unknown error occurred")
  {
    if !Fetches(authLoading, accessToken) then st
    else
      match o
      case Loaded(a, p) => st.(active := Some(a), past := Some(p), loading := false)
      case Threw(m) =>
        var message := if m.Some? then m.value else "An unknown error occurred";
        st.(error := Some(message), loading := false)
  }

  /** What the page renders: the alert alone, or the list with or without
      the cards. */
  datatype View = ErrorAlert(message: string) | ListView(stats: Option<Stats>, current: Option<TicketPage>)

  /** `if (error)` is JavaScript truthiness: an empty message is no error. */
  function Render(st: ListState): (v: View)
    ensures v.ErrorAlert? <==> st.error.Some? && st.error.value != ""
    ensures v.ListView? ==> (v.stats.Some? <==> ShowsStats(st)) && v.current == ListOf(st, st.tab)
  {
    if st.error.Some? && st.error.value != "" then ErrorAlert(st.error.value)
    else ListView(if ShowsStats(st) then Some(ComputeStats(st)) else None, ListOf(st, st.tab))
  }

  /** A failed fetch shows the alert unless what was thrown is an `Error`
      with an empty message; a successful one after a clean start shows the
      list of the current tab. */
  lemma FetchThenRender(st: ListState, accessToken: string, o: FetchOutcome)
    requires accessToken != "" && st.error.None?
    ensures var v := Render(RunFetch(st, false, Some(accessToken), o));
      (o.Threw? ==> (v.ErrorAlert? <==> o.message != Some("")))
      && (o.Loaded? ==>
            v.ListView?
            && v.current == Some(if st.tab == ActiveTab then o.active else o.past)
            && (v.stats.Some? <==> o.active.totalElements > 0 || o.past.totalElements > 0))
  {
  }
}
