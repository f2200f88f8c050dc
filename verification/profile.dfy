/**
 * The profile dashboard: the authentication gate and the two fetches that
 * fill it, the error and loading views, the overview's statistics and
 * recent-bookings preview, and the tab bar. Fetch results arrive as
 * parameters; dates are left as the text the server sent.
 */
module Profile {
  import opened Common

  datatype UserProfile = UserProfile(id: string, name: string, email: string, mobile: string, createdAt: string, isVerified: bool)

  datatype FlightSummary = FlightSummary(
    flightNumber: string,
    departure: string,
    arrival: string,
    departureTime: string,
    arrivalTime: string)

  datatype Booking = Booking(id: string, bookingReference: string, status: string, createdAt: string, flightDetails: FlightSummary)

  /**
   * How a fetch ended: no stored token, a non-OK response, some other
   * exception (a rejected `fetch`, a body that does not decode) with the
   * message of the `Error` thrown or `None` when the thrown value is not an
   * `Error`, or the decoded body.
   */
  datatype FetchOutcome<T> = NoToken | NotOk | Threw(message: Option<string>) | Fetched(body: T)

  /** What the authentication effect starts. */
  datatype AuthEffect = AuthEffect(fetchProfile: bool, fetchBookings: bool, navigateTo: Option<string>)

  datatype ProfileState = ProfileState(
    profile: Option<UserProfile>,
    bookings: seq<Booking>,
    profileLoading: bool,
    bookingsLoading: bool,
    error: Option<string>,
    activeTab: string)

  datatype View = LoadingView | ErrorView(message: string) | MainView

  const Login: string := "/login"
  const NoTokenMessage: string := "No authentication token found"
  const ProfileFetchFailed: string := "Failed to fetch profile data"
  const UnknownError: string := "An error occurred"

  /** `err instanceof Error ? err.message : "An error occurred"` for each way the profile fetch can throw. */
  function ThrownMessage<T>(outcome: FetchOutcome<T>): (m: string)
    requires !outcome.Fetched?
    ensures outcome.NoToken? ==> m == NoTokenMessage
    ensures outcome.NotOk? ==> m == ProfileFetchFailed
    ensures outcome.Threw? ==> m == if outcome.message.Some? then outcome.message.value else UnknownError
  {
    match outcome
    case NoToken => NoTokenMessage
    case NotOk => ProfileFetchFailed
    case Threw(message) => if message.Some? then message.value else UnknownError
  }

  const Initial: ProfileState := ProfileState(None, [], true, true, None, "overview")

  /**
   * The two effects keyed on the authentication flags: once authentication
   * has settled, a signed-in visitor gets both fetches and anyone else is
   * sent to the login page; while it is still settling nothing happens.
   */
  function OnAuth(isAuthenticated: bool, isLoading: bool): (e: AuthEffect)
    ensures e.fetchProfile <==> isAuthenticated && !isLoading
    ensures e.fetchBookings <==> e.fetchProfile
    ensures e.navigateTo.Some? <==> !isAuthenticated && !isLoading
    ensures e.navigateTo.Some? ==> e.navigateTo.value == Login
    ensures !(e.fetchProfile && e.navigateTo.Some?)
  {
    if isAuthenticated && !isLoading then AuthEffect(true, true, None)
    else if !isLoading && !isAuthenticated then AuthEffect(false, false, Some(Login))
    else AuthEffect(false, false, None)
  }

  /** `fetchProfile`'s result: the profile, or the error that replaces the dashboard. */
  function OnProfileFetched(s: ProfileState, outcome: FetchOutcome<UserProfile>): (t: ProfileState)
    ensures !t.profileLoading
    ensures outcome.Fetched? ==> t.profile == Some(outcome.body) && t.error == s.error
    ensures outcome.NoToken? ==> t.error == Some(NoTokenMessage) && t.profile == s.profile
    ensures outcome.NotOk? ==> t.error == Some(ProfileFetchFailed) && t.profile == s.profile
    ensures outcome.Threw? && outcome.message.Some? ==> t.error == outcome.message && t.profile == s.profile
    ensures outcome.Threw? && outcome.message.None? ==> t.error == Some(UnknownError) && t.profile == s.profile
    ensures t.bookings == s.bookings && t.bookingsLoading == s.bookingsLoading && t.activeTab == s.activeTab
  {
    match outcome
    case Fetched(p) => s.(profile := Some(p), profileLoading := false)
    case _ => s.(error := Some(ThrownMessage(outcome)), profileLoading := false)
  }

  /** `fetchBookings`'s result: the bookings on success; a failure is only logged and never sets the error. */
  function OnBookingsFetched(s: ProfileState, outcome: FetchOutcome<seq<Booking>>): (t: ProfileState)
    ensures !t.bookingsLoading
    ensures t.error == s.error
    ensures t.bookings == if outcome.Fetched? then outcome.body else s.bookings
    ensures t.profile == s.profile && t.profileLoading == s.profileLoading && t.activeTab == s.activeTab
  {
    match outcome
    case Fetched(bs) => s.(bookings := bs, bookingsLoading := false)
    case _ => s.(bookingsLoading := false)
  }

  /** `if (error)`: an error shows only when it is set and not the empty (falsy) string. */
  predicate HasError(s: ProfileState) {
    s.error.Some? && s.error.value != ""
  }

  /** The page shown: the spinner while anything about the profile is loading, then the error, then the dashboard. */
  function PageView(s: ProfileState, isLoading: bool): (v: View)
    ensures v == LoadingView <==> isLoading || s.profileLoading
    ensures v.ErrorView? <==> !isLoading && !s.profileLoading && HasError(s)
    ensures v.ErrorView? ==> v.message == s.error.value
  {
    if isLoading || s.profileLoading then LoadingView
    else if HasError(s) then ErrorView(s.error.value)
    else MainView
  }

  /**
   * With authentication settled, the dashboard appears exactly when the
   * profile fetch succeeds or throws an error whose message is empty (an
   * empty message is falsy, so the error view is skipped), whichever way
   * the bookings fetch ends. Otherwise the error view shows the message.
   */
  lemma DashboardIffProfileFetched(p: FetchOutcome<UserProfile>, b: FetchOutcome<seq<Booking>>)
    ensures PageView(OnBookingsFetched(OnProfileFetched(Initial, p), b), false) == MainView
      <==> p.Fetched? || p == Threw(Some(""))
    ensures PageView(OnProfileFetched(OnBookingsFetched(Initial, b), p), false) == MainView
      <==> p.Fetched? || p == Threw(Some(""))
    ensures !p.Fetched? && p != Threw(Some("")) ==>
      PageView(OnBookingsFetched(OnProfileFetched(Initial, p), b), false) == ErrorView(ThrownMessage(p))
  {
  }

  /** The arrival codes of the bookings, collected one booking at a time (`new Set(bookings.map(...))`). */
  function Arrivals(bs: seq<Booking>): set<string>
    decreases |bs|
  {
    if |bs| == 0 then {} else Arrivals(bs[..|bs| - 1]) + {bs[|bs| - 1].flightDetails.arrival}
  }

  /** A code is among the arrivals exactly when some booking arrives there. */
  lemma {:induction false} ArrivalsMembers(bs: seq<Booking>, a: string)
    ensures a in Arrivals(bs) <==> exists i :: 0 <= i < |bs| && bs[i].flightDetails.arrival == a
    decreases |bs|
  {
    if |bs| > 0 {
      var init := bs[..|bs| - 1];
      ArrivalsMembers(init, a);
      if a in Arrivals(init) {
        var i :| 0 <= i < |init| && init[i].flightDetails.arrival == a;
        assert bs[i] == init[i];
      }
      if exists i :: 0 <= i < |bs| && bs[i].flightDetails.arrival == a {
        var i :| 0 <= i < |bs| && bs[i].flightDetails.arrival == a;
        if i < |bs| - 1 {
          assert init[i] == bs[i];
        }
      }
    }
  }

  /** There are never more destinations than bookings, and at least one when there is a booking. */
  lemma {:induction false} ArrivalsBounds(bs: seq<Booking>)
    ensures |Arrivals(bs)| <= |bs|
    ensures |bs| > 0 ==> |Arrivals(bs)| >= 1
    decreases |bs|
  {
    if |bs| > 0 {
      ArrivalsBounds(bs[..|bs| - 1]);
    }
  }

  /** The three statistic cards: flights booked, distinct destinations, and the fixed saved-trips count. */
  datatype Stats = Stats(flightsBooked: nat, destinations: nat, savedTrips: nat)

  function OverviewStats(bs: seq<Booking>): (st: Stats)
    ensures st.flightsBooked == |bs|
    ensures st.destinations <= st.flightsBooked
    ensures st.flightsBooked > 0 ==> st.destinations >= 1
    ensures forall a :: a in Arrivals(bs) <==> exists i :: 0 <= i < |bs| && bs[i].flightDetails.arrival == a
    ensures st.destinations == |Arrivals(bs)|
  {
    ArrivalsBounds(bs);
    forall a
      ensures a in Arrivals(bs) <==> exists i :: 0 <= i < |bs| && bs[i].flightDetails.arrival == a
    {
      ArrivalsMembers(bs, a);
    }
    Stats(|bs|, |Arrivals(bs)|, 3)
  }

  /** How many bookings the overview previews. */
  const PreviewSize: nat := 3

  /** `bookings.slice(0, 3)`: the first bookings, in their order. */
  function Preview(bs: seq<Booking>): (p: seq<Booking>)
    ensures |p| == Min(PreviewSize, |bs|)
    ensures forall i :: 0 <= i < |p| ==> p[i] == bs[i]
  {
    bs[..Min(PreviewSize, |bs|)]
  }

  /** The preview is the start of the list, and previewing it again changes nothing. */
  lemma PreviewIsPrefix(bs: seq<Booking>)
    ensures Preview(bs) + bs[|Preview(bs)|..] == bs
    ensures Preview(Preview(bs)) == Preview(bs)
    ensures |bs| <= PreviewSize ==> Preview(bs) == bs
  {
  }

  datatype Shade = Gray | White

  /** `index % 2 === 0 ? "bg-gray-50" : "bg-white"` for a preview row. */
  function RowShade(index: nat): Shade {
    if index % 2 == 0 then Gray else White
  }

  /** Rows alternate, starting gray. */
  lemma RowShadesAlternate(index: nat)
    ensures RowShade(0) == Gray
    ensures RowShade(index) != RowShade(index + 1)
    ensures RowShade(index + 2) == RowShade(index)
  {
  }

  /** What the "Recent Bookings" card shows. */
  datatype RecentView = RecentSpinner | RecentRows(rows: seq<Booking>) | NoBookings

  function RecentBookings(s: ProfileState): (v: RecentView)
    ensures v.RecentRows? ==> 0 < |v.rows| <= PreviewSize && v.rows == Preview(s.bookings)
    ensures v == NoBookings <==> !s.bookingsLoading && |s.bookings| == 0
    ensures v == RecentSpinner <==> s.bookingsLoading
  {
    if s.bookingsLoading then RecentSpinner
    else if |s.bookings| > 0 then RecentRows(Preview(s.bookings))
    else NoBookings
  }

  datatype Tab = Overview | Bookings | Payments | Security

  /** The `id` of each entry of the tab bar. */
  function TabId(t: Tab): string {
    match t
    case Overview => "overview"
    case Bookings => "bookings"
    case Payments => "payments"
    case Security => "security"
  }

  /** A tab bar id names one tab only. */
  lemma TabIdInjective(t: Tab, u: Tab)
    requires TabId(t) == TabId(u)
    ensures t == u
  {
  }

  /** The clicks that change `activeTab`: a tab button, "View All" and "Manage". */
  datatype TabEvent = ClickTab(tab: Tab) | ViewAll | Manage

  function OnTabEvent(active: string, e: TabEvent): (next: string)
    ensures e.ClickTab? ==> next == TabId(e.tab)
    ensures e == ViewAll ==> next == TabId(Bookings)
    ensures e == Manage ==> next == TabId(Payments)
  {
    match e
    case ClickTab(t) => TabId(t)
    case ViewAll => "bookings"
    case Manage => "payments"
  }

  /** A panel renders when its tab is the active one. */
  predicate PanelRenders(active: string, t: Tab) {
    active == TabId(t)
  }

  function RenderedPanels(active: string): set<Tab> {
    set t: Tab | PanelRenders(active, t)
  }

  function Clicks(active: string, events: seq<TabEvent>): string
    decreases |events|
  {
    if |events| == 0 then active else Clicks(OnTabEvent(active, events[0]), events[1..])
  }

  /**
   * Starting from "overview", after any clicks the active tab is one of the
   * four, and exactly one panel renders: the active tab's.
   */
  lemma {:induction false} ExactlyOnePanel(active: string, events: seq<TabEvent>)
    requires exists t :: active == TabId(t)
    ensures exists t :: Clicks(active, events) == TabId(t) && RenderedPanels(Clicks(active, events)) == {t}
    decreases |events|
  {
    if |events| == 0 {
      var t :| active == TabId(t);
      forall u | PanelRenders(active, u)
        ensures u == t
      {
        TabIdInjective(t, u);
      }
      assert RenderedPanels(active) == {t};
    } else {
      var next := OnTabEvent(active, events[0]);
      assert next == TabId(match events[0] case ClickTab(t) => t case ViewAll => Bookings case Manage => Payments);
      ExactlyOnePanel(next, events[1..]);
    }
  }

  /** The initial tab is the overview, so the dashboard always shows exactly one panel. */
  lemma DashboardShowsOnePanel(events: seq<TabEvent>)
    ensures exists t :: RenderedPanels(Clicks(Initial.activeTab, events)) == {t}
  {
    assert Initial.activeTab == TabId(Overview);
    ExactlyOnePanel(Initial.activeTab, events);
  }
}
