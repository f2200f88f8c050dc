/**
 * The booking-confirmation page: it takes its booking details from the
 * navigation state the checkout page passed along, or sends the visitor
 * home when there is none, and shows a placeholder until details exist.
 */
module BookingSuccess {
  import opened Common
  import opened Checkout
  import Duration

  /** The page's state: the booking details, and the route it asked to go to, if any. */
  datatype PageState = PageState(details: Option<BookingConfirmation>, redirect: Option<string>)

  const Home: string := "/"

  /** Before the location effect: no details, no redirect. */
  const Initial: PageState := PageState(None, None)

  /** The location effect: present navigation state becomes the booking details unchanged; absent state redirects home. */
  function OnLocation(s: PageState, navigation: Option<BookingConfirmation>): (t: PageState)
    ensures navigation.Some? ==> t == s.(details := navigation)
    ensures navigation.None? ==> t == s.(redirect := Some(Home))
  {
    match navigation
    case Some(c) => s.(details := Some(c))
    case None => s.(redirect := Some(Home))
  }

  /** The "Loading your booking details..." placeholder. */
  predicate ShowsLoading(s: PageState) {
    s.details.None?
  }

  /** Arriving without navigation state redirects home and never leaves the placeholder. */
  lemma NoStateRedirectsHome()
    ensures OnLocation(Initial, None).redirect == Some(Home)
    ensures ShowsLoading(OnLocation(Initial, None))
  {
  }

  /** Arriving with navigation state shows the details, not the placeholder. */
  lemma StateShowsDetails(c: BookingConfirmation)
    ensures !ShowsLoading(OnLocation(Initial, Some(c)))
    ensures OnLocation(Initial, Some(c)).redirect.None?
  {
  }

  /**
   * Whatever booking the checkout page confirms is what this page shows:
   * the booking id in the verification body (absent if the body object had none), and the flight and passenger
   * captured when the checkout was submitted.
   */
  lemma ConfirmationArrivesUnchanged(s: CheckoutState, nowMs: int, bookingId: Option<string>)
    requires HandleCheckout(s, nowMs).Submitted?
    ensures var ctx := HandleCheckout(s, nowMs).context;
      var v := OnVerifyResponse(HandleCheckout(s, nowMs).state, ctx, VerifyOk(ObjectBody(bookingId)));
      && v.Navigate?
      && OnLocation(Initial, Some(v.confirmation)).details
         == Some(BookingConfirmation(bookingId, s.selected.value, s.passenger))
  {
  }

  /** The duration line, from the confirmed flight's departure and arrival. */
  function FlightDuration(c: BookingConfirmation): string {
    Duration.Calculate(c.flightDetails.departure.scheduled.epochMs, c.flightDetails.arrival.scheduled.epochMs)
  }

  /**
   * Both pages show the same duration for the same flight, and it is exact
   * to the minute when the arrival is not before the departure. The two
   * pages' `calculateDuration` functions are the same text apart from
   * semicolons, which is why one definition serves both; the first clause
   * follows from that shared definition, and the second carries the
   * checkout page's exactness over to this page.
   */
  lemma DurationMatchesCheckout(c: BookingConfirmation)
    ensures FlightDuration(c) == Checkout.FlightDuration(c.flightDetails)
    ensures var dep := c.flightDetails.departure.scheduled.epochMs;
      var arr := c.flightDetails.arrival.scheduled.epochMs;
      dep <= arr ==>
        && Duration.ParseFormatted(FlightDuration(c)).Some?
        && var d := Duration.ParseFormatted(FlightDuration(c)).value;
           && 0 <= d.minutes < 60
           && d.hours * 60 + d.minutes == (arr - dep) / Duration.MsPerMinute
  {
    var dep := c.flightDetails.departure.scheduled.epochMs;
    var arr := c.flightDetails.arrival.scheduled.epochMs;
    if dep <= arr {
      Duration.CalculateExactToMinute(dep, arr);
    }
  }
}
