/**
 * The checkout page: the selected flight read at load time, the passenger
 * form, the validation that guards the create-order request, the request
 * body itself, the price summary, and the state changes that follow the
 * server's and the payment widget's answers. Network calls, storage and
 * the payment widget are outside the model: their outcomes arrive as
 * parameters of the event functions below.
 */
module Checkout {
  import opened Common
  import opened Decimal
  import opened Text
  import Duration

  /** A scheduled instant: the text the flight search returned and the epoch milliseconds it denotes. */
  datatype Scheduled = Scheduled(text: string, epochMs: int)

  datatype Endpoint = Endpoint(airport: string, scheduled: Scheduled)

  /** The selected flight as stored by the search page (`Flight`, with an integer rupee price). */
  datatype Flight = Flight(iata: string, departure: Endpoint, arrival: Endpoint, price: int)

  datatype Passenger = Passenger(name: string, email: string, phone: string)

  /** The `name` attribute of each passenger input. */
  datatype PassengerField = Name | Email | Phone

  /** The `flightDetails` part of the create-order body. */
  datatype FlightDetails = FlightDetails(
    flightNumber: string,
    departure: string,
    arrival: string,
    departureTime: string,
    arrivalTime: string)

  /** The body posted to the create-order endpoint. */
  datatype CreateOrderRequest = CreateOrderRequest(
    amount: int,
    currency: string,
    receipt: string,
    flightDetails: FlightDetails,
    passengerDetails: Passenger)

  /** The component state the checkout logic reads and writes. */
  datatype CheckoutState = CheckoutState(
    selected: Option<Flight>,
    passenger: Passenger,
    error: Option<string>,
    processing: bool)

  /** What the payment callback closes over: the flight and passenger at the time of checkout. */
  datatype PaymentContext = PaymentContext(flight: Flight, passenger: Passenger)

  /**
   * The navigation state handed to the booking-confirmation page. The id is
   * whatever the verification body's `bookingId` held, possibly nothing.
   */
  datatype BookingConfirmation = BookingConfirmation(bookingId: Option<string>, flightDetails: Flight, passengerDetails: Passenger)

  /**
   * The decoded body of an OK verify-payment answer: JSON `null`, an object
   * (whose `bookingId` may be missing), or any other JSON value, on which
   * reading `bookingId` gives `undefined`.
   */
  datatype VerifyBody = NullBody | ObjectBody(bookingId: Option<string>) | OtherBody

  /** How the verify-payment call ended: a failure (non-OK status, network or decoding error), or an OK decoded body. */
  datatype VerifyOutcome = VerifyNotOk | VerifyOk(body: VerifyBody)

  /** The outcome of submitting the form. */
  datatype CheckoutStep =
    | Rejected(state: CheckoutState)
    | Submitted(state: CheckoutState, request: CreateOrderRequest, context: PaymentContext)

  /** The outcome of the payment-verification answer. */
  datatype VerifyStep =
    | Navigate(route: string, confirmation: BookingConfirmation)
    | VerifyFailed(state: CheckoutState)

  const NoFlightOnLoad: string := "No flight selected. Please select a flight first."
  const NoFlightSelected: string := "No flight selected"
  const IncompletePassenger: string := "Please fill in all passenger details"
  const PaymentFailed: string := "Failed to process payment. Please try again."
  const VerificationFailed: string := "Payment verification failed. Please contact support."
  const Currency: string := "INR"
  const ReceiptPrefix: string := "flight-"
  /** The fixed "Taxes & fees" line of the price summary, in rupees. */
  const TaxesAndFees: int := 1200

  const EmptyPassenger: Passenger := Passenger("", "", "")

  /** The state before the load effect has run. */
  const Initial: CheckoutState := CheckoutState(None, EmptyPassenger, None, false)

  /**
   * What the load effect finds under "selectedFlight": no entry (or the
   * falsy empty string), text that decodes to a falsy JSON value (`null`,
   * `false`, `0` or `""`), or text that decodes to a flight.
   */
  datatype Stored = NoEntry | ParsedFalsy | ParsedFlight(flight: Flight)

  /**
   * The load effect: a decoded flight becomes the selection; no entry sets
   * the "no flight" error; a falsy decoded value sets neither.
   */
  function Load(stored: Stored): (s: CheckoutState)
    ensures s.selected.Some? <==> stored.ParsedFlight?
    ensures stored.ParsedFlight? ==> s.selected == Some(stored.flight)
    ensures s.error.Some? <==> stored.NoEntry?
    ensures stored.NoEntry? ==> s.error == Some(NoFlightOnLoad)
    ensures s.passenger == EmptyPassenger && !s.processing
  {
    match stored
    case ParsedFlight(f) => CheckoutState(Some(f), EmptyPassenger, None, false)
    case ParsedFalsy => CheckoutState(None, EmptyPassenger, None, false)
    case NoEntry => CheckoutState(None, EmptyPassenger, Some(NoFlightOnLoad), false)
  }

  /** The loading placeholder shows while there is neither a flight nor an error. */
  predicate ShowsLoading(s: CheckoutState) {
    s.selected.None? && s.error.None?
  }

  /**
   * The placeholder shows before the load effect; after it, only when the
   * stored text decoded to a falsy value. The form is not rendered then,
   * so nothing later clears it.
   */
  lemma LoadingAfterLoadIffFalsy(stored: Stored)
    ensures ShowsLoading(Initial)
    ensures ShowsLoading(Load(stored)) <==> stored.ParsedFalsy?
  {
  }

  /** The value of one passenger field. */
  function Get(p: Passenger, field: PassengerField): string {
    match field
    case Name => p.name
    case Email => p.email
    case Phone => p.phone
  }

  /** `handleInputChange`: `{...prev, [name]: value}` for the input named `field`. */
  function HandleInputChange(p: Passenger, field: PassengerField, value: string): (q: Passenger)
    ensures Get(q, field) == value
    ensures forall g :: g != field ==> Get(q, g) == Get(p, g)
  {
    match field
    case Name => p.(name := value)
    case Email => p.(email := value)
    case Phone => p.(phone := value)
  }

  /** Writing back the value a field already holds changes nothing. */
  lemma InputChangeOfSameValue(p: Passenger, field: PassengerField)
    ensures HandleInputChange(p, field, Get(p, field)) == p
  {
  }

  /** A later edit of the same field overrides an earlier one. */
  lemma InputChangeOverrides(p: Passenger, field: PassengerField, v: string, w: string)
    ensures HandleInputChange(HandleInputChange(p, field, v), field, w) == HandleInputChange(p, field, w)
  {
  }

  /** The form is complete when no passenger field is the empty (falsy) string. */
  predicate Complete(p: Passenger) {
    forall field :: Get(p, field) != ""
  }

  /** `price * 100`: the rupee price in paise. */
  function AmountInPaise(price: int): (amount: int)
    ensures amount % 100 == 0
    ensures amount / 100 == price
  {
    price * 100
  }

  /** `flight-${iata}-${Date.now()}`. */
  function Receipt(iata: string, nowMs: int): string {
    ReceiptPrefix + iata + "-" + IntToString(nowMs)
  }

  /** Reads a receipt back into the flight code and the timestamp it was made from. */
  function ParseReceipt(r: string): Option<(string, int)> {
    if |r| < |ReceiptPrefix| || r[..|ReceiptPrefix|] != ReceiptPrefix then None
    else
      var rest := r[|ReceiptPrefix|..];
      var k := LastIndexOf(rest, '-');
      if k < 0 then None
      else
        match ParseNat(rest[k + 1..])
        case None => None
        case Some(t) => Some((rest[..k], t as int))
  }

  /**
   * The receipt determines the flight code and the timestamp, whatever
   * characters the code holds: the timestamp (a clock reading, never
   * negative) has no '-' in it, so the last '-' separates the two.
   */
  lemma ParseReceiptOfReceipt(iata: string, nowMs: int)
    ensures nowMs >= 0 ==> ParseReceipt(Receipt(iata, nowMs)) == Some((iata, nowMs))
  {
    if nowMs < 0 {
      return;
    }
    var digits := NatToString(nowMs);
    var r := Receipt(iata, nowMs);
    assert r[..|ReceiptPrefix|] == ReceiptPrefix;
    var rest := r[|ReceiptPrefix|..];
    assert rest == iata + ['-'] + digits;
    LastIndexOfBeforeSuffix(iata, '-', digits);
    assert rest[|iata| + 1..] == digits;
    assert rest[..|iata|] == iata;
    ParseNatToString(nowMs);
  }

  /** The `flightDetails` of the request: the selected flight's fields copied one for one. */
  function DetailsOf(f: Flight): FlightDetails {
    FlightDetails(f.iata, f.departure.airport, f.arrival.airport, f.departure.scheduled.text, f.arrival.scheduled.text)
  }

  /** The create-order body built from the selected flight, the passenger and the clock. */
  function BuildRequest(f: Flight, p: Passenger, nowMs: int): (r: CreateOrderRequest)
    ensures r.amount / 100 == f.price && r.amount % 100 == 0
    ensures r.currency == Currency
    ensures r.passengerDetails == p
    ensures r.flightDetails.flightNumber == f.iata
    ensures r.flightDetails.departure == f.departure.airport && r.flightDetails.arrival == f.arrival.airport
    ensures r.flightDetails.departureTime == f.departure.scheduled.text
    ensures r.flightDetails.arrivalTime == f.arrival.scheduled.text
    ensures nowMs >= 0 ==> ParseReceipt(r.receipt) == Some((f.iata, nowMs))
  {
    ParseReceiptOfReceipt(f.iata, nowMs);
    CreateOrderRequest(AmountInPaise(f.price), Currency, Receipt(f.iata, nowMs), DetailsOf(f), p)
  }

  /**
   * `handleCheckout`. Without a selected flight, or with an empty passenger
   * field, it only sets the matching error and sends nothing; otherwise it
   * clears the error, marks the payment as processing and sends the
   * create-order request.
   */
  function HandleCheckout(s: CheckoutState, nowMs: int): (step: CheckoutStep)
    ensures step.Submitted? <==> s.selected.Some? && Complete(s.passenger)
    ensures s.selected.None? ==> step == Rejected(s.(error := Some(NoFlightSelected)))
    ensures s.selected.Some? && !Complete(s.passenger) ==> step == Rejected(s.(error := Some(IncompletePassenger)))
    ensures step.Submitted? ==>
      && step.state == s.(error := None, processing := true)
      && step.request == BuildRequest(s.selected.value, s.passenger, nowMs)
      && step.context == PaymentContext(s.selected.value, s.passenger)
  {
    if s.selected.None? then
      Rejected(s.(error := Some(NoFlightSelected)))
    else if s.passenger.name == "" || s.passenger.email == "" || s.passenger.phone == "" then
      assert !Complete(s.passenger) by {
        assert Get(s.passenger, Name) == "" || Get(s.passenger, Email) == "" || Get(s.passenger, Phone) == "";
      }
      Rejected(s.(error := Some(IncompletePassenger)))
    else
      var f := s.selected.value;
      Submitted(s.(error := None, processing := true), BuildRequest(f, s.passenger, nowMs), PaymentContext(f, s.passenger))
  }

  /** The create-order answer: a failure reports the error and re-enables the button; success opens the payment widget. */
  function OnCreateOrderResponse(s: CheckoutState, ok: bool): (t: CheckoutState)
    ensures ok ==> t == s
    ensures !ok ==> t.error == Some(PaymentFailed) && !t.processing
    ensures t.selected == s.selected && t.passenger == s.passenger
  {
    if ok then s else s.(error := Some(PaymentFailed), processing := false)
  }

  /** Closing the payment widget re-enables the button and changes nothing else. */
  function OnPaymentDismissed(s: CheckoutState): (t: CheckoutState)
    ensures !t.processing
    ensures t.(processing := s.processing) == s
  {
    s.(processing := false)
  }

  /** `verificationData.bookingId` for a body that is not `null`. */
  function BodyBookingId(body: VerifyBody): (id: Option<string>)
    requires !body.NullBody?
    ensures id.Some? ==> body.ObjectBody? && id == body.bookingId
    ensures body.ObjectBody? ==> id == body.bookingId
  {
    match body
    case ObjectBody(id) => id
    case OtherBody => None
  }

  /**
   * The verify-payment answer. An OK answer whose body is not `null` moves
   * to the confirmation page with the body's booking id (present or not)
   * and the flight and passenger captured at checkout. A failure, or a
   * `null` body (reading `bookingId` off it throws), reports the error and
   * re-enables the button.
   */
  function OnVerifyResponse(s: CheckoutState, ctx: PaymentContext, outcome: VerifyOutcome): (v: VerifyStep)
    ensures v.Navigate? <==> outcome.VerifyOk? && !outcome.body.NullBody?
    ensures v.Navigate? ==>
      && v.route == "/booking-success"
      && v.confirmation.bookingId == BodyBookingId(outcome.body)
      && v.confirmation.flightDetails == ctx.flight
      && v.confirmation.passengerDetails == ctx.passenger
    ensures v.VerifyFailed? ==> v.state == s.(error := Some(VerificationFailed), processing := false)
  {
    match outcome
    case VerifyOk(body) =>
      if body.NullBody? then VerifyFailed(s.(error := Some(VerificationFailed), processing := false))
      else Navigate("/booking-success", BookingConfirmation(BodyBookingId(body), ctx.flight, ctx.passenger))
    case VerifyNotOk => VerifyFailed(s.(error := Some(VerificationFailed), processing := false))
  }

  /** The "Proceed to Payment" button is disabled exactly while a payment is processing. */
  predicate PayButtonDisabled(s: CheckoutState) {
    s.processing
  }

  /** A checkout that passes validation disables the button until an answer arrives. */
  lemma SubmittedDisablesButton(s: CheckoutState, nowMs: int)
    requires HandleCheckout(s, nowMs).Submitted?
    ensures PayButtonDisabled(HandleCheckout(s, nowMs).state)
    ensures HandleCheckout(s, nowMs).state.error.None?
  {
  }

  /** The three lines of the price summary, in rupees. */
  datatype PriceSummary = PriceSummary(baseFare: int, taxes: int, total: int)

  /** The sidebar: base fare `price - 1200`, fixed taxes, and the price as the total. */
  function Summary(price: int): (s: PriceSummary)
    ensures s.baseFare + s.taxes == s.total
    ensures s.total == price && s.taxes == TaxesAndFees
  {
    PriceSummary(price - TaxesAndFees, TaxesAndFees, price)
  }

  /** The total the summary shows is the amount charged, in paise. */
  lemma SummaryTotalIsCharged(f: Flight, p: Passenger, nowMs: int)
    ensures BuildRequest(f, p, nowMs).amount == Summary(f.price).total * 100
  {
  }

  /** The flight-duration line of the selected-flight card. */
  function FlightDuration(f: Flight): string {
    Duration.Calculate(f.departure.scheduled.epochMs, f.arrival.scheduled.epochMs)
  }
}
