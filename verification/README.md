# SkyQuest flight booking — a Dafny model of the page logic and the order schema

This project models the deterministic logic of the SkyQuest flight-booking
application: the React pages' state handling and the Mongoose schema of the
`Order` document. Every page is a small state machine written as pure
functions over immutable datatypes. Fetches, timers, storage and the
Razorpay widget become explicit events or parameters.

- `common.dfy` (`Common`): `Option`, `Result`, `Min`.
- `jsnumber.dfy` (`JsNumber`): JavaScript's truncating `%` and `Math.floor(a / b)`. Dafny's own `/` and `%` are Euclidean.
- `decimal.dfy` (`Decimal`): integers rendered as template literals print them, with a parser that inverts the rendering.
- `text.dfy` (`Text`): `indexOf` / `lastIndexOf` for one character.
- `duration.dfy` (`Duration`): `calculateDuration`. The checkout page and the booking-confirmation page hold identical copies; it is defined once here.
- `checkout.dfy` (`Checkout`): the selected flight, the passenger form and its validation, the create-order body (amount in paise, currency, receipt), the price summary, and the reactions to the create-order, dismiss and verify-payment answers.
- `booking_success.dfy` (`BookingSuccess`): navigation state into booking details, the redirect home, and the loading placeholder.
- `carousel.dfy` (`Carousel`): the home page's testimonial index (tick, next, previous, dots) and the star row.
- `contact.dfy` (`Contact`): the contact form's status machine, its pending timers and the disabled rule.
- `profile.dfy` (`Profile`): the authentication gate, the two fetches, the page views, the statistics, the preview rows and the tabs.
- `order.dfy` (`OrderSchema`): required paths, the status enumeration, defaults, and saving without a uniqueness constraint.

Notes on behaviour the model makes explicit:

- Negative durations. For an arrival before the departure, `calculateDuration` floors the hours but takes the minutes from a truncated remainder, so the minutes lie in [-60, 0], not (-60, 0]. One millisecond short of an hour early reads "-1h -60m", and 90 minutes early reads "-2h -30m" (`Duration.NegativeDurations`).
- Base fare. The price summary's base fare `price - 1200` is negative for a price below 1200 rupees. The model keeps that arithmetic as written.
- What the schema does not enforce. `Order.js` has no uniqueness constraint on `razorpayOrderId`, no lower bound on `amount`, and no rule for moving `status` between its three values. A unique gateway id and the created → paid/failed transitions would belong to the payment route handlers, which are not part of this model. The model follows the schema as written.

## Model

| member | source | states |
|---|---|---|
| `JsNumber.Rem` | frontend/src/pages/CheckoutPage.tsx:81 | JavaScript `%`: the remainder takes the sign of the dividend, its magnitude is below the divisor, and dividend = truncated quotient × divisor + remainder |
| `JsNumber.FloorDiv` | frontend/src/pages/CheckoutPage.tsx:80 | `Math.floor(a / b)` is the unique q with q·b ≤ a < q·b + b |
| `JsNumber.RemOfNonNegative` | frontend/src/pages/HomePage.tsx:44 | on non-negative operands (the carousel's), JavaScript `%` agrees with the mathematical modulus |
| `Decimal.ParseIntToString` | frontend/src/pages/CheckoutPage.tsx:82 | an integer interpolated into a template literal can be read back exactly, so no information is lost in the rendering |
| `Decimal.IntToStringOfParse` | frontend/src/pages/CheckoutPage.tsx:82 | the parser reads only renderings: a string that parses to an integer is exactly that integer's template-literal text (no leading zeros, no "-0") |
| `Duration.Split` | frontend/src/pages/CheckoutPage.tsx:79-81 | hours are the floor of the difference in hours; for d ≥ 0 minutes lie in [0, 60) and hours·60 + minutes = d div 60000; for d < 0 minutes lie in [-60, 0] |
| `Duration.ParseFormat` | frontend/src/pages/CheckoutPage.tsx:82 | the string "<hours>h <minutes>m" determines both numbers: parsing it gives back exactly the pair it was made from |
| `Duration.FormatOfParse` | frontend/src/pages/CheckoutPage.tsx:82 | a string that parses as "<hours>h <minutes>m" is exactly the unpadded rendering of the pair it parses to |
| `Duration.ParseFormatUnique` | frontend/src/pages/CheckoutPage.tsx:82 | the rendering of a pair is the one and only string that parses back to it |
| `Duration.Calculate` | frontend/src/pages/CheckoutPage.tsx:76-83 | the shown duration is the one string that reads back as the split of arrival − departure, so its exact text is fixed; for arrival ≥ departure the hours are the whole hours between the instants and the minutes the whole minutes left over |
| `Duration.UnpaddedMinutes` | frontend/src/pages/CheckoutPage.tsx:82 | two hours and five minutes show as "2h 5m"; the zero-padded "2h 05m" is no rendering |
| `Duration.CalculateExactToMinute` | frontend/src/pages/CheckoutPage.tsx:76-83 | for arrival ≥ departure the shown duration reads back as minutes in [0, 60) whose total is the whole minutes between the instants |
| `Duration.NegativeDurations` | frontend/src/pages/BookingSuccessPage.tsx:52-54 | an arrival before the departure shows hours rounded down, and minutes as the floor of the hour remainder, which keeps the sign of the difference: -1 ms gives (-1, -1), 1 ms short of -1 h gives (-1, -60), -90 min gives (-2, -30) |
| `BookingSuccess.DurationMatchesCheckout` | frontend/src/pages/BookingSuccessPage.tsx:49-56 | the confirmation page shows the same duration as the checkout page for the same flight, exact to the minute when arrival ≥ departure |
| `Checkout.Load` | frontend/src/pages/CheckoutPage.tsx:40-48 | a stored flight becomes the selection; the error "No flight selected. Please select a flight first." is set exactly when storage holds no entry (or the empty string); text that decodes to a falsy value (`null`, `false`, `0`, `""`) sets neither |
| `Checkout.LoadingAfterLoadIffFalsy` | frontend/src/pages/CheckoutPage.tsx:224-238 | the loading placeholder shows before the load effect, and after it exactly when the stored text decoded to a falsy value |
| `Checkout.HandleInputChange` | frontend/src/pages/CheckoutPage.tsx:50-56 | the named passenger field takes the typed value and the other two fields are unchanged |
| `Checkout.InputChangeOfSameValue` | frontend/src/pages/CheckoutPage.tsx:50-56 | writing back a field's current value leaves the passenger unchanged |
| `Checkout.InputChangeOverrides` | frontend/src/pages/CheckoutPage.tsx:50-56 | a later edit of a field replaces an earlier one completely |
| `Checkout.AmountInPaise` | frontend/src/pages/CheckoutPage.tsx:111 | the amount in paise is a whole multiple of 100 whose rupee part is the price |
| `Checkout.ParseReceiptOfReceipt` | frontend/src/pages/CheckoutPage.tsx:113 | a receipt "flight-<iata>-<timestamp>" with a non-negative clock reading determines the flight code and the timestamp, even if the code contains '-' |
| `Checkout.BuildRequest` | frontend/src/pages/CheckoutPage.tsx:110-122 | the body has amount = price × 100, currency "INR", the passenger as typed, the flight's code, airports and scheduled times copied field for field, and a receipt that reads back as (iata, timestamp) |
| `Checkout.HandleCheckout` | frontend/src/pages/CheckoutPage.tsx:85-101 | a request is sent iff a flight is selected and all three passenger fields are non-empty; with no flight the only change is the error "No flight selected"; with an empty field the only change is "Please fill in all passenger details"; a sent request clears the error and sets processing |
| `Checkout.SubmittedDisablesButton` | frontend/src/pages/CheckoutPage.tsx:99-101 | a checkout that passes validation disables "Proceed to Payment" and clears the error |
| `Checkout.OnCreateOrderResponse` | frontend/src/pages/CheckoutPage.tsx:125-199 | a failed create-order answer sets "Failed to process payment. Please try again." and re-enables the button; a successful one changes no page state |
| `Checkout.OnPaymentDismissed` | frontend/src/pages/CheckoutPage.tsx:186-190 | closing the payment widget clears processing and changes nothing else |
| `Checkout.OnVerifyResponse` | frontend/src/pages/CheckoutPage.tsx:139-177 | it navigates to "/booking-success" iff the verification response is ok and its body is not JSON `null` (reading `bookingId` off `null` throws into the failure path), carrying the body's possibly missing id and the flight and passenger captured at checkout; otherwise it sets "Payment verification failed. Please contact support." and re-enables the button |
| `Checkout.Summary` | frontend/src/pages/CheckoutPage.tsx:620-636 | base fare plus the fixed 1200 taxes and fees equals the displayed total, which is the price |
| `Checkout.SummaryTotalIsCharged` | frontend/src/pages/CheckoutPage.tsx:111 | the amount sent is the displayed total times 100 |
| `BookingSuccess.OnLocation` | frontend/src/pages/BookingSuccessPage.tsx:23-29 | present navigation state becomes the booking details unchanged; absent state redirects to "/" and leaves the details as they were |
| `BookingSuccess.NoStateRedirectsHome` | frontend/src/pages/BookingSuccessPage.tsx:80-92 | with no navigation state the page redirects home and only the loading placeholder is rendered |
| `BookingSuccess.StateShowsDetails` | frontend/src/pages/BookingSuccessPage.tsx:80-94 | with navigation state the placeholder is not shown and no redirect happens |
| `BookingSuccess.ConfirmationArrivesUnchanged` | frontend/src/pages/BookingSuccessPage.tsx:24-25 | the details shown are exactly the booking id in the verification body and the flight and passenger submitted at checkout |
| `Carousel.Advance` | frontend/src/pages/HomePage.tsx:44 | `(i + 1) % n` stays in [0, n), moves one place forward, and wraps n − 1 to 0 |
| `Carousel.Retreat` | frontend/src/pages/HomePage.tsx:731 | `(i − 1 + n) % n` stays in [0, n), moves one place back, and wraps 0 to n − 1 |
| `Carousel.Step` | frontend/src/pages/HomePage.tsx:716-741 | each of tick, next, previous and dot keeps the index in [0, n); clicking dot k sets the index to k |
| `Carousel.RunStaysInRange` | frontend/src/pages/HomePage.tsx:23-48 | from a valid index, any sequence of ticks and clicks leaves the index naming a testimonial |
| `Carousel.RetreatAdvanceInverse` | frontend/src/pages/HomePage.tsx:731-738 | previous after next, and next after previous, return the original index |
| `Carousel.AdvanceTimesClimbs` | frontend/src/pages/HomePage.tsx:42-48 | below the end of the list, k ticks move the index k places forward |
| `Carousel.AdvanceTimesAdd` | frontend/src/pages/HomePage.tsx:42-48 | a ticks followed by b ticks equal a + b ticks |
| `Carousel.FullRotation` | frontend/src/pages/HomePage.tsx:42-48 | n consecutive auto-rotation ticks return to the starting index |
| `Carousel.ExactlyOneActiveDot` | frontend/src/pages/HomePage.tsx:716-722 | exactly one dot is styled active: the one whose index equals the active testimonial |
| `Carousel.FilledAmongClamps` | frontend/src/pages/HomePage.tsx:694-699 | with star i filled iff i < rating, the number of filled stars among k is the rating clamped to [0, k] |
| `Carousel.TestimonialStars` | frontend/src/pages/HomePage.tsx:128-153 | each listed testimonial fills exactly as many of the five stars as its rating |
| `Contact.HandleInputChange` | frontend/src/pages/ContactPage.tsx:37-43 | the named field takes the value and the other three are unchanged |
| `Contact.HandleSubmit` | frontend/src/pages/ContactPage.tsx:45-47 | submitting sets the status to "submitting", keeps the fields, and schedules one success timer |
| `Contact.FireSuccessTimer` | frontend/src/pages/ContactPage.tsx:50-52 | the first timer sets "success" and schedules one reset timer |
| `Contact.FireResetTimer` | frontend/src/pages/ContactPage.tsx:53-61 | the second timer sets "idle" and resets name, email, subject and message to "" |
| `Contact.Step` | frontend/src/pages/ContactPage.tsx:45-62 | an event that cannot happen changes nothing; a submission sets "submitting" and keeps the fields; the first timer sets "success" and schedules the reset; the reset sets "idle" with every field cleared; an edit sets its field and keeps the status; nothing moves the page into "error" |
| `Contact.StepKeepsCycle` | frontend/src/pages/ContactPage.tsx:45-62 | every possible event keeps the page on the cycle idle → submitting → success → idle, with exactly the matching timer pending; a filled idle form submits, and the reset returns to the initial state |
| `Contact.RunKeepsCycle` | frontend/src/pages/ContactPage.tsx:24-62 | from the initial state no sequence of events leaves the cycle, so the declared "error" status is never reached |
| `Contact.EditsIgnoredUnlessIdle` | frontend/src/pages/ContactPage.tsx:244-316 | every input and the submit button are disabled iff the status is not "idle", so edits and submissions then change nothing |
| `Contact.EmptyFieldBlocksSubmit` | frontend/src/pages/ContactPage.tsx:244-306 | every control is `required`, so a form with any empty field is never submitted |
| `Contact.SubmissionRoundTrip` | frontend/src/pages/ContactPage.tsx:45-62 | submit, then both timers, take a filled form through "submitting" and "success" back to the initial empty idle state; a form with an empty field is not sent and stays as it is |
| `Contact.ButtonLabelShowsState` | frontend/src/pages/ContactPage.tsx:314-364 | the button reads "Send Message" exactly when it is enabled, and on the cycle it never reads "Error Sending Message" |
| `Profile.OnAuth` | frontend/src/pages/ProfilePage.tsx:128-170 | once authentication settles, a signed-in visitor gets both fetches and anyone else is sent to "/login" without a fetch; nothing happens while it is loading |
| `Profile.ThrownMessage` | frontend/src/pages/ProfilePage.tsx:104-121 | the error shown for each way the fetch throws: the missing-token and failed-response messages, a thrown Error's own message, and "An error occurred" for anything else thrown |
| `Profile.OnProfileFetched` | frontend/src/pages/ProfilePage.tsx:99-126 | a missing token, a failed response or any other throw sets the thrown message as the error; success sets the profile; profile loading ends either way |
| `Profile.OnBookingsFetched` | frontend/src/pages/ProfilePage.tsx:137-165 | success replaces the bookings; a failure keeps them; the error is never touched; bookings loading ends |
| `Profile.PageView` | frontend/src/pages/ProfilePage.tsx:191-223 | the spinner shows iff authentication or the profile is loading, the error view iff neither is and a non-empty error is set (an empty message is falsy), and the dashboard otherwise |
| `Profile.DashboardIffProfileFetched` | frontend/src/pages/ProfilePage.tsx:120-121 | in either order of arrival, the dashboard appears iff the profile fetch succeeds or throws an Error with an empty message, however the bookings fetch ends; otherwise the thrown message is shown |
| `Profile.ArrivalsMembers` | frontend/src/pages/ProfilePage.tsx:421 | a code is among the destinations iff some booking arrives there |
| `Profile.ArrivalsBounds` | frontend/src/pages/ProfilePage.tsx:421 | there are at most as many distinct destinations as bookings, and at least one when there is a booking |
| `Profile.OverviewStats` | frontend/src/pages/ProfilePage.tsx:412-427 | "Flights Booked" is the number of bookings; "Destinations" is the number of distinct arrival codes, bounded by it |
| `Profile.Preview` | frontend/src/pages/ProfilePage.tsx:472 | the preview holds the first min(3, n) bookings in their original order |
| `Profile.PreviewIsPrefix` | frontend/src/pages/ProfilePage.tsx:472 | the preview followed by the rest is the full list, previewing twice changes nothing, and a list of three or fewer is shown whole |
| `Profile.RowShadesAlternate` | frontend/src/pages/ProfilePage.tsx:476 | preview rows alternate gray and white, starting gray |
| `Profile.RecentBookings` | frontend/src/pages/ProfilePage.tsx:465-472 | the card shows a spinner iff bookings are loading, "no bookings" iff loaded and empty, and otherwise one to three preview rows |
| `Profile.TabIdInjective` | frontend/src/pages/ProfilePage.tsx:225-230 | the four tab ids are distinct |
| `Profile.OnTabEvent` | frontend/src/pages/ProfilePage.tsx:311-323 | clicking a tab sets that tab's id; "View All" (line 456) sets "bookings" and "Manage" (line 532) sets "payments" |
| `Profile.ExactlyOnePanel` | frontend/src/pages/ProfilePage.tsx:400-721 | from any of the four ids, after any clicks the active tab is one of the four and exactly one panel renders: its own |
| `Profile.DashboardShowsOnePanel` | frontend/src/pages/ProfilePage.tsx:59 | starting from "overview", exactly one panel renders after any sequence of clicks |
| `OrderSchema.ParseStatus` | backend_new/src/models/Order.js:33-38 | a status string passes the enumeration iff it is "created", "paid" or "failed" |
| `OrderSchema.ParseStatusName` | backend_new/src/models/Order.js:36 | each of the three statuses passes the enumeration as itself |
| `OrderSchema.WithDefaults` | backend_new/src/models/Order.js:24-38 | a left-out currency becomes "INR", a left-out status becomes "created", an explicit null stays null, and nothing else changes |
| `OrderSchema.OrDefault` | backend_new/src/models/Order.js:27 | a default fills exactly a left-out path: a given value is kept and a null stays null |
| `OrderSchema.Validate` | backend_new/src/models/Order.js:3-51 | a document is valid iff user and amount are given, razorpayOrderId and receipt are given and non-empty, currency is left out or a non-empty string, and status is left out or in the enumeration (null counts as missing); each missing required path is reported by name, and an unknown status with its value; a valid document keeps the given values and the defaults |
| `OrderSchema.ExplicitNullRefused` | backend_new/src/models/Order.js:24-38 | a null currency or status is refused as missing, where leaving it out would have let the default through |
| `OrderSchema.ValidateToInput` | backend_new/src/models/Order.js:3-51 | a stored order, read back as a document, validates to itself |
| `OrderSchema.ValidateIdempotent` | backend_new/src/models/Order.js:3-51 | what validation accepts is well formed and passes validation again unchanged |
| `OrderSchema.CreatedWithDefaults` | backend_new/src/models/Order.js:24-38 | an order created without status or currency is stored as "created" in "INR" |
| `OrderSchema.PaymentFieldsOptional` | backend_new/src/models/Order.js:14-19 | razorpayPaymentId and razorpaySignature do not affect whether a document is valid |
| `OrderSchema.UnknownStatusRefused` | backend_new/src/models/Order.js:33-38 | a non-empty status outside the enumeration is refused with an enumeration error naming it |
| `OrderSchema.Save` | backend_new/src/models/Order.js:3-55 | saving succeeds iff the document is valid and then appends the validated order; other stored orders are not consulted |
| `OrderSchema.GatewayIdNotUnique` | backend_new/src/models/Order.js:10-13 | with no uniqueness constraint, a second order with an existing razorpayOrderId is saved, leaving two orders that share it |

## Left out

- The payment route handlers (create-order, verify-payment, the booking list) and the HMAC signature check are not part of this model. The source holds only the schema, so no status transition rule is modelled.
- The network, `localStorage`, `sessionStorage` and the Razorpay browser SDK are left out. Their outcomes are parameters: the decoded stored flight, `ok` flags, fetch outcomes and the decoded verification body. Anything else the profile fetch throws (a network failure, a JSON-decoding failure) is one outcome carrying the thrown Error's message, or no message for a non-Error.
- Date parsing and locale formatting (`new Date`, `toLocale*String`, `Intl.DateTimeFormat`, `formatDate`, `formatTime`) are left out. Instants are integer epoch milliseconds next to the text they came from; an unparseable date (NaN) is not modelled.
- Timers are discrete events, not real time. The pages' `isPageLoaded`/`isHeroLoaded` animation flags are left out: they only start animations.
- Animations, `Math.random` particle layouts and all styling are left out, apart from the row shading and the active-dot and active-tab rules.
- JavaScript numbers are doubles; the model uses unbounded integers and integer rupee prices. Integers past 2^53, or printed in exponent form, are outside the model.
- `JsNumber.Rem`: requires a positive divisor, because every divisor in the source is a positive constant.
- `JsNumber.FloorDiv`: requires a positive divisor, for the same reason.
- `Checkout.Load`: stored text that is not valid JSON makes `JSON.parse` throw inside the effect, an uncaught error the page does not handle, so it is not modelled; nor is decoded text that is truthy but not a flight.
- The checkout page's `activeStep` is never changed from 1 and only styles the progress bar, so it is left out.
- The `handleInputChange` handlers can only receive the field names the inputs carry, so a key outside those names is not modelled.
- The full bookings tab list, the payments and security panels' static content, and the profile card are left out: they render data with no logic.
- `AboutPage.tsx` is static marketing content and is not modelled.
- Mongoose's model-caching singleton, automatic `createdAt`/`updatedAt` timestamps, type casting (a string given for `amount`, an ObjectId's format) and nested-path casting of `flightDetails` are persistence-engine behaviour and are left out.
- The contact form's `type="email"` format check is browser validation of the address syntax and is not modelled; only the `required` rule is.
- The nested `flightDetails` and `passengerDetails` paths have no validators or defaults, so a null and a left-out nested path are both `None` there.
- `OrderSchema.Validate`: errors are keyed by path (`OrderSchema.PathString` gives each path's name); the contract does not state the order of the error list or Mongoose's error-message texts.
