/**
 * The order document's schema: which paths are required, the status
 * enumeration, and the defaults filled in before validation. A document
 * is validated path by path in schema order; each failing path reports
 * one error, and the first failing validator of a path is the one
 * reported (the required check comes before the enumeration check).
 * A path may be left out, set to null, or given a value; a default fills
 * only a path that was left out, so an explicit null stays null. A
 * required string is missing when left out, null or empty; a required
 * number or reference when left out or null.
 */
module OrderSchema {
  import opened Common

  datatype Status = Created | Paid | Failed

  /** The enumeration's spellings. */
  function StatusName(s: Status): string {
    match s
    case Created => "created"
    case Paid => "paid"
    case Failed => "failed"
  }

  /** The enumeration check: a string names a status only if it is one of the three spellings. */
  function ParseStatus(name: string): (r: Option<Status>)
    ensures r.Some? ==> StatusName(r.value) == name
    ensures r.None? ==> forall s :: StatusName(s) != name
  {
    if name == "created" then Some(Created)
    else if name == "paid" then Some(Paid)
    else if name == "failed" then Some(Failed)
    else None
  }

  lemma ParseStatusName(s: Status)
    ensures ParseStatus(StatusName(s)) == Some(s)
  {
  }

  datatype FlightDetails = FlightDetails(
    flightNumber: Option<string>,
    departure: Option<string>,
    arrival: Option<string>,
    departureTime: Option<int>,
    arrivalTime: Option<int>)

  datatype PassengerDetails = PassengerDetails(name: Option<string>, email: Option<string>, phone: Option<string>)

  /** A top-level path of a document: left out (undefined), explicitly null, or given a value. */
  datatype Path<+T> = Absent | Null | Given(v: T)

  /** A document as given to the model. The nested details have no validators, so there a null and a left-out path are both `None`. */
  datatype OrderInput = OrderInput(
    user: Path<string>,
    razorpayOrderId: Path<string>,
    razorpayPaymentId: Path<string>,
    razorpaySignature: Path<string>,
    amount: Path<int>,
    currency: Path<string>,
    receipt: Path<string>,
    status: Path<string>,
    flightDetails: FlightDetails,
    passengerDetails: PassengerDetails)

  /** A document that passed validation. */
  datatype Order = Order(
    user: string,
    razorpayOrderId: string,
    razorpayPaymentId: Path<string>,
    razorpaySignature: Path<string>,
    amount: int,
    currency: string,
    receipt: string,
    status: Status,
    flightDetails: FlightDetails,
    passengerDetails: PassengerDetails)

  /** The validated paths, by which errors are keyed. */
  datatype PathName = UserPath | RazorpayOrderIdPath | AmountPath | CurrencyPath | ReceiptPath | StatusPath

  /** Each path's name in the schema. */
  function PathString(p: PathName): string {
    match p
    case UserPath => "user"
    case RazorpayOrderIdPath => "razorpayOrderId"
    case AmountPath => "amount"
    case CurrencyPath => "currency"
    case ReceiptPath => "receipt"
    case StatusPath => "status"
  }

  datatype ValidationError = Required(path: PathName) | NotInEnum(path: PathName, value: string)

  const DefaultCurrency: string := "INR"
  const DefaultStatus: Status := Created

  /** A required string path fails when left out, null or empty. */
  predicate MissingString(v: Path<string>) {
    !v.Given? || v.v == ""
  }

  /** The default for a path: used only when the path was left out. */
  function OrDefault<T>(v: Path<T>, default: T): (w: Path<T>)
    ensures w.Given? <==> v.Given? || v.Absent?
    ensures v.Given? ==> w == v
    ensures v.Absent? ==> w == Given(default)
    ensures v.Null? ==> w == Null
  {
    if v.Absent? then Given(default) else v
  }

  /** The defaults: a left-out currency becomes "INR", a left-out status "created"; a null stays null. */
  function WithDefaults(input: OrderInput): (d: OrderInput)
    ensures d.currency == OrDefault(input.currency, DefaultCurrency)
    ensures d.status == OrDefault(input.status, StatusName(DefaultStatus))
    ensures d.(currency := input.currency, status := input.status) == input
  {
    input.(
      currency := OrDefault(input.currency, DefaultCurrency),
      status := OrDefault(input.status, StatusName(DefaultStatus)))
  }

  function RequiredError(missing: bool, path: PathName): seq<ValidationError> {
    if missing then [Required(path)] else []
  }

  /** The status path's error: required first, then the enumeration. */
  function StatusErrors(status: Path<string>): seq<ValidationError> {
    if MissingString(status) then [Required(StatusPath)]
    else if ParseStatus(status.v).None? then [NotInEnum(StatusPath, status.v)]
    else []
  }

  /** All errors of a document that already has its defaults, in schema order. */
  function Errors(d: OrderInput): seq<ValidationError> {
    RequiredError(!d.user.Given?, UserPath)
    + RequiredError(MissingString(d.razorpayOrderId), RazorpayOrderIdPath)
    + RequiredError(!d.amount.Given?, AmountPath)
    + RequiredError(MissingString(d.currency), CurrencyPath)
    + RequiredError(MissingString(d.receipt), ReceiptPath)
    + StatusErrors(d.status)
  }

  /** An error list is empty exactly when every path passes its validators. */
  lemma ErrorsEmpty(d: OrderInput)
    ensures |Errors(d)| == 0 <==>
      && d.user.Given?
      && !MissingString(d.razorpayOrderId)
      && d.amount.Given?
      && !MissingString(d.currency)
      && !MissingString(d.receipt)
      && !MissingString(d.status)
      && ParseStatus(d.status.v).Some?
  {
  }

  /** The required errors each name their path, and only a missing path is named. */
  lemma ErrorsRequired(d: OrderInput)
    ensures Required(UserPath) in Errors(d) <==> !d.user.Given?
    ensures Required(RazorpayOrderIdPath) in Errors(d) <==> MissingString(d.razorpayOrderId)
    ensures Required(AmountPath) in Errors(d) <==> !d.amount.Given?
    ensures Required(CurrencyPath) in Errors(d) <==> MissingString(d.currency)
    ensures Required(ReceiptPath) in Errors(d) <==> MissingString(d.receipt)
    ensures Required(StatusPath) in Errors(d) <==> MissingString(d.status)
  {
  }

  /** The only enumeration error is the status's, carrying the refused value. */
  lemma ErrorsEnum(d: OrderInput)
    ensures forall x :: NotInEnum(StatusPath, x) in Errors(d) <==>
      d.status == Given(x) && x != "" && ParseStatus(x).None?
  {
  }

  /** Applies the defaults, then validates; a valid document becomes an `Order`. */
  function Validate(input: OrderInput): (r: Result<Order, seq<ValidationError>>)
    ensures r.Ok? <==>
      && input.user.Given?
      && !MissingString(input.razorpayOrderId)
      && input.amount.Given?
      && (input.currency.Absent? || !MissingString(input.currency))
      && !MissingString(input.receipt)
      && (input.status.Absent? || (input.status.Given? && ParseStatus(input.status.v).Some?))
    ensures r.Err? ==> |r.error| > 0
    ensures r.Err? ==> (Required(UserPath) in r.error <==> !input.user.Given?)
    ensures r.Err? ==> (Required(RazorpayOrderIdPath) in r.error <==> MissingString(input.razorpayOrderId))
    ensures r.Err? ==> (Required(AmountPath) in r.error <==> !input.amount.Given?)
    ensures r.Err? ==> (Required(CurrencyPath) in r.error <==> input.currency.Null? || input.currency == Given(""))
    ensures r.Err? ==> (Required(ReceiptPath) in r.error <==> MissingString(input.receipt))
    ensures r.Err? ==> (Required(StatusPath) in r.error <==> input.status.Null? || input.status == Given(""))
    ensures r.Err? ==> forall x :: NotInEnum(StatusPath, x) in r.error <==>
      input.status == Given(x) && x != "" && ParseStatus(x).None?
    ensures r.Ok? ==>
      && r.value.user == input.user.v
      && r.value.razorpayOrderId == input.razorpayOrderId.v
      && r.value.amount == input.amount.v
      && r.value.receipt == input.receipt.v
      && r.value.razorpayPaymentId == input.razorpayPaymentId
      && r.value.razorpaySignature == input.razorpaySignature
      && r.value.currency == (if input.currency.Absent? then DefaultCurrency else input.currency.v)
      && r.value.status == (if input.status.Absent? then DefaultStatus else ParseStatus(input.status.v).value)
  {
    var d := WithDefaults(input);
    ErrorsEmpty(d);
    ErrorsRequired(d);
    ErrorsEnum(d);
    var errors := Errors(d);
    if |errors| > 0 then
      Err(errors)
    else
      Ok(Order(
        d.user.v, d.razorpayOrderId.v, d.razorpayPaymentId, d.razorpaySignature,
        d.amount.v, d.currency.v, d.receipt.v, ParseStatus(d.status.v).value,
        d.flightDetails, d.passengerDetails))
  }

  /** A stored order read back as a document: every required path given. */
  function ToInput(o: Order): OrderInput {
    OrderInput(
      Given(o.user), Given(o.razorpayOrderId), o.razorpayPaymentId, o.razorpaySignature,
      Given(o.amount), Given(o.currency), Given(o.receipt), Given(StatusName(o.status)),
      o.flightDetails, o.passengerDetails)
  }

  /** The strings a stored order must hold: the required ones are non-empty. */
  predicate WellFormed(o: Order) {
    o.razorpayOrderId != "" && o.currency != "" && o.receipt != ""
  }

  /** A well-formed stored order, read back as a document, validates to itself. */
  lemma ValidateToInput(o: Order)
    requires WellFormed(o)
    ensures Validate(ToInput(o)) == Ok(o)
  {
    ParseStatusName(o.status);
  }

  /** Validation accepts its own output unchanged: what it stores is well formed and re-validates to itself. */
  lemma ValidateIdempotent(input: OrderInput)
    requires Validate(input).Ok?
    ensures WellFormed(Validate(input).value)
    ensures Validate(ToInput(Validate(input).value)) == Validate(input)
  {
    ValidateToInput(Validate(input).value);
  }

  /** A new order from the creation request: status and currency left out. */
  lemma CreatedWithDefaults(input: OrderInput)
    requires input.status.Absent? && input.currency.Absent?
    requires Validate(input).Ok?
    ensures Validate(input).value.status == Created
    ensures Validate(input).value.currency == "INR"
  {
  }

  /**
   * An explicit null is not replaced by the default: a null currency or
   * status is refused as missing, where leaving the path out would have
   * let the default through.
   */
  lemma ExplicitNullRefused(input: OrderInput)
    requires input.currency.Null? || input.status.Null?
    ensures Validate(input).Err?
    ensures input.currency.Null? ==> Required(CurrencyPath) in Validate(input).error
    ensures input.status.Null? ==> Required(StatusPath) in Validate(input).error
    ensures Validate(input.(currency := if input.currency.Null? then Absent else input.currency,
                            status := if input.status.Null? then Absent else input.status)).Ok?
        <==> && input.user.Given?
             && !MissingString(input.razorpayOrderId)
             && input.amount.Given?
             && !MissingString(input.receipt)
             && (!input.currency.Given? || input.currency.v != "")
             && (!input.status.Given? || ParseStatus(input.status.v).Some?)
  {
  }

  /** The payment id and signature are optional: whether a document is valid does not depend on them. */
  lemma PaymentFieldsOptional(input: OrderInput, paymentId: Path<string>, signature: Path<string>)
    ensures Validate(input).Ok? <==> Validate(input.(razorpayPaymentId := paymentId, razorpaySignature := signature)).Ok?
  {
  }

  /** A status outside the three spellings is refused whatever else the document holds. */
  lemma UnknownStatusRefused(input: OrderInput)
    requires input.status.Given? && input.status.v != ""
    requires forall s :: StatusName(s) != input.status.v
    ensures Validate(input).Err?
    ensures NotInEnum(StatusPath, input.status.v) in Validate(input).error
  {
  }

  /** Saving appends the validated order; no other stored order is consulted. */
  function Save(store: seq<Order>, input: OrderInput): (r: Result<seq<Order>, seq<ValidationError>>)
    ensures r.Ok? <==> Validate(input).Ok?
    ensures r.Ok? ==> r.value == store + [Validate(input).value]
    ensures r.Err? ==> r.error == Validate(input).error
  {
    match Validate(input)
    case Ok(o) => Ok(store + [o])
    case Err(e) => Err(e)
  }

  /** `razorpayOrderId` is not unique: a second order with the same gateway id is saved like any other. */
  lemma GatewayIdNotUnique(store: seq<Order>, o: Order)
    requires WellFormed(o)
    requires o in store
    ensures Save(store, ToInput(o)).Ok?
    ensures var t := Save(store, ToInput(o)).value;
      exists i, j :: 0 <= i < j < |t| && t[i].razorpayOrderId == t[j].razorpayOrderId
  {
    ValidateToInput(o);
    var t := Save(store, ToInput(o)).value;
    var i :| 0 <= i < |store| && store[i] == o;
    assert t[i] == o && t[|t| - 1] == o;
  }
}
