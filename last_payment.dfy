/**
 * The last-payment query: validates the emails, resolves the customer's most
 * recent qualifying Stripe payment through four ordered strategies, derives
 * the package and credits, filters the Cal.com bookings made since the
 * purchase, fuses the ledger's and the bookings table's consumption counts,
 * and reports the ledger balance.
 *
 * Every Stripe listing is an input (`Call`), `ApiError` standing for the
 * `ApiErrorException` it may throw; the Cal.com request is an input too.
 * Timestamps are Unix seconds.
 */
module LastPayment {
  import opened Options
  import opened Php
  import opened Search
  import opened Packages
  import opened Ledger
  import opened StripeWebhook

  // ---------------------------------------------------------------------------
  // Inputs

  /** The result of one Stripe SDK call. */
  datatype Call<T> = Returned(value: T) | ApiError

  datatype Customer = Customer(id: string, name: Option<string>)

  /** What the Stripe account returns for the calls the resolver may make, in listing order. */
  datatype StripeView = StripeView(
    customers: Call<seq<Customer>>,            // Customer::all(email, limit 1)
    invoices: Call<seq<string>>,               // Invoice::all(customer): ids only
    customerIntents: Call<seq<PaymentIntent>>, // PaymentIntent::all(customer, limit 10)
    customerCharges: Call<seq<Charge>>,        // Charge::all(customer, limit 10)
    recentIntents: Call<seq<PaymentIntent>>,   // PaymentIntent::all(limit 100)
    recentCharges: Call<seq<Charge>>,          // Charge::all(limit 100)
    recentSessions: Call<seq<CheckoutSession>>,// Checkout\Session::all(limit 100)
    retrievable: map<string, PaymentIntent>,   // PaymentIntent::retrieve; a missing id throws (caught)
    sessionsByIntent: map<string, Call<seq<CheckoutSession>>>) // Session::all(payment_intent); missing: none

  /** A Cal.com booking with its `start` / `createdAt`, already parsed. */
  datatype CalBooking = CalBooking(uid: Option<string>, start: Option<int>, createdAt: Option<int>)

  /** The outcome of the Cal.com request. */
  datatype CalResponse = CalNotConfigured | CalFailed(error: string) | CalBookings(all: seq<CalBooking>)

  /** A row of the `bt_bookings` snapshot table. */
  datatype BookingRow = BookingRow(email: string, calBookingId: string, status: string, startTime: Option<int>, createdAt: int)

  // ---------------------------------------------------------------------------
  // Payment resolution

  datatype Payment = IntentPayment(intent: PaymentIntent) | ChargePayment(charge: Charge)

  /** The resolution strategy that produced the payment, in the order they are tried. */
  datatype Source = CustomerIntent | CustomerCharge | GuestIntent | GuestCharge | SessionIntent

  function SourceLabel(s: Source): string {
    match s
    case CustomerIntent => "payment_intent"
    case CustomerCharge => "charge"
    case GuestIntent => "payment_intent_guest"
    case GuestCharge => "charge_guest"
    case SessionIntent => "checkout_session"
  }

  datatype Found = Found(payment: Payment, source: Source)

  /** `StripeFailed` is any uncaught `ApiErrorException`; `payment == None` is "no payment found". */
  datatype Resolution = StripeFailed | Resolved(customer: Option<Customer>, payment: Option<Found>)

  predicate IntentSucceeded(pi: PaymentIntent) {
    pi.status == "succeeded" || pi.status == "requires_capture"
  }

  /** `$x && strtolower($x) === strtolower($email)`. */
  predicate EmailMatches(x: Option<string>, email: string) {
    Truthy(x) && ToLower(x.value) == ToLower(email)
  }

  predicate ChargePaid(c: Charge) {
    c.paid
  }

  predicate GuestIntentQualifies(pi: PaymentIntent, email: string) {
    EmailMatches(pi.receiptEmail, email) && IntentSucceeded(pi)
  }

  predicate GuestChargeQualifies(c: Charge, email: string) {
    EmailMatches(Coalesce(c.receiptEmail, c.billingEmail), email) && c.paid
  }

  /** The guest-strategy tests for one email, as the functions the scans apply. */
  function GuestIntentTest(email: string): PaymentIntent -> bool {
    pi => GuestIntentQualifies(pi, email)
  }

  function GuestChargeTest(email: string): Charge -> bool {
    c => GuestChargeQualifies(c, email)
  }

  function SessionTest(email: string, retrievable: map<string, PaymentIntent>): CheckoutSession -> bool {
    s => SessionQualifies(s, email, retrievable)
  }

  /** A session matches by email, names a PaymentIntent, which is retrievable and succeeded. */
  predicate SessionQualifies(s: CheckoutSession, email: string, retrievable: map<string, PaymentIntent>) {
    && EmailMatches(SessionEmail(s), email)
    && s.paymentIntent.Some? && !IsEmpty(s.paymentIntent.value)
    && s.paymentIntent.value in retrievable
    && IntentSucceeded(retrievable[s.paymentIntent.value])
  }

  function SessionIntentOf(s: CheckoutSession, retrievable: map<string, PaymentIntent>): PaymentIntent
    requires s.paymentIntent.Some? && s.paymentIntent.value in retrievable
  {
    retrievable[s.paymentIntent.value]
  }

  /** Strategy 1, given a customer: invoices, then its intents, then its charges. */
  function CustomerStrategy(v: StripeView): Call<Option<Found>> {
    if v.invoices.ApiError? || v.customerIntents.ApiError? then ApiError
    else
      var intents := v.customerIntents.value;
      match First(intents, IntentSucceeded)
      case Some(k) => Returned(Some(Found(IntentPayment(intents[k]), CustomerIntent)))
      case None =>
        if v.customerCharges.ApiError? then ApiError
        else
          var charges := v.customerCharges.value;
          match First(charges, ChargePaid)
          case Some(k) => Returned(Some(Found(ChargePayment(charges[k]), CustomerCharge)))
          case None => Returned(None)
  }

  /** Strategies 2 to 4, each consulted only when the previous found nothing. */
  function GuestStrategies(v: StripeView, email: string): Call<Option<Found>> {
    if v.recentIntents.ApiError? then ApiError
    else
      var intents := v.recentIntents.value;
      match First(intents, GuestIntentTest(email))
      case Some(k) => Returned(Some(Found(IntentPayment(intents[k]), GuestIntent)))
      case None =>
        if v.recentCharges.ApiError? then ApiError
        else
          var charges := v.recentCharges.value;
          match First(charges, GuestChargeTest(email))
          case Some(k) => Returned(Some(Found(ChargePayment(charges[k]), GuestCharge)))
          case None =>
            if v.recentSessions.ApiError? then ApiError
            else
              var sessions := v.recentSessions.value;
              match First(sessions, SessionTest(email, v.retrievable))
              case Some(k) => Returned(Some(Found(IntentPayment(SessionIntentOf(sessions[k], v.retrievable)), SessionIntent)))
              case None => Returned(None)
  }

  /** The customer the lookup by email returns (`limit 1`): the first listed, if any. */
  function FirstCustomer(customers: seq<Customer>): (c: Option<Customer>)
    ensures c.Some? <==> |customers| > 0
    ensures c.Some? ==> c.value == customers[0]
  {
    if |customers| > 0 then Some(customers[0]) else None
  }

  /**
   * The four strategies in order: customer, guest intents, guest charges,
   * checkout sessions.  The reported customer is the one the lookup returned,
   * whichever strategy finds the payment.
   */
  function Resolve(v: StripeView, email: string): (r: Resolution)
    ensures r.Resolved? ==> v.customers.Returned? && r.customer == FirstCustomer(v.customers.value)
    ensures v.customers.ApiError? ==> r == StripeFailed
  {
    if v.customers.ApiError? then StripeFailed
    else
      var customer := FirstCustomer(v.customers.value);
      var first := if customer.Some? then CustomerStrategy(v) else Returned(None);
      if first.ApiError? then StripeFailed
      else if first.value.Some? then Resolved(customer, first.value)
      else
        var rest := GuestStrategies(v, email);
        if rest.ApiError? then StripeFailed else Resolved(customer, rest.value)
  }

  /** The strategies as the loops that run them: each scans its listing and stops at the first hit. */
  method ResolvePayment(v: StripeView, email: string) returns (r: Resolution)
    ensures r == Resolve(v, email)
  {
    if v.customers.ApiError? {
      return StripeFailed;
    }
    var customer: Option<Customer> := None;
    var lastPayment: Option<Found> := None;
    if |v.customers.value| > 0 {
      customer := Some(v.customers.value[0]);
      if v.invoices.ApiError? || v.customerIntents.ApiError? {
        return StripeFailed;
      }
      var k := FindFirst(v.customerIntents.value, IntentSucceeded);
      if k.Some? {
        lastPayment := Some(Found(IntentPayment(v.customerIntents.value[k.value]), CustomerIntent));
      } else {
        if v.customerCharges.ApiError? {
          return StripeFailed;
        }
        k := FindFirst(v.customerCharges.value, ChargePaid);
        if k.Some? {
          lastPayment := Some(Found(ChargePayment(v.customerCharges.value[k.value]), CustomerCharge));
        }
      }
    }
    if lastPayment.None? {
      if v.recentIntents.ApiError? {
        return StripeFailed;
      }
      var k := FindFirst(v.recentIntents.value, GuestIntentTest(email));
      if k.Some? {
        lastPayment := Some(Found(IntentPayment(v.recentIntents.value[k.value]), GuestIntent));
      }
    }
    if lastPayment.None? {
      if v.recentCharges.ApiError? {
        return StripeFailed;
      }
      var k := FindFirst(v.recentCharges.value, GuestChargeTest(email));
      if k.Some? {
        lastPayment := Some(Found(ChargePayment(v.recentCharges.value[k.value]), GuestCharge));
      }
    }
    if lastPayment.None? {
      if v.recentSessions.ApiError? {
        return StripeFailed;
      }
      var k := FindFirst(v.recentSessions.value, SessionTest(email, v.retrievable));
      if k.Some? {
        var s := v.recentSessions.value[k.value];
        lastPayment := Some(Found(IntentPayment(SessionIntentOf(s, v.retrievable)), SessionIntent));
      }
    }
    return Resolved(customer, lastPayment);
  }

  // ---------------------------------------------------------------------------
  // Package and credits

  /** The package hinted by a lower-cased description, checked in this order. */
  function DescriptionPackage(description: string): (p: Option<string>)
    ensures p.None? || p.value == EIGHT_PACK || p.value == FOUR_PACK || p.value == SINGLE
    ensures var d := ToLower(description);
      p == Some(EIGHT_PACK) <==> Contains(d, "8 pack") || Contains(d, "8-pack")
    ensures var d := ToLower(description);
      p == Some(FOUR_PACK) <==>
        && !(Contains(d, "8 pack") || Contains(d, "8-pack"))
        && (Contains(d, "4 pack") || Contains(d, "4-pack"))
    ensures var d := ToLower(description);
      p == Some(SINGLE) <==>
        && !(Contains(d, "8 pack") || Contains(d, "8-pack"))
        && !(Contains(d, "4 pack") || Contains(d, "4-pack"))
        && (Contains(d, "single") || Contains(d, "1 pack"))
  {
    var d := ToLower(description);
    if Contains(d, "8 pack") || Contains(d, "8-pack") then Some(EIGHT_PACK)
    else if Contains(d, "4 pack") || Contains(d, "4-pack") then Some(FOUR_PACK)
    else if Contains(d, "single") || Contains(d, "1 pack") then Some(SINGLE)
    else None
  }

  /**
   * For a PaymentIntent payment: its metadata tag if set, else the tag of the
   * Checkout Session that created it (a failed lookup ends the search), then
   * the description keywords when no truthy tag was found.
   */
  function IntentPackageHint(pi: PaymentIntent, sessionsByIntent: map<string, Call<seq<CheckoutSession>>>): Option<string> {
    if pi.metadataPackage.None? && SessionLookup(pi, sessionsByIntent).ApiError? then None
    else
      var tag := StoredTag(pi, sessionsByIntent);
      if !Truthy(tag) && pi.description.Some? then DescriptionPackage(pi.description.value)
      else tag
  }

  /** `Session::all(['payment_intent' => id, 'limit' => 1])`; an id the account does not know lists nothing. */
  function SessionLookup(pi: PaymentIntent, sessionsByIntent: map<string, Call<seq<CheckoutSession>>>): Call<seq<CheckoutSession>> {
    if pi.id in sessionsByIntent then sessionsByIntent[pi.id] else Returned([])
  }

  /**
   * The stored package tag: the intent's metadata when set, else the
   * metadata of the first session the lookup lists, else none.
   */
  function StoredTag(pi: PaymentIntent, sessionsByIntent: map<string, Call<seq<CheckoutSession>>>): (tag: Option<string>)
    ensures pi.metadataPackage.Some? ==> tag == pi.metadataPackage
    ensures pi.metadataPackage.None? && tag.Some? ==>
      var lookup := SessionLookup(pi, sessionsByIntent);
      lookup.Returned? && |lookup.value| > 0 && tag == lookup.value[0].metadataPackage
  {
    var lookup := SessionLookup(pi, sessionsByIntent);
    if pi.metadataPackage.Some? then pi.metadataPackage
    else if lookup.Returned? && |lookup.value| > 0 then lookup.value[0].metadataPackage
    else None
  }

  function PaymentAmount(p: Payment): int {
    match p
    case IntentPayment(pi) => GetOr(pi.amount, 0)
    case ChargePayment(c) => GetOr(c.amount, 0)
  }

  /** The purchased package: hints only for PaymentIntent-based sources, then the amount tiers. */
  function PurchasedPackage(f: Found, sessionsByIntent: map<string, Call<seq<CheckoutSession>>>): string {
    var hint := match f.payment
      case IntentPayment(pi) => IntentPackageHint(pi, sessionsByIntent)
      case ChargePayment(_) => None;
    ChoosePackage(hint, PaymentAmount(f.payment))
  }

  // ---------------------------------------------------------------------------
  // Bookings since the purchase

  /** `start >= purchase` if `start` is set, else `createdAt >= purchase`, else dropped. */
  predicate BookedSince(b: CalBooking, purchase: int) {
    if b.start.Some? then b.start.value >= purchase
    else b.createdAt.Some? && b.createdAt.value >= purchase
  }

  /** `array_values(array_filter($bookings, ...))`. */
  function BookingsSince(bookings: seq<CalBooking>, purchase: int): (r: seq<CalBooking>)
    ensures |r| <= |bookings|
    ensures forall k :: 0 <= k < |r| ==> BookedSince(r[k], purchase)
    ensures forall b :: b in r <==> b in bookings && BookedSince(b, purchase)
    ensures forall b :: multiset(r)[b] == if BookedSince(b, purchase) then multiset(bookings)[b] else 0
  {
    if bookings == [] then []
    else
      assert bookings == [bookings[0]] + bookings[1..];
      (if BookedSince(bookings[0], purchase) then [bookings[0]] else []) + BookingsSince(bookings[1..], purchase)
  }

  /** `xs` is `ys` with some elements removed, order kept. */
  predicate IsSubsequence<T(==)>(xs: seq<T>, ys: seq<T>)
    decreases |ys|
  {
    if xs == [] then true
    else if ys == [] then false
    else if xs[0] == ys[0] then IsSubsequence(xs[1..], ys[1..])
    else IsSubsequence(xs, ys[1..])
  }

  lemma {:induction false} SubsequenceOfSelf<T>(ys: seq<T>)
    ensures IsSubsequence(ys, ys)
  {
    if ys != [] {
      SubsequenceOfSelf(ys[1..]);
    }
  }

  /** The kept bookings are an order-preserving subsequence of the response. */
  lemma {:induction false} BookingsSinceIsSubsequence(bookings: seq<CalBooking>, purchase: int)
    ensures IsSubsequence(BookingsSince(bookings, purchase), bookings)
  {
    if bookings != [] {
      BookingsSinceIsSubsequence(bookings[1..], purchase);
      var r := BookingsSince(bookings, purchase);
      if BookedSince(bookings[0], purchase) {
        assert r[1..] == BookingsSince(bookings[1..], purchase);
      } else {
        assert r == BookingsSince(bookings[1..], purchase);
        assert IsSubsequence(r, bookings[1..]);
        if r != [] {
          // r's head is kept, bookings' head is not, so they differ
          assert BookedSince(r[0], purchase);
          assert r[0] != bookings[0];
        }
      }
    }
  }

  /** The bound is inclusive: a booking starting at the purchase second is kept, one second earlier is not. */
  lemma BookingBoundary(purchase: int)
    ensures BookingsSince([CalBooking(None, Some(purchase), None)], purchase) == [CalBooking(None, Some(purchase), None)]
    ensures BookingsSince([CalBooking(None, Some(purchase - 1), Some(purchase))], purchase) == []
    ensures BookingsSince([CalBooking(Some("x"), None, None)], purchase) == []
  {
  }

  /** The bookings reported: filtered when Cal.com answered with a booking list, else none. */
  function CalBookingsSince(cal: CalResponse, purchase: int): seq<CalBooking> {
    match cal
    case CalBookings(all) => BookingsSince(all, purchase)
    case _ => []
  }

  // ---------------------------------------------------------------------------
  // Consumption since the purchase

  predicate IsConsumption(e: Entry, email: string, since: int) {
    e.email == email && e.delta < 0 && e.source != STRIPE && e.createdAt >= since
  }

  /** Ledger rows for the email with a negative delta, not from `stripe`, at or after `since`. */
  function CountConsumption(rows: seq<Entry>, email: string, since: int): (n: nat)
    ensures n <= |rows|
    ensures n == 0 <==> forall k :: 0 <= k < |rows| ==> !IsConsumption(rows[k], email, since)
    ensures n == |rows| <==> forall k :: 0 <= k < |rows| ==> IsConsumption(rows[k], email, since)
  {
    if rows == [] then 0
    else (if IsConsumption(rows[0], email, since) then 1 else 0) + CountConsumption(rows[1..], email, since)
  }

  predicate IsCompletedBooking(b: BookingRow, email: string, since: int) {
    b.email == email && (b.status == "completed" || b.status == "confirmed" || b.status == "accepted") && b.createdAt >= since
  }

  /** `bt_bookings` rows for the email, completed, confirmed or accepted, created at or after `since`. */
  function CountCompleted(rows: seq<BookingRow>, email: string, since: int): (n: nat)
    ensures n <= |rows|
    ensures n == 0 <==> forall k :: 0 <= k < |rows| ==> !IsCompletedBooking(rows[k], email, since)
    ensures n == |rows| <==> forall k :: 0 <= k < |rows| ==> IsCompletedBooking(rows[k], email, since)
  {
    if rows == [] then 0
    else (if IsCompletedBooking(rows[0], email, since) then 1 else 0) + CountCompleted(rows[1..], email, since)
  }

  /** The ledger count wins unless it is zero and the bookings table reports some. */
  function FusedCount(ledgerCount: nat, tableCount: nat): (n: nat)
    ensures ledgerCount > 0 ==> n == ledgerCount
    ensures ledgerCount == 0 ==> n == tableCount
  {
    if ledgerCount == 0 && tableCount > 0 then tableCount else ledgerCount
  }

  /**
   * The sessions used since the purchase: the ledger's consumption rows when
   * there are any, else the bookings table's completed rows.  It is zero
   * exactly when neither source has a qualifying row.
   */
  function CompletedSincePurchase(ledger: Table, bookings: Option<seq<BookingRow>>, email: string, since: int): (n: nat)
    ensures ledger.present && CountConsumption(ledger.rows, email, since) > 0 ==> n == CountConsumption(ledger.rows, email, since)
    ensures n == 0 <==>
      && (ledger.present ==> forall k :: 0 <= k < |ledger.rows| ==> !IsConsumption(ledger.rows[k], email, since))
      && (bookings.Some? ==> forall k :: 0 <= k < |bookings.value| ==> !IsCompletedBooking(bookings.value[k], email, since))
  {
    var fromLedger := if ledger.present then CountConsumption(ledger.rows, email, since) else 0;
    var fromTable := if bookings.Some? then CountCompleted(bookings.value, email, since) else 0;
    FusedCount(fromLedger, fromTable)
  }

  /** `remaining_credits`: the ledger balance, 0 when the table is missing. */
  function RemainingCredits(ledger: Table, email: string): int {
    if ledger.present then SumDeltas(ledger.rows, email) else 0
  }

  // ---------------------------------------------------------------------------
  // The endpoint

  datatype Query = Query(
    email: string,              // the `email` parameter, "" when absent
    calEmail: string,           // the `cal_email` parameter, "" when absent
    constantKey: Option<string>,// BT_STRIPE_SECRET_KEY if defined
    optionKey: string,          // get_option('bt_stripe_secret_key', '')
    sdkLoaded: bool,            // class_exists('\Stripe\Stripe')
    now: int)                   // time(), used when the payment has no `created`

  datatype Environment = Environment(
    stripe: StripeView,
    cal: CalResponse,
    ledger: Table,
    bookings: Option<seq<BookingRow>>,  // the bookings table, None if it does not exist
    sanitizeEmail: string -> string,
    isEmail: string -> bool)

  datatype PaymentReport = PaymentReport(
    email: string, calEmail: string, customerId: Option<string>, isGuest: bool,
    amountCents: int, currency: string, status: string, created: int, id: string, source: string,
    packageId: string, packageName: string, credits: nat,
    remainingCredits: int, completedSincePurchase: nat, calBookings: seq<CalBooking>)

  datatype Response =
    | EmailRequired
    | InvalidEmail
    | InvalidCalEmail
    | StripeKeyMissing
    | StripeSdkMissing
    | StripeApiError
    | NoPaymentFound(email: string, customerId: Option<string>)
    | PaymentFound(report: PaymentReport)

  function HttpStatus(r: Response): int {
    match r
    case EmailRequired => 400
    case InvalidEmail => 400
    case InvalidCalEmail => 400
    case StripeKeyMissing => 500
    case StripeSdkMissing => 500
    case StripeApiError => 500
    case NoPaymentFound(_, _) => 200
    case PaymentFound(_) => 200
  }

  /** The Stripe key: the constant when defined and non-empty, else the option. */
  function StripeKey(q: Query): string {
    if q.constantKey.Some? && !IsEmpty(q.constantKey.value) then q.constantKey.value else q.optionKey
  }

  /** The Cal.com email: the Stripe email when the parameter is empty, else its sanitised form. */
  function CalEmailFor(q: Query, email: string, sanitizeEmail: string -> string): string {
    if IsEmpty(q.calEmail) then email else sanitizeEmail(q.calEmail)
  }

  function PaymentStatus(p: Payment): string {
    match p
    case IntentPayment(pi) => pi.status
    case ChargePayment(c) => GetOr(c.status, if c.paid then "paid" else "unknown")
  }

  function PaymentCreated(p: Payment, now: int): int {
    match p
    case IntentPayment(pi) => GetOr(pi.created, now)
    case ChargePayment(c) => GetOr(c.created, now)
  }

  function PaymentCurrency(p: Payment): string {
    match p
    case IntentPayment(pi) => GetOr(pi.currency, "usd")
    case ChargePayment(c) => GetOr(c.currency, "usd")
  }

  function PaymentId(p: Payment): string {
    match p
    case IntentPayment(pi) => pi.id
    case ChargePayment(c) => c.id
  }

  function CustomerId(c: Option<Customer>): Option<string> {
    if c.Some? then Some(c.value.id) else None
  }

  /**
   * The report for a resolved payment: its source and id, the package
   * derived from it and what that buys, the balance, and the consumption and
   * bookings counted from the payment's creation time.
   */
  function Report(q: Query, env: Environment, email: string, calEmail: string, customer: Option<Customer>, f: Found): (r: PaymentReport)
    ensures r.email == email && r.calEmail == calEmail
    ensures r.customerId == CustomerId(customer) && (r.isGuest <==> !Truthy(r.customerId))
    ensures r.source == SourceLabel(f.source) && r.id == PaymentId(f.payment)
    ensures r.amountCents == PaymentAmount(f.payment) && r.created == PaymentCreated(f.payment, q.now)
    ensures r.packageId == PurchasedPackage(f, env.stripe.sessionsByIntent)
    ensures r.credits == CreditsFor(r.packageId) && (r.credits == 1 || r.credits == 4 || r.credits == 8)
    ensures r.packageName == PackageName(r.packageId)
    ensures r.remainingCredits == RemainingCredits(env.ledger, env.sanitizeEmail(email))
    ensures r.completedSincePurchase == CompletedSincePurchase(env.ledger, env.bookings, env.sanitizeEmail(email), r.created)
    ensures r.calBookings == CalBookingsSince(env.cal, r.created)
    ensures forall k :: 0 <= k < |r.calBookings| ==> BookedSince(r.calBookings[k], r.created)
  {
    var created := PaymentCreated(f.payment, q.now);
    var package := PurchasedPackage(f, env.stripe.sessionsByIntent);
    var customerId := CustomerId(customer);
    PaymentReport(
      email, calEmail, customerId, !Truthy(customerId),
      PaymentAmount(f.payment), ToUpper(PaymentCurrency(f.payment)), PaymentStatus(f.payment),
      created, PaymentId(f.payment), SourceLabel(f.source),
      package, PackageName(package), CreditsFor(package),
      RemainingCredits(env.ledger, env.sanitizeEmail(email)),
      CompletedSincePurchase(env.ledger, env.bookings, env.sanitizeEmail(email), created),
      CalBookingsSince(env.cal, created))
  }

  /** The email parameters pass validation. */
  predicate ValidQuery(q: Query, env: Environment) {
    && !IsEmpty(q.email) && env.isEmail(env.sanitizeEmail(q.email))
    && (IsEmpty(q.calEmail) || env.isEmail(env.sanitizeEmail(q.calEmail)))
  }

  /** A Stripe key is configured and the SDK is loaded. */
  predicate StripeReady(q: Query) {
    !IsEmpty(StripeKey(q)) && q.sdkLoaded
  }

  /**
   * `bt_get_last_payment`: the validation and configuration errors in their
   * order, then the resolver's verdict, and for a found payment the report
   * built from it.
   */
  function LastPayment(q: Query, env: Environment): (r: Response)
    ensures r == EmailRequired <==> IsEmpty(q.email)
    ensures r == InvalidEmail <==> !IsEmpty(q.email) && !env.isEmail(env.sanitizeEmail(q.email))
    ensures r == InvalidCalEmail <==>
      !IsEmpty(q.email) && env.isEmail(env.sanitizeEmail(q.email))
      && !IsEmpty(q.calEmail) && !env.isEmail(env.sanitizeEmail(q.calEmail))
    ensures HttpStatus(r) == 200 ==> env.isEmail(env.sanitizeEmail(q.email))
    ensures r.PaymentFound? ==>
      && r.report.email == env.sanitizeEmail(q.email)
      && r.report.calEmail == CalEmailFor(q, r.report.email, env.sanitizeEmail)
      && (r.report.credits == 1 || r.report.credits == 4 || r.report.credits == 8)
      && r.report.remainingCredits == RemainingCredits(env.ledger, env.sanitizeEmail(r.report.email))
      && (r.report.isGuest <==> !Truthy(r.report.customerId))
    ensures r == StripeKeyMissing <==> ValidQuery(q, env) && IsEmpty(StripeKey(q))
    ensures r == StripeSdkMissing <==> ValidQuery(q, env) && !IsEmpty(StripeKey(q)) && !q.sdkLoaded
    ensures r == StripeApiError <==>
      ValidQuery(q, env) && StripeReady(q) && Resolve(env.stripe, env.sanitizeEmail(q.email)) == StripeFailed
    ensures r.NoPaymentFound? <==>
      && ValidQuery(q, env) && StripeReady(q)
      && Resolve(env.stripe, env.sanitizeEmail(q.email)).Resolved?
      && Resolve(env.stripe, env.sanitizeEmail(q.email)).payment.None?
    ensures r.NoPaymentFound? ==>
      r == NoPaymentFound(env.sanitizeEmail(q.email), CustomerId(Resolve(env.stripe, env.sanitizeEmail(q.email)).customer))
    ensures r.PaymentFound? <==>
      && ValidQuery(q, env) && StripeReady(q)
      && Resolve(env.stripe, env.sanitizeEmail(q.email)).Resolved?
      && Resolve(env.stripe, env.sanitizeEmail(q.email)).payment.Some?
    ensures r.PaymentFound? ==>
      var email := env.sanitizeEmail(q.email);
      var res := Resolve(env.stripe, email);
      r.report == Report(q, env, email, CalEmailFor(q, email, env.sanitizeEmail), res.customer, res.payment.value)
  {
    if IsEmpty(q.email) then EmailRequired
    else
      var email := env.sanitizeEmail(q.email);
      if !env.isEmail(email) then InvalidEmail
      else if !IsEmpty(q.calEmail) && !env.isEmail(env.sanitizeEmail(q.calEmail)) then InvalidCalEmail
      else
        var calEmail := CalEmailFor(q, email, env.sanitizeEmail);
        if IsEmpty(StripeKey(q)) then StripeKeyMissing
        else if !q.sdkLoaded then StripeSdkMissing
        else
          match Resolve(env.stripe, email)
          case StripeFailed => StripeApiError
          case Resolved(customer, None) => NoPaymentFound(email, CustomerId(customer))
          case Resolved(customer, Some(f)) => PaymentFound(Report(q, env, email, calEmail, customer, f))
  }

  // ---------------------------------------------------------------------------
  // Properties

  // Payment resolution, strategy by strategy.  A stage "finds nothing" when
  // every listing it consults is returned and holds no qualifying record.

  /** The customer stage finds nothing: no customer, or none of its intents succeeded and none of its charges is paid. */
  predicate CustomerFindsNothing(v: StripeView) {
    && v.customers.Returned?
    && (|v.customers.value| > 0 ==>
          && v.invoices.Returned? && v.customerIntents.Returned? && v.customerCharges.Returned?
          && NoneSatisfy(v.customerIntents.value, IntentSucceeded)
          && NoneSatisfy(v.customerCharges.value, ChargePaid))
  }

  predicate GuestIntentsFindNothing(v: StripeView, email: string) {
    && CustomerFindsNothing(v)
    && v.recentIntents.Returned? && NoneSatisfy(v.recentIntents.value, GuestIntentTest(email))
  }

  predicate GuestChargesFindNothing(v: StripeView, email: string) {
    && GuestIntentsFindNothing(v, email)
    && v.recentCharges.Returned? && NoneSatisfy(v.recentCharges.value, GuestChargeTest(email))
  }

  predicate SessionsFindNothing(v: StripeView, email: string) {
    && GuestChargesFindNothing(v, email)
    && v.recentSessions.Returned? && NoneSatisfy(v.recentSessions.value, SessionTest(email, v.retrievable))
  }

  /** Strategy 1a: a customer whose listed intents include a succeeded one pays with the first such. */
  lemma ResolveByCustomerIntent(v: StripeView, email: string, k: nat)
    requires v.customers.Returned? && |v.customers.value| > 0
    requires v.invoices.Returned? && v.customerIntents.Returned?
    requires IsFirst(v.customerIntents.value, IntentSucceeded, k)
    ensures Resolve(v, email) ==
      Resolved(Some(v.customers.value[0]), Some(Found(IntentPayment(v.customerIntents.value[k]), CustomerIntent)))
  {
    FirstCharacterized(v.customerIntents.value, IntentSucceeded, k);
  }

  /** Strategy 1b: otherwise the customer's first paid charge. */
  lemma ResolveByCustomerCharge(v: StripeView, email: string, k: nat)
    requires v.customers.Returned? && |v.customers.value| > 0
    requires v.invoices.Returned? && v.customerIntents.Returned?
    requires NoneSatisfy(v.customerIntents.value, IntentSucceeded)
    requires v.customerCharges.Returned? && IsFirst(v.customerCharges.value, ChargePaid, k)
    ensures Resolve(v, email) ==
      Resolved(Some(v.customers.value[0]), Some(Found(ChargePayment(v.customerCharges.value[k]), CustomerCharge)))
  {
    FirstCharacterized(v.customerIntents.value, IntentSucceeded, 0);
    FirstCharacterized(v.customerCharges.value, ChargePaid, k);
  }

  /** Strategy 2: when the customer stage finds nothing, the first recent intent for the email that succeeded. */
  lemma ResolveByGuestIntent(v: StripeView, email: string, k: nat)
    requires CustomerFindsNothing(v)
    requires v.recentIntents.Returned? && IsFirst(v.recentIntents.value, GuestIntentTest(email), k)
    ensures Resolve(v, email) ==
      Resolved(FirstCustomer(v.customers.value), Some(Found(IntentPayment(v.recentIntents.value[k]), GuestIntent)))
  {
    CustomerStageNothing(v);
    FirstCharacterized(v.recentIntents.value, GuestIntentTest(email), k);
  }

  /** Strategy 3: then the first recent paid charge whose receipt or billing email matches. */
  lemma ResolveByGuestCharge(v: StripeView, email: string, k: nat)
    requires GuestIntentsFindNothing(v, email)
    requires v.recentCharges.Returned? && IsFirst(v.recentCharges.value, GuestChargeTest(email), k)
    ensures Resolve(v, email) ==
      Resolved(FirstCustomer(v.customers.value), Some(Found(ChargePayment(v.recentCharges.value[k]), GuestCharge)))
  {
    CustomerStageNothing(v);
    FirstCharacterized(v.recentIntents.value, GuestIntentTest(email), 0);
    FirstCharacterized(v.recentCharges.value, GuestChargeTest(email), k);
  }

  /** Strategy 4: then the PaymentIntent of the first recent session for the email whose intent succeeded. */
  lemma ResolveBySession(v: StripeView, email: string, k: nat)
    requires GuestChargesFindNothing(v, email)
    requires v.recentSessions.Returned? && IsFirst(v.recentSessions.value, SessionTest(email, v.retrievable), k)
    ensures var s := v.recentSessions.value[k];
      Resolve(v, email) ==
        Resolved(FirstCustomer(v.customers.value), Some(Found(IntentPayment(v.retrievable[s.paymentIntent.value]), SessionIntent)))
  {
    CustomerStageNothing(v);
    FirstCharacterized(v.recentIntents.value, GuestIntentTest(email), 0);
    FirstCharacterized(v.recentCharges.value, GuestChargeTest(email), 0);
    FirstCharacterized(v.recentSessions.value, SessionTest(email, v.retrievable), k);
  }

  /** No payment is reported exactly when every stage runs without an API error and finds nothing. */
  lemma ResolveFindsNothing(v: StripeView, email: string)
    ensures Resolve(v, email).Resolved? && Resolve(v, email).payment.None? <==> SessionsFindNothing(v, email)
  {
    if v.customers.Returned? {
      CustomerStageNothing(v);
      if v.recentIntents.Returned? {
        FirstCharacterized(v.recentIntents.value, GuestIntentTest(email), 0);
      }
      if v.recentCharges.Returned? {
        FirstCharacterized(v.recentCharges.value, GuestChargeTest(email), 0);
      }
      if v.recentSessions.Returned? {
        FirstCharacterized(v.recentSessions.value, SessionTest(email, v.retrievable), 0);
      }
    }
  }

  /** The customer strategy answers "nothing" exactly when its stage finds nothing. */
  lemma CustomerStageNothing(v: StripeView)
    requires v.customers.Returned?
    ensures CustomerFindsNothing(v) <==>
      (|v.customers.value| > 0 ==> CustomerStrategy(v) == Returned(None))
  {
    if v.customerIntents.Returned? {
      FirstCharacterized(v.customerIntents.value, IntentSucceeded, 0);
    }
    if v.customerCharges.Returned? {
      FirstCharacterized(v.customerCharges.value, ChargePaid, 0);
    }
  }

  /**
   * Conversely, a payment found by a strategy is the first qualifying record
   * of that strategy's listing, and every earlier stage found nothing.
   */
  lemma ResolveFoundByCustomer(v: StripeView, email: string)
    ensures var r := Resolve(v, email);
      r.Resolved? && r.payment.Some? && r.payment.value.source == CustomerIntent ==>
        && |v.customers.value| > 0 && v.invoices.Returned? && v.customerIntents.Returned?
        && exists k: nat :: IsFirst(v.customerIntents.value, IntentSucceeded, k)
             && r.payment.value.payment == IntentPayment(v.customerIntents.value[k])
    ensures var r := Resolve(v, email);
      r.Resolved? && r.payment.Some? && r.payment.value.source == CustomerCharge ==>
        && |v.customers.value| > 0 && v.invoices.Returned? && v.customerIntents.Returned?
        && NoneSatisfy(v.customerIntents.value, IntentSucceeded)
        && v.customerCharges.Returned?
        && exists k: nat :: IsFirst(v.customerCharges.value, ChargePaid, k)
             && r.payment.value.payment == ChargePayment(v.customerCharges.value[k])
  {
    var r := Resolve(v, email);
    if r.Resolved? && r.payment.Some? && r.payment.value.source == CustomerIntent {
      var k := First(v.customerIntents.value, IntentSucceeded).value;
      FirstCharacterized(v.customerIntents.value, IntentSucceeded, k);
    }
    if r.Resolved? && r.payment.Some? && r.payment.value.source == CustomerCharge {
      FirstCharacterized(v.customerIntents.value, IntentSucceeded, 0);
      var k := First(v.customerCharges.value, ChargePaid).value;
      FirstCharacterized(v.customerCharges.value, ChargePaid, k);
    }
  }

  lemma ResolveFoundAsGuest(v: StripeView, email: string)
    ensures var r := Resolve(v, email);
      r.Resolved? && r.payment.Some? && r.payment.value.source == GuestIntent ==>
        && CustomerFindsNothing(v) && v.recentIntents.Returned?
        && exists k: nat :: IsFirst(v.recentIntents.value, GuestIntentTest(email), k)
             && r.payment.value.payment == IntentPayment(v.recentIntents.value[k])
    ensures var r := Resolve(v, email);
      r.Resolved? && r.payment.Some? && r.payment.value.source == GuestCharge ==>
        && GuestIntentsFindNothing(v, email) && v.recentCharges.Returned?
        && exists k: nat :: IsFirst(v.recentCharges.value, GuestChargeTest(email), k)
             && r.payment.value.payment == ChargePayment(v.recentCharges.value[k])
    ensures var r := Resolve(v, email);
      r.Resolved? && r.payment.Some? && r.payment.value.source == SessionIntent ==>
        && GuestChargesFindNothing(v, email) && v.recentSessions.Returned?
        && exists k: nat :: IsFirst(v.recentSessions.value, SessionTest(email, v.retrievable), k)
             && r.payment.value.payment == IntentPayment(SessionIntentOf(v.recentSessions.value[k], v.retrievable))
  {
    var r := Resolve(v, email);
    if r.Resolved? && r.payment.Some? && r.payment.value.source in {GuestIntent, GuestCharge, SessionIntent} {
      CustomerStageNothing(v);
      var intents := v.recentIntents.value;
      FirstCharacterized(intents, GuestIntentTest(email), 0);
      if r.payment.value.source == GuestIntent {
        var k := First(intents, GuestIntentTest(email)).value;
        FirstCharacterized(intents, GuestIntentTest(email), k);
      } else {
        var charges := v.recentCharges.value;
        FirstCharacterized(charges, GuestChargeTest(email), 0);
        if r.payment.value.source == GuestCharge {
          var k := First(charges, GuestChargeTest(email)).value;
          FirstCharacterized(charges, GuestChargeTest(email), k);
        } else {
          var sessions := v.recentSessions.value;
          var k := First(sessions, SessionTest(email, v.retrievable)).value;
          FirstCharacterized(sessions, SessionTest(email, v.retrievable), k);
        }
      }
    }
  }

  /**
   * A strategy that finds a payment fixes the result: the listings of the later
   * strategies are not consulted, so replacing them (even by failing calls)
   * changes nothing.
   */
  lemma LaterStrategiesNotConsulted(v: StripeView, email: string,
                                    intents: Call<seq<PaymentIntent>>, charges: Call<seq<Charge>>,
                                    sessions: Call<seq<CheckoutSession>>)
    ensures var r := Resolve(v, email);
      r.Resolved? && r.payment.Some? && (r.payment.value.source == CustomerIntent || r.payment.value.source == CustomerCharge) ==>
        Resolve(v.(recentIntents := intents, recentCharges := charges, recentSessions := sessions), email) == r
    ensures var r := Resolve(v, email);
      r.Resolved? && r.payment.Some? && r.payment.value.source == GuestIntent ==>
        Resolve(v.(recentCharges := charges, recentSessions := sessions), email) == r
    ensures var r := Resolve(v, email);
      r.Resolved? && r.payment.Some? && r.payment.value.source == GuestCharge ==>
        Resolve(v.(recentSessions := sessions), email) == r
  {
    var r := Resolve(v, email);
    if r.Resolved? && r.payment.Some? {
      var v' := v.(recentIntents := intents, recentCharges := charges, recentSessions := sessions);
      if r.payment.value.source == CustomerIntent || r.payment.value.source == CustomerCharge {
        assert CustomerStrategy(v') == CustomerStrategy(v);
      }
    }
  }

  /**
   * A payment found only through strategy 3: no customer, no qualifying guest
   * intent, but a paid charge whose receipt email matches in another case.
   */
  lemma ChargeOnlyScenario()
    ensures var charge := Charge("ch_1", true, Some("succeeded"), Some(4500), Some("usd"), Some(1000), Some("A@B.com"), None);
      var v := StripeView(Returned([]), ApiError, ApiError, ApiError,
                          Returned([PaymentIntent("pi_1", "canceled", Some(4500), None, None, Some("a@b.com"), None, None)]),
                          Returned([charge]), ApiError, map[], map[]);
      Resolve(v, "a@b.com") == Resolved(None, Some(Found(ChargePayment(charge), GuestCharge)))
  {
    var charge := Charge("ch_1", true, Some("succeeded"), Some(4500), Some("usd"), Some(1000), Some("A@B.com"), None);
    assert ToLower("A@B.com") == ToLower("a@b.com");
    assert GuestChargeQualifies(charge, "a@b.com");
    assert First([charge], c => GuestChargeQualifies(c, "a@b.com")) == Some(0);
  }

  /** Every reported package buys 1, 4 or 8 credits, by the same mapping as the webhook. */
  lemma PackageCreditsAgreeWithWebhook(f: Found, sessionsByIntent: map<string, Call<seq<CheckoutSession>>>)
    requires f.payment.ChargePayment?
    ensures PurchasedPackage(f, sessionsByIntent) == PackageForAmount(PaymentAmount(f.payment))
  {
  }

  /** Appending a row adds one to the consumption count exactly when that row is a consumption. */
  lemma {:induction false} ConsumptionAppend(rows: seq<Entry>, email: string, since: int, e: Entry)
    ensures CountConsumption(rows + [e], email, since) == CountConsumption(rows, email, since) + (if IsConsumption(e, email, since) then 1 else 0)
  {
    if rows != [] {
      assert (rows + [e])[1..] == rows[1..] + [e];
      ConsumptionAppend(rows[1..], email, since, e);
    } else {
      assert [e][1..] == [];
    }
  }

  /** A purchase credited by the webhook is never counted as a booking consumed. */
  lemma WebhookIsNotConsumption(t: Table, req: WebhookRequest, now: int,
                                sanitizeEmail: string -> string, sanitizeText: string -> string,
                                email: string, since: int)
    ensures var t' := Webhook(t, req, now, sanitizeEmail, sanitizeText).0;
      CountConsumption(t'.rows, email, since) == CountConsumption(t.rows, email, since)
  {
    var r := Webhook(t, req, now, sanitizeEmail, sanitizeText);
    if r.1.Credited? {
      ConsumptionAppend(t.rows, email, since, r.0.rows[|t.rows|]);
      assert r.0.rows == t.rows + [r.0.rows[|t.rows|]];
    }
  }

  /**
   * The package of a PaymentIntent payment, step by step: a truthy stored tag
   * (the intent's metadata, else its session's); without one, the description
   * keywords, unless the session lookup failed; then the amount tiers.
   */
  lemma IntentPurchasedPackage(pi: PaymentIntent, src: Source, sessionsByIntent: map<string, Call<seq<CheckoutSession>>>)
    ensures var p := PurchasedPackage(Found(IntentPayment(pi), src), sessionsByIntent);
      Truthy(pi.metadataPackage) ==> p == pi.metadataPackage.value
    ensures var p := PurchasedPackage(Found(IntentPayment(pi), src), sessionsByIntent);
      var lookup := SessionLookup(pi, sessionsByIntent);
      pi.metadataPackage.None? && lookup.Returned? && |lookup.value| > 0 && Truthy(lookup.value[0].metadataPackage) ==>
        p == lookup.value[0].metadataPackage.value
    ensures var p := PurchasedPackage(Found(IntentPayment(pi), src), sessionsByIntent);
      pi.metadataPackage.None? && SessionLookup(pi, sessionsByIntent).ApiError? ==>
        p == PackageForAmount(PaymentAmount(IntentPayment(pi)))
    ensures var p := PurchasedPackage(Found(IntentPayment(pi), src), sessionsByIntent);
      && !Truthy(StoredTag(pi, sessionsByIntent))
      && !(pi.metadataPackage.None? && SessionLookup(pi, sessionsByIntent).ApiError?)
      && pi.description.Some? && DescriptionPackage(pi.description.value).Some? ==>
        p == DescriptionPackage(pi.description.value).value
    ensures var p := PurchasedPackage(Found(IntentPayment(pi), src), sessionsByIntent);
      && !Truthy(StoredTag(pi, sessionsByIntent))
      && (pi.description.None? || DescriptionPackage(pi.description.value).None?) ==>
        p == PackageForAmount(PaymentAmount(IntentPayment(pi)))
  {
  }

  /** Appending a booking row adds one to the completed count exactly when that row counts. */
  lemma {:induction false} CompletedAppend(rows: seq<BookingRow>, email: string, since: int, b: BookingRow)
    ensures CountCompleted(rows + [b], email, since) == CountCompleted(rows, email, since) + (if IsCompletedBooking(b, email, since) then 1 else 0)
  {
    if rows != [] {
      assert (rows + [b])[1..] == rows[1..] + [b];
      CompletedAppend(rows[1..], email, since, b);
    } else {
      assert [b][1..] == [];
    }
  }

  /** A webhook delivery leaves the reported sessions-used count unchanged. */
  lemma WebhookKeepsCompletedCount(t: Table, req: WebhookRequest, now: int,
                                   sanitizeEmail: string -> string, sanitizeText: string -> string,
                                   bookings: Option<seq<BookingRow>>, email: string, since: int)
    ensures var t' := Webhook(t, req, now, sanitizeEmail, sanitizeText).0;
      CompletedSincePurchase(t', bookings, email, since) == CompletedSincePurchase(t, bookings, email, since)
  {
    WebhookIsNotConsumption(t, req, now, sanitizeEmail, sanitizeText, email, since);
  }
}
