/**
 * Stripe webhook ingestion: a per-event decision pipeline (secret configured,
 * SDK loaded, signature verified, event type, customer email, package and
 * credits) followed by an idempotent check-then-insert into the ledger.
 *
 * Signature verification (`\Stripe\Webhook::constructEvent`) is a library call:
 * its result is an input, `None` standing for the exception it throws.
 * `sanitize_email` and `sanitize_text_field` are parameters.
 */
module StripeWebhook {
  import opened Options
  import opened Php
  import opened Packages
  import opened Ledger

  const CHECKOUT_COMPLETED := "checkout.session.completed"

  datatype Event = Event(eventType: string, session: CheckoutSession)

  datatype WebhookRequest = WebhookRequest(
    secret: string,          // get_option('bt_stripe_webhook_secret', '')
    sdkLoaded: bool,         // class_exists('\Stripe\Webhook')
    event: Option<Event>)    // constructEvent(payload, signature, secret); None = it threw

  datatype WebhookOutcome =
    | SecretMissing
    | SdkMissing
    | InvalidSignature
    | Ignored(eventType: string)
    | NoEmail
    | Duplicate
    | InsertFailed
    | Credited(email: string, credits: nat, sessionId: string)

  /** The HTTP status of each response. */
  function HttpStatus(o: WebhookOutcome): int {
    match o
    case SecretMissing => 500
    case SdkMissing => 500
    case InvalidSignature => 400
    case Ignored(_) => 200
    case NoEmail => 400
    case Duplicate => 200
    case InsertFailed => 500
    case Credited(_, _, _) => 200
  }

  /** Where the pipeline stops before touching the ledger, or what it will try to append. */
  datatype Decision = Stop(outcome: WebhookOutcome) | Append(email: string, credits: nat, sessionId: string)

  /** Package from metadata if truthy, else from `amount_total ?? 0`: a missing amount buys one credit. */
  function SessionPackage(s: CheckoutSession): (p: string)
    ensures Truthy(s.metadataPackage) ==> p == s.metadataPackage.value
    ensures CreditsFor(p) == 8 <==>
      if Truthy(s.metadataPackage) then s.metadataPackage.value == EIGHT_PACK
      else s.amountTotal.Some? && 27900 < s.amountTotal.value < 28100
    ensures CreditsFor(p) == 4 <==>
      if Truthy(s.metadataPackage) then s.metadataPackage.value == FOUR_PACK
      else s.amountTotal.Some? && 14900 < s.amountTotal.value < 15100
  {
    ChoosePackage(s.metadataPackage, GetOr(s.amountTotal, 0))
  }

  /**
   * The guards in their order — secret, SDK, signature, event type, email —
   * each with its own response, and what a request that passes them all buys.
   */
  function Decide(req: WebhookRequest): (d: Decision)
    ensures d.Append? ==> d.credits == 1 || d.credits == 4 || d.credits == 8
    ensures d.Append? <==>
      && !IsEmpty(req.secret) && req.sdkLoaded && req.event.Some?
      && req.event.value.eventType == CHECKOUT_COMPLETED
      && Truthy(SessionEmail(req.event.value.session))
    ensures d.Append? ==> var s := req.event.value.session;
      && d.email == SessionEmail(s).value && d.sessionId == s.id
      && d.credits == CreditsFor(SessionPackage(s))
    ensures IsEmpty(req.secret) ==> d == Stop(SecretMissing)
    ensures !IsEmpty(req.secret) && !req.sdkLoaded ==> d == Stop(SdkMissing)
    ensures !IsEmpty(req.secret) && req.sdkLoaded && req.event.None? ==> d == Stop(InvalidSignature)
    ensures !IsEmpty(req.secret) && req.sdkLoaded && req.event.Some? && req.event.value.eventType != CHECKOUT_COMPLETED ==>
      d == Stop(Ignored(req.event.value.eventType))
    ensures (&& !IsEmpty(req.secret) && req.sdkLoaded && req.event.Some?
             && req.event.value.eventType == CHECKOUT_COMPLETED
             && !Truthy(SessionEmail(req.event.value.session))) ==> d == Stop(NoEmail)
  {
    if IsEmpty(req.secret) then Stop(SecretMissing)
    else if !req.sdkLoaded then Stop(SdkMissing)
    else if req.event.None? then Stop(InvalidSignature)
    else
      var ev := req.event.value;
      if ev.eventType != CHECKOUT_COMPLETED then Stop(Ignored(ev.eventType))
      else
        var email := SessionEmail(ev.session);
        if !Truthy(email) then Stop(NoEmail)
        else Append(email.value, CreditsFor(SessionPackage(ev.session)), ev.session.id)
  }

  /**
   * One delivery of a webhook against the ledger `t`.  The duplicate check looks
   * up the raw session id; the row stores `sanitizeText(id)`.
   */
  function Webhook(t: Table, req: WebhookRequest, now: int,
                   sanitizeEmail: string -> string, sanitizeText: string -> string): (r: (Table, WebhookOutcome))
    ensures !r.1.Credited? ==> r.0 == t
    ensures r.1.Credited? ==>
      && r.1.credits > 0
      && r.0.rows == t.rows + [Entry(t.nextId, sanitizeEmail(r.1.email), r.1.credits, STRIPE, Some(sanitizeText(r.1.sessionId)), now)]
      && r.0.present == t.present && r.0.nextId == t.nextId + 1
    ensures Decide(req).Stop? ==> r.1 == Decide(req).outcome
    ensures r.1 == Duplicate <==> Decide(req).Append? && StripeRowExists(t, Decide(req).sessionId)
    ensures r.1 == InsertFailed <==> Decide(req).Append? && !t.present && !StripeRowExists(t, Decide(req).sessionId)
    ensures r.1.Credited? <==> Decide(req).Append? && t.present && !StripeRowExists(t, Decide(req).sessionId)
    ensures r.1.Credited? ==> r.1 == Credited(Decide(req).email, Decide(req).credits, Decide(req).sessionId)
  {
    match Decide(req)
    case Stop(o) => (t, o)
    case Append(email, credits, id) =>
      if StripeRowExists(t, id) then (t, Duplicate)
      else if !t.present then (t, InsertFailed)
      else (AppendRow(t, sanitizeEmail(email), credits, STRIPE, Some(sanitizeText(id)), now), Credited(email, credits, id))
  }

  /** `bt_handle_stripe_webhook` against the shared ledger. */
  method HandleStripeWebhook(ledger: Ledger, req: WebhookRequest, now: int,
                             sanitizeEmail: string -> string, sanitizeText: string -> string)
    returns (outcome: WebhookOutcome)
    requires ledger.Valid()
    modifies ledger
    ensures ledger.Valid()
    ensures (ledger.Snapshot(), outcome) == Webhook(old(ledger.Snapshot()), req, now, sanitizeEmail, sanitizeText)
  {
    if IsEmpty(req.secret) {
      return SecretMissing;
    }
    if !req.sdkLoaded {
      return SdkMissing;
    }
    if req.event.None? {
      return InvalidSignature;
    }
    var ev := req.event.value;
    if ev.eventType != CHECKOUT_COMPLETED {
      return Ignored(ev.eventType);
    }
    var email := SessionEmail(ev.session);
    if !Truthy(email) {
      return NoEmail;
    }
    var credits := CreditsFor(SessionPackage(ev.session));
    var externalId := ev.session.id;
    var already := ledger.FindStripeRow(externalId);
    if already.Some? && already.value != 0 {
      return Duplicate;
    }
    var inserted := ledger.Insert(sanitizeEmail(email.value), credits, STRIPE, Some(sanitizeText(externalId)), now);
    if !inserted {
      return InsertFailed;
    }
    return Credited(email.value, credits, externalId);
  }

  // ---------------------------------------------------------------------------
  // Properties

  /** A credited delivery raises the stored email's balance by the credits and no other balance. */
  lemma WebhookBalance(t: Table, req: WebhookRequest, now: int,
                       sanitizeEmail: string -> string, sanitizeText: string -> string, x: string)
    ensures var (t', o) := Webhook(t, req, now, sanitizeEmail, sanitizeText);
      SumDeltas(t'.rows, x) == SumDeltas(t.rows, x) + (if o.Credited? && x == sanitizeEmail(o.email) then o.credits else 0)
  {
    var (t', o) := Webhook(t, req, now, sanitizeEmail, sanitizeText);
    if o.Credited? {
      SumDeltasAppend(t.rows, t'.rows[|t.rows|], x);
      assert t'.rows == t.rows + [t'.rows[|t.rows|]];
    }
  }

  /**
   * Redelivery is a no-op: if `sanitize_text_field` leaves the session id as it
   * is, processing the same event twice leaves the ledger as processing it once,
   * and a credited first delivery makes the second one a duplicate.
   */
  lemma WebhookIdempotent(t: Table, req: WebhookRequest, now1: int, now2: int,
                          sanitizeEmail: string -> string, sanitizeText: string -> string)
    requires req.event.Some? ==> sanitizeText(req.event.value.session.id) == req.event.value.session.id
    ensures var (t1, o1) := Webhook(t, req, now1, sanitizeEmail, sanitizeText);
      var (t2, o2) := Webhook(t1, req, now2, sanitizeEmail, sanitizeText);
      t2 == t1 && (if o1.Credited? then o2 == Duplicate else o2 == o1)
  {
    var (t1, o1) := Webhook(t, req, now1, sanitizeEmail, sanitizeText);
    if o1.Credited? {
      var k := |t.rows|;
      assert t1.rows[k].source == STRIPE && t1.rows[k].externalId == Some(Decide(req).sessionId);
      assert StripeRowExists(t1, Decide(req).sessionId);
    }
  }

  /** The webhook never records a second `stripe` row for a session, given ids that sanitise to themselves. */
  lemma WebhookPreservesStripeUnique(t: Table, req: WebhookRequest, now: int,
                                     sanitizeEmail: string -> string, sanitizeText: string -> string)
    requires StripeUnique(t.rows)
    requires req.event.Some? ==> sanitizeText(req.event.value.session.id) == req.event.value.session.id
    ensures StripeUnique(Webhook(t, req, now, sanitizeEmail, sanitizeText).0.rows)
  {
    var (t1, o1) := Webhook(t, req, now, sanitizeEmail, sanitizeText);
    if o1.Credited? {
      var k := |t.rows|;
      var id := Decide(req).sessionId;
      assert !StripeRowExists(t, id);
      assert t1.rows[k].externalId == Some(id);
      forall i | 0 <= i < k && t1.rows[i].source == STRIPE
        ensures t1.rows[i].externalId != t1.rows[k].externalId
      {
        assert t1.rows[i] == t.rows[i];
        assert !(t.rows[i].source == STRIPE && t.rows[i].externalId == Some(id));
      }
    }
  }

  /** Every delta the webhook records is positive. */
  lemma WebhookPreservesNonZero(t: Table, req: WebhookRequest, now: int,
                                sanitizeEmail: string -> string, sanitizeText: string -> string)
    requires NonZeroDeltas(t.rows)
    ensures NonZeroDeltas(Webhook(t, req, now, sanitizeEmail, sanitizeText).0.rows)
  {
  }

  /**
   * The lookup uses the raw id but the row stores the sanitised one: a session
   * id with a leading blank, which `sanitize_text_field` trims, is stored
   * without it, so a redelivery finds no row and is credited a second time.
   */
  lemma DoubleCreditWhenSanitizerAltersId()
    ensures var strip := (s: string) => if s == " cs_1" then "cs_1" else s;
      var same := (s: string) => s;
      var session := CheckoutSession(" cs_1", Some("a@b.com"), None, None, Some(15000), None);
      var req := WebhookRequest("whsec", true, Some(Event(CHECKOUT_COMPLETED, session)));
      var t0 := Table(true, [], 1);
      var (t1, o1) := Webhook(t0, req, 10, same, strip);
      var (t2, o2) := Webhook(t1, req, 20, same, strip);
      o1.Credited? && o2.Credited? && |t2.rows| == 2 && SumDeltas(t2.rows, "a@b.com") == 8
  {
    var strip := (s: string) => if s == " cs_1" then "cs_1" else s;
    var same := (s: string) => s;
    var session := CheckoutSession(" cs_1", Some("a@b.com"), None, None, Some(15000), None);
    var req := WebhookRequest("whsec", true, Some(Event(CHECKOUT_COMPLETED, session)));
    var t0 := Table(true, [], 1);
    assert SessionPackage(session) == FOUR_PACK;
    assert Decide(req) == Append("a@b.com", 4, " cs_1");
    var (t1, o1) := Webhook(t0, req, 10, same, strip);
    assert t1.rows == [Entry(1, "a@b.com", 4, STRIPE, Some("cs_1"), 10)];
    assert "cs_1" != " cs_1";
    assert !StripeRowExists(t1, " cs_1");
    var (t2, o2) := Webhook(t1, req, 20, same, strip);
    assert t2.rows == t1.rows + [Entry(2, "a@b.com", 4, STRIPE, Some("cs_1"), 20)];
    assert SumDeltas(t2.rows, "a@b.com") == 4 + SumDeltas(t2.rows[1..], "a@b.com");
  }

  /** A $150.00 checkout for `a@b.com`, delivered twice, leaves one +4 row and a balance of 4. */
  lemma CheckoutScenario()
    ensures var same := (s: string) => s;
      var session := CheckoutSession("cs_123", Some("a@b.com"), None, None, Some(15000), None);
      var req := WebhookRequest("whsec", true, Some(Event(CHECKOUT_COMPLETED, session)));
      var (t1, o1) := Webhook(Table(true, [], 1), req, 10, same, same);
      var (t2, o2) := Webhook(t1, req, 20, same, same);
      && t1.rows == [Entry(1, "a@b.com", 4, STRIPE, Some("cs_123"), 10)]
      && o1 == Credited("a@b.com", 4, "cs_123") && HttpStatus(o1) == 200
      && o2 == Duplicate && HttpStatus(o2) == 200
      && t2 == t1 && SumDeltas(t2.rows, "a@b.com") == 4
  {
    var same := (s: string) => s;
    var session := CheckoutSession("cs_123", Some("a@b.com"), None, None, Some(15000), None);
    var req := WebhookRequest("whsec", true, Some(Event(CHECKOUT_COMPLETED, session)));
    assert SessionPackage(session) == FOUR_PACK;
    WebhookIdempotent(Table(true, [], 1), req, 10, 20, same, same);
  }
}
