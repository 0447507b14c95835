/**
 * The booking package tracker: the ledger balance reader used by the front end
 * and the `[brighttails-booking-tracker]` shortcode, which shows the remaining
 * credits (from the ledger, or a numeric override) and whether a package is
 * active.  The rendered HTML is not modelled; the data handed to the front end
 * is.
 */
module BookingTracker {
  import opened Options
  import opened Php
  import opened Ledger
  import opened StripeWebhook
  import LastPayment

  /** `bt_get_user_credits`: 0 for an empty email or a missing table, else the ledger balance. */
  function UserCredits(t: Table, email: string, sanitizeEmail: string -> string): (r: int)
    ensures IsEmpty(email) || !t.present ==> r == 0
    ensures !IsEmpty(email) && t.present ==> r == Total(RowsOf(t.rows, sanitizeEmail(email)))
  {
    SumDeltasIsTotalOfOwnRows(t.rows, sanitizeEmail(email));
    if IsEmpty(email) then 0
    else if !t.present then 0
    else SumDeltas(t.rows, sanitizeEmail(email))
  }

  /** The shortcode's attributes after `shortcode_atts`: absent ones are "". */
  datatype TrackerAtts = TrackerAtts(email: string, calEmail: string, credits: string)

  /** What the shortcode hands to the front end, or the missing-email error box. */
  datatype TrackerView =
    | MissingEmail
    | Tracker(email: string, calEmail: string, credits: int, hasPackage: bool)

  /** A non-empty numeric `credits` attribute overrides the ledger. */
  predicate OverridesLedger(credits: string) {
    !IsEmpty(credits) && IsNumeric(credits)
  }

  /** `brighttails_booking_tracker_shortcode`. */
  function TrackerShortcode(atts: TrackerAtts, t: Table, sanitizeEmail: string -> string): (v: TrackerView)
    ensures v.MissingEmail? <==> IsEmpty(sanitizeEmail(atts.email))
    ensures v.Tracker? ==>
      && v.email == sanitizeEmail(atts.email)
      && v.calEmail == (if IsEmpty(atts.calEmail) then v.email else sanitizeEmail(atts.calEmail))
      && (v.hasPackage <==> v.credits > 0)
      && (OverridesLedger(atts.credits) ==> v.credits == IntCast(atts.credits))
      && (!OverridesLedger(atts.credits) ==> v.credits == UserCredits(t, v.email, sanitizeEmail))
  {
    var email := sanitizeEmail(atts.email);
    var calEmail := if !IsEmpty(atts.calEmail) then sanitizeEmail(atts.calEmail) else email;
    if IsEmpty(email) then MissingEmail
    else
      var credits := if OverridesLedger(atts.credits) then IntCast(atts.credits) else UserCredits(t, email, sanitizeEmail);
      Tracker(email, calEmail, credits, credits > 0)
  }

  // ---------------------------------------------------------------------------
  // Properties

  /** The tracker and the last-payment endpoint report the same balance for a non-empty email. */
  lemma TrackerAgreesWithLastPayment(t: Table, email: string, sanitizeEmail: string -> string)
    requires !IsEmpty(email)
    ensures UserCredits(t, email, sanitizeEmail) == LastPayment.RemainingCredits(t, sanitizeEmail(email))
  {
  }

  /**
   * `credits="0"` is not an override: "0" is empty to PHP, so the ledger
   * balance is shown instead.
   */
  lemma ZeroOverrideReadsLedger(t: Table, email: string, sanitizeEmail: string -> string)
    requires !IsEmpty(sanitizeEmail(email))
    ensures TrackerShortcode(TrackerAtts(email, "", "0"), t, sanitizeEmail).credits
            == UserCredits(t, sanitizeEmail(email), sanitizeEmail)
  {
  }

  /** A numeric override such as "5" is shown as is, whatever the ledger holds. */
  lemma NumericOverride(t: Table, email: string, sanitizeEmail: string -> string)
    requires !IsEmpty(sanitizeEmail(email))
    ensures var v := TrackerShortcode(TrackerAtts(email, "", "5"), t, sanitizeEmail);
      v.credits == 5 && v.hasPackage
  {
    IntCastOfIntToString(5);
    assert IntToString(5) == "5" by {
      assert NatToString(5) == "5";
    }
  }

  /**
   * After the webhook credits a purchase, the tracker (without an override)
   * shows an active package for the buyer, provided the balance was not
   * negative and the email sanitiser is idempotent.
   */
  lemma PurchaseActivatesPackage(t: Table, req: WebhookRequest, now: int,
                                 sanitizeEmail: string -> string, sanitizeText: string -> string,
                                 atts: TrackerAtts)
    requires forall s :: sanitizeEmail(sanitizeEmail(s)) == sanitizeEmail(s)
    requires !OverridesLedger(atts.credits)
    requires var w := Webhook(t, req, now, sanitizeEmail, sanitizeText);
      w.1.Credited? && atts.email == w.1.email
    requires UserCredits(t, sanitizeEmail(atts.email), sanitizeEmail) >= 0
    ensures var w := Webhook(t, req, now, sanitizeEmail, sanitizeText);
      var v := TrackerShortcode(atts, w.0, sanitizeEmail);
      !IsEmpty(sanitizeEmail(atts.email)) ==> v.Tracker? && v.hasPackage && v.credits >= 1
  {
    var w := Webhook(t, req, now, sanitizeEmail, sanitizeText);
    var e := sanitizeEmail(atts.email);
    if !IsEmpty(e) {
      assert sanitizeEmail(e) == e;
      WebhookBalance(t, req, now, sanitizeEmail, sanitizeText, e);
    }
  }
}
