/**
 * Stripe records as the plugin reads them, and the purchase-to-credits mapping
 * shared by the webhook and the payment resolver: an explicit package tag wins,
 * otherwise the amount is matched against three price tiers with a tolerance
 * of one dollar, otherwise one credit.  Money is in integer cents.
 */
module Packages {
  import opened Options
  import opened Php

  /** A Checkout Session (`checkout.session.completed` payload, or a listed session). */
  datatype CheckoutSession = CheckoutSession(
    id: string,
    customerDetailsEmail: Option<string>,  // customer_details->email
    customerEmail: Option<string>,         // customer_email
    metadataPackage: Option<string>,       // metadata->package
    amountTotal: Option<int>,              // amount_total, in cents
    paymentIntent: Option<string>)         // payment_intent id

  /** A PaymentIntent. */
  datatype PaymentIntent = PaymentIntent(
    id: string,
    status: string,
    amount: Option<int>,                   // cents
    currency: Option<string>,
    created: Option<int>,                  // Unix seconds
    receiptEmail: Option<string>,
    metadataPackage: Option<string>,
    description: Option<string>)

  /** A Charge. */
  datatype Charge = Charge(
    id: string,
    paid: bool,
    status: Option<string>,
    amount: Option<int>,
    currency: Option<string>,
    created: Option<int>,
    receiptEmail: Option<string>,
    billingEmail: Option<string>)          // billing_details->email

  /** The customer email of a session: `customer_details->email ?? customer_email`. */
  function SessionEmail(s: CheckoutSession): (r: Option<string>)
    ensures r.Some? <==> s.customerDetailsEmail.Some? || s.customerEmail.Some?
    ensures s.customerDetailsEmail.Some? ==> r == s.customerDetailsEmail
    ensures s.customerDetailsEmail.None? ==> r == s.customerEmail
  {
    Coalesce(s.customerDetailsEmail, s.customerEmail)
  }

  const EIGHT_PACK := "8_pack"
  const FOUR_PACK := "4_pack"
  const SINGLE := "single"

  function Abs(x: int): nat {
    if x < 0 then -x else x
  }

  /**
   * `abs($cents / 100 - T) < 1` for the tiers T = 280, 150, 45 in that order,
   * with `single` as the fallback.
   */
  function PackageForAmount(cents: int): (p: string)
    ensures p == EIGHT_PACK <==> 27900 < cents < 28100
    ensures p == FOUR_PACK <==> 14900 < cents < 15100
    ensures p == SINGLE <==> !(27900 < cents < 28100) && !(14900 < cents < 15100)
  {
    if Abs(cents - 28000) < 100 then EIGHT_PACK
    else if Abs(cents - 15000) < 100 then FOUR_PACK
    else if Abs(cents - 4500) < 100 then SINGLE
    else SINGLE
  }

  /** The `switch ($package)`: 8, 4 and 1 credits, and 1 for any unknown tag. */
  function CreditsFor(package: string): (c: nat)
    ensures c == 1 || c == 4 || c == 8
    ensures c == 8 <==> package == EIGHT_PACK
    ensures c == 4 <==> package == FOUR_PACK
  {
    if package == EIGHT_PACK then 8
    else if package == FOUR_PACK then 4
    else 1
  }

  /** The display name the resolver reports beside the credits. */
  function PackageName(package: string): (n: string)
    ensures n == "8-Pack" <==> CreditsFor(package) == 8
    ensures n == "4-Pack" <==> CreditsFor(package) == 4
    ensures n == "Single" <==> CreditsFor(package) == 1
  {
    if package == EIGHT_PACK then "8-Pack"
    else if package == FOUR_PACK then "4-Pack"
    else "Single"
  }

  /**
   * The package a tag (metadata or description hint) and an amount select:
   * a truthy tag is used as is, anything else falls back to the amount tiers.
   */
  function ChoosePackage(tag: Option<string>, cents: int): (p: string)
    ensures Truthy(tag) ==> p == tag.value
    ensures !Truthy(tag) ==> p == PackageForAmount(cents)
  {
    if Truthy(tag) then tag.value else PackageForAmount(cents)
  }

  /**
   * What a purchase is worth: a truthy tag decides on its own (8 for `8_pack`,
   * 4 for `4_pack`, 1 for any other text), and without one the amount tier does.
   */
  lemma ChoosePackageCredits(tag: Option<string>, cents: int)
    ensures CreditsFor(ChoosePackage(tag, cents)) == 8 <==>
      (Truthy(tag) && tag.value == EIGHT_PACK) || (!Truthy(tag) && 27900 < cents < 28100)
    ensures CreditsFor(ChoosePackage(tag, cents)) == 4 <==>
      (Truthy(tag) && tag.value == FOUR_PACK) || (!Truthy(tag) && 14900 < cents < 15100)
    ensures Truthy(tag) && tag.value != EIGHT_PACK && tag.value != FOUR_PACK ==>
      CreditsFor(ChoosePackage(tag, cents)) == 1
  {
  }

  /** The price points of the product and what they buy, with the one-dollar tolerance. */
  lemma KnownPricePoints()
    ensures CreditsFor(PackageForAmount(28000)) == 8
    ensures CreditsFor(PackageForAmount(15000)) == 4
    ensures CreditsFor(PackageForAmount(4500)) == 1
    ensures CreditsFor(PackageForAmount(4450)) == 1
    ensures CreditsFor(PackageForAmount(9999)) == 1
    ensures CreditsFor(PackageForAmount(27901)) == 8 && CreditsFor(PackageForAmount(27900)) == 1
  {
  }
}
