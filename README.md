# Bright Tails credit ledger, modelled in Dafny

Bright Tails is a WordPress plugin for a dog-training business. Customers buy packages of
session credits through Stripe Checkout, book sessions through Cal.com, and get a pet
profile page. At its centre is the **credits ledger** (`bt_credits_ledger`). It is an
append-only table of signed credit deltas per email, and a customer's balance is the sum of
their deltas. This project models that ledger and every piece of the plugin that writes to
it or reads it:

- **`Ledger`**: the ledger entry and table. It has a `Ledger` class (the table, updated in
  place) with `Insert`, `SumFor` and `FindStripeRow`, and the balance laws.
- **`StripeWebhook`**: `bt_handle_stripe_webhook`.
  - The decision pipeline: secret, SDK, signature, event type, email, package and credits.
  - The check-then-insert that credits one Stripe Checkout session at most once.
- **`Packages`**: the mapping that the webhook and the payment resolver share. It goes
  from a metadata tag or an amount to a package, and from a package to credits and a name.
  Amounts are integer cents.
- **`LastPayment`**: the `bt_get_last_payment` REST endpoint.
  - Input validation.
  - The four ordered payment-resolution strategies. Each scans a provider listing and
    stops at the first qualifying record (`Search.FindFirst`).
  - Package derivation, the Cal.com booking date filter, the fused consumption count, and
    the remaining balance.
- **`CreditManager`**: the admin page.
  - `bt_handle_credit_adjustment`, a validated `manual` append that reports the new
    balance.
  - Its two read-only views. One shows the 50 newest rows; the other shows the 100 highest
    balances grouped by email. Both are built on `Sorting.TopDesc`, which models
    `ORDER BY … DESC LIMIT n`.
- **`BookingTracker`**: `bt_get_user_credits` and the tracker shortcode's credits and
  `hasPackage` decision.
- **`PetProfile`**: the Gutenberg block-tree helpers.
  - Count, find and update: `UpdateBlocksBy` is the loop, and `UpdateBlocks` wraps it.
  - The pet-profile shortcode's required attributes and default values.
  - The weight normalisation.
  - The merge of a found block's attributes.
- **`Php`** and **`Options`**: the PHP semantics the code relies on.
  - `empty()` and truthiness: `"0"` is empty.
  - `strtolower`, `trim`, `is_numeric`, `intval` and `(int)`.
  - Rendering integers as text.
  - `??`.

The WordPress and provider functions the code calls are parameters of the model.

- **Parameters:** `sanitize_email`, `sanitize_text_field`, `is_email` and
  `wp_get_attachment_image_url`.
- **Inputs:** the Stripe signature check, every Stripe listing, the Cal.com response,
  `current_time` and the user id.

Three facts about the code that shape the model:

- **No uniqueness constraint on Stripe rows.** The schema has only a plain index
  (`external_idx`) on `external_id`, so the webhook's own lookup is the sole guard against
  a second row for a session.
- **Stripe errors end the request.** A Stripe API error in any listing the resolver consults
  returns 500 (`StripeApiError`); no strategy is skipped on error.
- **The adjustment reason is not stored.** The admin adjustment sanitises the reason field
  and never writes it, so the model has no reason field.

**The session-id check (`DoubleCreditWhenSanitizerAltersId`).** The duplicate check looks up
the session id as received, but the row stores `sanitize_text_field` of that id. The
webhook is idempotent (`WebhookIdempotent`) and keeps at most one `stripe` row per session
(`WebhookPreservesStripeUnique`) only if sanitising leaves the id unchanged. Both lemmas
take that as a precondition. `DoubleCreditWhenSanitizerAltersId` shows a sanitiser that
trims a leading blank and thereby credits a redelivery twice. Real Stripe session ids
contain no characters that `sanitize_text_field` changes, so this is a fragility, not a
demonstrated bug.

**The block search (`FindSkipsEmptyNestedMatch`).** The search returns a matching block's
attribute array whatever it holds. A result from inner blocks, however, is used only when
it is truthy, that is, a non-empty array. When the name or the email searched for is not
blank, a matching block always has that attribute set, and the search is exactly "first
match in pre-order" (`FindIsFirstPreorderMatch`). With both search terms blank, a bare
nested block is skipped in favour of a later sibling (`FindSkipsEmptyNestedMatch`). The
shortcode rejects blank search terms before searching, so the quirk cannot be reached from
there.

## Model

| member | source | states |
|---|---|---|
| Php.TrimRemovesOuter | src/features/pet-profile/pet-profile.php:415-418 | `trim` removes exactly the outer trim characters: the result is, character by character, the input from the end of its leading run of trim characters on, only trim characters follow it, and (by `Trim`'s own contract) it neither starts nor ends with one |
| Php.IntCastOfIntToString | src/admin/credit-manager.php:38 | reading back the decimal form of any integer with `intval` gives the integer, and the form is numeric |
| Php.IntCast | src/features/booking-package-tracker/booking-package-tracker.php:233-236 | `(int)` of a non-empty string of digits is its decimal value |
| Php.DigitsAreNumeric | src/features/booking-package-tracker/booking-package-tracker.php:233-236 | a non-empty string of digits is numeric and `(int)` reads its decimal value |
| Php.NumericPlain | src/features/booking-package-tracker/booking-package-tracker.php:233-236 | "5" is numeric and reads as 5 |
| Php.NumericRejects | src/features/booking-package-tracker/booking-package-tracker.php:233-236 | "" and "abc" are not numeric and read as 0 |
| Php.NumericPadded | src/features/pet-profile/pet-profile.php:116 | " 12 " is numeric (surrounding white space is allowed) and reads as 12 |
| Php.NumericWithUnit | src/features/pet-profile/pet-profile.php:116 | "5 lbs" is not numeric, while `(int)` still reads its leading 5 |
| Packages.SessionEmail | src/includes/stripe-webhook.php:47-50 | the session email is `customer_details.email` when set, else `customer_email`; it is null iff both are |
| Packages.PackageForAmount | src/includes/stripe-webhook.php:57-69 | 8_pack iff 279 < dollars < 281, 4_pack iff 149 < dollars < 151, single otherwise (tolerance strictly below one dollar, in cents) |
| Packages.CreditsFor | src/includes/stripe-webhook.php:71-77 | credits are always 1, 4 or 8; 8 iff 8_pack, 4 iff 4_pack, any other tag gives 1 |
| Packages.PackageName | src/includes/stripe-last-payment.php:375-395 | the name is 8-Pack, 4-Pack or Single exactly as the credits are 8, 4 or 1 |
| Packages.ChoosePackageCredits | src/includes/stripe-webhook.php:53-77 | a purchase buys 8 iff its truthy tag is `8_pack`, or it has no truthy tag and the amount is within a dollar of $280; 4 likewise for `4_pack` and $150; any other truthy tag buys 1 |
| Packages.KnownPricePoints | src/includes/stripe-webhook.php:59-68 | $280 buys 8, $150 buys 4, $45 buys 1, other amounts buy 1, and the tolerance edge $279.00 no longer buys 8 |
| Ledger.RowsOf | src/features/booking-package-tracker/booking-package-tracker.php:35-38 | the rows selected for an email are exactly the table's rows of that email, each as often as in the table |
| Ledger.AppendRow | src/includes/stripe-webhook.php:98-103 | an insert into an existing table appends exactly the new row with the next id, and an insert into a missing table changes nothing |
| Ledger.SumDeltasAppend | src/features/booking-package-tracker/booking-package-tracker.php:35-40 | appending a row changes only its own email's balance, by its delta |
| Ledger.SumDeltasConcat | src/features/booking-package-tracker/booking-package-tracker.php:35-40 | the balance of two row lists together is the sum of their balances |
| Ledger.SumDeltasIsTotalOfOwnRows | src/features/booking-package-tracker/booking-package-tracker.php:35-40 | a balance is the total of that email's own rows; other emails' rows do not contribute |
| Ledger.SameOwnRowsSameBalance | src/features/booking-package-tracker/booking-package-tracker.php:35-40 | two tables with the same rows for an email give that email the same balance |
| Ledger.SumDeltasPermutation | src/features/booking-package-tracker/booking-package-tracker.php:35-40 | the balance does not depend on the order of the rows |
| Ledger.Ledger.constructor | src/features/booking-package-tracker/installer.php:23-34 | a new table is empty, its next id is 1, and it may be marked missing |
| Ledger.Ledger.Insert | src/includes/stripe-webhook.php:98-105 | insert succeeds iff the table exists, and then appends one row with the next id; the id invariant is kept |
| Ledger.Ledger.SumFor | src/features/booking-package-tracker/booking-package-tracker.php:35-40 | the summing loop returns `COALESCE(SUM(delta), 0)` for the email, 0 for a missing table |
| Ledger.Ledger.FindStripeRow | src/includes/stripe-webhook.php:85-93 | finds a row iff a `stripe` row with this external id exists, and returns that row's id |
| StripeWebhook.Decide | src/includes/stripe-webhook.php:18-77 | the guards in order give 500 for a missing secret, 500 for a missing SDK, 400 for a bad signature, `ignored` for another event type and 400 for no email; a request passing them all appends the session's email, its id and `CreditsFor` of its package, 1, 4 or 8 |
| StripeWebhook.SessionPackage | src/includes/stripe-webhook.php:53-69 | a truthy metadata tag is the package; otherwise the session buys 8 iff `amount_total` is set and within a dollar of $280, 4 likewise for $150, and a missing amount buys 1 |
| StripeWebhook.Webhook | src/includes/stripe-webhook.php:12-115 | a failing guard's outcome is returned with the ledger unchanged; duplicate iff a `stripe` row for the session exists; insert failure iff the table is missing and there is no such row; credited iff the pipeline passes, the table exists and there is no such row, reporting the session's email, credits and id, and then exactly one positive `stripe` row with the sanitised email and id is appended |
| StripeWebhook.HandleStripeWebhook | src/includes/stripe-webhook.php:12-115 | the handler on the shared ledger yields the new table and outcome that `Webhook` specifies, and keeps the ledger's id invariant |
| StripeWebhook.WebhookBalance | src/includes/stripe-webhook.php:98-114 | a credited delivery raises the stored email's balance by the credits, and no other balance changes |
| StripeWebhook.WebhookIdempotent | src/includes/stripe-webhook.php:83-95 | when sanitising keeps the session id, a second delivery leaves the ledger as the first left it and reports duplicate after a credit (otherwise repeats the first outcome) |
| StripeWebhook.WebhookPreservesStripeUnique | src/includes/stripe-webhook.php:83-103 | when sanitising keeps the session id, the webhook never adds a second `stripe` row for a session |
| StripeWebhook.WebhookPreservesNonZero | src/includes/stripe-webhook.php:71-77 | every delta the webhook records is non-zero |
| StripeWebhook.DoubleCreditWhenSanitizerAltersId | src/includes/stripe-webhook.php:85-102 | a session id with a leading blank, stored trimmed, is not found on redelivery: the same event is credited twice and the balance doubles |
| StripeWebhook.CheckoutScenario | src/includes/stripe-webhook.php:40-114 | a $150 checkout delivered twice gives one +4 row, 200 both times, duplicate on the second, balance 4 |
| Search.First | src/includes/stripe-last-payment.php:159-168 | the index found qualifies and no earlier element does; none iff no element qualifies |
| Search.FindFirst | src/includes/stripe-last-payment.php:159-168 | the scan-and-break loop finds the first qualifying index |
| Search.FirstCharacterized | src/includes/stripe-last-payment.php:159-168 | `First` answers index k iff k is the first qualifying index, and nothing iff no element qualifies |
| LastPayment.ResolvePayment | src/includes/stripe-last-payment.php:112-272 | the four strategy loops, threaded through `if (!$last_payment)`, give the resolution `Resolve` defines: customer intents, then customer charges, then guest intents, guest charges and checkout sessions, any API error failing the whole |
| LastPayment.FirstCustomer | src/includes/stripe-last-payment.php:113-122 | the customer is the first one the email lookup lists, and none iff the list is empty |
| LastPayment.Resolve | src/includes/stripe-last-payment.php:112-272 | a resolved search reports the customer the lookup returned, and a failing customer lookup fails the search |
| LastPayment.ResolveByCustomerIntent | src/includes/stripe-last-payment.php:113-168 | with a customer and its listings returned, the first succeeded or `requires_capture` intent of the customer is the payment, source `payment_intent` |
| LastPayment.ResolveByCustomerCharge | src/includes/stripe-last-payment.php:171-190 | when no customer intent qualifies, the customer's first paid charge is the payment, source `charge` |
| LastPayment.ResolveByGuestIntent | src/includes/stripe-last-payment.php:192-216 | when the customer stage finds nothing, the first recent intent with a matching receipt email that succeeded is the payment, source `payment_intent_guest` |
| LastPayment.ResolveByGuestCharge | src/includes/stripe-last-payment.php:218-240 | when no guest intent qualifies either, the first recent paid charge whose receipt or billing email matches is the payment, source `charge_guest` |
| LastPayment.ResolveBySession | src/includes/stripe-last-payment.php:242-272 | when no guest charge qualifies either, the retrieved intent of the first session whose email matches and whose intent succeeded is the payment, source `checkout_session` |
| LastPayment.ResolveFindsNothing | src/includes/stripe-last-payment.php:275-295 | no payment is found iff every consulted listing is returned and none holds a qualifying record |
| LastPayment.CustomerStageNothing | src/includes/stripe-last-payment.php:113-190 | the customer strategy finds nothing iff there is no customer, or its listings are returned with no succeeded intent and no paid charge |
| LastPayment.ResolveFoundByCustomer | src/includes/stripe-last-payment.php:113-190 | a payment from the customer stage is the first qualifying intent, or, when no intent qualifies, the first paid charge, of a customer whose listings were returned |
| LastPayment.ResolveFoundAsGuest | src/includes/stripe-last-payment.php:192-272 | a guest intent, guest charge or session payment is the first qualifying record of its listing, and every earlier stage found nothing |
| LastPayment.DescriptionPackage | src/includes/stripe-last-payment.php:334-347 | on the lower-cased description: 8_pack iff "8 pack" or "8-pack" occurs; 4_pack iff those do not and "4 pack" or "4-pack" does; single iff none of those and "single" or "1 pack" does; no hint otherwise |
| LastPayment.StoredTag | src/includes/stripe-last-payment.php:314-331 | the intent's metadata tag when set, else only the first listed session's tag of a returned lookup |
| LastPayment.IntentPurchasedPackage | src/includes/stripe-last-payment.php:312-372 | for an intent payment: a truthy metadata tag, else a truthy first-session tag, else (unless the session lookup failed) the description keywords, else the amount tiers; a failed lookup goes straight to the amount tiers |
| LastPayment.BookingsSince | src/includes/stripe-last-payment.php:508-535 | a booking is kept iff it has `start` at or after the purchase, or has no `start` and `createdAt` at or after it; every kept booking keeps its multiplicity, and nothing else is kept |
| LastPayment.BookingsSinceIsSubsequence | src/includes/stripe-last-payment.php:508-535 | the kept bookings are an order-preserving subsequence of the response |
| LastPayment.BookingBoundary | src/includes/stripe-last-payment.php:512-531 | the bound is inclusive, `start` takes precedence over `createdAt`, and a booking with neither is dropped |
| LastPayment.CountConsumption | src/includes/stripe-last-payment.php:645-656 | the ledger count is 0 iff no row is a negative, non-stripe row of the email since the purchase, and all rows iff every row is |
| LastPayment.CountCompleted | src/includes/stripe-last-payment.php:667-676 | the bookings-table count is 0 iff no row is a completed, confirmed or accepted booking of the email since the purchase, and all rows iff every row is |
| LastPayment.CompletedAppend | src/includes/stripe-last-payment.php:667-676 | appending a booking row raises the count by one exactly when it counts |
| LastPayment.FusedCount | src/includes/stripe-last-payment.php:680-685 | the ledger count wins unless it is 0, and then the bookings-table count is used |
| LastPayment.CompletedSincePurchase | src/includes/stripe-last-payment.php:640-686 | a positive ledger consumption count is reported; the result is 0 iff neither the ledger nor the bookings table has a qualifying row |
| LastPayment.WebhookKeepsCompletedCount | src/includes/stripe-last-payment.php:646-651 | a webhook delivery leaves the sessions-used count unchanged |
| LastPayment.Report | src/includes/stripe-last-payment.php:296-372 | the report carries the payment's source label, id, amount and creation time, the package the payment derives and its credits (1, 4 or 8) and name, the balance, and the consumption and bookings counted from the creation time, every booking at or after it |
| LastPayment.LastPayment | src/includes/stripe-last-payment.php:25-740 | 400 email_required iff the email is empty; invalid_email iff it fails `is_email` after sanitising; invalid_cal_email iff a given Cal.com email is invalid; after validation, stripe_key_missing iff no key is configured, stripe_sdk_missing iff the SDK is absent, a Stripe API error iff the resolver fails, no_payment_found with the customer id iff the resolver finds nothing, and otherwise the report of the resolved payment with the sanitised email and the Cal.com email defaulting to it |
| LastPayment.LaterStrategiesNotConsulted | src/includes/stripe-last-payment.php:191-272 | once a strategy finds a payment, the later strategies' listings can be anything, failures included, without changing the result |
| LastPayment.ChargeOnlyScenario | src/includes/stripe-last-payment.php:217-239 | with no customer and only a canceled intent, a paid charge with differently-cased receipt email is found as `charge_guest` |
| LastPayment.PackageCreditsAgreeWithWebhook | src/includes/stripe-last-payment.php:312-372 | for charge-based sources no hint is consulted: the package is the webhook's amount tier |
| LastPayment.ConsumptionAppend | src/includes/stripe-last-payment.php:645-656 | appending a row raises the consumption count by one exactly when it is a negative, non-stripe row of the email since the purchase |
| LastPayment.WebhookIsNotConsumption | src/includes/stripe-last-payment.php:646-651 | a webhook delivery never changes the consumption count |
| CreditManager.Adjust | src/admin/credit-manager.php:28-94 | each failed guard, in source order, gives its own outcome (`Unauthorized` without `manage_options`, `NotSubmitted` without the submit field or a valid nonce, `InvalidEmail` for an empty or invalid email, `ZeroDelta` for a zero delta, `TableMissing` without the table); no ledger change unless authorised, submitted with a valid nonce, a valid email, a non-zero delta and an existing table; then exactly one `manual` row with the delta and `admin_<time>_<user>` id is appended, "Added" iff delta > 0, `abs(delta)` reported, and the new balance is the old one plus delta |
| CreditManager.AdjustCredits | src/admin/credit-manager.php:28-94 | the handler on the shared ledger yields the new table and outcome `Adjust` specifies, and keeps the id invariant |
| CreditManager.AdjustBalance | src/admin/credit-manager.php:66-90 | an adjustment moves the adjusted email's balance by exactly the delta and no other balance |
| CreditManager.AdjustTwice | src/admin/credit-manager.php:66-71 | there is no duplicate check: the same form twice appends two rows and moves the balance by twice the delta |
| CreditManager.AdjustPreservesStripeUnique | src/admin/credit-manager.php:66-71 | a manual row never breaks the one-row-per-session property of `stripe` rows |
| CreditManager.AdjustPreservesNonZero | src/admin/credit-manager.php:46-49 | every row the adjustment records has a non-zero delta |
| CreditManager.RemovalMayOverdraw | src/admin/credit-manager.php:83-87 | removing 3 credits from an empty balance succeeds, reports "Removed" 3 and a balance of -3 |
| CreditManager.RecentTransactionsSpec | src/admin/credit-manager.php:121-129 | the recent view is empty for a missing table, else the min(50, n) newest rows, newest first, drawn from the table, no row left out newer than one shown |
| CreditManager.DistinctEmails | src/admin/credit-manager.php:134-137 | the grouped emails are exactly the emails of the rows, each once |
| CreditManager.GroupBalances | src/admin/credit-manager.php:134-137 | one group per distinct email, carrying that email's sum of deltas |
| CreditManager.GroupBalancesDistinct | src/admin/credit-manager.php:134-137 | no two groups share an email |
| CreditManager.UserBalancesRows | src/admin/credit-manager.php:134-142 | every shown row is an email of the ledger with its ledger balance |
| CreditManager.UserBalancesDistinct | src/admin/credit-manager.php:134-142 | no email is shown twice |
| CreditManager.UserBalancesTop | src/admin/credit-manager.php:134-142 | no email left out has a higher balance than one shown |
| CreditManager.UserBalancesSpec | src/admin/credit-manager.php:133-143 | the balances view has min(100, emails) rows, sorted by balance descending, one per email with its balance, none left out ranking higher |
| Sorting.InsertDesc | src/admin/credit-manager.php:138-139 | inserting keeps descending order and adds exactly the one element |
| Sorting.SortDesc | src/admin/credit-manager.php:125-126 | the sorted rows are a permutation of the input in descending key order |
| Sorting.SortTiesReversed | src/admin/credit-manager.php:125-126 | rows with equal keys come out in reverse input order, an order SQL leaves unspecified |
| Sorting.TopDescDrawn | src/admin/credit-manager.php:138-139 | the top n rows are drawn from the input |
| Sorting.TopDescDominates | src/admin/credit-manager.php:138-139 | every row left out ranks no higher than every row shown |
| Sorting.TopDescSpec | src/admin/credit-manager.php:125-126 | `ORDER BY key DESC LIMIT n` gives min(n, len) rows, sorted, drawn from the input, none left out ranking higher |
| BookingTracker.UserCredits | src/features/booking-package-tracker/booking-package-tracker.php:15-41 | 0 for an empty email or a missing table, else the total of that email's own rows |
| BookingTracker.TrackerShortcode | src/features/booking-package-tracker/booking-package-tracker.php:206-249 | the missing-email error iff the sanitised email is empty; `cal_email` defaults to the email; a non-empty numeric `credits` overrides the ledger, else the ledger balance; `hasPackage` iff credits > 0 |
| BookingTracker.TrackerAgreesWithLastPayment | src/features/booking-package-tracker/booking-package-tracker.php:15-41 | the tracker and the last-payment endpoint report the same balance for a non-empty email |
| BookingTracker.ZeroOverrideReadsLedger | src/features/booking-package-tracker/booking-package-tracker.php:233-239 | `credits="0"` is empty to PHP, so the ledger balance is shown |
| BookingTracker.NumericOverride | src/features/booking-package-tracker/booking-package-tracker.php:233-241 | `credits="5"` shows 5 and an active package whatever the ledger holds |
| BookingTracker.PurchaseActivatesPackage | src/features/booking-package-tracker/booking-package-tracker.php:233-241 | after the webhook credits a buyer whose balance was not negative, the tracker shows an active package with at least one credit |
| PetProfile.CountBlocks | src/features/pet-profile/pet-profile.php:396-407 | the count is the number of plugin blocks at any depth of the pre-order listing |
| PetProfile.FirstMatch | src/features/pet-profile/pet-profile.php:410-434 | reference search on the pre-order listing: none iff nothing matches, else the attributes of the first match |
| PetProfile.FindByIsFirstPreorder | src/features/pet-profile/pet-profile.php:410-434 | when every match has a non-empty attribute array, the recursive search finds the first match in pre-order |
| PetProfile.MatchedAttrsNonEmpty | src/features/pet-profile/pet-profile.php:413-420 | a block matching a non-blank name or email has that attribute set |
| PetProfile.FindIsFirstPreorderMatch | src/features/pet-profile/pet-profile.php:410-434 | with a non-blank name or email, find returns the first pre-order match's attributes, or null iff no block matches |
| PetProfile.BlankTermsMatchBare | src/features/pet-profile/pet-profile.php:415-420 | with both terms blank, a plugin block without name and email attributes matches (missing counts as "") |
| PetProfile.FindSkipsEmptyNestedMatch | src/features/pet-profile/pet-profile.php:425-430 | a matching nested block with empty attributes is passed over for a later sibling although it is the first pre-order match |
| PetProfile.Overwrite | src/features/pet-profile/pet-profile.php:502-507 | a non-empty value replaces the attribute, an empty one leaves it, other keys unchanged |
| PetProfile.Amend | src/features/pet-profile/pet-profile.php:502-512 | non-empty breed, weight and age overwrite; an empty age sets today only when the existing age is empty; other keys unchanged |
| PetProfile.UpdateBlocksBy | src/features/pet-profile/pet-profile.php:491-524 | the loop returns every block amended iff it matches, inner blocks updated recursively, and `updated` ends true iff it started true or some block at any depth matches |
| PetProfile.UpdateBlocks | src/features/pet-profile/pet-profile.php:491-524 | the update for a form submission: the updated tree, and the flag raised iff some block matches and never lowered |
| PetProfile.AmendKeepsMatching | src/features/pet-profile/pet-profile.php:496-512 | amending never changes whether a block matches |
| PetProfile.UpdatePreservesShape | src/features/pet-profile/pet-profile.php:492-523 | the updated tree has the same length and block names at every level |
| PetProfile.FlattenUpdate | src/features/pet-profile/pet-profile.php:492-523 | the k-th block in pre-order of the updated tree is the k-th block of the original, updated |
| PetProfile.UpdateOnlyTouchesMatches | src/features/pet-profile/pet-profile.php:492-523 | at every depth names are kept, non-matching blocks keep their attributes and matching ones get the amended attributes |
| PetProfile.AnyMatchIsFlattenMatch | src/features/pet-profile/pet-profile.php:491-524 | some block of the tree matches iff some block of its pre-order listing does |
| PetProfile.UpdateThenFind | src/features/pet-profile/pet-profile.php:491-524 | after the update, find returns the amended attributes of the block it found before, and null iff it found none |
| PetProfile.NormalizeWeightUnit | src/features/pet-profile/pet-profile.php:114-120 | the weight carries "lbs" iff the input had it or is numeric after trimming |
| PetProfile.NormalizeWeightIdempotent | src/features/pet-profile/pet-profile.php:114-120 | normalising a normalised weight changes nothing |
| PetProfile.InitProfile | src/features/pet-profile/pet-profile.php:70-89 | the missing-attributes error iff the sanitised name or email is empty; otherwise exactly the six keys, name and email as given, age, breed and weight "TBD", no image |
| PetProfile.MergeDetails | src/features/pet-profile/pet-profile.php:193-201 | non-empty found breed, weight and age replace the current ones; other keys unchanged |
| PetProfile.MergeImage | src/features/pet-profile/pet-profile.php:202-209 | a non-empty found image URL wins, else a non-empty image id with a truthy attachment URL, else the current URL; other keys unchanged |
| PetProfile.MergeFoundDetails | src/features/pet-profile/pet-profile.php:193-201 | after the whole merge, breed, weight and age are the found ones when non-empty, else the defaults |
| PetProfile.MergeFoundImage | src/features/pet-profile/pet-profile.php:202-209 | after the whole merge, the image URL follows the URL, then attachment, then default rule |
| PetProfile.MergeFoundKeepsOthers | src/features/pet-profile/pet-profile.php:192-209 | the merge leaves every attribute other than breed, weight, age and imageUrl untouched |
| PetProfile.ProfileFromPostsBy | src/features/pet-profile/pet-profile.php:183-215 | when no post yields a truthy find result, the defaults stay |
| PetProfile.ProfileFromFirstFound | src/features/pet-profile/pet-profile.php:183-215 | the first post with a truthy find result is the one merged, whatever later posts hold |
| PetProfile.ProfileDefaultsWhenNotFound | src/features/pet-profile/pet-profile.php:183-215 | no post has a matching block with attributes: the profile shows the defaults |

## Left out
- **Stripe SDK.** Signature verification (`\Stripe\Webhook::constructEvent`) and every other Stripe SDK call are foreign library calls. Their results are inputs (`WebhookRequest.event`, `StripeView`), and an exception is `None` or `ApiError`.
- **Sanitisers and validators.** `sanitize_email`, `sanitize_text_field`, `is_email` and `wp_get_attachment_image_url` are WordPress functions. They are function parameters, and nothing is assumed about them beyond what a lemma's precondition states.
- **Cal.com request.** The HTTP request and JSON shape handling (src/includes/stripe-last-payment.php:423-630) are network and parsing plumbing. The response is an input, already parsed into bookings; only the date filter is modelled.
- **Time conversions.** `strtotime`, `date('c')`, `date('Y-m-d H:i:s')` and time zones are not modelled. Every timestamp is an integer in Unix seconds, and the `created_at` string comparison is an integer comparison.
- **Money.** Amounts are integer cents, and `/ 100` and `round` are not modelled. The tolerance `abs(dollars - T) < 1` is the exact integer comparison on cents.
- **Invoices.** The invoice list formatting (src/includes/stripe-last-payment.php:137-149) is presentation. Only whether the invoice call fails is modelled.
- **Database.** `$wpdb`, `SHOW TABLES`, `dbDelta` and the SQL text are not modelled. Each table is an in-memory sequence with an exists flag.
- **Insert failures.** A database error other than a missing table is not modelled: `Insert` fails only when the table is missing.
- **Collation.** A case- and trailing-space-insensitive SQL collation is not modelled: email and `external_id` equality are exact.
- DoubleCreditWhenSanitizerAltersId: uses a leading blank because the table collation ignores trailing spaces and case; `StripeRowExists` compares ids exactly, so it misses the SQL matches of ids that differ only in case or trailing blanks.
- **Tie order.** SQL leaves the order of rows with equal keys unspecified; the model's sort is not stable: tied rows come out in reverse input order (`SortTiesReversed`).
- **Integer widths.** The 32-bit `delta INT` column and PHP's integer bounds are not modelled, because deltas are unbounded integers in the model.
- **`(int)` of huge strings.** Overflow in `(int)` of a numeric string is not modelled, for the same reason; exponent notation is.
- **Concurrency.** The race between two concurrent webhook deliveries that both pass the check before either inserts is left out, because the model is sequential.
- **Logging.** `error_log` output is debugging only.
- **Response bodies.** The admin notices are outcome values, and the HTTP response bodies beyond the fields named in `PaymentReport` are left out. The debug fields and the customer name are among them.
- **Elementor submissions.** The lookup `brighttails_get_elementor_submission` (src/features/pet-profile/pet-profile.php:235-393) is left out, because it is driven by the database and has no stated contract.
- **Submission field mapping.** The shortcode's mapping of submission fields (src/features/pet-profile/pet-profile.php:95-169) is left out, except the weight rule (`NormalizeWeight`). Its age conversion depends on the clock, and its image URL validation is `filter_var`. The model's `ProfileFromPosts` is the branch taken when no submission is found.
- **Elementor form hook.** The hook (src/features/pet-profile/pet-profile.php:444-488) is WordPress glue: `get_posts`, `parse_blocks`, `serialize_blocks` and `wp_update_post`. Its per-post call of the update helper is modelled by `UpdateBlocks`, and posts are given as block trees.
- **Block parsing.** `has_blocks` and `parse_blocks` are left out, and block attributes are strings. A post without blocks is an empty tree.
- UpdateBlocks: returns the updated tree as a new sequence rather than rewriting the caller's array through a reference, and it keeps the by-reference `&$updated` flag as an in/out value.
- **Pet age.** The clock-based age (`strtotime("-N years")` and the front end's `calculateAge`) depends on the clock.
- **Presentation.** JavaScript and React front ends, HTML output, asset enqueueing, settings pages and route registration are presentation and bootstrapping.
