# eventsta-live: checkout pricing, promoter payouts and the pure helpers around them

This project models, in Dafny, the deterministic core of the eventsta-live web
client. That client is a marketplace for event tickets and fundraiser
donations. The model covers:

- **Checkout** (`Checkout`, components/CheckoutModal.tsx):
  - the pricing memo turns a cart, the event's ticket and add-on catalogue, a promo percentage and a fee configuration into line items, subtotal, discount, mandatory fees and total;
  - the default donation (10% of the discounted subtotal, rounded up) and the donation input clamp;
  - the fallback to default fees when settings are missing;
  - the modal's view state machine (checkout, loading, success, error, retry, close), as the class `CheckoutModal`.
- **Promoter earnings** (`Promoter`, pages/PromoterPortal.tsx):
  - the active promotions, filtered through the local list of stopped events;
  - the current balance against all-time earnings, and the 2% instant-transfer quote;
  - the panel state changed by stopping a promotion and by requesting a payout, as the class `PromotionsPanel`.
  - neither confirm button is disabled while its call is under way, so a second press sends a second request (`StopPressedTwice`, `ConfirmPressedTwice`).
- **Event slugs** (`Url`, utils/url.ts): `createEventSlug` and `extractEventId`.
- **API mappers** (`Api`, services/api.ts):
  - ticket de-duplication by id, as a loop with a set;
  - `parseImages`, `parseBool` and `parseNum`, plus the system-settings mapping;
  - `email|password` credential packing;
  - the upload-URL port fix;
  - the renaming of the `updateEvent` payload keys, as a method updating a record;
  - the promotion mapping: its code, link and earned amount.
- **Catalogue editors** (`Editors`, `TicketEditor`, `AddOnEditor`; components/TicketEditor.tsx and components/AddOnEditor.tsx): index-stable client ids, field edits with numeric coercion, append-default, remove-by-index, and the sales gauge.
- **Ticket viewer** (`TicketView`, components/TicketViewModal.tsx): the ticket-type abbreviation, the ticket index list, the QR payload `{orderId}-{index}`, and the reset of the selected ticket.

Helper modules:

- `Js` models JavaScript values: truthiness, `||`, `??`, and objects as `map<string, JsValue>`.
- `Strings` models the string built-ins the source uses: `trim`, ASCII case maps, `split`/`join`, `indexOf`, `replace` and decimal printing.
- `Lists` models `find`, `filter` and removal by index.

Money is exact `real` arithmetic.

Two behaviours of the code worth knowing:

- "Try Again" (`Checkout.CheckoutModal.Retry`) re-enters the checkout view, so the default-donation effect runs again and overwrites a donation the user had typed.
- No amount is floored at zero. Non-negativity is proved for non-negative catalogues, carts and fee settings and a promo percentage between 0 and 100 (`Checkout.TotalNonNegative`).

## Model

| member | source | states |
|---|---|---|
| Checkout.MinimumDonation | components/CheckoutModal.tsx:62-64 | `ticket?.minimumDonation \|\| addOn?.minimumDonation \|\| 0`; its cases are stated by `MinimumDonationSources` |
| Checkout.PriceLine | components/CheckoutModal.tsx:56-90 | the line item of one cart key; stated by `FundraiserLinePrice`, `TicketedLinePrice` and `IsTicketIffTicketType` |
| Checkout.PriceLines | components/CheckoutModal.tsx:54-91 | the line items of the cart; stated by `PriceLinesAt` and `LinesNonNegative` |
| Checkout.DiscountAmount | components/CheckoutModal.tsx:95-104 | the ticket lines' subtotal times the promo percentage, only for ticketed events; stated by `DiscountBounds`, `AddOnLineNotDiscounted` and `AddOnExcludedExample` |
| Checkout.MandatoryFees | components/CheckoutModal.tsx:109-112 | percent of the discounted base plus the fixed fee, none on a non-positive base; stated by `FeesRule` and `FullyDiscountedCartPaysNoFees` |
| Checkout.PriceCart | components/CheckoutModal.tsx:52-124 | the pricing memo: line items, subtotal, discount, fees and total; stated by `SubtotalSplits`, `DiscountBounds`, `FeesRule`, `TotalNonNegative` and `GeneralAdmissionExample` |
| Checkout.PriceLinesAt | components/CheckoutModal.tsx:54-91 | one line item per cart key, in key order, each priced by the line rule |
| Checkout.FundraiserLinePrice | components/CheckoutModal.tsx:60-68 | a fundraiser line costs the larger of the donation entered and the minimum donation, never below either; its subtotal is price × quantity |
| Checkout.MinimumDonationSources | components/CheckoutModal.tsx:62-64 | the first matching ticket's minimum when non-zero; with no such ticket or a zero one, the first matching add-on's minimum when non-zero; otherwise 0 |
| Checkout.TicketedLinePrice | components/CheckoutModal.tsx:71-82 | a ticketed line costs the ticket's price, else the add-on's, else 0 (an unknown key is a free line, not an error); subtotal is price × quantity |
| Checkout.IsTicketIffTicketType | components/CheckoutModal.tsx:58-89 | a line is flagged as a ticket exactly when a ticket type has its key, for both event kinds |
| Checkout.SubtotalSplits | components/CheckoutModal.tsx:93-101 | the subtotal is the ticket lines' subtotal plus the other lines' |
| Checkout.LinesNonNegative | components/CheckoutModal.tsx:54-91 | a non-negative catalogue and cart give non-negative line subtotals |
| Checkout.TicketSubtotalBounds | components/CheckoutModal.tsx:99-101 | the ticket-line subtotal lies between 0 and the subtotal |
| Checkout.DiscountBounds | components/CheckoutModal.tsx:95-104 | for a percentage in [0,100] the discount lies between 0 and the ticket-line subtotal; it is non-zero only with a non-zero percentage on a ticketed event |
| Checkout.AddOnLineNotDiscounted | components/CheckoutModal.tsx:98-103 | adding a line whose key is no ticket type never changes the discount |
| Checkout.FeesRule | components/CheckoutModal.tsx:109-115 | no fees on a non-positive discounted base, else percent of it plus the fixed fee; total = discounted subtotal + fees + donation |
| Checkout.FullyDiscountedCartPaysNoFees | components/CheckoutModal.tsx:95-115 | a ticket-only cart under a 100% promo has discount = subtotal, no fees, and costs exactly the donation |
| Checkout.TotalNonNegative | components/CheckoutModal.tsx:109-115 | on non-negative inputs, subtotal, discount and fees are non-negative and the total is at least the donation |
| Checkout.GeneralAdmissionExample | components/CheckoutModal.tsx:52-124 | two 45 tickets with default fees give subtotal 90, fees 5.66, total 95.66 |
| Checkout.AddOnExcludedExample | components/CheckoutModal.tsx:95-104 | a 100 ticket and a 50 add-on under 10% are discounted 10, not 15 |
| Checkout.Ceil | components/CheckoutModal.tsx:130 | `Math.ceil`: the least integer not below x |
| Checkout.DefaultDonation | components/CheckoutModal.tsx:127-133 | the suggestion lies in [10% of the discounted subtotal, that + 1) and is non-negative on a non-negative base |
| Checkout.DefaultDonationExample | components/CheckoutModal.tsx:130 | subtotal 47 suggests 5 |
| Checkout.DefaultDonationNonNegative | components/CheckoutModal.tsx:127-133 | on a sane cart the suggested donation is never negative |
| Checkout.ClampDonationInput | components/CheckoutModal.tsx:222 | the donation input is never negative: a non-negative parse is kept, NaN or a negative value gives 0 |
| Checkout.FetchedFeesAreParsedSettings | components/CheckoutModal.tsx:34-45 | fetched settings always pass the number check, so the fees are the parsed settings, or 5.9 and 0.35 when none are sent |
| Checkout.CheckoutModal.constructor | components/CheckoutModal.tsx:21-26 | the initial state: checkout view, no error, donation 0, default fees |
| Checkout.CheckoutModal.Open | components/CheckoutModal.tsx:29-33 | opening resets to the checkout view with no error, then sets the default donation on a positive subtotal |
| Checkout.CheckoutModal.ReceiveFeeSettings | components/CheckoutModal.tsx:34-48 | a successful fetch sets the fees from the settings; a failure keeps them |
| Checkout.CheckoutModal.DonationEffect | components/CheckoutModal.tsx:127-133 | while open on the checkout view with a positive subtotal, the donation becomes the default suggestion; otherwise unchanged |
| Checkout.CheckoutModal.EditDonation | components/CheckoutModal.tsx:222 | the donation becomes the clamped input, keeping the invariant |
| Checkout.CheckoutModal.BeginPayment | components/CheckoutModal.tsx:135-147 | without a user nothing changes; otherwise loading view, error cleared, and the current fees and donation are sent |
| Checkout.CheckoutModal.CompletePayment | components/CheckoutModal.tsx:148-157 | success shows the success view; failure shows the error view with the message or the fallback text |
| Checkout.CheckoutModal.Retry | components/CheckoutModal.tsx:169-172 | back to the checkout view with the error cleared; the donation effect runs again |
| Checkout.CheckoutModal.Close | components/CheckoutModal.tsx:160-162 | closing changes only `isOpen` |
| Checkout.CheckoutModal.ResetAfterClose | components/CheckoutModal.tsx:163-166 | the delayed reset returns to the checkout view with no error |
| Promoter.ActivePromos | pages/PromoterPortal.tsx:56-58 | the listed promotions; stated by `ActivePromosMembers`, `ActivePromosAppend` and `StoppedStaysExcluded` |
| Promoter.CurrentBalance | pages/PromoterPortal.tsx:60 | the earnings of the listed promotions; stated by `BalanceAtMostTotal` and `MoreStoppedLowersBalance` |
| Promoter.TotalEarned | pages/PromoterPortal.tsx:61 | the earnings of all promotions; stated by `BalanceAtMostTotal` |
| Promoter.SomePending | pages/PromoterPortal.tsx:92 | whether a payout request is pending; stated by `SomePendingIff` |
| Promoter.PayoutFee | pages/PromoterPortal.tsx:331 | the 2% instant-transfer fee; stated by `PayoutQuoteSplitsBalance` |
| Promoter.PayoutNet | pages/PromoterPortal.tsx:335 | the 98% paid out; stated by `PayoutQuoteSplitsBalance` |
| Promoter.ActivePromosMembers | pages/PromoterPortal.tsx:56-58 | a promotion is listed exactly when it is in the stats, active and not locally stopped |
| Promoter.ActivePromosAppend | pages/PromoterPortal.tsx:56-58 | the active list keeps the stats' order |
| Promoter.StoppedStaysExcluded | pages/PromoterPortal.tsx:52-58 | a locally stopped event is never listed, whatever stats come later |
| Promoter.SumOfFilterBounds | pages/PromoterPortal.tsx:60-61 | with non-negative earnings, the sum over a filtered list lies between 0 and the whole sum |
| Promoter.BalanceAtMostTotal | pages/PromoterPortal.tsx:60-61 | with non-negative earnings, 0 ≤ current balance ≤ total earned |
| Promoter.MoreStoppedLowersBalance | pages/PromoterPortal.tsx:56-60 | stopping more promotions never raises the balance |
| Promoter.SumAppend | pages/PromoterPortal.tsx:60 | the earned sum of a concatenation is the sum of the parts |
| Promoter.SomePendingIff | pages/PromoterPortal.tsx:92 | a request is pending exactly when one has status `pending` |
| Promoter.PayoutQuoteSplitsBalance | pages/PromoterPortal.tsx:327-335 | fee + net = gross balance; both are non-negative and net ≤ balance for a non-negative balance |
| Promoter.PromotionsPanel.constructor | pages/PromoterPortal.tsx:39-53 | the initial panel state: no tombstones, nothing to stop, no pending request, no modal |
| Promoter.PromotionsPanel.AskToStop | pages/PromoterPortal.tsx:215 | the stop control records the listed promotion to stop and nothing else |
| Promoter.PromotionsPanel.CancelStop | pages/PromoterPortal.tsx:290 | cancelling clears the promotion to stop and nothing else |
| Promoter.PromotionsPanel.BeginStopPromotion | pages/PromoterPortal.tsx:101-104 | with a promotion to stop, its event id is sent and one more call is under way, with nothing on screen changed; without one nothing happens |
| Promoter.PromotionsPanel.SettleStopPromotion | pages/PromoterPortal.tsx:104-116 | when the call settles, the event id is appended on success only, so that event is no longer listed; the confirmation closes either way |
| Promoter.PromotionsPanel.StopPressedTwice | pages/PromoterPortal.tsx:101-116 | pressing "Stop Promoting" twice before the first call settles sends the same event id twice and, on two successes, records it twice |
| Promoter.PromotionsPanel.RefreshStats | pages/PromoterPortal.tsx:109-110 | a refresh replaces the stats and keeps the tombstones |
| Promoter.PromotionsPanel.HandleRequestPayout | pages/PromoterPortal.tsx:125-131 | the enabled button opens the setup modal without Stripe, else the early-payout modal |
| Promoter.PromotionsPanel.BeginEarlyPayout | pages/PromoterPortal.tsx:133-135 | the current balance is sent and one more call is under way, with nothing on screen changed |
| Promoter.PromotionsPanel.SettleEarlyPayout | pages/PromoterPortal.tsx:135-143 | when the call settles, success closes the quote and marks a request pending; failure changes nothing |
| Promoter.PromotionsPanel.ConfirmPressedTwice | pages/PromoterPortal.tsx:133-135 | pressing "Confirm & Payout" twice before the first call settles sends two requests for the whole balance |
| Promoter.PromotionsPanel.DismissEarlyPayout | pages/PromoterPortal.tsx:313 | dismissing the quote closes only it |
| Promoter.PromotionsPanel.DismissPayoutSetup | pages/PromoterPortal.tsx:297 | dismissing the setup prompt closes only it |
| Promoter.PromotionsPanel.CheckPendingPayouts | pages/PromoterPortal.tsx:87-99 | fetched requests set the pending flag to whether any is pending; a failed fetch keeps it |
| Url.Slugify | utils/url.ts:9-13 | the slug part of an event URL; stated by `SlugifyWellFormed` and `SlugifyKeepsTitleChars` |
| Url.CollapseRuns | utils/url.ts:12 | the result holds only slug characters and hyphens, never two hyphens in a row, and starts with the input's first character when that is a slug character |
| Url.CollapseRunsKeepsSlugChars | utils/url.ts:12 | the letters and digits of the input are kept, all of them and in order |
| Url.CollapseRunsOfLeadingRun | utils/url.ts:12 | a leading run of other characters, however long, becomes one hyphen |
| Url.CollapseRunsOfWord | utils/url.ts:12 | a leading word of letters and digits is kept as it is |
| Url.CollapseRunsOfRun | utils/url.ts:12 | a word of letters and digits followed by a run of other characters becomes the word and one hyphen |
| Url.DropLeadingHyphens | utils/url.ts:13 | removes only the leading hyphens: a suffix of the input that does not start with a hyphen, everything dropped being a hyphen |
| Url.DropTrailingHyphens | utils/url.ts:13 | removes only the trailing hyphens: a prefix of the input that does not end with a hyphen, everything dropped being a hyphen |
| Url.SlugifyWellFormed | utils/url.ts:9-13 | the slug part is `[a-z0-9-]` only, with no hyphen at either end and none doubled |
| Url.SlugifyKeepsTitleChars | utils/url.ts:9-13 | the slug part holds exactly the letters and digits of the lower-cased title, in order |
| Url.CreateEventSlug | utils/url.ts:6-16 | an empty title gives the id; otherwise a well-formed slug, a hyphen, then the id |
| Url.CreateEventSlugKeepsTitleChars | utils/url.ts:6-16 | for a non-empty title, the text before `-id` holds exactly the lower-cased title's letters and digits, in order |
| Url.CreateEventSlugAlphabet | utils/url.ts:9-15 | every character of a slug is a slug character, a hyphen or a character of the id |
| Url.ExtractEventId | utils/url.ts:23-29 | empty or missing input gives `""`; otherwise the hyphen-free suffix after the last hyphen, or the whole string |
| Url.ExtractCreateRoundTrip | utils/url.ts:6-28 | extracting the id from a slug made for a hyphen-free id gives the id back |
| Url.ExtractDocumentedExample | utils/url.ts:21 | `tidalrave-long-beach-e1` gives `e1` |
| Api.Deduped | services/api.ts:672-686 | the reference de-duplication: an entry is kept when it has no id or is the first with its id; stated by `DedupedFromKept`, `KeptInDeduped`, `DedupedUniqueIds` and `DedupedDistinct` |
| Api.DedupTickets | services/api.ts:667-686 | the loop with its id set yields exactly the de-duplicated ticket list |
| Api.DedupedFromKept | services/api.ts:672-686 | every ticket comes from an entry without an id or from the first entry with its id |
| Api.KeptInDeduped | services/api.ts:672-686 | every entry without an id and every first entry of an id yields a ticket |
| Api.DedupedUniqueIds | services/api.ts:673-676 | no two tickets share a truthy id |
| Api.DedupedDistinct | services/api.ts:672-686 | an inventory with distinct ids maps one to one, in order |
| Api.DedupedRepeatedIdExample | services/api.ts:673-675 | of two entries with id `a`, only the first is kept |
| Api.ParseImages | services/api.ts:617-621 | `parseImages`; stated by the `ParseImages*` rows below |
| Api.ParseImagesCases | services/api.ts:617-621 | an array is kept; a string gives only non-blank comma pieces, at most commas + 1; anything else gives none |
| Api.ParseImagesKeepsEveryPiece | services/api.ts:619 | every non-blank comma piece of a string is among the images |
| Api.ParseImagesAppend | services/api.ts:619 | the images of `a,b` are those of `a` followed by those of `b`, so pieces keep their order |
| Api.ParseImagesOnePiece | services/api.ts:619 | a comma-free string gives itself, or nothing when blank |
| Api.ParseImagesSkipsBlankPiece | services/api.ts:619 | `a,<blank>,b` gives exactly `a` and `b`, an empty middle piece included |
| Api.ParseImagesSkipsTrailingComma | services/api.ts:619 | a trailing comma adds no image |
| Api.ParseImagesJoinRoundTrip | services/api.ts:619 | joining non-blank, comma-free URLs with commas and parsing gives them back |
| Api.ParseBool | services/api.ts:746-750 | `parseBool`; stated by `ParseBoolCases` and `ParseBoolExamples` |
| Api.ParseBoolCases | services/api.ts:746-750 | a boolean is kept; a string is true exactly when it spells "true" in any case; anything else is its truthiness |
| Api.ParseBoolExamples | services/api.ts:746-750 | "TRUE" is true; "yes", "false", 0 and null are false; 1 is true |
| Api.ParseNum | services/api.ts:585-588 | `parseNum`; stated by `ParseNumCases` |
| Api.ParseNumCases | services/api.ts:585-588 | a number is kept, a parsable string gives its value, anything else the fallback |
| Api.GetSystemSettings | services/api.ts:589-596 | both fees are always numbers, 5.9 and 0.35 when absent; a numeric percent is kept; the name is never empty |
| Api.SignIn | services/api.ts:199-229 | the login body `signIn` posts for a provider; stated by `SplitCredentials`, `LoginWithPasswordRoundTrip` and `ProviderLoginBody` |
| Api.SplitCredentials | services/api.ts:214-218 | the e-mail is the text before the first `|` and the password the rest |
| Api.LoginWithPasswordRoundTrip | services/api.ts:262-266 | packing `email|password` and unpacking it posts the same e-mail and password whenever the e-mail has no `|` |
| Api.ProviderLoginBody | services/api.ts:219-229 | a provider login posts the placeholder password, the token, and the supplied name and e-mail |
| Api.FixUploadUrl | services/api.ts:151-156 | the upload-URL port fix; stated by `FixUploadUrlRule` and `FixUploadUrlIdempotent` |
| Api.FixUploadUrlRule | services/api.ts:151-156 | the port is inserted after the host exactly when the URL starts with the API host and lacks `:8181` |
| Api.FixUploadUrlIdempotent | services/api.ts:151-156 | fixing a fixed URL changes nothing |
| Api.MoveIf | services/api.ts:433-440 | a move puts the value under the new key, removes the old one, and leaves every other key alone |
| Api.Delete | services/api.ts:444-445 | a delete removes the key and leaves every other key alone |
| Api.RenamedPayload | services/api.ts:431-475 | the payload `updateEvent` sends; stated by the `RenamedPayload*` rows below |
| Api.RenamedPayloadNoLegacyDates | services/api.ts:442-445 | the payload never has `start_date` or `end_date` |
| Api.RenamedPayloadStartTime | services/api.ts:433-436 | a truthy `date` is sent as `start_time` only |
| Api.RenamedPayloadEndTime | services/api.ts:437-440 | a truthy `endDate` is sent as `end_time` only |
| Api.RenamedPayloadImages | services/api.ts:447-450 | truthy `imageUrls` are sent as `images` only |
| Api.RenamedPayloadCommission | services/api.ts:451-454 | a defined `commission`, even 0, is sent as `commission_rate` |
| Api.RenamedPayloadPromoDiscount | services/api.ts:455-458 | a defined `defaultPromoDiscount` is sent as `promo_discount_rate` |
| Api.RenamedPayloadHost | services/api.ts:459-462 | a truthy `hostId` is sent as `host_id` |
| Api.RenamedPayloadInventory | services/api.ts:465-475 | truthy `tickets` are sent as `inventory`, one backend entry per ticket in order |
| Api.RenamedPayloadKeepsOtherKeys | services/api.ts:431-475 | every untouched key is sent unchanged, and no key appears besides the update's and the backend names |
| Api.RenamedPayloadKeepsUnmovedKeys | services/api.ts:433-462 | a falsy `date`, `endDate`, `imageUrls`, `hostId` or `tickets`, and an `undefined` `commission` or `defaultPromoDiscount`, is sent under its own name with its own value |
| Api.UpdateEventPayload | services/api.ts:431-475 | the in-place edits of the payload build the renamed payload: no legacy dates, untouched keys kept |
| Api.TakeUntilAmpersand | services/api.ts:302 | the longest `&`-free prefix: it stops only at the first `&` or at the end |
| Api.MatchPromo | services/api.ts:302-303 | a match of `[?&]promo=([^&]+)` is non-empty and has no `&` |
| Api.MatchPromoAfter | services/api.ts:302 | after a prefix free of `?` and `&`, a `promo=` parameter yields its value up to the next `&` |
| Api.VolumeShare | services/api.ts:330-331 | `sales_volume * (commission / 100)` with numeric coercion of the volume; its use is stated by `EarnedPrecedence` and `EarnedExample` |
| Api.Earned | services/api.ts:326-332 | the earned amount is always a number (possibly NaN) |
| Api.EarnedPrecedence | services/api.ts:326-332 | `earned_amount` if numeric, else `earned` if numeric, else the coerced volume × commission/100 when both are truthy, whatever the volume's type (a number gives the plain product), else 0 |
| Api.EarnedCoercedVolumeExample | services/api.ts:330-331 | a string volume `"500"` at 10% earns 50, and a `true` volume earns the rate itself, by the multiplication's coercion |
| Api.EarnedExample | services/api.ts:326-332 | volume 500 at 10% earns 50; a numeric 0 `earned_amount` wins over `earned` |
| Api.PromoCode | services/api.ts:295-305 | the promotion's code: `code`, else `promo_code`, else the one in its link; stated by `PromoCodeOfStoredLink` and `PromoCodeAndStatus` |
| Api.FinalLink | services/api.ts:309-317 | the link kept for a promotion; stated by `MappedLinkCarriesCode` and `StoredLinkKeptWithoutCode` |
| Api.MapPromo | services/api.ts:291-334 | a raw promotion mapped to its stats; stated by `MappedLinkCarriesCode`, `PromoCodeAndStatus` and `EarnedPrecedence` |
| Api.SlugHasNoQueryDelimiters | services/api.ts:315 | a slug for an id free of `?` and `&` has neither |
| Api.PromoLinkCarriesCode | services/api.ts:314-317 | reading the code back from a built promo link gives the code |
| Api.MappedLinkCarriesCode | services/api.ts:295-317 | the link the mapper builds carries the promotion's own code |
| Api.PromoCodeOfStoredLink | services/api.ts:297-303 | a record holding only that link maps back to the same code |
| Api.StoredLinkKeptWithoutCode | services/api.ts:309-317 | without a code the stored link is kept |
| Api.PromoCodeAndStatus | services/api.ts:295-333 | `code` wins over `promo_code`, which wins over the link; a missing status is `active` |
| Editors.SyncIds | components/TicketEditor.tsx:23-31 | the index-keyed copy of the items; stated by `SyncIdsSpec`, `KeysStableAcrossEdit` and `StripSyncIds` |
| Editors.SyncIdsSpec | components/TicketEditor.tsx:23-31 | one element per item, in order, each keyed and otherwise a copy; an index that had a key keeps it, a new index draws a fresh id |
| Editors.ChangeFieldSpec | components/TicketEditor.tsx:34-46 | an edit reaches only the element with the given key, and only the named field |
| Editors.StripIdsSpec | components/TicketEditor.tsx:48 | stripping keeps length, order and every field but `id` |
| Editors.KeysStableAcrossEdit | components/TicketEditor.tsx:23-48 | when the parent passes the edited list back, the sync restores exactly the edited elements with their keys |
| Editors.StripSyncIds | components/TicketEditor.tsx:23-48 | the parent receives its items without `id`: unchanged when they had none |
| Editors.RestoreParentIdsSpec | components/TicketEditor.tsx:48 | the corrected hand-back gives each element exactly the parent's `id` and the edited fields |
| TicketEditor.Coerce | components/TicketEditor.tsx:36-43 | an empty numeric input is `undefined`, another is `parseFloat(v) \|\| 0`; other fields are stored as text |
| TicketEditor.HandleTicketChange | components/TicketEditor.tsx:33-49 | `handleTicketChange`; stated by `HandleTicketChangeSpec` and `EditDropsBackendId` |
| TicketEditor.HandleTicketChangeSpec | components/TicketEditor.tsx:33-49 | the parent gets the list in order, without ids, with only the named field of the matching ticket changed |
| TicketEditor.EditDropsBackendId | components/TicketEditor.tsx:48 | a ticket loaded with id `t1` comes back with no `id` after any edit |
| TicketEditor.HandleTicketChangeKeepingIdsSpec | components/TicketEditor.tsx:33-49 | the corrected handler keeps every backend id and still changes only the named field of the matching ticket |
| TicketEditor.AddTicket | components/TicketEditor.tsx:51-54 | exactly one default ticket is appended, the others are kept |
| TicketEditor.RemoveTicket | components/TicketEditor.tsx:56-58 | `removeTicket`; stated by `RemoveTicketSpec` |
| TicketEditor.RemoveTicketSpec | components/TicketEditor.tsx:56-58 | removing drops exactly index i, keeps the order, and never empties the list since the control needs two tickets |
| TicketEditor.SalesPercentageBounds | components/TicketEditor.tsx:71-82 | the gauge lies in [0,100] and reads SOLD OUT exactly when there is a capacity and sold ≥ capacity |
| AddOnEditor.Coerce | components/AddOnEditor.tsx:33-34 | a numeric input is always `parseFloat(v) \|\| 0`, never `undefined`; other fields are text |
| AddOnEditor.HandleAddOnChange | components/AddOnEditor.tsx:30-41 | `handleAddOnChange`; stated by `HandleAddOnChangeSpec` |
| AddOnEditor.HandleAddOnChangeSpec | components/AddOnEditor.tsx:30-41 | the parent gets the list in order, without ids, with only the named field of the matching add-on changed |
| AddOnEditor.AddAddOn | components/AddOnEditor.tsx:43-46 | exactly one default add-on is appended |
| AddOnEditor.RemoveAddOn | components/AddOnEditor.tsx:48-50 | `removeAddOn`; stated by `RemoveAddOnSpec` |
| AddOnEditor.RemoveAddOnSpec | components/AddOnEditor.tsx:48-50 | removing drops exactly index i, and may empty the list |
| TicketView.FirstChar | components/TicketViewModal.tsx:20 | `charAt(0)`: the first character, or `""` for an empty word |
| TicketView.Abbreviate | components/TicketViewModal.tsx:16-23 | `""` gives `""`; the result holds no lower-case ASCII letter |
| TicketView.InitialsLength | components/TicketViewModal.tsx:19-21 | one initial per non-empty word |
| TicketView.AbbreviateLength | components/TicketViewModal.tsx:18-22 | the length is the number of non-empty pieces, at most spaces + 1 |
| TicketView.AbbreviateJoinedWords | components/TicketViewModal.tsx:16-23 | words joined by single spaces give their upper-cased first letters, in order |
| TicketView.TicketIndexes | components/TicketViewModal.tsx:54 | `[0, 1, …, qty − 1]` |
| TicketView.TicketArray | components/TicketViewModal.tsx:54 | the ticket's indexes `0 … qty − 1`; none without a ticket or for a negative `qty` |
| TicketView.QrValue | components/TicketViewModal.tsx:58-59 | the QR payload `{orderId}-{index}`; stated by `QrValueRoundTrip` and `OpenShowsFirstTicket` |
| TicketView.QrValueRoundTrip | components/TicketViewModal.tsx:58-59 | after the last hyphen of the payload are the decimal digits of the index, and before it the order id or `unknown_order` |
| TicketView.IndexAfterOpenEffect | components/TicketViewModal.tsx:33-52 | opening on a ticket selects index 0; otherwise the selection stays |
| TicketView.OpenShowsFirstTicket | components/TicketViewModal.tsx:50-59 | the first QR payload shown for an order is that of its first ticket |

## Left out

- Network I/O is not modelled: `request()` and every endpoint, `fetch`, tokens in `localStorage`, logging, `window` and `navigator`. An API call's outcome is a parameter of the method that awaits it (`apiSucceeds`, `PaymentOutcome`, `Option` for a failed fetch).
- Async ordering is modelled only where a call changes the state in two steps. The checkout payment and the promoter's stop and early-payout calls each have a begin method (the request is sent) and a settle method (the outcome arrives), with a count of calls under way. The other awaited calls are one method each that takes the outcome as a parameter. The `setTimeout` reset after closing the checkout is the separate `ResetAfterClose`. The background `onUserUpdate` refresh is `RefreshStats`.
- Floating point and `toFixed` display are not modelled: amounts are exact reals, and `Math.ceil` is a real ceiling.
- `parseFloat`, `Number()` and `uuidv4` are function parameters. The model leaves them unspecified, beyond `None` standing for NaN.
- Api.ParseFloat and Api.VolumeShare: an array gives NaN. JavaScript first turns an array into a string, so `parseFloat([5])` is 5; that coercion is not modelled.
- `toLowerCase` and `toUpperCase` are modelled on ASCII letters only.
- `formatDateForInput` is not modelled, because it depends on the time zone.
- QR image generation, `jwtDecode`, the clipboard, Google sign-in and all JSX rendering are not modelled.
- Props stay fixed within a `CheckoutModal` or `PromotionsPanel` object. A new cart, event or promo percentage is a new object.
- Checkout.CheckoutModal.Valid: the error-view invariant is one-directional. A successful payment leaves any earlier message in place, as the code does, so "no message outside the error view" does not hold.
- Checkout.TicketOption: an absent `minimumDonation`, `donationAmount` or promo percentage is 0. The source's `||` treats absent and 0 alike.
- TicketView.TicketArray: the ticket quantity is an integer. A negative `qty` gives no indexes, because `Array.from` clamps the length to 0. A fractional `qty`, which `Array.from` truncates, is not modelled.
- Api.MapPromo: the clicks, sales and commission fields are mapped but carry no property beyond the `||` fallbacks.
- Api.MapPromo and Api.PromoEventId: a missing `event_id`/`eventId` becomes `""`, while services/api.ts:291 leaves `eventId` as `undefined`. Both are falsy, so the link logic is the same. The text fields are taken to be strings or absent (`Api.TextFields`), and a non-string id, which the source would keep as it is, also becomes `""` here.
- Api.SignIn: the demo and admin logins return a mock user, which is only named here. Profile mapping (`mapApiUserToFrontend`) is not part of this model.
- `validateTicket` (services/api.ts:523-529) sends the QR payload unparsed to the backend as `qr_data`. The backend's parsing is not part of this model. `QrValueRoundTrip` states what a parser that splits at the last hyphen reads back.

## Findings

| source | as written | input that shows it | evidently intended | confidence | as-written member | corrected member |
|---|---|---|---|---|---|---|
| components/TicketEditor.tsx:48 | every edit hands the parent its tickets with `id` removed, but that `id` is the backend ticket id loaded at services/api.ts:679 and sent back at services/api.ts:467 | one ticket `{id: "t1", type: "GA"}`; change its type to "VIP": the parent receives `{type: "VIP"}` with no id | strip only the client-side key and keep the backend id, so an updated ticket stays the same inventory row | medium; not executed | TicketEditor.EditDropsBackendId | TicketEditor.HandleTicketChangeKeepingIdsSpec |
