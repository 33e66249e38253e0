/** Checkout pricing (components/CheckoutModal.tsx): the pricing computation
    that turns a cart into line items, subtotal, promo discount, mandatory
    fees and total, the default-donation rule, the donation input clamp, the
    fee-configuration fallback, and the modal's view state machine. */
module Checkout {
  import opened Js
  import opened Lists
  import Api

  // ---------------------------------------------------------------------------
  // Data

  /** A ticket type of the event. A `minimumDonation` of 0 stands for both an
      absent and a zero minimum: the source treats them alike (`||`). */
  datatype TicketOption = TicketOption(typeName: string, price: real, minimumDonation: real)

  datatype AddOn = AddOn(name: string, price: real, minimumDonation: real)

  /** `kind` is `event.type`; a missing `addOns` list is the empty list. */
  datatype Event = Event(kind: string, tickets: seq<TicketOption>, addOns: seq<AddOn>)

  /** One key of the cart object, in `Object.keys` order. A `donationAmount`
      of 0 stands for an absent one. */
  datatype CartEntry = CartEntry(itemType: string, quantity: int, donationAmount: real)

  type Cart = seq<CartEntry>

  datatype LineItem = LineItem(itemType: string, quantity: int, price: real, subtotal: real, isTicket: bool)

  datatype FeeConfig = FeeConfig(percent: real, fixed: real)

  datatype PriceSummary = PriceSummary(
    items: seq<LineItem>,
    subtotal: real,
    discount: real,
    mandatoryFees: real,
    finalTotal: real)

  /** The fees used until the settings arrive, and whenever they fail. */
  const DefaultFees := FeeConfig(5.9, 0.35)

  // ---------------------------------------------------------------------------
  // Pricing

  function FindTicket(e: Event, key: string): Option<TicketOption> {
    Find(e.tickets, (t: TicketOption) => t.typeName == key)
  }

  function FindAddOn(e: Event, key: string): Option<AddOn> {
    Find(e.addOns, (a: AddOn) => a.name == key)
  }

  predicate IsTicketType(e: Event, key: string) {
    exists i :: 0 <= i < |e.tickets| && e.tickets[i].typeName == key
  }

  predicate IsAddOnName(e: Event, key: string) {
    exists i :: 0 <= i < |e.addOns| && e.addOns[i].name == key
  }

  function Max(a: real, b: real): real {
    if a >= b then a else b
  }

  /** `ticketOption?.minimumDonation || addOnOption?.minimumDonation || 0` */
  function MinimumDonation(t: Option<TicketOption>, a: Option<AddOn>): real {
    if t.Some? && t.value.minimumDonation != 0.0 then t.value.minimumDonation
    else if a.Some? && a.value.minimumDonation != 0.0 then a.value.minimumDonation
    else 0.0
  }

  /** The line item for one cart key. */
  function PriceLine(e: Event, entry: CartEntry): LineItem {
    var key := entry.itemType;
    var q := entry.quantity as real;
    if e.kind == "fundraiser" then
      var t := FindTicket(e, key);
      var price := Max(entry.donationAmount, MinimumDonation(t, FindAddOn(e, key)));
      LineItem(key, entry.quantity, price, price * q, t.Some?)
    else
      var t := FindTicket(e, key);
      if t.Some? then
        LineItem(key, entry.quantity, t.value.price, t.value.price * q, true)
      else
        var a := FindAddOn(e, key);
        var price := if a.Some? then a.value.price else 0.0;
        LineItem(key, entry.quantity, price, price * q, false)
  }

  /** `Object.keys(cart).map(...)` */
  function PriceLines(e: Event, cart: Cart): seq<LineItem> {
    if cart == [] then [] else [PriceLine(e, cart[0])] + PriceLines(e, cart[1..])
  }

  function SumSubtotals(items: seq<LineItem>): real {
    if items == [] then 0.0 else items[0].subtotal + SumSubtotals(items[1..])
  }

  predicate IsTicketLine(it: LineItem) {
    it.isTicket
  }

  predicate IsOtherLine(it: LineItem) {
    !it.isTicket
  }

  function TicketLines(items: seq<LineItem>): seq<LineItem> {
    Filter(items, IsTicketLine)
  }

  function OtherLines(items: seq<LineItem>): seq<LineItem> {
    Filter(items, IsOtherLine)
  }

  /** The discount: only with a non-zero percentage on a ticketed event, and
      only on the ticket lines. */
  function DiscountAmount(items: seq<LineItem>, kind: string, percent: real): real {
    if percent != 0.0 && kind == "ticketed" then
      SumSubtotals(TicketLines(items)) * (percent / 100.0)
    else 0.0
  }

  function MandatoryFees(afterDiscount: real, fees: FeeConfig): real {
    if afterDiscount > 0.0 then afterDiscount * (fees.percent / 100.0) + fees.fixed else 0.0
  }

  /** The pricing memo. `discountPercent` 0 stands for an absent
      `appliedDiscountPercent`. */
  function PriceCart(cart: Cart, e: Event, discountPercent: real, fees: FeeConfig, donation: real): PriceSummary {
    var items := PriceLines(e, cart);
    var subtotal := SumSubtotals(items);
    var discount := DiscountAmount(items, e.kind, discountPercent);
    var afterDiscount := subtotal - discount;
    var mandatory := MandatoryFees(afterDiscount, fees);
    PriceSummary(items, subtotal, discount, mandatory, afterDiscount + mandatory + donation)
  }

  // ---------------------------------------------------------------------------
  // Properties of the pricing

  /** Line items correspond one to one, in order, to the cart keys. */
  lemma {:induction false} PriceLinesAt(e: Event, cart: Cart)
    ensures |PriceLines(e, cart)| == |cart|
    ensures forall i :: 0 <= i < |cart| ==> PriceLines(e, cart)[i] == PriceLine(e, cart[i])
    decreases |cart|
  {
    if cart != [] {
      PriceLinesAt(e, cart[1..]);
    }
  }

  lemma {:induction false} PriceLinesAppend(e: Event, cart: Cart, more: Cart)
    ensures PriceLines(e, cart + more) == PriceLines(e, cart) + PriceLines(e, more)
    decreases |cart|
  {
    if cart == [] {
      assert cart + more == more;
    } else {
      assert (cart + more)[1..] == cart[1..] + more;
      PriceLinesAppend(e, cart[1..], more);
    }
  }

  /** A fundraiser line is priced at the larger of the donation entered and
      the minimum donation, so never below the minimum, and its subtotal is
      that price times the quantity. */
  lemma FundraiserLinePrice(e: Event, entry: CartEntry)
    requires e.kind == "fundraiser"
    ensures var l := PriceLine(e, entry);
      var minimum := MinimumDonation(FindTicket(e, entry.itemType), FindAddOn(e, entry.itemType));
      && l.price >= minimum
      && l.price >= entry.donationAmount
      && (l.price == minimum || l.price == entry.donationAmount)
      && l.subtotal == l.price * entry.quantity as real
  {
  }

  /** `i` is the index of the first ticket type named `key`, the one
      `find` returns. */
  predicate FirstTicketAt(e: Event, key: string, i: int) {
    0 <= i < |e.tickets| && e.tickets[i].typeName == key &&
    forall j :: 0 <= j < i ==> e.tickets[j].typeName != key
  }

  /** `i` is the index of the first add-on named `key`. */
  predicate FirstAddOnAt(e: Event, key: string, i: int) {
    0 <= i < |e.addOns| && e.addOns[i].name == key &&
    forall j :: 0 <= j < i ==> e.addOns[j].name != key
  }

  /** The minimum donation is the first matching ticket's minimum when that
      is non-zero; failing that (no matching ticket, or one whose minimum is
      0), the first matching add-on's minimum when that is non-zero; and 0
      otherwise. */
  lemma MinimumDonationSources(e: Event, key: string)
    ensures var m := MinimumDonation(FindTicket(e, key), FindAddOn(e, key));
      && (forall i :: FirstTicketAt(e, key, i) && e.tickets[i].minimumDonation != 0.0 ==>
            m == e.tickets[i].minimumDonation)
      && ((forall i :: FirstTicketAt(e, key, i) ==> e.tickets[i].minimumDonation == 0.0) ==>
            && (forall i :: FirstAddOnAt(e, key, i) && e.addOns[i].minimumDonation != 0.0 ==>
                  m == e.addOns[i].minimumDonation)
            && ((forall i :: FirstAddOnAt(e, key, i) ==> e.addOns[i].minimumDonation == 0.0) ==>
                  m == 0.0))
  {
    var t, a := FindTicket(e, key), FindAddOn(e, key);
    if t.Some? {
      var k :| 0 <= k < |e.tickets| && e.tickets[k] == t.value && e.tickets[k].typeName == key &&
               forall j :: 0 <= j < k ==> e.tickets[j].typeName != key;
      assert FirstTicketAt(e, key, k);
      assert forall i :: FirstTicketAt(e, key, i) ==> i == k;
    }
    if a.Some? {
      var k :| 0 <= k < |e.addOns| && e.addOns[k] == a.value && e.addOns[k].name == key &&
               forall j :: 0 <= j < k ==> e.addOns[j].name != key;
      assert FirstAddOnAt(e, key, k);
      assert forall i :: FirstAddOnAt(e, key, i) ==> i == k;
    }
  }

  /** A ticketed line is priced at the matching ticket's price, else at the
      matching add-on's price, else at 0: an unknown key is a free line, never
      an error. */
  lemma TicketedLinePrice(e: Event, entry: CartEntry)
    requires e.kind != "fundraiser"
    ensures var l := PriceLine(e, entry);
      && (IsTicketType(e, entry.itemType) ==> l.price == FindTicket(e, entry.itemType).value.price)
      && (!IsTicketType(e, entry.itemType) && IsAddOnName(e, entry.itemType) ==>
            l.price == FindAddOn(e, entry.itemType).value.price)
      && (!IsTicketType(e, entry.itemType) && !IsAddOnName(e, entry.itemType) ==>
            l.price == 0.0 && l.subtotal == 0.0)
      && l.subtotal == l.price * entry.quantity as real
  {
  }

  /** A line counts as a ticket exactly when a ticket type has its key, for
      both kinds of event. */
  lemma IsTicketIffTicketType(e: Event, entry: CartEntry)
    ensures PriceLine(e, entry).isTicket <==> IsTicketType(e, entry.itemType)
    ensures PriceLine(e, entry).itemType == entry.itemType
    ensures PriceLine(e, entry).quantity == entry.quantity
  {
  }

  /** The subtotal is the ticket lines' subtotal plus the other lines'. */
  lemma {:induction false} SubtotalSplits(items: seq<LineItem>)
    ensures SumSubtotals(items) == SumSubtotals(TicketLines(items)) + SumSubtotals(OtherLines(items))
    decreases |items|
  {
    if items != [] {
      var x := items[0];
      var tickets := TicketLines(items[1..]);
      var others := OtherLines(items[1..]);
      SubtotalSplits(items[1..]);
      if x.isTicket {
        assert TicketLines(items) == [x] + tickets && OtherLines(items) == others;
        assert ([x] + tickets)[1..] == tickets;
      } else {
        assert TicketLines(items) == tickets && OtherLines(items) == [x] + others;
        assert ([x] + others)[1..] == others;
      }
    }
  }

  predicate CatalogNonNegative(e: Event) {
    && (forall i :: 0 <= i < |e.tickets| ==> e.tickets[i].price >= 0.0 && e.tickets[i].minimumDonation >= 0.0)
    && (forall i :: 0 <= i < |e.addOns| ==> e.addOns[i].price >= 0.0 && e.addOns[i].minimumDonation >= 0.0)
  }

  predicate CartNonNegative(cart: Cart) {
    forall i :: 0 <= i < |cart| ==> cart[i].quantity >= 0 && cart[i].donationAmount >= 0.0
  }

  predicate SubtotalsNonNegative(items: seq<LineItem>) {
    forall i :: 0 <= i < |items| ==> items[i].subtotal >= 0.0
  }

  lemma {:induction false} SumNonNegative(items: seq<LineItem>)
    requires SubtotalsNonNegative(items)
    ensures SumSubtotals(items) >= 0.0
    decreases |items|
  {
    if items != [] {
      assert SubtotalsNonNegative(items[1..]) by {
        forall i | 0 <= i < |items| - 1 ensures items[1..][i].subtotal >= 0.0 {
          assert items[1..][i] == items[i + 1];
        }
      }
      SumNonNegative(items[1..]);
    }
  }

  lemma FilterKeepsNonNegative(items: seq<LineItem>, p: LineItem -> bool)
    requires SubtotalsNonNegative(items)
    ensures SubtotalsNonNegative(Filter(items, p))
  {
    FilterMembers(items, p);
    var f := Filter(items, p);
    forall i | 0 <= i < |f| ensures f[i].subtotal >= 0.0 {
      assert f[i] in items;
    }
  }

  lemma ProductNonNegative(x: real, n: int)
    requires x >= 0.0 && n >= 0
    ensures x * n as real >= 0.0
  {
  }

  /** A line of a non-negative catalogue and cart entry has a non-negative
      subtotal. */
  lemma LineNonNegative(e: Event, entry: CartEntry)
    requires CatalogNonNegative(e) && entry.quantity >= 0 && entry.donationAmount >= 0.0
    ensures PriceLine(e, entry).subtotal >= 0.0
  {
    var t := FindTicket(e, entry.itemType);
    var a := FindAddOn(e, entry.itemType);
    assert t.Some? ==> t.value in e.tickets;
    assert a.Some? ==> a.value in e.addOns;
    ProductNonNegative(PriceLine(e, entry).price, entry.quantity);
  }

  lemma LinesNonNegative(e: Event, cart: Cart)
    requires CatalogNonNegative(e) && CartNonNegative(cart)
    ensures SubtotalsNonNegative(PriceLines(e, cart))
  {
    PriceLinesAt(e, cart);
    forall i | 0 <= i < |cart| ensures PriceLines(e, cart)[i].subtotal >= 0.0 {
      LineNonNegative(e, cart[i]);
    }
  }

  /** With non-negative line subtotals, the ticket lines' subtotal lies
      between 0 and the whole subtotal. */
  lemma TicketSubtotalBounds(items: seq<LineItem>)
    requires SubtotalsNonNegative(items)
    ensures 0.0 <= SumSubtotals(TicketLines(items)) <= SumSubtotals(items)
  {
    SubtotalSplits(items);
    FilterKeepsNonNegative(items, IsTicketLine);
    FilterKeepsNonNegative(items, IsOtherLine);
    SumNonNegative(TicketLines(items));
    SumNonNegative(OtherLines(items));
  }

  lemma ScaleBounds(x: real, f: real)
    requires 0.0 <= x && 0.0 <= f <= 1.0
    ensures 0.0 <= x * f <= x
  {
    assert x * f <= x * 1.0;
  }

  /** With a percentage between 0 and 100 and a non-negative catalogue and
      cart, the discount lies between 0 and the ticket lines' subtotal, which
      is at most the whole subtotal; it is 0 unless the percentage is non-zero
      and the event is ticketed. */
  lemma DiscountBounds(cart: Cart, e: Event, percent: real, fees: FeeConfig, donation: real)
    requires CatalogNonNegative(e) && CartNonNegative(cart)
    requires 0.0 <= percent <= 100.0
    ensures var s := PriceCart(cart, e, percent, fees, donation);
      && 0.0 <= s.discount <= SumSubtotals(TicketLines(s.items)) <= s.subtotal
      && (s.discount != 0.0 ==> percent != 0.0 && e.kind == "ticketed")
  {
    var items := PriceLines(e, cart);
    LinesNonNegative(e, cart);
    TicketSubtotalBounds(items);
    DiscountAmountBounds(items, e.kind, percent);
  }

  lemma DiscountAmountBounds(items: seq<LineItem>, kind: string, percent: real)
    requires 0.0 <= SumSubtotals(TicketLines(items))
    requires 0.0 <= percent <= 100.0
    ensures 0.0 <= DiscountAmount(items, kind, percent) <= SumSubtotals(TicketLines(items))
  {
    ScaleBounds(SumSubtotals(TicketLines(items)), percent / 100.0);
  }

  /** Adding a line whose key is no ticket type (an add-on, or an unknown
      key) never changes the discount. */
  lemma AddOnLineNotDiscounted(cart: Cart, entry: CartEntry, e: Event, percent: real, fees: FeeConfig, donation: real)
    requires !IsTicketType(e, entry.itemType)
    ensures PriceCart(cart + [entry], e, percent, fees, donation).discount
         == PriceCart(cart, e, percent, fees, donation).discount
  {
    TicketLinesOfOtherEntry(cart, entry, e);
  }

  lemma TicketLinesOfOtherEntry(cart: Cart, entry: CartEntry, e: Event)
    requires !IsTicketType(e, entry.itemType)
    ensures TicketLines(PriceLines(e, cart + [entry])) == TicketLines(PriceLines(e, cart))
  {
    PriceLinesAppend(e, cart, [entry]);
    IsTicketIffTicketType(e, entry);
    assert PriceLines(e, [entry]) == [PriceLine(e, entry)];
    TicketLinesSkipOther(PriceLines(e, cart), PriceLine(e, entry));
  }

  lemma TicketLinesSkipOther(items: seq<LineItem>, line: LineItem)
    requires !line.isTicket
    ensures TicketLines(items + [line]) == TicketLines(items)
  {
    FilterAppend(items, [line], IsTicketLine);
    assert TicketLines([line]) == [];
  }

  /** Fees are never charged on a non-positive base; on a positive base they
      are the configured percentage of it plus the fixed fee, so never
      negative for a non-negative configuration. */
  lemma FeesRule(cart: Cart, e: Event, percent: real, fees: FeeConfig, donation: real)
    ensures var s := PriceCart(cart, e, percent, fees, donation);
      && (s.subtotal - s.discount <= 0.0 ==> s.mandatoryFees == 0.0)
      && (s.subtotal - s.discount > 0.0 ==>
            s.mandatoryFees == (s.subtotal - s.discount) * (fees.percent / 100.0) + fees.fixed)
      && (fees.percent >= 0.0 && fees.fixed >= 0.0 ==> s.mandatoryFees >= 0.0)
      && s.finalTotal == (s.subtotal - s.discount) + s.mandatoryFees + donation
  {
  }

  predicate AllTicketKeys(e: Event, cart: Cart) {
    forall i :: 0 <= i < |cart| ==> IsTicketType(e, cart[i].itemType)
  }

  lemma {:induction false} TicketLinesOfAllTickets(e: Event, cart: Cart)
    requires AllTicketKeys(e, cart)
    ensures TicketLines(PriceLines(e, cart)) == PriceLines(e, cart)
    decreases |cart|
  {
    if cart != [] {
      IsTicketIffTicketType(e, cart[0]);
      assert AllTicketKeys(e, cart[1..]) by {
        forall i | 0 <= i < |cart| - 1 ensures IsTicketType(e, cart[1..][i].itemType) {
          assert cart[1..][i] == cart[i + 1];
        }
      }
      TicketLinesOfAllTickets(e, cart[1..]);
    }
  }

  /** A ticketed cart of tickets only, under a 100% promo, costs nothing but
      the donation: no fee is charged on the fully discounted base. */
  lemma FullyDiscountedCartPaysNoFees(cart: Cart, e: Event, fees: FeeConfig, donation: real)
    requires e.kind == "ticketed" && AllTicketKeys(e, cart)
    ensures var s := PriceCart(cart, e, 100.0, fees, donation);
      s.discount == s.subtotal && s.mandatoryFees == 0.0 && s.finalTotal == donation
  {
    TicketLinesOfAllTickets(e, cart);
  }

  /** With a non-negative catalogue, cart, fee configuration and donation and
      a percentage between 0 and 100, every amount is non-negative and the
      total is at least the donation. */
  lemma TotalNonNegative(cart: Cart, e: Event, percent: real, fees: FeeConfig, donation: real)
    requires CatalogNonNegative(e) && CartNonNegative(cart)
    requires 0.0 <= percent <= 100.0 && fees.percent >= 0.0 && fees.fixed >= 0.0 && donation >= 0.0
    ensures var s := PriceCart(cart, e, percent, fees, donation);
      && s.subtotal >= 0.0 && s.discount >= 0.0 && s.mandatoryFees >= 0.0
      && s.finalTotal >= donation >= 0.0
  {
    DiscountBounds(cart, e, percent, fees, donation);
  }

  /** The worked example: two general-admission tickets at 45, default fees,
      no promo and no donation come to 95.66. */
  lemma GeneralAdmissionExample()
    ensures var e := Event("ticketed", [TicketOption("GA", 45.0, 0.0)], []);
      var s := PriceCart([CartEntry("GA", 2, 0.0)], e, 0.0, DefaultFees, 0.0);
      s.subtotal == 90.0 && s.discount == 0.0 && s.mandatoryFees == 5.66 && s.finalTotal == 95.66
  {
    var e := Event("ticketed", [TicketOption("GA", 45.0, 0.0)], []);
    var cart := [CartEntry("GA", 2, 0.0)];
    assert FindTicket(e, "GA") == Some(TicketOption("GA", 45.0, 0.0));
    assert PriceLines(e, cart) == [LineItem("GA", 2, 45.0, 90.0, true)];
  }

  /** The discount example: a 100 ticket line and a 50 add-on line under a 10%
      promo give a discount of 10, not 15. */
  lemma AddOnExcludedExample()
    ensures var e := Event("ticketed", [TicketOption("VIP", 100.0, 0.0)], [AddOn("Parking", 50.0, 0.0)]);
      var s := PriceCart([CartEntry("VIP", 1, 0.0), CartEntry("Parking", 1, 0.0)], e, 10.0, DefaultFees, 0.0);
      s.subtotal == 150.0 && s.discount == 10.0
  {
    var e := Event("ticketed", [TicketOption("VIP", 100.0, 0.0)], [AddOn("Parking", 50.0, 0.0)]);
    var cart := [CartEntry("VIP", 1, 0.0), CartEntry("Parking", 1, 0.0)];
    assert FindTicket(e, "VIP") == Some(TicketOption("VIP", 100.0, 0.0));
    assert FindTicket(e, "Parking") == None;
    assert FindAddOn(e, "Parking") == Some(AddOn("Parking", 50.0, 0.0));
    var items := [LineItem("VIP", 1, 100.0, 100.0, true), LineItem("Parking", 1, 50.0, 50.0, false)];
    assert PriceLines(e, cart[1..]) == items[1..];
    assert PriceLines(e, cart) == items;
    assert TicketLines(items) == items[..1];
  }

  // ---------------------------------------------------------------------------
  // Donation and fee configuration

  /** `Math.ceil(x)` */
  function Ceil(x: real): (r: int)
    ensures x <= r as real < x + 1.0
  {
    -((-x).Floor)
  }

  /** The suggested donation: 10% of the discounted subtotal, rounded up to a
      whole unit. */
  function DefaultDonation(subtotal: real, discount: real): (d: int)
    ensures (subtotal - discount) / 10.0 <= d as real < (subtotal - discount) / 10.0 + 1.0
    ensures subtotal - discount >= 0.0 ==> d >= 0
  {
    Ceil((subtotal - discount) * 0.10)
  }

  lemma DefaultDonationExample()
    ensures DefaultDonation(47.0, 0.0) == 5
  {
  }

  /** `Math.max(0, parseFloat(value) || 0)` on the donation input, with `None`
      for a NaN parse. */
  function ClampDonationInput(parsed: Option<real>): (r: real)
    ensures r >= 0.0
    ensures parsed.Some? && parsed.value >= 0.0 ==> r == parsed.value
    ensures parsed.None? || parsed.value < 0.0 ==> r == 0.0
  {
    Max(0.0, parsed.GetOr(0.0))
  }

  /** A setting is used only when it is a number and not NaN. */
  function SettingOr(v: JsValue, default: real): real {
    if v.Num? then v.n else default
  }

  /** The fee configuration taken from fetched system settings. */
  function FeeConfigFrom(settings: Api.SystemSettings): FeeConfig {
    FeeConfig(SettingOr(settings.platformFeePercent, DefaultFees.percent),
              SettingOr(settings.platformFeeFixed, DefaultFees.fixed))
  }

  predicate NoFeeSettings(raw: Record) {
    && IsNullish(Get(raw, "platformFeePercent")) && IsNullish(Get(raw, "platform_fee_percent"))
    && IsNullish(Get(raw, "platformFeeFixed")) && IsNullish(Get(raw, "platform_fee_fixed"))
  }

  /** Settings produced by the API mapper always pass the number check, so
      the checkout uses the parsed values, or the mapper's own fallbacks 5.9
      and 0.35, which equal the checkout's defaults. */
  lemma FetchedFeesAreParsedSettings(raw: Record, parse: string -> Option<real>)
    ensures var f := FeeConfigFrom(Api.GetSystemSettings(raw, parse));
      && f.percent == Api.ParseNum(Coalesce(Get(raw, "platformFeePercent"), Get(raw, "platform_fee_percent")), 5.9, parse)
      && f.fixed == Api.ParseNum(Coalesce(Get(raw, "platformFeeFixed"), Get(raw, "platform_fee_fixed")), 0.35, parse)
      && (NoFeeSettings(raw) ==> f == DefaultFees)
  {
  }

  /** The default donation is never negative on a sane cart: the discount
      never exceeds the subtotal. */
  lemma DefaultDonationNonNegative(cart: Cart, e: Event, percent: real, fees: FeeConfig, donation: real)
    requires CatalogNonNegative(e) && CartNonNegative(cart) && 0.0 <= percent <= 100.0
    ensures var s := PriceCart(cart, e, percent, fees, donation);
      DefaultDonation(s.subtotal, s.discount) >= 0
  {
    DiscountBounds(cart, e, percent, fees, donation);
  }

  // ---------------------------------------------------------------------------
  // The modal

  datatype View = CheckoutView | LoadingView | SuccessView | ErrorView

  /** The fee amounts sent with the purchase request. */
  datatype FeeAmounts = FeeAmounts(mandatory: real, donation: real)

  /** How the purchase request (and the user refresh after it) settles; a
      `Failed` message of `""` stands for an error without a message. */
  datatype PaymentOutcome = Paid | Failed(message: string)

  const PaymentFallbackMessage := "An unexpected error occurred during payment."

  /** The modal's state: the `isOpen` prop, its four state hooks, and the
      number of purchase requests still in flight. The cart, the event and
      the discount percentage are props that stay fixed here. */
  class CheckoutModal {
    const cart: Cart
    const event: Event
    const discountPercent: real
    var isOpen: bool
    var view: View
    var errorMessage: string
    var platformDonation: real
    var feesConfig: FeeConfig
    var inFlight: nat

    /** The pricing memo on the current state. */
    function Summary(): PriceSummary
      reads this
    {
      PriceCart(cart, event, discountPercent, feesConfig, platformDonation)
    }

    /** Inputs under which amounts are meaningful. */
    predicate Sane() {
      CatalogNonNegative(event) && CartNonNegative(cart) && 0.0 <= discountPercent <= 100.0
    }

    /** The error view always has a message to show, the spinner shows only
        while a request is out, and on sane inputs the donation is never
        negative. */
    predicate Valid()
      reads this
    {
      && (view == ErrorView ==> errorMessage != "")
      && (view == LoadingView ==> inFlight > 0)
      && (Sane() ==> platformDonation >= 0.0)
    }

    /** The default-donation effect: while open on the checkout view with a
        positive subtotal, the donation becomes 10% of the discounted
        subtotal rounded up. */
    method DonationEffect()
      requires Valid()
      modifies this
      ensures Valid()
      ensures isOpen && view == CheckoutView && old(Summary()).subtotal > 0.0 ==>
        platformDonation == DefaultDonation(old(Summary()).subtotal, old(Summary()).discount) as real
      ensures !(isOpen && view == CheckoutView && old(Summary()).subtotal > 0.0) ==>
        platformDonation == old(platformDonation)
      ensures isOpen == old(isOpen) && view == old(view) && errorMessage == old(errorMessage)
      ensures feesConfig == old(feesConfig) && inFlight == old(inFlight)
    {
      var s := Summary();
      if isOpen && s.subtotal > 0.0 && view == CheckoutView {
        if Sane() {
          DefaultDonationNonNegative(cart, event, discountPercent, feesConfig, platformDonation);
        }
        platformDonation := DefaultDonation(s.subtotal, s.discount) as real;
      }
    }

    constructor(cart: Cart, event: Event, discountPercent: real)
      ensures this.cart == cart && this.event == event && this.discountPercent == discountPercent
      ensures !isOpen && view == CheckoutView && errorMessage == "" && platformDonation == 0.0
      ensures feesConfig == DefaultFees && inFlight == 0
      ensures Valid()
    {
      this.cart := cart;
      this.event := event;
      this.discountPercent := discountPercent;
      isOpen := false;
      view := CheckoutView;
      errorMessage := "";
      platformDonation := 0.0;
      feesConfig := DefaultFees;
      inFlight := 0;
    }

    /** The `isOpen` prop turns true: the view is reset to the checkout and
        the error cleared (the settings fetch starts, see
        `ReceiveFeeSettings`), and then the default donation is set. Opening
        an open modal changes nothing. */
    method Open()
      requires Valid()
      modifies this
      ensures Valid()
      ensures isOpen
      ensures old(isOpen) ==> view == old(view) && errorMessage == old(errorMessage) &&
                              platformDonation == old(platformDonation)
      ensures !old(isOpen) ==> view == CheckoutView && errorMessage == ""
      ensures !old(isOpen) && Summary().subtotal > 0.0 ==>
        platformDonation == DefaultDonation(Summary().subtotal, Summary().discount) as real
      ensures !old(isOpen) && Summary().subtotal <= 0.0 ==> platformDonation == old(platformDonation)
      ensures feesConfig == old(feesConfig) && inFlight == old(inFlight)
    {
      if !isOpen {
        isOpen := true;
        view := CheckoutView;
        errorMessage := "";
        DonationEffect();
      }
    }

    /** The settings request settles: on success the fees come from the
        settings, each one only when it is a number; on failure the fees stay
        as they are. */
    method ReceiveFeeSettings(settings: Option<Api.SystemSettings>)
      requires Valid()
      modifies this
      ensures Valid()
      ensures settings.Some? ==> feesConfig == FeeConfigFrom(settings.value)
      ensures settings.None? ==> feesConfig == old(feesConfig)
      ensures isOpen == old(isOpen) && view == old(view) && errorMessage == old(errorMessage)
      ensures platformDonation == old(platformDonation) && inFlight == old(inFlight)
    {
      if settings.Some? {
        feesConfig := FeeConfigFrom(settings.value);
      }
    }

    /** The donation input changes; `parsed` is `parseFloat` of its value. */
    method EditDonation(parsed: Option<real>)
      requires Valid() && isOpen && view == CheckoutView
      modifies this
      ensures Valid()
      ensures platformDonation == ClampDonationInput(parsed)
      ensures isOpen == old(isOpen) && view == old(view) && errorMessage == old(errorMessage)
      ensures feesConfig == old(feesConfig) && inFlight == old(inFlight)
    {
      platformDonation := ClampDonationInput(parsed);
    }

    /** The pay button: without a signed-in user nothing happens; otherwise
        the spinner shows and the purchase is requested with the current
        mandatory fees and donation. */
    method BeginPayment(signedIn: bool) returns (request: Option<FeeAmounts>)
      requires Valid() && isOpen && view == CheckoutView
      modifies this
      ensures Valid()
      ensures !signedIn ==> request.None? && view == old(view) && inFlight == old(inFlight)
      ensures signedIn ==>
        && view == LoadingView && inFlight == old(inFlight) + 1
        && request == Some(FeeAmounts(old(Summary()).mandatoryFees, old(platformDonation)))
      ensures !signedIn ==> errorMessage == old(errorMessage)
      ensures signedIn ==> errorMessage == ""
      ensures isOpen == old(isOpen) && platformDonation == old(platformDonation) && feesConfig == old(feesConfig)
    {
      if !signedIn {
        return None;
      }
      request := Some(FeeAmounts(Summary().mandatoryFees, platformDonation));
      view := LoadingView;
      errorMessage := "";
      inFlight := inFlight + 1;
    }

    /** A purchase request settles: success shows the success view; failure
        shows the error view with the error's message, or the fallback
        message when it has none. */
    method CompletePayment(outcome: PaymentOutcome)
      requires Valid() && inFlight > 0
      modifies this
      ensures Valid()
      ensures inFlight == old(inFlight) - 1
      ensures outcome.Paid? ==> view == SuccessView && errorMessage == old(errorMessage)
      ensures outcome.Failed? ==>
        && view == ErrorView
        && errorMessage == (if outcome.message != "" then outcome.message else PaymentFallbackMessage)
      ensures isOpen == old(isOpen) && platformDonation == old(platformDonation) && feesConfig == old(feesConfig)
    {
      inFlight := inFlight - 1;
      match outcome
      case Paid =>
        view := SuccessView;
      case Failed(message) =>
        errorMessage := if message != "" then message else PaymentFallbackMessage;
        view := ErrorView;
    }

    /** "Try Again": back to the checkout view with the error cleared. The
        view change re-runs the default-donation effect, so a donation the
        user typed is replaced by the default. */
    method Retry()
      requires Valid() && isOpen && view == ErrorView
      modifies this
      ensures Valid()
      ensures view == CheckoutView && errorMessage == ""
      ensures Summary().subtotal > 0.0 ==>
        platformDonation == DefaultDonation(Summary().subtotal, Summary().discount) as real
      ensures Summary().subtotal <= 0.0 ==> platformDonation == old(platformDonation)
      ensures isOpen == old(isOpen) && feesConfig == old(feesConfig) && inFlight == old(inFlight)
    {
      view := CheckoutView;
      errorMessage := "";
      DonationEffect();
    }

    /** The modal asks its parent to close (`isOpen` turns false). */
    method Close()
      requires Valid()
      modifies this
      ensures Valid()
      ensures !isOpen
      ensures view == old(view) && errorMessage == old(errorMessage) && platformDonation == old(platformDonation)
      ensures feesConfig == old(feesConfig) && inFlight == old(inFlight)
    {
      isOpen := false;
    }

    /** The reset timer that `handleClose` starts fires: back to the checkout
        view with the error cleared; should the modal have been reopened in
        the meantime, the view change re-runs the default-donation effect. */
    method ResetAfterClose()
      requires Valid()
      modifies this
      ensures Valid()
      ensures view == CheckoutView && errorMessage == ""
      ensures old(view) != CheckoutView && isOpen && Summary().subtotal > 0.0 ==>
        platformDonation == DefaultDonation(Summary().subtotal, Summary().discount) as real
      ensures !(old(view) != CheckoutView && isOpen && Summary().subtotal > 0.0) ==>
        platformDonation == old(platformDonation)
      ensures isOpen == old(isOpen) && feesConfig == old(feesConfig) && inFlight == old(inFlight)
    {
      var changed := view != CheckoutView;
      view := CheckoutView;
      errorMessage := "";
      if changed {
        DonationEffect();
      }
    }
  }
}
