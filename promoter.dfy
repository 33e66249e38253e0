/** The promoter's earnings panel (pages/PromoterPortal.tsx,
    `PromotionsContent`): which promotions count as active, the current
    balance against all-time earnings, the early-payout quote, and the panel
    state that stopping a promotion and requesting a payout change. */
module Promoter {
  import opened Js
  import opened Lists

  // ---------------------------------------------------------------------------
  // Balance

  /** One entry of `user.promoStats`, with the fields the panel reads. */
  datatype PromoStat = PromoStat(eventId: string, status: string, earned: real)

  /** One fetched payout request. */
  datatype PayoutRequest = PayoutRequest(status: string)

  predicate IsActive(p: PromoStat) {
    p.status == "active"
  }

  /** `promoStats.filter(p => p.status === 'active')
                .filter(p => !deletedEventIds.includes(p.eventId))` */
  function ActivePromos(stats: seq<PromoStat>, deleted: seq<string>): seq<PromoStat> {
    Filter(Filter(stats, IsActive), (p: PromoStat) => p.eventId !in deleted)
  }

  /** `reduce((sum, p) => sum + p.earned, 0)` */
  function SumEarned(stats: seq<PromoStat>): real {
    if stats == [] then 0.0 else stats[0].earned + SumEarned(stats[1..])
  }

  function CurrentBalance(stats: seq<PromoStat>, deleted: seq<string>): real {
    SumEarned(ActivePromos(stats, deleted))
  }

  function TotalEarned(stats: seq<PromoStat>): real {
    SumEarned(stats)
  }

  /** `requests.some(r => r.status === 'pending')` */
  function SomePending(requests: seq<PayoutRequest>): bool {
    requests != [] && (requests[0].status == "pending" || SomePending(requests[1..]))
  }

  /** The instant-transfer fee shown in the early-payout modal. */
  function PayoutFee(balance: real): real {
    balance * 0.02
  }

  /** The net amount shown in the early-payout modal. */
  function PayoutNet(balance: real): real {
    balance * 0.98
  }

  // ---------------------------------------------------------------------------
  // Properties

  /** A promotion is listed exactly when it is in the stats, active, and not
      locally stopped. */
  lemma ActivePromosMembers(stats: seq<PromoStat>, deleted: seq<string>)
    ensures forall p :: p in ActivePromos(stats, deleted) <==>
      p in stats && p.status == "active" && p.eventId !in deleted
  {
    FilterMembers(stats, IsActive);
    FilterMembers(Filter(stats, IsActive), (p: PromoStat) => p.eventId !in deleted);
  }

  /** The active list keeps the order of the stats: listing a concatenation
      lists each part in turn. */
  lemma ActivePromosAppend(stats: seq<PromoStat>, more: seq<PromoStat>, deleted: seq<string>)
    ensures ActivePromos(stats + more, deleted) == ActivePromos(stats, deleted) + ActivePromos(more, deleted)
  {
    FilterAppend(stats, more, IsActive);
    FilterAppend(Filter(stats, IsActive), Filter(more, IsActive), (p: PromoStat) => p.eventId !in deleted);
  }

  /** Whatever stats a later refresh brings, a promotion whose event was
      stopped locally is never listed again. */
  lemma StoppedStaysExcluded(stats: seq<PromoStat>, deleted: seq<string>, id: string)
    requires id in deleted
    ensures forall p :: p in ActivePromos(stats, deleted) ==> p.eventId != id
  {
    ActivePromosMembers(stats, deleted);
  }

  predicate EarningsNonNegative(stats: seq<PromoStat>) {
    forall i :: 0 <= i < |stats| ==> stats[i].earned >= 0.0
  }

  lemma {:induction false} SumOfFilterBounds(stats: seq<PromoStat>, p: PromoStat -> bool)
    requires EarningsNonNegative(stats)
    ensures 0.0 <= SumEarned(Filter(stats, p)) <= SumEarned(stats)
    ensures EarningsNonNegative(Filter(stats, p))
    decreases |stats|
  {
    if stats != [] {
      assert EarningsNonNegative(stats[1..]) by {
        forall i | 0 <= i < |stats| - 1 ensures stats[1..][i].earned >= 0.0 {
          assert stats[1..][i] == stats[i + 1];
        }
      }
      SumOfFilterBounds(stats[1..], p);
      var rest := Filter(stats[1..], p);
      if p(stats[0]) {
        assert Filter(stats, p) == [stats[0]] + rest;
        assert ([stats[0]] + rest)[1..] == rest;
      } else {
        assert Filter(stats, p) == rest;
      }
    }
  }

  /** With no negative earnings the balance lies between 0 and the
      all-time total. */
  lemma BalanceAtMostTotal(stats: seq<PromoStat>, deleted: seq<string>)
    requires EarningsNonNegative(stats)
    ensures 0.0 <= CurrentBalance(stats, deleted) <= TotalEarned(stats)
  {
    SumOfFilterBounds(stats, IsActive);
    SumOfFilterBounds(Filter(stats, IsActive), (p: PromoStat) => p.eventId !in deleted);
  }

  /** Stopping more promotions never raises the balance. */
  lemma {:induction false} MoreStoppedLowersBalance(stats: seq<PromoStat>, deleted: seq<string>, more: seq<string>)
    requires EarningsNonNegative(stats)
    ensures CurrentBalance(stats, deleted + more) <= CurrentBalance(stats, deleted)
    decreases |stats|
  {
    if stats != [] {
      assert EarningsNonNegative(stats[1..]) by {
        forall i | 0 <= i < |stats| - 1 ensures stats[1..][i].earned >= 0.0 {
          assert stats[1..][i] == stats[i + 1];
        }
      }
      MoreStoppedLowersBalance(stats[1..], deleted, more);
      ActivePromosAppend([stats[0]], stats[1..], deleted);
      ActivePromosAppend([stats[0]], stats[1..], deleted + more);
      assert [stats[0]] + stats[1..] == stats;
      ActivePromosSingle(stats[0], deleted);
      ActivePromosSingle(stats[0], deleted + more);
      SumAppend(ActivePromos([stats[0]], deleted), ActivePromos(stats[1..], deleted));
      SumAppend(ActivePromos([stats[0]], deleted + more), ActivePromos(stats[1..], deleted + more));
    }
  }

  lemma ActivePromosSingle(p: PromoStat, deleted: seq<string>)
    ensures ActivePromos([p], deleted) == if p.status == "active" && p.eventId !in deleted then [p] else []
  {
    FilterSingle(p, IsActive);
    FilterSingle(p, (q: PromoStat) => q.eventId !in deleted);
    assert Filter([], (q: PromoStat) => q.eventId !in deleted) == [];
  }

  lemma {:induction false} SumAppend(s: seq<PromoStat>, t: seq<PromoStat>)
    ensures SumEarned(s + t) == SumEarned(s) + SumEarned(t)
    decreases |s|
  {
    if s == [] {
      assert s + t == t;
    } else {
      assert (s + t)[1..] == s[1..] + t;
      SumAppend(s[1..], t);
    }
  }

  /** Some request is pending exactly when one has the status `pending`. */
  lemma {:induction false} SomePendingIff(requests: seq<PayoutRequest>)
    ensures SomePending(requests) <==> exists i :: 0 <= i < |requests| && requests[i].status == "pending"
    decreases |requests|
  {
    if requests != [] {
      SomePendingIff(requests[1..]);
      if SomePending(requests[1..]) {
        var i :| 0 <= i < |requests| - 1 && requests[1..][i].status == "pending";
        assert requests[i + 1].status == "pending";
      }
      if exists i :: 0 <= i < |requests| && requests[i].status == "pending" {
        var i :| 0 <= i < |requests| && requests[i].status == "pending";
        if i > 0 {
          assert requests[1..][i - 1].status == "pending";
        }
      }
    }
  }

  /** The quoted fee and net payout add up to the balance; on a non-negative
      balance both are non-negative and the net never exceeds it. */
  lemma PayoutQuoteSplitsBalance(balance: real)
    ensures PayoutFee(balance) + PayoutNet(balance) == balance
    ensures balance >= 0.0 ==> 0.0 <= PayoutFee(balance) && 0.0 <= PayoutNet(balance) <= balance
  {
  }

  // ---------------------------------------------------------------------------
  // The panel

  /** The state of `PromotionsContent` that its handlers change, with the
      user's promotion stats (replaced by a profile refresh) and whether the
      user has connected Stripe. */
  class PromotionsPanel {
    var promoStats: seq<PromoStat>
    const stripeConnected: bool
    var deletedEventIds: seq<string>
    var promoToStop: Option<PromoStat>
    var hasPendingRequest: bool
    var showPayoutSetupModal: bool
    var showEarlyPayoutModal: bool
    /** Calls to `stopPromotion` and to `requestEarlyPayout` sent and not yet
        settled. Nothing in the panel reads them: neither confirm button is
        disabled while a call is under way. */
    var stopsInFlight: nat
    var payoutsInFlight: nat

    function Active(): seq<PromoStat>
      reads this
    {
      ActivePromos(promoStats, deletedEventIds)
    }

    function Balance(): real
      reads this
    {
      CurrentBalance(promoStats, deletedEventIds)
    }

    /** The payout button is rendered only for a positive balance. */
    predicate PayoutButtonShown()
      reads this
    {
      Balance() > 0.0
    }

    /** ... and is disabled while a request is pending. */
    predicate PayoutButtonEnabled()
      reads this
    {
      PayoutButtonShown() && !hasPendingRequest
    }

    constructor(promoStats: seq<PromoStat>, stripeConnected: bool)
      ensures this.promoStats == promoStats && this.stripeConnected == stripeConnected
      ensures deletedEventIds == [] && promoToStop.None? && !hasPendingRequest
      ensures !showPayoutSetupModal && !showEarlyPayoutModal
      ensures stopsInFlight == 0 && payoutsInFlight == 0
    {
      this.promoStats := promoStats;
      this.stripeConnected := stripeConnected;
      deletedEventIds := [];
      promoToStop := None;
      hasPendingRequest := false;
      showPayoutSetupModal := false;
      showEarlyPayoutModal := false;
      stopsInFlight := 0;
      payoutsInFlight := 0;
    }

    /** The stop control on a listed promotion asks for confirmation. */
    method AskToStop(p: PromoStat)
      requires p in Active()
      modifies this
      ensures stopsInFlight == old(stopsInFlight) && payoutsInFlight == old(payoutsInFlight)
      ensures promoToStop == Some(p)
      ensures promoStats == old(promoStats) && deletedEventIds == old(deletedEventIds)
      ensures hasPendingRequest == old(hasPendingRequest)
      ensures showPayoutSetupModal == old(showPayoutSetupModal) && showEarlyPayoutModal == old(showEarlyPayoutModal)
    {
      promoToStop := Some(p);
    }

    /** The confirmation's cancel button. */
    method CancelStop()
      modifies this
      ensures stopsInFlight == old(stopsInFlight) && payoutsInFlight == old(payoutsInFlight)
      ensures promoToStop.None?
      ensures promoStats == old(promoStats) && deletedEventIds == old(deletedEventIds)
      ensures hasPendingRequest == old(hasPendingRequest)
      ensures showPayoutSetupModal == old(showPayoutSetupModal) && showEarlyPayoutModal == old(showEarlyPayoutModal)
    {
      promoToStop := None;
    }

    /** `handleStopPromotion` up to its `await`: with a promotion to stop,
        its event id is sent to the API and nothing on screen changes yet, so
        the confirmation stays open; without one nothing happens. `request` is
        the event id sent. */
    method BeginStopPromotion() returns (request: Option<string>)
      modifies this
      ensures old(promoToStop).None? ==> request.None? && stopsInFlight == old(stopsInFlight)
      ensures old(promoToStop).Some? ==>
        request == Some(old(promoToStop).value.eventId) && stopsInFlight == old(stopsInFlight) + 1
      ensures promoToStop == old(promoToStop) && deletedEventIds == old(deletedEventIds)
      ensures promoStats == old(promoStats) && hasPendingRequest == old(hasPendingRequest)
      ensures showPayoutSetupModal == old(showPayoutSetupModal) && showEarlyPayoutModal == old(showEarlyPayoutModal)
      ensures payoutsInFlight == old(payoutsInFlight)
    {
      if promoToStop.None? {
        return None;
      }
      request := Some(promoToStop.value.eventId);
      stopsInFlight := stopsInFlight + 1;
    }

    /** The rest of `handleStopPromotion`, once the call for `eventId`
        settles: on success the id joins the local tombstones, so that event
        is no longer listed; either way the confirmation closes. */
    method SettleStopPromotion(eventId: string, apiSucceeds: bool)
      requires stopsInFlight > 0
      modifies this
      ensures apiSucceeds ==> deletedEventIds == old(deletedEventIds) + [eventId]
      ensures apiSucceeds ==> forall p :: p in Active() ==> p.eventId != eventId
      ensures !apiSucceeds ==> deletedEventIds == old(deletedEventIds)
      ensures promoToStop.None? && stopsInFlight == old(stopsInFlight) - 1
      ensures promoStats == old(promoStats) && hasPendingRequest == old(hasPendingRequest)
      ensures showPayoutSetupModal == old(showPayoutSetupModal) && showEarlyPayoutModal == old(showEarlyPayoutModal)
      ensures payoutsInFlight == old(payoutsInFlight)
    {
      if apiSucceeds {
        deletedEventIds := deletedEventIds + [eventId];
        StoppedStaysExcluded(promoStats, deletedEventIds, eventId);
      }
      promoToStop := None;
      stopsInFlight := stopsInFlight - 1;
    }

    /** A second press of "Stop Promoting" before the first call settles
        sends the same event id again, and two successes record it twice. */
    method StopPressedTwice() returns (first: Option<string>, second: Option<string>)
      requires promoToStop.Some?
      modifies this
      ensures first == second == Some(old(promoToStop).value.eventId)
      ensures deletedEventIds == old(deletedEventIds) + [first.value, first.value]
      ensures stopsInFlight == old(stopsInFlight)
    {
      first := BeginStopPromotion();
      second := BeginStopPromotion();
      SettleStopPromotion(first.value, true);
      SettleStopPromotion(second.value, true);
    }

    /** A profile refresh replaces the stats; the local tombstones stay. */
    method RefreshStats(stats: seq<PromoStat>)
      modifies this
      ensures stopsInFlight == old(stopsInFlight) && payoutsInFlight == old(payoutsInFlight)
      ensures promoStats == stats
      ensures deletedEventIds == old(deletedEventIds) && promoToStop == old(promoToStop)
      ensures hasPendingRequest == old(hasPendingRequest)
      ensures showPayoutSetupModal == old(showPayoutSetupModal) && showEarlyPayoutModal == old(showEarlyPayoutModal)
    {
      promoStats := stats;
    }

    /** `handleRequestPayout`, from the enabled payout button: the Stripe
        setup prompt without a connected account, else the early-payout
        quote. */
    method HandleRequestPayout()
      requires PayoutButtonEnabled()
      modifies this
      ensures stopsInFlight == old(stopsInFlight) && payoutsInFlight == old(payoutsInFlight)
      ensures !stripeConnected ==> showPayoutSetupModal && showEarlyPayoutModal == old(showEarlyPayoutModal)
      ensures stripeConnected ==> showEarlyPayoutModal && showPayoutSetupModal == old(showPayoutSetupModal)
      ensures promoStats == old(promoStats) && deletedEventIds == old(deletedEventIds)
      ensures promoToStop == old(promoToStop) && hasPendingRequest == old(hasPendingRequest)
    {
      if !stripeConnected {
        showPayoutSetupModal := true;
      } else {
        showEarlyPayoutModal := true;
      }
    }

    /** `confirmEarlyPayout` up to its `await`: the current balance is sent
        and nothing on screen changes yet, so the quote stays open. `amount`
        is the amount sent. */
    method BeginEarlyPayout() returns (amount: real)
      requires showEarlyPayoutModal
      modifies this
      ensures amount == Balance()
      ensures payoutsInFlight == old(payoutsInFlight) + 1
      ensures promoStats == old(promoStats) && deletedEventIds == old(deletedEventIds)
      ensures promoToStop == old(promoToStop) && hasPendingRequest == old(hasPendingRequest)
      ensures showPayoutSetupModal == old(showPayoutSetupModal) && showEarlyPayoutModal == old(showEarlyPayoutModal)
      ensures stopsInFlight == old(stopsInFlight)
    {
      amount := Balance();
      payoutsInFlight := payoutsInFlight + 1;
    }

    /** The rest of `confirmEarlyPayout`, once the call settles: on success
        the quote closes and a request is pending, on failure nothing
        changes. */
    method SettleEarlyPayout(apiSucceeds: bool)
      requires payoutsInFlight > 0
      modifies this
      ensures apiSucceeds ==> !showEarlyPayoutModal && hasPendingRequest
      ensures !apiSucceeds ==> showEarlyPayoutModal == old(showEarlyPayoutModal) && hasPendingRequest == old(hasPendingRequest)
      ensures payoutsInFlight == old(payoutsInFlight) - 1
      ensures promoStats == old(promoStats) && deletedEventIds == old(deletedEventIds)
      ensures promoToStop == old(promoToStop) && showPayoutSetupModal == old(showPayoutSetupModal)
      ensures stopsInFlight == old(stopsInFlight)
    {
      if apiSucceeds {
        showEarlyPayoutModal := false;
        hasPendingRequest := true;
      }
      payoutsInFlight := payoutsInFlight - 1;
    }

    /** A second press of "Confirm & Payout" before the first call settles
        requests the same balance again: two requests, each for the whole
        balance, are under way at once. */
    method ConfirmPressedTwice() returns (first: real, second: real)
      requires showEarlyPayoutModal
      modifies this
      ensures first == second == old(Balance())
      ensures payoutsInFlight == old(payoutsInFlight) + 2
      ensures showEarlyPayoutModal && hasPendingRequest == old(hasPendingRequest)
    {
      first := BeginEarlyPayout();
      second := BeginEarlyPayout();
    }

    /** The quote's cancel button, or its modal being dismissed. */
    method DismissEarlyPayout()
      modifies this
      ensures stopsInFlight == old(stopsInFlight) && payoutsInFlight == old(payoutsInFlight)
      ensures !showEarlyPayoutModal
      ensures promoStats == old(promoStats) && deletedEventIds == old(deletedEventIds)
      ensures promoToStop == old(promoToStop) && hasPendingRequest == old(hasPendingRequest)
      ensures showPayoutSetupModal == old(showPayoutSetupModal)
    {
      showEarlyPayoutModal := false;
    }

    /** The setup prompt being dismissed. */
    method DismissPayoutSetup()
      modifies this
      ensures stopsInFlight == old(stopsInFlight) && payoutsInFlight == old(payoutsInFlight)
      ensures !showPayoutSetupModal
      ensures promoStats == old(promoStats) && deletedEventIds == old(deletedEventIds)
      ensures promoToStop == old(promoToStop) && hasPendingRequest == old(hasPendingRequest)
      ensures showEarlyPayoutModal == old(showEarlyPayoutModal)
    {
      showPayoutSetupModal := false;
    }

    /** `checkPendingPayouts` settles: fetched requests decide whether one is
        pending; a failed fetch leaves the flag as it was. */
    method CheckPendingPayouts(fetched: Option<seq<PayoutRequest>>)
      modifies this
      ensures stopsInFlight == old(stopsInFlight) && payoutsInFlight == old(payoutsInFlight)
      ensures fetched.Some? ==> hasPendingRequest == SomePending(fetched.value)
      ensures fetched.None? ==> hasPendingRequest == old(hasPendingRequest)
      ensures promoStats == old(promoStats) && deletedEventIds == old(deletedEventIds)
      ensures promoToStop == old(promoToStop)
      ensures showPayoutSetupModal == old(showPayoutSetupModal) && showEarlyPayoutModal == old(showEarlyPayoutModal)
    {
      if fetched.Some? {
        hasPendingRequest := SomePending(fetched.value);
      }
    }
  }
}
