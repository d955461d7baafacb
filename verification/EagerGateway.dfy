/**
 * A simple gateway that expires every overdue intent at each tick of the clock, and exactly when lazy
 * expiry gives the same answers.
 */
module EagerGateway {
  import opened Types
  import opened GatewaySpec

  function Tick(g: Gateway, now: uint64): Gateway {
    g.(intents := map id | id in g.intents :: Refresh(g.intents[id], now))
  }

  /** A call with no expiry of its own. */
  function ApplyPlain(g: Gateway, call: Call, now: uint64): (Gateway, Reply) {
    if Subject(call).Some? then
      var id := Subject(call).value;
      if call.MarkPaidFromTx? && call.amount <= 0 then (g, Failed(AmountNotPositive))
      else if id !in g.intents then (g, Failed(IntentNotFound))
      else
        var (after, reply) := Act(call, g.intents[id], now);
        (g.(intents := g.intents[id := after]), reply)
    else
      match call
      case SetExpirySeconds(seconds) => (g.(expirySeconds := seconds), Done)
      case CreateIntent(merchant, amount, token, ts) => Create(g, merchant, amount, token, ts)
      case ListMerchantPayments(merchant) =>
        (g, Listing(map id | id in g.intents && g.intents[id].merchant == merchant :: g.intents[id]))
  }

  function ApplyEager(g: Gateway, call: Call, now: uint64): (Gateway, Reply) {
    ApplyPlain(Tick(g, now), call, now)
  }

  ghost function RunEager(g: Gateway, cs: seq<Timed>): Gateway {
    if |cs| == 0 then g
    else
      var last := cs[|cs| - 1];
      ApplyEager(RunEager(g, cs[..|cs| - 1]), last.call, last.now).0
  }

  /** The lazy gateway's replies to a history, in order. */
  ghost function Replies(g: Gateway, cs: seq<Timed>): (r: seq<Reply>)
    ensures |r| == |cs|
  {
    if |cs| == 0 then []
    else
      var init, last := cs[..|cs| - 1], cs[|cs| - 1];
      Replies(g, init) + [Apply(Run(g, init), last.call, last.now).1]
  }

  ghost function EagerReplies(g: Gateway, cs: seq<Timed>): (r: seq<Reply>)
    ensures |r| == |cs|
  {
    if |cs| == 0 then []
    else
      var init, last := cs[..|cs| - 1], cs[|cs| - 1];
      EagerReplies(g, init) + [ApplyEager(RunEager(g, init), last.call, last.now).1]
  }

  ghost predicate NonDecreasing(cs: seq<Timed>) {
    forall i, j :: 0 <= i < j < |cs| ==> cs[i].now <= cs[j].now
  }

  // ---------------------------------------------------------------------------------------------
  // What a clock that goes back lets the lazy gateway forget
  // ---------------------------------------------------------------------------------------------

  /** The call creates an intent under this id. */
  predicate CreatesId(g: Gateway, call: Call, id: uint64) {
    Creates(call) && id == WrapAdd(g.counter, 1)
  }

  /** One step of Missed: an older intent still pending after the call, and overdue at its reading or missed before. */
  ghost function MissedAfter(g: Gateway, missed: set<uint64>, call: Call, now: uint64): set<uint64> {
    var g' := Apply(g, call, now).0;
    set id | && id in g'.intents && g'.intents[id].status == StatusPending && !CreatesId(g, call, id)
             && (id in missed || Overdue(g'.intents[id], now))
  }

  /** Intents still pending in the lazy gateway, though some reading made since their creation was past their expiry. */
  ghost function Missed(g: Gateway, cs: seq<Timed>): set<uint64> {
    if |cs| == 0 then {}
    else
      var init, last := cs[..|cs| - 1], cs[|cs| - 1];
      MissedAfter(Run(g, init), Missed(g, init), last.call, last.now)
  }

  /** The reply depends on whether this intent is pending or expired: refunds and settlements refuse both alike. */
  predicate LooksAt(call: Call, id: uint64, it: Intent) {
    match call
    case GetIntent(i) => i == id
    case PayIntent(i, _) => i == id
    case MarkPaidFromTx(i, _, _, amount, _, _) => i == id && amount > 0
    case ListMerchantPayments(merchant) => merchant == it.merchant
    case _ => false
  }

  /** The call looks at a missed intent, with a reading that is not past its expiry. */
  ghost predicate Revives(g: Gateway, missed: set<uint64>, call: Call, now: uint64) {
    exists id :: id in missed && id in g.intents && !Overdue(g.intents[id], now) && LooksAt(call, id, g.intents[id])
  }

  ghost predicate NeverRevives(g: Gateway, cs: seq<Timed>) {
    |cs| == 0
    || var init, last := cs[..|cs| - 1], cs[|cs| - 1];
       NeverRevives(g, init) && !Revives(Run(g, init), Missed(g, init), last.call, last.now)
  }

  function ExpiredIf(it: Intent, expired: bool): Intent {
    if expired then it.(status := StatusExpired) else it
  }

  ghost function Expire(g: Gateway, ids: set<uint64>): Gateway {
    g.(intents := map id | id in g.intents :: ExpiredIf(g.intents[id], id in ids))
  }

  ghost predicate AllPending(g: Gateway, ids: set<uint64>) {
    forall id :: id in ids ==> id in g.intents && g.intents[id].status == StatusPending
  }

  /** One intent under a call that addresses it, in the lazy gateway and in the eager one. */
  lemma ActOnMissed(call: Call, it: Intent, missed: bool, now: uint64)
    requires Subject(call).Some? && (missed ==> it.status == StatusPending)
    ensures var lazy := Act(call, if call.SettleIntent? then it else Refresh(it, now), now);
            var eager := Act(call, ExpiredIf(it, missed || Overdue(it, now)), now);
            if missed && !Overdue(it, now) && !call.RefundIntent? && !call.SettleIntent? then lazy.1 != eager.1
            else
              && lazy.1 == eager.1
              && eager.0 == ExpiredIf(lazy.0, lazy.0.status == StatusPending && (missed || Overdue(lazy.0, now)))
  {
  }

  /** The intents an eager gateway has expired at this reading, given those it had expired before. */
  ghost function Late(g: Gateway, missed: set<uint64>, now: uint64): set<uint64> {
    set id | id in g.intents && (id in missed || Overdue(g.intents[id], now))
  }

  lemma TickOfExpired(g: Gateway, missed: set<uint64>, now: uint64)
    requires AllPending(g, missed)
    ensures Tick(Expire(g, missed), now) == Expire(g, Late(g, missed, now))
  {
  }

  ghost predicate CallMatches(g: Gateway, missed: set<uint64>, call: Call, now: uint64) {
    var lazy, eager := Apply(g, call, now), ApplyPlain(Expire(g, Late(g, missed, now)), call, now);
    if Revives(g, missed, call, now) then lazy.1 != eager.1
    else lazy.1 == eager.1 && eager.0 == Expire(lazy.0, MissedAfter(g, missed, call, now))
  }

  lemma RevivesOne(g: Gateway, missed: set<uint64>, call: Call, now: uint64)
    requires AllPending(g, missed) && Subject(call).Some?
    ensures Revives(g, missed, call, now)
       <==> var id := Subject(call).value;
            && id in missed && !Overdue(g.intents[id], now) && !call.RefundIntent? && !call.SettleIntent?
            && !(call.MarkPaidFromTx? && call.amount <= 0)
  {
  }

  /** Expiring commutes with replacing one intent. */
  lemma ExpireReplaced(g: Gateway, ids: set<uint64>, ids': set<uint64>, id: uint64, it: Intent)
    requires forall j :: j in g.intents && j != id ==> (j in ids <==> j in ids')
    ensures var g' := Expire(g, ids);
            Expire(g.(intents := g.intents[id := it]), ids')
              == g'.(intents := g'.intents[id := ExpiredIf(it, id in ids')])
  {
  }

  lemma MissedAfterOne(g: Gateway, missed: set<uint64>, call: Call, now: uint64)
    requires AllPending(g, missed) && Subject(call).Some?
    ensures forall j :: j in g.intents && j != Subject(call).value ==>
              (j in Late(g, missed, now) && g.intents[j].status == StatusPending
               <==> j in MissedAfter(g, missed, call, now))
  {
  }

  /** Overdue intents are pending, so an eager gateway expires pending intents only. */
  lemma LateArePending(g: Gateway, missed: set<uint64>, now: uint64)
    requires AllPending(g, missed)
    ensures AllPending(g, Late(g, missed, now))
  {
  }

  lemma OneIntentMatches(g: Gateway, missed: set<uint64>, call: Call, now: uint64)
    requires AllPending(g, missed) && Subject(call).Some?
    ensures CallMatches(g, missed, call, now)
  {
    var id, late, after := Subject(call).value, Late(g, missed, now), MissedAfter(g, missed, call, now);
    RevivesOne(g, missed, call, now);
    LateArePending(g, missed, now);
    MissedAfterOne(g, missed, call, now);
    if id in g.intents && !(call.MarkPaidFromTx? && call.amount <= 0) {
      var it := g.intents[id];
      ActOnMissed(call, it, id in missed, now);
      ExpireReplaced(g, late, after, id, Act(call, if call.SettleIntent? then it else Refresh(it, now), now).0);
    } else {
      assert Expire(g, late).intents == Expire(g, after).intents;
    }
  }

  lemma ListingReplies(g: Gateway, missed: set<uint64>, merchant: Address, now: uint64)
    requires AllPending(g, missed)
    ensures var call := ListMerchantPayments(merchant);
            Apply(g, call, now).1 == ApplyPlain(Expire(g, Late(g, missed, now)), call, now).1
            <==> !Revives(g, missed, call, now)
  {
    var call := ListMerchantPayments(merchant);
    var lazy, eager := Apply(g, call, now).1, ApplyPlain(Expire(g, Late(g, missed, now)), call, now).1;
    if Revives(g, missed, call, now) {
      var id :| id in missed && id in g.intents && !Overdue(g.intents[id], now) && LooksAt(call, id, g.intents[id]);
      assert lazy.clones[id] != eager.clones[id];
    } else {
      forall id | id in g.intents && g.intents[id].merchant == merchant && id in missed
        ensures Overdue(g.intents[id], now)
      {
        assert LooksAt(call, id, g.intents[id]);
      }
      assert lazy.clones == eager.clones;
    }
  }

  lemma ListingMatches(g: Gateway, missed: set<uint64>, merchant: Address, now: uint64)
    requires AllPending(g, missed)
    ensures CallMatches(g, missed, ListMerchantPayments(merchant), now)
  {
    var call := ListMerchantPayments(merchant);
    ListingReplies(g, missed, merchant, now);
    if !Revives(g, missed, call, now) {
      forall id | id in g.intents && g.intents[id].merchant == merchant && id in missed
        ensures Overdue(g.intents[id], now)
      {
        assert LooksAt(call, id, g.intents[id]);
      }
      assert Expire(g, Late(g, missed, now)).intents
          == Expire(Apply(g, call, now).0, MissedAfter(g, missed, call, now)).intents;
    }
  }

  lemma CreationMatches(g: Gateway, missed: set<uint64>, call: Call, now: uint64)
    requires AllPending(g, missed) && call.CreateIntent?
    ensures CallMatches(g, missed, call, now)
  {
  }

  lemma OneCallMatches(g: Gateway, missed: set<uint64>, call: Call, now: uint64)
    requires AllPending(g, missed)
    ensures CallMatches(g, missed, call, now)
  {
    if Subject(call).Some? {
      OneIntentMatches(g, missed, call, now);
    } else if call.ListMerchantPayments? {
      ListingMatches(g, missed, call.merchant, now);
    } else if call.CreateIntent? {
      CreationMatches(g, missed, call, now);
    } else {
      assert Expire(g, Late(g, missed, now)).intents == Expire(g, MissedAfter(g, missed, call, now)).intents;
    }
  }

  /** As long as no missed intent is revived, the eager gateway is the lazy one with the missed intents expired. */
  lemma {:induction false} HistoriesMatch(g: Gateway, cs: seq<Timed>)
    ensures AllPending(Run(g, cs), Missed(g, cs))
    ensures NeverRevives(g, cs) <==> Replies(g, cs) == EagerReplies(g, cs)
    ensures NeverRevives(g, cs) ==> RunEager(g, cs) == Expire(Run(g, cs), Missed(g, cs))
  {
    if |cs| == 0 {
      assert Expire(g, {}).intents == g.intents;
    } else {
      var init, last := cs[..|cs| - 1], cs[|cs| - 1];
      HistoriesMatch(g, init);
      TickOfExpired(Run(g, init), Missed(g, init), last.now);
      OneCallMatches(Run(g, init), Missed(g, init), last.call, last.now);
      assert Replies(g, cs)[..|init|] == Replies(g, init) && EagerReplies(g, cs)[..|init|] == EagerReplies(g, init);
    }
  }

  /** Whatever the clock does: lazy and eager expiry answer alike exactly when no call revives a missed intent. */
  lemma LazyIsEagerIff(g: Gateway, cs: seq<Timed>)
    ensures Replies(g, cs) == EagerReplies(g, cs) <==> NeverRevives(g, cs)
  {
    HistoriesMatch(g, cs);
  }

  lemma OverdueIsNotRevived(g: Gateway, missed: set<uint64>, call: Call, now: uint64)
    requires forall id :: id in missed ==> id in g.intents && Overdue(g.intents[id], now)
    ensures !Revives(g, missed, call, now)
    ensures forall id :: id in MissedAfter(g, missed, call, now) ==> Overdue(Apply(g, call, now).0.intents[id], now)
  {
  }

  lemma {:induction false} MissedStayOverdue(g: Gateway, cs: seq<Timed>, now: uint64)
    requires NonDecreasing(cs) && forall i :: 0 <= i < |cs| ==> cs[i].now <= now
    ensures NeverRevives(g, cs)
    ensures forall id :: id in Missed(g, cs) ==> id in Run(g, cs).intents && Overdue(Run(g, cs).intents[id], now)
  {
    if |cs| > 0 {
      var init, last := cs[..|cs| - 1], cs[|cs| - 1];
      MissedStayOverdue(g, init, last.now);
      OverdueIsNotRevived(Run(g, init), Missed(g, init), last.call, last.now);
    }
  }

  /** Lazy expiry refines eager expiry: with a clock that never goes back, every reply is the same. */
  lemma LazyRefinesEager(g: Gateway, cs: seq<Timed>)
    requires NonDecreasing(cs)
    ensures Replies(g, cs) == EagerReplies(g, cs)
  {
    if |cs| > 0 {
      MissedStayOverdue(g, cs, cs[|cs| - 1].now);
    }
    LazyIsEagerIff(g, cs);
  }

  lemma SecondReply(g: Gateway, c: Timed, d: Timed)
    ensures Replies(g, [c, d])[1] == Apply(Apply(g, c.call, c.now).0, d.call, d.now).1
    ensures EagerReplies(g, [c, d])[1] == ApplyEager(ApplyEager(g, c.call, c.now).0, d.call, d.now).1
  {
  }

  lemma LateThenEarly(g: Gateway, id: uint64, other: uint64, payer: Address, late: uint64, early: uint64)
    requires id in g.intents && other != id
    requires g.intents[id].status == StatusPending && !g.intents[id].paid && !g.intents[id].refunded
    requires 0 < g.intents[id].expiry && early <= g.intents[id].expiry < late
    ensures Apply(Apply(g, GetIntent(other), late).0, PayIntent(id, payer), early).1.Clone?
    ensures ApplyEager(ApplyEager(g, GetIntent(other), late).0, PayIntent(id, payer), early).1
         == Failed(CannotPayExpired)
  {
    assert Apply(g, GetIntent(other), late).0.intents[id] == g.intents[id];
    assert ApplyEager(g, GetIntent(other), late).0.intents[id].status == StatusExpired;
  }

  /**
   * The shortest such history: another intent is fetched after the expiry, and a payment stamped before
   * it follows; the eager gateway refuses the payment that the lazy one takes.
   */
  lemma ClockMustNotGoBack(g: Gateway, id: uint64, other: uint64, payer: Address, late: uint64, early: uint64)
    requires id in g.intents && other != id
    requires g.intents[id].status == StatusPending && !g.intents[id].paid && !g.intents[id].refunded
    requires 0 < g.intents[id].expiry && early <= g.intents[id].expiry < late
    ensures var cs := [Timed(GetIntent(other), late), Timed(PayIntent(id, payer), early)];
            Replies(g, cs)[1].Clone? && EagerReplies(g, cs)[1] == Failed(CannotPayExpired)
  {
    SecondReply(g, Timed(GetIntent(other), late), Timed(PayIntent(id, payer), early));
    LateThenEarly(g, id, other, payer, late, early);
  }
}
