/**
 * The payment gateway as a value: one function per call, and what holds of every history of calls.
 * Every call carries the clock reading it uses.
 */
module GatewaySpec {
  import opened Types

  datatype Status = StatusPending | StatusPaid | StatusExpired | StatusRefunded | StatusSettled

  datatype Intent = Intent(
    id: uint64,
    merchant: Address,
    payer: Address,
    amount: int,
    token: string,
    timestamp: uint64,
    expiry: uint64,
    paid: bool,
    refunded: bool,
    status: Status,
    txHash: Option<Hash>,
    blockNumber: uint64,
    paidAt: uint64)

  datatype Gateway = Gateway(intents: map<uint64, Intent>, counter: uint64, expirySeconds: uint64)

  const NEW_GATEWAY := Gateway(map[], 0, 900)

  datatype Error =
    | AmountNotPositive
    | TokenRequired
    | IntentNotFound
    | CannotPayExpired
    | OnlyPaidRefundable
    | OnlyPaidSettleable
    | IntentExpired
    | AlreadyProcessed
    | MerchantMismatch
    | AmountTooSmall

  datatype Call =
    | SetExpirySeconds(seconds: uint64)
    | CreateIntent(merchant: Address, amount: int, token: string, ts: uint64)
    | GetIntent(id: uint64)
    | ListMerchantPayments(merchant: Address)
    | PayIntent(id: uint64, payer: Address)
    | RefundIntent(id: uint64)
    | SettleIntent(id: uint64)
    | MarkPaidFromTx(id: uint64, payer: Address, merchant: Address, amount: int, txHash: Hash, blockNum: uint64)

  datatype Reply =
    | Done
    | Clone(intent: Intent)
    | Listing(clones: map<uint64, Intent>)
    | Failed(error: Error)

  /** Pending, unpaid, and past a non-zero expiry. */
  predicate Overdue(it: Intent, now: uint64) {
    it.status == StatusPending && !it.paid && !it.refunded && it.expiry > 0 && now > it.expiry
  }

  /** updateStatusLocked. */
  function Refresh(it: Intent, now: uint64): Intent {
    if Overdue(it, now) then it.(status := StatusExpired) else it
  }

  predicate Processed(s: Status) {
    s == StatusPaid || s == StatusRefunded || s == StatusSettled
  }

  /** A fresh intent; the expiry wraps as uint64 addition does. */
  function NewIntent(g: Gateway, merchant: Address, amount: int, token: string, ts: uint64): Intent {
    Intent(WrapAdd(g.counter, 1), merchant, ZERO_ADDRESS, amount, token, ts, WrapAdd(ts, g.expirySeconds),
           false, false, StatusPending, None, 0, 0)
  }

  function Create(g: Gateway, merchant: Address, amount: int, token: string, ts: uint64): (Gateway, Reply) {
    if amount <= 0 then (g, Failed(AmountNotPositive))
    else if token == "" then (g, Failed(TokenRequired))
    else
      var it := NewIntent(g, merchant, amount, token, ts);
      (g.(intents := g.intents[it.id := it], counter := it.id), Clone(it))
  }

  /** The call is a creation that is not refused. */
  predicate Creates(call: Call) {
    call.CreateIntent? && call.amount > 0 && call.token != ""
  }

  /** What paying does to a refreshed intent. */
  function Pay(it: Intent, payer: Address, now: uint64): (Intent, Reply) {
    if it.status == StatusExpired then (it, Failed(CannotPayExpired))
    else if Processed(it.status) then (it, Clone(it))
    else
      var paid := it.(paid := true, status := StatusPaid, payer := payer, paidAt := now);
      (paid, Clone(paid))
  }

  function Refund(it: Intent): (Intent, Reply) {
    if it.status != StatusPaid then (it, Failed(OnlyPaidRefundable))
    else
      var refunded := it.(refunded := true, status := StatusRefunded);
      (refunded, Clone(refunded))
  }

  function Settle(it: Intent): (Intent, Reply) {
    if it.status != StatusPaid && it.status != StatusRefunded then (it, Failed(OnlyPaidSettleable))
    else
      var settled := it.(status := StatusSettled);
      (settled, Clone(settled))
  }

  function MarkPaid(it: Intent, payer: Address, merchant: Address, amount: int, txHash: Hash, blockNum: uint64,
                    blockTime: uint64): (Intent, Reply)
  {
    if it.status == StatusExpired then (it, Failed(IntentExpired))
    else if Processed(it.status) then (it, Failed(AlreadyProcessed))
    else if merchant != it.merchant then (it, Failed(MerchantMismatch))
    else if amount < it.amount then (it, Failed(AmountTooSmall))
    else
      (it.(paid := true, status := StatusPaid, payer := payer, paidAt := blockTime,
           txHash := Some(txHash), blockNumber := blockNum), Done)
  }

  /** The intent named by a call that addresses one intent. */
  function Subject(call: Call): Option<uint64> {
    match call
    case GetIntent(id) => Some(id)
    case PayIntent(id, _) => Some(id)
    case RefundIntent(id) => Some(id)
    case SettleIntent(id) => Some(id)
    case MarkPaidFromTx(id, _, _, _, _, _) => Some(id)
    case _ => None
  }

  /** What a one-intent call does to its subject, once the subject is refreshed where the call refreshes. */
  function Act(call: Call, it: Intent, now: uint64): (Intent, Reply)
    requires Subject(call).Some?
  {
    match call
    case GetIntent(_) => (it, Clone(it))
    case PayIntent(_, payer) => Pay(it, payer, now)
    case RefundIntent(_) => Refund(it)
    case SettleIntent(_) => Settle(it)
    case MarkPaidFromTx(_, payer, merchant, amount, txHash, blockNum) =>
      MarkPaid(it, payer, merchant, amount, txHash, blockNum, now)
  }

  /** A one-intent call: find the subject, refresh it unless settling, act on it. */
  function ApplyOne(g: Gateway, call: Call, now: uint64): (Gateway, Reply)
    requires Subject(call).Some?
  {
    var id := Subject(call).value;
    if call.MarkPaidFromTx? && call.amount <= 0 then (g, Failed(AmountNotPositive))
    else if id !in g.intents then (g, Failed(IntentNotFound))
    else
      var seen := if call.SettleIntent? then g.intents[id] else Refresh(g.intents[id], now);
      var (after, reply) := Act(call, seen, now);
      (g.(intents := g.intents[id := after]), reply)
  }

  /** What a listing does to an intent. */
  function Listed(it: Intent, merchant: Address, now: uint64): Intent {
    if it.merchant == merchant then Refresh(it, now) else it
  }

  /** Refreshes and returns every intent of one merchant. */
  function List(g: Gateway, merchant: Address, now: uint64): (Gateway, Reply) {
    (g.(intents := map id | id in g.intents :: Listed(g.intents[id], merchant, now)),
     Listing(map id | id in g.intents && g.intents[id].merchant == merchant :: Refresh(g.intents[id], now)))
  }

  /** One call of the gateway at clock reading now; for MarkPaidFromTx, now is the block time. */
  function Apply(g: Gateway, call: Call, now: uint64): (Gateway, Reply) {
    if Subject(call).Some? then ApplyOne(g, call, now)
    else
      match call
      case SetExpirySeconds(seconds) => (g.(expirySeconds := seconds), Done)
      case CreateIntent(merchant, amount, token, ts) => Create(g, merchant, amount, token, ts)
      case ListMerchantPayments(merchant) => List(g, merchant, now)
  }

  /** Acting on the refreshed subject and storing the result is the whole of a one-intent call. */
  lemma ActIsApply(g: Gateway, call: Call, now: uint64, after: Intent, reply: Reply)
    requires Subject(call).Some? && Subject(call).value in g.intents
    requires call.MarkPaidFromTx? ==> call.amount > 0
    requires var it := g.intents[Subject(call).value];
             (after, reply) == Act(call, if call.SettleIntent? then it else Refresh(it, now), now)
    ensures Apply(g, call, now) == (g.(intents := g.intents[Subject(call).value := after]), reply)
  {
  }

  /** An order in which a set of ids can be visited: each of them exactly once. */
  ghost predicate Enumerates(order: seq<uint64>, ids: set<uint64>) {
    if |order| == 0 then ids == {}
    else
      var last := order[|order| - 1];
      last in ids && Enumerates(order[..|order| - 1], ids - {last})
  }

  /** The clone, if any, that one intent adds to a listing. */
  function ClonesOf(it: Intent, merchant: Address, now: uint64): seq<Intent> {
    if it.merchant == merchant then [Refresh(it, now)] else []
  }

  /** A listing under way: the intents visited so far are listed, the others as they were. */
  ghost function PartlyListed(g: Gateway, visited: set<uint64>, merchant: Address, now: uint64): Gateway {
    g.(intents := map id | id in g.intents ::
                    if id in visited then Listed(g.intents[id], merchant, now) else g.intents[id])
  }

  /** The clones a listing collects when it visits the map in the given order. */
  ghost function ListedIn(g: Gateway, order: seq<uint64>, merchant: Address, now: uint64): seq<Intent>
  {
    if |order| == 0 then []
    else
      var id := order[|order| - 1];
      ListedIn(g, order[..|order| - 1], merchant, now)
      + (if id in g.intents then ClonesOf(g.intents[id], merchant, now) else [])
  }

  /** What is known of gateway and clones after some ids have been visited in some order. */
  ghost predicate ListingUnderWay(g: Gateway, current: Gateway, clones: seq<Intent>, order: seq<uint64>,
                                  visited: set<uint64>, merchant: Address, now: uint64)
  {
    && Enumerates(order, visited)
    && clones == ListedIn(g, order, merchant, now)
    && current == PartlyListed(g, visited, merchant, now)
    && (visited == g.intents.Keys ==> current == List(g, merchant, now).0)
  }

  lemma ListingStarts(g: Gateway, merchant: Address, now: uint64)
    ensures ListingUnderWay(g, g, [], [], {}, merchant, now)
  {
  }

  lemma ListingAdvances(g: Gateway, current: Gateway, clones: seq<Intent>, order: seq<uint64>, visited: set<uint64>,
                        id: uint64, merchant: Address, now: uint64)
    requires ListingUnderWay(g, current, clones, order, visited, merchant, now)
    requires id in g.intents && id !in visited
    ensures id in current.intents
    ensures var it := current.intents[id];
            ListingUnderWay(g, current.(intents := current.intents[id := Listed(it, merchant, now)]),
                            clones + ClonesOf(it, merchant, now), order + [id], visited + {id}, merchant, now)
  {
  }

  lemma AddValue(m: map<uint64, Intent>, id: uint64, it: Intent)
    requires id !in m
    ensures |m[id := it]| == |m| + 1
    ensures forall v :: v in m[id := it].Values <==> v in m.Values || v == it
  {
    var m' := m[id := it];
    assert m'.Keys == m.Keys + {id};
    assert m'[id] == it;
    forall k | k in m ensures m[k] in m'.Values {
      assert m'[k] == m[k];
    }
  }

  /** The refreshed intents of one merchant among some ids. */
  ghost function Mine(g: Gateway, ids: set<uint64>, merchant: Address, now: uint64): map<uint64, Intent>
    requires ids <= g.intents.Keys
  {
    map id | id in ids && g.intents[id].merchant == merchant :: Refresh(g.intents[id], now)
  }

  /** Whatever the order, a listing holds each of the merchant's intents exactly once, refreshed. */
  lemma {:induction false} ListingIsComplete(g: Gateway, order: seq<uint64>, ids: set<uint64>, merchant: Address,
                                             now: uint64)
    requires Enumerates(order, ids) && ids <= g.intents.Keys
    ensures |ListedIn(g, order, merchant, now)| == |Mine(g, ids, merchant, now)|
    ensures forall it :: it in ListedIn(g, order, merchant, now) <==> it in Mine(g, ids, merchant, now).Values
  {
    if |order| == 0 {
      assert Mine(g, ids, merchant, now) == map[];
    } else {
      var init, last := order[..|order| - 1], order[|order| - 1];
      ListingIsComplete(g, init, ids - {last}, merchant, now);
      var others := Mine(g, ids - {last}, merchant, now);
      var list := ListedIn(g, init, merchant, now);
      var it := Refresh(g.intents[last], now);
      if g.intents[last].merchant == merchant {
        assert ListedIn(g, order, merchant, now) == list + [it];
        assert forall v :: v in list + [it] <==> v in list || v == it;
        AddValue(others, last, Refresh(g.intents[last], now));
        assert Mine(g, ids, merchant, now) == others[last := Refresh(g.intents[last], now)];
      } else {
        assert ListedIn(g, order, merchant, now) == list;
        assert Mine(g, ids, merchant, now) == others;
      }
    }
  }

  // ---------------------------------------------------------------------------------------------
  // Histories
  // ---------------------------------------------------------------------------------------------

  datatype Timed = Timed(call: Call, now: uint64)

  /** The gateway after a history of calls. */
  ghost function Run(g: Gateway, cs: seq<Timed>): Gateway {
    if |cs| == 0 then g
    else
      var last := cs[|cs| - 1];
      Apply(Run(g, cs[..|cs| - 1]), last.call, last.now).0
  }

  /** The successful creations in a history; the id counter wraps at the 2^64-th. */
  ghost function Creations(cs: seq<Timed>): nat {
    if |cs| == 0 then 0
    else Creations(cs[..|cs| - 1]) + if Creates(cs[|cs| - 1].call) then 1 else 0
  }

  /** Histories compose. */
  lemma {:induction false} RunConcat(g: Gateway, cs: seq<Timed>, ds: seq<Timed>)
    ensures Run(g, cs + ds) == Run(Run(g, cs), ds)
    ensures Creations(cs + ds) == Creations(cs) + Creations(ds)
  {
    var whole := cs + ds;
    if |ds| == 0 {
      assert whole == cs;
    } else {
      RunConcat(g, cs, ds[..|ds| - 1]);
      assert whole[..|whole| - 1] == cs + ds[..|ds| - 1];
    }
  }

  /** How far an intent has come: every status change goes up. */
  function Rank(s: Status): nat {
    match s
    case StatusPending => 0
    case StatusExpired => 1
    case StatusPaid => 1
    case StatusRefunded => 2
    case StatusSettled => 3
  }

  ghost predicate IntentOk(it: Intent) {
    && it.amount > 0
    && it.token != ""
    && (it.paid <==> Processed(it.status))
    && (it.status == StatusRefunded ==> it.refunded)
    && (it.refunded ==> it.status == StatusRefunded || it.status == StatusSettled)
    && (it.paid && it.expiry > 0 ==> it.paidAt <= it.expiry)
    && (it.txHash.Some? ==> it.paid)
    && (it.status == StatusExpired ==> it.expiry > 0)
  }

  /** Ids are dense: exactly 1..counter, each key holding the intent with that id. */
  ghost predicate Dense(g: Gateway) {
    && (forall id: uint64 :: id in g.intents <==> 1 <= id <= g.counter)
    && (forall id :: id in g.intents ==> g.intents[id].id == id)
  }

  ghost predicate GatewayOk(g: Gateway) {
    Dense(g) && forall id :: id in g.intents ==> IntentOk(g.intents[id])
  }

  /** What a step may do to an existing intent: terms fixed, status only upwards, payment data written once. */
  ghost predicate Evolves(before: Intent, after: Intent) {
    && after.id == before.id
    && after.merchant == before.merchant
    && after.amount == before.amount
    && after.token == before.token
    && after.timestamp == before.timestamp
    && after.expiry == before.expiry
    && (after.status == before.status || Rank(before.status) < Rank(after.status))
    && (before.status != StatusPending ==>
          && after.payer == before.payer && after.paid == before.paid && after.paidAt == before.paidAt
          && after.txHash == before.txHash && after.blockNumber == before.blockNumber)
  }

  lemma ActKeepsIntent(call: Call, it: Intent, now: uint64)
    requires Subject(call).Some? && IntentOk(it)
    requires call.MarkPaidFromTx? ==> call.amount > 0
    requires !call.SettleIntent? ==> !Overdue(it, now)
    ensures IntentOk(Act(call, it, now).0) && Evolves(it, Act(call, it, now).0)
  {
  }

  /** What one call may do to the whole gateway. */
  ghost predicate GatewayStep(g: Gateway, g': Gateway) {
    && GatewayOk(g')
    && g.counter <= g'.counter <= g.counter + 1
    && forall id :: id in g.intents ==> id in g'.intents && Evolves(g.intents[id], g'.intents[id])
  }

  lemma ReplaceKeepsOk(g: Gateway, id: uint64, it: Intent)
    requires GatewayOk(g) && id in g.intents
    requires IntentOk(it) && Evolves(g.intents[id], it)
    ensures GatewayStep(g, g.(intents := g.intents[id := it]))
  {
  }

  lemma CreateKeepsOk(g: Gateway, merchant: Address, amount: int, token: string, ts: uint64)
    requires GatewayOk(g) && (amount > 0 && token != "" ==> g.counter + 1 < U64)
    ensures GatewayStep(g, Create(g, merchant, amount, token, ts).0)
  {
  }

  lemma ListedKeepsIntent(it: Intent, merchant: Address, now: uint64)
    requires IntentOk(it)
    ensures IntentOk(Listed(it, merchant, now)) && Evolves(it, Listed(it, merchant, now))
  {
  }

  lemma ListKeepsOk(g: Gateway, merchant: Address, now: uint64)
    requires GatewayOk(g)
    ensures GatewayStep(g, List(g, merchant, now).0)
  {
    forall id | id in g.intents
      ensures IntentOk(Listed(g.intents[id], merchant, now))
      ensures Evolves(g.intents[id], Listed(g.intents[id], merchant, now))
    {
      ListedKeepsIntent(g.intents[id], merchant, now);
    }
  }

  /** One call keeps the gateway in order, unless it is the creation that wraps the counter. */
  lemma ApplyKeepsOk(g: Gateway, call: Call, now: uint64)
    requires GatewayOk(g)
    requires Creates(call) ==> g.counter + 1 < U64
    ensures GatewayStep(g, Apply(g, call, now).0)
    ensures Apply(g, call, now).0.counter == if Creates(call) then g.counter + 1 else g.counter
  {
    if Subject(call).Some? {
      var id := Subject(call).value;
      if id in g.intents && !(call.MarkPaidFromTx? && call.amount <= 0) {
        var seen := if call.SettleIntent? then g.intents[id] else Refresh(g.intents[id], now);
        ActKeepsIntent(call, seen, now);
        ReplaceKeepsOk(g, id, Act(call, seen, now).0);
      }
    } else if call.CreateIntent? {
      CreateKeepsOk(g, call.merchant, call.amount, call.token, call.ts);
    } else if call.ListMerchantPayments? {
      ListKeepsOk(g, call.merchant, now);
    }
  }

  /** Density breaks exactly at the creation that wraps the uint64 counter. */
  lemma CreateKeepsDense(g: Gateway, merchant: Address, amount: int, token: string, ts: uint64, now: uint64)
    requires Dense(g) && amount > 0 && token != ""
    ensures Dense(Apply(g, CreateIntent(merchant, amount, token, ts), now).0) <==> g.counter + 1 < U64
  {
    var g' := Apply(g, CreateIntent(merchant, amount, token, ts), now).0;
    if g.counter + 1 >= U64 {
      assert (0 as uint64) in g'.intents;
    }
  }

  /** The invariant over every history of fewer than 2^64 successful creations. */
  lemma {:induction false} GatewayInvariant(cs: seq<Timed>)
    requires Creations(cs) < U64
    ensures GatewayOk(Run(NEW_GATEWAY, cs))
    ensures Run(NEW_GATEWAY, cs).counter == Creations(cs)
  {
    if |cs| > 0 {
      var init := cs[..|cs| - 1];
      GatewayInvariant(init);
      ApplyKeepsOk(Run(NEW_GATEWAY, init), cs[|cs| - 1].call, cs[|cs| - 1].now);
    }
  }

  /** The 2^64-th successful creation stores an intent under id 0, which no call ever removes. */
  lemma {:induction false} WrappedGateway(cs: seq<Timed>)
    requires Creations(cs) >= U64
    ensures (0 as uint64) in Run(NEW_GATEWAY, cs).intents
  {
    var init := cs[..|cs| - 1];
    if Creations(init) >= U64 {
      WrappedGateway(init);
    } else {
      GatewayInvariant(init);
    }
  }

  /** The gateway is in order exactly as long as the id counter has not wrapped. */
  lemma GatewayOkIff(cs: seq<Timed>)
    ensures GatewayOk(Run(NEW_GATEWAY, cs)) <==> Creations(cs) < U64
  {
    if Creations(cs) < U64 {
      GatewayInvariant(cs);
    } else {
      WrappedGateway(cs);
    }
  }

  /** Terms are fixed from creation on, and payment data from the first status change on. */
  lemma {:induction false} IntentsEvolve(cs: seq<Timed>, k: nat, id: uint64)
    requires k <= |cs| && Creations(cs) < U64 && id in Run(NEW_GATEWAY, cs[..k]).intents
    ensures id in Run(NEW_GATEWAY, cs).intents
    ensures Evolves(Run(NEW_GATEWAY, cs[..k]).intents[id], Run(NEW_GATEWAY, cs).intents[id])
  {
    if k == |cs| {
      assert cs[..k] == cs;
    } else {
      var init := cs[..|cs| - 1];
      assert init[..k] == cs[..k];
      IntentsEvolve(init, k, id);
      GatewayInvariant(init);
      ApplyKeepsOk(Run(NEW_GATEWAY, init), cs[|cs| - 1].call, cs[|cs| - 1].now);
    }
  }

  /** How often the status of one intent changed in a history. */
  ghost function StatusChanges(cs: seq<Timed>, id: uint64): nat {
    if |cs| == 0 then 0
    else
      var before, after := Run(NEW_GATEWAY, cs[..|cs| - 1]), Run(NEW_GATEWAY, cs);
      StatusChanges(cs[..|cs| - 1], id)
      + (if id in before.intents && id in after.intents && before.intents[id].status != after.intents[id].status
         then 1 else 0)
  }

  /** How often one intent went from unpaid to paid in a history. */
  ghost function TimesPaid(cs: seq<Timed>, id: uint64): nat {
    if |cs| == 0 then 0
    else
      var before, after := Run(NEW_GATEWAY, cs[..|cs| - 1]), Run(NEW_GATEWAY, cs);
      TimesPaid(cs[..|cs| - 1], id)
      + (if id in before.intents && id in after.intents && !before.intents[id].paid && after.intents[id].paid
         then 1 else 0)
  }

  /** At most three status changes, and at most one payment, in the life of an intent. */
  lemma {:induction false} LifeOfAnIntent(cs: seq<Timed>, id: uint64)
    requires Creations(cs) < U64
    ensures StatusChanges(cs, id) <= 3 && TimesPaid(cs, id) <= 1
    ensures id !in Run(NEW_GATEWAY, cs).intents ==> StatusChanges(cs, id) == TimesPaid(cs, id) == 0
    ensures id in Run(NEW_GATEWAY, cs).intents ==>
              var it := Run(NEW_GATEWAY, cs).intents[id];
              StatusChanges(cs, id) <= Rank(it.status) && TimesPaid(cs, id) == (if it.paid then 1 else 0)
  {
    if |cs| > 0 {
      var init, last := cs[..|cs| - 1], cs[|cs| - 1];
      LifeOfAnIntent(init, id);
      GatewayInvariant(init);
      ApplyKeepsOk(Run(NEW_GATEWAY, init), last.call, last.now);
      if id !in Run(NEW_GATEWAY, init).intents && id in Run(NEW_GATEWAY, cs).intents {
        assert last.call.CreateIntent?;
      }
    }
  }

  // ---------------------------------------------------------------------------------------------
  // When an intent is expired
  // ---------------------------------------------------------------------------------------------

  /** The call refreshes this intent. */
  ghost predicate Touches(g: Gateway, call: Call, id: uint64)
    requires id in g.intents
  {
    match call
    case ListMerchantPayments(merchant) => g.intents[id].merchant == merchant
    case MarkPaidFromTx(i, _, _, amount, _, _) => i == id && amount > 0
    case SettleIntent(_) => false
    case _ => Subject(call) == Some(id)
  }

  /** Call k of the history touched the intent while it was pending and past a non-zero expiry. */
  ghost predicate TouchedLate(cs: seq<Timed>, id: uint64, k: nat)
    requires k < |cs|
  {
    var g := Run(NEW_GATEWAY, cs[..k]);
    id in g.intents && Touches(g, cs[k].call, id) && Overdue(g.intents[id], cs[k].now)
  }

  /** One call expires an intent exactly by touching it late, and no call revives one. */
  lemma ExpiresIffTouchedLate(g: Gateway, call: Call, now: uint64, id: uint64)
    requires GatewayOk(g) && id in g.intents
    requires Creates(call) ==> g.counter + 1 < U64
    ensures id in Apply(g, call, now).0.intents
    ensures Apply(g, call, now).0.intents[id].status == StatusExpired
       <==> g.intents[id].status == StatusExpired || (Touches(g, call, id) && Overdue(g.intents[id], now))
  {
  }

  ghost predicate EverTouchedLate(cs: seq<Timed>, id: uint64) {
    exists k: nat :: k < |cs| && TouchedLate(cs, id, k)
  }

  /** For clock readings in any order: an intent is expired iff some call touched it late. */
  lemma {:induction false} ExpiredIffTouchedLate(cs: seq<Timed>, id: uint64)
    requires Creations(cs) < U64 && id in Run(NEW_GATEWAY, cs).intents
    ensures Run(NEW_GATEWAY, cs).intents[id].status == StatusExpired <==> EverTouchedLate(cs, id)
  {
    if |cs| > 0 {
      var n := |cs| - 1;
      var g := Run(NEW_GATEWAY, cs[..n]);
      GatewayInvariant(cs[..n]);
      EarlierTouches(cs, id);
      if id in g.intents {
        ExpiredIffTouchedLate(cs[..n], id);
        ExpiresIffTouchedLate(g, cs[n].call, cs[n].now, id);
      } else {
        NotYetTouched(cs[..n], id);
        assert cs[n].call.CreateIntent?;
      }
    }
  }

  /** Dropping the last call drops only the last touch. */
  lemma EarlierTouches(cs: seq<Timed>, id: uint64)
    requires |cs| > 0
    ensures EverTouchedLate(cs, id) <==> TouchedLate(cs, id, |cs| - 1) || EverTouchedLate(cs[..|cs| - 1], id)
  {
    var init := cs[..|cs| - 1];
    forall k: nat | k < |init| ensures TouchedLate(init, id, k) <==> TouchedLate(cs, id, k) {
      assert init[..k] == cs[..k];
    }
  }

  lemma NotYetTouched(cs: seq<Timed>, id: uint64)
    requires Creations(cs) < U64 && id !in Run(NEW_GATEWAY, cs).intents
    ensures !EverTouchedLate(cs, id)
  {
    forall k: nat | k < |cs| ensures !TouchedLate(cs, id, k) {
      if TouchedLate(cs, id, k) {
        IntentsEvolve(cs, k, id);
      }
    }
  }
}
