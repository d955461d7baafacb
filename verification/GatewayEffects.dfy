/**
 * What every gateway call does to the invoice it names, and what a creation stores, read off the call, the stored
 * invoice and the clock reading.
 */
module GatewayEffects {
  import opened Types
  import opened GatewaySpec

  // ---------------------------------------------------------------------------------------------
  // Creation
  // ---------------------------------------------------------------------------------------------

  /** The expiry setting in force before call k: that of the last setting call, or 900 seconds. */
  function SettingBefore(cs: seq<Timed>, k: nat): uint64
    requires k <= |cs|
  {
    if k == 0 then 900
    else if cs[k - 1].call.SetExpirySeconds? then cs[k - 1].call.seconds
    else SettingBefore(cs, k - 1)
  }

  lemma SettingOfPrefix(cs: seq<Timed>, k: nat, n: nat)
    requires k <= n <= |cs|
    ensures SettingBefore(cs[..n], k) == SettingBefore(cs, k)
  {
    if k > 0 {
      SettingOfPrefix(cs, k - 1, n);
    }
  }

  lemma {:induction false} SettingIsKept(cs: seq<Timed>)
    ensures Run(NEW_GATEWAY, cs).expirySeconds == SettingBefore(cs, |cs|)
  {
    if |cs| > 0 {
      var n := |cs| - 1;
      SettingIsKept(cs[..n]);
      SettingOfPrefix(cs, n, n);
    }
  }

  lemma RunNext(g: Gateway, cs: seq<Timed>, k: nat)
    requires k < |cs|
    ensures Run(g, cs[..k + 1]) == Apply(Run(g, cs[..k]), cs[k].call, cs[k].now).0
  {
    assert cs[..k + 1][..k] == cs[..k];
  }

  /** A creation with a positive amount and a token. */
  predicate IsCreation(c: Call) {
    c.CreateIntent? && c.amount > 0 && c.token != ""
  }

  /** A new invoice with these terms, pending and without payment data. */
  predicate IsNew(it: Intent, id: uint64, merchant: Address, amount: int, token: string, ts: uint64, expiry: uint64) {
    && it.id == id && it.merchant == merchant && it.amount == amount && it.token == token
    && it.timestamp == ts && it.expiry == expiry
    && it.status == StatusPending && !it.paid && !it.refunded
    && it.payer == 0 && it.txHash == None && it.blockNumber == 0 && it.paidAt == 0
  }

  /**
   * Call k of a history, a creation, stores and returns an invoice under the next id that carries its own arguments
   * and expires the setting's seconds after its timestamp, modulo 2^64.
   */
  lemma CreationStores(cs: seq<Timed>, k: nat)
    requires k < |cs| && IsCreation(cs[k].call)
    ensures var c, g, g' := cs[k].call, Run(NEW_GATEWAY, cs[..k]), Run(NEW_GATEWAY, cs[..k + 1]);
            var reply := Apply(g, c, cs[k].now).1;
            var id := (g.counter + 1) % 0x1_0000_0000_0000_0000;
            var expiry := (c.ts + SettingBefore(cs, k)) % 0x1_0000_0000_0000_0000;
            && reply.Clone? && IsNew(reply.intent, id, c.merchant, c.amount, c.token, c.ts, expiry)
            && g'.intents == g.intents[id := reply.intent] && g'.counter == id
  {
    RunNext(NEW_GATEWAY, cs, k);
    SettingIsKept(cs[..k]);
    SettingOfPrefix(cs, k, k);
  }

  /** A creation without a positive amount or without a token is refused and stores nothing. */
  lemma CreationRefused(g: Gateway, c: Call, now: uint64)
    requires c.CreateIntent? && !IsCreation(c)
    ensures Apply(g, c, now) == (g, Failed(if c.amount <= 0 then AmountNotPositive else TokenRequired))
  {
  }

  lemma {:induction false} CreationsOfPrefix(cs: seq<Timed>, k: nat)
    requires k <= |cs|
    ensures Creations(cs[..k]) <= Creations(cs)
  {
    if k == |cs| {
      assert cs[..k] == cs;
    } else {
      assert cs[..|cs| - 1][..k] == cs[..k];
      CreationsOfPrefix(cs[..|cs| - 1], k);
    }
  }

  /** Before its creation the invoice does not exist. */
  lemma NotThereBefore(cs: seq<Timed>, k: nat, j: nat)
    requires j <= k < |cs| && IsCreation(cs[k].call) && Creations(cs) < U64
    ensures Run(NEW_GATEWAY, cs[..k + 1]).counter !in Run(NEW_GATEWAY, cs[..j]).intents
  {
    var id := Run(NEW_GATEWAY, cs[..k + 1]).counter;
    CreationStores(cs, k);
    CreationsOfPrefix(cs, k + 1);
    CreationsOfPrefix(cs[..k + 1], k);
    assert cs[..k + 1][..k] == cs[..k] && cs[..k][..j] == cs[..j];
    GatewayInvariant(cs[..k]);
    GatewayInvariant(cs[..k + 1]);
    if id in Run(NEW_GATEWAY, cs[..j]).intents {
      IntentsEvolve(cs[..k], j, id);
    }
  }

  /** After it, it keeps its expiry. */
  lemma KeepsExpiry(cs: seq<Timed>, k: nat, j: nat)
    requires k < j <= |cs| && IsCreation(cs[k].call) && Creations(cs) < U64
    requires cs[k].call.ts + SettingBefore(cs, k) < U64
    ensures var id := Run(NEW_GATEWAY, cs[..k + 1]).counter;
            && id in Run(NEW_GATEWAY, cs[..j]).intents
            && Run(NEW_GATEWAY, cs[..j]).intents[id].expiry == cs[k].call.ts + SettingBefore(cs, k)
  {
    CreationStores(cs, k);
    CreationsOfPrefix(cs, j);
    assert cs[..j][..k + 1] == cs[..k + 1];
    IntentsEvolve(cs[..j], k + 1, Run(NEW_GATEWAY, cs[..k + 1]).counter);
  }

  /** As long as the expiry does not wrap, no reading up to it expires the invoice. */
  lemma NotExpiredBefore(cs: seq<Timed>, k: nat)
    requires k < |cs| && IsCreation(cs[k].call) && Creations(cs) < U64
    requires cs[k].call.ts + SettingBefore(cs, k) < U64
    requires forall j :: k < j < |cs| ==> cs[j].now <= cs[k].call.ts + SettingBefore(cs, k)
    ensures var id := Run(NEW_GATEWAY, cs[..k + 1]).counter;
            id in Run(NEW_GATEWAY, cs).intents && Run(NEW_GATEWAY, cs).intents[id].status != StatusExpired
  {
    var id := Run(NEW_GATEWAY, cs[..k + 1]).counter;
    assert cs[..|cs|] == cs;
    KeepsExpiry(cs, k, |cs|);
    ExpiredIffTouchedLate(cs, id);
    forall j: nat | j < |cs| ensures !TouchedLate(cs, id, j) {
      if j <= k {
        NotThereBefore(cs, k, j);
      } else {
        KeepsExpiry(cs, k, j);
      }
    }
  }

  // ---------------------------------------------------------------------------------------------
  // Calls that name one invoice
  // ---------------------------------------------------------------------------------------------

  /** The invoice as any refreshing call finds it: expired when pending, unpaid, and read after a non-zero expiry. */
  function Seen(it: Intent, now: uint64): Intent {
    if it.status == StatusPending && !it.paid && !it.refunded && 0 < it.expiry < now then it.(status := StatusExpired)
    else it
  }

  predicate IsProcessed(it: Intent) {
    it.status != StatusPending && it.status != StatusExpired
  }

  function Paid(it: Intent, payer: Address, now: uint64): Intent {
    it.(status := StatusPaid, paid := true, payer := payer, paidAt := now)
  }

  /** The call answers so, and stores so, and changes no other invoice, the counter or the setting. */
  ghost predicate Does(g: Gateway, call: Call, now: uint64, id: uint64, after: Intent, reply: Reply) {
    Apply(g, call, now) == (g.(intents := g.intents[id := after]), reply)
  }

  lemma UnknownInvoice(g: Gateway, call: Call, now: uint64)
    requires Subject(call).Some? && Subject(call).value !in g.intents
    ensures Apply(g, call, now)
         == (g, Failed(if call.MarkPaidFromTx? && call.amount <= 0 then AmountNotPositive else IntentNotFound))
  {
  }

  lemma FetchDoes(g: Gateway, id: uint64, now: uint64)
    requires id in g.intents
    ensures var it := Seen(g.intents[id], now); Does(g, GetIntent(id), now, id, it, Clone(it))
  {
  }

  /** A pending invoice is paid by the payer at the reading, a processed one returned as is, an expired one refused. */
  lemma PaymentDoes(g: Gateway, id: uint64, payer: Address, now: uint64)
    requires id in g.intents
    ensures var it := Seen(g.intents[id], now);
            var after := if it.status == StatusPending then Paid(it, payer, now) else it;
            Does(g, PayIntent(id, payer), now, id, after,
                 if it.status == StatusExpired then Failed(CannotPayExpired) else Clone(after))
  {
  }

  /** Only a paid invoice is refunded. */
  lemma RefundDoes(g: Gateway, id: uint64, now: uint64)
    requires id in g.intents
    ensures var it := Seen(g.intents[id], now);
            var after := if it.status == StatusPaid then it.(status := StatusRefunded, refunded := true) else it;
            Does(g, RefundIntent(id), now, id, after,
                 if it.status == StatusPaid then Clone(after) else Failed(OnlyPaidRefundable))
  {
  }

  /** Only a paid or refunded invoice is settled, and none is refreshed. */
  lemma SettlementDoes(g: Gateway, id: uint64, now: uint64)
    requires id in g.intents
    ensures var it := g.intents[id];
            var ok := it.status == StatusPaid || it.status == StatusRefunded;
            var after := if ok then it.(status := StatusSettled) else it;
            Does(g, SettleIntent(id), now, id, after, if ok then Clone(after) else Failed(OnlyPaidSettleable))
  {
  }

  /** A mark pays a pending invoice of that merchant in full, with hash and block number, or fails its first test. */
  lemma MarkDoes(g: Gateway, c: Call, now: uint64)
    requires c.MarkPaidFromTx? && c.id in g.intents
    ensures c.amount <= 0 ==> Apply(g, c, now) == (g, Failed(AmountNotPositive))
    ensures c.amount > 0 ==>
              var it := Seen(g.intents[c.id], now);
              var ok := it.status == StatusPending && c.merchant == it.merchant && c.amount >= it.amount;
              Does(g, c, now, c.id,
                   if ok then Paid(it, c.payer, now).(txHash := Some(c.txHash), blockNumber := c.blockNum) else it,
                   if ok then Done
                   else Failed(if it.status == StatusExpired then IntentExpired
                               else if IsProcessed(it) then AlreadyProcessed
                               else if c.merchant != it.merchant then MerchantMismatch
                               else AmountTooSmall))
  {
  }

  /** A listing refreshes the merchant's invoices, answers with exactly those, and touches no other. */
  lemma ListingDoes(g: Gateway, merchant: Address, now: uint64)
    ensures var (g', reply) := Apply(g, ListMerchantPayments(merchant), now);
            && g'.counter == g.counter && g'.expirySeconds == g.expirySeconds && g'.intents.Keys == g.intents.Keys
            && (forall id :: id in g.intents ==>
                  g'.intents[id]
                  == if g.intents[id].merchant == merchant then Seen(g.intents[id], now) else g.intents[id])
            && reply.Listing?
            && (forall id :: id in reply.clones <==> id in g.intents && g.intents[id].merchant == merchant)
            && (forall id :: id in reply.clones ==> reply.clones[id] == g'.intents[id])
  {
  }

  /** The clones a listing collects, in whatever order it visits the map, are those of its reply. */
  lemma ListingCollectsReply(g: Gateway, order: seq<uint64>, merchant: Address, now: uint64)
    requires Enumerates(order, g.intents.Keys)
    ensures var reply := Apply(g, ListMerchantPayments(merchant), now).1;
            && |ListedIn(g, order, merchant, now)| == |reply.clones|
            && forall it :: it in ListedIn(g, order, merchant, now) <==> it in reply.clones.Values
  {
    ListingIsComplete(g, order, g.intents.Keys, merchant, now);
    assert Apply(g, ListMerchantPayments(merchant), now).1.clones == Mine(g, g.intents.Keys, merchant, now);
  }

  /** Setting the expiry changes nothing else. */
  lemma SettingDoes(g: Gateway, seconds: uint64, now: uint64)
    ensures Apply(g, SetExpirySeconds(seconds), now) == (Gateway(g.intents, g.counter, seconds), Done)
  {
  }
}
