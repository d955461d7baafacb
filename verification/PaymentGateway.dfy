/** The payment gateway as the node runs it: a map of mutable intents, and clones for callers. */
module PaymentGateway {
  import opened Types
  import G = GatewaySpec

  class PaymentIntent {
    var id: uint64
    var merchant: Address
    var payer: Address
    var amount: int
    var token: string
    var timestamp: uint64
    var expiry: uint64
    var paid: bool
    var refunded: bool
    var status: G.Status
    var txHash: Option<Hash>
    var blockNumber: uint64
    var paidAt: uint64

    ghost function View(): G.Intent
      reads this
    {
      G.Intent(id, merchant, payer, amount, token, timestamp, expiry, paid, refunded, status, txHash, blockNumber,
               paidAt)
    }

    constructor New(id: uint64, merchant: Address, amount: int, token: string, timestamp: uint64, expiry: uint64)
      ensures View() == G.Intent(id, merchant, ZERO_ADDRESS, amount, token, timestamp, expiry,
                                 false, false, G.StatusPending, None, 0, 0)
    {
      this.id, this.merchant, this.payer := id, merchant, ZERO_ADDRESS;
      this.amount, this.token, this.timestamp, this.expiry := amount, token, timestamp, expiry;
      this.paid, this.refunded, this.status := false, false, G.StatusPending;
      this.txHash, this.blockNumber, this.paidAt := None, 0, 0;
    }

    /** A copy that shares nothing with the original. */
    constructor CloneOf(i: PaymentIntent)
      ensures View() == i.View()
    {
      id, merchant, payer := i.id, i.merchant, i.payer;
      amount, token, timestamp, expiry := i.amount, i.token, i.timestamp, i.expiry;
      paid, refunded, status := i.paid, i.refunded, i.status;
      txHash, blockNumber, paidAt := i.txHash, i.blockNumber, i.paidAt;
    }

    method UpdateStatus(now: uint64)
      modifies this`status
      ensures View() == G.Refresh(old(View()), now)
    {
      if status == G.StatusPending && !paid && !refunded && expiry > 0 && now > expiry {
        status := G.StatusExpired;
      }
    }

    /** The writes both payment routes share. */
    method SetPaid(payer: Address, paidAt: uint64)
      modifies this
      ensures View() == old(View()).(paid := true, status := G.StatusPaid, payer := payer, paidAt := paidAt)
    {
      this.paid, this.status, this.payer, this.paidAt := true, G.StatusPaid, payer, paidAt;
    }
  }

  /** What a caller sees of a reply: a clone or an error. */
  ghost function ReplyOf(clone: PaymentIntent?, err: Option<G.Error>): G.Reply
    reads clone
  {
    match err
    case Some(e) => G.Failed(e)
    case None => if clone == null then G.Done else G.Clone(clone.View())
  }

  class Gateway {
    var intents: map<uint64, PaymentIntent>
    var counter: uint64
    var expirySeconds: uint64

    /** No two ids share an intent object. */
    ghost predicate Valid()
      reads this
    {
      forall i, j :: i in intents && j in intents && i != j ==> intents[i] != intents[j]
    }

    ghost function Model(): G.Gateway
      reads this, intents.Values
    {
      G.Gateway(map id | id in intents :: intents[id].View(), counter, expirySeconds)
    }

    constructor ()
      ensures Valid() && Model() == G.NEW_GATEWAY && intents == map[]
    {
      intents, counter, expirySeconds := map[], 0, 900;
    }

    method SetExpirySeconds(seconds: uint64)
      modifies this`expirySeconds
      ensures Model() == old(Model()).(expirySeconds := seconds)
    {
      expirySeconds := seconds;
    }

    method CreateIntent(merchant: Address, amount: int, token: string, ts: uint64)
      returns (clone: PaymentIntent?, err: Option<G.Error>)
      requires Valid()
      modifies this
      ensures Valid() && fresh(intents.Values - old(intents.Values))
      ensures (clone == null <==> err.Some?) && (clone != null ==> fresh(clone) && clone !in intents.Values)
      ensures (Model(), ReplyOf(clone, err)) == G.Create(old(Model()), merchant, amount, token, ts)
    {
      if amount <= 0 {
        return null, Some(G.AmountNotPositive);
      }
      if token == "" {
        return null, Some(G.TokenRequired);
      }
      counter := WrapAdd(counter, 1);
      var intent := new PaymentIntent.New(counter, merchant, amount, token, ts, WrapAdd(ts, expirySeconds));
      intents := intents[counter := intent];
      clone := new PaymentIntent.CloneOf(intent);
      err := None;
      assert Model().intents == old(Model()).intents[counter := intent.View()];
    }

    /** One changed intent object is one changed entry of the model. */
    twostate lemma OneChanged(id: uint64)
      requires old(Valid()) && id in old(intents) && intents == old(intents)
      requires unchanged(this) && forall i :: i in intents && i != id ==> unchanged(intents[i])
      ensures Model() == old(Model()).(intents := old(Model()).intents[id := intents[id].View()])
    {
      forall i | i in intents && i != id ensures intents[i].View() == old(intents[i].View()) {
      }
    }

    method GetIntent(id: uint64, now: uint64) returns (clone: PaymentIntent?, err: Option<G.Error>)
      requires Valid()
      modifies intents.Values
      ensures Valid() && (clone == null <==> err.Some?) && (clone != null ==> fresh(clone))
      ensures (Model(), ReplyOf(clone, err)) == G.Apply(old(Model()), G.GetIntent(id), now)
    {
      if id !in intents {
        return null, Some(G.IntentNotFound);
      }
      var intent := intents[id];
      intent.UpdateStatus(now);
      clone := new PaymentIntent.CloneOf(intent);
      err := None;
      OneChanged(id);
      G.ActIsApply(old(Model()), G.GetIntent(id), now, intent.View(), ReplyOf(clone, err));
    }

    method PayIntent(id: uint64, payer: Address, now: uint64) returns (clone: PaymentIntent?, err: Option<G.Error>)
      requires Valid()
      modifies intents.Values
      ensures Valid() && (clone == null <==> err.Some?) && (clone != null ==> fresh(clone))
      ensures (Model(), ReplyOf(clone, err)) == G.Apply(old(Model()), G.PayIntent(id, payer), now)
    {
      if id !in intents {
        return null, Some(G.IntentNotFound);
      }
      var intent := intents[id];
      intent.UpdateStatus(now);
      ghost var seen := intent.View();
      if intent.status == G.StatusExpired {
        clone, err := null, Some(G.CannotPayExpired);
      } else {
        if !(intent.status == G.StatusPaid || intent.status == G.StatusRefunded || intent.status == G.StatusSettled) {
          intent.SetPaid(payer, now);
        }
        clone := new PaymentIntent.CloneOf(intent);
        err := None;
      }
      assert (intent.View(), ReplyOf(clone, err)) == G.Pay(seen, payer, now);
      OneChanged(id);
      G.ActIsApply(old(Model()), G.PayIntent(id, payer), now, intent.View(), ReplyOf(clone, err));
    }

    method RefundIntent(id: uint64, now: uint64) returns (clone: PaymentIntent?, err: Option<G.Error>)
      requires Valid()
      modifies intents.Values
      ensures Valid() && (clone == null <==> err.Some?) && (clone != null ==> fresh(clone))
      ensures (Model(), ReplyOf(clone, err)) == G.Apply(old(Model()), G.RefundIntent(id), now)
    {
      if id !in intents {
        return null, Some(G.IntentNotFound);
      }
      var intent := intents[id];
      intent.UpdateStatus(now);
      ghost var seen := intent.View();
      if intent.status != G.StatusPaid {
        clone, err := null, Some(G.OnlyPaidRefundable);
      } else {
        intent.refunded := true;
        intent.status := G.StatusRefunded;
        clone := new PaymentIntent.CloneOf(intent);
        err := None;
      }
      assert (intent.View(), ReplyOf(clone, err)) == G.Refund(seen);
      OneChanged(id);
      G.ActIsApply(old(Model()), G.RefundIntent(id), now, intent.View(), ReplyOf(clone, err));
    }

    /** Settling never refreshes, so it reads no clock: the contract holds for every reading. */
    method SettleIntent(id: uint64, ghost now: uint64) returns (clone: PaymentIntent?, err: Option<G.Error>)
      requires Valid()
      modifies intents.Values
      ensures Valid() && (clone == null <==> err.Some?) && (clone != null ==> fresh(clone))
      ensures (Model(), ReplyOf(clone, err)) == G.Apply(old(Model()), G.SettleIntent(id), now)
    {
      if id !in intents {
        return null, Some(G.IntentNotFound);
      }
      var intent := intents[id];
      if intent.status != G.StatusPaid && intent.status != G.StatusRefunded {
        clone, err := null, Some(G.OnlyPaidSettleable);
      } else {
        intent.status := G.StatusSettled;
        clone := new PaymentIntent.CloneOf(intent);
        err := None;
      }
      OneChanged(id);
      G.ActIsApply(old(Model()), G.SettleIntent(id), now, intent.View(), ReplyOf(clone, err));
    }

    method MarkPaidFromTx(id: uint64, payer: Address, merchant: Address, amount: int, txHash: Hash, blockNum: uint64,
                          blockTime: uint64)
      returns (err: Option<G.Error>)
      requires Valid()
      modifies intents.Values
      ensures Valid()
      ensures (Model(), ReplyOf(null, err))
           == G.Apply(old(Model()), G.MarkPaidFromTx(id, payer, merchant, amount, txHash, blockNum), blockTime)
    {
      if amount <= 0 {
        return Some(G.AmountNotPositive);
      }
      if id !in intents {
        return Some(G.IntentNotFound);
      }
      var intent := intents[id];
      intent.UpdateStatus(blockTime);
      ghost var seen := intent.View();
      if intent.status == G.StatusExpired {
        err := Some(G.IntentExpired);
      } else if intent.status == G.StatusPaid || intent.status == G.StatusRefunded || intent.status == G.StatusSettled {
        err := Some(G.AlreadyProcessed);
      } else if merchant != intent.merchant {
        err := Some(G.MerchantMismatch);
      } else if amount < intent.amount {
        err := Some(G.AmountTooSmall);
      } else {
        intent.SetPaid(payer, blockTime);
        intent.txHash, intent.blockNumber := Some(txHash), blockNum;
        err := None;
      }
      assert (intent.View(), ReplyOf(null, err))
             == G.MarkPaid(seen, payer, merchant, amount, txHash, blockNum, blockTime);
      OneChanged(id);
      G.ActIsApply(old(Model()), G.MarkPaidFromTx(id, payer, merchant, amount, txHash, blockNum), blockTime,
                   intent.View(), ReplyOf(null, err));
    }

    /** One round of the listing: a matching intent is refreshed and its clone appended. */
    method ListOne(id: uint64, merchant: Address, now: uint64, list: seq<PaymentIntent>)
      returns (list': seq<PaymentIntent>)
      requires Valid() && id in intents && intents[id] !in list
      modifies intents.Values
      ensures var it := old(Model()).intents[id];
              && Model() == old(Model()).(intents := old(Model()).intents[id := G.Listed(it, merchant, now)])
              && ViewsOf(list') == old(ViewsOf(list)) + G.ClonesOf(it, merchant, now)
      ensures forall i :: i in list' ==> i in list || fresh(i)
    {
      var intent := intents[id];
      list' := list;
      if intent.merchant == merchant {
        intent.UpdateStatus(now);
        var clone := new PaymentIntent.CloneOf(intent);
        list' := list + [clone];
        forall k | 0 <= k < |list| ensures list'[k].View() == old(list[k].View()) {
          assert list[k] in list;
        }
      }
      OneChanged(id);
    }

    /** Visits the whole map, in an order of Go's choosing. */
    method ListMerchantPayments(merchant: Address, now: uint64)
      returns (list: seq<PaymentIntent>, ghost order: seq<uint64>)
      requires Valid()
      modifies intents.Values
      ensures Valid() && forall i :: i in list ==> fresh(i)
      ensures G.Enumerates(order, intents.Keys)
      ensures Model() == G.List(old(Model()), merchant, now).0
      ensures ViewsOf(list) == G.ListedIn(old(Model()), order, merchant, now)
    {
      list, order := [], [];
      var todo := intents.Keys;
      ghost var before := Model();
      G.ListingStarts(before, merchant, now);
      while todo != {}
        invariant todo <= intents.Keys
        invariant forall i :: i in list ==> fresh(i)
        invariant G.ListingUnderWay(before, Model(), ViewsOf(list), order, intents.Keys - todo, merchant, now)
        decreases todo
      {
        var id :| id in todo;
        G.ListingAdvances(before, Model(), ViewsOf(list), order, intents.Keys - todo, id, merchant, now);
        list := ListOne(id, merchant, now, list);
        VisitOne(intents.Keys, todo, id);
        todo, order := todo - {id}, order + [id];
      }
      VisitedAll(intents.Keys);
    }
  }

  lemma VisitOne(ids: set<uint64>, todo: set<uint64>, id: uint64)
    requires id in todo && todo <= ids
    ensures ids - (todo - {id}) == ids - todo + {id}
  {
  }

  lemma VisitedAll(ids: set<uint64>)
    ensures ids - {} == ids
  {
  }

  ghost function ViewsOf(list: seq<PaymentIntent>): seq<G.Intent>
    reads list
  {
    seq(|list|, i requires 0 <= i < |list| reads list => list[i].View())
  }
}
