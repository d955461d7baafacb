/**
 * The node under a wall clock that does not go back. Its history of gateway calls still does: a payment's invoice
 * is fetched at the reading of that moment and then marked at the earlier block time. Lazy expiry answers as
 * eager expiry all the same.
 */
module NodeClock {
  import opened Types
  import opened Ledger
  import opened GatewaySpec
  import opened EagerGateway
  import opened PaymentTag
  import opened Producer
  import opened ChainSpec
  import opened Runs

  /** The reading of the last clock visit of a pass over n transactions that began at the block time. */
  function PassReading(time: uint64, clock: Clock, n: nat): uint64 {
    if n == 0 then time else clock(n - 1)
  }

  /** The block time is read first, then one reading per visited transaction, none earlier than the one before. */
  ghost predicate PassForward(time: uint64, clock: Clock, n: nat) {
    (n > 0 ==> time <= clock(0)) && forall i, j :: 0 <= i < j < n ==> clock(i) <= clock(j)
  }

  /** The last wall clock reading of a run. */
  ghost function LastReading(cfg: Config, time: uint64, ops: seq<Op>): uint64 {
    if |ops| == 0 then time
    else
      var init := ops[..|ops| - 1];
      match ops[|ops| - 1]
      case ProduceBlock(t, clock) => PassReading(t, clock, |After(cfg, time, init).pool|)
      case GatewayOp(_, now) => now
      case _ => LastReading(cfg, time, init)
  }

  /** No reading of a run is earlier than the one before. */
  ghost predicate ClockForward(cfg: Config, time: uint64, ops: seq<Op>) {
    |ops| == 0
    || var init := ops[..|ops| - 1];
       && ClockForward(cfg, time, init)
       && match ops[|ops| - 1]
          case ProduceBlock(t, clock) =>
            LastReading(cfg, time, init) <= t && PassForward(t, clock, |After(cfg, time, init).pool|)
          case GatewayOp(_, now) => LastReading(cfg, time, init) <= now
          case _ => true
  }

  /** So far no call revived a missed intent, and every missed intent is overdue at the last reading. */
  ghost predicate Unrevived(g: Gateway, cs: seq<Timed>, now: uint64) {
    && NeverRevives(g, cs)
    && forall id :: id in Missed(g, cs) ==> id in Run(g, cs).intents && Overdue(Run(g, cs).intents[id], now)
  }

  lemma UnrevivedLater(g: Gateway, cs: seq<Timed>, now: uint64, later: uint64)
    requires Unrevived(g, cs, now) && now <= later
    ensures Unrevived(g, cs, later)
  {
  }

  lemma NextCall(g: Gateway, cs: seq<Timed>, c: Timed)
    ensures Run(g, cs + [c]) == Apply(Run(g, cs), c.call, c.now).0
    ensures Missed(g, cs + [c]) == MissedAfter(Run(g, cs), Missed(g, cs), c.call, c.now)
    ensures NeverRevives(g, cs + [c]) <==> NeverRevives(g, cs) && !Revives(Run(g, cs), Missed(g, cs), c.call, c.now)
  {
    assert (cs + [c])[..|cs|] == cs;
  }

  /** A call at the current reading. */
  lemma CallOnTime(g: Gateway, cs: seq<Timed>, call: Call, now: uint64)
    requires Unrevived(g, cs, now)
    ensures Unrevived(g, cs + [Timed(call, now)], now)
  {
    NextCall(g, cs, Timed(call, now));
    OverdueIsNotRevived(Run(g, cs), Missed(g, cs), call, now);
  }

  /** A mark stamped earlier: the intent it looks at was fetched just now, so it is not a missed one. */
  lemma MarkInThePast(g: Gateway, cs: seq<Timed>, mark: Call, blockTime: uint64, now: uint64)
    requires mark.MarkPaidFromTx? && blockTime <= now && Unrevived(g, cs, now)
    ensures Unrevived(g, cs + [Timed(GetIntent(mark.id), now)] + [Timed(mark, blockTime)], now)
  {
    var fetch := Timed(GetIntent(mark.id), now);
    CallOnTime(g, cs, fetch.call, now);
    NextCall(g, cs, fetch);
    NextCall(g, cs + [fetch], Timed(mark, blockTime));
    MarkAfterFetch(Run(g, cs), Missed(g, cs + [fetch]), mark, blockTime, now);
  }

  lemma MarkAfterFetch(g: Gateway, missed: set<uint64>, mark: Call, blockTime: uint64, now: uint64)
    requires mark.MarkPaidFromTx? && blockTime <= now
    requires var g1 := Apply(g, GetIntent(mark.id), now).0;
             forall id :: id in missed ==> id in g1.intents && Overdue(g1.intents[id], now)
    ensures var g1 := Apply(g, GetIntent(mark.id), now).0;
            && !Revives(g1, missed, mark, blockTime)
            && forall id :: id in MissedAfter(g1, missed, mark, blockTime) ==>
                 id in Apply(g1, mark, blockTime).0.intents && Overdue(Apply(g1, mark, blockTime).0.intents[id], now)
  {
  }

  lemma VisitUnrevived(cfg: Config, header: Header, p: Progress, tx: Tx, now: uint64, g: Gateway, cs: seq<Timed>)
    requires Unrevived(g, cs, now) && header.time <= now
    ensures Unrevived(g, cs + VisitCalls(cfg, header, p, tx, now), now)
  {
    var calls := VisitCalls(cfg, header, p, tx, now);
    if |calls| == 0 {
      assert cs + calls == cs;
    } else if |calls| == 1 {
      CallOnTime(g, cs, calls[0].call, now);
      assert cs + calls == cs + [calls[0]];
    } else {
      MarkInThePast(g, cs, calls[1].call, header.time, now);
      assert cs + calls == cs + [calls[0]] + [calls[1]];
    }
  }

  /** The visit of one more transaction. */
  lemma PassUnrevivedNext(cfg: Config, header: Header, p: Progress, txs: seq<Tx>, clock: Clock, g: Gateway,
                          cs: seq<Timed>)
    requires |txs| > 0 && header.time <= clock(|txs| - 1)
    requires Unrevived(g, cs + PassCalls(cfg, header, p, txs[..|txs| - 1], clock), clock(|txs| - 1))
    ensures Unrevived(g, cs + PassCalls(cfg, header, p, txs, clock), clock(|txs| - 1))
  {
    var n := |txs| - 1;
    var soFar, before := PassCalls(cfg, header, p, txs[..n], clock), Pass(cfg, header, p, txs[..n], clock);
    VisitUnrevived(cfg, header, before, txs[n], clock(n), g, cs + soFar);
    Regroup(cs, soFar, VisitCalls(cfg, header, before, txs[n], clock(n)));
  }

  lemma Regroup(a: seq<Timed>, b: seq<Timed>, c: seq<Timed>)
    ensures a + b + c == a + (b + c)
  {
  }

  lemma {:induction false} PassUnrevived(cfg: Config, header: Header, p: Progress, txs: seq<Tx>, clock: Clock,
                                         g: Gateway, cs: seq<Timed>)
    requires Unrevived(g, cs, header.time) && PassForward(header.time, clock, |txs|)
    ensures Unrevived(g, cs + PassCalls(cfg, header, p, txs, clock), PassReading(header.time, clock, |txs|))
  {
    if |txs| == 0 {
      assert cs + PassCalls(cfg, header, p, txs, clock) == cs;
    } else {
      var n := |txs| - 1;
      PassUnrevived(cfg, header, p, txs[..n], clock, g, cs);
      UnrevivedLater(g, cs + PassCalls(cfg, header, p, txs[..n], clock), PassReading(header.time, clock, n), clock(n));
      PassUnrevivedNext(cfg, header, p, txs, clock, g, cs);
    }
  }

  lemma OpUnrevived(cfg: Config, w: World, op: Op, g: Gateway, cs: seq<Timed>, before: uint64, after: uint64)
    requires Unrevived(g, cs, before)
    requires match op
             case ProduceBlock(t, clock) =>
               before <= t && PassForward(t, clock, |w.pool|) && after == PassReading(t, clock, |w.pool|)
             case GatewayOp(_, now) => before <= now == after
             case _ => after == before
    ensures Unrevived(g, cs + OpCalls(cfg, w, op), after)
  {
    match op
    case ProduceBlock(t, clock) =>
      UnrevivedLater(g, cs, before, t);
      PassUnrevived(cfg, NextHeader(cfg, w.chain.head, t), Begin(w.state.accounts, w.gateway, w.pool, w.chain.index),
                    w.pool, clock, g, cs);
    case GatewayOp(call, now) =>
      UnrevivedLater(g, cs, before, now);
      CallOnTime(g, cs, call, now);
    case _ =>
      assert cs + OpCalls(cfg, w, op) == cs;
  }

  lemma {:induction false} RunUnrevived(cfg: Config, time: uint64, ops: seq<Op>)
    requires ClockForward(cfg, time, ops)
    ensures Unrevived(NEW_GATEWAY, History(cfg, time, ops), LastReading(cfg, time, ops))
  {
    if |ops| > 0 {
      var init, op := ops[..|ops| - 1], ops[|ops| - 1];
      RunUnrevived(cfg, time, init);
      OpUnrevived(cfg, After(cfg, time, init), op, NEW_GATEWAY, History(cfg, time, init), LastReading(cfg, time, init),
                  LastReading(cfg, time, ops));
    }
  }

  /** On every run under a forward wall clock, each reply of the node's gateway is that of eager expiry. */
  lemma NodeAnswersEagerly(cfg: Config, time: uint64, ops: seq<Op>)
    requires ClockForward(cfg, time, ops)
    ensures NeverRevives(NEW_GATEWAY, History(cfg, time, ops))
    ensures Replies(NEW_GATEWAY, History(cfg, time, ops)) == EagerReplies(NEW_GATEWAY, History(cfg, time, ops))
  {
    RunUnrevived(cfg, time, ops);
    LazyIsEagerIff(NEW_GATEWAY, History(cfg, time, ops));
  }
}
