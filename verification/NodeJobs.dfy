/** The node's money operations as jobs, and when two of them running concurrently are serializable. */
module NodeJobs {
  import opened Types
  import opened Ledger
  import opened Interleaving
  import opened Serial
  import opened Anomalies
  import Fees
  import RpcSpec

  // ---------------------------------------------------------------------------------------------
  // Operations as jobs
  // ---------------------------------------------------------------------------------------------

  /** A transfer: USDCc and raw GORR sends are guarded, plain pool transactions are stale. */
  function TransferJob(kind: Kind, token: Token, from: Address, to: Address, amount: int): Job {
    Job(kind, token, from, amount, [Payout(to, amount)])
  }

  /** A native send: the net amount, unless negative, goes to the receiver, and a positive fee to the treasury. */
  function SendJob(cfg: Config, bps: uint64, from: Address, to: Address, n: int): Job {
    var amount := n * WEI;
    var fee := Fees.CalculateFee(amount, bps);
    var net := if amount - fee >= 0 then [Payout(to, amount - fee)] else [];
    Job(Guarded, GORR, from, amount, net + if fee > 0 then [Payout(cfg.treasury, fee)] else [])
  }

  function PaymentJob(cfg: Config, payer: Address, merchant: Address, value: int): Job {
    var fee := PaymentFee(value);
    Job(Stale, GORR, payer, value, [Payout(merchant, value - fee), Payout(cfg.treasury, fee)])
  }

  function OrUnchanged(l: Accounts, moved: Option<Accounts>): Accounts {
    if moved.Some? then moved.value else l
  }

  /** An accepted job is its slots, one after the other. */
  lemma AtomicIsUpTo(l: Accounts, job: Job)
    requires Accepts(l, job)
    ensures Atomic(l, job) == UpTo(l, job, job.Slots())
  {
    ReachesUpTo(l, job, job.Slots());
    var n: nat :| TakesTo(l, Start(job), n, UpTo(l, job, job.Slots()), Midway(l, job, job.Slots()));
    AloneIsAtomic(l, job, n);
  }

  lemma UpToNext(l: Accounts, job: Job, j: nat)
    requires j < job.Slots()
    ensures var m, x := UpTo(l, job, j), job.Party(j);
            UpTo(l, job, j + 1)
            == SetBalance(m, x, job.token, Balance(if job.kind == Guarded then m else l, x, job.token) + job.Change(j))
  {
  }

  lemma UpToTwo(l: Accounts, job: Job)
    requires job.Slots() >= 2
    ensures var m := SetBalance(l, job.from, job.token, Balance(l, job.from, job.token) - job.amount);
            var p := job.payouts[0];
            UpTo(l, job, 2)
            == SetBalance(m, p.to, job.token, Balance(if job.kind == Guarded then m else l, p.to, job.token) + p.amount)
  {
    assert UpTo(l, job, 0) == l;
    UpToNext(l, job, 0);
    UpToNext(l, job, 1);
  }

  lemma TransferIsJob(l: Accounts, kind: Kind, token: Token, from: Address, to: Address, amount: int)
    ensures Atomic(l, TransferJob(kind, token, from, to, amount))
         == OrUnchanged(l, match kind
                           case Guarded => GuardedTransfer(l, token, from, to, amount)
                           case Stale => StaleTransfer(l, token, from, to, amount))
  {
    var job := TransferJob(kind, token, from, to, amount);
    if Accepts(l, job) {
      AtomicIsUpTo(l, job);
      UpToTwo(l, job);
    }
  }

  lemma PaymentIsJob(cfg: Config, l: Accounts, payer: Address, merchant: Address, value: int)
    ensures Atomic(l, PaymentJob(cfg, payer, merchant, value))
         == OrUnchanged(l, StalePayment(l, payer, merchant, cfg.treasury, value))
  {
    var job := PaymentJob(cfg, payer, merchant, value);
    if Accepts(l, job) {
      AtomicIsUpTo(l, job);
      UpToTwo(l, job);
      UpToNext(l, job, 2);
    }
  }

  /** The ledger a native send leaves, paused or not, is that of its job. */
  lemma SendIsJob(cfg: Config, s: RpcSpec.LedgerState, from: Address, to: Address, n: int)
    ensures RpcSpec.HandleSendNative(cfg, s, from, to, RpcSpec.Units(n)).0.accounts
         == Atomic(s.accounts, SendJob(cfg, s.bps, from, to, n))
  {
    var l, job := s.accounts, SendJob(cfg, s.bps, from, to, n);
    if Accepts(l, job) {
      RpcSpec.SendNativeAccounts(cfg, s, from, to, n);
      AtomicIsUpTo(l, job);
      assert UpTo(l, job, 0) == l;
      UpToNext(l, job, 0);
      if job.Slots() >= 2 {
        UpToNext(l, job, 1);
      }
      if job.Slots() == 3 {
        UpToNext(l, job, 2);
      }
    }
  }

  // ---------------------------------------------------------------------------------------------
  // Parties
  // ---------------------------------------------------------------------------------------------

  /** Everyone a job names. */
  function Parties(job: Job): set<Address> {
    {job.from} + set p | p in job.payouts :: p.to
  }

  lemma TouchesParties(job: Job, x: Address)
    ensures Touches(job, x) <==> x in Parties(job)
  {
    if Touches(job, x) {
      var i :| 0 <= i < job.Slots() && job.Party(i) == x;
      assert i > 0 ==> job.payouts[i - 1] in job.payouts;
    } else {
      assert job.Party(0) == job.from;
      forall p | p in job.payouts ensures p.to != x {
        var i :| 0 <= i < |job.payouts| && job.payouts[i] == p;
        assert job.Party(i + 1) == p.to;
      }
    }
  }

  lemma PartiesOneByOne(job: Job)
    ensures |job.payouts| == 1 ==> Parties(job) == {job.from, job.payouts[0].to}
    ensures |job.payouts| == 2 ==> Parties(job) == {job.from, job.payouts[0].to, job.payouts[1].to}
  {
  }

  lemma AltersByPayout(job: Job, i: nat)
    requires i < |job.payouts| && job.payouts[i].amount != 0
    ensures Alters(job, job.payouts[i].to)
  {
    assert job.Party(i + 1) == job.payouts[i].to && job.Change(i + 1) != 0;
  }

  /** Two jobs that change what they share are serializable exactly when they share no party. */
  lemma SerializableIffNoSharedParty(l: Accounts, a: Job, b: Job)
    requires Covered(l, a) && Covered(l, b) && NonNegativePayouts(a) && NonNegativePayouts(b)
    requires Joint(l, a, b) || !OnePurse(a, b) || (Gives(a) && Gives(b))
    requires forall x :: x in Parties(a) && x in Parties(b) ==> Alters(a, x) || Alters(b, x)
    ensures !Anomalous(l, a, b) <==> Parties(a) !! Parties(b)
  {
    if !OnePurse(a, b) {
      OthersDoNotTake(l, a, b);
      OthersDoNotTake(l, b, a);
    }
    AnomalousIffConflict(l, a, b);
    forall x ensures Shared(a, b, x) <==> x in Parties(a) && x in Parties(b) {
      TouchesParties(a, x);
      TouchesParties(b, x);
    }
    if x :| x in Parties(a) && x in Parties(b) {
      assert Shared(a, b, x);
    }
  }

  lemma TwoSlots(job: Job, x: Address)
    requires job.Slots() == 2
    ensures var d := if job.Party(0) == x then job.Change(0) else 0;
            SumAt(job, x, 0) == d + if job.Party(1) == x then job.Change(1) else 0
    ensures LastAt(job, x, 0) == if job.Party(1) == x then Some(1) else if job.Party(0) == x then Some(0) else None
  {
    assert SumAt(job, x, 2) == 0;
    assert SumAt(job, x, 1) == if job.Party(1) == x then job.Change(1) else 0;
    assert LastAt(job, x, 2) == None;
    assert LastAt(job, x, 1) == if job.Party(1) == x then Some(1) else None;
  }

  lemma ThreeSlots(job: Job, x: Address)
    requires job.Slots() == 3
    ensures var d0 := if job.Party(0) == x then job.Change(0) else 0;
            var d1 := if job.Party(1) == x then job.Change(1) else 0;
            SumAt(job, x, 0) == d0 + d1 + if job.Party(2) == x then job.Change(2) else 0
    ensures LastAt(job, x, 0) == if job.Party(2) == x then Some(2) else if job.Party(1) == x then Some(1)
                                 else if job.Party(0) == x then Some(0) else None
  {
    assert SumAt(job, x, 3) == 0;
    assert SumAt(job, x, 2) == if job.Party(2) == x then job.Change(2) else 0;
    assert LastAt(job, x, 3) == None;
    assert LastAt(job, x, 2) == if job.Party(2) == x then Some(2) else None;
    assert LastAt(job, x, 1) == if job.Party(2) == x then Some(2) else if job.Party(1) == x then Some(1) else None;
  }

  // ---------------------------------------------------------------------------------------------
  // Transfers
  // ---------------------------------------------------------------------------------------------

  predicate IsTransfer(l: Accounts, job: Job) {
    |job.payouts| == 1 && job.payouts[0].amount == job.amount && Covered(l, job)
  }

  /** A transfer changes both its parties; and it gives, or takes nothing in the end. */
  lemma TransferFacts(l: Accounts, job: Job)
    requires IsTransfer(l, job)
    ensures NonNegativePayouts(job) && Gives(job) && Parties(job) == {job.from, job.payouts[0].to}
    ensures forall x :: x in Parties(job) ==> Alters(job, x)
  {
    var to := job.payouts[0].to;
    PursesAreTouched(job);
    PartiesOneByOne(job);
    AltersByPayout(job, 0);
    TwoSlots(job, job.from);
    TwoSlots(job, to);
    assert to != job.from ==> Effect(job, to) == job.amount;
  }

  /** The transfers share no account, in any token. */
  predicate Disjoint(a: Job, b: Job)
    requires |a.payouts| == |b.payouts| == 1
  {
    && a.from != b.from && a.from != b.payouts[0].to
    && a.payouts[0].to != b.from && a.payouts[0].to != b.payouts[0].to
  }

  /** Two covered transfers of either kind, in any tokens, are serializable exactly when they share no account. */
  lemma SerializableIffDisjoint(l: Accounts, a: Job, b: Job)
    requires IsTransfer(l, a) && IsTransfer(l, b)
    ensures !Anomalous(l, a, b) <==> Disjoint(a, b)
  {
    TransferFacts(l, a);
    TransferFacts(l, b);
    SerializableIffNoSharedParty(l, a, b);
  }

  /** Disjointness must be of whole accounts: one sender in two tokens already clashes. */
  lemma DifferentTokensAreNotEnough(l: Accounts, a: Job, b: Job)
    requires IsTransfer(l, a) && IsTransfer(l, b) && a.from == b.from && a.token != b.token
    ensures Anomalous(l, a, b)
  {
    SerializableIffDisjoint(l, a, b);
  }

  // ---------------------------------------------------------------------------------------------
  // Native sends
  // ---------------------------------------------------------------------------------------------

  /** A send of whole coins charges a fee exactly at a positive rate, and leaves a net amount up to 100%. */
  lemma SendFee(n: int, bps: uint64)
    requires n > 0
    ensures Fees.CalculateFee(n * WEI, bps) > 0 <==> Fees.AsInt64(bps) > 0
    ensures Fees.CalculateFee(n * WEI, bps) <= n * WEI <==> Fees.AsInt64(bps) <= 10000
    ensures Fees.CalculateFee(n * WEI, bps) == n * WEI <==> Fees.AsInt64(bps) == 10000
  {
    var b := Fees.AsInt64(bps);
    Fees.FeeOnCoinsIsExact(n, bps);
    ProductSign(n, b);
    ProductSign(n, b - 10000);
    assert n * (b - 10000) == n * b - n * 10000;
  }

  lemma ProductSign(n: int, b: int)
    requires n > 0
    ensures (n * b > 0 <==> b > 0) && (n * b == 0 <==> b == 0)
  {
    if b > 0 {
      Fees.MulMonotone(1, n, b);
    } else {
      Fees.MulMonotone(1, n, -b);
      assert n * (-b) == -(n * b);
    }
  }

  /** The receiver is credited up to a rate of 100%, the treasury at a positive rate. */
  function SendParties(cfg: Config, bps: uint64, from: Address, to: Address): set<Address> {
    {from} + (if Fees.AsInt64(bps) <= 10000 then {to} else {}) + if Fees.AsInt64(bps) > 0 then {cfg.treasury} else {}
  }

  /** The payouts of a send, one by one. */
  lemma SendPayouts(cfg: Config, bps: uint64, from: Address, to: Address, n: int)
    requires n > 0
    ensures var job := SendJob(cfg, bps, from, to, n);
            var fee := Fees.CalculateFee(n * WEI, bps);
            var net := Payout(to, n * WEI - fee);
            job.payouts == if Fees.AsInt64(bps) <= 0 then [net]
                           else if Fees.AsInt64(bps) <= 10000 then [net, Payout(cfg.treasury, fee)]
                           else [Payout(cfg.treasury, fee)]
  {
    SendFee(n, bps);
  }

  lemma SendAlters(cfg: Config, bps: uint64, from: Address, to: Address, n: int)
    requires n > 0
    ensures var job := SendJob(cfg, bps, from, to, n);
            && Alters(job, from) && (Fees.AsInt64(bps) > 0 ==> Alters(job, cfg.treasury))
            && (Fees.AsInt64(bps) < 10000 ==> Alters(job, to))
  {
    var job := SendJob(cfg, bps, from, to, n);
    SendFee(n, bps);
    SendPayouts(cfg, bps, from, to, n);
    PursesAreTouched(job);
    if Fees.AsInt64(bps) > 0 {
      AltersByPayout(job, |job.payouts| - 1);
    }
    if Fees.AsInt64(bps) < 10000 {
      AltersByPayout(job, 0);
    }
  }

  /** Who is paid what, without the amounts. */
  lemma SendNetAndFee(cfg: Config, bps: uint64, from: Address, to: Address, n: int)
    requires n > 0
    ensures var payouts := SendJob(cfg, bps, from, to, n).payouts;
            && (forall i :: 0 <= i < |payouts| ==> payouts[i].amount >= 0)
            && (Fees.AsInt64(bps) <= 0 ==> |payouts| == 1 && payouts[0].to == to)
            && (0 < Fees.AsInt64(bps) <= 10000 ==>
                  |payouts| == 2 && payouts[0].to == to && payouts[1].to == cfg.treasury)
            && (Fees.AsInt64(bps) > 10000 ==> |payouts| == 1 && payouts[0].to == cfg.treasury)
  {
    SendFee(n, bps);
    SendPayouts(cfg, bps, from, to, n);
  }

  lemma SendPartiesAre(cfg: Config, bps: uint64, from: Address, to: Address, n: int)
    requires n > 0
    ensures Parties(SendJob(cfg, bps, from, to, n)) == SendParties(cfg, bps, from, to)
    ensures NonNegativePayouts(SendJob(cfg, bps, from, to, n))
  {
    SendNetAndFee(cfg, bps, from, to, n);
    PartiesOneByOne(SendJob(cfg, bps, from, to, n));
  }

  /** A send changes its parties, but at exactly 100% a receiver who is neither sender nor treasury. */
  lemma SendFacts(cfg: Config, bps: uint64, from: Address, to: Address, n: int)
    requires n > 0
    ensures var job := SendJob(cfg, bps, from, to, n);
            && NonNegativePayouts(job) && Parties(job) == SendParties(cfg, bps, from, to)
            && (forall x :: x in Parties(job) && (Fees.AsInt64(bps) != 10000 || x != to) ==> Alters(job, x))
            && Alters(job, from) && (Fees.AsInt64(bps) > 0 ==> Alters(job, cfg.treasury))
  {
    SendPartiesAre(cfg, bps, from, to, n);
    SendAlters(cfg, bps, from, to, n);
  }

  /** Two payouts that together give out at least what was debited give to somebody else, or take nothing. */
  lemma GuardedGives(job: Job)
    requires job.kind == Guarded && NonNegativePayouts(job) && job.amount > 0
    requires job.Slots() == 2 ==> job.payouts[0].amount >= job.amount
    requires job.Slots() == 3 ==> job.payouts[0].amount + job.payouts[1].amount >= job.amount
    requires 2 <= job.Slots() <= 3
    ensures Gives(job)
  {
    var p := job.payouts[0].to;
    if job.Slots() == 2 {
      TwoSlots(job, job.from);
      TwoSlots(job, p);
      assert p != job.from ==> Effect(job, p) > 0;
    } else {
      var q := job.payouts[1].to;
      ThreeSlots(job, job.from);
      ThreeSlots(job, p);
      ThreeSlots(job, q);
      assert p != job.from && job.payouts[0].amount > 0 ==> Effect(job, p) > 0;
      assert q != job.from && job.payouts[1].amount > 0 ==> Effect(job, q) > 0;
    }
  }

  lemma SendGives(cfg: Config, bps: uint64, from: Address, to: Address, n: int)
    requires n > 0
    ensures Gives(SendJob(cfg, bps, from, to, n))
  {
    SendFee(n, bps);
    SendPayouts(cfg, bps, from, to, n);
    GuardedGives(SendJob(cfg, bps, from, to, n));
  }

  /** The debit of the send is covered. */
  predicate SendCovered(l: Accounts, from: Address, n: int) {
    0 < n * WEI <= Balance(l, from, GORR)
  }

  /** At a positive rate, a job that changes the treasury's account clashes with every send. */
  lemma SendClashesOverTreasury(cfg: Config, bps: uint64, l: Accounts, a: Job, from: Address, to: Address, n: int)
    requires Covered(l, a) && NonNegativePayouts(a) && SendCovered(l, from, n) && Fees.AsInt64(bps) > 0
    requires var b := SendJob(cfg, bps, from, to, n); Joint(l, a, b) || !OnePurse(a, b) || Gives(a)
    requires cfg.treasury in Parties(a)
    ensures Anomalous(l, a, SendJob(cfg, bps, from, to, n))
  {
    var b := SendJob(cfg, bps, from, to, n);
    SendFacts(cfg, bps, from, to, n);
    SendGives(cfg, bps, from, to, n);
    TouchesParties(a, cfg.treasury);
    TouchesParties(b, cfg.treasury);
    if !OnePurse(a, b) {
      OthersDoNotTake(l, a, b);
      OthersDoNotTake(l, b, a);
    }
    assert Shared(a, b, cfg.treasury);
    AnomalousIffConflict(l, a, b);
  }

  /**
   * Two covered native sends are serializable exactly when the rate is not positive and they share neither
   * sender nor receiver: at a positive rate they always share the treasury's record.
   */
  lemma SendsSerializableIff(cfg: Config, bps: uint64, l: Accounts, from: Address, to: Address, n: int,
                             from': Address, to': Address, n': int)
    requires SendCovered(l, from, n) && SendCovered(l, from', n')
    ensures !Anomalous(l, SendJob(cfg, bps, from, to, n), SendJob(cfg, bps, from', to', n'))
       <==> Fees.AsInt64(bps) <= 0 && from != from' && from != to' && to != from' && to != to'
  {
    var a, b := SendJob(cfg, bps, from, to, n), SendJob(cfg, bps, from', to', n');
    SendFacts(cfg, bps, from, to, n);
    SendFacts(cfg, bps, from', to', n');
    SendGives(cfg, bps, from, to, n);
    SendGives(cfg, bps, from', to', n');
    if Fees.AsInt64(bps) > 0 {
      SendClashesOverTreasury(cfg, bps, l, a, from', to', n');
    } else {
      SerializableIffNoSharedParty(l, a, b);
    }
  }

  /** A covered send and a covered transfer are serializable exactly when the transfer names no party of the send. */
  lemma SendAndTransferIff(cfg: Config, bps: uint64, l: Accounts, from: Address, to: Address, n: int, b: Job)
    requires SendCovered(l, from, n) && IsTransfer(l, b)
    ensures !Anomalous(l, SendJob(cfg, bps, from, to, n), b)
       <==> SendParties(cfg, bps, from, to) !! {b.from, b.payouts[0].to}
  {
    SendFacts(cfg, bps, from, to, n);
    SendGives(cfg, bps, from, to, n);
    TransferFacts(l, b);
    SerializableIffNoSharedParty(l, SendJob(cfg, bps, from, to, n), b);
  }

  // ---------------------------------------------------------------------------------------------
  // Payments
  // ---------------------------------------------------------------------------------------------

  /** A payment changes payer and merchant, and from 40 wei on the treasury. */
  lemma PaymentFacts(cfg: Config, payer: Address, merchant: Address, value: int)
    requires value > 0
    ensures var job := PaymentJob(cfg, payer, merchant, value);
            && NonNegativePayouts(job) && Parties(job) == {payer, merchant, cfg.treasury}
            && Alters(job, payer) && Alters(job, merchant) && (value >= 40 ==> Alters(job, cfg.treasury))
  {
    var job := PaymentJob(cfg, payer, merchant, value);
    assert job.payouts[0] == Payout(merchant, value - PaymentFee(value));
    assert job.payouts[1] == Payout(cfg.treasury, PaymentFee(value));
    PursesAreTouched(job);
    PartiesOneByOne(job);
    AltersByPayout(job, 0);
    if value >= 40 {
      AltersByPayout(job, 1);
    }
  }

  /** A payment in the end gives to somebody: not one too small for a fee, made to the treasury by somebody else. */
  predicate PaysSomebody(cfg: Config, payer: Address, merchant: Address, value: int) {
    value >= 40 || merchant != cfg.treasury || payer == cfg.treasury
  }

  lemma PaymentGives(cfg: Config, payer: Address, merchant: Address, value: int)
    requires value > 0 && PaysSomebody(cfg, payer, merchant, value)
    ensures Gives(PaymentJob(cfg, payer, merchant, value))
  {
    var job := PaymentJob(cfg, payer, merchant, value);
    ThreeSlots(job, payer);
    ThreeSlots(job, merchant);
    ThreeSlots(job, cfg.treasury);
    if value >= 40 && cfg.treasury != payer {
      assert Effect(job, cfg.treasury) > 0;
    } else if merchant != payer && merchant != cfg.treasury {
      assert Effect(job, merchant) > 0;
    } else {
      assert Effect(job, payer) >= 0;
    }
  }

  /** The payment pays somebody, or its purse, if it is the other's too, pays for both. */
  ghost predicate PaymentFits(cfg: Config, l: Accounts, payer: Address, merchant: Address, value: int, b: Job) {
    var a := PaymentJob(cfg, payer, merchant, value);
    && 0 < value <= Balance(l, payer, GORR)
    && (PaysSomebody(cfg, payer, merchant, value) || !OnePurse(a, b) || Joint(l, a, b))
  }

  /** A payment and a transfer are serializable exactly when the transfer names none of the payment's three accounts. */
  lemma PaymentAndTransferIff(cfg: Config, l: Accounts, payer: Address, merchant: Address, value: int, b: Job)
    requires IsTransfer(l, b) && PaymentFits(cfg, l, payer, merchant, value, b)
    ensures !Anomalous(l, PaymentJob(cfg, payer, merchant, value), b)
       <==> {payer, merchant, cfg.treasury} !! {b.from, b.payouts[0].to}
  {
    PaymentFacts(cfg, payer, merchant, value);
    TransferFacts(l, b);
    if PaysSomebody(cfg, payer, merchant, value) {
      PaymentGives(cfg, payer, merchant, value);
    }
    SerializableIffNoSharedParty(l, PaymentJob(cfg, payer, merchant, value), b);
  }

  /**
   * A payment and a native send are serializable exactly when the rate is not positive and the send names none
   * of the payment's three accounts: at a positive rate they always share the treasury's record.
   */
  lemma PaymentAndSendIff(cfg: Config, bps: uint64, l: Accounts, payer: Address, merchant: Address, value: int,
                          from: Address, to: Address, n: int)
    requires SendCovered(l, from, n)
    requires PaymentFits(cfg, l, payer, merchant, value, SendJob(cfg, bps, from, to, n))
    ensures !Anomalous(l, PaymentJob(cfg, payer, merchant, value), SendJob(cfg, bps, from, to, n))
       <==> Fees.AsInt64(bps) <= 0 && {payer, merchant, cfg.treasury} !! {from, to}
  {
    var a, b := PaymentJob(cfg, payer, merchant, value), SendJob(cfg, bps, from, to, n);
    PaymentFacts(cfg, payer, merchant, value);
    SendFacts(cfg, bps, from, to, n);
    SendGives(cfg, bps, from, to, n);
    if PaysSomebody(cfg, payer, merchant, value) {
      PaymentGives(cfg, payer, merchant, value);
    }
    if Fees.AsInt64(bps) > 0 {
      SendClashesOverTreasury(cfg, bps, l, a, from, to, n);
    } else {
      SerializableIffNoSharedParty(l, a, b);
    }
  }
}
