/** Every run of the node: blocks, pool additions, ledger requests, gateway calls and raw sends in any order. */
module Runs {
  import opened Types
  import opened Ledger
  import opened GatewaySpec
  import opened PaymentTag
  import opened Producer
  import opened ChainSpec
  import Fees
  import RpcSpec
  import EthSpec

  /** Only the producer marks invoices from transactions. */
  type ClientCall = c: Call | !c.MarkPaidFromTx? witness GetIntent(0)

  datatype Op =
    | AddTx(tx: Tx)
    | ProduceBlock(time: uint64, clock: Clock)
    | GatewayOp(call: ClientCall, now: uint64)
    | Rpc(req: RpcSpec.Request)
    | EthSendRaw(ethTx: EthTx, now: uint64)

  function Step(cfg: Config, w: World, op: Op): World {
    match op
    case AddTx(tx) => w.(pool := w.pool + [tx])
    case ProduceBlock(time, clock) => Produce(cfg, w, time, clock)
    case GatewayOp(call, now) => w.(gateway := Apply(w.gateway, call, now).0)
    case Rpc(req) => w.(state := RpcSpec.Handle(cfg, w.state, req).0)
    case EthSendRaw(tx, now) =>
      var (l, eth, _) := EthSpec.EthSend(cfg.crypto, w.state.accounts, w.eth, w.chain.head.header.number, tx, now);
      w.(state := w.state.(accounts := l), eth := eth)
  }

  /** The node after a run from genesis. */
  ghost function After(cfg: Config, time: uint64, ops: seq<Op>): World {
    if |ops| == 0 then Genesis(cfg, time) else Step(cfg, After(cfg, time, ops[..|ops| - 1]), ops[|ops| - 1])
  }

  lemma AfterNext(cfg: Config, time: uint64, ops: seq<Op>, i: nat)
    requires i < |ops|
    ensures After(cfg, time, ops[..i + 1]) == Step(cfg, After(cfg, time, ops[..i]), ops[i])
  {
    assert ops[..i + 1][..i] == ops[..i];
  }

  // ---------------------------------------------------------------------------------------------
  // The node's gateway has a history of gateway calls
  // ---------------------------------------------------------------------------------------------

  ghost function VisitCalls(cfg: Config, header: Header, p: Progress, tx: Tx, now: uint64): seq<Timed> {
    match SenderOf(cfg, tx)
    case None => []
    case Some(from) =>
      match ParseTag(tx.data)
      case None => []
      case Some(id) =>
        if tx.nonce != GetAccount(p.accounts, from).nonce || tx.to.None? || cfg.treasury == ZERO_ADDRESS then []
        else if Process(cfg, p.accounts, p.gateway, tx, from, header, now).0.None? then [Timed(GetIntent(id), now)]
        else
          [Timed(GetIntent(id), now),
           Timed(MarkPaidFromTx(id, from, tx.to.value, tx.value, cfg.crypto.txHash(tx), header.number), header.time)]
  }

  ghost function PassCalls(cfg: Config, header: Header, p: Progress, txs: seq<Tx>, clock: Clock): seq<Timed> {
    if |txs| == 0 then []
    else
      var n := |txs| - 1;
      PassCalls(cfg, header, p, txs[..n], clock)
      + VisitCalls(cfg, header, Pass(cfg, header, p, txs[..n], clock), txs[n], clock(n))
  }

  ghost function OpCalls(cfg: Config, w: World, op: Op): seq<Timed> {
    match op
    case GatewayOp(call, now) => [Timed(call, now)]
    case ProduceBlock(time, clock) =>
      PassCalls(cfg, NextHeader(cfg, w.chain.head, time), Begin(w.state.accounts, w.gateway, w.pool, w.chain.index),
                w.pool, clock)
    case _ => []
  }

  /** Every gateway call made during a run, by clients and by the producer. */
  ghost function History(cfg: Config, time: uint64, ops: seq<Op>): seq<Timed> {
    if |ops| == 0 then []
    else
      var init := ops[..|ops| - 1];
      History(cfg, time, init) + OpCalls(cfg, After(cfg, time, init), ops[|ops| - 1])
  }

  lemma RunOne(g: Gateway, c: Timed)
    ensures GatewaySpec.Run(g, [c]) == Apply(g, c.call, c.now).0
    ensures Creations([c]) == if Creates(c.call) then 1 else 0
  {
  }

  lemma VisitHistory(cfg: Config, header: Header, p: Progress, tx: Tx, now: uint64)
    ensures Visit(cfg, header, p, tx, now).gateway == GatewaySpec.Run(p.gateway, VisitCalls(cfg, header, p, tx, now))
    ensures Creations(VisitCalls(cfg, header, p, tx, now)) == 0
  {
    var calls := VisitCalls(cfg, header, p, tx, now);
    if |calls| > 0 {
      var from, id := SenderOf(cfg, tx).value, ParseTag(tx.data).value;
      RunOne(p.gateway, calls[0]);
      if |calls| == 2 {
        RunConcat(p.gateway, [calls[0]], [calls[1]]);
        RunOne(GatewaySpec.Run(p.gateway, [calls[0]]), calls[1]);
        assert calls == [calls[0]] + [calls[1]];
      }
    }
  }

  lemma {:induction false} PassHistory(cfg: Config, header: Header, p: Progress, txs: seq<Tx>, clock: Clock)
    ensures Pass(cfg, header, p, txs, clock).gateway
            == GatewaySpec.Run(p.gateway, PassCalls(cfg, header, p, txs, clock))
    ensures Creations(PassCalls(cfg, header, p, txs, clock)) == 0
  {
    if |txs| > 0 {
      var n := |txs| - 1;
      var before := Pass(cfg, header, p, txs[..n], clock);
      PassHistory(cfg, header, p, txs[..n], clock);
      VisitHistory(cfg, header, before, txs[n], clock(n));
      RunConcat(p.gateway, PassCalls(cfg, header, p, txs[..n], clock),
                VisitCalls(cfg, header, before, txs[n], clock(n)));
    }
  }

  /** The blocks a run produces. */
  function Blocks(ops: seq<Op>): nat {
    if |ops| == 0 then 0 else Blocks(ops[..|ops| - 1]) + if ops[|ops| - 1].ProduceBlock? then 1 else 0
  }

  /** The invoices a run creates. */
  function Created(ops: seq<Op>): nat {
    if |ops| == 0 then 0
    else
      var op := ops[|ops| - 1];
      Created(ops[..|ops| - 1]) + if op.GatewayOp? && Creates(op.call) then 1 else 0
  }

  /** Neither the block number nor the id counter has wrapped. */
  predicate InRange(ops: seq<Op>) {
    Blocks(ops) < U64 && Created(ops) < U64
  }

  lemma OpHistory(cfg: Config, w: World, op: Op)
    ensures Step(cfg, w, op).gateway == GatewaySpec.Run(w.gateway, OpCalls(cfg, w, op))
    ensures Creations(OpCalls(cfg, w, op)) == if op.GatewayOp? && Creates(op.call) then 1 else 0
  {
    if op.ProduceBlock? {
      PassHistory(cfg, NextHeader(cfg, w.chain.head, op.time),
                  Begin(w.state.accounts, w.gateway, w.pool, w.chain.index), w.pool, op.clock);
    } else if op.GatewayOp? {
      RunOne(w.gateway, Timed(op.call, op.now));
    }
  }

  /** The node's gateway is the gateway of its history, so all that holds of gateway histories holds of the node. */
  lemma {:induction false} GatewayHasHistory(cfg: Config, time: uint64, ops: seq<Op>)
    ensures After(cfg, time, ops).gateway == GatewaySpec.Run(NEW_GATEWAY, History(cfg, time, ops))
    ensures Creations(History(cfg, time, ops)) == Created(ops)
  {
    if |ops| > 0 {
      var init, op := ops[..|ops| - 1], ops[|ops| - 1];
      var w := After(cfg, time, init);
      GatewayHasHistory(cfg, time, init);
      RunConcat(NEW_GATEWAY, History(cfg, time, init), OpCalls(cfg, w, op));
      OpHistory(cfg, w, op);
    }
  }

  // ---------------------------------------------------------------------------------------------
  // Chain, index and settlement over every run
  // ---------------------------------------------------------------------------------------------

  /** Chain in order, gateway in order, every on-chain payment witnessed. */
  ghost predicate NodeOk(cfg: Config, w: World) {
    && ChainOk(cfg, w.chain)
    && GatewayOk(w.gateway)
    && Settlement(cfg, w.gateway, w.chain.blocks)
  }

  lemma BlockKeepsNode(cfg: Config, w: World, time: uint64, clock: Clock)
    requires NodeOk(cfg, w) && w.chain.head.header.number + 1 < U64
    ensures NodeOk(cfg, Produce(cfg, w, time, clock))
    ensures Produce(cfg, w, time, clock).chain.head.header.number == w.chain.head.header.number + 1
  {
    ProduceKeepsChain(cfg, w, time, clock);
    ProduceKeepsSettlement(cfg, w, time, clock);
  }

  lemma ClientKeepsNode(cfg: Config, w: World, call: ClientCall, now: uint64)
    requires NodeOk(cfg, w) && (Creates(call) ==> w.gateway.counter + 1 < U64)
    ensures NodeOk(cfg, w.(gateway := Apply(w.gateway, call, now).0))
  {
    ApplyKeepsOk(w.gateway, call, now);
    CallKeepsSettlement(cfg, w.gateway, call, now, w.chain.blocks);
  }

  lemma StepKeepsNode(cfg: Config, w: World, op: Op)
    requires NodeOk(cfg, w)
    requires op.ProduceBlock? ==> w.chain.head.header.number + 1 < U64
    requires op.GatewayOp? && Creates(op.call) ==> w.gateway.counter + 1 < U64
    ensures NodeOk(cfg, Step(cfg, w, op))
    ensures Step(cfg, w, op).chain.head.header.number == w.chain.head.header.number + if op.ProduceBlock? then 1 else 0
  {
    if op.ProduceBlock? {
      BlockKeepsNode(cfg, w, op.time, op.clock);
    } else if op.GatewayOp? {
      ClientKeepsNode(cfg, w, op.call, op.now);
    }
  }

  /** The node is in order after every run of fewer than 2^64 blocks and fewer than 2^64 invoices. */
  lemma {:induction false} NodeInvariant(cfg: Config, time: uint64, ops: seq<Op>)
    requires InRange(ops)
    ensures var w := After(cfg, time, ops);
            NodeOk(cfg, w) && w.chain.head.header.number == Blocks(ops) && w.gateway.counter == Created(ops)
  {
    GatewayHasHistory(cfg, time, ops);
    GatewayInvariant(History(cfg, time, ops));
    if |ops| == 0 {
      GenesisChainOk(cfg, time);
    } else {
      NodeInvariant(cfg, time, ops[..|ops| - 1]);
      StepKeepsNode(cfg, After(cfg, time, ops[..|ops| - 1]), ops[|ops| - 1]);
    }
  }

  /** FindTxBlock gives the greatest stored block number that includes the hash, and fails iff there is none. */
  lemma IndexIsScan(cfg: Config, time: uint64, ops: seq<Op>, h: Hash, n: uint64)
    requires InRange(ops)
    ensures var c := After(cfg, time, ops).chain;
            && (FindTxBlock(c, h) == Some(n) <==> LastContaining(cfg.crypto, c, h, n))
            && (FindTxBlock(c, h) == None <==> forall m :: m in c.blocks ==> !Contains(cfg.crypto, c.blocks[m], h))
  {
    NodeInvariant(cfg, time, ops);
    var c := After(cfg, time, ops).chain;
    if h in c.index {
      assert LastContaining(cfg.crypto, c, h, c.index[h]);
    }
  }

  /** Transactions of stored blocks that share a hash share their data. */
  ghost predicate StoredHashesIdentify(crypto: Crypto, c: Chain) {
    forall n, m, tx, ty ::
      && n in c.blocks && m in c.blocks && tx in c.blocks[n].transactions && ty in c.blocks[m].transactions
      && crypto.txHash(tx) == crypto.txHash(ty)
      ==> tx.data == ty.data
  }

  /** Without collisions in the stored blocks, one transaction settles at most one invoice. */
  lemma OneInvoicePerTransaction(cfg: Config, time: uint64, ops: seq<Op>, i: uint64, j: uint64)
    requires InRange(ops) && StoredHashesIdentify(cfg.crypto, After(cfg, time, ops).chain)
    requires var g := After(cfg, time, ops).gateway;
             && i in g.intents && j in g.intents
             && g.intents[i].txHash.Some? && g.intents[i].txHash == g.intents[j].txHash
    ensures i == j
  {
    NodeInvariant(cfg, time, ops);
    var w := After(cfg, time, ops);
    var a, b := w.gateway.intents[i], w.gateway.intents[j];
    var tx :| tx in w.chain.blocks[a.blockNumber].transactions
      && Witnesses(cfg, w.chain.blocks[a.blockNumber].header, a, tx);
    var ty :| ty in w.chain.blocks[b.blockNumber].transactions
      && Witnesses(cfg, w.chain.blocks[b.blockNumber].header, b, ty);
    assert cfg.crypto.txHash(tx) == cfg.crypto.txHash(ty);
  }

  lemma StepKeepsTerms(cfg: Config, w: World, op: Op)
    requires GatewayOk(w.gateway)
    requires op.GatewayOp? && Creates(op.call) ==> w.gateway.counter + 1 < U64
    ensures Extends(TermsOf(w.gateway), TermsOf(Step(cfg, w, op).gateway))
  {
    if op.ProduceBlock? {
      Replay(cfg, NextHeader(cfg, w.chain.head, op.time), Begin(w.state.accounts, w.gateway, w.pool, w.chain.index),
             w.pool, op.clock);
    } else if op.GatewayOp? {
      ApplyKeepsOk(w.gateway, op.call, op.now);
    }
  }

  /** The invoice terms known at any point of a run stay known, unchanged, to its end. */
  lemma {:induction false} TermsGrow(cfg: Config, time: uint64, ops: seq<Op>, k: nat)
    requires k <= |ops| && InRange(ops)
    ensures Extends(TermsOf(After(cfg, time, ops[..k]).gateway), TermsOf(After(cfg, time, ops).gateway))
  {
    if k == |ops| {
      assert ops[..k] == ops;
    } else {
      var init := ops[..|ops| - 1];
      assert init[..k] == ops[..k];
      TermsGrow(cfg, time, init, k);
      NodeInvariant(cfg, time, init);
      StepKeepsTerms(cfg, After(cfg, time, init), ops[|ops| - 1]);
    }
  }

  lemma StepKeepsBlock(cfg: Config, w: World, op: Op, n: uint64)
    requires Numbered(w.chain) && n in w.chain.blocks
    requires op.ProduceBlock? ==> w.chain.head.header.number + 1 < U64
    ensures n in Step(cfg, w, op).chain.blocks && Step(cfg, w, op).chain.blocks[n] == w.chain.blocks[n]
  {
  }

  /** A stored block is never replaced. */
  lemma {:induction false} BlocksStay(cfg: Config, time: uint64, ops: seq<Op>, k: nat, n: uint64)
    requires k <= |ops| && InRange(ops) && n in After(cfg, time, ops[..k]).chain.blocks
    ensures n in After(cfg, time, ops).chain.blocks
    ensures After(cfg, time, ops).chain.blocks[n] == After(cfg, time, ops[..k]).chain.blocks[n]
  {
    if k == |ops| {
      assert ops[..k] == ops;
    } else {
      var init := ops[..|ops| - 1];
      assert init[..k] == ops[..k];
      BlocksStay(cfg, time, init, k, n);
      NodeInvariant(cfg, time, init);
      StepKeepsBlock(cfg, After(cfg, time, init), ops[|ops| - 1], n);
    }
  }

  /**
   * Every block a run produces is still stored at its end, and validated alone under the terms of the end, it
   * gives the ledger its production left.
   */
  lemma EveryBlockReplays(cfg: Config, time: uint64, ops: seq<Op>, k: nat)
    requires k < |ops| && ops[k].ProduceBlock? && InRange(ops)
    ensures var w, w', end := After(cfg, time, ops[..k]), After(cfg, time, ops[..k + 1]), After(cfg, time, ops);
            var n := w'.chain.head.header.number;
            && n in end.chain.blocks
            && Validate(cfg, w.state.accounts, TermsOf(end.gateway), end.chain.blocks[n].transactions)
               == Some(w'.state.accounts)
  {
    var w := After(cfg, time, ops[..k]);
    TermsGrow(cfg, time, ops, k);
    AfterNext(cfg, time, ops, k);
    BlocksStay(cfg, time, ops, k + 1, Step(cfg, w, ops[k]).chain.head.header.number);
    BlockReplays(cfg, w, ops[k].time, ops[k].clock, TermsOf(After(cfg, time, ops).gateway));
  }

  // ---------------------------------------------------------------------------------------------
  // Conservation over every run
  // ---------------------------------------------------------------------------------------------

  function OpIssued(cfg: Config, w: World, op: Op, t: Token): int {
    if op.Rpc? then RpcSpec.Issued(cfg, w.state, op.req, t) else 0
  }

  /** The unintended change of the GORR total in one step, read off the block or the request. */
  function OpDrift(cfg: Config, w: World, op: Op): int {
    match op
    case Rpc(req) => RpcSpec.RequestDrift(w.state, req)
    case ProduceBlock(time, clock) => BlockDrift(cfg, Produce(cfg, w, time, clock).chain.head.transactions)
    case _ => 0
  }

  ghost function RunIssued(cfg: Config, time: uint64, ops: seq<Op>, t: Token): int {
    if |ops| == 0 then 0
    else
      var init := ops[..|ops| - 1];
      RunIssued(cfg, time, init, t) + OpIssued(cfg, After(cfg, time, init), ops[|ops| - 1], t)
  }

  ghost function RunDrift(cfg: Config, time: uint64, ops: seq<Op>): int {
    if |ops| == 0 then 0
    else
      var init := ops[..|ops| - 1];
      RunDrift(cfg, time, init) + OpDrift(cfg, After(cfg, time, init), ops[|ops| - 1])
  }

  lemma EthSendConserves(crypto: Crypto, l: Accounts, eth: EthSpec.EthState, head: uint64, tx: EthTx, now: uint64,
                         t: Token)
    ensures Total(EthSpec.EthSend(crypto, l, eth, head, tx, now).0, t) == Total(l, t)
  {
    var from := crypto.ethSender(tx);
    if from.Some? && tx.to.Some? && GuardedTransfer(l, GORR, from.value, tx.to.value, tx.value).Some? {
      GuardedTransferConserves(l, GORR, from.value, tx.to.value, tx.value, t);
    }
  }

  lemma StepTotal(cfg: Config, w: World, op: Op, t: Token)
    ensures Total(Step(cfg, w, op).state.accounts, t)
         == Total(w.state.accounts, t) + OpIssued(cfg, w, op, t) + (if t == GORR then OpDrift(cfg, w, op) else 0)
  {
    match op
    case ProduceBlock(time, clock) =>
      BlockReplays(cfg, w, time, clock, TermsOf(w.gateway));
      ValidateTotal(cfg, w.state.accounts, TermsOf(w.gateway), Produce(cfg, w, time, clock).chain.head.transactions, t);
    case Rpc(req) => RpcSpec.HandleTotal(cfg, w.state, req, t);
    case EthSendRaw(tx, now) =>
      EthSendConserves(cfg.crypto, w.state.accounts, w.eth, w.chain.head.header.number, tx, now, t);
    case AddTx(_) =>
    case GatewayOp(_, _) =>
  }

  /** Conservation: genesis total, plus issuance, plus (for GORR only) the drift of every block and send. */
  lemma {:induction false} Conservation(cfg: Config, time: uint64, ops: seq<Op>, t: Token)
    ensures Total(After(cfg, time, ops).state.accounts, t)
         == RunIssued(cfg, time, ops, t) + (if t == GORR then GenesisTotal(cfg) + RunDrift(cfg, time, ops) else 0)
  {
    if |ops| == 0 {
      GenesisTotalIsExact(cfg, t);
    } else {
      var init := ops[..|ops| - 1];
      Conservation(cfg, time, init, t);
      StepTotal(cfg, After(cfg, time, init), ops[|ops| - 1], t);
    }
  }

  /** No harmful overlap among the parties of a transaction, or too little value to matter. */
  predicate SafeTx(cfg: Config, tx: Tx) {
    match SenderOf(cfg, tx)
    case None => true
    case Some(from) =>
      if tx.to.None? || tx.value == 0 then true
      else if ParseTag(tx.data).None? then from != tx.to.value
      else
        || (from != tx.to.value && from != cfg.treasury && tx.to.value != cfg.treasury)
        || (from == tx.to.value == cfg.treasury && 0 <= tx.value < 40)
        || (from != tx.to.value == cfg.treasury && tx.value == -1)
  }

  /** Inclusion leaves the total alone exactly for safe transactions. */
  lemma SafeIffNoDrift(cfg: Config, tx: Tx)
    ensures TxDrift(cfg, tx) == 0 <==> SafeTx(cfg, tx)
  {
  }

  predicate SafeOp(cfg: Config, op: Op) {
    && (op.AddTx? ==> SafeTx(cfg, op.tx))
    && (op.Rpc? && op.req.SetFees? ==> op.req.bps <= 10000)
  }

  ghost predicate SafePool(cfg: Config, txs: seq<Tx>) {
    forall tx :: tx in txs ==> SafeTx(cfg, tx)
  }

  lemma {:induction false} SafeBlocks(cfg: Config, txs: seq<Tx>)
    requires SafePool(cfg, txs)
    ensures BlockDrift(cfg, txs) == 0
  {
    if |txs| > 0 {
      SafeBlocks(cfg, txs[..|txs| - 1]);
      assert txs[|txs| - 1] in txs;
      SafeIffNoDrift(cfg, txs[|txs| - 1]);
    }
  }

  lemma {:induction false} WithoutSelects(crypto: Crypto, pool: seq<Tx>, hs: set<Hash>, tx: Tx)
    requires tx in Without(crypto, pool, hs)
    ensures tx in pool
  {
    var init := pool[..|pool| - 1];
    if tx in Without(crypto, init, hs) {
      WithoutSelects(crypto, init, hs, tx);
    }
  }

  /** A produced block takes its transactions from the pool, and the pool keeps only what it held. */
  lemma ProduceSelects(cfg: Config, w: World, time: uint64, clock: Clock, tx: Tx)
    ensures var w' := Produce(cfg, w, time, clock);
            (tx in w'.chain.head.transactions ==> tx in w.pool) && (tx in w'.pool ==> tx in w.pool)
  {
    var w' := Produce(cfg, w, time, clock);
    ProduceAligns(cfg, w, time, clock);
    SelectIsInOrder(w.pool, Acceptable(cfg, w, time, clock));
    if tx in w'.pool {
      WithoutSelects(cfg.crypto, w.pool, HashesOf(cfg.crypto, w'.chain.head.transactions), tx);
    }
  }

  lemma ProduceKeepsSafePool(cfg: Config, w: World, time: uint64, clock: Clock)
    requires SafePool(cfg, w.pool)
    ensures SafePool(cfg, Produce(cfg, w, time, clock).pool)
    ensures BlockDrift(cfg, Produce(cfg, w, time, clock).chain.head.transactions) == 0
  {
    var w' := Produce(cfg, w, time, clock);
    forall tx | tx in w'.chain.head.transactions || tx in w'.pool ensures tx in w.pool {
      ProduceSelects(cfg, w, time, clock, tx);
    }
    SafeBlocks(cfg, w'.chain.head.transactions);
  }

  lemma RateStaysInRange(cfg: Config, s: RpcSpec.LedgerState, req: RpcSpec.Request)
    requires s.bps <= 10000 && (req.SetFees? ==> req.bps <= 10000)
    ensures RpcSpec.Handle(cfg, s, req).0.bps <= 10000
  {
  }

  lemma SafeStep(cfg: Config, w: World, op: Op)
    requires SafeOp(cfg, op) && SafePool(cfg, w.pool) && w.state.bps <= 10000
    ensures OpDrift(cfg, w, op) == 0
    ensures SafePool(cfg, Step(cfg, w, op).pool) && Step(cfg, w, op).state.bps <= 10000
  {
    if op.ProduceBlock? {
      ProduceKeepsSafePool(cfg, w, op.time, op.clock);
    } else if op.Rpc? {
      RateStaysInRange(cfg, w.state, op.req);
      if RpcSpec.SendAccepted(w.state, op.req) {
        Fees.SendDriftZero(op.req.amount.n, w.state.bps);
      }
    }
  }

  /** When only safe transactions are pooled and the rate stays within 0% to 100%, nothing drifts. */
  lemma {:induction false} SafeRunsDoNotDrift(cfg: Config, time: uint64, ops: seq<Op>)
    requires forall op :: op in ops ==> SafeOp(cfg, op)
    ensures RunDrift(cfg, time, ops) == 0
    ensures SafePool(cfg, After(cfg, time, ops).pool) && After(cfg, time, ops).state.bps <= 10000
  {
    if |ops| > 0 {
      var init, op := ops[..|ops| - 1], ops[|ops| - 1];
      SafeRunsDoNotDrift(cfg, time, init);
      assert op in ops;
      SafeStep(cfg, After(cfg, time, init), op);
    }
  }

  // ---------------------------------------------------------------------------------------------
  // No debt, no nonce progress
  // ---------------------------------------------------------------------------------------------

  lemma ExecuteKeepsNonNegative(cfg: Config, l: Accounts, terms: map<uint64, Terms>, tx: Tx)
    requires NonNegative(l) && tx.value >= 0 && Execute(cfg, l, terms, tx).Some?
    ensures NonNegative(Execute(cfg, l, terms, tx).value)
  {
    var from, to := SenderOf(cfg, tx).value, tx.to.value;
    if ParseTag(tx.data).Some? {
      PaymentKeepsNonNegative(l, from, to, cfg.treasury, tx.value);
    } else {
      TransfersKeepNonNegative(l, GORR, from, to, tx.value);
    }
  }

  lemma {:induction false} ValidateKeepsNonNegative(cfg: Config, l: Accounts, terms: map<uint64, Terms>, txs: seq<Tx>)
    requires NonNegative(l) && Validate(cfg, l, terms, txs).Some?
    requires forall tx :: tx in txs ==> tx.value >= 0
    ensures NonNegative(Validate(cfg, l, terms, txs).value)
  {
    if |txs| > 0 {
      var init := txs[..|txs| - 1];
      ValidateKeepsNonNegative(cfg, l, terms, init);
      ExecuteKeepsNonNegative(cfg, Validate(cfg, l, terms, init).value, terms, txs[|txs| - 1]);
    }
  }

  /** When every pooled value is non-negative, no account ever goes into debt in either token. */
  lemma {:induction false} NobodyInDebt(cfg: Config, time: uint64, ops: seq<Op>)
    requires forall op :: op in ops && op.AddTx? ==> op.tx.value >= 0
    ensures NonNegative(After(cfg, time, ops).state.accounts)
    ensures forall tx :: tx in After(cfg, time, ops).pool ==> tx.value >= 0
  {
    if |ops| > 0 {
      var init, op := ops[..|ops| - 1], ops[|ops| - 1];
      var w := After(cfg, time, init);
      NobodyInDebt(cfg, time, init);
      match op
      case AddTx(_) => assert op in ops;
      case ProduceBlock(t, clock) =>
        forall tx ensures var w' := Produce(cfg, w, t, clock);
                          (tx in w'.chain.head.transactions ==> tx in w.pool) && (tx in w'.pool ==> tx in w.pool)
        {
          ProduceSelects(cfg, w, t, clock, tx);
        }
        BlockReplays(cfg, w, t, clock, TermsOf(w.gateway));
        ValidateKeepsNonNegative(cfg, w.state.accounts, TermsOf(w.gateway),
                                 Produce(cfg, w, t, clock).chain.head.transactions);
      case GatewayOp(_, _) =>
      case Rpc(req) => RpcSpec.HandleKeepsNonNegative(cfg, w.state, req);
      case EthSendRaw(tx, _) =>
        if cfg.crypto.ethSender(tx).Some? && tx.to.Some? {
          TransfersKeepNonNegative(w.state.accounts, GORR, cfg.crypto.ethSender(tx).value, tx.to.value, tx.value);
        }
    }
  }

  ghost predicate NoncesZero(l: Accounts) {
    forall a :: a in l ==> l[a].nonce == 0
  }

  lemma ExecuteKeepsNonces(cfg: Config, l: Accounts, terms: map<uint64, Terms>, tx: Tx)
    requires NoncesZero(l) && Execute(cfg, l, terms, tx).Some?
    ensures tx.nonce == 0 && NoncesZero(Execute(cfg, l, terms, tx).value)
  {
  }

  lemma {:induction false} ValidateKeepsNonces(cfg: Config, l: Accounts, terms: map<uint64, Terms>, txs: seq<Tx>)
    requires NoncesZero(l) && Validate(cfg, l, terms, txs).Some?
    ensures NoncesZero(Validate(cfg, l, terms, txs).value)
    ensures forall tx :: tx in txs ==> tx.nonce == 0
  {
    if |txs| > 0 {
      var init := txs[..|txs| - 1];
      ValidateKeepsNonces(cfg, l, terms, init);
      ExecuteKeepsNonces(cfg, Validate(cfg, l, terms, init).value, terms, txs[|txs| - 1]);
    }
  }

  lemma SendKeepsNonces(cfg: Config, s: RpcSpec.LedgerState, from: Address, to: Address, amount: RpcSpec.AmountArg)
    requires NoncesZero(s.accounts)
    ensures NoncesZero(RpcSpec.HandleSendNative(cfg, s, from, to, amount).0.accounts)
  {
  }

  lemma HandleKeepsNonces(cfg: Config, s: RpcSpec.LedgerState, req: RpcSpec.Request)
    requires NoncesZero(s.accounts)
    ensures NoncesZero(RpcSpec.Handle(cfg, s, req).0.accounts)
  {
    match req
    case SendNative(from, to, amount) => SendKeepsNonces(cfg, s, from, to, amount);
    case AdminForceTransfer(from, target, token, amount) =>
      assert NoncesZero(RpcSpec.HandleAdminForceTransfer(cfg, s, from, target, token, amount).0.accounts);
    case AdminWithdrawFees(from, receiver, token, amount) =>
      assert NoncesZero(RpcSpec.HandleAdminWithdrawFees(cfg, s, from, receiver, token, amount).0.accounts);
    case _ =>
  }

  lemma StepKeepsNonces(cfg: Config, w: World, op: Op)
    requires NoncesZero(w.state.accounts)
    ensures NoncesZero(Step(cfg, w, op).state.accounts)
    ensures op.ProduceBlock? ==> forall tx :: tx in Step(cfg, w, op).chain.head.transactions ==> tx.nonce == 0
  {
    if op.ProduceBlock? {
      BlockReplays(cfg, w, op.time, op.clock, TermsOf(w.gateway));
      ValidateKeepsNonces(cfg, w.state.accounts, TermsOf(w.gateway),
                          Produce(cfg, w, op.time, op.clock).chain.head.transactions);
    } else if op.Rpc? {
      HandleKeepsNonces(cfg, w.state, op.req);
    }
  }

  /** Account nonces never leave zero, so only transactions with nonce 0 are ever stored in a block. */
  lemma {:induction false} OnlyNonceZeroIsIncluded(cfg: Config, time: uint64, ops: seq<Op>)
    ensures NoncesZero(After(cfg, time, ops).state.accounts)
    ensures forall n, tx ::
              n in After(cfg, time, ops).chain.blocks && tx in After(cfg, time, ops).chain.blocks[n].transactions
              ==> tx.nonce == 0
  {
    if |ops| > 0 {
      OnlyNonceZeroIsIncluded(cfg, time, ops[..|ops| - 1]);
      StepKeepsNonces(cfg, After(cfg, time, ops[..|ops| - 1]), ops[|ops| - 1]);
    }
  }

  // ---------------------------------------------------------------------------------------------
  // Collected fees over every run
  // ---------------------------------------------------------------------------------------------

  ghost function RunCharged(cfg: Config, time: uint64, ops: seq<Op>): int {
    if |ops| == 0 then 0
    else
      var init, op := ops[..|ops| - 1], ops[|ops| - 1];
      RunCharged(cfg, time, init) + if op.Rpc? then RpcSpec.Charged(After(cfg, time, init).state, op.req) else 0
  }

  ghost function RunWithdrawn(cfg: Config, time: uint64, ops: seq<Op>): int {
    if |ops| == 0 then 0
    else
      var init, op := ops[..|ops| - 1], ops[|ops| - 1];
      RunWithdrawn(cfg, time, init)
      + if op.Rpc? then RpcSpec.FeesWithdrawn(cfg, After(cfg, time, init).state, op.req) else 0
  }

  /** The GORR counter is fees charged minus fees withdrawn, and is never negative: the clamp is never taken. */
  lemma {:induction false} FeeLedger(cfg: Config, time: uint64, ops: seq<Op>)
    ensures RpcSpec.FeesOk(After(cfg, time, ops).state)
    ensures RpcSpec.Entry(After(cfg, time, ops).state.collected, "GORR")
         == RunCharged(cfg, time, ops) - RunWithdrawn(cfg, time, ops)
  {
    if |ops| > 0 {
      var init, op := ops[..|ops| - 1], ops[|ops| - 1];
      FeeLedger(cfg, time, init);
      if op.Rpc? {
        RpcSpec.HandleFees(cfg, After(cfg, time, init).state, op.req);
      }
    }
  }

  predicate NotFromTreasury(cfg: Config, tx: Tx) {
    SenderOf(cfg, tx) != Some(cfg.treasury)
  }

  predicate TreasuryNeverSends(cfg: Config, op: Op) {
    match op
    case AddTx(tx) => NotFromTreasury(cfg, tx)
    case Rpc(req) => req.SendNative? ==> req.from != cfg.treasury
    case EthSendRaw(tx, _) => cfg.crypto.ethSender(tx) != Some(cfg.treasury)
    case _ => true
  }

  ghost predicate NonNegativeNotFromTreasury(cfg: Config, txs: seq<Tx>) {
    forall tx :: tx in txs ==> NotFromTreasury(cfg, tx) && tx.value >= 0
  }

  lemma ExecuteEnrichesTreasury(cfg: Config, l: Accounts, terms: map<uint64, Terms>, tx: Tx)
    requires NotFromTreasury(cfg, tx) && tx.value >= 0 && Execute(cfg, l, terms, tx).Some?
    ensures Balance(Execute(cfg, l, terms, tx).value, cfg.treasury, GORR) >= Balance(l, cfg.treasury, GORR)
  {
  }

  lemma {:induction false} ValidateEnrichesTreasury(cfg: Config, l: Accounts, terms: map<uint64, Terms>, txs: seq<Tx>)
    requires Validate(cfg, l, terms, txs).Some? && NonNegativeNotFromTreasury(cfg, txs)
    ensures Balance(Validate(cfg, l, terms, txs).value, cfg.treasury, GORR) >= Balance(l, cfg.treasury, GORR)
  {
    if |txs| > 0 {
      var init := txs[..|txs| - 1];
      ValidateEnrichesTreasury(cfg, l, terms, init);
      ExecuteEnrichesTreasury(cfg, Validate(cfg, l, terms, init).value, terms, txs[|txs| - 1]);
    }
  }

  lemma StepKeepsSolvent(cfg: Config, w: World, op: Op)
    requires cfg.admin != cfg.treasury && TreasuryNeverSends(cfg, op) && (op.AddTx? ==> op.tx.value >= 0)
    requires RpcSpec.FeesOk(w.state) && RpcSpec.Solvent(cfg, w.state) && NonNegativeNotFromTreasury(cfg, w.pool)
    ensures RpcSpec.Solvent(cfg, Step(cfg, w, op).state) && NonNegativeNotFromTreasury(cfg, Step(cfg, w, op).pool)
  {
    if op.ProduceBlock? {
      var w' := Produce(cfg, w, op.time, op.clock);
      forall tx | tx in w'.chain.head.transactions || tx in w'.pool ensures tx in w.pool {
        ProduceSelects(cfg, w, op.time, op.clock, tx);
      }
      BlockReplays(cfg, w, op.time, op.clock, TermsOf(w.gateway));
      ValidateEnrichesTreasury(cfg, w.state.accounts, TermsOf(w.gateway), w'.chain.head.transactions);
    } else if op.Rpc? {
      RpcSpec.HandleKeepsSolvent(cfg, w.state, op.req);
    }
  }

  /**
   * While the treasury never sends, is not the admin, and every pooled value is non-negative, the treasury
   * can always pay out every collected fee.
   */
  lemma {:induction false} TreasuryStaysSolvent(cfg: Config, time: uint64, ops: seq<Op>)
    requires cfg.admin != cfg.treasury && forall op :: op in ops ==> TreasuryNeverSends(cfg, op)
    requires forall op :: op in ops && op.AddTx? ==> op.tx.value >= 0
    ensures RpcSpec.Solvent(cfg, After(cfg, time, ops).state)
    ensures NonNegativeNotFromTreasury(cfg, After(cfg, time, ops).pool)
  {
    if |ops| > 0 {
      TreasuryStaysSolvent(cfg, time, ops[..|ops| - 1]);
      FeeLedger(cfg, time, ops[..|ops| - 1]);
      assert ops[|ops| - 1] in ops;
      StepKeepsSolvent(cfg, After(cfg, time, ops[..|ops| - 1]), ops[|ops| - 1]);
    }
  }

  // ---------------------------------------------------------------------------------------------
  // The eth nonce table over every run
  // ---------------------------------------------------------------------------------------------

  /** What one step adds to the log of accepted raw sends. */
  ghost function EthLogged(cfg: Config, w: World, op: Op): seq<EthSpec.Entry> {
    var head := w.chain.head.header.number;
    if op.EthSendRaw? && EthSpec.EthSend(cfg.crypto, w.state.accounts, w.eth, head, op.ethTx, op.now).2.Accepted?
    then [EthSpec.Entry(op.ethTx, head, op.now)] else []
  }

  /** The accepted raw sends of a run, in order. */
  ghost function EthLog(cfg: Config, time: uint64, ops: seq<Op>): (log: seq<EthSpec.Entry>)
    ensures |log| <= |ops|
  {
    if |ops| == 0 then []
    else
      var init := ops[..|ops| - 1];
      EthLog(cfg, time, init) + EthLogged(cfg, After(cfg, time, init), ops[|ops| - 1])
  }

  lemma AcceptedSendKeepsEth(crypto: Crypto, l: Accounts, eth: EthSpec.EthState, log: seq<EthSpec.Entry>, head: uint64,
                             tx: EthTx, now: uint64)
    requires EthSpec.EthSend(crypto, l, eth, head, tx, now).2.Accepted?
    requires EthSpec.NoncesMatch(crypto, eth, log)
    requires EthSpec.FewSends(crypto, log + [EthSpec.Entry(tx, head, now)])
    ensures var log', eth' := log + [EthSpec.Entry(tx, head, now)], EthSpec.EthSend(crypto, l, eth, head, tx, now).1;
            && EthSpec.NoncesMatch(crypto, eth', log')
            && (EthSpec.HashesIdentify(crypto, log') && EthSpec.RecordsMatch(crypto, eth, log) ==>
                  EthSpec.RecordsMatch(crypto, eth', log'))
  {
    EthSpec.AcceptKeepsNonces(crypto, l, eth, log, head, tx, now);
    if EthSpec.HashesIdentify(crypto, log + [EthSpec.Entry(tx, head, now)]) && EthSpec.RecordsMatch(crypto, eth, log) {
      EthSpec.AcceptKeepsRecords(crypto, l, eth, log, head, tx, now);
    }
  }

  lemma StepKeepsEth(cfg: Config, w: World, op: Op, log: seq<EthSpec.Entry>)
    requires EthSpec.NoncesMatch(cfg.crypto, w.eth, log) && EthSpec.FewSends(cfg.crypto, log + EthLogged(cfg, w, op))
    ensures EthSpec.NoncesMatch(cfg.crypto, Step(cfg, w, op).eth, log + EthLogged(cfg, w, op))
    ensures var log' := log + EthLogged(cfg, w, op);
            EthSpec.HashesIdentify(cfg.crypto, log') && EthSpec.RecordsMatch(cfg.crypto, w.eth, log) ==>
              EthSpec.RecordsMatch(cfg.crypto, Step(cfg, w, op).eth, log')
  {
    var head := w.chain.head.header.number;
    if EthLogged(cfg, w, op) == [] {
      assert log + EthLogged(cfg, w, op) == log;
      assert Step(cfg, w, op).eth == w.eth by {
        if op.EthSendRaw? {
          EthSpec.RefusedSendChangesNothing(cfg.crypto, w.state.accounts, w.eth, head, op.ethTx, op.now);
        }
      }
    } else {
      AcceptedSendKeepsEth(cfg.crypto, w.state.accounts, w.eth, log, head, op.ethTx, op.now);
    }
  }

  /** Before a step, no sender had more accepted sends. */
  lemma FewBeforeStep(cfg: Config, w: World, op: Op, log: seq<EthSpec.Entry>)
    requires EthSpec.FewSends(cfg.crypto, log + EthLogged(cfg, w, op))
    ensures EthSpec.FewSends(cfg.crypto, log)
  {
    var added := EthLogged(cfg, w, op);
    if added == [] {
      assert log + added == log;
    } else {
      EthSpec.FewBefore(cfg.crypto, log, added[0]);
    }
  }

  lemma IdentifiedBefore(crypto: Crypto, log: seq<EthSpec.Entry>, added: seq<EthSpec.Entry>)
    requires EthSpec.HashesIdentify(crypto, log + added)
    ensures EthSpec.HashesIdentify(crypto, log)
  {
    forall e | e in log ensures e in log + added {
    }
  }

  lemma {:induction false} EthMatches(cfg: Config, time: uint64, ops: seq<Op>)
    requires EthSpec.FewSends(cfg.crypto, EthLog(cfg, time, ops))
    ensures EthSpec.NoncesMatch(cfg.crypto, After(cfg, time, ops).eth, EthLog(cfg, time, ops))
    ensures EthSpec.HashesIdentify(cfg.crypto, EthLog(cfg, time, ops)) ==>
              EthSpec.RecordsMatch(cfg.crypto, After(cfg, time, ops).eth, EthLog(cfg, time, ops))
  {
    if |ops| > 0 {
      var init, op := ops[..|ops| - 1], ops[|ops| - 1];
      var w, log := After(cfg, time, init), EthLog(cfg, time, init);
      FewBeforeStep(cfg, w, op, log);
      EthMatches(cfg, time, init);
      if EthSpec.HashesIdentify(cfg.crypto, log + EthLogged(cfg, w, op)) {
        IdentifiedBefore(cfg.crypto, log, EthLogged(cfg, w, op));
      }
      StepKeepsEth(cfg, w, op, log);
    }
  }

  /**
   * Exactly while no sender's entry has wrapped, the nonce table counts each sender's accepted sends, whose
   * nonces are 0, 1, 2, ... in order; then the record map holds exactly one record per accepted send unless
   * two of them collide.
   */
  lemma EthTable(cfg: Config, time: uint64, ops: seq<Op>)
    ensures EthSpec.NoncesMatch(cfg.crypto, After(cfg, time, ops).eth, EthLog(cfg, time, ops))
       <==> EthSpec.FewSends(cfg.crypto, EthLog(cfg, time, ops))
    ensures EthSpec.FewSends(cfg.crypto, EthLog(cfg, time, ops)) ==>
              (EthSpec.RecordsMatch(cfg.crypto, After(cfg, time, ops).eth, EthLog(cfg, time, ops))
               <==> EthSpec.HashesIdentify(cfg.crypto, EthLog(cfg, time, ops)))
  {
    if EthSpec.NoncesMatch(cfg.crypto, After(cfg, time, ops).eth, EthLog(cfg, time, ops)) {
      EthSpec.MatchedAreFew(cfg.crypto, After(cfg, time, ops).eth, EthLog(cfg, time, ops));
    }
    if EthSpec.FewSends(cfg.crypto, EthLog(cfg, time, ops)) {
      EthMatches(cfg, time, ops);
    }
  }
}
