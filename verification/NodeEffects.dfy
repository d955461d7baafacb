/**
 * What each step of the node changes and what it leaves, and every balance of every run as an account statement:
 * the starting balance and the closed-form change of each block, request and raw send.
 */
module NodeEffects {
  import opened Types
  import opened Ledger
  import opened Producer
  import opened ChainSpec
  import opened Runs
  import opened BlockEffects
  import RpcEffects
  import RpcSpec
  import EthSpec
  import GatewaySpec

  // ---------------------------------------------------------------------------------------------
  // Frames
  // ---------------------------------------------------------------------------------------------

  /** Only the producer extends the chain; each of the other parts has its own writers. */
  lemma StepFrames(cfg: Config, w: World, op: Op)
    ensures var w' := Step(cfg, w, op);
            && (w'.chain != w.chain ==> op.ProduceBlock?)
            && (w'.gateway != w.gateway ==> op.ProduceBlock? || op.GatewayOp?)
            && (w'.pool != w.pool ==> op.ProduceBlock? || op.AddTx?)
            && (w'.eth != w.eth ==> op.EthSendRaw?)
            && (w'.state.accounts != w.state.accounts ==> op.ProduceBlock? || op.Rpc? || op.EthSendRaw?)
            && (w'.state.(accounts := w.state.accounts) != w.state ==> op.Rpc?)
            && (op.AddTx? ==> |w'.pool| == |w.pool| + 1 && w'.pool[|w.pool|] == op.tx && w.pool <= w'.pool)
  {
  }

  /** A raw send is recorded under the number of the head it finds. */
  lemma RawSendNamesHead(cfg: Config, w: World, tx: EthTx, now: uint64, from: Address)
    requires RpcEffects.RawAccepted(cfg.crypto, w.state.accounts, w.eth, tx, from)
    ensures var txs := Step(cfg, w, EthSendRaw(tx, now)).eth.txs;
            && cfg.crypto.ethHash(tx) in txs
            && txs[cfg.crypto.ethHash(tx)].blockNumber == w.chain.head.header.number
            && txs[cfg.crypto.ethHash(tx)].time == now
  {
    RpcEffects.RawSendRecords(cfg.crypto, w.state.accounts, w.eth, w.chain.head.header.number, tx, now, from);
  }

  // ---------------------------------------------------------------------------------------------
  // Account statements
  // ---------------------------------------------------------------------------------------------

  ghost function Share(value: int): (f: int)
    ensures IsShare(f, value)
  {
    FeeIsShare(value);
    var f :| IsShare(f, value);
    f
  }

  /** What a list of transactions moves, each from the account its receipt names. */
  ghost function Booked(cfg: Config, txs: seq<Tx>, receipts: seq<Receipt>, x: Address, t: Token): int
    requires |txs| == |receipts|
  {
    if |txs| == 0 then 0
    else
      var n := |txs| - 1;
      Booked(cfg, txs[..n], receipts[..n], x, t)
      + if txs[n].to.Some? then Moved(cfg, txs[n], receipts[n].from, Share(txs[n].value), x, t) else 0
  }

  lemma BookedMore(cfg: Config, txs: seq<Tx>, receipts: seq<Receipt>, tx: Tx, r: Receipt, x: Address, t: Token)
    requires |txs| == |receipts| && tx.to.Some?
    ensures Booked(cfg, txs + [tx], receipts + [r], x, t)
         == Booked(cfg, txs, receipts, x, t) + Moved(cfg, tx, r.from, Share(tx.value), x, t)
  {
    assert (txs + [tx])[..|txs|] == txs && (receipts + [r])[..|txs|] == receipts;
  }

  lemma PaysItsShare(cfg: Config, tx: Tx, a: Address, l: Accounts, l': Accounts, x: Address, t: Token)
    requires tx.to.Some? && Pays(cfg, tx, a, l, l')
    ensures Balance(l', x, t) == Balance(l, x, t) + Moved(cfg, tx, a, Share(tx.value), x, t)
  {
    var f :| IsShare(f, tx.value) && MovesBy(cfg, tx, a, f, l, l');
    OneShare(f, Share(tx.value), tx.value);
    assert MovesAt(cfg, tx, a, f, l, l', x, t);
  }

  lemma BookedStep(cfg: Config, w: World, time: uint64, clock: Clock, i: nat, x: Address, t: Token)
    requires i < |w.pool| && StepAt(cfg, w, time, clock, i)
    requires |At(cfg, w, time, clock, i).included| == |At(cfg, w, time, clock, i).receipts|
    ensures var p, p' := At(cfg, w, time, clock, i), At(cfg, w, time, clock, i + 1);
            && |p'.included| == |p'.receipts|
            && Balance(p'.accounts, x, t) - Balance(p.accounts, x, t)
               == Booked(cfg, p'.included, p'.receipts, x, t) - Booked(cfg, p.included, p.receipts, x, t)
  {
    var p, p', tx := At(cfg, w, time, clock, i), At(cfg, w, time, clock, i + 1), w.pool[i];
    if Includable(cfg, p.accounts, w.gateway, tx) {
      var a :| Signs(cfg, tx, a) && Qualifies(cfg, p.accounts, w.gateway, tx, a);
      PaysItsShare(cfg, tx, a, p.accounts, p'.accounts, x, t);
      BookedMore(cfg, p.included, p.receipts, tx, p'.receipts[|p.receipts|], x, t);
    } else {
      assert p.included + [] == p.included;
    }
  }

  /** Up to any position of the pass, every balance has moved by what is booked so far. */
  lemma {:induction false} BookedSoFar(cfg: Config, w: World, time: uint64, clock: Clock, i: nat, x: Address, t: Token)
    requires i <= |w.pool|
    ensures var p := At(cfg, w, time, clock, i);
            && |p.included| == |p.receipts|
            && Balance(p.accounts, x, t)
               == Balance(w.state.accounts, x, t) + Booked(cfg, p.included, p.receipts, x, t)
  {
    if i > 0 {
      BookedSoFar(cfg, w, time, clock, i - 1, x, t);
      EachPosition(cfg, w, time, clock, i - 1);
      BookedStep(cfg, w, time, clock, i - 1, x, t);
    }
  }

  /** Every balance a block moves can be read off the stored block and its receipts. */
  lemma BlockMoves(cfg: Config, w: World, time: uint64, clock: Clock, x: Address, t: Token)
    ensures var w' := Produce(cfg, w, time, clock);
            var n := w'.chain.head.header.number;
            && n in w'.chain.receipts && |w'.chain.receipts[n]| == |w'.chain.head.transactions|
            && Balance(w'.state.accounts, x, t)
               == Balance(w.state.accounts, x, t)
                  + Booked(cfg, w'.chain.head.transactions, w'.chain.receipts[n], x, t)
  {
    ProductionEffects(cfg, w, time, clock);
    BookedSoFar(cfg, w, time, clock, |w.pool|, x, t);
  }

  /** How one step changes one balance. */
  ghost function Change(cfg: Config, w: World, op: Op, x: Address, t: Token): int {
    match op
    case Rpc(req) => RpcEffects.BalanceChange(cfg, w.state, req, x, t)
    case EthSendRaw(tx, _) =>
      if exists from :: RpcEffects.RawAccepted(cfg.crypto, w.state.accounts, w.eth, tx, from) then
        var from :| RpcEffects.RawAccepted(cfg.crypto, w.state.accounts, w.eth, tx, from);
        if t == GORR then RpcEffects.Part(x, tx.to.value, tx.value) - RpcEffects.Part(x, from, tx.value) else 0
      else 0
    case ProduceBlock(time, clock) =>
      var c := Produce(cfg, w, time, clock).chain;
      BlockMoves(cfg, w, time, clock, x, t);
      Booked(cfg, c.head.transactions, c.receipts[c.head.header.number], x, t)
    case _ => 0
  }

  lemma RawSendChanges(cfg: Config, w: World, tx: EthTx, now: uint64, x: Address, t: Token)
    ensures Balance(Step(cfg, w, EthSendRaw(tx, now)).state.accounts, x, t)
         == Balance(w.state.accounts, x, t) + Change(cfg, w, EthSendRaw(tx, now), x, t)
  {
    var l, eth, head := w.state.accounts, w.eth, w.chain.head.header.number;
    RpcEffects.RawSendAnswers(cfg.crypto, l, eth, head, tx, now);
    if exists from :: RpcEffects.RawAccepted(cfg.crypto, l, eth, tx, from) {
      var from := cfg.crypto.ethSender(tx).value;
      RpcEffects.RawSendMoves(cfg.crypto, l, eth, head, tx, now, from, x, t);
    } else {
      EthSpec.RefusedSendChangesNothing(cfg.crypto, l, eth, head, tx, now);
    }
  }

  lemma StepMoves(cfg: Config, w: World, op: Op, x: Address, t: Token)
    ensures Balance(Step(cfg, w, op).state.accounts, x, t)
         == Balance(w.state.accounts, x, t) + Change(cfg, w, op, x, t)
  {
    match op
    case Rpc(req) => RpcEffects.RequestMoves(cfg, w.state, req, x, t);
    case EthSendRaw(tx, now) => RawSendChanges(cfg, w, tx, now, x, t);
    case ProduceBlock(time, clock) => BlockMoves(cfg, w, time, clock, x, t);
    case AddTx(_) =>
    case GatewayOp(_, _) =>
  }

  /** The sum of a run's changes of one balance. */
  ghost function Changes(cfg: Config, time: uint64, ops: seq<Op>, x: Address, t: Token): int {
    if |ops| == 0 then 0
    else
      var init := ops[..|ops| - 1];
      Changes(cfg, time, init, x, t) + Change(cfg, After(cfg, time, init), ops[|ops| - 1], x, t)
  }

  /** What a node starts an account with. */
  function Allocation(cfg: Config, x: Address, t: Token): int {
    if t == USDCc then 0
    else if x == 0x936808d3950Dab542bEF8E71D2d7d36A0bB538ec then 1_000_000 * COIN
    else if x == cfg.treasury then 99_990_000_000 * COIN
    else if x == cfg.admin then 10_000_000 * COIN
    else 0
  }

  /** After every run every balance is its allocation plus what the run's blocks, requests and raw sends moved. */
  lemma {:induction false} AccountStatement(cfg: Config, time: uint64, ops: seq<Op>, x: Address, t: Token)
    ensures Balance(After(cfg, time, ops).state.accounts, x, t)
         == Allocation(cfg, x, t) + Changes(cfg, time, ops, x, t)
  {
    if |ops| == 0 {
      GenesisEffects(cfg, time, x);
    } else {
      var init := ops[..|ops| - 1];
      AccountStatement(cfg, time, init, x, t);
      StepMoves(cfg, After(cfg, time, init), ops[|ops| - 1], x, t);
    }
  }
}
