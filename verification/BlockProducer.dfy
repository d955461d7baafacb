/** The block producer over a live chain. */
module BlockProduction {
  import opened Types
  import opened Ledger
  import opened Producer
  import opened ChainSpec
  import opened Blockchain
  import GatewaySpec
  import PaymentTag
  import EthSpec

  class BlockProducer {
    const chain: Blockchain

    constructor (chain: Blockchain)
      ensures this.chain == chain
    {
      this.chain := chain;
    }

    /** A plain transfer. */
    method ProcessGORR(tx: Tx, from: Address) returns (ok: bool)
      modifies chain.state`accounts
      ensures var r := Producer.ProcessGORR(old(chain.state.accounts), tx, from);
              ok == r.Some? && chain.state.accounts == if ok then r.value else old(chain.state.accounts)
    {
      if tx.to.None? {
        return false;
      }
      var to := tx.to.value;
      var fromBal := chain.state.GetBalance(from, GORR);
      if fromBal < tx.value {
        return false;
      }
      var toBal := chain.state.GetBalance(to, GORR);
      chain.state.SetBalance(from, GORR, fromBal - tx.value);
      chain.state.SetBalance(to, GORR, toBal + tx.value);
      return true;
    }

    /** A payment: fetch, check, move, mark. */
    method ProcessPaymentGORR(tx: Tx, from: Address, intentID: uint64, header: Header, now: uint64) returns (ok: bool)
      requires chain.payment.Valid()
      modifies chain.state`accounts, chain.payment.intents.Values
      ensures chain.payment.Valid()
      ensures var r := ProcessPayment(chain.cfg, old(chain.state.accounts), old(chain.payment.Model()), tx, from,
                                      intentID, header, now);
              && ok == r.0.Some? && chain.state.accounts == (if ok then r.0.value else old(chain.state.accounts))
              && chain.payment.Model() == r.1
    {
      if tx.to.None? || chain.cfg.treasury == ZERO_ADDRESS {
        return false;
      }
      var to, treasury := tx.to.value, chain.cfg.treasury;
      var payable := FetchInvoice(intentID, to, now);
      if !payable {
        return false;
      }
      ok := MoveBalances(from, to, treasury, tx.value);
      if ok {
        var _ := chain.payment.MarkPaidFromTx(intentID, from, to, tx.value, chain.cfg.crypto.txHash(tx), header.number,
                                              header.time);
      }
    }

    /** The invoice exists, is in GORR, and names this merchant. */
    method FetchInvoice(intentID: uint64, to: Address, now: uint64) returns (payable: bool)
      requires chain.payment.Valid()
      modifies chain.payment.intents.Values
      ensures chain.payment.Valid()
      ensures var (g, reply) := GatewaySpec.Apply(old(chain.payment.Model()), GatewaySpec.GetIntent(intentID), now);
              && chain.payment.Model() == g
              && payable == (reply.Clone? && reply.intent.token == "GORR" && reply.intent.merchant == to)
    {
      var intent, err := chain.payment.GetIntent(intentID, now);
      return err.None? && intent.token == "GORR" && intent.merchant == to;
    }

    /** The money of a payment: three balances read, then three written. */
    method MoveBalances(from: Address, to: Address, treasury: Address, value: int) returns (ok: bool)
      modifies chain.state`accounts
      ensures var r := StalePayment(old(chain.state.accounts), from, to, treasury, value);
              ok == r.Some? && chain.state.accounts == if ok then r.value else old(chain.state.accounts)
    {
      var fromBal := chain.state.GetBalance(from, GORR);
      if fromBal < value {
        return false;
      }
      var fee := PaymentFee(value);
      var merchantAmount := value - fee;
      var merchantBal := chain.state.GetBalance(to, GORR);
      var treasuryBal := chain.state.GetBalance(treasury, GORR);
      chain.state.SetBalance(from, GORR, fromBal - value);
      chain.state.SetBalance(to, GORR, merchantBal + merchantAmount);
      chain.state.SetBalance(treasury, GORR, treasuryBal + fee);
      return true;
    }

    /** Dispatch on the payment tag. */
    method Process(tx: Tx, from: Address, header: Header, now: uint64) returns (ok: bool)
      requires chain.payment.Valid()
      modifies chain.state`accounts, chain.payment.intents.Values
      ensures chain.payment.Valid()
      ensures var r := Producer.Process(chain.cfg, old(chain.state.accounts), old(chain.payment.Model()), tx, from,
                                        header, now);
              && ok == r.0.Some? && chain.state.accounts == (if ok then r.0.value else old(chain.state.accounts))
              && chain.payment.Model() == r.1
    {
      var tag := PaymentTag.ParseTag(tx.data);
      if tag.Some? {
        ok := ProcessPaymentGORR(tx, from, tag.value, header, now);
      } else {
        ok := ProcessGORR(tx, from);
      }
    }

    ghost function Now(included: seq<Tx>, receipts: seq<Receipt>): Progress
      reads chain, chain.state, chain.txPool, chain.payment, chain.payment.intents.Values
    {
      Progress(chain.state.accounts, chain.payment.Model(), chain.txPool.pending, chain.txIndex, included, receipts)
    }

    /** Books an accepted transaction: nonce, block, index, receipt, pool. */
    method Include(tx: Tx, from: Address, header: Header, included: seq<Tx>, receipts: seq<Receipt>)
      returns (included': seq<Tx>, receipts': seq<Receipt>)
      requires tx.to.Some?
      modifies chain`txIndex, chain.state`accounts, chain.txPool
      ensures chain.state.accounts == Ledger.IncreaseNonce(old(chain.state.accounts), from)
      ensures included' == included + [tx]
      ensures chain.txIndex == old(chain.txIndex)[chain.cfg.crypto.txHash(tx) := header.number]
      ensures receipts' == receipts + [ReceiptFor(chain.cfg, header, included', tx, from)]
      ensures chain.txPool.pending
              == RemoveHash(chain.txPool.crypto, old(chain.txPool.pending), chain.txPool.crypto.txHash(tx))
    {
      chain.state.IncreaseNonce(from);
      included' := included + [tx];
      var block := Block(header, included');
      chain.SaveTxIndex(chain.cfg.crypto.txHash(tx), header.number);
      receipts' := receipts + [Receipt(chain.cfg.crypto.txHash(tx), BlockHash(chain.cfg.crypto, block), header.number,
                                       |included'| - 1, from, tx.to.value, tx.gas, 1)];
      chain.txPool.Remove(tx);
    }

    /** One iteration of the pass. */
    method Visit(tx: Tx, header: Header, now: uint64, included: seq<Tx>, receipts: seq<Receipt>)
      returns (included': seq<Tx>, receipts': seq<Receipt>)
      requires chain.Valid()
      modifies chain`txIndex, chain.state`accounts, chain.txPool, chain.payment.intents.Values
      ensures chain.Valid()
      ensures Now(included', receipts') == Producer.Visit(chain.cfg, header, old(Now(included, receipts)), tx, now)
    {
      included', receipts' := included, receipts;
      var sender := SenderOf(chain.cfg, tx);
      if sender.None? {
        return;
      }
      var stateNonce := chain.state.GetNonce(sender.value);
      if tx.nonce != stateNonce {
        return;
      }
      ghost var p := Now(included, receipts);
      var ok := Process(tx, sender.value, header, now);
      ghost var moved := Producer.Process(chain.cfg, p.accounts, p.gateway, tx, sender.value, header, now);
      assert Now(included, receipts) == p.(gateway := moved.1, accounts := if ok then moved.0.value else p.accounts);
      if ok {
        included', receipts' := Include(tx, sender.value, header, included, receipts);
        assert chain.payment.Model() == moved.1;
      }
    }

    /** The loop of a production over its snapshot. */
    method RunPass(header: Header, txns: seq<Tx>, clock: Clock) returns (included: seq<Tx>, receipts: seq<Receipt>)
      requires chain.Valid()
      modifies chain`txIndex, chain.state`accounts, chain.txPool, chain.payment.intents.Values
      ensures chain.Valid()
      ensures Now(included, receipts) == Pass(chain.cfg, header, old(Now([], [])), txns, clock)
    {
      included, receipts := [], [];
      ghost var start := Now([], []);
      var i := 0;
      while i < |txns|
        invariant 0 <= i <= |txns| && chain.Valid()
        invariant Now(included, receipts) == Pass(chain.cfg, header, start, txns[..i], clock)
      {
        assert txns[..i + 1][..i] == txns[..i];
        included, receipts := Visit(txns[i], header, clock(i), included, receipts);
        i := i + 1;
      }
      assert txns[..i] == txns;
    }

    /** Takes the snapshot of the pool and makes the pass over it. */
    method Fill(header: Header, clock: Clock, ghost eth: EthSpec.EthState)
      returns (included: seq<Tx>, receipts: seq<Receipt>)
      requires chain.Valid()
      modifies chain`txIndex, chain.state`accounts, chain.txPool, chain.payment.intents.Values
      ensures chain.Valid()
      ensures var w := old(chain.View(eth));
              var p := Pass(chain.cfg, header, Begin(w.state.accounts, w.gateway, w.pool, w.chain.index), w.pool,
                            clock);
              && included == p.included && receipts == p.receipts
              && chain.View(eth) == w.(state := w.state.(accounts := p.accounts), gateway := p.gateway, pool := p.pool,
                                       chain := w.chain.(index := p.index))
    {
      ghost var w := chain.View(eth);
      var txns := chain.txPool.Pending();
      assert Now([], []) == Begin(w.state.accounts, w.gateway, w.pool, w.chain.index);
      included, receipts := RunPass(header, txns, clock);
      ghost var p := Now(included, receipts);
      assert chain.View(eth).state == w.state.(accounts := p.accounts);
      assert chain.View(eth).chain == w.chain.(index := p.index);
    }

    /** Stores the finished block and its receipts. */
    method Finish(block: Block, receipts: seq<Receipt>, ghost eth: EthSpec.EthState)
      requires chain.Valid()
      modifies chain`head, chain`blocks, chain`receipts
      ensures chain.Valid()
      ensures var w := old(chain.View(eth));
              var c := ChainSpec.SetHead(w.chain, block);
              chain.View(eth) == w.(chain := c.(receipts := c.receipts[block.header.number := receipts]))
    {
      chain.SetHead(block);
      chain.SaveReceipts(block.header.number, receipts);
    }

    /** Produces one block; time and clock are the readings of the wall clock it makes. */
    method Produce(time: uint64, clock: Clock, ghost eth: EthSpec.EthState)
      requires chain.Valid()
      modifies chain, chain.state`accounts, chain.txPool, chain.payment.intents.Values
      ensures chain.Valid()
      ensures chain.View(eth) == ChainSpec.Produce(chain.cfg, old(chain.View(eth)), time, clock)
    {
      var parent := BlockHash(chain.cfg.crypto, chain.head);
      var header := Header(parent, WrapAdd(chain.head.header.number, 1), time, ZERO_HASH, ZERO_HASH);
      var included, receipts := Fill(header, clock, eth);
      Finish(Block(header, included), receipts, eth);
    }
  }
}
