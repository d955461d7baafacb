/** The chain object: head, blocks, receipts and index, with its state, pool and gateway. */
module Blockchain {
  import opened Types
  import opened Ledger
  import opened ChainSpec
  import PaymentGateway
  import EthSpec
  import opened StateStore
  import opened TxPools

  class Blockchain {
    const cfg: Config
    const state: State
    const txPool: TxPool
    const payment: PaymentGateway.Gateway

    var head: Block
    var blocks: map<uint64, Block>
    var receipts: map<uint64, seq<Receipt>>
    var txIndex: map<Hash, uint64>

    ghost predicate Valid()
      reads this, payment
    {
      payment.Valid() && txPool.crypto == cfg.crypto
    }

    ghost function ChainView(): Chain
      reads this
    {
      Chain(head, blocks, receipts, txIndex)
    }

    /** The node's state; the eth endpoint's tables live in another object. */
    ghost function View(eth: EthSpec.EthState): World
      reads this, state, txPool, payment, payment.intents.Values
    {
      World(state.View(), payment.Model(), txPool.pending, ChainView(), eth)
    }

    /** Genesis: no stored head yet. */
    constructor (cfg: Config, now: uint64)
      ensures this.cfg == cfg && Valid()
      ensures fresh(state) && fresh(txPool) && fresh(payment) && payment.intents == map[]
      ensures View(EthSpec.EMPTY_ETH) == Genesis(cfg, now)
    {
      this.cfg := cfg;
      var st := new State();
      var pool := new TxPool(cfg.crypto);
      var pg := new PaymentGateway.Gateway();
      st.SetBalance(cfg.admin, GORR, ADMIN_ALLOC);
      st.SetBalance(cfg.treasury, GORR, TOTAL_ALLOC - ADMIN_ALLOC);
      st.SetBalance(EVM_USER, GORR, EVM_ALLOC);
      state, txPool, payment := st, pool, pg;
      var genesis := GenesisBlock(now);
      head, blocks, receipts, txIndex := genesis, map[0 := genesis], map[], map[];
    }

    method SetHead(block: Block)
      modifies this`head, this`blocks
      ensures ChainView() == ChainSpec.SetHead(old(ChainView()), block)
    {
      head := block;
      blocks := blocks[block.header.number := block];
    }

    method LoadBlock(num: uint64) returns (block: Option<Block>)
      ensures block == if num in blocks then Some(blocks[num]) else None
    {
      if num in blocks {
        block := Some(blocks[num]);
      } else {
        block := None;
      }
    }

    method SaveReceipts(num: uint64, list: seq<Receipt>)
      modifies this`receipts
      ensures receipts == old(receipts)[num := list]
    {
      receipts := receipts[num := list];
    }

    method SaveTxIndex(h: Hash, num: uint64)
      modifies this`txIndex
      ensures txIndex == old(txIndex)[h := num]
    {
      txIndex := txIndex[h := num];
    }

    method FindTxBlock(h: Hash) returns (num: Option<uint64>)
      ensures num == ChainSpec.FindTxBlock(ChainView(), h)
    {
      if h in txIndex {
        num := Some(txIndex[h]);
      } else {
        num := None;
      }
    }

    method LoadReceipts(num: uint64) returns (list: seq<Receipt>)
      ensures list == if num in receipts then receipts[num] else []
    {
      if num in receipts {
        list := receipts[num];
      } else {
        list := [];
      }
    }
  }
}
