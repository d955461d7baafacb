/** The explorer's transaction page: where index, blocks and receipts must agree. */
module Explorer {
  import opened Types
  import opened Producer
  import opened ChainSpec
  import opened Blockchain

  /** The first transaction with a hash and the first receipt with that hash stand at the same position. */
  lemma ScanMeetsReceipt(cfg: Config, c: Chain, n: uint64, i: nat, h: Hash)
    requires ChainOk(cfg, c) && n in c.blocks && i < |c.blocks[n].transactions|
    requires cfg.crypto.txHash(c.blocks[n].transactions[i]) == h
    requires forall k :: 0 <= k < i ==> cfg.crypto.txHash(c.blocks[n].transactions[k]) != h
    ensures n in c.receipts && i < |c.receipts[n]|
    ensures c.receipts[n][i].txHash == h && ReceiptMatches(cfg, c.blocks[n], i, c.receipts[n][i])
    ensures forall k :: 0 <= k < i ==> c.receipts[n][k].txHash != h
  {
  }

  /** In a chain in order, the index knows the last block that holds the hash, and the scan will find it there. */
  lemma IndexFindsLast(cfg: Config, c: Chain, h: Hash)
    requires ChainOk(cfg, c)
    ensures h !in c.index ==> forall n :: n in c.blocks ==> !Contains(cfg.crypto, c.blocks[n], h)
    ensures h in c.index ==>
              && LastContaining(cfg.crypto, c, h, c.index[h])
              && var txs := c.blocks[c.index[h]].transactions;
                 exists k :: 0 <= k < |txs| && cfg.crypto.txHash(txs[k]) == h
  {
    if h in c.index {
      var tx :| tx in c.blocks[c.index[h]].transactions && cfg.crypto.txHash(tx) == h;
    }
  }

  datatype TxLookup = NotIndexed | BlockMissing | NotInBlock
    | Found(tx: Tx, blockNumber: uint64, index: nat, receipt: Option<Receipt>)

  class ExplorerAPI {
    const chain: Blockchain

    constructor (chain: Blockchain)
      ensures this.chain == chain
    {
      this.chain := chain;
    }

    /** The first receipt with the given transaction hash. */
    method FindReceipt(list: seq<Receipt>, h: Hash) returns (receipt: Option<Receipt>)
      ensures receipt.None? <==> forall k :: 0 <= k < |list| ==> list[k].txHash != h
      ensures receipt.Some? ==>
                exists k :: 0 <= k < |list| && list[k] == receipt.value && list[k].txHash == h
                            && forall j :: 0 <= j < k ==> list[j].txHash != h
    {
      var i := 0;
      while i < |list|
        invariant 0 <= i <= |list|
        invariant forall k :: 0 <= k < i ==> list[k].txHash != h
      {
        if list[i].txHash == h {
          return Some(list[i]);
        }
        i := i + 1;
      }
      receipt := None;
    }

    /** The first transaction with the given hash. */
    method FindTransaction(txs: seq<Tx>, h: Hash) returns (index: Option<nat>)
      ensures index.None? <==> forall k :: 0 <= k < |txs| ==> chain.cfg.crypto.txHash(txs[k]) != h
      ensures index.Some? ==>
                && index.value < |txs| && chain.cfg.crypto.txHash(txs[index.value]) == h
                && forall k :: 0 <= k < index.value ==> chain.cfg.crypto.txHash(txs[k]) != h
    {
      var i := 0;
      while i < |txs|
        invariant 0 <= i <= |txs|
        invariant forall k :: 0 <= k < i ==> chain.cfg.crypto.txHash(txs[k]) != h
      {
        if chain.cfg.crypto.txHash(txs[i]) == h {
          return Some(i);
        }
        i := i + 1;
      }
      index := None;
    }

    /**
     * Index lookup, block load, scan, receipt scan. In a chain in order it never fails after the lookup: it
     * finds a transaction iff some block holds one with that hash, in the last such block, with its receipt.
     */
    method HandleTransaction(h: Hash) returns (r: TxLookup)
      ensures ChainOk(chain.cfg, chain.ChainView()) ==>
                && (r.Found? || r.NotIndexed?)
                && (r.NotIndexed? <==>
                    forall n :: n in chain.blocks ==> !Contains(chain.cfg.crypto, chain.blocks[n], h))
                && (r.Found? ==>
                      && chain.cfg.crypto.txHash(r.tx) == h
                      && LastContaining(chain.cfg.crypto, chain.ChainView(), h, r.blockNumber)
                      && r.index < |chain.blocks[r.blockNumber].transactions|
                      && chain.blocks[r.blockNumber].transactions[r.index] == r.tx
                      && r.receipt.Some?
                      && ReceiptMatches(chain.cfg, chain.blocks[r.blockNumber], r.index, r.receipt.value))
    {
      var num := chain.FindTxBlock(h);
      if ChainOk(chain.cfg, chain.ChainView()) {
        IndexFindsLast(chain.cfg, chain.ChainView(), h);
      }
      if num.None? {
        return NotIndexed;
      }
      var block := chain.LoadBlock(num.value);
      if block.None? {
        return BlockMissing;
      }
      var index := FindTransaction(block.value.transactions, h);
      if index.None? {
        return NotInBlock;
      }
      var list := chain.LoadReceipts(num.value);
      var receipt := FindReceipt(list, h);
      if ChainOk(chain.cfg, chain.ChainView()) {
        ScanMeetsReceipt(chain.cfg, chain.ChainView(), num.value, index.value, h);
      }
      return Found(block.value.transactions[index.value], num.value, index.value, receipt);
    }
  }
}
