/** Genesis, block storage and block production as functions of the node's whole state. */
module ChainSpec {
  import opened Types
  import opened Ledger
  import opened GatewaySpec
  import opened PaymentTag
  import opened Producer
  import RpcSpec
  import EthSpec

  /** Head, stored blocks, stored receipts, and the transaction index. */
  datatype Chain = Chain(head: Block, blocks: map<uint64, Block>, receipts: map<uint64, seq<Receipt>>,
                         index: map<Hash, uint64>)

  datatype World = World(state: RpcSpec.LedgerState, gateway: Gateway, pool: seq<Tx>, chain: Chain,
                         eth: EthSpec.EthState)

  const EVM_USER: Address := 0x936808d3950Dab542bEF8E71D2d7d36A0bB538ec
  const TOTAL_ALLOC: int := 100_000_000_000 * WEI
  const ADMIN_ALLOC: int := 10_000_000 * WEI
  const EVM_ALLOC: int := 1_000_000 * WEI

  /** Admin, treasury and EVM user are written in this order, so a later one overwrites an equal earlier one. */
  function GenesisAccounts(cfg: Config): Accounts {
    var l1 := SetBalance(map[], cfg.admin, GORR, ADMIN_ALLOC);
    var l2 := SetBalance(l1, cfg.treasury, GORR, TOTAL_ALLOC - ADMIN_ALLOC);
    SetBalance(l2, EVM_USER, GORR, EVM_ALLOC)
  }

  function GenesisBlock(time: uint64): Block {
    Block(Header(ZERO_HASH, 0, time, ZERO_HASH, ZERO_HASH), [])
  }

  function Genesis(cfg: Config, time: uint64): World {
    var b := GenesisBlock(time);
    World(RpcSpec.EMPTY_STATE.(accounts := GenesisAccounts(cfg)), NEW_GATEWAY, [],
          Chain(b, map[0 := b], map[], map[]), EthSpec.EMPTY_ETH)
  }

  /** The starting GORR total under every overlap of the three genesis addresses. */
  function GenesisTotal(cfg: Config): int {
    var admin := if cfg.admin == EVM_USER || cfg.admin == cfg.treasury then 0 else ADMIN_ALLOC;
    (if cfg.treasury == EVM_USER then 0 else TOTAL_ALLOC - ADMIN_ALLOC) + EVM_ALLOC + admin
  }

  lemma GenesisTotalIsExact(cfg: Config, t: Token)
    ensures Total(GenesisAccounts(cfg), t) == if t == GORR then GenesisTotal(cfg) else 0
  {
    var l1 := SetBalance(map[], cfg.admin, GORR, ADMIN_ALLOC);
    var l2 := SetBalance(l1, cfg.treasury, GORR, TOTAL_ALLOC - ADMIN_ALLOC);
    TotalSetBalance(map[], cfg.admin, GORR, ADMIN_ALLOC, t);
    TotalSetBalance(l1, cfg.treasury, GORR, TOTAL_ALLOC - ADMIN_ALLOC, t);
    TotalSetBalance(l2, EVM_USER, GORR, EVM_ALLOC, t);
  }

  function NextHeader(cfg: Config, head: Block, time: uint64): Header {
    Header(BlockHash(cfg.crypto, head), WrapAdd(head.header.number, 1), time, ZERO_HASH, ZERO_HASH)
  }

  /** SetHead: the block becomes the head and is stored under its number. */
  function SetHead(c: Chain, b: Block): Chain {
    c.(head := b, blocks := c.blocks[b.header.number := b])
  }

  function FindTxBlock(c: Chain, h: Hash): Option<uint64> {
    if h in c.index then Some(c.index[h]) else None
  }

  function ProducePass(cfg: Config, w: World, time: uint64, clock: Clock): Progress {
    Pass(cfg, NextHeader(cfg, w.chain.head, time), Begin(w.state.accounts, w.gateway, w.pool, w.chain.index), w.pool,
         clock)
  }

  /** One block: the pass over the pool, then head, block and receipts are stored. */
  function Produce(cfg: Config, w: World, time: uint64, clock: Clock): World {
    var p := ProducePass(cfg, w, time, clock);
    var b := Block(NextHeader(cfg, w.chain.head, time), p.included);
    var c := SetHead(w.chain.(index := p.index), b);
    World(w.state.(accounts := p.accounts), p.gateway, p.pool,
          c.(receipts := c.receipts[b.header.number := p.receipts]), w.eth)
  }

  /**
   * Replay: a stored block, executed alone from the parent ledger under the invoice terms of that time or any
   * that extend them, is accepted whole and gives exactly the ledger its production left.
   */
  lemma BlockReplays(cfg: Config, w: World, time: uint64, clock: Clock, later: map<uint64, Terms>)
    requires Extends(TermsOf(w.gateway), later)
    ensures var w' := Produce(cfg, w, time, clock);
            Validate(cfg, w.state.accounts, later, w'.chain.head.transactions) == Some(w'.state.accounts)
  {
    var header := NextHeader(cfg, w.chain.head, time);
    Replay(cfg, header, Begin(w.state.accounts, w.gateway, w.pool, w.chain.index), w.pool, clock);
    ValidateLater(cfg, w.state.accounts, TermsOf(w.gateway), later,
                  Produce(cfg, w, time, clock).chain.head.transactions);
  }

  /** The ledger a block leaves does not depend on invoice statuses or clock readings. */
  lemma LedgerIgnoresStatus(cfg: Config, w: World, v: World, time: uint64, clock: Clock, clock': Clock)
    requires v == w.(gateway := v.gateway) && TermsOf(v.gateway) == TermsOf(w.gateway)
    ensures Produce(cfg, v, time, clock').chain.head == Produce(cfg, w, time, clock).chain.head
    ensures Produce(cfg, v, time, clock').state == Produce(cfg, w, time, clock).state
  {
    PassIgnoresStatus(cfg, NextHeader(cfg, w.chain.head, time),
                      Begin(w.state.accounts, w.gateway, w.pool, w.chain.index),
                      Begin(w.state.accounts, v.gateway, w.pool, w.chain.index), w.pool, clock, clock');
  }

  lemma {:induction false} PassIgnoresStatus(cfg: Config, header: Header, p: Progress, q: Progress, txs: seq<Tx>,
                                             clock: Clock, clock': Clock)
    requires p.included == q.included == [] && p.accounts == q.accounts && TermsOf(p.gateway) == TermsOf(q.gateway)
    ensures Pass(cfg, header, p, txs, clock).included == Pass(cfg, header, q, txs, clock').included
    ensures Pass(cfg, header, p, txs, clock).accounts == Pass(cfg, header, q, txs, clock').accounts
  {
    if |txs| > 0 {
      var n := |txs| - 1;
      PassIgnoresStatus(cfg, header, p, q, txs[..n], clock, clock');
      Replay(cfg, header, p, txs[..n], clock);
      Replay(cfg, header, q, txs[..n], clock');
      VisitIsExecute(cfg, header, Pass(cfg, header, p, txs[..n], clock), txs[n], clock(n));
      VisitIsExecute(cfg, header, Pass(cfg, header, q, txs[..n], clock'), txs[n], clock'(n));
    }
  }

  /** Which pooled transactions the validator accepts, each on the ledger reached by its turn. */
  ghost function Acceptable(cfg: Config, w: World, time: uint64, clock: Clock): seq<bool> {
    Accepts(cfg, NextHeader(cfg, w.chain.head, time), Begin(w.state.accounts, w.gateway, w.pool, w.chain.index),
            w.pool, clock)
  }

  /**
   * Alignment: the block is the order-preserving selection of exactly the acceptable pooled transactions,
   * its receipts match one-to-one, and the pool keeps, in order, exactly those whose hash is not in it.
   */
  lemma ProduceAligns(cfg: Config, w: World, time: uint64, clock: Clock)
    ensures var w' := Produce(cfg, w, time, clock);
            var flags := Acceptable(cfg, w, time, clock);
            && |flags| == |w.pool| && w'.chain.head.transactions == Select(w.pool, flags)
            && w'.pool == Without(cfg.crypto, w.pool, HashesOf(cfg.crypto, w'.chain.head.transactions))
            && w'.chain.head.header.number in w'.chain.receipts
            && ReceiptsMatch(cfg, w'.chain.head, w'.chain.receipts[w'.chain.head.header.number])
  {
    var start := Begin(w.state.accounts, w.gateway, w.pool, w.chain.index);
    var header := NextHeader(cfg, w.chain.head, time);
    BlockIsSelection(cfg, header, start, w.pool, clock);
    PoolIsFiltered(cfg, header, start, w.pool, clock);
    ReceiptsMatchBlock(cfg, header, start, w.pool, clock);
  }

  // ---------------------------------------------------------------------------------------------
  // Chain integrity
  // ---------------------------------------------------------------------------------------------

  ghost predicate Contains(crypto: Crypto, b: Block, h: Hash) {
    h in HashesOf(crypto, b.transactions)
  }

  /** Block number n is the last stored block that contains h. */
  ghost predicate LastContaining(crypto: Crypto, c: Chain, h: Hash, n: uint64) {
    && n in c.blocks && Contains(crypto, c.blocks[n], h)
    && forall m :: m in c.blocks && Contains(crypto, c.blocks[m], h) ==> m <= n
  }

  ghost predicate Numbered(c: Chain) {
    && (forall n: uint64 :: n in c.blocks <==> n <= c.head.header.number)
    && (forall n :: n in c.blocks ==> c.blocks[n].header.number == n)
    && c.blocks[c.head.header.number] == c.head
  }

  ghost predicate Linked(crypto: Crypto, c: Chain) {
    forall n: uint64, m: uint64 :: m in c.blocks && n in c.blocks && n + 1 == m ==>
      c.blocks[m].header.parentHash == BlockHash(crypto, c.blocks[n])
  }

  /** Every block but the empty genesis has its receipts. */
  ghost predicate Receipted(cfg: Config, c: Chain) {
    && (0 in c.blocks ==> c.blocks[0].transactions == [])
    && (forall n :: n in c.receipts <==> n in c.blocks && n != 0)
    && (forall n :: n in c.receipts && n in c.blocks ==> ReceiptsMatch(cfg, c.blocks[n], c.receipts[n]))
  }

  /** The index agrees with a scan of all stored blocks. */
  ghost predicate IndexAgrees(crypto: Crypto, c: Chain) {
    && (forall h :: h in c.index ==> LastContaining(crypto, c, h, c.index[h]))
    && (forall n, h :: n in c.blocks && Contains(crypto, c.blocks[n], h) ==> h in c.index)
  }

  ghost predicate ChainOk(cfg: Config, c: Chain) {
    Numbered(c) && Linked(cfg.crypto, c) && Receipted(cfg, c) && IndexAgrees(cfg.crypto, c)
  }

  lemma GenesisChainOk(cfg: Config, time: uint64)
    ensures ChainOk(cfg, Genesis(cfg, time).chain)
  {
  }

  /** What one block adds to the chain. */
  lemma AppendKeepsNumbers(cfg: Config, c: Chain, b: Block)
    requires Numbered(c) && Linked(cfg.crypto, c)
    requires b.header.number == c.head.header.number + 1 && b.header.parentHash == BlockHash(cfg.crypto, c.head)
    ensures Numbered(SetHead(c, b)) && Linked(cfg.crypto, SetHead(c, b))
  {
  }

  lemma AppendKeepsIndex(crypto: Crypto, c: Chain, b: Block, index: map<Hash, uint64>)
    requires Numbered(c) && IndexAgrees(crypto, c) && b.header.number == c.head.header.number + 1
    requires Indexed(crypto, c.index, index, b.transactions, b.header.number)
    ensures IndexAgrees(crypto, SetHead(c.(index := index), b))
  {
    var c' := SetHead(c.(index := index), b);
    forall h | h in index ensures LastContaining(crypto, c', h, index[h]) {
      if !Contains(crypto, b, h) {
        assert LastContaining(crypto, c, h, index[h]);
      }
    }
    forall n, h | n in c'.blocks && Contains(crypto, c'.blocks[n], h) ensures h in index {
      if n != b.header.number {
        assert h in c.index;
      }
    }
  }

  /** Producing a block keeps the chain in order. */
  lemma ProduceKeepsChain(cfg: Config, w: World, time: uint64, clock: Clock)
    requires ChainOk(cfg, w.chain) && w.chain.head.header.number + 1 < U64
    ensures ChainOk(cfg, Produce(cfg, w, time, clock).chain)
  {
    var header := NextHeader(cfg, w.chain.head, time);
    var start := Begin(w.state.accounts, w.gateway, w.pool, w.chain.index);
    var p := ProducePass(cfg, w, time, clock);
    PassIndexes(cfg, header, start, w.pool, clock);
    ReceiptsMatchBlock(cfg, header, start, w.pool, clock);
    AppendKeepsNumbers(cfg, w.chain, Block(header, p.included));
    AppendKeepsIndex(cfg.crypto, w.chain, Block(header, p.included), p.index);
  }

  /** The numbering breaks exactly at the block that wraps the uint64 number. */
  lemma ProduceKeepsNumbersIff(cfg: Config, w: World, time: uint64, clock: Clock)
    requires ChainOk(cfg, w.chain)
    ensures Numbered(Produce(cfg, w, time, clock).chain) <==> w.chain.head.header.number + 1 < U64
  {
    if w.chain.head.header.number + 1 < U64 {
      ProduceKeepsChain(cfg, w, time, clock);
    } else {
      var one: uint64 := 1;
      assert one in Produce(cfg, w, time, clock).chain.blocks;
    }
  }

  // ---------------------------------------------------------------------------------------------
  // Settlement
  // ---------------------------------------------------------------------------------------------

  /** A transaction in a block with this header accounts for the invoice's payment data. */
  ghost predicate Witnesses(cfg: Config, header: Header, it: Intent, tx: Tx) {
    && it.paid
    && it.txHash == Some(cfg.crypto.txHash(tx))
    && it.blockNumber == header.number
    && it.paidAt == header.time
    && tx.to == Some(it.merchant)
    && tx.value >= it.amount
    && ParseTag(tx.data) == Some(it.id)
    && SenderOf(cfg, tx) == Some(it.payer)
  }

  ghost predicate SettledIn(cfg: Config, b: Block, it: Intent) {
    exists tx :: tx in b.transactions && Witnesses(cfg, b.header, it, tx)
  }

  /** Every invoice with a transaction hash is witnessed by a transaction of the block it names. */
  ghost predicate Settlement(cfg: Config, g: Gateway, blocks: map<uint64, Block>) {
    forall id :: id in g.intents && g.intents[id].txHash.Some? ==>
      g.intents[id].blockNumber in blocks && SettledIn(cfg, blocks[g.intents[id].blockNumber], g.intents[id])
  }

  lemma WitnessSurvives(cfg: Config, b: Block, b': Block, it: Intent, it': Intent)
    requires SettledIn(cfg, b, it) && IntentOk(it) && IntentOk(it') && Evolves(it, it')
    requires b.header == b'.header && forall tx :: tx in b.transactions ==> tx in b'.transactions
    ensures SettledIn(cfg, b', it')
  {
  }

  /** No client call gives an invoice a transaction hash, or moves one. */
  lemma CallKeepsHashes(g: Gateway, call: Call, now: uint64, id: uint64)
    requires GatewayOk(g) && !call.MarkPaidFromTx?
    requires id in Apply(g, call, now).0.intents && Apply(g, call, now).0.intents[id].txHash.Some?
    ensures id in g.intents && g.intents[id].txHash.Some?
  {
  }

  /** One gateway call outside the producer keeps every witness. */
  lemma CallKeepsSettlement(cfg: Config, g: Gateway, call: Call, now: uint64, blocks: map<uint64, Block>)
    requires GatewayOk(g) && Settlement(cfg, g, blocks) && !call.MarkPaidFromTx?
    requires Creates(call) ==> g.counter + 1 < U64
    ensures Settlement(cfg, Apply(g, call, now).0, blocks)
  {
    var g' := Apply(g, call, now).0;
    ApplyKeepsOk(g, call, now);
    forall id | id in g'.intents && g'.intents[id].txHash.Some?
      ensures g'.intents[id].blockNumber in blocks && SettledIn(cfg, blocks[g'.intents[id].blockNumber], g'.intents[id])
    {
      CallKeepsHashes(g, call, now, id);
      var b := blocks[g.intents[id].blockNumber];
      WitnessSurvives(cfg, b, b, g.intents[id], g'.intents[id]);
    }
  }

  /** A payment that is included leaves its own witness and touches no other payment data. */
  lemma PaymentKeepsSettlement(cfg: Config, l: Accounts, g: Gateway, tx: Tx, id: uint64, header: Header, now: uint64,
                               blocks: map<uint64, Block>, included: seq<Tx>)
    requires GatewayOk(g) && SenderOf(cfg, tx).Some? && ParseTag(tx.data) == Some(id)
    requires Settlement(cfg, g, blocks[header.number := Block(header, included)])
    ensures var r := ProcessPayment(cfg, l, g, tx, SenderOf(cfg, tx).value, id, header, now);
            && GatewayOk(r.1)
            && Settlement(cfg, r.1,
                          blocks[header.number := Block(header, if r.0.Some? then included + [tx] else included)])
  {
    var from := SenderOf(cfg, tx).value;
    var r := ProcessPayment(cfg, l, g, tx, from, id, header, now);
    var shorter := blocks[header.number := Block(header, included)];
    var longer := blocks[header.number := Block(header, if r.0.Some? then included + [tx] else included)];
    PaymentGatewayStep(cfg, l, g, tx, from, id, header, now);
    forall i | i in r.1.intents && r.1.intents[i].txHash.Some?
      ensures r.1.intents[i].blockNumber in longer && SettledIn(cfg, longer[r.1.intents[i].blockNumber], r.1.intents[i])
    {
      var it, it' := g.intents[i], r.1.intents[i];
      if it.txHash.Some? {
        WitnessSurvives(cfg, shorter[it.blockNumber], longer[it.blockNumber], it, it');
      } else {
        assert (included + [tx])[|included|] == tx;
        assert Witnesses(cfg, header, it', tx);
      }
    }
  }

  /** No intent loses data, and an intent that gains a transaction hash is accounted for by tx. */
  ghost predicate GatewayGains(cfg: Config, g: Gateway, g': Gateway, header: Header, tx: Tx) {
    && GatewayOk(g') && g'.intents.Keys == g.intents.Keys
    && forall i :: i in g.intents ==>
         && Evolves(g.intents[i], g'.intents[i])
         && (g.intents[i].txHash.None? && g'.intents[i].txHash.Some? ==> Witnesses(cfg, header, g'.intents[i], tx))
  }

  ghost predicate SameHashes(g: Gateway, g': Gateway) {
    && g'.intents.Keys == g.intents.Keys
    && forall i :: i in g.intents ==> g'.intents[i].txHash == g.intents[i].txHash
  }

  lemma FetchGains(cfg: Config, g: Gateway, id: uint64, now: uint64, header: Header, tx: Tx)
    requires GatewayOk(g)
    ensures GatewayGains(cfg, g, Apply(g, GetIntent(id), now).0, header, tx)
    ensures SameHashes(g, Apply(g, GetIntent(id), now).0)
  {
    ApplyKeepsOk(g, GetIntent(id), now);
  }

  lemma MarkedIsWitnessed(cfg: Config, g: Gateway, header: Header, tx: Tx, from: Address, id: uint64)
    requires id in g.intents && g.intents[id].id == id && g.intents[id].txHash.None?
    requires SenderOf(cfg, tx) == Some(from) && ParseTag(tx.data) == Some(id) && tx.to.Some?
    ensures var mark := MarkPaidFromTx(id, from, tx.to.value, tx.value, cfg.crypto.txHash(tx), header.number);
            var it' := Apply(g, mark, header.time).0.intents[id];
            it'.txHash.Some? ==> Witnesses(cfg, header, it', tx)
  {
  }

  lemma MarkLeavesOthers(g: Gateway, mark: Call, now: uint64, i: uint64)
    requires mark.MarkPaidFromTx? && i in g.intents && i != mark.id
    ensures i in Apply(g, mark, now).0.intents && Apply(g, mark, now).0.intents[i] == g.intents[i]
  {
  }

  lemma MarkGains(cfg: Config, g: Gateway, header: Header, tx: Tx, from: Address, id: uint64)
    requires GatewayOk(g)
    requires SenderOf(cfg, tx) == Some(from) && ParseTag(tx.data) == Some(id) && tx.to.Some?
    ensures var mark := MarkPaidFromTx(id, from, tx.to.value, tx.value, cfg.crypto.txHash(tx), header.number);
            GatewayGains(cfg, g, Apply(g, mark, header.time).0, header, tx)
  {
    var mark := MarkPaidFromTx(id, from, tx.to.value, tx.value, cfg.crypto.txHash(tx), header.number);
    ApplyKeepsOk(g, mark, header.time);
    var g' := Apply(g, mark, header.time).0;
    forall i | i in g.intents && g.intents[i].txHash.None? && g'.intents[i].txHash.Some?
      ensures Witnesses(cfg, header, g'.intents[i], tx)
    {
      if i == id {
        MarkedIsWitnessed(cfg, g, header, tx, from, id);
      } else {
        MarkLeavesOthers(g, mark, header.time, i);
      }
    }
  }

  lemma GainsCompose(cfg: Config, g: Gateway, g1: Gateway, g2: Gateway, header: Header, tx: Tx)
    requires GatewayGains(cfg, g, g1, header, tx) && SameHashes(g, g1) && GatewayGains(cfg, g1, g2, header, tx)
    ensures GatewayGains(cfg, g, g2, header, tx)
  {
  }

  /** A payment leaves the gateway alone, fetches, or, when its money moves, fetches and marks. */
  lemma PaymentCalls(cfg: Config, l: Accounts, g: Gateway, tx: Tx, from: Address, id: uint64, header: Header,
                     now: uint64)
    ensures var r := ProcessPayment(cfg, l, g, tx, from, id, header, now);
            var fetched := Apply(g, GetIntent(id), now).0;
            if r.0.None? then r.1 == g || r.1 == fetched
            else
              && tx.to.Some?
              && var mark := MarkPaidFromTx(id, from, tx.to.value, tx.value, cfg.crypto.txHash(tx), header.number);
                 r.1 == Apply(fetched, mark, header.time).0
  {
  }

  /** What a payment does to the gateway. */
  lemma PaymentGatewayStep(cfg: Config, l: Accounts, g: Gateway, tx: Tx, from: Address, id: uint64, header: Header,
                           now: uint64)
    requires GatewayOk(g) && SenderOf(cfg, tx) == Some(from) && ParseTag(tx.data) == Some(id)
    ensures var r := ProcessPayment(cfg, l, g, tx, from, id, header, now);
            GatewayGains(cfg, g, r.1, header, tx) && (r.0.None? ==> SameHashes(g, r.1))
  {
    var r := ProcessPayment(cfg, l, g, tx, from, id, header, now);
    var fetched := Apply(g, GetIntent(id), now).0;
    PaymentCalls(cfg, l, g, tx, from, id, header, now);
    FetchGains(cfg, g, id, now, header, tx);
    if r.0.Some? {
      MarkGains(cfg, fetched, header, tx, from, id);
      GainsCompose(cfg, g, fetched, r.1, header, tx);
    }
  }

  lemma VisitKeepsSettlement(cfg: Config, header: Header, p: Progress, tx: Tx, now: uint64, blocks: map<uint64, Block>)
    requires GatewayOk(p.gateway)
    requires Settlement(cfg, p.gateway, blocks[header.number := Block(header, p.included)])
    ensures var p' := Visit(cfg, header, p, tx, now);
            GatewayOk(p'.gateway) && Settlement(cfg, p'.gateway, blocks[header.number := Block(header, p'.included)])
  {
    var from := SenderOf(cfg, tx);
    var tag := ParseTag(tx.data);
    if from.Some? && tag.Some? {
      PaymentKeepsSettlement(cfg, p.accounts, p.gateway, tx, tag.value, header, now, blocks, p.included);
    } else {
      LongerBlockSettles(cfg, p.gateway, header, p.included, tx, blocks);
    }
  }

  lemma LongerBlockSettles(cfg: Config, g: Gateway, header: Header, included: seq<Tx>, tx: Tx,
                           blocks: map<uint64, Block>)
    requires GatewayOk(g) && Settlement(cfg, g, blocks[header.number := Block(header, included)])
    ensures Settlement(cfg, g, blocks[header.number := Block(header, included + [tx])])
  {
  }

  lemma {:induction false} PassKeepsSettlement(cfg: Config, header: Header, p: Progress, txs: seq<Tx>, clock: Clock,
                                               blocks: map<uint64, Block>)
    requires GatewayOk(p.gateway)
    requires Settlement(cfg, p.gateway, blocks[header.number := Block(header, p.included)])
    ensures var p' := Pass(cfg, header, p, txs, clock);
            GatewayOk(p'.gateway) && Settlement(cfg, p'.gateway, blocks[header.number := Block(header, p'.included)])
  {
    if |txs| > 0 {
      var n := |txs| - 1;
      PassKeepsSettlement(cfg, header, p, txs[..n], clock, blocks);
      VisitKeepsSettlement(cfg, header, Pass(cfg, header, p, txs[..n], clock), txs[n], clock(n), blocks);
    }
  }

  lemma ProduceKeepsSettlement(cfg: Config, w: World, time: uint64, clock: Clock)
    requires Numbered(w.chain) && w.chain.head.header.number + 1 < U64
    requires GatewayOk(w.gateway) && Settlement(cfg, w.gateway, w.chain.blocks)
    ensures var w' := Produce(cfg, w, time, clock);
            GatewayOk(w'.gateway) && Settlement(cfg, w'.gateway, w'.chain.blocks)
  {
    var header := NextHeader(cfg, w.chain.head, time);
    assert header.number !in w.chain.blocks;
    PassKeepsSettlement(cfg, header, Begin(w.state.accounts, w.gateway, w.pool, w.chain.index), w.pool, clock,
                        w.chain.blocks);
  }
}
