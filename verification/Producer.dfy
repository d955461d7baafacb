/**
 * One block production as a value: a greedy pass over a snapshot of the pool that moves balances,
 * marks invoices, and builds block, receipts, index and pool side by side.
 */
module Producer {
  import opened Types
  import opened Ledger
  import opened GatewaySpec
  import opened PaymentTag

  // ---------------------------------------------------------------------------------------------
  // Transaction pool
  // ---------------------------------------------------------------------------------------------

  /** Drops every pooled transaction with the given hash, keeping the order of the rest. */
  function RemoveHash(crypto: Crypto, pool: seq<Tx>, h: Hash): seq<Tx> {
    if |pool| == 0 then []
    else
      var init, last := pool[..|pool| - 1], pool[|pool| - 1];
      RemoveHash(crypto, init, h) + (if crypto.txHash(last) != h then [last] else [])
  }

  /** Keeps the transactions whose hash is not in a set, in order. */
  ghost function Without(crypto: Crypto, pool: seq<Tx>, hs: set<Hash>): seq<Tx> {
    if |pool| == 0 then []
    else
      var init, last := pool[..|pool| - 1], pool[|pool| - 1];
      Without(crypto, init, hs) + (if crypto.txHash(last) !in hs then [last] else [])
  }

  lemma RemoveFromLonger(crypto: Crypto, pool: seq<Tx>, tx: Tx, h: Hash)
    ensures RemoveHash(crypto, pool + [tx], h)
         == RemoveHash(crypto, pool, h) + (if crypto.txHash(tx) != h then [tx] else [])
  {
    assert (pool + [tx])[..|pool|] == pool;
  }

  lemma {:induction false} RemoveFromWithout(crypto: Crypto, pool: seq<Tx>, hs: set<Hash>, h: Hash)
    ensures RemoveHash(crypto, Without(crypto, pool, hs), h) == Without(crypto, pool, hs + {h})
  {
    if |pool| > 0 {
      var init, last := pool[..|pool| - 1], pool[|pool| - 1];
      RemoveFromWithout(crypto, init, hs, h);
      var kept := Without(crypto, init, hs);
      if crypto.txHash(last) !in hs {
        RemoveFromLonger(crypto, kept, last, h);
      } else {
        assert kept + [] == kept;
      }
    }
  }

  lemma {:induction false} WithoutNothing(crypto: Crypto, pool: seq<Tx>)
    ensures Without(crypto, pool, {}) == pool
  {
    if |pool| > 0 {
      WithoutNothing(crypto, pool[..|pool| - 1]);
    }
  }

  // ---------------------------------------------------------------------------------------------
  // The pass
  // ---------------------------------------------------------------------------------------------

  /** The recovered sender, or the admin when recovery fails; none when there is no admin either. */
  function SenderOf(cfg: Config, tx: Tx): Option<Address> {
    match cfg.crypto.sender(tx)
    case Some(a) => Some(a)
    case None => if cfg.admin == ZERO_ADDRESS then None else Some(cfg.admin)
  }

  /** A plain transfer. */
  function ProcessGORR(l: Accounts, tx: Tx, from: Address): Option<Accounts> {
    if tx.to.None? then None else StaleTransfer(l, GORR, from, tx.to.value, tx.value)
  }

  /**
   * A payment: the invoice is fetched (and so refreshed), token and merchant are checked, the money
   * moves, and the invoice is marked; a failed mark is only logged.
   */
  function ProcessPayment(cfg: Config, l: Accounts, g: Gateway, tx: Tx, from: Address, id: uint64,
                          header: Header, now: uint64): (Option<Accounts>, Gateway)
  {
    if tx.to.None? || cfg.treasury == ZERO_ADDRESS then (None, g)
    else
      var (g', reply) := Apply(g, GetIntent(id), now);
      if !reply.Clone? || reply.intent.token != "GORR" || reply.intent.merchant != tx.to.value then (None, g')
      else
        match StalePayment(l, from, tx.to.value, cfg.treasury, tx.value)
        case None => (None, g')
        case Some(l') =>
          var mark := MarkPaidFromTx(id, from, tx.to.value, tx.value, cfg.crypto.txHash(tx), header.number);
          (Some(l'), Apply(g', mark, header.time).0)
  }

  function Process(cfg: Config, l: Accounts, g: Gateway, tx: Tx, from: Address, header: Header, now: uint64)
    : (Option<Accounts>, Gateway)
  {
    match ParseTag(tx.data)
    case Some(id) => ProcessPayment(cfg, l, g, tx, from, id, header, now)
    case None => (ProcessGORR(l, tx, from), g)
  }

  /** Everything the pass updates. */
  datatype Progress = Progress(
    accounts: Accounts,
    gateway: Gateway,
    pool: seq<Tx>,
    index: map<Hash, uint64>,
    included: seq<Tx>,
    receipts: seq<Receipt>)

  function ReceiptFor(cfg: Config, header: Header, included: seq<Tx>, tx: Tx, from: Address): Receipt
    requires tx.to.Some? && |included| > 0
  {
    Receipt(cfg.crypto.txHash(tx), BlockHash(cfg.crypto, Block(header, included)), header.number, |included| - 1,
            from, tx.to.value, tx.gas, 1)
  }

  /** One iteration of the pass; now is the clock reading a payment's invoice fetch makes. */
  function Visit(cfg: Config, header: Header, p: Progress, tx: Tx, now: uint64): Progress {
    match SenderOf(cfg, tx)
    case None => p
    case Some(from) =>
      if tx.nonce != GetAccount(p.accounts, from).nonce then p
      else
        var (moved, g) := Process(cfg, p.accounts, p.gateway, tx, from, header, now);
        if moved.None? then p.(gateway := g)
        else
          var h := cfg.crypto.txHash(tx);
          var included := p.included + [tx];
          Progress(IncreaseNonce(moved.value, from), g, RemoveHash(cfg.crypto, p.pool, h), p.index[h := header.number],
                   included, p.receipts + [ReceiptFor(cfg, header, included, tx, from)])
  }

  type Clock = nat -> uint64

  /** The pass over a snapshot; clock(i) is the reading made while visiting transaction i. */
  function Pass(cfg: Config, header: Header, p: Progress, txs: seq<Tx>, clock: Clock): Progress {
    if |txs| == 0 then p
    else
      var n := |txs| - 1;
      Visit(cfg, header, Pass(cfg, header, p, txs[..n], clock), txs[n], clock(n))
  }

  function Begin(l: Accounts, g: Gateway, pool: seq<Tx>, index: map<Hash, uint64>): Progress {
    Progress(l, g, pool, index, [], [])
  }

  // ---------------------------------------------------------------------------------------------
  // An independent validator: executes a block without pool, clock, or invoice status
  // ---------------------------------------------------------------------------------------------

  /** The part of an invoice that never changes and that acceptance looks at. */
  datatype Terms = Terms(merchant: Address, token: string)

  function TermsOf(g: Gateway): map<uint64, Terms> {
    map id | id in g.intents :: Terms(g.intents[id].merchant, g.intents[id].token)
  }

  /** One transaction, accepted or refused on ledger and invoice terms alone. */
  function Execute(cfg: Config, l: Accounts, terms: map<uint64, Terms>, tx: Tx): Option<Accounts> {
    match SenderOf(cfg, tx)
    case None => None
    case Some(from) =>
      if tx.nonce != GetAccount(l, from).nonce || tx.to.None? then None
      else
        var to := tx.to.value;
        var moved := match ParseTag(tx.data)
                     case None => StaleTransfer(l, GORR, from, to, tx.value)
                     case Some(id) =>
                       if cfg.treasury == ZERO_ADDRESS || id !in terms || terms[id] != Terms(to, "GORR") then None
                       else StalePayment(l, from, to, cfg.treasury, tx.value);
        if moved.None? then None else Some(IncreaseNonce(moved.value, from))
  }

  /** A whole block: every transaction must be accepted. */
  function Validate(cfg: Config, l: Accounts, terms: map<uint64, Terms>, txs: seq<Tx>): Option<Accounts> {
    if |txs| == 0 then Some(l)
    else
      match Validate(cfg, l, terms, txs[..|txs| - 1])
      case None => None
      case Some(l') => Execute(cfg, l', terms, txs[|txs| - 1])
  }

  lemma GatewayCallKeepsTerms(g: Gateway, call: Call, now: uint64)
    requires Subject(call).Some?
    ensures TermsOf(Apply(g, call, now).0) == TermsOf(g)
  {
  }

  /** A payment moves money on ledger and terms alone, and leaves all terms as they are. */
  lemma PaymentByTerms(cfg: Config, l: Accounts, g: Gateway, tx: Tx, from: Address, id: uint64, header: Header,
                       now: uint64)
    ensures var r := ProcessPayment(cfg, l, g, tx, from, id, header, now);
            && TermsOf(r.1) == TermsOf(g)
            && r.0 == if tx.to.None? || cfg.treasury == ZERO_ADDRESS || id !in g.intents
                         || TermsOf(g)[id] != Terms(tx.to.value, "GORR") then None
                      else StalePayment(l, from, tx.to.value, cfg.treasury, tx.value)
  {
    var g' := Apply(g, GetIntent(id), now).0;
    GatewayCallKeepsTerms(g, GetIntent(id), now);
    if tx.to.Some? {
      GatewayCallKeepsTerms(
        g', MarkPaidFromTx(id, from, tx.to.value, tx.value, cfg.crypto.txHash(tx), header.number), header.time);
    }
  }

  /** A visit includes a transaction exactly when the validator accepts it, and to the same ledger. */
  lemma VisitIsExecute(cfg: Config, header: Header, p: Progress, tx: Tx, now: uint64)
    ensures var p' := Visit(cfg, header, p, tx, now);
            var run := Execute(cfg, p.accounts, TermsOf(p.gateway), tx);
            && TermsOf(p'.gateway) == TermsOf(p.gateway)
            && p'.included == (if run.Some? then p.included + [tx] else p.included)
            && p'.accounts == (if run.Some? then run.value else p.accounts)
            && (run.None? ==> p' == p.(gateway := p'.gateway))
  {
    var from := SenderOf(cfg, tx);
    var tag := ParseTag(tx.data);
    if from.Some? && tag.Some? {
      PaymentByTerms(cfg, p.accounts, p.gateway, tx, from.value, tag.value, header, now);
    }
  }

  /** Replay: the block alone, executed from the parent ledger, is accepted whole and gives the producer's ledger. */
  lemma {:induction false} Replay(cfg: Config, header: Header, p: Progress, txs: seq<Tx>, clock: Clock)
    requires p.included == []
    ensures var p' := Pass(cfg, header, p, txs, clock);
            && TermsOf(p'.gateway) == TermsOf(p.gateway)
            && Validate(cfg, p.accounts, TermsOf(p.gateway), p'.included) == Some(p'.accounts)
  {
    if |txs| > 0 {
      var n := |txs| - 1;
      var before := Pass(cfg, header, p, txs[..n], clock);
      Replay(cfg, header, p, txs[..n], clock);
      VisitIsExecute(cfg, header, before, txs[n], clock(n));
      ValidateMore(cfg, p.accounts, TermsOf(p.gateway), before.included, txs[n]);
    }
  }

  lemma ValidateMore(cfg: Config, l: Accounts, terms: map<uint64, Terms>, txs: seq<Tx>, tx: Tx)
    ensures Validate(cfg, l, terms, txs + [tx])
         == match Validate(cfg, l, terms, txs)
            case None => None
            case Some(l') => Execute(cfg, l', terms, tx)
  {
  }

  ghost predicate Extends(terms: map<uint64, Terms>, later: map<uint64, Terms>) {
    forall id :: id in terms ==> id in later && later[id] == terms[id]
  }

  /** Invoices created later cannot invalidate a block. */
  lemma {:induction false} ValidateLater(cfg: Config, l: Accounts, terms: map<uint64, Terms>,
                                         later: map<uint64, Terms>, txs: seq<Tx>)
    requires Extends(terms, later) && Validate(cfg, l, terms, txs).Some?
    ensures Validate(cfg, l, later, txs) == Validate(cfg, l, terms, txs)
  {
    if |txs| > 0 {
      ValidateLater(cfg, l, terms, later, txs[..|txs| - 1]);
    }
  }

  // ---------------------------------------------------------------------------------------------
  // Alignment of block, snapshot, receipts, pool and index
  // ---------------------------------------------------------------------------------------------

  /** For each snapshot position: does the validator accept its transaction on the ledger reached by then? */
  ghost function Accepts(cfg: Config, header: Header, p: Progress, txs: seq<Tx>, clock: Clock): (flags: seq<bool>)
    ensures |flags| == |txs|
  {
    if |txs| == 0 then []
    else
      var n := |txs| - 1;
      var before := Pass(cfg, header, p, txs[..n], clock);
      Accepts(cfg, header, p, txs[..n], clock) + [Execute(cfg, before.accounts, TermsOf(p.gateway), txs[n]).Some?]
  }

  /** The transactions at the marked positions, in order. */
  ghost function Select(txs: seq<Tx>, flags: seq<bool>): seq<Tx>
    requires |txs| == |flags|
  {
    if |txs| == 0 then []
    else
      var n := |txs| - 1;
      Select(txs[..n], flags[..n]) + (if flags[n] then [txs[n]] else [])
  }

  /** The marked positions themselves. */
  ghost function Positions(flags: seq<bool>): seq<nat> {
    if |flags| == 0 then []
    else
      var n := |flags| - 1;
      Positions(flags[..n]) + (if flags[n] then [n] else [])
  }

  ghost predicate Increasing(s: seq<nat>) {
    forall i, j :: 0 <= i < j < |s| ==> s[i] < s[j]
  }

  /** The receipt of a block's k-th transaction. */
  ghost predicate ReceiptMatches(cfg: Config, b: Block, k: nat, r: Receipt)
    requires k < |b.transactions|
  {
    var tx := b.transactions[k];
    && r.txHash == cfg.crypto.txHash(tx)
    && r.blockHash == BlockHash(cfg.crypto, b)
    && r.blockNumber == b.header.number
    && r.transactionIndex == k
    && Some(r.from) == SenderOf(cfg, tx)
    && Some(r.to) == tx.to
    && r.status == 1
    && r.gasUsed == tx.gas
  }

  ghost predicate ReceiptsMatch(cfg: Config, b: Block, receipts: seq<Receipt>) {
    |receipts| == |b.transactions| && forall k :: 0 <= k < |receipts| ==> ReceiptMatches(cfg, b, k, receipts[k])
  }

  lemma {:induction false} PositionsIncrease(flags: seq<bool>)
    ensures Increasing(Positions(flags)) && forall k :: 0 <= k < |Positions(flags)| ==> Positions(flags)[k] < |flags|
  {
    if |flags| > 0 {
      PositionsIncrease(flags[..|flags| - 1]);
    }
  }

  lemma {:induction false} PositionsExact(flags: seq<bool>, i: nat)
    ensures i in Positions(flags) <==> i < |flags| && flags[i]
  {
    if |flags| > 0 {
      var n := |flags| - 1;
      PositionsExact(flags[..n], i);
      if flags[n] {
        assert i in Positions(flags[..n]) + [n] <==> i in Positions(flags[..n]) || i == n;
      } else {
        assert Positions(flags) == Positions(flags[..n]);
      }
    }
  }

  /** Selecting takes strictly increasing positions, exactly the marked ones. */
  lemma {:induction false} SelectIsInOrder(txs: seq<Tx>, flags: seq<bool>)
    requires |txs| == |flags|
    ensures var pos := Positions(flags);
            && Increasing(pos) && |pos| == |Select(txs, flags)|
            && (forall k :: 0 <= k < |pos| ==> pos[k] < |txs| && Select(txs, flags)[k] == txs[pos[k]])
            && (forall i: nat :: i in pos <==> i < |flags| && flags[i])
  {
    SelectAtPositions(txs, flags);
    PositionsIncrease(flags);
    forall i: nat ensures i in Positions(flags) <==> i < |flags| && flags[i] {
      PositionsExact(flags, i);
    }
  }

  lemma {:induction false} SelectAtPositions(txs: seq<Tx>, flags: seq<bool>)
    requires |txs| == |flags|
    ensures |Positions(flags)| == |Select(txs, flags)|
    ensures var pos := Positions(flags);
            forall k :: 0 <= k < |pos| ==> pos[k] < |txs| && Select(txs, flags)[k] == txs[pos[k]]
  {
    if |txs| > 0 {
      SelectAtPositions(txs[..|txs| - 1], flags[..|txs| - 1]);
    }
  }

  lemma {:induction false} AcceptsAt(cfg: Config, header: Header, p: Progress, txs: seq<Tx>, clock: Clock, i: nat)
    requires i < |txs|
    ensures Accepts(cfg, header, p, txs, clock)[i]
         == Execute(cfg, Pass(cfg, header, p, txs[..i], clock).accounts, TermsOf(p.gateway), txs[i]).Some?
  {
    var n := |txs| - 1;
    if i < n {
      AcceptsAt(cfg, header, p, txs[..n], clock, i);
      assert txs[..n][..i] == txs[..i];
    }
  }

  /** The block is the order-preserving selection of exactly the acceptable snapshot positions. */
  lemma {:induction false} BlockIsSelection(cfg: Config, header: Header, p: Progress, txs: seq<Tx>, clock: Clock)
    requires p.included == []
    ensures Pass(cfg, header, p, txs, clock).included == Select(txs, Accepts(cfg, header, p, txs, clock))
  {
    if |txs| > 0 {
      var n := |txs| - 1;
      BlockIsSelection(cfg, header, p, txs[..n], clock);
      Replay(cfg, header, p, txs[..n], clock);
      VisitIsExecute(cfg, header, Pass(cfg, header, p, txs[..n], clock), txs[n], clock(n));
      var flags := Accepts(cfg, header, p, txs, clock);
      assert flags[..n] == Accepts(cfg, header, p, txs[..n], clock);
    }
  }

  lemma VisitKeepsReceipts(cfg: Config, header: Header, p: Progress, tx: Tx, now: uint64)
    requires ReceiptsMatch(cfg, Block(header, p.included), p.receipts)
    ensures var p' := Visit(cfg, header, p, tx, now);
            ReceiptsMatch(cfg, Block(header, p'.included), p'.receipts)
  {
  }

  /** Receipts match the finished block one-to-one, although each was stamped with the hash of a shorter block. */
  lemma {:induction false} ReceiptsMatchBlock(cfg: Config, header: Header, p: Progress, txs: seq<Tx>, clock: Clock)
    requires p.included == [] && p.receipts == []
    ensures var p' := Pass(cfg, header, p, txs, clock);
            ReceiptsMatch(cfg, Block(header, p'.included), p'.receipts)
  {
    if |txs| > 0 {
      var n := |txs| - 1;
      ReceiptsMatchBlock(cfg, header, p, txs[..n], clock);
      VisitKeepsReceipts(cfg, header, Pass(cfg, header, p, txs[..n], clock), txs[n], clock(n));
    }
  }

  lemma HashesOfAppend(crypto: Crypto, txs: seq<Tx>, tx: Tx)
    ensures HashesOf(crypto, txs + [tx]) == HashesOf(crypto, txs) + {crypto.txHash(tx)}
  {
  }

  /** The pool loses exactly the transactions whose hash was included. */
  lemma {:induction false} PoolIsFiltered(cfg: Config, header: Header, p: Progress, txs: seq<Tx>, clock: Clock)
    requires p.included == []
    ensures var p' := Pass(cfg, header, p, txs, clock);
            p'.pool == Without(cfg.crypto, p.pool, HashesOf(cfg.crypto, p'.included))
  {
    if |txs| == 0 {
      assert HashesOf(cfg.crypto, []) == {};
      WithoutNothing(cfg.crypto, p.pool);
    } else {
      var n := |txs| - 1;
      var before := Pass(cfg, header, p, txs[..n], clock);
      PoolIsFiltered(cfg, header, p, txs[..n], clock);
      RemoveFromWithout(cfg.crypto, p.pool, HashesOf(cfg.crypto, before.included), cfg.crypto.txHash(txs[n]));
      HashesOfAppend(cfg.crypto, before.included, txs[n]);
    }
  }

  /** Hashes of the block point at it; all other index entries stay. */
  ghost predicate Indexed(crypto: Crypto, earlier: map<Hash, uint64>, index: map<Hash, uint64>, txs: seq<Tx>,
                          number: uint64)
  {
    && index.Keys == earlier.Keys + HashesOf(crypto, txs)
    && forall h :: h in index ==> index[h] == if h in HashesOf(crypto, txs) then number else earlier[h]
  }

  lemma {:induction false} PassIndexes(cfg: Config, header: Header, p: Progress, txs: seq<Tx>, clock: Clock)
    requires p.included == []
    ensures var p' := Pass(cfg, header, p, txs, clock);
            Indexed(cfg.crypto, p.index, p'.index, p'.included, header.number)
  {
    if |txs| > 0 {
      var n := |txs| - 1;
      var before := Pass(cfg, header, p, txs[..n], clock);
      PassIndexes(cfg, header, p, txs[..n], clock);
      HashesOfAppend(cfg.crypto, before.included, txs[n]);
    }
  }

  // ---------------------------------------------------------------------------------------------
  // Money
  // ---------------------------------------------------------------------------------------------

  /** What including a transaction adds to the GORR total. */
  function TxDrift(cfg: Config, tx: Tx): int {
    match SenderOf(cfg, tx)
    case None => 0
    case Some(from) =>
      if tx.to.None? then 0
      else if ParseTag(tx.data).Some? then PaymentDrift(from, tx.to.value, cfg.treasury, tx.value)
      else TransferDrift(from, tx.to.value, tx.value)
  }

  function BlockDrift(cfg: Config, txs: seq<Tx>): int {
    if |txs| == 0 then 0 else BlockDrift(cfg, txs[..|txs| - 1]) + TxDrift(cfg, txs[|txs| - 1])
  }

  lemma ExecuteTotal(cfg: Config, l: Accounts, terms: map<uint64, Terms>, tx: Tx, t: Token)
    requires Execute(cfg, l, terms, tx).Some?
    ensures Total(Execute(cfg, l, terms, tx).value, t) == Total(l, t) + (if t == GORR then TxDrift(cfg, tx) else 0)
  {
    var from, to := SenderOf(cfg, tx).value, tx.to.value;
    if ParseTag(tx.data).Some? {
      StalePaymentTotal(l, from, to, cfg.treasury, tx.value, t);
      TotalIncreaseNonce(StalePayment(l, from, to, cfg.treasury, tx.value).value, from, t);
    } else {
      StaleTransferTotal(l, GORR, from, to, tx.value, t);
      TotalIncreaseNonce(StaleTransfer(l, GORR, from, to, tx.value).value, from, t);
    }
  }

  /** A valid block moves the GORR total by exactly its drift, and the USDCc total not at all. */
  lemma {:induction false} ValidateTotal(cfg: Config, l: Accounts, terms: map<uint64, Terms>, txs: seq<Tx>, t: Token)
    requires Validate(cfg, l, terms, txs).Some?
    ensures Total(Validate(cfg, l, terms, txs).value, t)
            == Total(l, t) + (if t == GORR then BlockDrift(cfg, txs) else 0)
  {
    if |txs| > 0 {
      var init := txs[..|txs| - 1];
      ValidateTotal(cfg, l, terms, init, t);
      ExecuteTotal(cfg, Validate(cfg, l, terms, init).value, terms, txs[|txs| - 1], t);
    }
  }

  // ---------------------------------------------------------------------------------------------
  // Funds and mark
  // ---------------------------------------------------------------------------------------------

  /** The money of a payment moves. */
  ghost predicate Moves(cfg: Config, l: Accounts, g: Gateway, tx: Tx, from: Address, id: uint64) {
    && tx.to.Some? && cfg.treasury != ZERO_ADDRESS && id in g.intents
    && g.intents[id].token == "GORR" && g.intents[id].merchant == tx.to.value
    && tx.value <= Balance(l, from, GORR)
  }

  /**
   * When the money moves, the invoice is marked paid by this transaction exactly when it was pending, was
   * overdue neither at the fetch nor at the block time, and is covered by the value. Otherwise the fetch,
   * and for a positive value the attempted mark, may expire it, and nothing else changes.
   */
  lemma FundsAndMark(cfg: Config, l: Accounts, g: Gateway, tx: Tx, from: Address, id: uint64, header: Header,
                     now: uint64)
    requires GatewayOk(g) && Moves(cfg, l, g, tx, from, id)
    ensures ProcessPayment(cfg, l, g, tx, from, id, header, now).0.Some?
    ensures var it := g.intents[id];
            var after := ProcessPayment(cfg, l, g, tx, from, id, header, now).1.intents[id];
            var marked := && it.status == StatusPending && !Overdue(it, now) && !Overdue(it, header.time)
                          && tx.value >= it.amount;
            && (marked ==> after == it.(paid := true, status := StatusPaid, payer := from, paidAt := header.time,
                                        txHash := Some(cfg.crypto.txHash(tx)), blockNumber := header.number))
            && (!marked ==> after == Refresh(if tx.value > 0 then Refresh(it, header.time) else it, now))
  {
  }

  /** With a block time not after the fetch, the mark succeeds iff the fetched clone was pending and covered. */
  lemma MarkFollowsClone(cfg: Config, l: Accounts, g: Gateway, tx: Tx, from: Address, id: uint64, header: Header,
                         now: uint64)
    requires GatewayOk(g) && Moves(cfg, l, g, tx, from, id) && header.time <= now
    ensures var (fetched, reply) := Apply(g, GetIntent(id), now);
            var mark := MarkPaidFromTx(id, from, tx.to.value, tx.value, cfg.crypto.txHash(tx), header.number);
            && reply.Clone?
            && (Apply(fetched, mark, header.time).1 == Done
                <==> reply.intent.status == StatusPending && tx.value >= reply.intent.amount)
  {
  }
}
