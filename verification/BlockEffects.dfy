/**
 * What block production does, read off the pooled transactions, the stored invoices and the configured addresses:
 * who pays, when a transaction is included, every balance and invoice it moves, and what the block is stamped with.
 */
module BlockEffects {
  import opened Types
  import opened Ledger
  import opened GatewaySpec
  import opened PaymentTag
  import opened Producer
  import opened ChainSpec
  import opened GatewayEffects

  // ---------------------------------------------------------------------------------------------
  // Sender, conditions and money of one transaction
  // ---------------------------------------------------------------------------------------------

  /** The account pays for the transaction: the recovered sender, or without one a non-zero admin. */
  predicate Signs(cfg: Config, tx: Tx, a: Address) {
    cfg.crypto.sender(tx) == Some(a) || (cfg.crypto.sender(tx).None? && cfg.admin != 0 && a == cfg.admin)
  }

  /** The nonce is the account's, there is a receiver, the value is covered, and a payment fits its invoice. */
  predicate Qualifies(cfg: Config, l: Accounts, g: Gateway, tx: Tx, a: Address) {
    && tx.nonce == (if a in l then l[a].nonce else 0)
    && tx.to.Some?
    && tx.value <= (if a in l then l[a].gorr else 0)
    && match ParseTag(tx.data)
       case None => true
       case Some(id) =>
         && cfg.treasury != 0
         && id in g.intents && g.intents[id].token == "GORR" && g.intents[id].merchant == tx.to.value
  }

  ghost predicate Includable(cfg: Config, l: Accounts, g: Gateway, tx: Tx) {
    exists a :: Signs(cfg, tx, a) && Qualifies(cfg, l, g, tx, a)
  }

  /** A fortieth of the value, rounded towards minus infinity. */
  predicate IsShare(f: int, value: int) {
    10000 * f <= 250 * value < 10000 * f + 10000
  }

  /** How an included transaction changes one balance; of the accounts that coincide, the one written last counts. */
  function Moved(cfg: Config, tx: Tx, a: Address, f: int, x: Address, t: Token): int
    requires tx.to.Some?
  {
    if t == USDCc then 0
    else if ParseTag(tx.data).Some? then
      if x == cfg.treasury then f
      else if x == tx.to.value then tx.value - f
      else if x == a then -tx.value
      else 0
    else if x == tx.to.value then tx.value
    else if x == a then -tx.value
    else 0
  }

  /** The ledger moves so for the treasury's share of the value, and no nonce changes. */
  ghost predicate Pays(cfg: Config, tx: Tx, a: Address, l: Accounts, l': Accounts)
    requires tx.to.Some?
  {
    exists f :: IsShare(f, tx.value) && MovesBy(cfg, tx, a, f, l, l')
  }

  predicate MovesAt(cfg: Config, tx: Tx, a: Address, f: int, l: Accounts, l': Accounts, x: Address, t: Token)
    requires tx.to.Some?
  {
    && Balance(l', x, t) == Balance(l, x, t) + Moved(cfg, tx, a, f, x, t)
    && GetAccount(l', x).nonce == GetAccount(l, x).nonce
  }

  ghost predicate MovesBy(cfg: Config, tx: Tx, a: Address, f: int, l: Accounts, l': Accounts)
    requires tx.to.Some?
  {
    forall x, t :: MovesAt(cfg, tx, a, f, l, l', x, t)
  }

  lemma OneSigner(cfg: Config, tx: Tx, a: Address, b: Address)
    requires Signs(cfg, tx, a) && Signs(cfg, tx, b)
    ensures a == b
  {
  }

  lemma OneShare(f: int, g: int, value: int)
    requires IsShare(f, value) && IsShare(g, value)
    ensures f == g
  {
  }

  lemma TransferWrites(l: Accounts, from: Address, to: Address, value: int, x: Address, t: Token)
    requires value <= Balance(l, from, GORR)
    ensures StaleTransfer(l, GORR, from, to, value).Some?
    ensures var l' := IncreaseNonce(StaleTransfer(l, GORR, from, to, value).value, from);
            && Balance(l', x, t) == Balance(l, x, t) + (if t == USDCc then 0
                                                        else if x == to then value
                                                        else if x == from then -value
                                                        else 0)
            && GetAccount(l', x).nonce == GetAccount(l, x).nonce
  {
  }

  lemma PaymentWrites(l: Accounts, payer: Address, merchant: Address, treasury: Address, value: int, x: Address,
                      t: Token)
    requires value <= Balance(l, payer, GORR)
    ensures StalePayment(l, payer, merchant, treasury, value).Some?
    ensures var l' := IncreaseNonce(StalePayment(l, payer, merchant, treasury, value).value, payer);
            && Balance(l', x, t) == Balance(l, x, t) + (if t == USDCc then 0
                                                        else if x == treasury then PaymentFee(value)
                                                        else if x == merchant then value - PaymentFee(value)
                                                        else if x == payer then -value
                                                        else 0)
            && GetAccount(l', x).nonce == GetAccount(l, x).nonce
  {
  }

  lemma FeeIsShare(value: int)
    ensures IsShare(PaymentFee(value), value)
  {
  }

  /** The validator accepts exactly the transactions that some account signs and that qualify for it. */
  lemma AcceptedIff(cfg: Config, l: Accounts, g: Gateway, tx: Tx)
    ensures Execute(cfg, l, TermsOf(g), tx).Some? <==> Includable(cfg, l, g, tx)
  {
    var sender := cfg.crypto.sender(tx);
    var a := if sender.Some? then sender.value else cfg.admin;
    assert sender.Some? || cfg.admin != 0 <==> Signs(cfg, tx, a);
    if Signs(cfg, tx, a) {
      assert Execute(cfg, l, TermsOf(g), tx).Some? <==> Qualifies(cfg, l, g, tx, a);
    }
  }

  lemma AcceptedMoves(cfg: Config, l: Accounts, g: Gateway, tx: Tx, a: Address, x: Address, t: Token)
    requires Signs(cfg, tx, a) && Qualifies(cfg, l, g, tx, a)
    ensures Execute(cfg, l, TermsOf(g), tx).Some?
    ensures MovesAt(cfg, tx, a, PaymentFee(tx.value), l, Execute(cfg, l, TermsOf(g), tx).value, x, t)
  {
    if ParseTag(tx.data).Some? {
      PaymentWrites(l, a, tx.to.value, cfg.treasury, tx.value, x, t);
    } else {
      TransferWrites(l, a, tx.to.value, tx.value, x, t);
    }
  }

  lemma AcceptedPays(cfg: Config, l: Accounts, g: Gateway, tx: Tx, a: Address)
    requires Signs(cfg, tx, a) && Qualifies(cfg, l, g, tx, a)
    ensures Execute(cfg, l, TermsOf(g), tx).Some? && Pays(cfg, tx, a, l, Execute(cfg, l, TermsOf(g), tx).value)
  {
    AcceptedMoves(cfg, l, g, tx, a, a, GORR);
    var fee, l' := PaymentFee(tx.value), Execute(cfg, l, TermsOf(g), tx).value;
    FeeIsShare(tx.value);
    forall x, t ensures MovesAt(cfg, tx, a, fee, l, l', x, t) {
      AcceptedMoves(cfg, l, g, tx, a, x, t);
    }
    assert MovesBy(cfg, tx, a, fee, l, l');
  }

  // ---------------------------------------------------------------------------------------------
  // One visit
  // ---------------------------------------------------------------------------------------------

  /** A visit includes exactly the includable transactions; another one leaves all but the gateway as it was. */
  lemma VisitIncludes(cfg: Config, header: Header, p: Progress, tx: Tx, now: uint64)
    ensures var p' := Visit(cfg, header, p, tx, now);
            && (Includable(cfg, p.accounts, p.gateway, tx) <==> p'.included == p.included + [tx])
            && (!Includable(cfg, p.accounts, p.gateway, tx) ==> p' == p.(gateway := p'.gateway))
  {
    VisitIsExecute(cfg, header, p, tx, now);
    AcceptedIff(cfg, p.accounts, p.gateway, tx);
  }

  /** An included transaction is paid for by the account that signs it, which its receipt names. */
  lemma VisitPays(cfg: Config, header: Header, p: Progress, tx: Tx, now: uint64, a: Address)
    requires Signs(cfg, tx, a) && Qualifies(cfg, p.accounts, p.gateway, tx, a)
    ensures var p' := Visit(cfg, header, p, tx, now);
            && Pays(cfg, tx, a, p.accounts, p'.accounts)
            && p'.index == p.index[cfg.crypto.txHash(tx) := header.number]
            && p'.receipts == p.receipts + [Receipt(cfg.crypto.txHash(tx), cfg.crypto.headerHash(header), header.number,
                                                    |p.included|, a, tx.to.value, tx.gas, 1)]
  {
    AcceptedPays(cfg, p.accounts, p.gateway, tx, a);
    VisitIsExecute(cfg, header, p, tx, now);
  }

  /**
   * A payment among three different parties: the payer falls by the value, the treasury rises by its share, the
   * merchant by the rest, and nobody else's balance moves.
   */
  lemma PaymentSplits(cfg: Config, header: Header, p: Progress, tx: Tx, now: uint64, a: Address, id: uint64)
    requires Signs(cfg, tx, a) && Qualifies(cfg, p.accounts, p.gateway, tx, a) && ParseTag(tx.data) == Some(id)
    requires a != tx.to.value && a != cfg.treasury && cfg.treasury != tx.to.value
    ensures var l, l' := p.accounts, Visit(cfg, header, p, tx, now).accounts;
            exists f ::
              && 10000 * f <= 250 * tx.value < 10000 * f + 10000
              && Balance(l', a, GORR) == Balance(l, a, GORR) - tx.value
              && Balance(l', tx.to.value, GORR) == Balance(l, tx.to.value, GORR) + tx.value - f
              && Balance(l', cfg.treasury, GORR) == Balance(l, cfg.treasury, GORR) + f
              && forall x, t :: t == USDCc || x !in {a, tx.to.value, cfg.treasury} ==>
                   Balance(l', x, t) == Balance(l, x, t)
  {
    VisitPays(cfg, header, p, tx, now, a);
    var l' := Visit(cfg, header, p, tx, now).accounts;
    var f :| IsShare(f, tx.value) && MovesBy(cfg, tx, a, f, p.accounts, l');
    assert MovesAt(cfg, tx, a, f, p.accounts, l', cfg.treasury, GORR);
    assert MovesAt(cfg, tx, a, f, p.accounts, l', tx.to.value, GORR);
    assert MovesAt(cfg, tx, a, f, p.accounts, l', a, GORR);
    forall x, t | t == USDCc || x !in {a, tx.to.value, cfg.treasury}
      ensures Balance(l', x, t) == Balance(p.accounts, x, t)
    {
      assert MovesAt(cfg, tx, a, f, p.accounts, l', x, t);
    }
  }

  /** The invoice a payment names, after the fetch and, when the money moved, the attempted mark. */
  function Marked(cfg: Config, it: Intent, tx: Tx, a: Address, header: Header, now: uint64, moved: bool): Intent {
    var fetched := Seen(it, now);
    if !moved || tx.value <= 0 then fetched
    else
      var found := Seen(fetched, header.time);
      if found.status != StatusPending || tx.value < found.amount then found
      else Paid(found, a, header.time).(txHash := Some(cfg.crypto.txHash(tx)), blockNumber := header.number)
  }

  /** The transaction makes the producer fetch this invoice. */
  predicate Fetches(cfg: Config, l: Accounts, g: Gateway, tx: Tx, a: Address, id: uint64) {
    && ParseTag(tx.data) == Some(id) && id in g.intents && tx.to.Some? && cfg.treasury != 0
    && tx.nonce == (if a in l then l[a].nonce else 0)
  }

  lemma PaymentMarks(cfg: Config, header: Header, l: Accounts, g: Gateway, tx: Tx, now: uint64, a: Address, id: uint64)
    requires id in g.intents && tx.to.Some? && cfg.treasury != 0
    ensures var it := g.intents[id];
            var moved := it.token == "GORR" && it.merchant == tx.to.value && tx.value <= Balance(l, a, GORR);
            var (paid, g') := ProcessPayment(cfg, l, g, tx, a, id, header, now);
            && paid.Some? == moved
            && g' == g.(intents := g.intents[id := Marked(cfg, it, tx, a, header, now, moved)])
  {
    var fetched := Seen(g.intents[id], now);
    var g1 := g.(intents := g.intents[id := fetched]);
    FetchDoes(g, id, now);
    if fetched.token == "GORR" && fetched.merchant == tx.to.value && tx.value <= Balance(l, a, GORR) {
      var mark := MarkPaidFromTx(id, a, tx.to.value, tx.value, cfg.crypto.txHash(tx), header.number);
      MarkDoes(g1, mark, header.time);
    }
  }

  /** A visit touches the gateway only at the invoice it fetches. */
  lemma VisitMarks(cfg: Config, header: Header, p: Progress, tx: Tx, now: uint64, a: Address, id: uint64)
    requires Signs(cfg, tx, a) && Fetches(cfg, p.accounts, p.gateway, tx, a, id)
    ensures var after := Marked(cfg, p.gateway.intents[id], tx, a, header, now,
                                Qualifies(cfg, p.accounts, p.gateway, tx, a));
            Visit(cfg, header, p, tx, now).gateway == p.gateway.(intents := p.gateway.intents[id := after])
  {
    PaymentMarks(cfg, header, p.accounts, p.gateway, tx, now, a, id);
  }

  lemma VisitLeavesGateway(cfg: Config, header: Header, p: Progress, tx: Tx, now: uint64)
    requires forall a, id :: Signs(cfg, tx, a) ==> !Fetches(cfg, p.accounts, p.gateway, tx, a, id)
    ensures Visit(cfg, header, p, tx, now).gateway == p.gateway
  {
    var sender := cfg.crypto.sender(tx);
    var a := if sender.Some? then sender.value else cfg.admin;
    if Signs(cfg, tx, a) && ParseTag(tx.data).Some? {
      assert !Fetches(cfg, p.accounts, p.gateway, tx, a, ParseTag(tx.data).value);
    }
  }

  // ---------------------------------------------------------------------------------------------
  // A whole block
  // ---------------------------------------------------------------------------------------------

  /** The header of the block produced on a head: its hash, the next number modulo 2^64, the time, and no roots. */
  function Stamp(cfg: Config, head: Block, time: uint64): Header {
    Header(cfg.crypto.headerHash(head.header), (head.header.number + 1) % 0x1_0000_0000_0000_0000, time, 0, 0)
  }

  /** What the pass has reached when it comes to position i of the pool. */
  ghost function At(cfg: Config, w: World, time: uint64, clock: Clock, i: nat): Progress
    requires i <= |w.pool|
  {
    Pass(cfg, Stamp(cfg, w.chain.head, time), Progress(w.state.accounts, w.gateway, w.pool, w.chain.index, [], []),
         w.pool[..i], clock)
  }

  /** Between position i and the next. */
  ghost predicate StepAt(cfg: Config, w: World, time: uint64, clock: Clock, i: nat)
    requires i < |w.pool|
  {
    var p, p', tx := At(cfg, w, time, clock, i), At(cfg, w, time, clock, i + 1), w.pool[i];
    var header := Stamp(cfg, w.chain.head, time);
    && p'.included == p.included + (if Includable(cfg, p.accounts, w.gateway, tx) then [tx] else [])
    && (!Includable(cfg, p.accounts, w.gateway, tx) ==> p'.accounts == p.accounts && p'.receipts == p.receipts)
    && forall a :: Signs(cfg, tx, a) && Qualifies(cfg, p.accounts, w.gateway, tx, a) ==>
         && Pays(cfg, tx, a, p.accounts, p'.accounts)
         && p'.receipts == p.receipts + [Receipt(cfg.crypto.txHash(tx), cfg.crypto.headerHash(header), header.number,
                                                 |p.included|, a, tx.to.value, tx.gas, 1)]
  }

  lemma QualifiesByTerms(cfg: Config, l: Accounts, g: Gateway, g': Gateway, tx: Tx, a: Address)
    requires TermsOf(g) == TermsOf(g')
    ensures Qualifies(cfg, l, g, tx, a) <==> Qualifies(cfg, l, g', tx, a)
  {
    if ParseTag(tx.data).Some? {
      var id := ParseTag(tx.data).value;
      assert id in TermsOf(g) <==> id in g.intents;
      assert id in TermsOf(g') <==> id in g'.intents;
      assert id in TermsOf(g) ==> TermsOf(g)[id] == TermsOf(g')[id];
    }
  }

  lemma IncludableByTerms(cfg: Config, l: Accounts, g: Gateway, g': Gateway, tx: Tx)
    requires TermsOf(g) == TermsOf(g')
    ensures Includable(cfg, l, g, tx) <==> Includable(cfg, l, g', tx)
  {
    forall a ensures Qualifies(cfg, l, g, tx, a) <==> Qualifies(cfg, l, g', tx, a) {
      QualifiesByTerms(cfg, l, g, g', tx, a);
    }
  }

  lemma NextPosition(cfg: Config, w: World, time: uint64, clock: Clock, i: nat)
    requires i < |w.pool|
    ensures At(cfg, w, time, clock, i + 1)
         == Visit(cfg, Stamp(cfg, w.chain.head, time), At(cfg, w, time, clock, i), w.pool[i], clock(i))
    ensures TermsOf(At(cfg, w, time, clock, i).gateway) == TermsOf(w.gateway)
  {
    assert w.pool[..i + 1][..i] == w.pool[..i];
    Replay(cfg, Stamp(cfg, w.chain.head, time),
           Progress(w.state.accounts, w.gateway, w.pool, w.chain.index, [], []), w.pool[..i], clock);
  }

  lemma PaidAt(cfg: Config, w: World, time: uint64, clock: Clock, i: nat, a: Address)
    requires i < |w.pool| && Signs(cfg, w.pool[i], a)
    requires Qualifies(cfg, At(cfg, w, time, clock, i).accounts, w.gateway, w.pool[i], a)
    ensures var p, p', tx := At(cfg, w, time, clock, i), At(cfg, w, time, clock, i + 1), w.pool[i];
            var header := Stamp(cfg, w.chain.head, time);
            && Pays(cfg, tx, a, p.accounts, p'.accounts)
            && p'.receipts == p.receipts + [Receipt(cfg.crypto.txHash(tx), cfg.crypto.headerHash(header), header.number,
                                                    |p.included|, a, tx.to.value, tx.gas, 1)]
  {
    var p := At(cfg, w, time, clock, i);
    NextPosition(cfg, w, time, clock, i);
    QualifiesByTerms(cfg, p.accounts, w.gateway, p.gateway, w.pool[i], a);
    VisitPays(cfg, Stamp(cfg, w.chain.head, time), p, w.pool[i], clock(i), a);
  }

  lemma IncludedAt(cfg: Config, w: World, time: uint64, clock: Clock, i: nat)
    requires i < |w.pool|
    ensures var p, p', tx := At(cfg, w, time, clock, i), At(cfg, w, time, clock, i + 1), w.pool[i];
            && p'.included == p.included + (if Includable(cfg, p.accounts, w.gateway, tx) then [tx] else [])
            && (!Includable(cfg, p.accounts, w.gateway, tx) ==> p'.accounts == p.accounts && p'.receipts == p.receipts)
  {
    var p := At(cfg, w, time, clock, i);
    NextPosition(cfg, w, time, clock, i);
    IncludableByTerms(cfg, p.accounts, w.gateway, p.gateway, w.pool[i]);
    VisitIncludes(cfg, Stamp(cfg, w.chain.head, time), p, w.pool[i], clock(i));
  }

  /** At every position of the pool: included exactly when includable on the ledger reached, and paid for so. */
  lemma EachPosition(cfg: Config, w: World, time: uint64, clock: Clock, i: nat)
    requires i < |w.pool|
    ensures StepAt(cfg, w, time, clock, i)
  {
    IncludedAt(cfg, w, time, clock, i);
    forall a | Signs(cfg, w.pool[i], a)
               && Qualifies(cfg, At(cfg, w, time, clock, i).accounts, w.gateway, w.pool[i], a)
      ensures var p, p', tx := At(cfg, w, time, clock, i), At(cfg, w, time, clock, i + 1), w.pool[i];
              var header := Stamp(cfg, w.chain.head, time);
              && Pays(cfg, tx, a, p.accounts, p'.accounts)
              && p'.receipts == p.receipts + [Receipt(cfg.crypto.txHash(tx), cfg.crypto.headerHash(header),
                                                      header.number, |p.included|, a, tx.to.value, tx.gas, 1)]
    {
      PaidAt(cfg, w, time, clock, i, a);
    }
  }

  /**
   * A production starts from the node's ledger, makes one step at each position of the pool, and stores block,
   * ledger, receipts and index as they are at the last; the rest of the node stays.
   */
  lemma ProductionEffects(cfg: Config, w: World, time: uint64, clock: Clock)
    ensures At(cfg, w, time, clock, 0).accounts == w.state.accounts
    ensures At(cfg, w, time, clock, 0).included == [] && At(cfg, w, time, clock, 0).receipts == []
    ensures forall i :: 0 <= i < |w.pool| ==> StepAt(cfg, w, time, clock, i)
    ensures var w', end := Produce(cfg, w, time, clock), At(cfg, w, time, clock, |w.pool|);
            var b := Block(Stamp(cfg, w.chain.head, time), end.included);
            && w'.state == w.state.(accounts := end.accounts) && w'.eth == w.eth
            && w'.gateway == end.gateway && w'.pool == end.pool
            && w'.chain.head == b && w'.chain.blocks == w.chain.blocks[b.header.number := b]
            && w'.chain.receipts == w.chain.receipts[b.header.number := end.receipts]
            && w'.chain.index == end.index
  {
    assert w.pool[..|w.pool|] == w.pool;
    forall i | 0 <= i < |w.pool| ensures StepAt(cfg, w, time, clock, i) {
      EachPosition(cfg, w, time, clock, i);
    }
  }

  /** Every receipt of a block names the account that signs its transaction. */
  lemma ReceiptsNameSigners(cfg: Config, w: World, time: uint64, clock: Clock, k: nat)
    requires k < |Produce(cfg, w, time, clock).chain.head.transactions|
    ensures var c := Produce(cfg, w, time, clock).chain;
            && c.head.header.number in c.receipts && |c.receipts[c.head.header.number]| == |c.head.transactions|
            && Signs(cfg, c.head.transactions[k], c.receipts[c.head.header.number][k].from)
  {
    ProduceAligns(cfg, w, time, clock);
    var c := Produce(cfg, w, time, clock).chain;
    assert ReceiptMatches(cfg, c.head, k, c.receipts[c.head.header.number][k]);
  }

  // ---------------------------------------------------------------------------------------------
  // Genesis
  // ---------------------------------------------------------------------------------------------

  /** 18 zeros after the coins. */
  const COIN: int := 1_000_000_000_000_000_000

  /** A node starts with these balances and nothing else. */
  lemma GenesisEffects(cfg: Config, time: uint64, x: Address)
    ensures var w := Genesis(cfg, time);
            && Balance(w.state.accounts, x, GORR)
               == (if x == 0x936808d3950Dab542bEF8E71D2d7d36A0bB538ec then 1_000_000 * COIN
                   else if x == cfg.treasury then 99_990_000_000 * COIN
                   else if x == cfg.admin then 10_000_000 * COIN
                   else 0)
            && Balance(w.state.accounts, x, USDCc) == 0 && GetAccount(w.state.accounts, x).nonce == 0
            && !w.state.paused && w.state.bps == 0 && w.state.supply == map[] && w.state.collected == map[]
            && w.gateway.intents == map[] && w.gateway.counter == 0 && w.gateway.expirySeconds == 900
            && w.pool == [] && w.eth.nonces == map[] && w.eth.txs == map[]
            && w.chain.head.transactions == [] && w.chain.head.header == Header(0, 0, time, 0, 0)
            && w.chain.blocks == map[0 := w.chain.head] && w.chain.receipts == map[] && w.chain.index == map[]
  {
  }

  // ---------------------------------------------------------------------------------------------
  // The tag, spelled out
  // ---------------------------------------------------------------------------------------------

  ghost predicate Spells(data: seq<byte>, s: string) {
    |data| == |s| && forall i :: 0 <= i < |s| ==> data[i] as int == s[i] as int
  }

  ghost predicate IsNumeral(s: seq<byte>) {
    |s| > 0 && forall i :: 0 <= i < |s| ==> '0' as int <= s[i] as int <= '9' as int
  }

  function PowerOfTen(k: nat): nat {
    if k == 0 then 1 else 10 * PowerOfTen(k - 1)
  }

  /** The digits, each times its power of ten. */
  ghost function ValueOf(s: seq<byte>): int {
    if |s| == 0 then 0 else (s[0] as int - '0' as int) * PowerOfTen(|s| - 1) + ValueOf(s[1..])
  }

  lemma {:induction false} ValueOfLonger(s: seq<byte>, c: byte)
    ensures ValueOf(s + [c]) == ValueOf(s) * 10 + c as int - '0' as int
  {
    var longer := s + [c];
    if |s| == 0 {
      assert longer[1..] == [];
      assert ValueOf(longer) == (c as int - '0' as int) * PowerOfTen(0);
    } else {
      ValueOfLonger(s[1..], c);
      assert longer[1..] == s[1..] + [c];
      var d := s[0] as int - '0' as int;
      assert ValueOf(longer) == d * (10 * PowerOfTen(|s| - 1)) + ValueOf(longer[1..]);
      assert d * (10 * PowerOfTen(|s| - 1)) == d * PowerOfTen(|s| - 1) * 10;
    }
  }

  lemma {:induction false} ValueIsDenoted(s: seq<byte>)
    requires AllDigits(s)
    ensures ValueOf(s) == Denotes(s)
  {
    if |s| > 0 {
      var init := s[..|s| - 1];
      ValueIsDenoted(init);
      ValueOfLonger(init, s[|s| - 1]);
      assert s == init + [s[|s| - 1]];
    }
  }

  lemma PrefixIsText()
    ensures Spells(PREFIX, "GORR_PAY:")
  {
    assert forall i :: 0 <= i < 9 ==> PREFIX[i] as int == "GORR_PAY:"[i] as int;
  }

  /** A tag is the text GORR_PAY: and a decimal numeral below 2^64, and names the value of the numeral. */
  lemma TagIsText(data: seq<byte>, id: uint64)
    ensures ParseTag(data) == Some(id)
       <==> |data| > 9 && Spells(data[..9], "GORR_PAY:") && IsNumeral(data[9..]) && ValueOf(data[9..]) == id
  {
    if |data| > 9 {
      var digits := data[9..];
      assert Spells(data[..9], "GORR_PAY:") <==> data[..9] == PREFIX by {
        PrefixIsText();
      }
      assert PREFIX <= data <==> data[..9] == PREFIX;
      assert IsNumeral(digits) <==> AllDigits(digits);
      ParseDigitsExact(digits);
      if AllDigits(digits) {
        ValueIsDenoted(digits);
      }
    }
  }
}
