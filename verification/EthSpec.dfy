/** The eth_sendRawTransaction step: its own nonce table, a guarded transfer, and a record map. */
module EthSpec {
  import opened Types
  import opened Ledger

  datatype EthRecord = EthRecord(
    hash: Hash,
    from: Address,
    to: Option<Address>,
    valueWei: int,
    nonce: uint64,
    blockNumber: uint64,
    time: uint64,
    status: uint64)

  datatype EthState = EthState(nonces: map<Address, uint64>, txs: map<Hash, EthRecord>)

  const EMPTY_ETH := EthState(map[], map[])

  datatype EthOutcome =
    | Accepted(hash: Hash)
    | Undecodable
    | BadNonce(got: uint64, want: uint64)
    | InvalidTo
    | InvalidAmount
    | Insufficient

  function NonceOf(eth: EthState, a: Address): uint64 {
    if a in eth.nonces then eth.nonces[a] else 0
  }

  function RecordFor(crypto: Crypto, tx: EthTx, from: Address, head: uint64, now: uint64): EthRecord {
    EthRecord(crypto.ethHash(tx), from, tx.to, tx.value, tx.nonce, head, now, 1)
  }

  function EthSend(crypto: Crypto, l: Accounts, eth: EthState, head: uint64, tx: EthTx, now: uint64)
    : (Accounts, EthState, EthOutcome)
  {
    match crypto.ethSender(tx)
    case None => (l, eth, Undecodable)
    case Some(from) =>
      var expected := NonceOf(eth, from);
      if tx.nonce != expected then (l, eth, BadNonce(tx.nonce, expected))
      else if tx.to.None? || tx.to.value == ZERO_ADDRESS then (l, eth, InvalidTo)
      else if tx.value <= 0 then (l, eth, InvalidAmount)
      else
        match GuardedTransfer(l, GORR, from, tx.to.value, tx.value)
        case None => (l, eth, Insufficient)
        case Some(l') =>
          var h := crypto.ethHash(tx);
          (l', EthState(eth.nonces[from := WrapAdd(expected, 1)],
                        eth.txs[h := RecordFor(crypto, tx, from, head, now)]), Accepted(h))
  }

  // ---------------------------------------------------------------------------------------------
  // The nonce table against the log of accepted sends
  // ---------------------------------------------------------------------------------------------

  /** An accepted send, with the head number and time it was recorded at. */
  datatype Entry = Entry(tx: EthTx, head: uint64, now: uint64)

  /** The nonces of one sender's accepted sends, in order. */
  ghost function NoncesOf(crypto: Crypto, log: seq<Entry>, a: Address): seq<int> {
    if |log| == 0 then []
    else
      var tx := log[|log| - 1].tx;
      NoncesOf(crypto, log[..|log| - 1], a) + (if crypto.ethSender(tx) == Some(a) then [tx.nonce] else [])
  }

  ghost function FirstNumbers(n: nat): seq<int> {
    seq(n, i => i)
  }

  /** The table counts each sender's accepted sends, whose nonces are 0, 1, 2, ... without gap or repeat. */
  ghost predicate NoncesMatch(crypto: Crypto, eth: EthState, log: seq<Entry>) {
    forall a: Address :: NoncesOf(crypto, log, a) == FirstNumbers(NonceOf(eth, a))
  }

  /** No sender has 2^64 accepted sends, at which its table entry would wrap. */
  ghost predicate FewSends(crypto: Crypto, log: seq<Entry>) {
    forall a: Address :: |NoncesOf(crypto, log, a)| < U64
  }

  /** Each accepted send has its record, and there are no others. */
  ghost predicate RecordsMatch(crypto: Crypto, eth: EthState, log: seq<Entry>) {
    && |eth.txs| == |log|
    && (forall e :: e in log ==>
          && crypto.ethSender(e.tx).Some?
          && crypto.ethHash(e.tx) in eth.txs
          && eth.txs[crypto.ethHash(e.tx)] == RecordFor(crypto, e.tx, crypto.ethSender(e.tx).value, e.head, e.now))
    && (forall h :: h in eth.txs ==> exists e :: e in log && crypto.ethHash(e.tx) == h)
  }

  /** Sends that share a hash share sender and nonce. */
  ghost predicate HashesIdentify(crypto: Crypto, log: seq<Entry>) {
    forall e, f :: e in log && f in log && crypto.ethHash(e.tx) == crypto.ethHash(f.tx) ==>
      crypto.ethSender(e.tx) == crypto.ethSender(f.tx) && e.tx.nonce == f.tx.nonce
  }

  /** A sender's accepted nonces are below its table entry. */
  lemma {:induction false} LoggedNonceIsUsed(crypto: Crypto, log: seq<Entry>, e: Entry)
    requires e in log && crypto.ethSender(e.tx).Some?
    ensures (e.tx.nonce as int) in NoncesOf(crypto, log, crypto.ethSender(e.tx).value)
  {
    var n := |log| - 1;
    if log[n] == e {
      var s := NoncesOf(crypto, log, crypto.ethSender(e.tx).value);
      assert s[|s| - 1] == e.tx.nonce;
    } else {
      var i :| 0 <= i < |log| && log[i] == e;
      assert log[..n][i] == e;
      LoggedNonceIsUsed(crypto, log[..n], e);
    }
  }

  /** A refused send leaves ledger, nonce table and records alone. */
  lemma RefusedSendChangesNothing(crypto: Crypto, l: Accounts, eth: EthState, head: uint64, tx: EthTx, now: uint64)
    ensures var (l', eth', out) := EthSend(crypto, l, eth, head, tx, now);
            !out.Accepted? ==> l' == l && eth' == eth
  {
  }

  /** An accepted send has its sender's table nonce, raises it by one and stores its record. */
  lemma AcceptedSend(crypto: Crypto, l: Accounts, eth: EthState, head: uint64, tx: EthTx, now: uint64)
    requires EthSend(crypto, l, eth, head, tx, now).2.Accepted?
    ensures crypto.ethSender(tx).Some? && tx.nonce == NonceOf(eth, crypto.ethSender(tx).value)
    ensures var from := crypto.ethSender(tx).value;
            EthSend(crypto, l, eth, head, tx, now).1
            == EthState(eth.nonces[from := WrapAdd(tx.nonce, 1)],
                        eth.txs[crypto.ethHash(tx) := RecordFor(crypto, tx, from, head, now)])
  {
  }

  lemma AddNonce(crypto: Crypto, eth: EthState, log: seq<Entry>, entry: Entry, eth': EthState)
    requires NoncesMatch(crypto, eth, log) && FewSends(crypto, log + [entry])
    requires crypto.ethSender(entry.tx).Some? && entry.tx.nonce == NonceOf(eth, crypto.ethSender(entry.tx).value)
    requires eth'.nonces == eth.nonces[crypto.ethSender(entry.tx).value := WrapAdd(entry.tx.nonce, 1)]
    ensures NoncesMatch(crypto, eth', log + [entry])
  {
    assert (log + [entry])[..|log|] == log;
    forall a: Address ensures NoncesOf(crypto, log + [entry], a) == FirstNumbers(NonceOf(eth', a)) {
      assert NoncesOf(crypto, log, a) == FirstNumbers(NonceOf(eth, a));
      assert |NoncesOf(crypto, log + [entry], a)| < U64;
    }
  }

  lemma AcceptKeepsNonces(crypto: Crypto, l: Accounts, eth: EthState, log: seq<Entry>, head: uint64, tx: EthTx,
                          now: uint64)
    requires NoncesMatch(crypto, eth, log) && FewSends(crypto, log + [Entry(tx, head, now)])
    requires EthSend(crypto, l, eth, head, tx, now).2.Accepted?
    ensures NoncesMatch(crypto, EthSend(crypto, l, eth, head, tx, now).1, log + [Entry(tx, head, now)])
  {
    AcceptedSend(crypto, l, eth, head, tx, now);
    AddNonce(crypto, eth, log, Entry(tx, head, now), EthSend(crypto, l, eth, head, tx, now).1);
  }

  lemma MatchedAreFew(crypto: Crypto, eth: EthState, log: seq<Entry>)
    requires NoncesMatch(crypto, eth, log)
    ensures FewSends(crypto, log)
  {
    forall a: Address ensures |NoncesOf(crypto, log, a)| < U64 {
      assert NoncesOf(crypto, log, a) == FirstNumbers(NonceOf(eth, a));
    }
  }

  /** An earlier log holds no more sends. */
  lemma FewBefore(crypto: Crypto, log: seq<Entry>, entry: Entry)
    requires FewSends(crypto, log + [entry])
    ensures FewSends(crypto, log)
  {
    assert (log + [entry])[..|log|] == log;
    forall a: Address ensures |NoncesOf(crypto, log, a)| < U64 {
      assert |NoncesOf(crypto, log + [entry], a)| < U64;
    }
  }

  /** A logged send that shares the hash would share sender and nonce, but logged nonces are used up. */
  lemma UnusedNonceIsNew(crypto: Crypto, eth: EthState, log: seq<Entry>, entry: Entry, e: Entry)
    requires NoncesMatch(crypto, eth, log) && HashesIdentify(crypto, log + [entry]) && e in log
    requires crypto.ethSender(entry.tx).Some? && entry.tx.nonce == NonceOf(eth, crypto.ethSender(entry.tx).value)
    ensures crypto.ethHash(e.tx) != crypto.ethHash(entry.tx)
  {
    if crypto.ethHash(e.tx) == crypto.ethHash(entry.tx) {
      assert e in log + [entry] && entry in log + [entry];
      var from := crypto.ethSender(entry.tx).value;
      LoggedNonceIsUsed(crypto, log, e);
      assert false;
    }
  }

  /** Unless it collides with an earlier one, an accepted send has a new hash, so its record overwrites no other. */
  lemma AcceptedHashIsNew(crypto: Crypto, l: Accounts, eth: EthState, log: seq<Entry>, head: uint64, tx: EthTx,
                          now: uint64)
    requires NoncesMatch(crypto, eth, log) && RecordsMatch(crypto, eth, log)
    requires HashesIdentify(crypto, log + [Entry(tx, head, now)])
    requires EthSend(crypto, l, eth, head, tx, now).2.Accepted?
    ensures crypto.ethHash(tx) !in eth.txs
  {
    AcceptedSend(crypto, l, eth, head, tx, now);
    if crypto.ethHash(tx) in eth.txs {
      var e :| e in log && crypto.ethHash(e.tx) == crypto.ethHash(tx);
      UnusedNonceIsNew(crypto, eth, log, Entry(tx, head, now), e);
    }
  }

  lemma AcceptKeepsRecords(crypto: Crypto, l: Accounts, eth: EthState, log: seq<Entry>, head: uint64, tx: EthTx,
                           now: uint64)
    requires NoncesMatch(crypto, eth, log) && RecordsMatch(crypto, eth, log)
    requires HashesIdentify(crypto, log + [Entry(tx, head, now)])
    requires EthSend(crypto, l, eth, head, tx, now).2.Accepted?
    ensures RecordsMatch(crypto, EthSend(crypto, l, eth, head, tx, now).1, log + [Entry(tx, head, now)])
  {
    AcceptedHashIsNew(crypto, l, eth, log, head, tx, now);
    AcceptedSend(crypto, l, eth, head, tx, now);
    AddRecord(crypto, eth, log, Entry(tx, head, now), EthSend(crypto, l, eth, head, tx, now).1);
  }

  lemma AddRecord(crypto: Crypto, eth: EthState, log: seq<Entry>, entry: Entry, eth': EthState)
    requires RecordsMatch(crypto, eth, log) && crypto.ethSender(entry.tx).Some?
    requires crypto.ethHash(entry.tx) !in eth.txs
    requires eth'.txs == eth.txs[crypto.ethHash(entry.tx) :=
                                 RecordFor(crypto, entry.tx, crypto.ethSender(entry.tx).value, entry.head, entry.now)]
    ensures RecordsMatch(crypto, eth', log + [entry])
  {
  }
}
