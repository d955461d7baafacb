/** The pending transactions, appended to and rebuilt in place. */
module TxPools {
  import opened Types
  import opened Producer

  class TxPool {
    const crypto: Crypto
    var pending: seq<Tx>

    constructor (crypto: Crypto)
      ensures this.crypto == crypto && pending == []
    {
      this.crypto, pending := crypto, [];
    }

    /** A nil transaction is refused. */
    method Add(tx: Option<Tx>) returns (ok: bool)
      modifies this
      ensures ok == tx.Some?
      ensures pending == if ok then old(pending) + [tx.value] else old(pending)
    {
      if tx.None? {
        return false;
      }
      pending := pending + [tx.value];
      return true;
    }

    /** A snapshot: sequences are values, so later changes of the pool do not reach it. */
    method Pending() returns (list: seq<Tx>)
      ensures list == pending
    {
      list := pending;
    }

    method Remove(tx: Tx)
      modifies this
      ensures pending == RemoveHash(crypto, old(pending), crypto.txHash(tx))
    {
      var newList := [];
      var i := 0;
      while i < |pending|
        invariant 0 <= i <= |pending| && pending == old(pending)
        invariant newList == RemoveHash(crypto, pending[..i], crypto.txHash(tx))
      {
        var t := pending[i];
        assert pending[..i + 1][..i] == pending[..i];
        if crypto.txHash(t) != crypto.txHash(tx) {
          newList := newList + [t];
        }
        i := i + 1;
      }
      assert pending[..i] == pending;
      pending := newList;
    }
  }
}
