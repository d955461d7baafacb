/** The account store and the bookkeeping around it, updated in place. */
module StateStore {
  import opened Types
  import L = Ledger
  import opened RpcSpec

  class State {
    var accounts: L.Accounts
    var paused: bool
    var merchantFeeBps: uint64
    var totalSupply: map<string, int>
    var collectedFees: map<string, int>

    ghost function View(): LedgerState
      reads this
    {
      LedgerState(accounts, paused, merchantFeeBps, totalSupply, collectedFees)
    }

    constructor ()
      ensures View() == EMPTY_STATE
    {
      accounts, paused, merchantFeeBps, totalSupply, collectedFees := map[], false, 0, map[], map[];
    }

    method GetAccount(addr: Address) returns (acc: L.Account)
      ensures acc == L.GetAccount(accounts, addr)
    {
      if addr in accounts {
        acc := accounts[addr];
      } else {
        acc := L.NEW_ACCOUNT;
      }
    }

    method SaveAccount(addr: Address, acc: L.Account)
      modifies this`accounts
      ensures accounts == old(accounts)[addr := acc]
    {
      accounts := accounts[addr := acc];
    }

    method GetBalance(addr: Address, t: L.Token) returns (balance: int)
      ensures balance == L.Balance(accounts, addr, t)
    {
      var acc := GetAccount(addr);
      balance := acc.Balance(t);
    }

    /** Reads the record again and saves it whole. */
    method SetBalance(addr: Address, t: L.Token, amount: int)
      modifies this`accounts
      ensures accounts == L.SetBalance(old(accounts), addr, t, amount)
    {
      var acc := GetAccount(addr);
      acc := acc.WithBalance(t, amount);
      SaveAccount(addr, acc);
    }

    method GetNonce(addr: Address) returns (nonce: uint64)
      ensures nonce == L.GetAccount(accounts, addr).nonce
    {
      var acc := GetAccount(addr);
      nonce := acc.nonce;
    }

    method IncreaseNonce(addr: Address)
      modifies this`accounts
      ensures accounts == L.IncreaseNonce(old(accounts), addr)
    {
      var acc := GetAccount(addr);
      SaveAccount(addr, acc);
    }

    method AddBalance(addr: Address, t: L.Token, amount: int) returns (ok: bool)
      modifies this`accounts
      ensures ok <==> L.AddBalance(old(accounts), addr, t, amount).Some?
      ensures accounts == L.Credit(old(accounts), addr, t, amount)
    {
      if amount < 0 {
        return false;
      }
      var cur := GetBalance(addr, t);
      SetBalance(addr, t, cur + amount);
      return true;
    }

    method SubBalance(addr: Address, t: L.Token, amount: int) returns (ok: bool)
      modifies this`accounts
      ensures ok <==> L.SubBalance(old(accounts), addr, t, amount).Some?
      ensures accounts == if ok then L.SubBalance(old(accounts), addr, t, amount).value else old(accounts)
    {
      if amount < 0 {
        return false;
      }
      var cur := GetBalance(addr, t);
      if cur < amount {
        return false;
      }
      SetBalance(addr, t, cur - amount);
      return true;
    }

    method AddSupply(token: string, amount: int)
      modifies this`totalSupply
      ensures View() == RpcSpec.AddSupply(old(View()), token, amount)
    {
      if token !in totalSupply {
        totalSupply := totalSupply[token := 0];
      }
      totalSupply := totalSupply[token := totalSupply[token] + amount];
    }

    method SubSupply(token: string, amount: int)
      modifies this`totalSupply
      ensures View() == RpcSpec.SubSupply(old(View()), token, amount)
    {
      if token !in totalSupply || totalSupply[token] < amount {
        return;
      }
      totalSupply := totalSupply[token := totalSupply[token] - amount];
    }

    method GetCollectedFees(token: string) returns (amount: int)
      ensures amount == Entry(collectedFees, token)
    {
      if token in collectedFees {
        amount := collectedFees[token];
      } else {
        amount := 0;
      }
    }

    method AddCollectedFee(token: string, amount: int)
      modifies this`collectedFees
      ensures View() == RpcSpec.AddCollectedFee(old(View()), token, amount)
    {
      if token !in collectedFees {
        collectedFees := collectedFees[token := 0];
      }
      collectedFees := collectedFees[token := collectedFees[token] + amount];
    }

    method SubCollectedFee(token: string, amount: int)
      modifies this`collectedFees
      ensures View() == RpcSpec.SubCollectedFee(old(View()), token, amount)
    {
      if amount <= 0 || token !in collectedFees {
        return;
      }
      if collectedFees[token] < amount {
        collectedFees := collectedFees[token := 0];
      } else {
        collectedFees := collectedFees[token := collectedFees[token] - amount];
      }
    }
  }

  /** The token engine, whose transfer reads both balances before it writes either. */
  class NativeTokenEngine {
    const state: State
    const treasury: Address

    constructor (state: State, treasury: Address)
      ensures this.state == state && this.treasury == treasury
    {
      this.state, this.treasury := state, treasury;
    }

    method Transfer(t: L.Token, from: Address, to: Address, amount: int) returns (ok: bool)
      modifies state`accounts
      ensures ok <==> L.StaleTransfer(old(state.accounts), t, from, to, amount).Some?
      ensures state.accounts == if ok then L.StaleTransfer(old(state.accounts), t, from, to, amount).value
                                else old(state.accounts)
    {
      var fromBal := state.GetBalance(from, t);
      if fromBal < amount {
        return false;
      }
      var toBal := state.GetBalance(to, t);
      state.SetBalance(from, t, fromBal - amount);
      state.SetBalance(to, t, toBal + amount);
      return true;
    }

    /** Treasury only; unlike the guarded helpers it accepts a negative amount. */
    method Mint(t: L.Token, to: Address, amount: int, caller: Address) returns (ok: bool)
      modifies state`accounts
      ensures ok <==> caller == treasury
      ensures var l := old(state.accounts);
              state.accounts == if ok then L.SetBalance(l, to, t, L.Balance(l, to, t) + amount) else l
      ensures forall u ::
                L.Total(state.accounts, u) == L.Total(old(state.accounts), u) + (if ok && u == t then amount else 0)
      ensures forall a, u :: a != to || u != t ==>
                L.Balance(state.accounts, a, u) == L.Balance(old(state.accounts), a, u)
    {
      if caller != treasury {
        return false;
      }
      var balance := state.GetBalance(to, t);
      state.SetBalance(to, t, balance + amount);
      forall u ensures L.Total(state.accounts, u) == L.Total(old(state.accounts), u) + (if u == t then amount else 0) {
        L.TotalSetBalance(old(state.accounts), to, t, balance + amount, u);
      }
      return true;
    }

    method Burn(t: L.Token, from: Address, amount: int, caller: Address) returns (ok: bool)
      modifies state`accounts
      ensures ok <==> caller == treasury && amount <= L.Balance(old(state.accounts), from, t)
      ensures var l := old(state.accounts);
              state.accounts == if ok then L.SetBalance(l, from, t, L.Balance(l, from, t) - amount) else l
      ensures forall u ::
                L.Total(state.accounts, u) == L.Total(old(state.accounts), u) - (if ok && u == t then amount else 0)
      ensures forall a, u :: a != from || u != t ==>
                L.Balance(state.accounts, a, u) == L.Balance(old(state.accounts), a, u)
    {
      if caller != treasury {
        return false;
      }
      var balance := state.GetBalance(from, t);
      if balance < amount {
        return false;
      }
      state.SetBalance(from, t, balance - amount);
      forall u ensures L.Total(state.accounts, u) == L.Total(old(state.accounts), u) - (if u == t then amount else 0) {
        L.TotalSetBalance(old(state.accounts), from, t, balance - amount, u);
      }
      return true;
    }
  }
}
