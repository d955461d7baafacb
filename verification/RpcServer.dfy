/** The RPC server's ledger handlers and the eth raw-transaction endpoint, step by step. */
module RpcServer {
  import opened Types
  import opened Ledger
  import opened Fees
  import opened RpcSpec
  import opened Blockchain
  import E = EthSpec

  class EthRPC {
    const bc: Blockchain
    var nonces: map<Address, uint64>
    var txs: map<Hash, E.EthRecord>

    ghost function View(): E.EthState
      reads this
    {
      E.EthState(nonces, txs)
    }

    constructor (bc: Blockchain)
      ensures this.bc == bc && View() == E.EMPTY_ETH
    {
      this.bc, nonces, txs := bc, map[], map[];
    }

    /** eth_getTransactionCount. */
    method GetTransactionCount(addr: Address) returns (nonce: uint64)
      ensures nonce == E.NonceOf(View(), addr)
    {
      if addr in nonces {
        nonce := nonces[addr];
      } else {
        nonce := 0;
      }
    }

    /** eth_sendRawTransaction, on a transaction already decoded. */
    method SendRawTransaction(tx: EthTx, now: uint64) returns (out: E.EthOutcome)
      modifies this, bc.state`accounts
      ensures (bc.state.accounts, View(), out)
           == E.EthSend(bc.cfg.crypto, old(bc.state.accounts), old(View()), bc.head.header.number, tx, now)
    {
      var sender := bc.cfg.crypto.ethSender(tx);
      if sender.None? {
        return E.Undecodable;
      }
      var from := sender.value;
      var expected := GetTransactionCount(from);
      if tx.nonce != expected {
        return E.BadNonce(tx.nonce, expected);
      }
      if tx.to.None? || tx.to.value == ZERO_ADDRESS {
        return E.InvalidTo;
      }
      if tx.value <= 0 {
        return E.InvalidAmount;
      }
      var ok := bc.state.SubBalance(from, GORR, tx.value);
      if !ok {
        return E.Insufficient;
      }
      ok := bc.state.AddBalance(tx.to.value, GORR, tx.value);
      var h := bc.cfg.crypto.ethHash(tx);
      txs := txs[h := E.EthRecord(h, from, tx.to, tx.value, tx.nonce, bc.head.header.number, now, 1)];
      nonces := nonces[from := WrapAdd(expected, 1)];
      return E.Accepted(h);
    }
  }

  class Server {
    const bc: Blockchain
    const eth: EthRPC

    constructor (bc: Blockchain)
      ensures this.bc == bc && eth.bc == bc && fresh(eth) && eth.View() == E.EMPTY_ETH
    {
      this.bc := bc;
      eth := new EthRPC(bc);
    }

    /** The router: one decoded request to its handler. */
    method Dispatch(req: Request) returns (out: Outcome)
      modifies bc.state
      ensures (bc.state.View(), out) == Handle(bc.cfg, old(bc.state.View()), req)
    {
      match req
      case SendNative(from, to, amount) => out := HandleSendNative(from, to, amount);
      case SendUSDCc(from, to, wei) => out := HandleSendUSDCc(from, to, wei);
      case AdminMint(from, to, wei, token) => out := HandleAdminMint(from, to, wei, token);
      case AdminBurn(from, wei, token) => out := HandleAdminBurn(from, wei, token);
      case AdminForceTransfer(from, target, token, amount) =>
        out := HandleAdminForceTransfer(from, target, token, amount);
      case AdminMintToTreasury(from, wei, token) => out := HandleAdminMintToTreasury(from, wei, token);
      case AdminWithdrawFees(from, receiver, token, amount) =>
        out := HandleAdminWithdrawFees(from, receiver, token, amount);
      case SetFees(from, bps) => out := HandleSetFees(from, bps);
      case PauseTransfers(from, paused) => out := HandlePauseTransfers(from, paused);
    }

    /** Moves the money first and looks at the pause flag last. */
    method HandleSendNative(from: Address, to: Address, arg: AmountArg) returns (out: Outcome)
      modifies bc.state
      ensures (bc.state.View(), out) == Handle(bc.cfg, old(bc.state.View()), SendNative(from, to, arg))
    {
      match arg {
        case Absent => return Err(MissingAmount);
        case Unparsable => return Err(InvalidAmount);
        case Units(n) =>
          var amount := n * WEI;
          var fee := CalculateFee(amount, bc.state.merchantFeeBps);
          var net := amount - fee;
          var ok := bc.state.SubBalance(from, GORR, amount);
          if !ok {
            return Err(DebitError(amount));
          }
          ok := bc.state.AddBalance(to, GORR, net);
          if fee > 0 {
            ok := bc.state.AddBalance(bc.cfg.treasury, GORR, fee);
            bc.state.AddCollectedFee("GORR", fee);
          }
          if bc.state.paused {
            return Err(TransfersPaused);
          }
          return Sent(net, fee);
      }
    }

    method HandleSendUSDCc(from: Address, to: Address, wei: int) returns (out: Outcome)
      modifies bc.state
      ensures (bc.state.View(), out) == Handle(bc.cfg, old(bc.state.View()), SendUSDCc(from, to, wei))
    {
      if bc.state.paused {
        return Err(TransfersPaused);
      }
      var ok := bc.state.SubBalance(from, USDCc, wei);
      if !ok {
        return Err(DebitError(wei));
      }
      ok := bc.state.AddBalance(to, USDCc, wei);
      return Success;
    }

    method HandleAdminMint(from: Address, to: Address, wei: int, token: string) returns (out: Outcome)
      modifies bc.state
      ensures (bc.state.View(), out) == Handle(bc.cfg, old(bc.state.View()), AdminMint(from, to, wei, token))
    {
      if from != bc.cfg.admin {
        return Err(AdminOnly);
      }
      var t := TokenOf(token);
      if t.None? {
        return Err(InvalidToken);
      }
      var ok := bc.state.AddBalance(to, t.value, wei);
      bc.state.AddSupply(token, wei);
      return Success;
    }

    method HandleAdminBurn(from: Address, wei: int, token: string) returns (out: Outcome)
      modifies bc.state
      ensures (bc.state.View(), out) == Handle(bc.cfg, old(bc.state.View()), AdminBurn(from, wei, token))
    {
      if from != bc.cfg.admin {
        return Err(AdminOnly);
      }
      var t := TokenOf(token);
      if t.None? {
        return Err(InvalidToken);
      }
      var ok := bc.state.SubBalance(from, t.value, wei);
      if !ok {
        return Err(DebitError(wei));
      }
      bc.state.SubSupply(token, wei);
      return Success;
    }

    /** The GORR branch looks at the zero target only after the funds have moved. */
    method HandleAdminForceTransfer(from: Address, target: Address, token: string, arg: AmountArg)
      returns (out: Outcome)
      modifies bc.state
      ensures (bc.state.View(), out)
              == Handle(bc.cfg, old(bc.state.View()), AdminForceTransfer(from, target, token, arg))
    {
      if from != bc.cfg.admin {
        return Err(AdminOnly);
      }
      if arg.Absent? {
        return Err(MissingAmount);
      }
      if arg.Unparsable? || arg.n <= 0 {
        return Err(InvalidAmount);
      }
      var amountWei := arg.n * WEI;
      var t := TokenOf(TokenOrDefault(token));
      if t.None? {
        return Err(InvalidToken);
      }
      var balance := bc.state.GetBalance(target, t.value);
      if balance < amountWei {
        return Err(InsufficientBalance);
      }
      var ok := bc.state.SubBalance(target, t.value, amountWei);
      ok := bc.state.AddBalance(bc.cfg.treasury, t.value, amountWei);
      if t.value == GORR && target == ZERO_ADDRESS {
        return Err(InvalidTarget);
      }
      return Success;
    }

    method HandleAdminMintToTreasury(from: Address, wei: int, token: string) returns (out: Outcome)
      modifies bc.state
      ensures (bc.state.View(), out) == Handle(bc.cfg, old(bc.state.View()), AdminMintToTreasury(from, wei, token))
    {
      if from != bc.cfg.admin {
        return Err(AdminOnly);
      }
      var t := TokenOf(token);
      if t.None? {
        return Err(InvalidToken);
      }
      var ok := bc.state.AddBalance(bc.cfg.treasury, t.value, wei);
      return Success;
    }

    method HandleAdminWithdrawFees(from: Address, receiver: Option<Address>, token: string, arg: AmountArg)
      returns (out: Outcome)
      modifies bc.state
      ensures (bc.state.View(), out)
              == Handle(bc.cfg, old(bc.state.View()), AdminWithdrawFees(from, receiver, token, arg))
    {
      if from != bc.cfg.admin {
        return Err(AdminOnly);
      }
      var name := TokenOrDefault(token);
      var to := bc.cfg.admin;
      if receiver.Some? {
        to := receiver.value;
      }
      var collected := bc.state.GetCollectedFees(name);
      var wei := collected;
      if arg.Unparsable? {
        return Err(InvalidAmount);
      }
      if arg.Units? {
        wei := arg.n * WEI;
      }
      if wei <= 0 {
        return Err(AmountNotPositive);
      }
      if collected < wei {
        return Err(InsufficientCollectedFees);
      }
      var t := TokenOf(name);
      if t.None? {
        return Err(InvalidToken);
      }
      var treasuryBal := bc.state.GetBalance(bc.cfg.treasury, t.value);
      if treasuryBal < wei {
        return Err(TreasuryInsufficient);
      }
      var ok := bc.state.SubBalance(bc.cfg.treasury, t.value, wei);
      ok := bc.state.AddBalance(to, t.value, wei);
      bc.state.SubCollectedFee(name, wei);
      return Withdrawn(to, wei);
    }

    /** The rate is stored as given, without a bound. */
    method HandleSetFees(from: Address, bps: uint64) returns (out: Outcome)
      modifies bc.state
      ensures (bc.state.View(), out) == Handle(bc.cfg, old(bc.state.View()), SetFees(from, bps))
    {
      if from != bc.cfg.admin {
        return Err(AdminOnly);
      }
      bc.state.merchantFeeBps := bps;
      return Success;
    }

    method HandlePauseTransfers(from: Address, paused: bool) returns (out: Outcome)
      modifies bc.state
      ensures (bc.state.View(), out) == Handle(bc.cfg, old(bc.state.View()), PauseTransfers(from, paused))
    {
      if from != bc.cfg.admin {
        return Err(AdminOnly);
      }
      bc.state.paused := paused;
      return Success;
    }
  }
}
