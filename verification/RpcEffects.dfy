/**
 * What every ledger request and every raw send does, read off its own fields: each balance, counter, flag and
 * answer in closed form.
 */
module RpcEffects {
  import opened Types
  import opened Ledger
  import opened RpcSpec
  import Fees
  import EthSpec

  /** Wei in one whole coin. */
  const COIN: int := 1_000_000_000_000_000_000

  /** An amount that concerns one party only. */
  function Part(x: Address, party: Address, amount: int): int {
    if x == party then amount else 0
  }

  predicate Named(token: string, t: Token) {
    match t
    case GORR => token == "GORR"
    case USDCc => token == "USDCc"
  }

  predicate Known(token: string) {
    token == "GORR" || token == "USDCc"
  }

  function OrGORR(token: string): string {
    if token == "" then "GORR" else token
  }

  /** The rate in basis points as a signed 64-bit number. */
  function SignedRate(bps: uint64): int {
    (bps + 0x8000_0000_0000_0000) % 0x1_0000_0000_0000_0000 - 0x8000_0000_0000_0000
  }

  /** The fee on whole coins: a ten-thousandth of a coin per coin and basis point. */
  function CoinFee(n: int, bps: uint64): int {
    n * SignedRate(bps) * 100_000_000_000_000
  }

  function OrZero(amount: int): int {
    if amount < 0 then 0 else amount
  }

  /** The fees a withdrawal asks for: so many coins, or all that were collected. */
  function AskedFees(s: LedgerState, token: string, arg: AmountArg): int {
    match arg
    case Units(n) => n * COIN
    case Absent => if OrGORR(token) in s.collected then s.collected[OrGORR(token)] else 0
    case Unparsable => 0
  }

  predicate CanWithdraw(cfg: Config, s: LedgerState, from: Address, token: string, arg: AmountArg, t: Token) {
    var wei, name := AskedFees(s, token, arg), OrGORR(token);
    && from == cfg.admin && Named(name, t)
    && wei > 0 && name in s.collected && wei <= s.collected[name] && wei <= Balance(s.accounts, cfg.treasury, t)
  }

  predicate CanBurn(s: LedgerState, from: Address, wei: int, token: string, t: Token) {
    Named(token, t) && 0 <= wei <= Balance(s.accounts, from, t)
  }

  // ---------------------------------------------------------------------------------------------
  // Balances
  // ---------------------------------------------------------------------------------------------

  /** How a request changes one balance. */
  function BalanceChange(cfg: Config, s: LedgerState, req: Request, x: Address, t: Token): int {
    match req
    case SendNative(from, to, arg) =>
      if t == GORR && arg.Units? && 0 <= arg.n * COIN <= Balance(s.accounts, from, GORR) then
        var amount, fee := arg.n * COIN, CoinFee(arg.n, s.bps);
        Part(x, to, OrZero(amount - fee)) + Part(x, cfg.treasury, OrZero(fee)) - Part(x, from, amount)
      else 0
    case SendUSDCc(from, to, wei) =>
      if t == USDCc && !s.paused && 0 <= wei <= Balance(s.accounts, from, USDCc)
      then Part(x, to, wei) - Part(x, from, wei) else 0
    case AdminMint(from, to, wei, token) =>
      if from == cfg.admin && Named(token, t) then Part(x, to, OrZero(wei)) else 0
    case AdminBurn(from, wei, token) =>
      if from == cfg.admin && CanBurn(s, from, wei, token, t) then -Part(x, from, wei) else 0
    case AdminForceTransfer(from, target, token, arg) =>
      if && from == cfg.admin && Named(OrGORR(token), t) && arg.Units?
         && 0 < arg.n * COIN <= Balance(s.accounts, target, t)
      then Part(x, cfg.treasury, arg.n * COIN) - Part(x, target, arg.n * COIN) else 0
    case AdminMintToTreasury(from, wei, token) =>
      if from == cfg.admin && Named(token, t) then Part(x, cfg.treasury, OrZero(wei)) else 0
    case AdminWithdrawFees(from, receiver, token, arg) =>
      if CanWithdraw(cfg, s, from, token, arg, t) then
        var to, wei := if receiver.Some? then receiver.value else cfg.admin, AskedFees(s, token, arg);
        Part(x, to, wei) - Part(x, cfg.treasury, wei)
      else 0
    case SetFees(_, _) => 0
    case PauseTransfers(_, _) => 0
  }

  lemma RateIsSigned(bps: uint64)
    ensures Fees.AsInt64(bps) == SignedRate(bps)
  {
  }

  lemma FeeIsCoinFee(n: int, bps: uint64)
    ensures Fees.CalculateFee(n * COIN, bps) == CoinFee(n, bps)
  {
    Fees.FeeOnCoinsIsExact(n, bps);
    RateIsSigned(bps);
  }

  lemma CreditMoves(l: Accounts, a: Address, u: Token, amount: int, x: Address, t: Token)
    ensures Balance(Credit(l, a, u, amount), x, t)
         == Balance(l, x, t) + if t == u then Part(x, a, OrZero(amount)) else 0
    ensures GetAccount(Credit(l, a, u, amount), x).nonce == GetAccount(l, x).nonce
  {
  }

  lemma TransferMoves(l: Accounts, u: Token, from: Address, to: Address, amount: int, x: Address, t: Token)
    ensures GuardedTransfer(l, u, from, to, amount).Some? <==> 0 <= amount <= Balance(l, from, u)
    ensures GuardedTransfer(l, u, from, to, amount).Some? ==>
              var l' := GuardedTransfer(l, u, from, to, amount).value;
              && Balance(l', x, t)
                 == Balance(l, x, t) + (if t == u then Part(x, to, amount) - Part(x, from, amount) else 0)
              && GetAccount(l', x).nonce == GetAccount(l, x).nonce
  {
  }

  lemma DebitMoves(l: Accounts, from: Address, amount: int, x: Address, t: Token)
    requires 0 <= amount <= Balance(l, from, GORR)
    ensures SubBalance(l, from, GORR, amount).Some?
    ensures var l' := SubBalance(l, from, GORR, amount).value;
            && Balance(l', x, t) == Balance(l, x, t) - (if t == GORR then Part(x, from, amount) else 0)
            && GetAccount(l', x).nonce == GetAccount(l, x).nonce
  {
  }

  /** Two credits, the second only when positive. */
  lemma PayoutsMove(l: Accounts, to: Address, net: int, treasury: Address, fee: int, x: Address, t: Token)
    ensures var l1 := Credit(l, to, GORR, net);
            var l2 := if fee > 0 then Credit(l1, treasury, GORR, fee) else l1;
            && Balance(l2, x, t)
               == Balance(l, x, t)
                  + (if t == GORR then Part(x, to, OrZero(net)) + Part(x, treasury, OrZero(fee)) else 0)
            && GetAccount(l2, x).nonce == GetAccount(l, x).nonce
  {
    CreditMoves(l, to, GORR, net, x, t);
    CreditMoves(Credit(l, to, GORR, net), treasury, GORR, fee, x, t);
  }

  lemma SendNativeMoves(cfg: Config, s: LedgerState, from: Address, to: Address, n: int, x: Address, t: Token)
    requires 0 <= n * COIN <= Balance(s.accounts, from, GORR)
    ensures var req := SendNative(from, to, Units(n));
            var l := Handle(cfg, s, req).0.accounts;
            && Balance(l, x, t) == Balance(s.accounts, x, t) + BalanceChange(cfg, s, req, x, t)
            && GetAccount(l, x).nonce == GetAccount(s.accounts, x).nonce
  {
    var amount, fee := n * COIN, CoinFee(n, s.bps);
    DebitMoves(s.accounts, from, amount, x, t);
    FeeIsCoinFee(n, s.bps);
    SendNativeAccounts(cfg, s, from, to, n);
    PayoutsMove(SubBalance(s.accounts, from, GORR, amount).value, to, amount - fee, cfg.treasury, fee, x, t);
  }

  lemma SendMoves(cfg: Config, s: LedgerState, req: Request, x: Address, t: Token)
    requires req.SendNative? || req.SendUSDCc?
    ensures var l := Handle(cfg, s, req).0.accounts;
            && Balance(l, x, t) == Balance(s.accounts, x, t) + BalanceChange(cfg, s, req, x, t)
            && GetAccount(l, x).nonce == GetAccount(s.accounts, x).nonce
  {
    if req.SendUSDCc? {
      TransferMoves(s.accounts, USDCc, req.from, req.to, req.wei, x, t);
    } else if req.amount.Units? && 0 <= req.amount.n * COIN <= Balance(s.accounts, req.from, GORR) {
      SendNativeMoves(cfg, s, req.from, req.to, req.amount.n, x, t);
    }
  }

  lemma MintMoves(cfg: Config, s: LedgerState, req: Request, x: Address, t: Token)
    requires req.AdminMint? || req.AdminMintToTreasury?
    ensures var l := Handle(cfg, s, req).0.accounts;
            && Balance(l, x, t) == Balance(s.accounts, x, t) + BalanceChange(cfg, s, req, x, t)
            && GetAccount(l, x).nonce == GetAccount(s.accounts, x).nonce
  {
    if TokenOf(req.token).Some? {
      CreditMoves(s.accounts, if req.AdminMint? then req.to else cfg.treasury, TokenOf(req.token).value, req.wei, x, t);
    }
  }

  lemma BurnMoves(cfg: Config, s: LedgerState, req: Request, x: Address, t: Token)
    requires req.AdminBurn?
    ensures var l := Handle(cfg, s, req).0.accounts;
            && Balance(l, x, t) == Balance(s.accounts, x, t) + BalanceChange(cfg, s, req, x, t)
            && GetAccount(l, x).nonce == GetAccount(s.accounts, x).nonce
  {
  }

  lemma SeizureMoves(cfg: Config, s: LedgerState, req: Request, x: Address, t: Token)
    requires req.AdminForceTransfer?
    ensures var l := Handle(cfg, s, req).0.accounts;
            && Balance(l, x, t) == Balance(s.accounts, x, t) + BalanceChange(cfg, s, req, x, t)
            && GetAccount(l, x).nonce == GetAccount(s.accounts, x).nonce
  {
    if req.amount.Units? && TokenOf(TokenOrDefault(req.token)).Some? {
      var u := TokenOf(TokenOrDefault(req.token)).value;
      TransferMoves(s.accounts, u, req.target, cfg.treasury, req.amount.n * COIN, x, t);
    }
  }

  lemma WithdrawalMoves(cfg: Config, s: LedgerState, req: Request, x: Address, t: Token)
    requires req.AdminWithdrawFees?
    ensures var l := Handle(cfg, s, req).0.accounts;
            && Balance(l, x, t) == Balance(s.accounts, x, t) + BalanceChange(cfg, s, req, x, t)
            && GetAccount(l, x).nonce == GetAccount(s.accounts, x).nonce
  {
    if TokenOf(TokenOrDefault(req.token)).Some? {
      var u := TokenOf(TokenOrDefault(req.token)).value;
      var to := if req.receiver.Some? then req.receiver.value else cfg.admin;
      TransferMoves(s.accounts, u, cfg.treasury, to, AskedFees(s, req.token, req.amount), x, t);
    }
  }

  /** Every balance after every request, whether it succeeds or errs; and no request touches an account's nonce. */
  lemma RequestMoves(cfg: Config, s: LedgerState, req: Request, x: Address, t: Token)
    ensures Balance(Handle(cfg, s, req).0.accounts, x, t)
         == Balance(s.accounts, x, t) + BalanceChange(cfg, s, req, x, t)
    ensures GetAccount(Handle(cfg, s, req).0.accounts, x).nonce == GetAccount(s.accounts, x).nonce
  {
    if req.SendNative? || req.SendUSDCc? {
      SendMoves(cfg, s, req, x, t);
    } else if req.AdminForceTransfer? {
      SeizureMoves(cfg, s, req, x, t);
    } else if req.AdminWithdrawFees? {
      WithdrawalMoves(cfg, s, req, x, t);
    } else if req.AdminMint? || req.AdminMintToTreasury? {
      MintMoves(cfg, s, req, x, t);
    } else if req.AdminBurn? {
      BurnMoves(cfg, s, req, x, t);
    }
  }

  // ---------------------------------------------------------------------------------------------
  // Counters and flags
  // ---------------------------------------------------------------------------------------------

  /** How a request changes the reported supply of a token; a burn skips an unknown or too small counter. */
  function SupplyChange(cfg: Config, s: LedgerState, req: Request, k: string): int {
    match req
    case AdminMint(from, _, wei, token) => if from == cfg.admin && Known(token) && k == token then wei else 0
    case AdminBurn(from, wei, token) =>
      if && from == cfg.admin && k == token && k in s.supply && wei <= s.supply[k]
         && (CanBurn(s, from, wei, token, GORR) || CanBurn(s, from, wei, token, USDCc))
      then -wei else 0
    case _ => 0
  }

  /** How a request changes the collected fees of a token. */
  function CollectedChange(cfg: Config, s: LedgerState, req: Request, k: string): int {
    match req
    case SendNative(from, _, arg) =>
      if k == "GORR" && arg.Units? && 0 <= arg.n * COIN <= Balance(s.accounts, from, GORR)
      then OrZero(CoinFee(arg.n, s.bps)) else 0
    case AdminWithdrawFees(from, _, token, arg) =>
      if && k == OrGORR(token)
         && (CanWithdraw(cfg, s, from, token, arg, GORR) || CanWithdraw(cfg, s, from, token, arg, USDCc))
      then -AskedFees(s, token, arg) else 0
    case _ => 0
  }

  lemma SupplyMoves(cfg: Config, s: LedgerState, req: Request, k: string)
    ensures Entry(Handle(cfg, s, req).0.supply, k) == Entry(s.supply, k) + SupplyChange(cfg, s, req, k)
    ensures k in Handle(cfg, s, req).0.supply
       <==> k in s.supply || (req.AdminMint? && req.from == cfg.admin && Known(k) && k == req.token)
  {
  }

  lemma SendCollects(cfg: Config, s: LedgerState, req: Request, k: string)
    requires req.SendNative?
    ensures Entry(Handle(cfg, s, req).0.collected, k) == Entry(s.collected, k) + CollectedChange(cfg, s, req, k)
  {
    if req.amount.Units? {
      FeeIsCoinFee(req.amount.n, s.bps);
    }
  }

  lemma WithdrawalCollects(cfg: Config, s: LedgerState, req: Request, k: string)
    requires req.AdminWithdrawFees?
    ensures Entry(Handle(cfg, s, req).0.collected, k) == Entry(s.collected, k) + CollectedChange(cfg, s, req, k)
  {
  }

  lemma CollectedMoves(cfg: Config, s: LedgerState, req: Request, k: string)
    ensures Entry(Handle(cfg, s, req).0.collected, k) == Entry(s.collected, k) + CollectedChange(cfg, s, req, k)
  {
    if req.SendNative? {
      SendCollects(cfg, s, req, k);
    } else if req.AdminWithdrawFees? {
      WithdrawalCollects(cfg, s, req, k);
    }
  }

  /** Only the admin moves the pause flag and the rate, and to exactly what is asked. */
  lemma FlagsMove(cfg: Config, s: LedgerState, req: Request)
    ensures Handle(cfg, s, req).0.paused
         == if req.PauseTransfers? && req.from == cfg.admin then req.paused else s.paused
    ensures Handle(cfg, s, req).0.bps == if req.SetFees? && req.from == cfg.admin then req.bps else s.bps
  {
  }

  // ---------------------------------------------------------------------------------------------
  // Answers
  // ---------------------------------------------------------------------------------------------

  predicate IsAdminRequest(req: Request) {
    !req.SendNative? && !req.SendUSDCc?
  }

  /** The first test that fails, or the answer of success; balances are those before the request. */
  function Answer(cfg: Config, s: LedgerState, req: Request): Outcome {
    if IsAdminRequest(req) && req.from != cfg.admin then Err(AdminOnly)
    else
      match req
      case SendNative(from, to, arg) =>
        if arg.Absent? then Err(MissingAmount)
        else if arg.Unparsable? || arg.n < 0 then Err(InvalidAmount)
        else if Balance(s.accounts, from, GORR) < arg.n * COIN then Err(InsufficientBalance)
        else if s.paused then Err(TransfersPaused)
        else Sent(arg.n * COIN - CoinFee(arg.n, s.bps), CoinFee(arg.n, s.bps))
      case SendUSDCc(from, to, wei) =>
        if s.paused then Err(TransfersPaused)
        else if wei < 0 then Err(InvalidAmount)
        else if Balance(s.accounts, from, USDCc) < wei then Err(InsufficientBalance)
        else Success
      case AdminMint(_, _, _, token) => if Known(token) then Success else Err(InvalidToken)
      case AdminMintToTreasury(_, _, token) => if Known(token) then Success else Err(InvalidToken)
      case AdminBurn(from, wei, token) =>
        if !Known(token) then Err(InvalidToken)
        else if wei < 0 then Err(InvalidAmount)
        else if Balance(s.accounts, from, if token == "GORR" then GORR else USDCc) < wei then Err(InsufficientBalance)
        else Success
      case AdminForceTransfer(_, target, token, arg) =>
        if arg.Absent? then Err(MissingAmount)
        else if arg.Unparsable? || arg.n <= 0 then Err(InvalidAmount)
        else if !Known(OrGORR(token)) then Err(InvalidToken)
        else if Balance(s.accounts, target, if token == "USDCc" then USDCc else GORR) < arg.n * COIN
        then Err(InsufficientBalance)
        else if token != "USDCc" && target == 0 then Err(InvalidTarget)
        else Success
      case AdminWithdrawFees(_, receiver, token, arg) =>
        var wei := AskedFees(s, token, arg);
        if arg.Unparsable? then Err(InvalidAmount)
        else if wei <= 0 then Err(AmountNotPositive)
        else if OrGORR(token) !in s.collected || s.collected[OrGORR(token)] < wei then Err(InsufficientCollectedFees)
        else if !Known(OrGORR(token)) then Err(InvalidToken)
        else if Balance(s.accounts, cfg.treasury, if token == "USDCc" then USDCc else GORR) < wei
        then Err(TreasuryInsufficient)
        else Withdrawn(if receiver.Some? then receiver.value else cfg.admin, wei)
      case SetFees(_, _) => Success
      case PauseTransfers(_, _) => Success
  }

  lemma SendAnswers(cfg: Config, s: LedgerState, req: Request)
    requires req.SendNative? || req.SendUSDCc?
    ensures Handle(cfg, s, req).1 == Answer(cfg, s, req)
  {
    if req.SendNative? && req.amount.Units? {
      FeeIsCoinFee(req.amount.n, s.bps);
    }
  }

  lemma SeizureAnswers(cfg: Config, s: LedgerState, req: Request)
    requires req.AdminForceTransfer?
    ensures Handle(cfg, s, req).1 == Answer(cfg, s, req)
  {
  }

  lemma WithdrawalAnswers(cfg: Config, s: LedgerState, req: Request)
    requires req.AdminWithdrawFees?
    ensures Handle(cfg, s, req).1 == Answer(cfg, s, req)
  {
  }

  /** Every request is answered by its first failing test. */
  lemma RequestAnswers(cfg: Config, s: LedgerState, req: Request)
    ensures Handle(cfg, s, req).1 == Answer(cfg, s, req)
  {
    if req.SendNative? || req.SendUSDCc? {
      SendAnswers(cfg, s, req);
    } else if req.AdminForceTransfer? {
      SeizureAnswers(cfg, s, req);
    } else if req.AdminWithdrawFees? {
      WithdrawalAnswers(cfg, s, req);
    }
  }

  // ---------------------------------------------------------------------------------------------
  // Raw sends
  // ---------------------------------------------------------------------------------------------

  /** The conditions under which a raw send from this account goes through. */
  predicate RawAccepted(crypto: Crypto, l: Accounts, eth: EthSpec.EthState, tx: EthTx, from: Address) {
    && crypto.ethSender(tx) == Some(from)
    && tx.nonce == (if from in eth.nonces then eth.nonces[from] else 0)
    && tx.to.Some? && tx.to.value != 0
    && 0 < tx.value <= Balance(l, from, GORR)
  }

  /** The answer to a raw send: its hash, or the first failing test. */
  function RawAnswer(crypto: Crypto, l: Accounts, eth: EthSpec.EthState, tx: EthTx): EthSpec.EthOutcome {
    if crypto.ethSender(tx).None? then EthSpec.Undecodable
    else
      var from := crypto.ethSender(tx).value;
      var want := if from in eth.nonces then eth.nonces[from] else 0;
      if tx.nonce != want then EthSpec.BadNonce(tx.nonce, want)
      else if tx.to.None? || tx.to.value == 0 then EthSpec.InvalidTo
      else if tx.value <= 0 then EthSpec.InvalidAmount
      else if Balance(l, from, GORR) < tx.value then EthSpec.Insufficient
      else EthSpec.Accepted(crypto.ethHash(tx))
  }

  lemma RawSendAnswers(crypto: Crypto, l: Accounts, eth: EthSpec.EthState, head: uint64, tx: EthTx, now: uint64)
    ensures EthSpec.EthSend(crypto, l, eth, head, tx, now).2 == RawAnswer(crypto, l, eth, tx)
    ensures RawAnswer(crypto, l, eth, tx).Accepted? <==> exists from :: RawAccepted(crypto, l, eth, tx, from)
  {
    if RawAnswer(crypto, l, eth, tx).Accepted? {
      assert RawAccepted(crypto, l, eth, tx, crypto.ethSender(tx).value);
    }
  }

  /** An accepted send pays the receiver what it takes from the sender, and moves nothing else in the accounts. */
  lemma RawSendMoves(crypto: Crypto, l: Accounts, eth: EthSpec.EthState, head: uint64, tx: EthTx, now: uint64,
                     from: Address, x: Address, t: Token)
    requires RawAccepted(crypto, l, eth, tx, from)
    ensures var l' := EthSpec.EthSend(crypto, l, eth, head, tx, now).0;
            && Balance(l', x, t)
               == Balance(l, x, t) + (if t == GORR then Part(x, tx.to.value, tx.value) - Part(x, from, tx.value) else 0)
            && GetAccount(l', x).nonce == GetAccount(l, x).nonce
  {
    TransferMoves(l, GORR, from, tx.to.value, tx.value, x, t);
  }

  /** It raises the sender's table nonce by one, modulo 2^64, and stores one record with the send's own data. */
  lemma RawSendRecords(crypto: Crypto, l: Accounts, eth: EthSpec.EthState, head: uint64, tx: EthTx, now: uint64,
                       from: Address)
    requires RawAccepted(crypto, l, eth, tx, from)
    ensures var eth' := EthSpec.EthSend(crypto, l, eth, head, tx, now).1;
            && eth'.nonces == eth.nonces[from := (tx.nonce + 1) % 0x1_0000_0000_0000_0000]
            && eth'.txs.Keys == eth.txs.Keys + {crypto.ethHash(tx)}
            && (forall h :: h in eth.txs && h != crypto.ethHash(tx) ==> eth'.txs[h] == eth.txs[h])
            && var r := eth'.txs[crypto.ethHash(tx)];
               && r.hash == crypto.ethHash(tx) && r.from == from && r.to == tx.to && r.valueWei == tx.value
               && r.nonce == tx.nonce && r.blockNumber == head && r.time == now && r.status == 1
  {
  }
}
