/** The ledger handlers of the RPC server as functions of the ledger state. */
module RpcSpec {
  import opened Types
  import opened Ledger
  import opened Fees

  /** Accounts plus the pause flag, fee rate, reported supply, and collected-fee ledger. */
  datatype LedgerState = LedgerState(
    accounts: Accounts,
    paused: bool,
    bps: uint64,
    supply: map<string, int>,
    collected: map<string, int>)

  const EMPTY_STATE := LedgerState(map[], false, 0, map[], map[])

  /** An optional whole-coin amount argument: missing, not a number, or a number. */
  datatype AmountArg = Absent | Unparsable | Units(n: int)

  datatype Error =
    | AdminOnly
    | InvalidToken
    | MissingAmount
    | InvalidAmount
    | InsufficientBalance
    | TransfersPaused
    | InvalidTarget
    | AmountNotPositive
    | InsufficientCollectedFees
    | TreasuryInsufficient

  datatype Outcome = Success | Sent(net: int, fee: int) | Withdrawn(to: Address, wei: int) | Err(error: Error)

  datatype Request =
    | SendNative(from: Address, to: Address, amount: AmountArg)
    | SendUSDCc(from: Address, to: Address, wei: int)
    | AdminMint(from: Address, to: Address, wei: int, token: string)
    | AdminBurn(from: Address, wei: int, token: string)
    | AdminForceTransfer(from: Address, target: Address, token: string, amount: AmountArg)
    | AdminMintToTreasury(from: Address, wei: int, token: string)
    | AdminWithdrawFees(from: Address, receiver: Option<Address>, token: string, amount: AmountArg)
    | SetFees(from: Address, bps: uint64)
    | PauseTransfers(from: Address, paused: bool)

  function TokenOf(name: string): Option<Token> {
    if name == "GORR" then Some(GORR) else if name == "USDCc" then Some(USDCc) else None
  }

  /** A missing token name means GORR. */
  function TokenOrDefault(name: string): string {
    if name == "" then "GORR" else name
  }

  function Entry(m: map<string, int>, token: string): int {
    if token in m then m[token] else 0
  }

  function AddSupply(s: LedgerState, token: string, amount: int): LedgerState {
    s.(supply := s.supply[token := Entry(s.supply, token) + amount])
  }

  /** A supply counter that is unknown or too small is left alone. */
  function SubSupply(s: LedgerState, token: string, amount: int): LedgerState {
    if token !in s.supply || s.supply[token] < amount then s
    else s.(supply := s.supply[token := s.supply[token] - amount])
  }

  function AddCollectedFee(s: LedgerState, token: string, amount: int): LedgerState {
    s.(collected := s.collected[token := Entry(s.collected, token) + amount])
  }

  /** Withdrawals are clamped at zero. */
  function SubCollectedFee(s: LedgerState, token: string, amount: int): LedgerState {
    if amount <= 0 || token !in s.collected then s
    else if s.collected[token] < amount then s.(collected := s.collected[token := 0])
    else s.(collected := s.collected[token := s.collected[token] - amount])
  }

  /** Why SubBalance refused. */
  function DebitError(amount: int): Error {
    if amount < 0 then InvalidAmount else InsufficientBalance
  }

  function HandleSendNative(cfg: Config, s: LedgerState, from: Address, to: Address, arg: AmountArg)
    : (LedgerState, Outcome)
  {
    match arg
    case Absent => (s, Err(MissingAmount))
    case Unparsable => (s, Err(InvalidAmount))
    case Units(n) =>
      var amount := n * WEI;
      var fee := CalculateFee(amount, s.bps);
      var net := amount - fee;
      match SubBalance(s.accounts, from, GORR, amount)
      case None => (s, Err(DebitError(amount)))
      case Some(l) =>
        var paid := s.(accounts := Credit(l, to, GORR, net));
        var done := if fee > 0
                    then AddCollectedFee(paid.(accounts := Credit(paid.accounts, cfg.treasury, GORR, fee)), "GORR", fee)
                    else paid;
        (done, if s.paused then Err(TransfersPaused) else Sent(net, fee))
  }

  function HandleSendUSDCc(s: LedgerState, from: Address, to: Address, wei: int): (LedgerState, Outcome) {
    if s.paused then (s, Err(TransfersPaused))
    else
      match GuardedTransfer(s.accounts, USDCc, from, to, wei)
      case None => (s, Err(DebitError(wei)))
      case Some(l) => (s.(accounts := l), Success)
  }

  /** Mints to any account; a negative amount is dropped by the credit but not by the supply counter. */
  function HandleAdminMint(cfg: Config, s: LedgerState, from: Address, to: Address, wei: int, token: string)
    : (LedgerState, Outcome)
  {
    if from != cfg.admin then (s, Err(AdminOnly))
    else
      match TokenOf(token)
      case None => (s, Err(InvalidToken))
      case Some(t) => (AddSupply(s.(accounts := Credit(s.accounts, to, t, wei)), token, wei), Success)
  }

  function HandleAdminBurn(cfg: Config, s: LedgerState, from: Address, wei: int, token: string)
    : (LedgerState, Outcome)
  {
    if from != cfg.admin then (s, Err(AdminOnly))
    else
      match TokenOf(token)
      case None => (s, Err(InvalidToken))
      case Some(t) =>
        match SubBalance(s.accounts, from, t, wei)
        case None => (s, Err(DebitError(wei)))
        case Some(l) => (SubSupply(s.(accounts := l), token, wei), Success)
  }

  /** Seizes funds for the treasury; the GORR branch rejects the zero target only after moving. */
  function HandleAdminForceTransfer(cfg: Config, s: LedgerState, from: Address, target: Address, token: string,
                                    arg: AmountArg)
    : (LedgerState, Outcome)
  {
    if from != cfg.admin then (s, Err(AdminOnly))
    else if arg.Absent? then (s, Err(MissingAmount))
    else if arg.Unparsable? || arg.n <= 0 then (s, Err(InvalidAmount))
    else
      match TokenOf(TokenOrDefault(token))
      case None => (s, Err(InvalidToken))
      case Some(t) =>
        match GuardedTransfer(s.accounts, t, target, cfg.treasury, arg.n * WEI)
        case None => (s, Err(InsufficientBalance))
        case Some(l) =>
          (s.(accounts := l), if t == GORR && target == ZERO_ADDRESS then Err(InvalidTarget) else Success)
  }

  function HandleAdminMintToTreasury(cfg: Config, s: LedgerState, from: Address, wei: int, token: string)
    : (LedgerState, Outcome)
  {
    if from != cfg.admin then (s, Err(AdminOnly))
    else
      match TokenOf(token)
      case None => (s, Err(InvalidToken))
      case Some(t) => (s.(accounts := Credit(s.accounts, cfg.treasury, t, wei)), Success)
  }

  function HandleAdminWithdrawFees(cfg: Config, s: LedgerState, from: Address, receiver: Option<Address>, token: string,
                                   arg: AmountArg): (LedgerState, Outcome)
  {
    if from != cfg.admin then (s, Err(AdminOnly))
    else if arg.Unparsable? then (s, Err(InvalidAmount))
    else
      var name := TokenOrDefault(token);
      var to := if receiver.Some? then receiver.value else cfg.admin;
      var wei := if arg.Units? then arg.n * WEI else Entry(s.collected, name);
      if wei <= 0 then (s, Err(AmountNotPositive))
      else if Entry(s.collected, name) < wei then (s, Err(InsufficientCollectedFees))
      else
        match TokenOf(name)
        case None => (s, Err(InvalidToken))
        case Some(t) =>
          match GuardedTransfer(s.accounts, t, cfg.treasury, to, wei)
          case None => (s, Err(TreasuryInsufficient))
          case Some(l) => (SubCollectedFee(s.(accounts := l), name, wei), Withdrawn(to, wei))
  }

  function HandleSetFees(cfg: Config, s: LedgerState, from: Address, bps: uint64): (LedgerState, Outcome) {
    if from != cfg.admin then (s, Err(AdminOnly)) else (s.(bps := bps), Success)
  }

  function HandlePauseTransfers(cfg: Config, s: LedgerState, from: Address, paused: bool): (LedgerState, Outcome) {
    if from != cfg.admin then (s, Err(AdminOnly)) else (s.(paused := paused), Success)
  }

  function Handle(cfg: Config, s: LedgerState, req: Request): (LedgerState, Outcome) {
    match req
    case SendNative(from, to, amount) => HandleSendNative(cfg, s, from, to, amount)
    case SendUSDCc(from, to, wei) => HandleSendUSDCc(s, from, to, wei)
    case AdminMint(from, to, wei, token) => HandleAdminMint(cfg, s, from, to, wei, token)
    case AdminBurn(from, wei, token) => HandleAdminBurn(cfg, s, from, wei, token)
    case AdminForceTransfer(from, target, token, amount) =>
      HandleAdminForceTransfer(cfg, s, from, target, token, amount)
    case AdminMintToTreasury(from, wei, token) => HandleAdminMintToTreasury(cfg, s, from, wei, token)
    case AdminWithdrawFees(from, receiver, token, amount) =>
      HandleAdminWithdrawFees(cfg, s, from, receiver, token, amount)
    case SetFees(from, bps) => HandleSetFees(cfg, s, from, bps)
    case PauseTransfers(from, paused) => HandlePauseTransfers(cfg, s, from, paused)
  }

  // ---------------------------------------------------------------------------------------------
  // What each request does to the money
  // ---------------------------------------------------------------------------------------------

  /** The native send's debit is accepted. */
  predicate SendAccepted(s: LedgerState, req: Request) {
    req.SendNative? && req.amount.Units? && 0 <= req.amount.n * WEI <= Balance(s.accounts, req.from, GORR)
  }

  /** Tokens a request creates on purpose: mints minus burns. */
  function Issued(cfg: Config, s: LedgerState, req: Request, t: Token): int {
    match req
    case AdminMint(from, _, wei, token) => if from == cfg.admin && TokenOf(token) == Some(t) && wei >= 0 then wei else 0
    case AdminMintToTreasury(from, wei, token) =>
      if from == cfg.admin && TokenOf(token) == Some(t) && wei >= 0 then wei else 0
    case AdminBurn(from, wei, token) =>
      if from == cfg.admin && TokenOf(token) == Some(t) && 0 <= wei <= Balance(s.accounts, from, t) then -wei else 0
    case _ => 0
  }

  /** Tokens a request creates by accident: the excess of a fee rate outside 0% to 100%. */
  function RequestDrift(s: LedgerState, req: Request): int {
    if SendAccepted(s, req) then SendDrift(req.amount.n, s.bps) else 0
  }

  /** The accounts an accepted native send leaves. */
  lemma SendNativeAccounts(cfg: Config, s: LedgerState, from: Address, to: Address, n: int)
    requires SubBalance(s.accounts, from, GORR, n * WEI).Some?
    ensures var fee := CalculateFee(n * WEI, s.bps);
            var paid := Credit(SubBalance(s.accounts, from, GORR, n * WEI).value, to, GORR, n * WEI - fee);
            HandleSendNative(cfg, s, from, to, Units(n)).0.accounts
            == if fee > 0 then Credit(paid, cfg.treasury, GORR, fee) else paid
  {
  }

  lemma PaidTotal(cfg: Config, l: Accounts, to: Address, amount: int, fee: int, t: Token)
    ensures var paid := Credit(l, to, GORR, amount - fee);
            Total(if fee > 0 then Credit(paid, cfg.treasury, GORR, fee) else paid, t)
            == Total(l, t) + (if t == GORR then Credited(amount, fee) else 0)
  {
    TotalCredit(l, to, GORR, amount - fee, t);
    TotalCredit(Credit(l, to, GORR, amount - fee), cfg.treasury, GORR, fee, t);
  }

  lemma SendNativeTotal(cfg: Config, s: LedgerState, from: Address, to: Address, n: int, t: Token)
    requires SubBalance(s.accounts, from, GORR, n * WEI).Some?
    ensures Total(HandleSendNative(cfg, s, from, to, Units(n)).0.accounts, t)
         == Total(s.accounts, t) + (if t == GORR then SendDrift(n, s.bps) else 0)
  {
    SendNativeAccounts(cfg, s, from, to, n);
    TotalSetBalance(s.accounts, from, GORR, Balance(s.accounts, from, GORR) - n * WEI, t);
    PaidTotal(cfg, SubBalance(s.accounts, from, GORR, n * WEI).value, to, n * WEI, CalculateFee(n * WEI, s.bps), t);
    SendDriftIsExact(n, s.bps);
  }

  lemma MintTotal(cfg: Config, s: LedgerState, req: Request, t: Token)
    requires req.AdminMint? || req.AdminMintToTreasury?
    ensures Total(Handle(cfg, s, req).0.accounts, t) == Total(s.accounts, t) + Issued(cfg, s, req, t)
  {
    var u := TokenOf(req.token);
    if u.Some? && req.from == cfg.admin {
      var to := if req.AdminMint? then req.to else cfg.treasury;
      assert Handle(cfg, s, req).0.accounts == Credit(s.accounts, to, u.value, req.wei);
      TotalCredit(s.accounts, to, u.value, req.wei, t);
    }
  }

  lemma BurnTotal(cfg: Config, s: LedgerState, from: Address, wei: int, token: string, t: Token)
    ensures Total(HandleAdminBurn(cfg, s, from, wei, token).0.accounts, t)
         == Total(s.accounts, t) + Issued(cfg, s, AdminBurn(from, wei, token), t)
  {
    var u := TokenOf(token);
    if u.Some? && from == cfg.admin && SubBalance(s.accounts, from, u.value, wei).Some? {
      assert HandleAdminBurn(cfg, s, from, wei, token).0.accounts == SubBalance(s.accounts, from, u.value, wei).value;
      TotalSetBalance(s.accounts, from, u.value, Balance(s.accounts, from, u.value) - wei, t);
    }
  }

  lemma ForceTransferTotal(cfg: Config, s: LedgerState, from: Address, target: Address, token: string, arg: AmountArg,
                           t: Token)
    ensures Total(HandleAdminForceTransfer(cfg, s, from, target, token, arg).0.accounts, t) == Total(s.accounts, t)
  {
    var u := TokenOf(TokenOrDefault(token));
    if u.Some? && arg.Units? && GuardedTransfer(s.accounts, u.value, target, cfg.treasury, arg.n * WEI).Some? {
      GuardedTransferConserves(s.accounts, u.value, target, cfg.treasury, arg.n * WEI, t);
    }
  }

  lemma WithdrawTotal(cfg: Config, s: LedgerState, from: Address, receiver: Option<Address>, token: string,
                      arg: AmountArg, t: Token)
    ensures Total(HandleAdminWithdrawFees(cfg, s, from, receiver, token, arg).0.accounts, t) == Total(s.accounts, t)
  {
    var u := TokenOf(TokenOrDefault(token));
    var to := if receiver.Some? then receiver.value else cfg.admin;
    var wei := if arg.Units? then arg.n * WEI else Entry(s.collected, TokenOrDefault(token));
    if u.Some? && GuardedTransfer(s.accounts, u.value, cfg.treasury, to, wei).Some? {
      GuardedTransferConserves(s.accounts, u.value, cfg.treasury, to, wei, t);
    }
  }

  /** Every request moves each token's total by exactly what it issues plus, for GORR, its drift. */
  lemma HandleTotal(cfg: Config, s: LedgerState, req: Request, t: Token)
    ensures Total(Handle(cfg, s, req).0.accounts, t)
         == Total(s.accounts, t) + Issued(cfg, s, req, t) + (if t == GORR then RequestDrift(s, req) else 0)
  {
    if req.SendNative? {
      if SendAccepted(s, req) {
        SendNativeTotal(cfg, s, req.from, req.to, req.amount.n, t);
      }
    } else if req.SendUSDCc? {
      if GuardedTransfer(s.accounts, USDCc, req.from, req.to, req.wei).Some? {
        GuardedTransferConserves(s.accounts, USDCc, req.from, req.to, req.wei, t);
      }
    } else if req.AdminForceTransfer? {
      ForceTransferTotal(cfg, s, req.from, req.target, req.token, req.amount, t);
    } else if req.AdminWithdrawFees? {
      WithdrawTotal(cfg, s, req.from, req.receiver, req.token, req.amount, t);
    } else if req.AdminBurn? {
      BurnTotal(cfg, s, req.from, req.wei, req.token, t);
    } else if req.AdminMint? || req.AdminMintToTreasury? {
      MintTotal(cfg, s, req, t);
    }
  }

  /** A request that errs after it has moved funds. */
  predicate LateError(cfg: Config, s: LedgerState, req: Request) {
    || (SendAccepted(s, req) && s.paused)
    || (&& req.AdminForceTransfer? && req.from == cfg.admin && req.target == ZERO_ADDRESS
        && TokenOrDefault(req.token) == "GORR" && req.amount.Units?
        && 0 < req.amount.n && req.amount.n * WEI <= Balance(s.accounts, req.target, GORR))
  }

  lemma SendErrors(cfg: Config, s: LedgerState, from: Address, to: Address, arg: AmountArg)
    ensures var req := SendNative(from, to, arg);
            var (s', r) := HandleSendNative(cfg, s, from, to, arg);
            && (r.Err? && !LateError(cfg, s, req) ==> s' == s)
            && (LateError(cfg, s, req) ==>
                  && r.Err?
                  && var open := HandleSendNative(cfg, s.(paused := false), from, to, arg);
                     open.1.Sent? && s' == open.0.(paused := true))
  {
  }

  lemma ForceTransferErrors(cfg: Config, s: LedgerState, from: Address, target: Address, token: string, arg: AmountArg)
    ensures var req := AdminForceTransfer(from, target, token, arg);
            var (s', r) := HandleAdminForceTransfer(cfg, s, from, target, token, arg);
            && (r.Err? && !LateError(cfg, s, req) ==> s' == s)
            && (LateError(cfg, s, req) ==>
                  && r.Err?
                  && s' == s.(accounts := GuardedTransfer(s.accounts, GORR, target, cfg.treasury, arg.n * WEI).value))
  {
  }

  /** Any other error leaves the whole state alone; a late error leaves the state of a success. */
  lemma ErrorsAndState(cfg: Config, s: LedgerState, req: Request)
    ensures Handle(cfg, s, req).1.Err? && !LateError(cfg, s, req) ==> Handle(cfg, s, req).0 == s
    ensures LateError(cfg, s, req) ==> Handle(cfg, s, req).1.Err?
    ensures LateError(cfg, s, req) && req.SendNative? ==>
              var open := Handle(cfg, s.(paused := false), req);
              open.1.Sent? && Handle(cfg, s, req).0 == open.0.(paused := true)
    ensures LateError(cfg, s, req) && req.AdminForceTransfer? ==>
              var moved := GuardedTransfer(s.accounts, GORR, req.target, cfg.treasury, req.amount.n * WEI).value;
              Handle(cfg, s, req).0 == s.(accounts := moved)
  {
    if req.SendNative? {
      SendErrors(cfg, s, req.from, req.to, req.amount);
    } else if req.AdminForceTransfer? {
      ForceTransferErrors(cfg, s, req.from, req.target, req.token, req.amount);
    }
  }

  /** Every balance of both tokens and the collected fees. */
  ghost predicate SameMoney(s: LedgerState, s': LedgerState) {
    (forall a, t :: Balance(s.accounts, a, t) == Balance(s'.accounts, a, t)) && s.collected == s'.collected
  }

  /** The request moves something when its debit goes through: a send to oneself only if it charges a fee. */
  predicate MovesSomething(cfg: Config, s: LedgerState, req: Request) {
    || (&& req.SendNative? && req.amount.Units? && req.amount.n > 0
        && (req.from != req.to || CalculateFee(req.amount.n * WEI, s.bps) != 0))
    || (req.AdminForceTransfer? && cfg.treasury != ZERO_ADDRESS)
  }

  lemma LateSendMoves(cfg: Config, s: LedgerState, from: Address, to: Address, n: int)
    requires 0 < n * WEI <= Balance(s.accounts, from, GORR)
    ensures SameMoney(s, HandleSendNative(cfg, s, from, to, Units(n)).0)
       <==> from == to && CalculateFee(n * WEI, s.bps) == 0
  {
    var s' := HandleSendNative(cfg, s, from, to, Units(n)).0;
    var fee := CalculateFee(n * WEI, s.bps);
    SendNativeAccounts(cfg, s, from, to, n);
    if fee > 0 {
      assert Entry(s'.collected, "GORR") == Entry(s.collected, "GORR") + fee;
    } else if from != to {
      assert Balance(s'.accounts, from, GORR) == Balance(s.accounts, from, GORR) - n * WEI;
    } else {
      assert Balance(s'.accounts, from, GORR) == Balance(s.accounts, from, GORR) - fee;
    }
  }

  lemma LateForceTransferMoves(cfg: Config, s: LedgerState, req: Request)
    requires LateError(cfg, s, req) && req.AdminForceTransfer?
    ensures SameMoney(s, Handle(cfg, s, req).0) <==> cfg.treasury == ZERO_ADDRESS
  {
    var s', wei := Handle(cfg, s, req).0, req.amount.n * WEI;
    ForceTransferErrors(cfg, s, req.from, req.target, req.token, req.amount);
    assert Balance(s'.accounts, ZERO_ADDRESS, GORR)
        == Balance(s.accounts, ZERO_ADDRESS, GORR) - (if cfg.treasury == ZERO_ADDRESS then 0 else wei);
  }

  /** A request that errs has moved money exactly when the error is late and it had something to move. */
  lemma ErrorMovesMoneyIff(cfg: Config, s: LedgerState, req: Request)
    requires Handle(cfg, s, req).1.Err?
    ensures !SameMoney(s, Handle(cfg, s, req).0) <==> LateError(cfg, s, req) && MovesSomething(cfg, s, req)
  {
    ErrorsAndState(cfg, s, req);
    if LateError(cfg, s, req) {
      if req.AdminForceTransfer? {
        LateForceTransferMoves(cfg, s, req);
      } else if req.amount.n > 0 {
        LateSendMoves(cfg, s, req.from, req.to, req.amount.n);
      }
    }
  }

  // ---------------------------------------------------------------------------------------------
  // The collected-fee ledger
  // ---------------------------------------------------------------------------------------------

  /** The GORR fee a request charges: whole coins times the rate, when the rate is positive. */
  function Charged(s: LedgerState, req: Request): int {
    if SendAccepted(s, req) && AsInt64(s.bps) > 0 then req.amount.n * AsInt64(s.bps) * 100_000_000_000_000 else 0
  }

  /** The GORR fees a request withdraws. */
  function FeesWithdrawn(cfg: Config, s: LedgerState, req: Request): int {
    var r := Handle(cfg, s, req).1;
    if req.AdminWithdrawFees? && TokenOrDefault(req.token) == "GORR" && r.Withdrawn? then r.wei else 0
  }

  ghost predicate FeesOk(s: LedgerState) {
    Entry(s.collected, "GORR") >= 0 && Entry(s.collected, "USDCc") == 0
  }

  lemma SendNativeFees(cfg: Config, s: LedgerState, from: Address, to: Address, n: int)
    requires SubBalance(s.accounts, from, GORR, n * WEI).Some?
    ensures var s' := HandleSendNative(cfg, s, from, to, Units(n)).0;
            var charged := Charged(s, SendNative(from, to, Units(n)));
            && charged >= 0
            && s'.collected == if charged > 0 then s.collected["GORR" := Entry(s.collected, "GORR") + charged]
                               else s.collected
  {
    var b := AsInt64(s.bps);
    FeeOnCoinsIsExact(n, s.bps);
    if b > 0 {
      MulMonotone(0, n, b);
    } else {
      MulMonotone(0, n, -b);
      assert n * (-b) == -(n * b);
    }
  }

  /** The counter moves by what is charged minus what is withdrawn, and a withdrawal never meets the clamp. */
  lemma HandleFees(cfg: Config, s: LedgerState, req: Request)
    requires FeesOk(s)
    ensures FeesOk(Handle(cfg, s, req).0)
    ensures Entry(Handle(cfg, s, req).0.collected, "GORR")
         == Entry(s.collected, "GORR") + Charged(s, req) - FeesWithdrawn(cfg, s, req)
    ensures 0 <= FeesWithdrawn(cfg, s, req) <= Entry(s.collected, "GORR") && Charged(s, req) >= 0
  {
    if SendAccepted(s, req) {
      SendNativeFees(cfg, s, req.from, req.to, req.amount.n);
    } else if !req.AdminWithdrawFees? {
      assert Handle(cfg, s, req).0.collected == s.collected;
    }
  }

  /** The treasury can pay out every collected GORR fee. */
  ghost predicate Solvent(cfg: Config, s: LedgerState) {
    Entry(s.collected, "GORR") <= Balance(s.accounts, cfg.treasury, GORR)
  }

  lemma SendNativeKeepsSolvent(cfg: Config, s: LedgerState, from: Address, to: Address, arg: AmountArg)
    requires Solvent(cfg, s) && from != cfg.treasury
    ensures Solvent(cfg, HandleSendNative(cfg, s, from, to, arg).0)
  {
  }

  lemma WithdrawKeepsSolvent(cfg: Config, s: LedgerState, from: Address, receiver: Option<Address>, token: string,
                             arg: AmountArg)
    requires Solvent(cfg, s) && FeesOk(s)
    ensures Solvent(cfg, HandleAdminWithdrawFees(cfg, s, from, receiver, token, arg).0)
  {
  }

  lemma HandleKeepsSolvent(cfg: Config, s: LedgerState, req: Request)
    requires Solvent(cfg, s) && FeesOk(s) && cfg.admin != cfg.treasury
    requires req.SendNative? ==> req.from != cfg.treasury
    ensures Solvent(cfg, Handle(cfg, s, req).0)
  {
    if req.SendNative? {
      SendNativeKeepsSolvent(cfg, s, req.from, req.to, req.amount);
    } else if req.AdminWithdrawFees? {
      WithdrawKeepsSolvent(cfg, s, req.from, req.receiver, req.token, req.amount);
    }
  }

  lemma SendNativeKeepsNonNegative(cfg: Config, s: LedgerState, from: Address, to: Address, n: int)
    requires NonNegative(s.accounts) && SubBalance(s.accounts, from, GORR, n * WEI).Some?
    ensures NonNegative(HandleSendNative(cfg, s, from, to, Units(n)).0.accounts)
  {
    SendNativeAccounts(cfg, s, from, to, n);
    var fee := CalculateFee(n * WEI, s.bps);
    var l := SubBalance(s.accounts, from, GORR, n * WEI).value;
    TransfersKeepNonNegative(s.accounts, GORR, from, to, n * WEI);
    TransfersKeepNonNegative(l, GORR, from, to, n * WEI - fee);
    TransfersKeepNonNegative(Credit(l, to, GORR, n * WEI - fee), GORR, from, cfg.treasury, fee);
  }

  /** No request drives a balance below zero. */
  lemma HandleKeepsNonNegative(cfg: Config, s: LedgerState, req: Request)
    requires NonNegative(s.accounts)
    ensures NonNegative(Handle(cfg, s, req).0.accounts)
  {
    if req.SendNative? {
      if SendAccepted(s, req) {
        SendNativeKeepsNonNegative(cfg, s, req.from, req.to, req.amount.n);
      }
    } else if req.SendUSDCc? {
      TransfersKeepNonNegative(s.accounts, USDCc, req.from, req.to, req.wei);
    } else if req.AdminForceTransfer? {
      var u := TokenOf(TokenOrDefault(req.token));
      if u.Some? && req.amount.Units? {
        TransfersKeepNonNegative(s.accounts, u.value, req.target, cfg.treasury, req.amount.n * WEI);
      }
    } else if req.AdminWithdrawFees? {
      var u := TokenOf(TokenOrDefault(req.token));
      var to := if req.receiver.Some? then req.receiver.value else cfg.admin;
      var wei := if req.amount.Units? then req.amount.n * WEI else Entry(s.collected, TokenOrDefault(req.token));
      if u.Some? {
        TransfersKeepNonNegative(s.accounts, u.value, cfg.treasury, to, wei);
      }
    } else if req.AdminMint? || req.AdminMintToTreasury? || req.AdminBurn? {
      if TokenOf(req.token).Some? {
        var to := if req.AdminMint? then req.to else cfg.treasury;
        TransfersKeepNonNegative(s.accounts, TokenOf(req.token).value, req.from, to, req.wei);
      }
    }
  }
}
