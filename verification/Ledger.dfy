/** Accounts of two tokens, the guarded balance helpers, the stale-read transfers, and their totals. */
module Ledger {
  import opened Types

  datatype Token = GORR | USDCc

  /** One stored record: both balances and the nonce are written together. */
  datatype Account = Account(gorr: int, usdcc: int, nonce: uint64) {
    function Balance(t: Token): int {
      match t
      case GORR => gorr
      case USDCc => usdcc
    }

    function WithBalance(t: Token, amount: int): Account {
      match t
      case GORR => this.(gorr := amount)
      case USDCc => this.(usdcc := amount)
    }
  }

  const NEW_ACCOUNT := Account(0, 0, 0)

  type Accounts = map<Address, Account>

  /** Storage is a total map: an address never saved reads as a new account. */
  function GetAccount(l: Accounts, a: Address): Account {
    if a in l then l[a] else NEW_ACCOUNT
  }

  function Balance(l: Accounts, a: Address, t: Token): int {
    GetAccount(l, a).Balance(t)
  }

  function SetBalance(l: Accounts, a: Address, t: Token, amount: int): Accounts {
    l[a := GetAccount(l, a).WithBalance(t, amount)]
  }

  /** Saves the account as it was read: the nonce does not advance. */
  function IncreaseNonce(l: Accounts, a: Address): Accounts {
    l[a := GetAccount(l, a)]
  }

  function AddBalance(l: Accounts, a: Address, t: Token, amount: int): Option<Accounts> {
    if amount < 0 then None else Some(SetBalance(l, a, t, Balance(l, a, t) + amount))
  }

  function SubBalance(l: Accounts, a: Address, t: Token, amount: int): Option<Accounts> {
    if amount < 0 || Balance(l, a, t) < amount then None
    else Some(SetBalance(l, a, t, Balance(l, a, t) - amount))
  }

  /** AddBalance as the handlers call it: a rejected credit is dropped without notice. */
  function Credit(l: Accounts, a: Address, t: Token, amount: int): Accounts {
    match AddBalance(l, a, t, amount)
    case None => l
    case Some(l') => l'
  }

  /** The RPC handlers' transfer: debit, then credit on the re-read ledger. */
  function GuardedTransfer(l: Accounts, t: Token, from: Address, to: Address, amount: int): Option<Accounts> {
    match SubBalance(l, from, t, amount)
    case None => None
    case Some(l') => Some(Credit(l', to, t, amount))
  }

  /** The producer's and the token engine's transfer: both balances are read before either is written. */
  function StaleTransfer(l: Accounts, t: Token, from: Address, to: Address, amount: int): Option<Accounts> {
    var fromBal, toBal := Balance(l, from, t), Balance(l, to, t);
    if fromBal < amount then None
    else Some(SetBalance(SetBalance(l, from, t, fromBal - amount), to, t, toBal + amount))
  }

  /** The treasury's share of a payment: 250 basis points, rounded towards minus infinity. */
  function PaymentFee(value: int): int {
    value * 250 / 10000
  }

  /** The producer's payment transfer: three balances read, then payer, merchant and treasury written in turn. */
  function StalePayment(l: Accounts, payer: Address, merchant: Address, treasury: Address, value: int)
    : Option<Accounts>
  {
    var fee := PaymentFee(value);
    var payerBal := Balance(l, payer, GORR);
    var merchantBal := Balance(l, merchant, GORR);
    var treasuryBal := Balance(l, treasury, GORR);
    if payerBal < value then None
    else
      var l1 := SetBalance(l, payer, GORR, payerBal - value);
      var l2 := SetBalance(l1, merchant, GORR, merchantBal + (value - fee));
      Some(SetBalance(l2, treasury, GORR, treasuryBal + fee))
  }

  // ---------------------------------------------------------------------------------------------
  // Totals
  // ---------------------------------------------------------------------------------------------

  /** The sum of all balances of one token. */
  ghost function Total(l: Accounts, t: Token): int {
    if l == map[] then 0
    else
      var a :| a in l;
      l[a].Balance(t) + Total(l - {a}, t)
  }

  /** The order in which Total picks accounts does not matter. */
  lemma {:induction false} TotalPick(l: Accounts, t: Token, a: Address)
    requires a in l
    ensures Total(l, t) == l[a].Balance(t) + Total(l - {a}, t)
    decreases |l|
  {
    var b :| b in l && Total(l, t) == l[b].Balance(t) + Total(l - {b}, t);
    if a != b {
      TotalPick(l - {b}, t, a);
      TotalPick(l - {a}, t, b);
      assert l - {b} - {a} == l - {a} - {b};
    }
  }

  /** Saving one record moves a total by exactly that record's change. */
  lemma TotalPut(l: Accounts, a: Address, acc: Account, t: Token)
    ensures Total(l[a := acc], t) == Total(l, t) - GetAccount(l, a).Balance(t) + acc.Balance(t)
  {
    TotalPick(l[a := acc], t, a);
    assert l[a := acc] - {a} == l - {a};
    if a in l {
      TotalPick(l, t, a);
    } else {
      assert l - {a} == l;
    }
  }

  lemma TotalSetBalance(l: Accounts, a: Address, t: Token, amount: int, u: Token)
    ensures Total(SetBalance(l, a, t, amount), u)
         == Total(l, u) + (if u == t then amount - Balance(l, a, t) else 0)
  {
    TotalPut(l, a, GetAccount(l, a).WithBalance(t, amount), u);
  }

  lemma TotalIncreaseNonce(l: Accounts, a: Address, t: Token)
    ensures Total(IncreaseNonce(l, a), t) == Total(l, t)
  {
    TotalPut(l, a, GetAccount(l, a), t);
  }

  lemma TotalCredit(l: Accounts, a: Address, t: Token, amount: int, u: Token)
    ensures Total(Credit(l, a, t, amount), u) == Total(l, u) + (if u == t && amount >= 0 then amount else 0)
  {
    TotalSetBalance(l, a, t, Balance(l, a, t) + amount, u);
  }

  /** The guarded transfer conserves both tokens under every overlap of sender and receiver. */
  lemma GuardedTransferConserves(l: Accounts, t: Token, from: Address, to: Address, amount: int, u: Token)
    requires GuardedTransfer(l, t, from, to, amount).Some?
    ensures Total(GuardedTransfer(l, t, from, to, amount).value, u) == Total(l, u)
  {
    TotalSetBalance(l, from, t, Balance(l, from, t) - amount, u);
    TotalCredit(SubBalance(l, from, t, amount).value, to, t, amount, u);
  }

  // ---------------------------------------------------------------------------------------------
  // Exact effect of the stale-read transfers
  // ---------------------------------------------------------------------------------------------

  /** What a stale-read transfer adds to the total: a self-transfer mints its amount. */
  function TransferDrift(from: Address, to: Address, amount: int): int {
    if from == to then amount else 0
  }

  lemma StaleTransferTotal(l: Accounts, t: Token, from: Address, to: Address, amount: int, u: Token)
    requires StaleTransfer(l, t, from, to, amount).Some?
    ensures Total(StaleTransfer(l, t, from, to, amount).value, u)
         == Total(l, u) + (if u == t then TransferDrift(from, to, amount) else 0)
  {
    var l1 := SetBalance(l, from, t, Balance(l, from, t) - amount);
    TotalSetBalance(l, from, t, Balance(l, from, t) - amount, u);
    TotalSetBalance(l1, to, t, Balance(l, to, t) + amount, u);
  }

  /** What a stale-read payment adds to the total, for every overlap of the three parties. */
  function PaymentDrift(payer: Address, merchant: Address, treasury: Address, value: int): int {
    if payer == merchant == treasury then PaymentFee(value)
    else if payer == merchant || payer == treasury then value
    else if merchant == treasury then PaymentFee(value) - value
    else 0
  }

  /** Three balances set in turn: an account set again counts with its last value only. */
  lemma ThreeSetsTotal(l: Accounts, a: Address, x: int, b: Address, y: int, c: Address, z: int, u: Token)
    ensures var l2 := SetBalance(SetBalance(l, a, GORR, x), b, GORR, y);
            Total(SetBalance(l2, c, GORR, z), u)
            == Total(l, u) + if u != GORR then 0
                             else x - Balance(l, a, GORR)
                                  + y - (if b == a then x else Balance(l, b, GORR))
                                  + z - (if c == b then y else if c == a then x else Balance(l, c, GORR))
  {
    var l1 := SetBalance(l, a, GORR, x);
    var l2 := SetBalance(l1, b, GORR, y);
    TotalSetBalance(l, a, GORR, x, u);
    TotalSetBalance(l1, b, GORR, y, u);
    TotalSetBalance(l2, c, GORR, z, u);
  }

  lemma StalePaymentTotal(l: Accounts, payer: Address, merchant: Address, treasury: Address, value: int, u: Token)
    requires StalePayment(l, payer, merchant, treasury, value).Some?
    ensures Total(StalePayment(l, payer, merchant, treasury, value).value, u)
         == Total(l, u) + (if u == GORR then PaymentDrift(payer, merchant, treasury, value) else 0)
  {
    var fee := PaymentFee(value);
    ThreeSetsTotal(l, payer, Balance(l, payer, GORR) - value, merchant, Balance(l, merchant, GORR) + (value - fee),
                   treasury, Balance(l, treasury, GORR) + fee, u);
  }

  /** A payment conserves the total exactly when its parties do not overlap harmfully or its value is too small. */
  lemma PaymentDriftZero(payer: Address, merchant: Address, treasury: Address, value: int)
    ensures PaymentDrift(payer, merchant, treasury, value) == 0 <==>
              || value == 0
              || (payer != merchant && payer != treasury && merchant != treasury)
              || (payer == merchant == treasury && 0 <= value < 40)
              || (payer != merchant == treasury && value == -1)
  {
  }

  /** The stale-read transfer is the guarded one exactly when it is no self-transfer or moves nothing. */
  lemma StaleIsGuarded(l: Accounts, t: Token, from: Address, to: Address, amount: int)
    requires 0 <= amount <= Balance(l, from, t)
    ensures StaleTransfer(l, t, from, to, amount) == GuardedTransfer(l, t, from, to, amount)
       <==> from != to || amount == 0
  {
    var stale := StaleTransfer(l, t, from, to, amount).value;
    var guarded := GuardedTransfer(l, t, from, to, amount).value;
    if from != to || amount == 0 {
      assert stale == guarded;
    } else {
      assert Balance(stale, to, t) == Balance(guarded, to, t) + amount;
    }
  }

  // ---------------------------------------------------------------------------------------------
  // Balances stay non-negative
  // ---------------------------------------------------------------------------------------------

  ghost predicate NonNegative(l: Accounts) {
    forall a :: a in l ==> l[a].gorr >= 0 && l[a].usdcc >= 0
  }

  lemma TransfersKeepNonNegative(l: Accounts, t: Token, from: Address, to: Address, amount: int)
    requires NonNegative(l)
    ensures NonNegative(Credit(l, to, t, amount))
    ensures SubBalance(l, from, t, amount).Some? ==> NonNegative(SubBalance(l, from, t, amount).value)
    ensures GuardedTransfer(l, t, from, to, amount).Some? ==>
              NonNegative(GuardedTransfer(l, t, from, to, amount).value)
    ensures amount >= 0 && StaleTransfer(l, t, from, to, amount).Some? ==>
              NonNegative(StaleTransfer(l, t, from, to, amount).value)
  {
  }

  lemma PaymentKeepsNonNegative(l: Accounts, payer: Address, merchant: Address, treasury: Address, value: int)
    requires NonNegative(l) && value >= 0
    requires StalePayment(l, payer, merchant, treasury, value).Some?
    ensures NonNegative(StalePayment(l, payer, merchant, treasury, value).value)
  {
  }
}
