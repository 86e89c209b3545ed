/** The storage of the RefundProtocol contract and what each of its entry points does to it.

    Storage is a value here: an entry point maps the storage before a call to the storage
    after it, or to the reason why the call reverts. Every sum and difference is checked, as in
    the contract, so a result outside 256 bits reverts the call. */
module RefundLedger {
  import opened Results

  const MAX_WORD := 0xffff_ffff_ffff_ffff_ffff_ffff_ffff_ffff_ffff_ffff_ffff_ffff_ffff_ffff_ffff_ffff

  type Word = w: int | 0 <= w <= MAX_WORD

  /** Addresses are only compared, and with zero. */
  type Address = nat

  const ZERO_ADDRESS: Address := 0

  /** 180 days, the longest lockup the arbiter may set. */
  const MAX_LOCKUP_SECONDS: Word := 0xed4e00

  datatype Payment = Payment(
    to: Address,
    amount: Word,
    releaseTimestamp: Word,
    refundTo: Address,
    withdrawnAmount: Word,
    refunded: bool)

  /** What an id reads as before it is written. */
  const NO_PAYMENT := Payment(ZERO_ADDRESS, 0, 0, ZERO_ADDRESS, 0, false)

  type Payments = map<Word, Payment>
  type Words = map<Address, Word>

  datatype State = State(
    self: Address,
    arbiter: Address,
    nonce: Word,
    lockupSeconds: Words,
    payments: Payments,
    balances: Words,
    debts: Words,
    withdrawalHashes: set<Word>,
    tokens: Words)  // the token contract's balances, by holder

  datatype Error =
    | CallerNotAllowed
    | InsufficientFunds
    | InvalidFeeAmount
    | InvalidSignature
    | InvalidWithdrawalAmount(paymentID: Word, withdrawalAmount: Word)
    | LockupSecondsExceedsMax
    | MismatchedEarlyWithdrawalArrays
    | PaymentDoesNotBelongToRecipient
    | PaymentIsStillLocked(paymentID: Word)
    | PaymentRefunded(paymentID: Word)
    | RefundToIsZeroAddress
    | WithdrawalHashAlreadyUsed
    | WithdrawalHashExpired
    | ArithmeticPanic
    | TokenReverted

  /** The caller, the block's time, and whether the token carries out a transfer that the
      holder's balance covers (it may be paused, refuse a party, or lack an allowance). */
  datatype Msg = Msg(sender: Address, timestamp: Word, tokenAccepts: bool)

  type Outcome = Result<State, Error>

  function Read(m: Words, a: Address): Word {
    if a in m then m[a] else 0
  }

  function At(p: Payments, id: nat): Payment {
    if id in p then p[id] else NO_PAYMENT
  }

  function Add(x: Word, y: Word): Result<Word, Error> {
    if x + y <= MAX_WORD then Ok(x + y) else Err(ArithmeticPanic)
  }

  function Sub(x: Word, y: Word): Result<Word, Error> {
    if y <= x then Ok(x - y) else Err(ArithmeticPanic)
  }

  /** Moves exactly `amount` tokens, or reverts. The two holders may be the same. */
  function MoveTokens(tokens: Words, msg: Msg, from: Address, to: Address, amount: Word): Result<Words, Error> {
    if !msg.tokenAccepts || amount > Read(tokens, from) then Err(TokenReverted)
    else
      var taken := tokens[from := Read(tokens, from) - amount];
      if Read(taken, to) + amount > MAX_WORD then Err(TokenReverted)
      else Ok(taken[to := Read(taken, to) + amount])
  }

  function DepositArbiterFunds(s: State, msg: Msg, amount: Word): Outcome {
    var balance := Read(s.balances, s.arbiter);
    :- Check(msg.sender == s.arbiter, CallerNotAllowed);
    var tokens :- MoveTokens(s.tokens, msg, msg.sender, s.self, amount);
    var credited :- Add(balance, amount);
    Ok(s.(tokens := tokens, balances := s.balances[s.arbiter := credited]))
  }

  function WithdrawArbiterFunds(s: State, msg: Msg, amount: Word): Outcome {
    var balance := Read(s.balances, s.arbiter);
    :- Check(msg.sender == s.arbiter, CallerNotAllowed);
    :- Check(amount <= balance, InsufficientFunds);
    var tokens :- MoveTokens(s.tokens, msg, s.self, s.arbiter, amount);
    Ok(s.(tokens := tokens, balances := s.balances[s.arbiter := balance - amount]))
  }

  function SetLockupSeconds(s: State, msg: Msg, recipient: Address, seconds: Word): Outcome {
    if msg.sender != s.arbiter then Err(CallerNotAllowed)
    else if seconds > MAX_LOCKUP_SECONDS then Err(LockupSecondsExceedsMax)
    else Ok(s.(lockupSeconds := s.lockupSeconds[recipient := seconds]))
  }

  function Pay(s: State, msg: Msg, to: Address, amount: Word, refundTo: Address): Outcome {
    var lockup := Read(s.lockupSeconds, to);
    :- Check(refundTo != ZERO_ADDRESS, RefundToIsZeroAddress);
    var tokens :- MoveTokens(s.tokens, msg, msg.sender, s.self, amount);
    var release :- Add(msg.timestamp, lockup);
    var balance :- Add(Read(s.balances, to), amount);
    var nonce :- Add(s.nonce, 1);
    Ok(s.(tokens := tokens,
          payments := s.payments[s.nonce := Payment(to, amount, release, refundTo, 0, false)],
          balances := s.balances[to := balance],
          nonce := nonce))
  }

  /** Pays off as much of `recipient`'s debt to the arbiter as its balance covers. */
  function SettleDebt(s: State, recipient: Address): Outcome {
    var debt, balance := Read(s.debts, recipient), Read(s.balances, recipient);
    var settled: Word := if balance < debt then balance else debt;
    var charged := s.balances[recipient := balance - settled];
    var credit :- Add(Read(charged, s.arbiter), settled);
    Ok(s.(balances := charged[s.arbiter := credit], debts := s.debts[recipient := debt - settled]))
  }

  /** One turn of withdraw's loop: what is left of payment `id` joins `total`. */
  function DrawOne(p: Payments, msg: Msg, id: Word, total: Word): Result<(Payments, Word), Error> {
    var payment := At(p, id);
    :- Check(payment.to == msg.sender, CallerNotAllowed);
    :- Check(payment.releaseTimestamp <= msg.timestamp, PaymentIsStillLocked(id));
    :- Check(!payment.refunded, PaymentRefunded(id));
    var due :- Sub(payment.amount, payment.withdrawnAmount);
    var sum :- Add(total, due);
    Ok((p[id := payment.(withdrawnAmount := payment.amount)], sum))
  }

  function DrawAll(p: Payments, msg: Msg, ids: seq<Word>, total: Word): Result<(Payments, Word), Error>
    decreases |ids|
  {
    if ids == [] then Ok((p, total))
    else
      var (next, sum) :- DrawOne(p, msg, ids[0], total);
      DrawAll(next, msg, ids[1..], sum)
  }

  function Withdraw(s: State, msg: Msg, ids: seq<Word>): Outcome {
    var settled :- SettleDebt(s, msg.sender);
    DrawAndPayOut(settled, msg, ids)
  }

  /** withdraw, once the caller's debt is settled. */
  function DrawAndPayOut(s: State, msg: Msg, ids: seq<Word>): Outcome {
    var (payments, total) :- DrawAll(s.payments, msg, ids, 0);
    PayOut(s.(payments := payments), msg, total)
  }

  /** The part of withdraw after its loop. */
  function PayOut(s: State, msg: Msg, total: Word): Outcome {
    var balance := Read(s.balances, msg.sender);
    :- Check(total <= balance, InsufficientFunds);
    var tokens :- MoveTokens(s.tokens, msg, s.self, msg.sender, total);
    Ok(s.(tokens := tokens, balances := s.balances[msg.sender := balance - total]))
  }

  /** Sends the whole amount of payment `id` to its refund address and marks it refunded. */
  function ExecuteRefund(s: State, msg: Msg, id: Word): Outcome {
    var payment := At(s.payments, id);
    :- Check(!payment.refunded, PaymentRefunded(id));
    var tokens :- MoveTokens(s.tokens, msg, s.self, payment.refundTo, payment.amount);
    Ok(s.(tokens := tokens, payments := s.payments[id := payment.(refunded := true)]))
  }

  function RefundByRecipient(s: State, msg: Msg, id: Word): Outcome {
    var payment := At(s.payments, id);
    :- Check(msg.sender == payment.to, CallerNotAllowed);
    var balance := Read(s.balances, payment.to);
    :- Check(payment.amount <= balance, InsufficientFunds);
    ExecuteRefund(s.(balances := s.balances[payment.to := balance - payment.amount]), msg, id)
  }

  /** The arbiter refunds from the payee's balance or, where that is too low, lends the amount. */
  function RefundByArbiter(s: State, msg: Msg, id: Word): Outcome {
    var payment := At(s.payments, id);
    :- Check(msg.sender == s.arbiter, CallerNotAllowed);
    var funded :- ChargeOrLend(s, payment.to, payment.amount);
    ExecuteRefund(funded, msg, id)
  }

  function ChargeOrLend(s: State, to: Address, amount: Word): Outcome {
    var balance, lendable := Read(s.balances, to), Read(s.balances, s.arbiter);
    if amount <= balance then Ok(s.(balances := s.balances[to := balance - amount]))
    else
      :- Check(amount <= lendable, InsufficientFunds);
      var debt :- Add(Read(s.debts, to), amount);
      Ok(s.(balances := s.balances[s.arbiter := lendable - amount], debts := s.debts[to := debt]))
  }

  function UpdateRefundTo(s: State, msg: Msg, id: Word, newRefundTo: Address): Outcome {
    var payment := At(s.payments, id);
    :- Check(newRefundTo != ZERO_ADDRESS, RefundToIsZeroAddress);
    :- Check(msg.sender == payment.refundTo, CallerNotAllowed);
    Ok(s.(payments := s.payments[id := payment.(refundTo := newRefundTo)]))
  }

  /** One turn of the early withdrawal's loop: `amount` is taken from payment `id`. It is compared
      with the payment's amount, not with what earlier withdrawals left of it. */
  function TakeOne(p: Payments, recipient: Address, id: Word, amount: Word, total: Word)
    : Result<(Payments, Word), Error>
  {
    var payment := At(p, id);
    :- Check(amount <= payment.amount, InvalidWithdrawalAmount(id, amount));
    :- Check(payment.to == recipient, PaymentDoesNotBelongToRecipient);
    :- Check(!payment.refunded, PaymentRefunded(id));
    var sum :- Add(total, amount);
    var withdrawn :- Add(payment.withdrawnAmount, amount);
    Ok((p[id := payment.(withdrawnAmount := withdrawn)], sum))
  }

  function TakeAll(p: Payments, recipient: Address, ids: seq<Word>, amounts: seq<Word>, total: Word)
    : Result<(Payments, Word), Error>
    requires |ids| == |amounts|
    decreases |ids|
  {
    if ids == [] then Ok((p, total))
    else
      var (next, sum) :- TakeOne(p, recipient, ids[0], amounts[0], total);
      TakeAll(next, recipient, ids[1..], amounts[1..], sum)
  }

  /** The terms the recipient signs: `digest` is their EIP-712 hash, `signer` the address that the
      signature recovers to. */
  datatype EarlyTerms = EarlyTerms(
    paymentIDs: seq<Word>,
    withdrawalAmounts: seq<Word>,
    feeAmount: Word,
    expiry: Word,
    recipient: Address,
    digest: Word,
    signer: Address)

  function EarlyWithdrawByArbiter(s: State, msg: Msg, terms: EarlyTerms): Outcome {
    var ids, amounts := terms.paymentIDs, terms.withdrawalAmounts;
    :- Check(msg.sender == s.arbiter, CallerNotAllowed);
    :- Check(terms.digest !in s.withdrawalHashes, WithdrawalHashAlreadyUsed);
    :- Check(terms.signer == terms.recipient, InvalidSignature);
    :- Check(msg.timestamp <= terms.expiry, WithdrawalHashExpired);
    if |ids| != |amounts| then Err(MismatchedEarlyWithdrawalArrays)
    else
      var (payments, total) :- TakeAll(s.payments, terms.recipient, ids, amounts, 0);
      PayEarly(s.(payments := payments), msg, terms, total)
  }

  /** The part of an early withdrawal after its loop: `total` leaves the recipient's balance, the
      fee goes to the arbiter, and the recipient is sent the rest. */
  function PayEarly(s: State, msg: Msg, terms: EarlyTerms, total: Word): Outcome {
    if terms.feeAmount > total then Err(InvalidFeeAmount)
    else
      var charged :- ChargeWithFee(s, terms.recipient, total, terms.feeAmount);
      var tokens :- MoveTokens(s.tokens, msg, s.self, terms.recipient, total - terms.feeAmount);
      Ok(charged.(tokens := tokens, withdrawalHashes := s.withdrawalHashes + {terms.digest}))
  }

  function ChargeWithFee(s: State, recipient: Address, total: Word, feeAmount: Word): Outcome {
    var balance := Read(s.balances, recipient);
    :- Check(total <= balance, InsufficientFunds);
    var charged := s.balances[recipient := balance - total];
    var credit :- Add(Read(charged, s.arbiter), feeAmount);
    Ok(s.(balances := charged[s.arbiter := credit]))
  }

  /** Tokens moved by others. The contract grants no allowance, so nobody else moves its tokens. */
  function ForeignTransfer(s: State, msg: Msg, from: Address, to: Address, amount: Word): Outcome {
    if from == s.self then Err(TokenReverted)
    else
      var tokens :- MoveTokens(s.tokens, msg, from, to, amount);
      Ok(s.(tokens := tokens))
  }

  datatype Call =
    | CallDepositArbiterFunds(amount: Word)
    | CallWithdrawArbiterFunds(amount: Word)
    | CallSetLockupSeconds(recipient: Address, seconds: Word)
    | CallPay(to: Address, amount: Word, refundTo: Address)
    | CallSettleDebt(recipient: Address)
    | CallWithdraw(paymentIDs: seq<Word>)
    | CallRefundByRecipient(paymentID: Word)
    | CallRefundByArbiter(paymentID: Word)
    | CallUpdateRefundTo(paymentID: Word, newRefundTo: Address)
    | CallEarlyWithdraw(terms: EarlyTerms)
    | CallForeignTransfer(from: Address, to: Address, amount: Word)

  function Step(s: State, msg: Msg, call: Call): Outcome {
    match call
    case CallDepositArbiterFunds(amount) => DepositArbiterFunds(s, msg, amount)
    case CallWithdrawArbiterFunds(amount) => WithdrawArbiterFunds(s, msg, amount)
    case CallSetLockupSeconds(recipient, seconds) => SetLockupSeconds(s, msg, recipient, seconds)
    case CallPay(to, amount, refundTo) => Pay(s, msg, to, amount, refundTo)
    case CallSettleDebt(recipient) => SettleDebt(s, recipient)
    case CallWithdraw(ids) => Withdraw(s, msg, ids)
    case CallRefundByRecipient(id) => RefundByRecipient(s, msg, id)
    case CallRefundByArbiter(id) => RefundByArbiter(s, msg, id)
    case CallUpdateRefundTo(id, newRefundTo) => UpdateRefundTo(s, msg, id, newRefundTo)
    case CallEarlyWithdraw(terms) => EarlyWithdrawByArbiter(s, msg, terms)
    case CallForeignTransfer(from, to, amount) => ForeignTransfer(s, msg, from, to, amount)
  }

  /** The state the constructor leaves: an empty ledger, whatever tokens others already hold. */
  function Deployed(self: Address, arbiter: Address, tokens: Words): State {
    State(self, arbiter, 0, map[], map[], map[], map[], {}, tokens)
  }

  /** A transaction: who calls what. The contract never calls itself. */
  type Transaction = (Msg, Call)

  /** The state after a list of transactions; one that reverts changes nothing. */
  function Run(s: State, txs: seq<Transaction>): State
    decreases |txs|
  {
    if txs == [] then s
    else Run(After(s, txs[0]), txs[1..])
  }

  function After(s: State, tx: Transaction): State {
    match Step(s, tx.0, tx.1)
    case Ok(next) => next
    case Err(_) => s
  }
}
