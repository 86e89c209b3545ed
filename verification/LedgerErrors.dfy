/** Why calls revert. In a reachable state the error of a call that reverts names something that is
    really wrong with it, said of the storage before the call: no batch is blamed on a payment that
    it changed itself, and none fails for want of tokens in the contract. */
module LedgerErrors {
  import opened Results
  import opened Sums
  import opened RefundLedger
  import opened LedgerAccounts
  import opened LedgerRuns
  import opened LedgerPayments
  import opened LedgerWithdraw
  import opened LedgerBalances
  import opened LedgerProgress

  // ---- the loops ------------------------------------------------------------------------------------

  ghost predicate DrawErrorFits(p: Payments, msg: Msg, ids: seq<Word>, total: Word, error: Error) {
    match error
    case CallerNotAllowed => exists id :: id in ids && At(p, id).to != msg.sender
    case PaymentIsStillLocked(id) => id in ids && At(p, id).to == msg.sender && msg.timestamp < At(p, id).releaseTimestamp
    case PaymentRefunded(id) => id in ids && At(p, id).to == msg.sender && At(p, id).refunded
    case ArithmeticPanic =>
      || (exists id :: id in ids && At(p, id).withdrawnAmount > At(p, id).amount)
      || total + MapSum<Word>(Dues(p, Ids(ids))) > MAX_WORD
    case _ => false
  }

  lemma {:induction false} DrawAllErrs(p: Payments, msg: Msg, ids: seq<Word>, total: Word)
    requires DrawAll(p, msg, ids, total).Err?
    ensures DrawErrorFits(p, msg, ids, total, DrawAll(p, msg, ids, total).error)
    decreases |ids|
  {
    var first, rest := ids[0], ids[1..];
    var one := DrawOne(p, msg, first, total);
    IdsCons(ids);
    DuesAfterOne(p, first, Ids(rest));
    if one.Ok? {
      var (next, sum) := one.value;
      DrawAllErrs(next, msg, rest, sum);
      assert next == Emptied(p, first) && sum == total + Due(At(p, first));
      DrawErrorFitsCons(p, msg, ids, total, DrawAll(next, msg, rest, sum).error);
    }
  }

  lemma DrawErrorFitsCons(p: Payments, msg: Msg, ids: seq<Word>, total: Word, error: Error)
    requires ids != [] && Drawable(At(p, ids[0]), msg) && total + Due(At(p, ids[0])) <= MAX_WORD
    requires DrawErrorFits(Emptied(p, ids[0]), msg, ids[1..], total + Due(At(p, ids[0])), error)
    ensures DrawErrorFits(p, msg, ids, total, error)
  {
    IdsCons(ids);
    DuesAfterOne(p, ids[0], Ids(ids[1..]));
    assert forall id :: id in ids[1..] ==> id in ids;
    if error.CallerNotAllowed? {
      var id :| id in ids[1..] && At(Emptied(p, ids[0]), id).to != msg.sender;
      assert id in ids && At(p, id).to != msg.sender;
    }
    if id :| error.ArithmeticPanic? && id in ids[1..] && At(Emptied(p, ids[0]), id).withdrawnAmount > At(Emptied(p, ids[0]), id).amount {
      assert id in ids && At(p, id).withdrawnAmount > At(p, id).amount;
    }
  }

  ghost predicate TakeErrorFits(p: Payments, recipient: Address, ids: seq<Word>, amounts: seq<Word>, total: Word,
                                error: Error)
    requires |ids| == |amounts|
  {
    match error
    case InvalidWithdrawalAmount(id, amount) =>
      amount > At(p, id).amount && exists i :: 0 <= i < |ids| && ids[i] == id && amounts[i] == amount
    case PaymentDoesNotBelongToRecipient => exists id :: id in ids && At(p, id).to != recipient
    case PaymentRefunded(id) => id in ids && At(p, id).to == recipient && At(p, id).refunded
    case ArithmeticPanic => total + SeqSum(amounts) > MAX_WORD || !WithdrawnFits(p, ids, amounts)
    case _ => false
  }

  lemma {:induction false} TakeAllErrs(p: Payments, recipient: Address, ids: seq<Word>, amounts: seq<Word>, total: Word)
    requires |ids| == |amounts|
    requires TakeAll(p, recipient, ids, amounts, total).Err?
    ensures TakeErrorFits(p, recipient, ids, amounts, total, TakeAll(p, recipient, ids, amounts, total).error)
    decreases |ids|
  {
    FitsAfterOne(p, ids, amounts);
    var one := TakeOne(p, recipient, ids[0], amounts[0], total);
    if one.Ok? {
      assert one.value == (Taken(p, ids[0], amounts[0]), total + amounts[0]);
      TakeAllErrs(one.value.0, recipient, ids[1..], amounts[1..], one.value.1);
      TakeErrorFitsCons(p, recipient, ids, amounts, total, TakeAll(p, recipient, ids, amounts, total).error);
    }
  }

  lemma TakeErrorFitsCons(p: Payments, recipient: Address, ids: seq<Word>, amounts: seq<Word>, total: Word, error: Error)
    requires |ids| == |amounts| > 0
    requires At(p, ids[0]).withdrawnAmount + amounts[0] <= MAX_WORD && total + amounts[0] <= MAX_WORD
    requires TakeErrorFits(Taken(p, ids[0], amounts[0]), recipient, ids[1..], amounts[1..], total + amounts[0], error)
    ensures TakeErrorFits(p, recipient, ids, amounts, total, error)
  {
    FitsAfterOne(p, ids, amounts);
    var next := Taken(p, ids[0], amounts[0]);
    match error
    case InvalidWithdrawalAmount(id, amount) =>
      var i :| 0 <= i < |ids[1..]| && ids[1..][i] == id && amounts[1..][i] == amount;
      assert ids[i + 1] == id && amounts[i + 1] == amount;
    case PaymentDoesNotBelongToRecipient =>
      var id :| id in ids[1..] && At(next, id).to != recipient;
      assert id in ids && At(p, id).to != recipient;
    case _ =>
  }

  // ---- every entry point ----------------------------------------------------------------------------

  /** The caller may not make this call. */
  ghost predicate NotAllowed(s: State, msg: Msg, call: Call) {
    match call
    case CallDepositArbiterFunds(_) => msg.sender != s.arbiter
    case CallWithdrawArbiterFunds(_) => msg.sender != s.arbiter
    case CallSetLockupSeconds(_, _) => msg.sender != s.arbiter
    case CallWithdraw(ids) => exists id :: id in ids && At(s.payments, id).to != msg.sender
    case CallRefundByRecipient(id) => msg.sender != At(s.payments, id).to
    case CallRefundByArbiter(_) => msg.sender != s.arbiter
    case CallUpdateRefundTo(id, _) => msg.sender != At(s.payments, id).refundTo
    case CallEarlyWithdraw(_) => msg.sender != s.arbiter
    case _ => false
  }

  /** The balances that would pay do not cover the call. */
  ghost predicate NotCovered(s: State, msg: Msg, call: Call) {
    match call
    case CallWithdrawArbiterFunds(amount) => amount > Read(s.balances, s.arbiter)
    case CallWithdraw(ids) =>
      MapSum<Word>(Dues(s.payments, Ids(ids))) > Read(s.balances, msg.sender) - Payable(s, msg.sender)
    case CallRefundByRecipient(id) => Short(s, id)
    case CallRefundByArbiter(id) => Short(s, id) && At(s.payments, id).amount > Read(s.balances, s.arbiter)
    case CallEarlyWithdraw(terms) => SeqSum(terms.withdrawalAmounts) > Read(s.balances, terms.recipient)
    case _ => false
  }

  ghost predicate Overflows(s: State, msg: Msg, call: Call) {
    match call
    case CallPay(to, _, _) => msg.timestamp + Read(s.lockupSeconds, to) > MAX_WORD || s.nonce == MAX_WORD
    case CallWithdraw(ids) => DrawErrorFits(s.payments, msg, ids, 0, ArithmeticPanic)
    case CallRefundByArbiter(id) => Short(s, id) && Read(s.debts, At(s.payments, id).to) + At(s.payments, id).amount > MAX_WORD
    case CallEarlyWithdraw(terms) =>
      |terms.paymentIDs| == |terms.withdrawalAmounts|
      && TakeErrorFits(s.payments, terms.recipient, terms.paymentIDs, terms.withdrawalAmounts, 0, ArithmeticPanic)
    case _ => false
  }

  /** The token refuses, or a payer other than the contract lacks the tokens. */
  ghost predicate TokenRefuses(s: State, msg: Msg, call: Call) {
    || !msg.tokenAccepts
    || match call
       case CallDepositArbiterFunds(amount) => amount > Read(s.tokens, msg.sender)
       case CallPay(_, amount, _) => amount > Read(s.tokens, msg.sender)
       case CallForeignTransfer(from, _, amount) => from == s.self || amount > Read(s.tokens, from)
       case _ => false
  }

  ghost predicate Lists(call: Call, id: Word) {
    match call
    case CallWithdraw(ids) => id in ids
    case CallEarlyWithdraw(terms) => id in terms.paymentIDs
    case _ => Refunds(call, id)
  }

  /** What each error says of the call. */
  ghost predicate Justified(s: State, msg: Msg, call: Call, error: Error) {
    match error
    case CallerNotAllowed => NotAllowed(s, msg, call)
    case InsufficientFunds => NotCovered(s, msg, call)
    case InvalidFeeAmount => call.CallEarlyWithdraw? && call.terms.feeAmount > SeqSum(call.terms.withdrawalAmounts)
    case InvalidSignature => call.CallEarlyWithdraw? && call.terms.signer != call.terms.recipient
    case InvalidWithdrawalAmount(id, amount) =>
      && call.CallEarlyWithdraw? && |call.terms.paymentIDs| == |call.terms.withdrawalAmounts|
      && TakeErrorFits(s.payments, call.terms.recipient, call.terms.paymentIDs, call.terms.withdrawalAmounts, 0, error)
    case LockupSecondsExceedsMax => call.CallSetLockupSeconds? && call.seconds > 15_552_000
    case MismatchedEarlyWithdrawalArrays =>
      call.CallEarlyWithdraw? && |call.terms.paymentIDs| != |call.terms.withdrawalAmounts|
    case PaymentDoesNotBelongToRecipient =>
      call.CallEarlyWithdraw? && exists id :: id in call.terms.paymentIDs && At(s.payments, id).to != call.terms.recipient
    case PaymentIsStillLocked(id) =>
      call.CallWithdraw? && id in call.paymentIDs && msg.timestamp < At(s.payments, id).releaseTimestamp
    case PaymentRefunded(id) => Lists(call, id) && At(s.payments, id).refunded
    case RefundToIsZeroAddress =>
      (call.CallPay? && call.refundTo == ZERO_ADDRESS) || (call.CallUpdateRefundTo? && call.newRefundTo == ZERO_ADDRESS)
    case WithdrawalHashAlreadyUsed => call.CallEarlyWithdraw? && call.terms.digest in s.withdrawalHashes
    case WithdrawalHashExpired => call.CallEarlyWithdraw? && msg.timestamp > call.terms.expiry
    case ArithmeticPanic => Overflows(s, msg, call)
    case TokenReverted => TokenRefuses(s, msg, call)
  }

  lemma PayErrs(s: State, msg: Msg, to: Address, amount: Word, refundTo: Address)
    requires Reachable(s) && SupplyFits(s) && msg.sender != s.self
    ensures Pay(s, msg, to, amount, refundTo).Err? ==>
      Justified(s, msg, CallPay(to, amount, refundTo), Pay(s, msg, to, amount, refundTo).error)
    ensures DepositArbiterFunds(s, msg, amount).Err? ==>
      Justified(s, msg, CallDepositArbiterFunds(amount), DepositArbiterFunds(s, msg, amount).error)
    ensures WithdrawArbiterFunds(s, msg, amount).Err? ==>
      Justified(s, msg, CallWithdrawArbiterFunds(amount), WithdrawArbiterFunds(s, msg, amount).error)
  {
    MoveSucceeds(s.tokens, msg, msg.sender, s.self, amount);
    MoveSucceeds(s.tokens, msg, s.self, s.arbiter, amount);
    CreditsNeverOverflow(s, msg, to, amount, refundTo);
    Covered(s, s.arbiter, to);
  }

  lemma WithdrawErrs(s: State, msg: Msg, ids: seq<Word>)
    requires Reachable(s) && SupplyFits(s) && Withdraw(s, msg, ids).Err?
    ensures Justified(s, msg, CallWithdraw(ids), Withdraw(s, msg, ids).error)
  {
    SettlingNeverReverts(s, msg.sender);
    ReachableFacts(s);
    Covered(s, msg.sender, s.arbiter);
    SettledBalance(s, msg.sender);
    var u := SettleDebt(s, msg.sender).value;
    var drawn := DrawAll(u.payments, msg, ids, 0);
    if drawn.Err? {
      DrawAllErrs(u.payments, msg, ids, 0);
    } else {
      DrawAllClosedForm(u.payments, msg, ids, 0);
      var due := drawn.value.1;
      MoveSucceeds(u.tokens, msg, u.self, msg.sender, due);
    }
  }

  lemma ExecuteRefundErrs(u: State, msg: Msg, id: Word)
    requires SupplyFits(u) && At(u.payments, id).amount <= Read(u.tokens, u.self)
    ensures var outcome := ExecuteRefund(u, msg, id);
      outcome.Err? ==>
        || (outcome.error == PaymentRefunded(id) && At(u.payments, id).refunded)
        || (outcome.error == TokenReverted && !msg.tokenAccepts)
  {
    MoveSucceeds(u.tokens, msg, u.self, At(u.payments, id).refundTo, At(u.payments, id).amount);
  }

  lemma RefundByRecipientErrs(s: State, msg: Msg, id: Word)
    requires Reachable(s) && SupplyFits(s) && RefundByRecipient(s, msg, id).Err?
    ensures Justified(s, msg, CallRefundByRecipient(id), RefundByRecipient(s, msg, id).error)
  {
    var payment := At(s.payments, id);
    Covered(s, payment.to, s.arbiter);
    if msg.sender == payment.to && !Short(s, id) {
      ExecuteRefundErrs(s.(balances := s.balances[payment.to := Read(s.balances, payment.to) - payment.amount]), msg, id);
    }
  }

  lemma RefundByArbiterErrs(s: State, msg: Msg, id: Word)
    requires Reachable(s) && SupplyFits(s) && RefundByArbiter(s, msg, id).Err?
    ensures Justified(s, msg, CallRefundByArbiter(id), RefundByArbiter(s, msg, id).error)
  {
    var payment := At(s.payments, id);
    Covered(s, payment.to, s.arbiter);
    Covered(s, s.arbiter, payment.to);
    var funded := ChargeOrLend(s, payment.to, payment.amount);
    if funded.Ok? {
      ExecuteRefundErrs(funded.value, msg, id);
    }
  }

  lemma EarlyErrs(s: State, msg: Msg, terms: EarlyTerms)
    requires Reachable(s) && SupplyFits(s) && EarlyWithdrawByArbiter(s, msg, terms).Err?
    ensures Justified(s, msg, CallEarlyWithdraw(terms), EarlyWithdrawByArbiter(s, msg, terms).error)
  {
    ReachableFacts(s);
    Covered(s, terms.recipient, s.arbiter);
    if Authorised(s, msg, terms) {
      var taken := TakeAll(s.payments, terms.recipient, terms.paymentIDs, terms.withdrawalAmounts, 0);
      if taken.Err? {
        TakeAllErrs(s.payments, terms.recipient, terms.paymentIDs, terms.withdrawalAmounts, 0);
      } else {
        TakeAllMoves(s, terms.recipient, terms.paymentIDs, terms.withdrawalAmounts, s.arbiter);
        PayEarlyErrs(s.(payments := taken.value.0), msg, terms, taken.value.1);
      }
    }
  }

  lemma PayEarlyErrs(s: State, msg: Msg, terms: EarlyTerms, total: Word)
    requires SupplyFits(s)
    requires Read(s.balances, terms.recipient) <= Read(s.tokens, s.self)
    requires terms.recipient != s.arbiter ==>
      Read(s.balances, terms.recipient) + Read(s.balances, s.arbiter) <= Read(s.tokens, s.self)
    ensures var outcome := PayEarly(s, msg, terms, total);
      outcome.Err? ==>
        || (outcome.error == InvalidFeeAmount && terms.feeAmount > total)
        || (outcome.error == InsufficientFunds && total > Read(s.balances, terms.recipient))
        || (outcome.error == TokenReverted && !msg.tokenAccepts)
  {
    if terms.feeAmount <= total {
      MoveSucceeds(s.tokens, msg, s.self, terms.recipient, total - terms.feeAmount);
    }
  }

  /** No call reverts without reason, and none reverts with the wrong one. */
  lemma RevertsAreJustified(s: State, msg: Msg, call: Call)
    requires Reachable(s) && SupplyFits(s) && msg.sender != s.self
    requires Step(s, msg, call).Err?
    ensures Justified(s, msg, call, Step(s, msg, call).error)
  {
    match call
    case CallDepositArbiterFunds(amount) => PayErrs(s, msg, 0, amount, 0);
    case CallWithdrawArbiterFunds(amount) => PayErrs(s, msg, 0, amount, 0);
    case CallSetLockupSeconds(_, _) =>
    case CallPay(to, amount, refundTo) => PayErrs(s, msg, to, amount, refundTo);
    case CallSettleDebt(recipient) => SettlingNeverReverts(s, recipient);
    case CallWithdraw(ids) => WithdrawErrs(s, msg, ids);
    case CallRefundByRecipient(id) => RefundByRecipientErrs(s, msg, id);
    case CallRefundByArbiter(id) => RefundByArbiterErrs(s, msg, id);
    case CallUpdateRefundTo(_, _) =>
    case CallEarlyWithdraw(terms) => EarlyErrs(s, msg, terms);
    case CallForeignTransfer(from, to, amount) => MoveSucceeds(s.tokens, msg, from, to, amount);
  }
}
