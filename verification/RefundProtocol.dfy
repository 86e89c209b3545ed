/** The RefundProtocol contract as it runs: entry points that write storage step by step and
    undo every write when they revert. Each is proved to do what RefundLedger says. */
module RefundProtocol {
  import opened Results
  import opened RefundLedger

  class Contract {
    const self: Address
    const arbiter: Address
    var nonce: Word
    var lockupSeconds: Words
    var payments: Payments
    var balances: Words
    var debts: Words
    var withdrawalHashes: set<Word>
    var tokens: Words

    ghost function View(): State
      reads this
    {
      State(self, arbiter, nonce, lockupSeconds, payments, balances, debts, withdrawalHashes, tokens)
    }

    /** The call did what `outcome` says; a call that reverted left `before` as it was. */
    ghost predicate Did(outcome: Outcome, result: Result<(), Error>, before: State)
      reads this
    {
      match outcome
      case Ok(after) => result == Ok(()) && View() == after
      case Err(error) => result == Err(error) && View() == before
    }

    constructor (self: Address, arbiter: Address, tokens: Words)
      ensures View() == Deployed(self, arbiter, tokens)
    {
      this.self, this.arbiter, this.tokens := self, arbiter, tokens;
      nonce, withdrawalHashes := 0, {};
      lockupSeconds, payments, balances, debts := map[], map[], map[], map[];
    }

    method Revert(nonce: Word, payments: Payments, balances: Words, debts: Words, tokens: Words)
      modifies `nonce, `payments, `balances, `debts, `tokens
      ensures this.nonce == nonce && this.payments == payments && this.balances == balances
      ensures this.debts == debts && this.tokens == tokens
    {
      this.nonce, this.payments, this.balances, this.debts, this.tokens := nonce, payments, balances, debts, tokens;
    }

    /** A call into the token contract. */
    method Transfer(msg: Msg, from: Address, to: Address, amount: Word) returns (ok: bool)
      modifies `tokens
      ensures match MoveTokens(old(tokens), msg, from, to, amount)
              case Ok(moved) => ok && tokens == moved
              case Err(error) => !ok && tokens == old(tokens) && error == TokenReverted
    {
      if !msg.tokenAccepts || amount > Read(tokens, from) {
        return false;
      }
      var before := tokens;
      tokens := tokens[from := Read(tokens, from) - amount];
      if Read(tokens, to) + amount > MAX_WORD {
        tokens := before;
        return false;
      }
      tokens := tokens[to := Read(tokens, to) + amount];
      return true;
    }

    method DepositArbiterFunds(msg: Msg, amount: Word) returns (result: Result<(), Error>)
      modifies this
      ensures Did(RefundLedger.DepositArbiterFunds(old(View()), msg, amount), result, old(View()))
    {
      if msg.sender != arbiter {
        return Err(CallerNotAllowed);
      }
      var saved := tokens;
      var paid := Transfer(msg, msg.sender, self, amount);
      if !paid {
        return Err(TokenReverted);
      }
      if Read(balances, arbiter) + amount > MAX_WORD {
        tokens := saved;
        return Err(ArithmeticPanic);
      }
      balances := balances[arbiter := Read(balances, arbiter) + amount];
      return Ok(());
    }

    method WithdrawArbiterFunds(msg: Msg, amount: Word) returns (result: Result<(), Error>)
      modifies this
      ensures Did(RefundLedger.WithdrawArbiterFunds(old(View()), msg, amount), result, old(View()))
    {
      if msg.sender != arbiter {
        return Err(CallerNotAllowed);
      }
      if amount > Read(balances, arbiter) {
        return Err(InsufficientFunds);
      }
      var saved := balances;
      balances := balances[arbiter := Read(balances, arbiter) - amount];
      var paid := Transfer(msg, self, arbiter, amount);
      if !paid {
        balances := saved;
        return Err(TokenReverted);
      }
      return Ok(());
    }

    method SetLockupSeconds(msg: Msg, recipient: Address, seconds: Word) returns (result: Result<(), Error>)
      modifies this
      ensures Did(RefundLedger.SetLockupSeconds(old(View()), msg, recipient, seconds), result, old(View()))
    {
      if msg.sender != arbiter {
        return Err(CallerNotAllowed);
      }
      if seconds > MAX_LOCKUP_SECONDS {
        return Err(LockupSecondsExceedsMax);
      }
      lockupSeconds := lockupSeconds[recipient := seconds];
      return Ok(());
    }

    method Pay(msg: Msg, to: Address, amount: Word, refundTo: Address) returns (result: Result<(), Error>)
      modifies this
      ensures Did(RefundLedger.Pay(old(View()), msg, to, amount, refundTo), result, old(View()))
    {
      if refundTo == ZERO_ADDRESS {
        return Err(RefundToIsZeroAddress);
      }
      var nonce0, payments0, balances0, debts0, tokens0 := nonce, payments, balances, debts, tokens;
      var paid := Transfer(msg, msg.sender, self, amount);
      if !paid {
        return Err(TokenReverted);
      }
      if msg.timestamp + Read(lockupSeconds, to) > MAX_WORD {
        Revert(nonce0, payments0, balances0, debts0, tokens0);
        return Err(ArithmeticPanic);
      }
      payments := payments[nonce := Payment(to, amount, msg.timestamp + Read(lockupSeconds, to), refundTo, 0, false)];
      if Read(balances, to) + amount > MAX_WORD {
        Revert(nonce0, payments0, balances0, debts0, tokens0);
        return Err(ArithmeticPanic);
      }
      balances := balances[to := Read(balances, to) + amount];
      if nonce + 1 > MAX_WORD {
        Revert(nonce0, payments0, balances0, debts0, tokens0);
        return Err(ArithmeticPanic);
      }
      nonce := nonce + 1;
      return Ok(());
    }

    method SettleDebt(recipient: Address) returns (result: Result<(), Error>)
      modifies this
      ensures Did(RefundLedger.SettleDebt(old(View()), recipient), result, old(View()))
    {
      var debt, balance := Read(debts, recipient), Read(balances, recipient);
      var settled: Word := if balance < debt then balance else debt;
      var saved := balances;
      balances := balances[recipient := balance - settled];
      var credit := Read(balances, arbiter) + settled;
      if credit > MAX_WORD {
        balances := saved;
        return Err(ArithmeticPanic);
      }
      balances := balances[arbiter := credit];
      debts := debts[recipient := debt - settled];
      return Ok(());
    }

    /** withdraw's loop. When it fails the caller undoes what it wrote. */
    method DrawPayments(msg: Msg, ids: seq<Word>) returns (result: Result<Word, Error>)
      modifies `payments
      ensures match DrawAll(old(payments), msg, ids, 0)
              case Ok((after, total)) => result == Ok(total) && payments == after
              case Err(error) => result == Err(error)
    {
      var total: Word := 0;
      for i := 0 to |ids|
        invariant DrawAll(old(payments), msg, ids, 0) == DrawAll(payments, msg, ids[i..], total)
      {
        assert ids[i..][0] == ids[i] && ids[i..][1..] == ids[i + 1..];
        var payment := At(payments, ids[i]);
        var refusal :=
          if payment.to != msg.sender then Some(CallerNotAllowed)
          else if msg.timestamp < payment.releaseTimestamp then Some(PaymentIsStillLocked(ids[i]))
          else if payment.refunded then Some(PaymentRefunded(ids[i]))
          else if payment.amount < payment.withdrawnAmount then Some(ArithmeticPanic)
          else if total + (payment.amount - payment.withdrawnAmount) > MAX_WORD then Some(ArithmeticPanic)
          else None;
        if refusal.Some? {
          return Err(refusal.value);
        }
        total := total + (payment.amount - payment.withdrawnAmount);
        payments := payments[ids[i] := payment.(withdrawnAmount := payment.amount)];
      }
      assert ids[|ids|..] == [];
      return Ok(total);
    }

    method Withdraw(msg: Msg, ids: seq<Word>) returns (result: Result<(), Error>)
      modifies this
      ensures Did(RefundLedger.Withdraw(old(View()), msg, ids), result, old(View()))
    {
      var nonce0, payments0, balances0, debts0, tokens0 := nonce, payments, balances, debts, tokens;
      result := SettleDebt(msg.sender);
      if result.Err? {
        return;
      }
      var drawn := DrawPayments(msg, ids);
      if drawn.Err? {
        Revert(nonce0, payments0, balances0, debts0, tokens0);
        return Err(drawn.error);
      }
      result := PayOut(msg, drawn.value);
      if result.Err? {
        Revert(nonce0, payments0, balances0, debts0, tokens0);
      }
    }

    method PayOut(msg: Msg, total: Word) returns (result: Result<(), Error>)
      modifies `balances, `tokens
      ensures Did(RefundLedger.PayOut(old(View()), msg, total), result, old(View()))
    {
      if total > Read(balances, msg.sender) {
        return Err(InsufficientFunds);
      }
      var saved := balances;
      balances := balances[msg.sender := Read(balances, msg.sender) - total];
      var paid := Transfer(msg, self, msg.sender, total);
      if !paid {
        balances := saved;
        return Err(TokenReverted);
      }
      return Ok(());
    }

    /** `payment` is the caller's copy of the payment stored under `id`. */
    method ExecuteRefund(msg: Msg, id: Word, payment: Payment) returns (result: Result<(), Error>)
      requires payment == At(payments, id)
      modifies `payments, `tokens
      ensures Did(RefundLedger.ExecuteRefund(old(View()), msg, id), result, old(View()))
    {
      if payment.refunded {
        return Err(PaymentRefunded(id));
      }
      var paid := Transfer(msg, self, payment.refundTo, payment.amount);
      if !paid {
        return Err(TokenReverted);
      }
      payments := payments[id := At(payments, id).(refunded := true)];
      return Ok(());
    }

    method RefundByRecipient(msg: Msg, id: Word) returns (result: Result<(), Error>)
      modifies this
      ensures Did(RefundLedger.RefundByRecipient(old(View()), msg, id), result, old(View()))
    {
      var payment := At(payments, id);
      if msg.sender != payment.to {
        return Err(CallerNotAllowed);
      }
      var balance := Read(balances, payment.to);
      if payment.amount > balance {
        return Err(InsufficientFunds);
      }
      var saved := balances;
      balances := balances[payment.to := balance - payment.amount];
      result := ExecuteRefund(msg, id, payment);
      if result.Err? {
        balances := saved;
      }
    }

    method RefundByArbiter(msg: Msg, id: Word) returns (result: Result<(), Error>)
      modifies this
      ensures Did(RefundLedger.RefundByArbiter(old(View()), msg, id), result, old(View()))
    {
      if msg.sender != arbiter {
        return Err(CallerNotAllowed);
      }
      var payment := At(payments, id);
      var balances0, debts0 := balances, debts;
      if payment.amount <= Read(balances, payment.to) {
        balances := balances[payment.to := Read(balances, payment.to) - payment.amount];
      } else {
        if payment.amount > Read(balances, arbiter) {
          return Err(InsufficientFunds);
        }
        balances := balances[arbiter := Read(balances, arbiter) - payment.amount];
        if Read(debts, payment.to) + payment.amount > MAX_WORD {
          balances := balances0;
          return Err(ArithmeticPanic);
        }
        debts := debts[payment.to := Read(debts, payment.to) + payment.amount];
      }
      result := ExecuteRefund(msg, id, payment);
      if result.Err? {
        balances, debts := balances0, debts0;
      }
    }

    method UpdateRefundTo(msg: Msg, id: Word, newRefundTo: Address) returns (result: Result<(), Error>)
      modifies this
      ensures Did(RefundLedger.UpdateRefundTo(old(View()), msg, id, newRefundTo), result, old(View()))
    {
      if newRefundTo == ZERO_ADDRESS {
        return Err(RefundToIsZeroAddress);
      }
      var payment := At(payments, id);
      if msg.sender != payment.refundTo {
        return Err(CallerNotAllowed);
      }
      payments := payments[id := payment.(refundTo := newRefundTo)];
      return Ok(());
    }

    /** The early withdrawal's loop. When it fails the caller undoes what it wrote. */
    method TakePayments(recipient: Address, ids: seq<Word>, amounts: seq<Word>)
      returns (result: Result<Word, Error>)
      requires |ids| == |amounts|
      modifies `payments
      ensures match TakeAll(old(payments), recipient, ids, amounts, 0)
              case Ok((after, total)) => result == Ok(total) && payments == after
              case Err(error) => result == Err(error)
    {
      var total: Word := 0;
      for i := 0 to |ids|
        invariant TakeAll(old(payments), recipient, ids, amounts, 0)
               == TakeAll(payments, recipient, ids[i..], amounts[i..], total)
      {
        assert ids[i..][0] == ids[i] && ids[i..][1..] == ids[i + 1..];
        assert amounts[i..][0] == amounts[i] && amounts[i..][1..] == amounts[i + 1..];
        var payment := At(payments, ids[i]);
        var refusal :=
          if amounts[i] > payment.amount then Some(InvalidWithdrawalAmount(ids[i], amounts[i]))
          else if payment.to != recipient then Some(PaymentDoesNotBelongToRecipient)
          else if payment.refunded then Some(PaymentRefunded(ids[i]))
          else if total + amounts[i] > MAX_WORD then Some(ArithmeticPanic)
          else if payment.withdrawnAmount + amounts[i] > MAX_WORD then Some(ArithmeticPanic)
          else None;
        if refusal.Some? {
          return Err(refusal.value);
        }
        total := total + amounts[i];
        payments := payments[ids[i] := payment.(withdrawnAmount := payment.withdrawnAmount + amounts[i])];
      }
      assert ids[|ids|..] == [] && amounts[|ids|..] == [];
      return Ok(total);
    }

    method EarlyWithdrawByArbiter(msg: Msg, terms: EarlyTerms) returns (result: Result<(), Error>)
      modifies this
      ensures Did(RefundLedger.EarlyWithdrawByArbiter(old(View()), msg, terms), result, old(View()))
    {
      var refusal :=
        if msg.sender != arbiter then Some(CallerNotAllowed)
        else if terms.digest in withdrawalHashes then Some(WithdrawalHashAlreadyUsed)
        else if terms.signer != terms.recipient then Some(InvalidSignature)
        else if msg.timestamp > terms.expiry then Some(WithdrawalHashExpired)
        else if |terms.paymentIDs| != |terms.withdrawalAmounts| then Some(MismatchedEarlyWithdrawalArrays)
        else None;
      if refusal.Some? {
        return Err(refusal.value);
      }
      var payments0 := payments;
      var taken := TakePayments(terms.recipient, terms.paymentIDs, terms.withdrawalAmounts);
      if taken.Err? {
        payments := payments0;
        return Err(taken.error);
      }
      result := PayEarly(msg, terms, taken.value);
      if result.Err? {
        payments := payments0;
      }
    }

    method PayEarly(msg: Msg, terms: EarlyTerms, total: Word) returns (result: Result<(), Error>)
      modifies `balances, `tokens, `withdrawalHashes
      ensures Did(RefundLedger.PayEarly(old(View()), msg, terms, total), result, old(View()))
    {
      if terms.feeAmount > total {
        return Err(InvalidFeeAmount);
      }
      if Read(balances, terms.recipient) < total {
        return Err(InsufficientFunds);
      }
      var saved := balances;
      balances := balances[terms.recipient := Read(balances, terms.recipient) - total];
      if Read(balances, arbiter) + terms.feeAmount > MAX_WORD {
        balances := saved;
        return Err(ArithmeticPanic);
      }
      balances := balances[arbiter := Read(balances, arbiter) + terms.feeAmount];
      var paid := Transfer(msg, self, terms.recipient, total - terms.feeAmount);
      if !paid {
        balances := saved;
        return Err(TokenReverted);
      }
      withdrawalHashes := withdrawalHashes + {terms.digest};
      return Ok(());
    }
  }
}
