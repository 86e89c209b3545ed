/** Exactly when calls succeed. Because all balances are covered by tokens the contract holds, no
    reachable state fails a call for want of tokens or by an overflowing credit: what remains are the
    conditions that the ledger itself imposes. */
module LedgerProgress {
  import opened Results
  import opened Sums
  import opened RefundLedger
  import opened LedgerAccounts
  import opened LedgerRuns
  import opened LedgerPayments
  import opened LedgerWithdraw

  /** The token's supply fits a word. Runs keep it: no call changes the supply. */
  ghost predicate SupplyFits(s: State) {
    Total(s.tokens) <= MAX_WORD
  }

  lemma MoveSucceeds(tokens: Words, msg: Msg, from: Address, to: Address, amount: Word)
    requires Total(tokens) <= MAX_WORD
    ensures MoveTokens(tokens, msg, from, to, amount).Ok? <==> msg.tokenAccepts && amount <= Read(tokens, from)
  {
    if amount <= Read(tokens, from) {
      var taken := tokens[from := Read(tokens, from) - amount];
      TotalWrite(tokens, from, Read(tokens, from) - amount);
      MapSumBoundsEntry<Address>(taken, to);
    }
  }

  /** Every balance is covered, and still after any part of another is added to it. */
  lemma Covered(s: State, a: Address, b: Address)
    requires Reachable(s)
    ensures Read(s.balances, a) <= Read(s.tokens, s.self)
    ensures a != b ==> Read(s.balances, a) + Read(s.balances, b) <= Read(s.tokens, s.self)
  {
    ReachableFacts(s);
    MapSumBoundsEntry<Address>(s.balances, a);
    if a != b {
      TotalWrite(s.balances, a, 0);
      MapSumBoundsEntry<Address>(s.balances[a := 0], b);
    }
  }

  /** Paying in succeeds exactly if the payer has the tokens, the refund address is not zero, and
      neither the release time nor the next id overflows; depositing, exactly if the arbiter has the
      tokens; taking a deposit back, exactly if the arbiter's balance covers it. */
  lemma PayingInSucceeds(s: State, msg: Msg, to: Address, amount: Word, refundTo: Address)
    requires Reachable(s) && SupplyFits(s) && msg.sender != s.self
    ensures Pay(s, msg, to, amount, refundTo).Ok? <==>
      && refundTo != ZERO_ADDRESS && msg.tokenAccepts && amount <= Read(s.tokens, msg.sender)
      && msg.timestamp + Read(s.lockupSeconds, to) <= MAX_WORD && s.nonce < MAX_WORD
    ensures DepositArbiterFunds(s, msg, amount).Ok? <==>
      msg.sender == s.arbiter && msg.tokenAccepts && amount <= Read(s.tokens, msg.sender)
    ensures WithdrawArbiterFunds(s, msg, amount).Ok? <==>
      msg.sender == s.arbiter && msg.tokenAccepts && amount <= Read(s.balances, s.arbiter)
  {
    MoveSucceeds(s.tokens, msg, msg.sender, s.self, amount);
    MoveSucceeds(s.tokens, msg, s.self, s.arbiter, amount);
    CreditsNeverOverflow(s, msg, to, amount, refundTo);
    Covered(s, s.arbiter, to);
  }

  /** A withdraw succeeds exactly if every listed payment is the caller's own, released, not refunded
      and not overdrawn, and what they hold together is within what the caller's debt leaves of its
      balance. */
  lemma WithdrawSucceeds(s: State, msg: Msg, ids: seq<Word>)
    requires Reachable(s) && SupplyFits(s) && msg.sender != s.self
    ensures Withdraw(s, msg, ids).Ok? <==>
      && msg.tokenAccepts
      && AllDrawable(s.payments, msg, Ids(ids))
      && (var due := MapSum<Word>(Dues(s.payments, Ids(ids)));
          due == 0 || due <= Read(s.balances, msg.sender) - Read(s.debts, msg.sender))
  {
    SettlingNeverReverts(s, msg.sender);
    ReachableFacts(s);
    Covered(s, msg.sender, s.arbiter);
    SettledBalance(s, msg.sender);
    DrawAndPayOutSucceeds(SettleDebt(s, msg.sender).value, msg, ids);
  }

  lemma SettledBalance(s: State, recipient: Address)
    requires SettleDebt(s, recipient).Ok? && Read(s.debts, s.arbiter) == 0
    ensures var u := SettleDebt(s, recipient).value;
      && u == s.(balances := u.balances, debts := u.debts)
      && Read(u.balances, recipient) ==
         if Read(s.debts, recipient) <= Read(s.balances, recipient) then Read(s.balances, recipient) - Read(s.debts, recipient)
         else 0
  {
  }

  lemma DrawAndPayOutSucceeds(u: State, msg: Msg, ids: seq<Word>)
    requires SupplyFits(u) && Read(u.balances, msg.sender) <= Read(u.tokens, u.self)
    ensures DrawAndPayOut(u, msg, ids).Ok? <==>
      && msg.tokenAccepts
      && AllDrawable(u.payments, msg, Ids(ids))
      && MapSum<Word>(Dues(u.payments, Ids(ids))) <= Read(u.balances, msg.sender)
  {
    DrawAllClosedForm(u.payments, msg, ids, 0);
    var due := MapSum<Word>(Dues(u.payments, Ids(ids)));
    if due <= Read(u.balances, msg.sender) {
      MoveSucceeds(u.tokens, msg, u.self, msg.sender, due);
    }
  }

  lemma ExecuteRefundSucceeds(u: State, msg: Msg, id: Word)
    requires SupplyFits(u) && At(u.payments, id).amount <= Read(u.tokens, u.self)
    ensures ExecuteRefund(u, msg, id).Ok? <==> msg.tokenAccepts && !At(u.payments, id).refunded
  {
    MoveSucceeds(u.tokens, msg, u.self, At(u.payments, id).refundTo, At(u.payments, id).amount);
  }

  /** A payee's refund succeeds exactly if it is the payee, the payment is not refunded, and its
      balance covers the whole amount. */
  lemma RefundByRecipientSucceeds(s: State, msg: Msg, id: Word)
    requires Reachable(s) && SupplyFits(s)
    ensures var payment := At(s.payments, id);
      RefundByRecipient(s, msg, id).Ok? <==>
        && msg.sender == payment.to && msg.tokenAccepts && !payment.refunded
        && payment.amount <= Read(s.balances, payment.to)
  {
    var payment := At(s.payments, id);
    Covered(s, payment.to, s.arbiter);
    if payment.amount <= Read(s.balances, payment.to) {
      ExecuteRefundSucceeds(s.(balances := s.balances[payment.to := Read(s.balances, payment.to) - payment.amount]), msg, id);
    }
  }

  /** The arbiter's succeeds exactly if the payee's balance covers it or the arbiter can lend it. */
  lemma RefundByArbiterSucceeds(s: State, msg: Msg, id: Word)
    requires Reachable(s) && SupplyFits(s)
    ensures var payment := At(s.payments, id);
      RefundByArbiter(s, msg, id).Ok? <==>
        && msg.sender == s.arbiter && msg.tokenAccepts && !payment.refunded
        && (|| payment.amount <= Read(s.balances, payment.to)
            || (&& payment.amount <= Read(s.balances, s.arbiter)
                && Read(s.debts, payment.to) + payment.amount <= MAX_WORD))
  {
    var payment := At(s.payments, id);
    Covered(s, payment.to, s.arbiter);
    Covered(s, s.arbiter, payment.to);
    var funded := ChargeOrLend(s, payment.to, payment.amount);
    if funded.Ok? {
      ExecuteRefundSucceeds(funded.value, msg, id);
    }
  }

  lemma WordsHave256Bits()
    ensures MAX_WORD + 1
      == 0x1_0000_0000_0000_0000 * 0x1_0000_0000_0000_0000 * 0x1_0000_0000_0000_0000 * 0x1_0000_0000_0000_0000
  {
  }

  /** Who may redirect a refund, and who may set lockups, and how long. */
  lemma SettingSucceeds(s: State, msg: Msg, id: Word, newRefundTo: Address, recipient: Address, seconds: Word)
    ensures UpdateRefundTo(s, msg, id, newRefundTo).Ok? <==>
      newRefundTo != ZERO_ADDRESS && msg.sender == At(s.payments, id).refundTo
    ensures SetLockupSeconds(s, msg, recipient, seconds).Ok? <==> msg.sender == s.arbiter && seconds <= 180 * 24 * 3600
  {
  }

  // ---- early withdrawals ----------------------------------------------------------------------------

  ghost predicate Takeable(payment: Payment, recipient: Address, amount: Word) {
    amount <= payment.amount && payment.to == recipient && !payment.refunded
  }

  ghost predicate AllTakeable(p: Payments, recipient: Address, ids: seq<Word>, amounts: seq<Word>)
    requires |ids| == |amounts|
  {
    forall i :: 0 <= i < |ids| ==> Takeable(At(p, ids[i]), recipient, amounts[i])
  }

  /** All that was and will be withdrawn of each payment fits a word. */
  ghost predicate WithdrawnFits(p: Payments, ids: seq<Word>, amounts: seq<Word>)
    requires |ids| == |amounts|
  {
    forall id: nat :: At(p, id).withdrawnAmount + AmountFor(ids, amounts, id) <= MAX_WORD
  }

  ghost function Taken(p: Payments, id: Word, amount: Word): Payments
    requires At(p, id).withdrawnAmount + amount <= MAX_WORD
  {
    p[id := At(p, id).(withdrawnAmount := At(p, id).withdrawnAmount + amount)]
  }

  lemma FitsAfterOne(p: Payments, ids: seq<Word>, amounts: seq<Word>)
    requires |ids| == |amounts| > 0
    ensures WithdrawnFits(p, ids, amounts) <==>
      && At(p, ids[0]).withdrawnAmount + amounts[0] <= MAX_WORD
      && WithdrawnFits(Taken(p, ids[0], amounts[0]), ids[1..], amounts[1..])
  {
    assert WithdrawnFits(p, ids, amounts) ==>
      At(p, ids[0]).withdrawnAmount + AmountFor(ids, amounts, ids[0]) <= MAX_WORD;
    if At(p, ids[0]).withdrawnAmount + amounts[0] <= MAX_WORD {
      var next := Taken(p, ids[0], amounts[0]);
      forall id: nat
        ensures At(next, id).withdrawnAmount + AmountFor(ids[1..], amounts[1..], id)
             == At(p, id).withdrawnAmount + AmountFor(ids, amounts, id)
      {
      }
    }
  }

  lemma TakeableAfterOne(p: Payments, recipient: Address, ids: seq<Word>, amounts: seq<Word>)
    requires |ids| == |amounts| > 0
    requires At(p, ids[0]).withdrawnAmount + amounts[0] <= MAX_WORD
    ensures AllTakeable(p, recipient, ids, amounts) <==>
      && Takeable(At(p, ids[0]), recipient, amounts[0])
      && AllTakeable(Taken(p, ids[0], amounts[0]), recipient, ids[1..], amounts[1..])
  {
  }

  /** The early withdrawal's loop in closed form. */
  lemma {:induction false} TakeAllSucceeds(p: Payments, recipient: Address, ids: seq<Word>, amounts: seq<Word>, total: Word)
    requires |ids| == |amounts|
    ensures TakeAll(p, recipient, ids, amounts, total).Ok? <==>
      && AllTakeable(p, recipient, ids, amounts)
      && WithdrawnFits(p, ids, amounts)
      && total + SeqSum(amounts) <= MAX_WORD
    decreases |ids|
  {
    if ids != [] {
      FitsAfterOne(p, ids, amounts);
      if At(p, ids[0]).withdrawnAmount + amounts[0] <= MAX_WORD {
        TakeableAfterOne(p, recipient, ids, amounts);
        if Takeable(At(p, ids[0]), recipient, amounts[0]) && total + amounts[0] <= MAX_WORD {
          TakeAllSucceeds(Taken(p, ids[0], amounts[0]), recipient, ids[1..], amounts[1..], total + amounts[0]);
        }
      }
    }
  }

  /** What the recipient signed and when the arbiter sends it. */
  ghost predicate Authorised(s: State, msg: Msg, terms: EarlyTerms) {
    && msg.sender == s.arbiter
    && terms.signer == terms.recipient
    && terms.digest !in s.withdrawalHashes
    && msg.timestamp <= terms.expiry
    && |terms.paymentIDs| == |terms.withdrawalAmounts|
  }

  /** An early withdrawal succeeds exactly if the arbiter sends unused, unexpired terms that their
      recipient signed, each amount is within the payment listed with it, which is the recipient's own
      and not refunded, and the fee is within the total and the total within the balance. */
  lemma EarlyWithdrawSucceeds(s: State, msg: Msg, terms: EarlyTerms)
    requires Reachable(s) && SupplyFits(s)
    ensures EarlyWithdrawByArbiter(s, msg, terms).Ok? <==>
      && Authorised(s, msg, terms)
      && AllTakeable(s.payments, terms.recipient, terms.paymentIDs, terms.withdrawalAmounts)
      && WithdrawnFits(s.payments, terms.paymentIDs, terms.withdrawalAmounts)
      && terms.feeAmount <= SeqSum(terms.withdrawalAmounts) <= Read(s.balances, terms.recipient)
      && msg.tokenAccepts
  {
    ReachableFacts(s);
    Covered(s, terms.recipient, s.arbiter);
    if Authorised(s, msg, terms) {
      TakeAllSucceeds(s.payments, terms.recipient, terms.paymentIDs, terms.withdrawalAmounts, 0);
      if TakeAll(s.payments, terms.recipient, terms.paymentIDs, terms.withdrawalAmounts, 0).Ok? {
        TakeAllMoves(s, terms.recipient, terms.paymentIDs, terms.withdrawalAmounts, s.arbiter);
        var (payments, total) := TakeAll(s.payments, terms.recipient, terms.paymentIDs, terms.withdrawalAmounts, 0).value;
        PayEarlySucceeds(s.(payments := payments), msg, terms, total);
      }
    }
  }

  lemma PayEarlySucceeds(s: State, msg: Msg, terms: EarlyTerms, total: Word)
    requires SupplyFits(s)
    requires Read(s.balances, terms.recipient) <= Read(s.tokens, s.self)
    requires terms.recipient != s.arbiter ==>
      Read(s.balances, terms.recipient) + Read(s.balances, s.arbiter) <= Read(s.tokens, s.self)
    ensures PayEarly(s, msg, terms, total).Ok? <==>
      terms.feeAmount <= total <= Read(s.balances, terms.recipient) && msg.tokenAccepts
  {
    if terms.feeAmount <= total {
      MoveSucceeds(s.tokens, msg, s.self, terms.recipient, total - terms.feeAmount);
    }
  }
}
