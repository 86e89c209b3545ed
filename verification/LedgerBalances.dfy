/** What each call does to every single balance and every single debt, stated in terms of the storage
    before the call: who pays, who is credited, and who comes to owe. */
module LedgerBalances {
  import opened Results
  import opened Sums
  import opened RefundLedger
  import opened LedgerAccounts
  import opened LedgerRuns
  import opened LedgerWithdraw

  /** The smaller of `r`'s debt and balance. */
  ghost function Payable(s: State, r: Address): nat {
    if Read(s.balances, r) < Read(s.debts, r) then Read(s.balances, r) else Read(s.debts, r)
  }

  /** The payee of `id` cannot pay its refund. */
  ghost predicate Short(s: State, id: Word) {
    Read(s.balances, At(s.payments, id).to) < At(s.payments, id).amount
  }

  /** `x` if `who` is `a`. */
  ghost function For(a: Address, who: Address, x: int): int {
    if a == who then x else 0
  }

  ghost function DebtChange(s: State, msg: Msg, call: Call, a: Address): int {
    match call
    case CallRefundByArbiter(id) => For(a, At(s.payments, id).to, if Short(s, id) then At(s.payments, id).amount else 0)
    case CallSettleDebt(recipient) => For(a, recipient, 0 - Payable(s, a))
    case CallWithdraw(_) => For(a, msg.sender, 0 - Payable(s, a))
    case _ => 0
  }

  ghost function BalanceChange(s: State, msg: Msg, call: Call, a: Address): int {
    match call
    case CallDepositArbiterFunds(amount) => For(a, s.arbiter, amount)
    case CallWithdrawArbiterFunds(amount) => For(a, s.arbiter, 0 - amount as int)
    case CallPay(to, amount, _) => For(a, to, amount)
    case CallSettleDebt(recipient) => For(a, s.arbiter, Payable(s, recipient)) - For(a, recipient, Payable(s, recipient))
    case CallWithdraw(ids) =>
      For(a, s.arbiter, Payable(s, msg.sender)) - For(a, msg.sender, Payable(s, msg.sender))
        - For(a, msg.sender, MapSum<Word>(Dues(s.payments, Ids(ids))))
    case CallRefundByRecipient(id) => For(a, At(s.payments, id).to, 0 - At(s.payments, id).amount as int)
    case CallRefundByArbiter(id) =>
      For(a, if Short(s, id) then s.arbiter else At(s.payments, id).to, 0 - At(s.payments, id).amount as int)
    case CallEarlyWithdraw(terms) =>
      For(a, s.arbiter, terms.feeAmount) - For(a, terms.recipient, SeqSum(terms.withdrawalAmounts))
    case _ => 0
  }

  /** From `s` to `t` the balance and the debt of `a` change as the call says. */
  ghost predicate Booked(s: State, t: State, msg: Msg, call: Call, a: Address) {
    && Read(t.debts, a) == Read(s.debts, a) + DebtChange(s, msg, call, a)
    && Read(t.balances, a) == Read(s.balances, a) + BalanceChange(s, msg, call, a)
  }

  lemma SettleBooks(s: State, recipient: Address, a: Address)
    requires SettleDebt(s, recipient).Ok?
    ensures var t := SettleDebt(s, recipient).value;
      && t == s.(balances := t.balances, debts := t.debts)
      && Read(t.debts, a) == Read(s.debts, a) - For(a, recipient, Payable(s, recipient))
      && Read(t.balances, a) == Read(s.balances, a)
           + For(a, s.arbiter, Payable(s, recipient)) - For(a, recipient, Payable(s, recipient))
  {
  }

  lemma PayOutBooks(u: State, msg: Msg, ids: seq<Word>, a: Address)
    requires DrawAndPayOut(u, msg, ids).Ok?
    ensures var t := DrawAndPayOut(u, msg, ids).value;
      && t.debts == u.debts
      && Read(t.balances, a) == Read(u.balances, a) - For(a, msg.sender, MapSum<Word>(Dues(u.payments, Ids(ids))))
  {
    DrawAllClosedForm(u.payments, msg, ids, 0);
  }

  lemma WithdrawBooks(s: State, msg: Msg, ids: seq<Word>, a: Address)
    requires Withdraw(s, msg, ids).Ok?
    ensures Booked(s, Withdraw(s, msg, ids).value, msg, CallWithdraw(ids), a)
  {
    SettleBooks(s, msg.sender, a);
    PayOutBooks(SettleDebt(s, msg.sender).value, msg, ids, a);
  }

  lemma RefundByRecipientBooks(s: State, msg: Msg, id: Word, a: Address)
    requires RefundByRecipient(s, msg, id).Ok?
    ensures Booked(s, RefundByRecipient(s, msg, id).value, msg, CallRefundByRecipient(id), a)
  {
  }

  lemma RefundByArbiterBooks(s: State, msg: Msg, id: Word, a: Address)
    requires RefundByArbiter(s, msg, id).Ok?
    ensures Booked(s, RefundByArbiter(s, msg, id).value, msg, CallRefundByArbiter(id), a)
  {
  }

  lemma EarlyBooks(s: State, msg: Msg, terms: EarlyTerms, a: Address)
    requires WellFormed(s) && EarlyWithdrawByArbiter(s, msg, terms).Ok?
    ensures Booked(s, EarlyWithdrawByArbiter(s, msg, terms).value, msg, CallEarlyWithdraw(terms), a)
  {
    TakeAllAccounts(s.payments, terms.recipient, terms.paymentIDs, terms.withdrawalAmounts, 0, s.nonce, a);
  }

  /** Every balance and every debt, on every call. A refund by the arbiter is paid by the payee
      wherever its balance covers it, and only otherwise lent; debts fall only by settling, and an
      early withdrawal settles none. */
  lemma StepBooks(s: State, msg: Msg, call: Call, a: Address)
    requires WellFormed(s) && Step(s, msg, call).Ok?
    ensures Booked(s, Step(s, msg, call).value, msg, call, a)
  {
    match call
    case CallSettleDebt(recipient) => SettleBooks(s, recipient, a);
    case CallWithdraw(ids) => WithdrawBooks(s, msg, ids, a);
    case CallRefundByArbiter(id) => RefundByArbiterBooks(s, msg, id, a);
    case CallEarlyWithdraw(terms) => EarlyBooks(s, msg, terms, a);
    case CallRefundByRecipient(id) => RefundByRecipientBooks(s, msg, id, a);
    case _ =>
  }

  /** When anyone comes to owe more, or less. */
  lemma DebtsMoveOnlyBy(s: State, msg: Msg, call: Call, a: Address)
    requires WellFormed(s) && Step(s, msg, call).Ok?
    ensures Read(Step(s, msg, call).value.debts, a) > Read(s.debts, a) <==>
      && call.CallRefundByArbiter?
      && At(s.payments, call.paymentID).to == a
      && At(s.payments, call.paymentID).amount > Read(s.balances, a)
    ensures Read(Step(s, msg, call).value.debts, a) < Read(s.debts, a) <==>
      && (call == CallSettleDebt(a) || (call.CallWithdraw? && msg.sender == a))
      && Read(s.debts, a) > 0 && Read(s.balances, a) > 0
  {
    StepBooks(s, msg, call, a);
  }

  // ---- runs -----------------------------------------------------------------------------------------

  /** The sum of what the effective calls of a run change `a`'s balance by, and its debt. */
  ghost function BookedInRun(s: State, txs: seq<Transaction>, a: Address): (int, int)
    decreases |txs|
  {
    if txs == [] then (0, 0)
    else
      var (msg, call) := txs[0];
      var (balance, debt) := BookedInRun(After(s, txs[0]), txs[1..], a);
      if Step(s, msg, call).Ok? then (BalanceChange(s, msg, call, a) + balance, DebtChange(s, msg, call, a) + debt)
      else (balance, debt)
  }

  /** After every run each balance and each debt is what the run's calls booked. */
  lemma {:induction false} RunBooks(s: State, txs: seq<Transaction>, a: Address)
    requires WellFormed(s) && Outside(s.self, txs)
    ensures Read(Run(s, txs).balances, a) == Read(s.balances, a) + BookedInRun(s, txs, a).0
    ensures Read(Run(s, txs).debts, a) == Read(s.debts, a) + BookedInRun(s, txs, a).1
    decreases |txs|
  {
    if txs != [] {
      var (msg, call) := txs[0];
      if Step(s, msg, call).Ok? {
        StepBooks(s, msg, call, a);
        StepAccounts(s, msg, call, a);
      }
      RunBooks(After(s, txs[0]), txs[1..], a);
    }
  }
}
