/** Where tokens go: every effective call makes at most one transfer, to and from whom its terms say,
    and over whole runs each holder has exactly what these transfers brought. */
module LedgerTransfers {
  import opened Results
  import opened Sums
  import opened RefundLedger
  import opened LedgerAccounts
  import opened LedgerRuns
  import opened LedgerPayments
  import opened LedgerWithdraw

  datatype Transfer = Transfer(from: Address, to: Address, amount: int)

  /** The transfer that a call makes if it takes effect. */
  ghost function TransferOf(s: State, msg: Msg, call: Call): Option<Transfer> {
    match call
    case CallDepositArbiterFunds(amount) => Some(Transfer(s.arbiter, s.self, amount))
    case CallWithdrawArbiterFunds(amount) => Some(Transfer(s.self, s.arbiter, amount))
    case CallPay(_, amount, _) => Some(Transfer(msg.sender, s.self, amount))
    case CallWithdraw(ids) => Some(Transfer(s.self, msg.sender, MapSum<Word>(Dues(s.payments, Ids(ids)))))
    case CallRefundByRecipient(id) => Some(RefundOf(s, id))
    case CallRefundByArbiter(id) => Some(RefundOf(s, id))
    case CallEarlyWithdraw(terms) =>
      Some(Transfer(s.self, terms.recipient, SeqSum(terms.withdrawalAmounts) - terms.feeAmount))
    case CallForeignTransfer(from, to, amount) => Some(Transfer(from, to, amount))
    case CallSetLockupSeconds(_, _) => None
    case CallSettleDebt(_) => None
    case CallUpdateRefundTo(_, _) => None
  }

  ghost function RefundOf(s: State, id: Word): Transfer {
    Transfer(s.self, At(s.payments, id).refundTo, At(s.payments, id).amount)
  }

  /** What the transfer does to the tokens of holder `h`. */
  ghost function Change(transfer: Option<Transfer>, h: Address): int {
    match transfer
    case None => 0
    case Some(x) => (if x.to == h then x.amount else 0) - if x.from == h then x.amount else 0
  }

  ghost predicate Transferred(tokens: Words, after: Words, transfer: Option<Transfer>) {
    && (forall h: Address :: Read(after, h) == Read(tokens, h) + Change(transfer, h))
    && Total(after) == Total(tokens)
  }

  lemma MoveTransfers(tokens: Words, msg: Msg, from: Address, to: Address, amount: Word)
    requires MoveTokens(tokens, msg, from, to, amount).Ok?
    ensures Transferred(tokens, MoveTokens(tokens, msg, from, to, amount).value, Some(Transfer(from, to, amount)))
  {
    var taken := tokens[from := Read(tokens, from) - amount];
    TotalWrite(tokens, from, Read(tokens, from) - amount);
    TotalWrite(taken, to, Read(taken, to) + amount);
  }

  /** An effective call makes exactly its transfer: no other holder's tokens change, and none are
      made or lost. */
  lemma StepTransfers(s: State, msg: Msg, call: Call)
    requires WellFormed(s) && Step(s, msg, call).Ok?
    ensures Transferred(s.tokens, Step(s, msg, call).value.tokens, TransferOf(s, msg, call))
  {
    match call
    case CallDepositArbiterFunds(amount) => MoveTransfers(s.tokens, msg, s.arbiter, s.self, amount);
    case CallWithdrawArbiterFunds(amount) => MoveTransfers(s.tokens, msg, s.self, s.arbiter, amount);
    case CallPay(_, amount, _) => MoveTransfers(s.tokens, msg, msg.sender, s.self, amount);
    case CallWithdraw(ids) => WithdrawTransfers(s, msg, ids);
    case CallRefundByRecipient(id) => RefundTransfers(s, s.(balances := Step(s, msg, call).value.balances), msg, id);
    case CallRefundByArbiter(id) => RefundByArbiterTransfers(s, msg, id);
    case CallEarlyWithdraw(terms) => EarlyTransfers(s, msg, terms);
    case CallForeignTransfer(from, to, amount) => MoveTransfers(s.tokens, msg, from, to, amount);
    case CallSetLockupSeconds(_, _) =>
    case CallSettleDebt(_) =>
    case CallUpdateRefundTo(_, _) =>
  }

  /** `u` is `s` with the refund paid for. */
  lemma RefundTransfers(s: State, u: State, msg: Msg, id: Word)
    requires u.self == s.self && u.payments == s.payments && u.tokens == s.tokens
    requires ExecuteRefund(u, msg, id).Ok?
    ensures Transferred(s.tokens, ExecuteRefund(u, msg, id).value.tokens, Some(RefundOf(s, id)))
  {
    MoveTransfers(s.tokens, msg, s.self, At(s.payments, id).refundTo, At(s.payments, id).amount);
  }

  lemma RefundByArbiterTransfers(s: State, msg: Msg, id: Word)
    requires RefundByArbiter(s, msg, id).Ok?
    ensures Transferred(s.tokens, RefundByArbiter(s, msg, id).value.tokens, Some(RefundOf(s, id)))
  {
    var payment := At(s.payments, id);
    RefundTransfers(s, ChargeOrLend(s, payment.to, payment.amount).value, msg, id);
  }

  lemma WithdrawTransfers(s: State, msg: Msg, ids: seq<Word>)
    requires Withdraw(s, msg, ids).Ok?
    ensures Transferred(s.tokens, Withdraw(s, msg, ids).value.tokens, TransferOf(s, msg, CallWithdraw(ids)))
  {
    DrawAllClosedForm(s.payments, msg, ids, 0);
    MoveTransfers(s.tokens, msg, s.self, msg.sender, MapSum<Word>(Dues(s.payments, Ids(ids))));
  }

  lemma EarlyTransfers(s: State, msg: Msg, terms: EarlyTerms)
    requires WellFormed(s) && EarlyWithdrawByArbiter(s, msg, terms).Ok?
    ensures Transferred(s.tokens, EarlyWithdrawByArbiter(s, msg, terms).value.tokens,
                        TransferOf(s, msg, CallEarlyWithdraw(terms)))
  {
    TakeAllMoves(s, terms.recipient, terms.paymentIDs, terms.withdrawalAmounts, s.arbiter);
    var (payments, total) := TakeAll(s.payments, terms.recipient, terms.paymentIDs, terms.withdrawalAmounts, 0).value;
    PayEarlyTransfers(s.(payments := payments), msg, terms, total);
  }

  lemma PayEarlyTransfers(s: State, msg: Msg, terms: EarlyTerms, total: Word)
    requires PayEarly(s, msg, terms, total).Ok?
    ensures Transferred(s.tokens, PayEarly(s, msg, terms, total).value.tokens,
                        Some(Transfer(s.self, terms.recipient, total - terms.feeAmount)))
  {
    MoveTransfers(s.tokens, msg, s.self, terms.recipient, total - terms.feeAmount);
  }

  // ---- runs -----------------------------------------------------------------------------------------

  /** What the effective calls of a run bring holder `h`, less what they take from it. */
  ghost function NetReceived(s: State, txs: seq<Transaction>, h: Address): int
    decreases |txs|
  {
    if txs == [] then 0
    else
      (if Step(s, txs[0].0, txs[0].1).Ok? then Change(TransferOf(s, txs[0].0, txs[0].1), h) else 0)
        + NetReceived(After(s, txs[0]), txs[1..], h)
  }

  /** Conservation: over any run each holder ends with what it had and what the transfers brought,
      and the supply of tokens never changes. */
  lemma {:induction false} TokensAreConserved(s: State, txs: seq<Transaction>, h: Address)
    requires WellFormed(s) && Outside(s.self, txs)
    ensures Read(Run(s, txs).tokens, h) == Read(s.tokens, h) + NetReceived(s, txs, h)
    ensures Total(Run(s, txs).tokens) == Total(s.tokens)
    decreases |txs|
  {
    if txs != [] {
      if Step(s, txs[0].0, txs[0].1).Ok? {
        StepTransfers(s, txs[0].0, txs[0].1);
        StepAccounts(s, txs[0].0, txs[0].1, s.arbiter);
      }
      TokensAreConserved(After(s, txs[0]), txs[1..], h);
    }
  }

  // ---- at most one refund -------------------------------------------------------------------------

  /** Tokens sent by the refunds of payment `id` in the course of a run. */
  ghost function RefundSent(s: State, txs: seq<Transaction>, id: nat): int
    decreases |txs|
  {
    if txs == [] then 0
    else
      var (msg, call) := txs[0];
      (if Step(s, msg, call).Ok? && Refunds(call, id) then TransferOf(s, msg, call).value.amount else 0)
        + RefundSent(After(s, txs[0]), txs[1..], id)
  }

  ghost function Refunded(payment: Payment): nat {
    if payment.refunded then payment.amount else 0
  }

  lemma {:induction false} RefundSentIsMarked(s: State, txs: seq<Transaction>, id: nat)
    requires WellFormed(s) && Outside(s.self, txs)
    ensures RefundSent(s, txs, id) == Refunded(At(Run(s, txs).payments, id)) - Refunded(At(s.payments, id))
    decreases |txs|
  {
    if txs != [] {
      RefundIsMarked(s, txs[0], id);
      RefundSentIsMarked(After(s, txs[0]), txs[1..], id);
    }
  }

  lemma RefundIsMarked(s: State, tx: Transaction, id: nat)
    requires WellFormed(s) && tx.0.sender != s.self
    ensures WellFormed(After(s, tx)) && After(s, tx).self == s.self
    ensures Refunded(At(After(s, tx).payments, id)) - Refunded(At(s.payments, id)) ==
      if Step(s, tx.0, tx.1).Ok? && Refunds(tx.1, id) then TransferOf(s, tx.0, tx.1).value.amount else 0
  {
    AfterKeepsTerms(s, tx, id);
    if Step(s, tx.0, tx.1).Ok? {
      if Creates(s, tx.1, id) {
        assert Blank(At(s.payments, id));
      } else {
        StepEvolves(s, tx.0, tx.1, id);
      }
    }
  }

  /** Over any run the refunds of a payment send nothing or exactly its amount, and they have sent
      it if and only if the payment is marked refunded, whichever routes were tried. */
  lemma RefundedAtMostOnce(self: Address, arbiter: Address, tokens: Words, txs: seq<Transaction>, id: nat)
    requires Outside(self, txs)
    ensures var s := Deployed(self, arbiter, tokens);
      var payment := At(Run(s, txs).payments, id);
      RefundSent(s, txs, id) == if payment.refunded then payment.amount else 0
  {
    DeployedIsWellFormed(self, arbiter, tokens);
    RefundSentIsMarked(Deployed(self, arbiter, tokens), txs, id);
  }
}
