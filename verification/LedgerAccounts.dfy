/** What one transaction does to the accounts of the ledger: the claims of each payee, the
    arbiter's position, and the tokens the contract holds beyond the balances it owes. */
module LedgerAccounts {
  import opened Results
  import opened Sums
  import opened RefundLedger

  /** What payment `p` adds to the account of `r`: what is left to withdraw, or, once refunded,
      minus what had been withdrawn before. */
  ghost function Contribution(p: Payment, r: Address): int {
    if p.to != r then 0
    else if p.refunded then 0 - p.withdrawnAmount as int
    else p.amount - p.withdrawnAmount
  }

  /** The contributions to `r` of the first `n` payments. */
  ghost function Claim(p: Payments, n: nat, r: Address): int {
    SumBelow(n, (id: nat) => Contribution(At(p, id), r))
  }

  ghost function Total(m: Words): nat {
    MapSum(m)
  }

  /** Zero when `r`'s balance less its debt is exactly what its payments account for. */
  ghost function Standing(s: State, r: Address): int {
    Read(s.balances, r) - Read(s.debts, r) - Claim(s.payments, s.nonce, r)
  }

  /** The arbiter's balance and everything it has lent, less what it is owed as a payee. */
  ghost function ArbiterPosition(s: State): int {
    Read(s.balances, s.arbiter) + Total(s.debts) - Claim(s.payments, s.nonce, s.arbiter)
  }

  /** Tokens held beyond the sum of all balances. */
  ghost function Surplus(s: State): int {
    Read(s.tokens, s.self) - Total(s.balances)
  }

  /** Ids that no pay call has reached hold nothing and belong to nobody. */
  ghost predicate Unreached(p: Payments, n: nat) {
    forall id: nat :: n <= id ==> Blank(At(p, id))
  }

  ghost predicate Blank(p: Payment) {
    p.to == ZERO_ADDRESS && p.amount == 0 && p.withdrawnAmount == 0
  }

  ghost predicate WellFormed(s: State) {
    && Unreached(s.payments, s.nonce)
    && Read(s.debts, s.arbiter) == 0
    && forall r: Address :: Read(s.lockupSeconds, r) <= MAX_LOCKUP_SECONDS
  }

  function SeqSum(amounts: seq<Word>): nat {
    if amounts == [] then 0 else amounts[0] + SeqSum(amounts[1..])
  }

  /** What a transaction adds to the arbiter's position. */
  ghost function Income(call: Call): int {
    match call
    case CallDepositArbiterFunds(amount) => amount
    case CallWithdrawArbiterFunds(amount) => 0 - amount as int
    case CallEarlyWithdraw(terms) => terms.feeAmount
    case _ => 0
  }

  /** Tokens that a transaction leaves with the contract without owing them to anyone: sent to it
      by others, or by its own refunds and payouts. */
  ghost function Gift(s: State, call: Call): int {
    match call
    case CallRefundByRecipient(id) => if At(s.payments, id).refundTo == s.self then At(s.payments, id).amount else 0
    case CallRefundByArbiter(id) => if At(s.payments, id).refundTo == s.self then At(s.payments, id).amount else 0
    case CallEarlyWithdraw(terms) =>
      if terms.recipient == s.self then SeqSum(terms.withdrawalAmounts) - terms.feeAmount else 0
    case CallForeignTransfer(_, to, amount) => if to == s.self then amount else 0
    case _ => 0
  }

  /** From `s` to `t` the standing of payee `r`, the arbiter's position and the surplus change by
      these amounts. */
  ghost predicate Moved(s: State, t: State, r: Address, standing: int, position: int, surplus: int) {
    && t.self == s.self && t.arbiter == s.arbiter
    && (r != s.arbiter ==> Standing(t, r) == Standing(s, r) + standing)
    && ArbiterPosition(t) == ArbiterPosition(s) + position
    && Surplus(t) == Surplus(s) + surplus
  }

  /** From `s` to `t`: payee `r` keeps its standing, the arbiter's position grows by `income`, the
      surplus by `gift`. */
  ghost predicate Accounted(s: State, t: State, r: Address, income: int, gift: int) {
    Moved(s, t, r, 0, income, gift)
  }

  // ---- sums under one write ------------------------------------------------------------------

  lemma TotalWrite(m: Words, a: Address, v: Word)
    ensures Total(m[a := v]) == Total(m) - Read(m, a) + v
  {
    MapSumUpdate<Address>(m, a, v);
  }

  lemma ClaimWrite(p: Payments, n: nat, r: Address, id: Word, q: Payment)
    requires n <= id ==> Contribution(q, r) == Contribution(At(p, id), r)
    ensures Claim(p[id := q], n, r) == Claim(p, n, r) - Contribution(At(p, id), r) + Contribution(q, r)
  {
    var f := (i: nat) => Contribution(At(p, i), r);
    var g := (i: nat) => Contribution(At(p[id := q], i), r);
    if id < n {
      SumBelowUpdate(n, f, g, id);
    } else {
      SumBelowSame(n, f, g);
    }
  }

  lemma UnreachedWrite(p: Payments, n: nat, id: Word, q: Payment)
    requires Unreached(p, n)
    requires n <= id ==> Blank(q)
    ensures Unreached(p[id := q], n)
  {
    var written := p[id := q];
    forall i: nat | n <= i ensures Blank(At(written, i)) {
      assert Blank(At(p, i));
    }
  }

  // ---- the batch loops -----------------------------------------------------------------------

  lemma {:induction false} DrawAllAccounts(p: Payments, msg: Msg, ids: seq<Word>, total: Word, n: nat, r: Address)
    requires Unreached(p, n)
    requires DrawAll(p, msg, ids, total).Ok?
    ensures var (after, sum) := DrawAll(p, msg, ids, total).value;
      && total <= sum
      && Unreached(after, n)
      && Claim(after, n, r) == Claim(p, n, r) - (if r == msg.sender then sum - total else 0)
    decreases |ids|
  {
    if ids != [] {
      var (next, sum) := DrawOne(p, msg, ids[0], total).value;
      assert n <= ids[0] ==> Blank(At(p, ids[0]));
      UnreachedWrite(p, n, ids[0], At(next, ids[0]));
      ClaimWrite(p, n, r, ids[0], At(next, ids[0]));
      DrawAllAccounts(next, msg, ids[1..], sum, n, r);
    }
  }

  lemma {:induction false} TakeAllAccounts(p: Payments, recipient: Address, ids: seq<Word>, amounts: seq<Word>,
                                           total: Word, n: nat, r: Address)
    requires Unreached(p, n)
    requires |ids| == |amounts|
    requires TakeAll(p, recipient, ids, amounts, total).Ok?
    ensures var (after, sum) := TakeAll(p, recipient, ids, amounts, total).value;
      && sum == total + SeqSum(amounts)
      && Unreached(after, n)
      && Claim(after, n, r) == Claim(p, n, r) - (if r == recipient then SeqSum(amounts) else 0)
    decreases |ids|
  {
    if ids != [] {
      var (next, sum) := TakeOne(p, recipient, ids[0], amounts[0], total).value;
      assert n <= ids[0] ==> Blank(At(p, ids[0]));
      UnreachedWrite(p, n, ids[0], At(next, ids[0]));
      ClaimWrite(p, n, r, ids[0], At(next, ids[0]));
      TakeAllAccounts(next, recipient, ids[1..], amounts[1..], sum, n, r);
    }
  }

  // ---- one lemma for each entry point that moves value ------------------------------------------

  lemma DepositAccounts(s: State, msg: Msg, amount: Word, r: Address)
    requires msg.sender != s.self
    requires DepositArbiterFunds(s, msg, amount).Ok?
    ensures Accounted(s, DepositArbiterFunds(s, msg, amount).value, r, amount, 0)
  {
    TotalWrite(s.balances, s.arbiter, Read(s.balances, s.arbiter) + amount);
  }

  lemma WithdrawArbiterAccounts(s: State, msg: Msg, amount: Word, r: Address)
    requires msg.sender != s.self
    requires WithdrawArbiterFunds(s, msg, amount).Ok?
    ensures Accounted(s, WithdrawArbiterFunds(s, msg, amount).value, r, 0 - amount as int, 0)
  {
    TotalWrite(s.balances, s.arbiter, Read(s.balances, s.arbiter) - amount);
  }

  lemma SetLockupAccounts(s: State, msg: Msg, recipient: Address, seconds: Word, r: Address)
    requires WellFormed(s)
    requires SetLockupSeconds(s, msg, recipient, seconds).Ok?
    ensures var t := SetLockupSeconds(s, msg, recipient, seconds).value;
      WellFormed(t) && Accounted(s, t, r, 0, 0)
  {
    var t := SetLockupSeconds(s, msg, recipient, seconds).value;
    forall a: Address ensures Read(t.lockupSeconds, a) <= MAX_LOCKUP_SECONDS {
      assert Read(s.lockupSeconds, a) <= MAX_LOCKUP_SECONDS;
    }
  }

  lemma PayAccounts(s: State, msg: Msg, to: Address, amount: Word, refundTo: Address, r: Address)
    requires msg.sender != s.self && WellFormed(s)
    requires Pay(s, msg, to, amount, refundTo).Ok?
    ensures var t := Pay(s, msg, to, amount, refundTo).value;
      WellFormed(t) && Accounted(s, t, r, 0, 0)
  {
    var t := Pay(s, msg, to, amount, refundTo).value;
    var q := t.payments[s.nonce];
    TotalWrite(s.balances, to, Read(s.balances, to) + amount);
    UnreachedWrite(s.payments, s.nonce + 1, s.nonce, q);
    PayClaim(s.payments, s.nonce, q, r);
    PayClaim(s.payments, s.nonce, q, s.arbiter);
  }

  lemma PayClaim(p: Payments, n: Word, q: Payment, r: Address)
    ensures Claim(p[n := q], n + 1, r) == Claim(p, n, r) + Contribution(q, r)
  {
    var f := (i: nat) => Contribution(At(p, i), r);
    var g := (i: nat) => Contribution(At(p[n := q], i), r);
    SumBelowSame(n, f, g);
  }

  lemma SettleAccounts(s: State, recipient: Address, r: Address)
    requires WellFormed(s)
    requires SettleDebt(s, recipient).Ok?
    ensures var t := SettleDebt(s, recipient).value;
      WellFormed(t) && Accounted(s, t, r, 0, 0) && Total(t.balances) == Total(s.balances)
  {
    var debt, balance := Read(s.debts, recipient), Read(s.balances, recipient);
    var settled: Word := if balance < debt then balance else debt;
    var charged := s.balances[recipient := balance - settled];
    TotalWrite(s.balances, recipient, balance - settled);
    TotalWrite(charged, s.arbiter, Read(charged, s.arbiter) + settled);
    TotalWrite(s.debts, recipient, debt - settled);
  }

  lemma WithdrawAccounts(s: State, msg: Msg, ids: seq<Word>, r: Address)
    requires msg.sender != s.self && WellFormed(s)
    requires Withdraw(s, msg, ids).Ok?
    ensures var t := Withdraw(s, msg, ids).value;
      WellFormed(t) && Accounted(s, t, r, 0, 0)
  {
    SettleAccounts(s, msg.sender, r);
    DrawAndPayOutAccounts(SettleDebt(s, msg.sender).value, msg, ids, r);
  }

  lemma DrawAndPayOutAccounts(s: State, msg: Msg, ids: seq<Word>, r: Address)
    requires msg.sender != s.self && WellFormed(s)
    requires DrawAndPayOut(s, msg, ids).Ok?
    ensures var t := DrawAndPayOut(s, msg, ids).value;
      WellFormed(t) && Accounted(s, t, r, 0, 0)
  {
    var (payments, total) := DrawAll(s.payments, msg, ids, 0).value;
    DrawAllAccounts(s.payments, msg, ids, 0, s.nonce, r);
    DrawAllAccounts(s.payments, msg, ids, 0, s.nonce, s.arbiter);
    PayOutAccounts(s.(payments := payments), msg, total, r);
  }

  lemma PayOutAccounts(s: State, msg: Msg, total: Word, r: Address)
    requires msg.sender != s.self && WellFormed(s)
    requires PayOut(s, msg, total).Ok?
    ensures var t := PayOut(s, msg, total).value;
      && WellFormed(t)
      && Moved(s, t, r, if msg.sender == r then 0 - total as int else 0,
               if msg.sender == s.arbiter then 0 - total as int else 0, 0)
  {
    TotalWrite(s.balances, msg.sender, Read(s.balances, msg.sender) - total);
  }

  /** A refund takes the payment's whole amount out of the payee's claim, and out of the tokens
      held unless it comes straight back. */
  lemma ExecuteRefundAccounts(s: State, msg: Msg, id: Word, r: Address)
    requires WellFormed(s)
    requires ExecuteRefund(s, msg, id).Ok?
    ensures var payment, t := At(s.payments, id), ExecuteRefund(s, msg, id).value;
      && WellFormed(t)
      && Moved(s, t, r, if payment.to == r then payment.amount else 0,
               if payment.to == s.arbiter then payment.amount else 0,
               if payment.refundTo == s.self then 0 else 0 - payment.amount as int)
  {
    var q := At(s.payments, id).(refunded := true);
    assert s.nonce <= id ==> Blank(At(s.payments, id));
    UnreachedWrite(s.payments, s.nonce, id, q);
    ClaimWrite(s.payments, s.nonce, r, id, q);
    ClaimWrite(s.payments, s.nonce, s.arbiter, id, q);
  }

  /** `a`'s balance pays. */
  lemma ChargeAccounts(s: State, a: Address, amount: Word, r: Address)
    requires WellFormed(s) && amount <= Read(s.balances, a)
    ensures var t := s.(balances := s.balances[a := Read(s.balances, a) - amount]);
      && WellFormed(t)
      && Moved(s, t, r, if a == r then 0 - amount as int else 0, if a == s.arbiter then 0 - amount as int else 0, amount)
  {
    TotalWrite(s.balances, a, Read(s.balances, a) - amount);
  }

  /** Either `to`'s balance pays, or the arbiter's does and `to` owes it: for `to` it is the same. */
  lemma ChargeOrLendAccounts(s: State, to: Address, amount: Word, r: Address)
    requires WellFormed(s) && ChargeOrLend(s, to, amount).Ok?
    ensures var t := ChargeOrLend(s, to, amount).value;
      && WellFormed(t) && t.payments == s.payments
      && Moved(s, t, r, if to == r then 0 - amount as int else 0, if to == s.arbiter then 0 - amount as int else 0, amount)
  {
    if amount <= Read(s.balances, to) {
      ChargeAccounts(s, to, amount, r);
    } else {
      TotalWrite(s.balances, s.arbiter, Read(s.balances, s.arbiter) - amount);
      TotalWrite(s.debts, to, Read(s.debts, to) + amount);
    }
  }

  /** A refund that was paid for leaves every account as it was, but for the tokens that come
      straight back: `u` is `s` with the payment's amount taken out of what its payee has. */
  lemma PaidRefundAccounts(s: State, u: State, msg: Msg, id: Word, r: Address)
    requires WellFormed(u) && u.payments == s.payments && ExecuteRefund(u, msg, id).Ok?
    requires var payment := At(s.payments, id);
      Moved(s, u, r, if payment.to == r then 0 - payment.amount as int else 0,
            if payment.to == s.arbiter then 0 - payment.amount as int else 0, payment.amount)
    ensures var payment, t := At(s.payments, id), ExecuteRefund(u, msg, id).value;
      WellFormed(t) && Accounted(s, t, r, 0, if payment.refundTo == s.self then payment.amount else 0)
  {
    ExecuteRefundAccounts(u, msg, id, r);
  }

  lemma RefundByRecipientAccounts(s: State, msg: Msg, id: Word, r: Address)
    requires WellFormed(s)
    requires RefundByRecipient(s, msg, id).Ok?
    ensures var t := RefundByRecipient(s, msg, id).value;
      WellFormed(t) && Accounted(s, t, r, 0, Gift(s, CallRefundByRecipient(id)))
  {
    var payment := At(s.payments, id);
    var u := s.(balances := s.balances[payment.to := Read(s.balances, payment.to) - payment.amount]);
    ChargeAccounts(s, payment.to, payment.amount, r);
    PaidRefundAccounts(s, u, msg, id, r);
  }

  lemma RefundByArbiterAccounts(s: State, msg: Msg, id: Word, r: Address)
    requires WellFormed(s)
    requires RefundByArbiter(s, msg, id).Ok?
    ensures var t := RefundByArbiter(s, msg, id).value;
      WellFormed(t) && Accounted(s, t, r, 0, Gift(s, CallRefundByArbiter(id)))
  {
    var payment := At(s.payments, id);
    ChargeOrLendAccounts(s, payment.to, payment.amount, r);
    PaidRefundAccounts(s, ChargeOrLend(s, payment.to, payment.amount).value, msg, id, r);
  }

  lemma UpdateRefundToAccounts(s: State, msg: Msg, id: Word, x: Address, r: Address)
    requires WellFormed(s)
    requires UpdateRefundTo(s, msg, id, x).Ok?
    ensures var t := UpdateRefundTo(s, msg, id, x).value;
      WellFormed(t) && Accounted(s, t, r, 0, 0)
  {
    var q := At(s.payments, id).(refundTo := x);
    assert s.nonce <= id ==> Blank(At(s.payments, id));
    UnreachedWrite(s.payments, s.nonce, id, q);
    ClaimWrite(s.payments, s.nonce, r, id, q);
    ClaimWrite(s.payments, s.nonce, s.arbiter, id, q);
  }

  lemma EarlyWithdrawAccounts(s: State, msg: Msg, terms: EarlyTerms, r: Address)
    requires WellFormed(s)
    requires EarlyWithdrawByArbiter(s, msg, terms).Ok?
    ensures var t := EarlyWithdrawByArbiter(s, msg, terms).value;
      WellFormed(t) && Accounted(s, t, r, terms.feeAmount, Gift(s, CallEarlyWithdraw(terms)))
  {
    var ids, amounts := terms.paymentIDs, terms.withdrawalAmounts;
    TakeAllMoves(s, terms.recipient, ids, amounts, r);
    var (payments, total) := TakeAll(s.payments, terms.recipient, ids, amounts, 0).value;
    PayEarlyMoves(s.(payments := payments), msg, terms, total, r);
  }

  /** The loop takes the total out of the recipient's claim. */
  lemma TakeAllMoves(s: State, recipient: Address, ids: seq<Word>, amounts: seq<Word>, r: Address)
    requires WellFormed(s)
    requires |ids| == |amounts|
    requires TakeAll(s.payments, recipient, ids, amounts, 0).Ok?
    ensures var (payments, total) := TakeAll(s.payments, recipient, ids, amounts, 0).value;
      var t := s.(payments := payments);
      && total == SeqSum(amounts)
      && WellFormed(t)
      && Moved(s, t, r, if recipient == r then total else 0, if recipient == s.arbiter then total else 0, 0)
  {
    TakeAllAccounts(s.payments, recipient, ids, amounts, 0, s.nonce, r);
    TakeAllAccounts(s.payments, recipient, ids, amounts, 0, s.nonce, s.arbiter);
  }

  /** The recipient's balance pays the total, of which the arbiter gets the fee. */
  lemma PayEarlyMoves(s: State, msg: Msg, terms: EarlyTerms, total: Word, r: Address)
    requires WellFormed(s)
    requires PayEarly(s, msg, terms, total).Ok?
    ensures var t := PayEarly(s, msg, terms, total).value;
      && WellFormed(t)
      && Moved(s, t, r, if terms.recipient == r then 0 - total as int else 0,
               terms.feeAmount - (if terms.recipient == s.arbiter then total else 0),
               if terms.recipient == s.self then total - terms.feeAmount else 0)
  {
    ChargeWithFeeAccounts(s, terms.recipient, total, terms.feeAmount, r);
  }

  lemma ChargeWithFeeAccounts(s: State, recipient: Address, total: Word, feeAmount: Word, r: Address)
    requires WellFormed(s) && ChargeWithFee(s, recipient, total, feeAmount).Ok?
    ensures var t := ChargeWithFee(s, recipient, total, feeAmount).value;
      && WellFormed(t)
      && Moved(s, t, r, if recipient == r then 0 - total as int else 0,
               feeAmount - (if recipient == s.arbiter then total else 0), total - feeAmount)
  {
    var charged := s.balances[recipient := Read(s.balances, recipient) - total];
    TotalWrite(s.balances, recipient, Read(s.balances, recipient) - total);
    TotalWrite(charged, s.arbiter, Read(charged, s.arbiter) + feeAmount);
  }

  /** Every entry point: the ledger stays well formed and the three accounts move as stated. */
  lemma StepAccounts(s: State, msg: Msg, call: Call, r: Address)
    requires msg.sender != s.self && WellFormed(s)
    requires Step(s, msg, call).Ok?
    ensures var t := Step(s, msg, call).value;
      WellFormed(t) && Accounted(s, t, r, Income(call), Gift(s, call))
  {
    match call
    case CallDepositArbiterFunds(amount) => DepositAccounts(s, msg, amount, r);
    case CallWithdrawArbiterFunds(amount) => WithdrawArbiterAccounts(s, msg, amount, r);
    case CallSetLockupSeconds(recipient, seconds) => SetLockupAccounts(s, msg, recipient, seconds, r);
    case CallPay(to, amount, refundTo) => PayAccounts(s, msg, to, amount, refundTo, r);
    case CallSettleDebt(recipient) => SettleAccounts(s, recipient, r);
    case CallWithdraw(ids) => WithdrawAccounts(s, msg, ids, r);
    case CallRefundByRecipient(id) => RefundByRecipientAccounts(s, msg, id, r);
    case CallRefundByArbiter(id) => RefundByArbiterAccounts(s, msg, id, r);
    case CallUpdateRefundTo(id, x) => UpdateRefundToAccounts(s, msg, id, x, r);
    case CallEarlyWithdraw(terms) => EarlyWithdrawAccounts(s, msg, terms, r);
    case CallForeignTransfer(_, _, _) =>
  }
}
