/** The life of one payment over whole runs: who may change it and when, that it is refunded at
    most once, and that it is locked no longer than the limit and paid out no earlier. */
module LedgerPayments {
  import opened Results
  import opened Sums
  import opened RefundLedger
  import opened LedgerAccounts
  import opened LedgerRuns

  /** The sum of the amounts listed for payment `id`. */
  function AmountFor(ids: seq<Word>, amounts: seq<Word>, id: nat): nat
    requires |ids| == |amounts|
    decreases |ids|
  {
    if ids == [] then 0
    else (if ids[0] == id then amounts[0] else 0) + AmountFor(ids[1..], amounts[1..], id)
  }

  // ---- what the batch loops do to one payment ---------------------------------------------------

  /** withdraw's loop empties exactly the listed payments, each of them due: the caller's own,
      released, not refunded and not overdrawn. It changes nothing else. */
  lemma {:induction false} DrawAllPayment(p: Payments, msg: Msg, ids: seq<Word>, total: Word, id: nat)
    requires DrawAll(p, msg, ids, total).Ok?
    ensures var after := DrawAll(p, msg, ids, total).value.0;
      && (id !in ids ==> At(after, id) == At(p, id))
      && (id in ids ==> Drawable(At(p, id), msg) && At(after, id) == At(p, id).(withdrawnAmount := At(p, id).amount))
    decreases |ids|
  {
    if ids != [] {
      var (next, sum) := DrawOne(p, msg, ids[0], total).value;
      DrawAllPayment(next, msg, ids[1..], sum, id);
    }
  }

  ghost predicate Drawable(payment: Payment, msg: Msg) {
    && payment.to == msg.sender
    && payment.releaseTimestamp <= msg.timestamp
    && !payment.refunded
    && payment.withdrawnAmount <= payment.amount
  }

  /** The early withdrawal's loop adds to each listed payment all that is listed for it, and
      changes nothing else. */
  lemma {:induction false} TakeAllPayment(p: Payments, recipient: Address, ids: seq<Word>, amounts: seq<Word>,
                                          total: Word, id: nat)
    requires |ids| == |amounts|
    requires TakeAll(p, recipient, ids, amounts, total).Ok?
    ensures var after := TakeAll(p, recipient, ids, amounts, total).value.0;
      && At(p, id).withdrawnAmount + AmountFor(ids, amounts, id) <= MAX_WORD
      && At(after, id) == At(p, id).(withdrawnAmount := At(p, id).withdrawnAmount + AmountFor(ids, amounts, id))
      && (id in ids ==> At(p, id).to == recipient && !At(p, id).refunded)
      && (id !in ids ==> At(after, id) == At(p, id))
    decreases |ids|
  {
    if ids != [] {
      var (next, sum) := TakeOne(p, recipient, ids[0], amounts[0], total).value;
      TakeAllPayment(next, recipient, ids[1..], amounts[1..], sum, id);
    }
  }

  // ---- one step ---------------------------------------------------------------------------------

  ghost predicate Creates(s: State, call: Call, id: nat) {
    call.CallPay? && id == s.nonce
  }

  ghost predicate Refunds(call: Call, id: nat) {
    (call.CallRefundByRecipient? || call.CallRefundByArbiter?) && call.paymentID == id
  }

  ghost predicate EarlyWithdraws(call: Call, id: nat) {
    call.CallEarlyWithdraw? && id in call.terms.paymentIDs
  }

  /** How payment `id` may change in one step. Its payee, amount and release time never do. What
      was withdrawn grows only by the payee's own withdraw once released, or by an early withdrawal
      that the arbiter sends and the payee signed. It is refunded by its payee or the arbiter,
      once, and redirected only by its refund address. */
  ghost predicate Evolves(s: State, t: State, msg: Msg, call: Call, id: nat) {
    var p, q := At(s.payments, id), At(t.payments, id);
    && q.to == p.to && q.amount == p.amount && q.releaseTimestamp == p.releaseTimestamp
    && (q.withdrawnAmount != p.withdrawnAmount ==>
          || (&& call.CallWithdraw? && id in call.paymentIDs && Drawable(p, msg)
              && q.withdrawnAmount == p.amount)
          || (&& EarlyWithdraws(call, id) && |call.terms.paymentIDs| == |call.terms.withdrawalAmounts|
              && msg.sender == s.arbiter && call.terms.signer == p.to && !p.refunded
              && q.withdrawnAmount == p.withdrawnAmount
                   + AmountFor(call.terms.paymentIDs, call.terms.withdrawalAmounts, id)))
    && (q.refunded != p.refunded ==>
          Refunds(call, id) && q.refunded && (msg.sender == p.to || msg.sender == s.arbiter))
    && (q.refundTo != p.refundTo ==>
          call.CallUpdateRefundTo? && call.paymentID == id && msg.sender == p.refundTo)
  }

  lemma StepEvolves(s: State, msg: Msg, call: Call, id: nat)
    requires Step(s, msg, call).Ok?
    requires !Creates(s, call, id)
    ensures Evolves(s, Step(s, msg, call).value, msg, call, id)
    ensures Refunds(call, id) ==> !At(s.payments, id).refunded && At(Step(s, msg, call).value.payments, id).refunded
  {
    match call
    case CallWithdraw(ids) => WithdrawEvolves(s, msg, ids, id);
    case CallEarlyWithdraw(terms) => EarlyEvolves(s, msg, terms, id);
    case CallRefundByRecipient(_) =>
    case CallRefundByArbiter(refunded) => RefundByArbiterEvolves(s, msg, refunded, id);
    case CallUpdateRefundTo(_, _) =>
    case CallPay(_, _, _) =>
    case _ =>
  }

  lemma WithdrawEvolves(s: State, msg: Msg, ids: seq<Word>, id: nat)
    requires Withdraw(s, msg, ids).Ok?
    ensures Evolves(s, Withdraw(s, msg, ids).value, msg, CallWithdraw(ids), id)
  {
    DrawAllPayment(s.payments, msg, ids, 0, id);
  }

  lemma EarlyEvolves(s: State, msg: Msg, terms: EarlyTerms, id: nat)
    requires EarlyWithdrawByArbiter(s, msg, terms).Ok?
    ensures Evolves(s, EarlyWithdrawByArbiter(s, msg, terms).value, msg, CallEarlyWithdraw(terms), id)
  {
    TakeAllPayment(s.payments, terms.recipient, terms.paymentIDs, terms.withdrawalAmounts, 0, id);
  }

  lemma RefundByArbiterEvolves(s: State, msg: Msg, refunded: Word, id: nat)
    requires RefundByArbiter(s, msg, refunded).Ok?
    ensures Evolves(s, RefundByArbiter(s, msg, refunded).value, msg, CallRefundByArbiter(refunded), id)
    ensures refunded == id ==> !At(s.payments, id).refunded && At(RefundByArbiter(s, msg, refunded).value.payments, id).refunded
  {
  }

  /** An effective early withdrawal marks a digest that was not marked; nothing else marks one. */
  lemma StepMarksDigest(s: State, msg: Msg, call: Call)
    requires Step(s, msg, call).Ok?
    ensures call.CallEarlyWithdraw? ==> call.terms.digest !in s.withdrawalHashes
    ensures Step(s, msg, call).value.withdrawalHashes
      == s.withdrawalHashes + if call.CallEarlyWithdraw? then {call.terms.digest} else {}
  {
  }

  // ---- over whole runs ----------------------------------------------------------------------------

  /** How often an early withdrawal with this digest took effect. */
  ghost function DigestUses(s: State, txs: seq<Transaction>, digest: Word): nat
    decreases |txs|
  {
    if txs == [] then 0
    else
      (if Step(s, txs[0].0, txs[0].1).Ok? && txs[0].1.CallEarlyWithdraw? && txs[0].1.terms.digest == digest then 1 else 0)
        + DigestUses(After(s, txs[0]), txs[1..], digest)
  }

  /** Signed terms take effect at most once, and exactly if their digest ends up marked. */
  lemma {:induction false} DigestUsedAtMostOnce(s: State, txs: seq<Transaction>, digest: Word)
    ensures DigestUses(s, txs, digest) <= 1
    ensures DigestUses(s, txs, digest) == 1 <==>
      digest !in s.withdrawalHashes && digest in Run(s, txs).withdrawalHashes
    ensures digest in s.withdrawalHashes ==> digest in Run(s, txs).withdrawalHashes
    decreases |txs|
  {
    if txs != [] {
      if Step(s, txs[0].0, txs[0].1).Ok? {
        StepMarksDigest(s, txs[0].0, txs[0].1);
      }
      DigestUsedAtMostOnce(After(s, txs[0]), txs[1..], digest);
    }
  }

  /** The ids in use only grow, by one with each effective pay call, and a payment made earlier
      keeps its payee, amount and release time. */
  lemma AfterKeepsTerms(s: State, tx: Transaction, id: nat)
    requires WellFormed(s) && tx.0.sender != s.self
    ensures var t := After(s, tx);
      && WellFormed(t) && t.self == s.self
      && t.nonce == s.nonce + (if Step(s, tx.0, tx.1).Ok? && tx.1.CallPay? then 1 else 0)
      && (id < s.nonce ==> SameTerms(At(s.payments, id), At(t.payments, id)))
  {
    if Step(s, tx.0, tx.1).Ok? {
      StepAccounts(s, tx.0, tx.1, s.arbiter);
      StepCountsIds(s, tx.0, tx.1);
      if id < s.nonce {
        StepEvolves(s, tx.0, tx.1, id);
      }
    }
  }

  lemma StepCountsIds(s: State, msg: Msg, call: Call)
    requires Step(s, msg, call).Ok?
    ensures Step(s, msg, call).value.nonce == s.nonce + if call.CallPay? then 1 else 0
  {
  }

  ghost predicate SameTerms(p: Payment, q: Payment) {
    q.to == p.to && q.amount == p.amount && q.releaseTimestamp == p.releaseTimestamp
  }

  // ---- locks ----------------------------------------------------------------------------------------

  /** Transaction `k` of the run made payment `id`, and set its release within the longest lockup. */
  ghost predicate PaidAt(s: State, txs: seq<Transaction>, k: nat, id: nat, payment: Payment)
    requires k < |txs|
  {
    var u := Run(s, txs[..k]);
    var (msg, call) := txs[k];
    && Creates(u, call, id)
    && Step(u, msg, call).Ok?
    && payment.to == call.to
    && payment.amount == call.amount
    && payment.releaseTimestamp == msg.timestamp + Read(u.lockupSeconds, call.to)
    && msg.timestamp <= payment.releaseTimestamp <= msg.timestamp + 15_552_000
  }

  /** Every payment was made by one pay call. Its payee, its amount and a release time at most 180
      days after that call are what they were then, whatever happened to lockups since. */
  lemma {:induction false} LockIsFixedAtPayment(s: State, txs: seq<Transaction>, id: nat)
    requires WellFormed(s) && Outside(s.self, txs)
    requires s.nonce <= id < Run(s, txs).nonce
    ensures exists k: nat :: k < |txs| && PaidAt(s, txs, k, id, At(Run(s, txs).payments, id))
    decreases |txs|
  {
    var n := |txs| - 1;
    var init, last := txs[..n], txs[n..];
    assert txs == init + last;
    RunAppend(s, init, last);
    var u := Run(s, init);
    assert Run(s, txs) == After(u, txs[n]);
    RunAccounts(s, init, s.arbiter);
    AfterKeepsTerms(u, txs[n], id);
    if id < u.nonce {
      LockIsFixedAtPayment(s, init, id);
      var k: nat :| k < n && PaidAt(s, init, k, id, At(u.payments, id));
      assert init[..k] == txs[..k] && init[k] == txs[k];
      assert PaidAt(s, txs, k, id, At(Run(s, txs).payments, id));
    } else {
      PayFixesTerms(u, txs[n].0, txs[n].1);
      assert PaidAt(s, txs, n, id, At(Run(s, txs).payments, id));
    }
  }

  lemma PayFixesTerms(u: State, msg: Msg, call: Call)
    requires WellFormed(u) && call.CallPay? && Step(u, msg, call).Ok?
    ensures var payment := At(Step(u, msg, call).value.payments, u.nonce);
      && payment.to == call.to && payment.amount == call.amount
      && payment.releaseTimestamp == msg.timestamp + Read(u.lockupSeconds, call.to)
      && Read(u.lockupSeconds, call.to) <= MAX_LOCKUP_SECONDS
  {
  }

  // ---- lockups and refund addresses are what was last set ----------------------------------------------

  /** The lockup that the last effective setLockupSeconds of the run gives `r`, or `before`. */
  ghost function LastLockup(s: State, txs: seq<Transaction>, r: Address, before: Word): Word
    decreases |txs|
  {
    if txs == [] then before
    else
      var (msg, call) := txs[0];
      LastLockup(After(s, txs[0]), txs[1..], r,
        if Step(s, msg, call).Ok? && call.CallSetLockupSeconds? && call.recipient == r then call.seconds else before)
  }

  lemma StepSetsLockup(s: State, msg: Msg, call: Call, r: Address)
    requires Step(s, msg, call).Ok?
    ensures Read(Step(s, msg, call).value.lockupSeconds, r) ==
      if call.CallSetLockupSeconds? && call.recipient == r then call.seconds else Read(s.lockupSeconds, r)
    ensures call.CallSetLockupSeconds? ==> msg.sender == s.arbiter
  {
  }

  /** A payee's lockup is always what the arbiter last set. */
  lemma {:induction false} LockupIsLastSet(s: State, txs: seq<Transaction>, r: Address)
    ensures Read(Run(s, txs).lockupSeconds, r) == LastLockup(s, txs, r, Read(s.lockupSeconds, r))
    decreases |txs|
  {
    if txs != [] {
      if Step(s, txs[0].0, txs[0].1).Ok? {
        StepSetsLockup(s, txs[0].0, txs[0].1, r);
      }
      LockupIsLastSet(After(s, txs[0]), txs[1..], r);
    }
  }

  /** The refund address that the last effective call of the run gives payment `id`: the pay call
      that made it, or an updateRefundTo by the holder of the address before; or `before`. */
  ghost function LastRefundTo(s: State, txs: seq<Transaction>, id: nat, before: Address): Address
    decreases |txs|
  {
    if txs == [] then before
    else
      LastRefundTo(After(s, txs[0]), txs[1..], id,
        if Step(s, txs[0].0, txs[0].1).Ok? then NextRefundTo(s, txs[0].0, txs[0].1, id, before) else before)
  }

  ghost function NextRefundTo(s: State, msg: Msg, call: Call, id: nat, before: Address): Address {
    if Creates(s, call, id) then call.refundTo
    else if call.CallUpdateRefundTo? && call.paymentID == id && msg.sender == before then call.newRefundTo
    else before
  }

  lemma StepSetsRefundTo(s: State, msg: Msg, call: Call, id: nat)
    requires Step(s, msg, call).Ok?
    ensures var next := At(Step(s, msg, call).value.payments, id).refundTo;
      && next == NextRefundTo(s, msg, call, id, At(s.payments, id).refundTo)
      && (next != At(s.payments, id).refundTo ==> next != ZERO_ADDRESS)
      && (Creates(s, call, id) ==> next != ZERO_ADDRESS)
  {
    if !Creates(s, call, id) {
      StepEvolves(s, msg, call, id);
      UpdateSetsRefundTo(s, msg, call, id);
    }
  }

  lemma UpdateSetsRefundTo(s: State, msg: Msg, call: Call, id: nat)
    requires call.CallUpdateRefundTo? && call.paymentID == id ==> Step(s, msg, call).Ok?
    ensures call.CallUpdateRefundTo? && call.paymentID == id ==>
      && At(Step(s, msg, call).value.payments, id).refundTo == call.newRefundTo != ZERO_ADDRESS
      && msg.sender == At(s.payments, id).refundTo
  {
  }

  /** A payment's refund address is always the one last given by who held it, and once the payment
      is made it is never zero. */
  lemma {:induction false} RefundToIsLastSet(s: State, txs: seq<Transaction>, id: nat)
    requires WellFormed(s) && Outside(s.self, txs)
    requires id < s.nonce ==> At(s.payments, id).refundTo != ZERO_ADDRESS
    ensures var t := Run(s, txs);
      && At(t.payments, id).refundTo == LastRefundTo(s, txs, id, At(s.payments, id).refundTo)
      && (id < t.nonce ==> At(t.payments, id).refundTo != ZERO_ADDRESS)
    decreases |txs|
  {
    if txs != [] {
      AfterKeepsTerms(s, txs[0], id);
      if Step(s, txs[0].0, txs[0].1).Ok? {
        StepSetsRefundTo(s, txs[0].0, txs[0].1, id);
      }
      RefundToIsLastSet(After(s, txs[0]), txs[1..], id);
    }
  }

  /** No effective early withdrawal of the run lists payment `id`. */
  ghost predicate NeverEarly(s: State, txs: seq<Transaction>, id: nat)
    decreases |txs|
  {
    txs == [] ||
      (&& (Step(s, txs[0].0, txs[0].1).Ok? ==> !EarlyWithdraws(txs[0].1, id))
       && NeverEarly(After(s, txs[0]), txs[1..], id))
  }

  /** A payment never withdrawn early has paid out nothing or exactly its amount, and nothing at
      all as long as every transaction comes before its release. */
  lemma {:induction false} PaidOutWholeOrNotAtAll(s: State, txs: seq<Transaction>, id: nat)
    requires WellFormed(s) && Outside(s.self, txs) && NeverEarly(s, txs, id)
    requires At(s.payments, id).withdrawnAmount in {0, At(s.payments, id).amount}
    ensures var payment := At(Run(s, txs).payments, id);
      && payment.withdrawnAmount in {0, payment.amount}
      && (id < s.nonce && (forall i :: 0 <= i < |txs| ==> txs[i].0.timestamp < payment.releaseTimestamp)
          ==> payment.withdrawnAmount == At(s.payments, id).withdrawnAmount)
    decreases |txs|
  {
    if txs != [] {
      AfterKeepsTerms(s, txs[0], id);
      AfterPaysWholeOrNot(s, txs[0], id);
      var t := After(s, txs[0]);
      PaidOutWholeOrNotAtAll(t, txs[1..], id);
      var release := At(Run(s, txs).payments, id).releaseTimestamp;
      if id < s.nonce && forall i :: 0 <= i < |txs| ==> txs[i].0.timestamp < release {
        TermsNeverChange(s, txs, id);
        assert txs[0].0.timestamp < release;
        assert forall i :: 0 <= i < |txs| - 1 ==> txs[1..][i] == txs[i + 1];
      }
    }
  }

  lemma AfterPaysWholeOrNot(s: State, tx: Transaction, id: nat)
    requires Step(s, tx.0, tx.1).Ok? ==> !EarlyWithdraws(tx.1, id)
    requires At(s.payments, id).withdrawnAmount in {0, At(s.payments, id).amount}
    ensures var p, q := At(s.payments, id), At(After(s, tx).payments, id);
      && q.withdrawnAmount in {0, q.amount}
      && (id < s.nonce && tx.0.timestamp < p.releaseTimestamp ==> q.withdrawnAmount == p.withdrawnAmount)
  {
    if Step(s, tx.0, tx.1).Ok? && !Creates(s, tx.1, id) {
      StepEvolves(s, tx.0, tx.1, id);
    }
  }

  lemma {:induction false} TermsNeverChange(s: State, txs: seq<Transaction>, id: nat)
    requires WellFormed(s) && Outside(s.self, txs) && id < s.nonce
    ensures SameTerms(At(s.payments, id), At(Run(s, txs).payments, id))
    decreases |txs|
  {
    if txs != [] {
      AfterKeepsTerms(s, txs[0], id);
      TermsNeverChange(After(s, txs[0]), txs[1..], id);
    }
  }

  // ---- early withdrawals may exceed a payment --------------------------------------------------------

  ghost predicate WithinAmount(p: Payments) {
    forall id: nat :: At(p, id).withdrawnAmount <= At(p, id).amount
  }

  /** Each amount is compared with the payment's amount and not with what is left of it, so an
      early withdrawal keeps all payments within their amounts exactly if, for each payment, the
      amounts listed for it together are no more than what is left. */
  lemma EarlyWithdrawalKeepsWithinAmount(s: State, msg: Msg, terms: EarlyTerms)
    requires EarlyWithdrawByArbiter(s, msg, terms).Ok?
    ensures WithinAmount(EarlyWithdrawByArbiter(s, msg, terms).value.payments) <==>
      forall id: nat :: At(s.payments, id).withdrawnAmount
        + AmountFor(terms.paymentIDs, terms.withdrawalAmounts, id) <= At(s.payments, id).amount
  {
    var t := EarlyWithdrawByArbiter(s, msg, terms).value;
    forall id: nat
      ensures At(t.payments, id).amount == At(s.payments, id).amount
      ensures At(t.payments, id).withdrawnAmount == At(s.payments, id).withdrawnAmount
        + AmountFor(terms.paymentIDs, terms.withdrawalAmounts, id)
    {
      TakeAllPayment(s.payments, terms.recipient, terms.paymentIDs, terms.withdrawalAmounts, 0, id);
    }
  }

  /** It can happen: of two payments of 10 the first is listed twice, at 10 each time. */
  lemma EarlyWithdrawalCanExceedAPayment()
    ensures var txs := ExceedingRun();
      && Outside(9, txs)
      && At(Run(Deployed(9, 1, map[2 := 20]), txs).payments, 0).amount == 10
      && At(Run(Deployed(9, 1, map[2 := 20]), txs).payments, 0).withdrawnAmount == 20
  {
  }

  function ExceedingRun(): seq<Transaction> {
    [(Msg(2, 0, true), CallPay(3, 10, 2)),
     (Msg(2, 0, true), CallPay(3, 10, 2)),
     (Msg(1, 0, true), CallEarlyWithdraw(EarlyTerms([0, 0], [10, 10], 0, 5, 3, 77, 3)))]
  }

  /** A payment beyond its amount is never paid out again: no withdraw that lists it succeeds. */
  lemma OverdrawnIsNeverWithdrawn(s: State, msg: Msg, ids: seq<Word>, id: Word)
    requires At(s.payments, id).withdrawnAmount > At(s.payments, id).amount && id in ids
    ensures Withdraw(s, msg, ids).Err?
  {
    if Withdraw(s, msg, ids).Ok? {
      DrawAllPayment(s.payments, msg, ids, 0, id);
    }
  }
}
