/** Whole runs of the contract: the ledger equation, solvency and the arbiter's position hold after
    every list of transactions, whoever sends them and whichever of them revert. */
module LedgerRuns {
  import opened Results
  import opened Sums
  import opened RefundLedger
  import opened LedgerAccounts

  /** The contract is never the sender of a transaction: its code does not call itself. */
  ghost predicate Outside(self: Address, txs: seq<Transaction>) {
    forall i :: 0 <= i < |txs| ==> txs[i].0.sender != self
  }

  ghost function RunIncome(s: State, txs: seq<Transaction>): int
    decreases |txs|
  {
    if txs == [] then 0
    else
      (if Step(s, txs[0].0, txs[0].1).Ok? then Income(txs[0].1) else 0) + RunIncome(After(s, txs[0]), txs[1..])
  }

  ghost function RunGifts(s: State, txs: seq<Transaction>): int
    decreases |txs|
  {
    if txs == [] then 0
    else
      (if Step(s, txs[0].0, txs[0].1).Ok? then Gift(s, txs[0].1) else 0) + RunGifts(After(s, txs[0]), txs[1..])
  }

  lemma {:induction false} RunAppend(s: State, xs: seq<Transaction>, ys: seq<Transaction>)
    ensures Run(s, xs + ys) == Run(Run(s, xs), ys)
    decreases |xs|
  {
    if xs == [] {
      assert xs + ys == ys;
    } else {
      assert (xs + ys)[1..] == xs[1..] + ys;
      RunAppend(After(s, xs[0]), xs[1..], ys);
    }
  }

  lemma {:induction false} RunAccounts(s: State, txs: seq<Transaction>, r: Address)
    requires WellFormed(s) && Outside(s.self, txs)
    ensures WellFormed(Run(s, txs))
    ensures Accounted(s, Run(s, txs), r, RunIncome(s, txs), RunGifts(s, txs))
    decreases |txs|
  {
    if txs != [] {
      if Step(s, txs[0].0, txs[0].1).Ok? {
        StepAccounts(s, txs[0].0, txs[0].1, r);
      }
      RunAccounts(After(s, txs[0]), txs[1..], r);
    }
  }

  lemma DeployedIsWellFormed(self: Address, arbiter: Address, tokens: Words)
    ensures WellFormed(Deployed(self, arbiter, tokens))
    ensures ArbiterPosition(Deployed(self, arbiter, tokens)) == 0
    ensures Surplus(Deployed(self, arbiter, tokens)) == Read(tokens, self)
    ensures forall r: Address :: Standing(Deployed(self, arbiter, tokens), r) == 0
  {
  }

  /** The ledger equation: what a payee's balance exceeds its debt by is exactly what its
      unrefunded payments still hold, less what its refunded ones had already paid out. */
  lemma LedgerEquation(self: Address, arbiter: Address, tokens: Words, txs: seq<Transaction>, r: Address)
    requires Outside(self, txs) && r != arbiter
    ensures var t := Run(Deployed(self, arbiter, tokens), txs);
      Read(t.balances, r) - Read(t.debts, r) == Claim(t.payments, t.nonce, r)
  {
    var s := Deployed(self, arbiter, tokens);
    DeployedIsWellFormed(self, arbiter, tokens);
    assert Standing(s, r) == 0;
    RunAccounts(s, txs, r);
  }

  /** Solvency, as an equation: the tokens held are all balances, plus what was there at the start,
      plus what was given away to the contract. */
  lemma SolvencyEquation(self: Address, arbiter: Address, tokens: Words, txs: seq<Transaction>)
    requires Outside(self, txs)
    ensures var s := Deployed(self, arbiter, tokens);
      var t := Run(s, txs);
      Read(t.tokens, self) == Total(t.balances) + Read(tokens, self) + RunGifts(s, txs)
  {
    DeployedIsWellFormed(self, arbiter, tokens);
    RunAccounts(Deployed(self, arbiter, tokens), txs, arbiter);
  }

  /** A gift is never negative: an early withdrawal's fee is within its total. */
  lemma GiftsAreNonNegative(s: State, msg: Msg, call: Call)
    requires WellFormed(s)
    requires Step(s, msg, call).Ok?
    ensures Gift(s, call) >= 0
  {
    if call.CallEarlyWithdraw? {
      var terms := call.terms;
      TakeAllAccounts(s.payments, terms.recipient, terms.paymentIDs, terms.withdrawalAmounts, 0, s.nonce, s.arbiter);
    }
  }

  lemma {:induction false} RunGiftsAreNonNegative(s: State, txs: seq<Transaction>)
    requires WellFormed(s) && Outside(s.self, txs)
    ensures RunGifts(s, txs) >= 0
    decreases |txs|
  {
    if txs != [] {
      if Step(s, txs[0].0, txs[0].1).Ok? {
        GiftsAreNonNegative(s, txs[0].0, txs[0].1);
        StepAccounts(s, txs[0].0, txs[0].1, s.arbiter);
      }
      RunGiftsAreNonNegative(After(s, txs[0]), txs[1..]);
    }
  }

  /** Solvency: the tokens held always cover all balances, and exactly cover them if and only if
      the contract started without tokens and nothing was given to it. */
  lemma Solvency(self: Address, arbiter: Address, tokens: Words, txs: seq<Transaction>)
    requires Outside(self, txs)
    ensures var s := Deployed(self, arbiter, tokens);
      var t := Run(s, txs);
      && Total(t.balances) <= Read(t.tokens, self)
      && (Total(t.balances) == Read(t.tokens, self) <==> Read(tokens, self) == 0 && RunGifts(s, txs) == 0)
  {
    SolvencyEquation(self, arbiter, tokens, txs);
    DeployedIsWellFormed(self, arbiter, tokens);
    RunGiftsAreNonNegative(Deployed(self, arbiter, tokens), txs);
  }

  /** The arbiter is made whole: its balance and all outstanding debts are together its deposits
      and fees less its withdrawals, plus its own claim where it was a payee. It never owes itself. */
  lemma ArbiterMadeWhole(self: Address, arbiter: Address, tokens: Words, txs: seq<Transaction>)
    requires Outside(self, txs)
    ensures var s := Deployed(self, arbiter, tokens);
      var t := Run(s, txs);
      && Read(t.debts, arbiter) == 0
      && Read(t.balances, arbiter) + Total(t.debts) == RunIncome(s, txs) + Claim(t.payments, t.nonce, arbiter)
      && ((forall id: nat :: id < t.nonce ==> At(t.payments, id).to != arbiter)
          ==> Read(t.balances, arbiter) + Total(t.debts) == RunIncome(s, txs))
  {
    var s := Deployed(self, arbiter, tokens);
    DeployedIsWellFormed(self, arbiter, tokens);
    RunAccounts(s, txs, arbiter);
    var t := Run(s, txs);
    if forall id: nat :: id < t.nonce ==> At(t.payments, id).to != arbiter {
      NoPaymentsNoClaim(t.payments, t.nonce, arbiter);
    }
  }

  lemma {:induction false} NoPaymentsNoClaim(p: Payments, n: nat, r: Address)
    requires forall id: nat :: id < n ==> At(p, id).to != r
    ensures Claim(p, n, r) == 0
  {
    var f := (i: nat) => Contribution(At(p, i), r);
    if n > 0 {
      NoPaymentsNoClaim(p, n - 1, r);
      SumBelowSame(n - 1, f, (i: nat) => Contribution(At(p, i), r));
    }
  }

  /** A state some run of a deployed contract leads to. */
  ghost predicate Reachable(s: State) {
    exists arbiter: Address, tokens: Words, txs: seq<Transaction> ::
      Outside(s.self, txs) && s == Run(Deployed(s.self, arbiter, tokens), txs)
  }

  lemma ReachableFacts(s: State)
    requires Reachable(s)
    ensures WellFormed(s)
    ensures Total(s.balances) <= Read(s.tokens, s.self)
    ensures forall r: Address :: r != s.arbiter ==> Standing(s, r) == 0
  {
    var arbiter: Address, tokens: Words, txs: seq<Transaction> :|
      Outside(s.self, txs) && s == Run(Deployed(s.self, arbiter, tokens), txs);
    DeployedIsWellFormed(s.self, arbiter, tokens);
    RunAccounts(Deployed(s.self, arbiter, tokens), txs, arbiter);
    Solvency(s.self, arbiter, tokens, txs);
    forall r: Address | r != s.arbiter ensures Standing(s, r) == 0 {
      LedgerEquation(s.self, arbiter, tokens, txs, r);
    }
  }

  /** In a reachable state settling a debt cannot overflow, because all balances together are
      tokens the contract holds. */
  lemma SettlingNeverReverts(s: State, recipient: Address)
    requires Reachable(s)
    ensures SettleDebt(s, recipient).Ok?
  {
    ReachableFacts(s);
    var debt, balance := Read(s.debts, recipient), Read(s.balances, recipient);
    var settled: Word := if balance < debt then balance else debt;
    var charged := s.balances[recipient := balance - settled];
    TotalWrite(s.balances, recipient, balance - settled);
    MapSumBoundsEntry<Address>(charged, s.arbiter);
  }

  /** Neither can a deposit, and a payment panics only where its id or its release time does. */
  lemma CreditsNeverOverflow(s: State, msg: Msg, to: Address, amount: Word, refundTo: Address)
    requires Reachable(s) && msg.sender != s.self
    ensures DepositArbiterFunds(s, msg, amount) != Err(ArithmeticPanic)
    ensures Pay(s, msg, to, amount, refundTo) == Err(ArithmeticPanic) <==>
      && refundTo != ZERO_ADDRESS
      && MoveTokens(s.tokens, msg, msg.sender, s.self, amount).Ok?
      && (msg.timestamp + Read(s.lockupSeconds, to) > MAX_WORD || s.nonce == MAX_WORD)
  {
    ReachableFacts(s);
    MapSumBoundsEntry<Address>(s.balances, s.arbiter);
    MapSumBoundsEntry<Address>(s.balances, to);
  }
}
