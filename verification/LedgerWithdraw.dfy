/** What a batch withdrawal amounts to: it depends on the set of ids listed and on nothing else, a
    batch can be split into two calls, and a payee whose payments are due is paid. */
module LedgerWithdraw {
  import opened Results
  import opened Sums
  import opened RefundLedger
  import opened LedgerAccounts
  import opened LedgerRuns
  import opened LedgerPayments

  // ---- the loop in closed form ----------------------------------------------------------------

  ghost function Ids(ids: seq<Word>): set<Word> {
    set id | id in ids
  }

  ghost function Due(payment: Payment): nat {
    if payment.withdrawnAmount <= payment.amount then payment.amount - payment.withdrawnAmount else 0
  }

  /** What each of the payments in `ids` still holds. */
  ghost function Dues(p: Payments, ids: set<Word>): map<Word, nat> {
    map id | id in ids :: Due(At(p, id))
  }

  /** The payments with all of `ids` emptied. */
  ghost function Drawn(p: Payments, ids: set<Word>): Payments {
    map id: Word | id in p.Keys + ids ::
      if id in ids then At(p, id).(withdrawnAmount := At(p, id).amount) else p[id]
  }

  ghost predicate AllDrawable(p: Payments, msg: Msg, ids: set<Word>) {
    forall id :: id in ids ==> Drawable(At(p, id), msg)
  }

  ghost predicate Succeeds(p: Payments, msg: Msg, ids: set<Word>, total: nat) {
    AllDrawable(p, msg, ids) && total + MapSum<Word>(Dues(p, ids)) <= MAX_WORD
  }

  ghost function Emptied(p: Payments, id: Word): Payments {
    p[id := At(p, id).(withdrawnAmount := At(p, id).amount)]
  }

  /** Emptying `id` first takes its due out of the rest, even where the rest lists it again. */
  lemma DuesAfterOne(p: Payments, id: Word, rest: set<Word>)
    ensures MapSum<Word>(Dues(p, {id} + rest)) == Due(At(p, id)) + MapSum<Word>(Dues(Emptied(p, id), rest))
  {
    var before, after := Dues(p, {id} + rest), Dues(Emptied(p, id), rest);
    assert before == after[id := Due(At(p, id))];
    assert id in after ==> after[id] == 0;
    MapSumUpdate<Word>(after, id, Due(At(p, id)));
  }

  lemma DrawnAfterOne(p: Payments, id: Word, rest: set<Word>)
    ensures Drawn(p, {id} + rest) == Drawn(Emptied(p, id), rest)
  {
  }

  lemma DrawableAfterOne(p: Payments, msg: Msg, id: Word, rest: set<Word>)
    requires Drawable(At(p, id), msg)
    ensures AllDrawable(p, msg, {id} + rest) <==> AllDrawable(Emptied(p, id), msg, rest)
  {
  }

  lemma SucceedsAfterOne(p: Payments, msg: Msg, id: Word, rest: set<Word>, total: Word)
    ensures Succeeds(p, msg, {id} + rest, total) <==>
      && Drawable(At(p, id), msg)
      && total + Due(At(p, id)) <= MAX_WORD
      && Succeeds(Emptied(p, id), msg, rest, total + Due(At(p, id)))
  {
    DuesAfterOne(p, id, rest);
    assert AllDrawable(p, msg, {id} + rest) ==> Drawable(At(p, id), msg);
    if Drawable(At(p, id), msg) {
      DrawableAfterOne(p, msg, id, rest);
    }
  }

  lemma {:induction false} DrawAllSucceeds(p: Payments, msg: Msg, ids: seq<Word>, total: Word, listed: set<Word>)
    requires listed == Ids(ids)
    ensures DrawAll(p, msg, ids, total).Ok? <==> Succeeds(p, msg, listed, total)
    decreases |ids|
  {
    if ids == [] {
      DrawingNothing(p, msg, total);
      assert listed == {};
    } else {
      var id, rest := ids[0], Ids(ids[1..]);
      DrawAllCons(p, msg, ids, total);
      SucceedsCons(p, msg, ids, total, listed, rest);
      if Drawable(At(p, id), msg) && total + Due(At(p, id)) <= MAX_WORD {
        DrawAllSucceeds(Emptied(p, id), msg, ids[1..], total + Due(At(p, id)), rest);
      }
    }
  }

  lemma SucceedsCons(p: Payments, msg: Msg, ids: seq<Word>, total: Word, listed: set<Word>, rest: set<Word>)
    requires ids != [] && listed == Ids(ids) && rest == Ids(ids[1..])
    ensures Succeeds(p, msg, listed, total) <==>
      && Drawable(At(p, ids[0]), msg)
      && total + Due(At(p, ids[0])) <= MAX_WORD
      && Succeeds(Emptied(p, ids[0]), msg, rest, total + Due(At(p, ids[0])))
  {
    IdsCons(ids);
    SucceedsAfterOne(p, msg, ids[0], rest, total);
  }

  lemma {:induction false} DrawAllLeaves(p: Payments, msg: Msg, ids: seq<Word>, total: Word, listed: set<Word>)
    requires listed == Ids(ids)
    requires DrawAll(p, msg, ids, total).Ok?
    ensures DrawAll(p, msg, ids, total).value.0 == Drawn(p, listed)
    ensures DrawAll(p, msg, ids, total).value.1 == total + MapSum<Word>(Dues(p, listed))
    decreases |ids|
  {
    if ids == [] {
      DrawingNothing(p, msg, total);
      assert listed == {};
    } else {
      var next, sum, rest := Emptied(p, ids[0]), total + Due(At(p, ids[0])), Ids(ids[1..]);
      DrawAllCons(p, msg, ids, total);
      assert DrawAll(p, msg, ids, total) == DrawAll(next, msg, ids[1..], sum);
      DrawAllLeaves(next, msg, ids[1..], sum, rest);
      DrawnCons(p, ids, listed, rest);
    }
  }

  lemma DrawnCons(p: Payments, ids: seq<Word>, listed: set<Word>, rest: set<Word>)
    requires ids != [] && listed == Ids(ids) && rest == Ids(ids[1..])
    ensures Drawn(p, listed) == Drawn(Emptied(p, ids[0]), rest)
    ensures MapSum<Word>(Dues(p, listed)) == Due(At(p, ids[0])) + MapSum<Word>(Dues(Emptied(p, ids[0]), rest))
  {
    IdsCons(ids);
    DuesAfterOne(p, ids[0], rest);
    DrawnAfterOne(p, ids[0], rest);
  }

  /** withdraw's loop succeeds exactly if every listed payment is due and the sum over the set of
      listed ids fits a word; it then empties that set and adds its sum, once for each id. */
  lemma DrawAllClosedForm(p: Payments, msg: Msg, ids: seq<Word>, total: Word)
    ensures DrawAll(p, msg, ids, total).Ok? <==> Succeeds(p, msg, Ids(ids), total)
    ensures DrawAll(p, msg, ids, total).Ok? ==>
      DrawAll(p, msg, ids, total).value == (Drawn(p, Ids(ids)), total + MapSum<Word>(Dues(p, Ids(ids))))
  {
    DrawAllSucceeds(p, msg, ids, total, Ids(ids));
    if DrawAll(p, msg, ids, total).Ok? {
      DrawAllLeaves(p, msg, ids, total, Ids(ids));
    }
  }

  lemma IdsCons(ids: seq<Word>)
    requires ids != []
    ensures Ids(ids) == {ids[0]} + Ids(ids[1..])
  {
  }

  lemma DrawAllCons(p: Payments, msg: Msg, ids: seq<Word>, total: Word)
    requires ids != []
    ensures var drawable := Drawable(At(p, ids[0]), msg) && total + Due(At(p, ids[0])) <= MAX_WORD;
      if drawable then
        DrawAll(p, msg, ids, total) == DrawAll(Emptied(p, ids[0]), msg, ids[1..], total + Due(At(p, ids[0])))
      else
        DrawAll(p, msg, ids, total).Err?
  {
  }

  lemma DrawingNothing(p: Payments, msg: Msg, total: Word)
    ensures Succeeds(p, msg, {}, total) && Dues(p, {}) == map[] && Drawn(p, {}) == p
  {
  }

  // ---- withdraw ---------------------------------------------------------------------------------

  lemma {:induction false} DrawAllAppend(p: Payments, msg: Msg, xs: seq<Word>, ys: seq<Word>, total: Word)
    ensures DrawAll(p, msg, xs + ys, total) ==
      match DrawAll(p, msg, xs, total)
      case Ok((next, sum)) => DrawAll(next, msg, ys, sum)
      case Err(error) => Err(error)
    decreases |xs|
  {
    if xs == [] {
      assert xs + ys == ys;
    } else {
      assert (xs + ys)[1..] == xs[1..] + ys;
      var first := DrawOne(p, msg, xs[0], total);
      if first.Ok? {
        DrawAllAppend(first.value.0, msg, xs[1..], ys, first.value.1);
      }
    }
  }

  /** Starting the loop from another total only shifts the total it ends with. */
  lemma DrawAllShift(p: Payments, msg: Msg, ids: seq<Word>, total: Word)
    ensures DrawAll(p, msg, ids, total).Ok? ==> DrawAll(p, msg, ids, 0).Ok?
    ensures DrawAll(p, msg, ids, 0).Ok? ==>
      var (next, sum) := DrawAll(p, msg, ids, 0).value;
      (DrawAll(p, msg, ids, total) == Ok((next, total + sum)) <==> total + sum <= MAX_WORD)
      && (DrawAll(p, msg, ids, total).Ok? <==> total + sum <= MAX_WORD)
  {
    DrawAllClosedForm(p, msg, ids, 0);
    DrawAllClosedForm(p, msg, ids, total);
  }

  lemma SettleTwiceIsSettleOnce(s: State, recipient: Address)
    requires Read(s.debts, s.arbiter) == 0
    requires SettleDebt(s, recipient).Ok?
    ensures var t := SettleDebt(s, recipient).value;
      && SettleDebt(t, recipient) == Ok(t)
      && (Read(t.debts, recipient) == 0 || Read(t.balances, recipient) == 0)
      && Total(t.balances) == Total(s.balances)
  {
    var debt, balance := Read(s.debts, recipient), Read(s.balances, recipient);
    var settled: Word := if balance < debt then balance else debt;
    var charged := s.balances[recipient := balance - settled];
    TotalWrite(s.balances, recipient, balance - settled);
    TotalWrite(charged, s.arbiter, Read(charged, s.arbiter) + settled);
    SettlingNothing(SettleDebt(s, recipient).value, recipient);
  }

  lemma SettlingNothing(s: State, recipient: Address)
    requires Read(s.debts, recipient) == 0 || Read(s.balances, recipient) == 0
    requires recipient in s.balances && recipient in s.debts && s.arbiter in s.balances
    ensures SettleDebt(s, recipient) == Ok(s)
  {
    assert s.balances[recipient := Read(s.balances, recipient)] == s.balances;
    assert s.balances[s.arbiter := Read(s.balances, s.arbiter)] == s.balances;
    assert s.debts[recipient := Read(s.debts, recipient)] == s.debts;
  }

  /** A withdraw that pays anything leaves its caller without debt. */
  lemma DebtBeforePayout(s: State, msg: Msg, ids: seq<Word>)
    requires WellFormed(s) && msg.sender != s.self
    requires Withdraw(s, msg, ids).Ok?
    requires Read(Withdraw(s, msg, ids).value.tokens, msg.sender) > Read(s.tokens, msg.sender)
    ensures Read(Withdraw(s, msg, ids).value.debts, msg.sender) == 0
  {
    SettleTwiceIsSettleOnce(s, msg.sender);
  }

  lemma DrawAllIsASet(p: Payments, msg: Msg, xs: seq<Word>, ys: seq<Word>)
    requires Ids(xs) == Ids(ys)
    ensures DrawAll(p, msg, xs, 0).Ok? <==> DrawAll(p, msg, ys, 0).Ok?
    ensures DrawAll(p, msg, xs, 0).Ok? ==> DrawAll(p, msg, xs, 0) == DrawAll(p, msg, ys, 0)
  {
    DrawAllClosedForm(p, msg, xs, 0);
    DrawAllClosedForm(p, msg, ys, 0);
  }

  /** The order of a batch and repetitions in it do not matter: two lists of the same ids succeed
      or fail together and leave the same state. */
  lemma BatchIsASet(s: State, msg: Msg, xs: seq<Word>, ys: seq<Word>)
    requires Ids(xs) == Ids(ys)
    ensures Withdraw(s, msg, xs).Ok? <==> Withdraw(s, msg, ys).Ok?
    ensures Withdraw(s, msg, xs).Ok? ==> Withdraw(s, msg, xs) == Withdraw(s, msg, ys)
  {
    DrawAllIsASet(s.payments, msg, xs, ys);
  }

  /** Moving `x` and then `y` tokens is moving both at once. */
  lemma MoveTwice(tokens: Words, msg: Msg, from: Address, to: Address, x: Word, y: Word)
    requires from != to
    ensures MoveTokens(tokens, msg, from, to, x).Ok? && MoveTokens(MoveTokens(tokens, msg, from, to, x).value, msg, from, to, y).Ok?
      <==> x + y <= MAX_WORD && MoveTokens(tokens, msg, from, to, x + y).Ok?
    ensures x + y <= MAX_WORD && MoveTokens(tokens, msg, from, to, x + y).Ok? ==>
      MoveTokens(MoveTokens(tokens, msg, from, to, x).value, msg, from, to, y) == MoveTokens(tokens, msg, from, to, x + y)
  {
    if x + y <= MAX_WORD && MoveTokens(tokens, msg, from, to, x + y).Ok? {
      var a, b := Read(tokens, from), Read(tokens, to);
      WriteTwice(tokens, from, to, a - x, b + x, a - (x + y), b + (x + y));
    }
  }

  lemma WriteTwice(m: Words, i: Address, j: Address, v: Word, w: Word, v': Word, w': Word)
    requires i != j
    ensures m[i := v][j := w][i := v'][j := w'] == m[i := v'][j := w']
    ensures m[i := v][i := v'] == m[i := v']
  {
  }

  /** Two payouts in a row are one payout of the sum. */
  lemma PayOutTwice(u: State, msg: Msg, p: Payments, q: Payments, x: Word, y: Word)
    requires msg.sender != u.self
    ensures PayOut(u.(payments := p), msg, x).Ok? && PayOut(PayOut(u.(payments := p), msg, x).value.(payments := q), msg, y).Ok?
      <==> x + y <= MAX_WORD && PayOut(u.(payments := q), msg, x + y).Ok?
    ensures x + y <= MAX_WORD && PayOut(u.(payments := q), msg, x + y).Ok? ==>
      PayOut(PayOut(u.(payments := p), msg, x).value.(payments := q), msg, y) == PayOut(u.(payments := q), msg, x + y)
  {
    MoveTwice(u.tokens, msg, u.self, msg.sender, x, y);
    if x + y <= Read(u.balances, msg.sender) {
      var b := Read(u.balances, msg.sender);
      WriteTwice(u.balances, msg.sender, u.self, b - x, 0, b - (x + y), 0);
    }
  }

  /** Two loops in a row are one loop that ends with the sum of both totals. */
  lemma DrawAllInTwo(p: Payments, msg: Msg, xs: seq<Word>, ys: seq<Word>, next: Payments, x: Word)
    requires DrawAll(p, msg, xs, 0) == Ok((next, x))
    ensures DrawAll(p, msg, xs + ys, 0).Ok? <==>
      DrawAll(next, msg, ys, 0).Ok? && x + DrawAll(next, msg, ys, 0).value.1 <= MAX_WORD
    ensures DrawAll(p, msg, xs + ys, 0).Ok? ==>
      DrawAll(p, msg, xs + ys, 0) == Ok((DrawAll(next, msg, ys, 0).value.0, x + DrawAll(next, msg, ys, 0).value.1))
  {
    DrawAllAppend(p, msg, xs, ys, 0);
    DrawAllShift(next, msg, ys, x);
  }

  lemma BatchEqualsSequenceOnceSettled(u: State, msg: Msg, xs: seq<Word>, ys: seq<Word>)
    requires msg.sender != u.self
    ensures DrawAndPayOut(u, msg, xs + ys).Ok? <==>
      DrawAndPayOut(u, msg, xs).Ok? && DrawAndPayOut(DrawAndPayOut(u, msg, xs).value, msg, ys).Ok?
    ensures DrawAndPayOut(u, msg, xs + ys).Ok? ==>
      DrawAndPayOut(u, msg, xs + ys) == DrawAndPayOut(DrawAndPayOut(u, msg, xs).value, msg, ys)
  {
    var first := DrawAll(u.payments, msg, xs, 0);
    if first.Err? {
      DrawAllAppend(u.payments, msg, xs, ys, 0);
    } else {
      var (p, x) := first.value;
      DrawAllInTwo(u.payments, msg, xs, ys, p, x);
      var second := DrawAll(p, msg, ys, 0);
      if second.Ok? {
        PayOutTwice(u, msg, p, second.value.0, x, second.value.1);
      }
    }
  }

  /** A payout leaves nothing to settle. */
  lemma NothingToSettleAfterwards(u: State, msg: Msg, ids: seq<Word>)
    requires SettleDebt(u, msg.sender) == Ok(u)
    requires Read(u.debts, msg.sender) == 0 || Read(u.balances, msg.sender) == 0
    requires msg.sender in u.balances && msg.sender in u.debts && u.arbiter in u.balances
    requires DrawAndPayOut(u, msg, ids).Ok?
    ensures SettleDebt(DrawAndPayOut(u, msg, ids).value, msg.sender) == DrawAndPayOut(u, msg, ids)
  {
    var v := DrawAndPayOut(u, msg, ids).value;
    var total := DrawAll(u.payments, msg, ids, 0).value.1;
    assert 0 <= total <= Read(u.balances, msg.sender);
    assert Read(v.balances, msg.sender) == Read(u.balances, msg.sender) - total;
    SettlingNothing(v, msg.sender);
  }

  /** Batch equals sequence: one withdraw of `xs + ys` succeeds exactly if `xs` and then `ys`
      succeed at the same time, and ends in the same state, although a debt is settled once in the
      one case and twice in the other. */
  lemma BatchEqualsSequence(s: State, msg: Msg, xs: seq<Word>, ys: seq<Word>)
    requires Reachable(s) && msg.sender != s.self
    ensures Withdraw(s, msg, xs + ys).Ok? <==>
      Withdraw(s, msg, xs).Ok? && Withdraw(Withdraw(s, msg, xs).value, msg, ys).Ok?
    ensures Withdraw(s, msg, xs + ys).Ok? ==>
      Withdraw(s, msg, xs + ys) == Withdraw(Withdraw(s, msg, xs).value, msg, ys)
  {
    ReachableFacts(s);
    SettlingNeverReverts(s, msg.sender);
    BatchEqualsSequenceWhereSettled(s, msg, xs, ys);
  }

  lemma BatchEqualsSequenceWhereSettled(s: State, msg: Msg, xs: seq<Word>, ys: seq<Word>)
    requires Read(s.debts, s.arbiter) == 0 && msg.sender != s.self && SettleDebt(s, msg.sender).Ok?
    ensures Withdraw(s, msg, xs + ys).Ok? <==>
      Withdraw(s, msg, xs).Ok? && Withdraw(Withdraw(s, msg, xs).value, msg, ys).Ok?
    ensures Withdraw(s, msg, xs + ys).Ok? ==>
      Withdraw(s, msg, xs + ys) == Withdraw(Withdraw(s, msg, xs).value, msg, ys)
  {
    SettleTwiceIsSettleOnce(s, msg.sender);
    var u := SettleDebt(s, msg.sender).value;
    BatchEqualsSequenceOnceSettled(u, msg, xs, ys);
    var first := DrawAndPayOut(u, msg, xs);
    if first.Ok? {
      NothingToSettleAfterwards(u, msg, xs);
    }
  }

  // ---- payees are paid ----------------------------------------------------------------------------

  /** What the payments in `ids` still hold is part of what `r`'s payments account for, where no
      other payment of `r` weighs against it. */
  lemma {:induction false} DuesWithinClaim(p: Payments, msg: Msg, ids: set<Word>, n: nat)
    requires AllDrawable(p, msg, ids) && Unreached(p, n)
    requires forall id: nat :: id < n && id !in ids ==> Contribution(At(p, id), msg.sender) >= 0
    ensures MapSum<Word>(Dues(p, ids)) <= Claim(p, n, msg.sender)
    decreases |ids|
  {
    if ids == {} {
      assert Dues(p, ids) == map[];
      ClaimNonNegative(p, n, msg.sender);
    } else {
      var id :| id in ids;
      var rest := ids - {id};
      assert ids == {id} + rest;
      assert Drawable(At(p, id), msg);
      DuesAfterOne(p, id, rest);
      DrawableAfterOne(p, msg, id, rest);
      assert n <= id ==> Blank(At(p, id));
      var q := At(p, id).(withdrawnAmount := At(p, id).amount);
      var next := p[id := q];
      UnreachedWrite(p, n, id, q);
      ClaimWrite(p, n, msg.sender, id, q);
      forall i: nat | i < n && i !in rest ensures Contribution(At(next, i), msg.sender) >= 0 {
        assert i != id ==> At(next, i) == At(p, i);
      }
      DuesWithinClaim(next, msg, rest, n);
    }
  }

  lemma {:induction false} ClaimNonNegative(p: Payments, n: nat, r: Address)
    requires forall id: nat :: id < n ==> Contribution(At(p, id), r) >= 0
    ensures Claim(p, n, r) >= 0
  {
    if n > 0 {
      ClaimNonNegative(p, n - 1, r);
      SumBelowSame(n - 1, (i: nat) => Contribution(At(p, i), r), (i: nat) => Contribution(At(p, i), r));
    }
  }

  /** Payees are paid. In every reachable state a payee other than the arbiter, none of whose
      payments was refunded after a payout or overdrawn, can withdraw any list of its released,
      unrefunded payments in full, whatever it owes and whatever others did, as long as the token
      accepts the transfer. */
  lemma PayeesArePaid(s: State, msg: Msg, ids: seq<Word>)
    requires Reachable(s) && msg.sender !in {s.self, s.arbiter}
    requires AllDrawable(s.payments, msg, Ids(ids))
    requires forall id: nat :: id < s.nonce ==> Contribution(At(s.payments, id), msg.sender) >= 0
    requires msg.tokenAccepts && Read(s.tokens, msg.sender) + Read(s.tokens, s.self) <= MAX_WORD
    ensures Withdraw(s, msg, ids).Ok?
    ensures var t := Withdraw(s, msg, ids).value;
      && Read(t.tokens, msg.sender) == Read(s.tokens, msg.sender) + MapSum<Word>(Dues(s.payments, Ids(ids)))
      && t.payments == Drawn(s.payments, Ids(ids))
  {
    SettlingNeverReverts(s, msg.sender);
    SettlingLeaves(s, msg.sender);
    DueIsCovered(s, msg, Ids(ids));
    PaidOnceSettled(SettleDebt(s, msg.sender).value, msg, ids);
  }

  lemma DueIsCovered(s: State, msg: Msg, ids: set<Word>)
    requires Reachable(s) && msg.sender != s.arbiter
    requires AllDrawable(s.payments, msg, ids)
    requires forall id: nat :: id < s.nonce ==> Contribution(At(s.payments, id), msg.sender) >= 0
    ensures MapSum<Word>(Dues(s.payments, ids)) <= Read(s.balances, msg.sender) - Read(s.debts, msg.sender)
    ensures Read(s.balances, msg.sender) <= Read(s.tokens, s.self)
  {
    ReachableFacts(s);
    assert Standing(s, msg.sender) == 0;
    DuesWithinClaim(s.payments, msg, ids, s.nonce);
    MapSumBoundsEntry<Address>(s.balances, msg.sender);
  }

  lemma PaidOnceSettled(u: State, msg: Msg, ids: seq<Word>)
    requires msg.sender != u.self
    requires AllDrawable(u.payments, msg, Ids(ids))
    requires MapSum<Word>(Dues(u.payments, Ids(ids))) <= Read(u.balances, msg.sender) <= Read(u.tokens, u.self)
    requires msg.tokenAccepts && Read(u.tokens, msg.sender) + Read(u.tokens, u.self) <= MAX_WORD
    ensures DrawAndPayOut(u, msg, ids).Ok?
    ensures var t := DrawAndPayOut(u, msg, ids).value;
      && Read(t.tokens, msg.sender) == Read(u.tokens, msg.sender) + MapSum<Word>(Dues(u.payments, Ids(ids)))
      && t.payments == Drawn(u.payments, Ids(ids))
  {
    DrawAllClosedForm(u.payments, msg, ids, 0);
  }

  lemma SettlingLeaves(s: State, recipient: Address)
    requires recipient != s.arbiter && SettleDebt(s, recipient).Ok?
    ensures var u := SettleDebt(s, recipient).value;
      && u == s.(balances := u.balances, debts := u.debts)
      && Read(s.balances, recipient) - Read(s.debts, recipient) <= Read(u.balances, recipient) <= Read(s.balances, recipient)
  {
  }
}
