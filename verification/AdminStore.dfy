/** The admin store under actions that interleave: risk decisions, delivery retries, and webhook
    replays, which wait for a delivery between looking an event up and recording the outcome. */
module AdminStore {
  import opened Results

  datatype Status = Failed | Succeeded | Other

  datatype ActionRun = ActionRun(actionId: string, status: Status, error: Option<string>)

  /** `details` stands for the fields that no action touches. */
  datatype DeliveryRun = DeliveryRun(
    id: string, details: string, status: Status, attempt: int, lastError: Option<string>,
    actionRuns: seq<ActionRun>, updatedAt: string)

  datatype WebhookEvent = WebhookEvent(
    id: string, details: string, delivered: bool, attempts: int, lastError: Option<string>, deliveredAt: Option<string>)

  datatype ReviewState = Open | Allowed | Reviewing | Blocked

  datatype RiskProfile = RiskProfile(id: string, details: string, reviewState: ReviewState, updatedAt: string)

  datatype RiskAction = Allow | Review | Block

  datatype ReplayOutcome = ReplayOutcome(delivered: bool, error: Option<string>)

  /** The lists of the store, and the replays that are waiting for their delivery, by event id. */
  datatype State = State(
    deliveryRuns: seq<DeliveryRun>,
    webhookEvents: seq<WebhookEvent>,
    riskProfiles: seq<RiskProfile>,
    waiting: multiset<string>)

  // ---- replacing entries ------------------------------------------------------------------------

  function ReplaceAll<T>(list: seq<T>, matches: T -> bool, next: T -> T): seq<T> {
    seq(|list|, i requires 0 <= i < |list| => if matches(list[i]) then next(list[i]) else list[i])
  }

  /** The first entry that matches. */
  function Find<T>(list: seq<T>, matches: T -> bool): Option<T> {
    if list == [] then None
    else if matches(list[0]) then Some(list[0])
    else Find(list[1..], matches)
  }

  ghost predicate IsLastMatch<T>(list: seq<T>, matches: T -> bool, i: nat)
    requires i < |list|
  {
    matches(list[i]) && forall j :: i < j < |list| ==> !matches(list[j])
  }

  /** replaceById: the new list, and the last entry it replaced. */
  method ReplaceById<T>(list: seq<T>, matches: T -> bool, next: T -> T) returns (out: seq<T>, updated: Option<T>)
    ensures out == ReplaceAll(list, matches, next)
    ensures updated.None? <==> Find(list, matches).None?
    ensures updated.Some? ==>
      exists i :: 0 <= i < |list| && IsLastMatch(list, matches, i) && updated.value == next(list[i])
    ensures updated.Some? ==> updated.value in out
  {
    out, updated := [], None;
    ghost var at := 0;
    for i := 0 to |list|
      invariant out == ReplaceAll(list[..i], matches, next)
      invariant updated.None? ==> forall j :: 0 <= j < i ==> !matches(list[j])
      invariant updated.Some? ==> 0 <= at < i && IsLastMatch(list[..i], matches, at) && updated == Some(next(list[at]))
      invariant updated.Some? ==> out[at] == updated.value
    {
      if matches(list[i]) {
        updated := Some(next(list[i]));
        out := out + [next(list[i])];
        at := i;
      } else {
        out := out + [list[i]];
      }
    }
    assert list[..|list|] == list;
    FindsWhereAny(list, matches);
  }

  lemma {:induction false} FindsWhereAny<T>(list: seq<T>, matches: T -> bool)
    ensures Find(list, matches).Some? <==> exists i :: 0 <= i < |list| && matches(list[i])
    ensures Find(list, matches).Some? ==> matches(Find(list, matches).value) && Find(list, matches).value in list
  {
    if list != [] {
      FindsWhereAny(list[1..], matches);
      if i :| 0 <= i < |list| && matches(list[i]) {
        assert i > 0 ==> matches(list[1..][i - 1]);
      }
      if Find(list[1..], matches).Some? {
        var i :| 0 <= i < |list[1..]| && matches(list[1..][i]);
        assert matches(list[i + 1]);
      }
    }
  }

  // ---- actions --------------------------------------------------------------------------------------

  function ReviewStateOf(action: RiskAction): ReviewState {
    match action
    case Allow => Allowed
    case Review => Reviewing
    case Block => Blocked
  }

  function Decided(profile: RiskProfile, action: RiskAction, now: string): RiskProfile {
    profile.(reviewState := ReviewStateOf(action), updatedAt := now)
  }

  function Rerun(run: ActionRun): ActionRun {
    if run.error.Some? && run.error.value != "" then ActionRun(run.actionId, Succeeded, None) else run
  }

  function Retried(run: DeliveryRun, now: string): DeliveryRun {
    run.(status := Succeeded, attempt := run.attempt + 1, lastError := None, updatedAt := now,
         actionRuns := seq(|run.actionRuns|, i requires 0 <= i < |run.actionRuns| => Rerun(run.actionRuns[i])))
  }

  function Replayed(event: WebhookEvent, outcome: ReplayOutcome, now: string): WebhookEvent {
    event.(delivered := outcome.delivered, attempts := event.attempts + 1, lastError := outcome.error,
           deliveredAt := if outcome.delivered then Some(now) else event.deliveredAt)
  }

  datatype Action =
    | DecideRisk(id: string, action: RiskAction, now: string)
    | RetryDelivery(id: string, now: string)
    | StartReplay(id: string)
    | FinishReplay(id: string, outcome: ReplayOutcome, now: string)

  predicate Retries(s: State, id: string) {
    var target := Find(s.deliveryRuns, (r: DeliveryRun) => r.id == id);
    target.Some? && target.value.status == Failed
  }

  /** An action that cannot happen, such as the end of a replay that was not started, changes
      nothing. */
  function Step(s: State, a: Action): State {
    match a
    case DecideRisk(id, action, now) =>
      s.(riskProfiles := ReplaceAll(s.riskProfiles, (p: RiskProfile) => p.id == id, (p: RiskProfile) => Decided(p, action, now)))
    case RetryDelivery(id, now) =>
      if Retries(s, id) then
        s.(deliveryRuns := ReplaceAll(s.deliveryRuns, (r: DeliveryRun) => r.id == id, (r: DeliveryRun) => Retried(r, now)))
      else s
    case StartReplay(id) =>
      if Find(s.webhookEvents, (e: WebhookEvent) => e.id == id).Some? then s.(waiting := s.waiting + multiset{id}) else s
    case FinishReplay(id, outcome, now) =>
      if id in s.waiting then
        s.(webhookEvents := ReplaceAll(s.webhookEvents, (e: WebhookEvent) => e.id == id,
                                       (e: WebhookEvent) => Replayed(e, outcome, now)),
           waiting := s.waiting - multiset{id})
      else s
  }

  function Run(s: State, actions: seq<Action>): State
    decreases |actions|
  {
    if actions == [] then s else Run(Step(s, actions[0]), actions[1..])
  }

  /** The store itself, whose lists are replaced action by action. */
  class Store {
    var deliveryRuns: seq<DeliveryRun>
    var webhookEvents: seq<WebhookEvent>
    var riskProfiles: seq<RiskProfile>
    var waiting: multiset<string>

    constructor (deliveryRuns: seq<DeliveryRun>, webhookEvents: seq<WebhookEvent>, riskProfiles: seq<RiskProfile>)
      ensures View() == State(deliveryRuns, webhookEvents, riskProfiles, multiset{})
    {
      this.deliveryRuns, this.webhookEvents, this.riskProfiles := deliveryRuns, webhookEvents, riskProfiles;
      waiting := multiset{};
    }

    ghost function View(): State
      reads this
    {
      State(deliveryRuns, webhookEvents, riskProfiles, waiting)
    }

    method Decide(id: string, action: RiskAction, now: string) returns (updated: Option<RiskProfile>)
      modifies this
      ensures View() == Step(old(View()), DecideRisk(id, action, now))
      ensures updated.None? <==> forall i :: 0 <= i < |old(riskProfiles)| ==> old(riskProfiles)[i].id != id
      ensures updated.Some? ==> updated.value in riskProfiles && updated.value.id == id
    {
      var matches := (p: RiskProfile) => p.id == id;
      FindsWhereAny(riskProfiles, matches);
      var list, found := ReplaceById(riskProfiles, matches, (p: RiskProfile) => Decided(p, action, now));
      riskProfiles := list;
      updated := found;
    }

    /** Nothing where there is no such run; otherwise the run and whether it has succeeded. */
    method Retry(id: string, now: string) returns (result: Option<(DeliveryRun, bool)>)
      modifies this
      ensures View() == Step(old(View()), RetryDelivery(id, now))
      ensures result.None? <==> forall i :: 0 <= i < |old(deliveryRuns)| ==> old(deliveryRuns)[i].id != id
      ensures result.Some? ==> result.value.0 in deliveryRuns && result.value.0.id == id
      ensures result.Some? ==> (result.value.1 <==> result.value.0.status == Succeeded)
    {
      var matches := (r: DeliveryRun) => r.id == id;
      FindsWhereAny(deliveryRuns, matches);
      var target := Find(deliveryRuns, matches);
      if target.None? {
        return None;
      }
      if target.value.status != Failed {
        return Some((target.value, target.value.status == Succeeded));
      }
      var list, updated := ReplaceById(deliveryRuns, matches, (r: DeliveryRun) => Retried(r, now));
      deliveryRuns := list;
      return if updated.Some? then Some((updated.value, true)) else None;
    }

    /** The part of a replay before it waits for its delivery. */
    method BeginReplay(id: string) returns (found: bool)
      modifies this
      ensures View() == Step(old(View()), StartReplay(id))
      ensures found <==> exists i :: 0 <= i < |webhookEvents| && webhookEvents[i].id == id
    {
      var matches := (e: WebhookEvent) => e.id == id;
      FindsWhereAny(webhookEvents, matches);
      found := Find(webhookEvents, matches).Some?;
      if found {
        waiting := waiting + multiset{id};
      }
    }

    /** The part after it, on whatever the list has become in the meantime. */
    method EndReplay(id: string, outcome: ReplayOutcome, now: string) returns (updated: Option<WebhookEvent>)
      requires id in waiting
      modifies this
      ensures View() == Step(old(View()), FinishReplay(id, outcome, now))
      ensures updated.None? <==> forall i :: 0 <= i < |old(webhookEvents)| ==> old(webhookEvents)[i].id != id
      ensures updated.Some? ==> updated.value in webhookEvents && updated.value.id == id
    {
      var matches := (e: WebhookEvent) => e.id == id;
      FindsWhereAny(webhookEvents, matches);
      var list, found := ReplaceById(webhookEvents, matches, (e: WebhookEvent) => Replayed(e, outcome, now));
      webhookEvents := list;
      waiting := waiting - multiset{id};
      updated := found;
    }
  }

  // ---- no lost updates ----------------------------------------------------------------------------------

  ghost predicate Completes(s: State, a: Action, id: string) {
    a.FinishReplay? && a.id == id && id in s.waiting
  }

  /** How many replays of event `id` complete in the course of the actions. */
  ghost function Completed(s: State, actions: seq<Action>, id: string): nat
    decreases |actions|
  {
    if actions == [] then 0
    else
      (if Completes(s, actions[0], id) then 1 else 0)
        + Completed(Step(s, actions[0]), actions[1..], id)
  }

  /** What the last of them reported, if there was one. */
  ghost function LastReplay(s: State, actions: seq<Action>, id: string): Option<ReplayOutcome>
    decreases |actions|
  {
    if actions == [] then None
    else
      var later := LastReplay(Step(s, actions[0]), actions[1..], id);
      if later.Some? then later
      else if Completes(s, actions[0], id) then Some(actions[0].outcome)
      else None
  }

  /** When the last of them delivered, if one did. */
  ghost function LastDelivery(s: State, actions: seq<Action>, id: string): Option<string>
    decreases |actions|
  {
    if actions == [] then None
    else
      var later := LastDelivery(Step(s, actions[0]), actions[1..], id);
      if later.Some? then later
      else if Completes(s, actions[0], id) && actions[0].outcome.delivered then Some(actions[0].now)
      else None
  }

  lemma StepEvent(s: State, a: Action, k: nat)
    requires k < |s.webhookEvents|
    ensures var t := Step(s, a);
      && |t.webhookEvents| == |s.webhookEvents|
      && var e := s.webhookEvents[k];
         t.webhookEvents[k] == if Completes(s, a, e.id) then Replayed(e, a.outcome, a.now) else e
  {
  }

  /** No update is lost: however replays, retries and decisions interleave, each event counts every
      completed replay of it exactly once, shows the outcome and the error of the last, and the time
      of the last that delivered; and the list keeps its events, their order and everything else
      about them. */
  lemma {:induction false} NoReplayIsLost(s: State, actions: seq<Action>, k: nat)
    requires k < |s.webhookEvents|
    ensures var t := Run(s, actions);
      && |t.webhookEvents| == |s.webhookEvents|
      && var e, f := s.webhookEvents[k], t.webhookEvents[k];
         var last, delivery := LastReplay(s, actions, e.id), LastDelivery(s, actions, e.id);
         && f.id == e.id && f.details == e.details
         && f.attempts == e.attempts + Completed(s, actions, e.id)
         && f.delivered == (if last.Some? then last.value.delivered else e.delivered)
         && f.lastError == (if last.Some? then last.value.error else e.lastError)
         && f.deliveredAt == (if delivery.Some? then delivery else e.deliveredAt)
    decreases |actions|
  {
    if actions != [] {
      StepEvent(s, actions[0], k);
      NoReplayIsLost(Step(s, actions[0]), actions[1..], k);
    }
  }

  // ---- decisions ------------------------------------------------------------------------------------------

  /** The last decision on profile `id`, and when it was taken. */
  ghost function LastDecision(actions: seq<Action>, id: string): Option<(RiskAction, string)>
    decreases |actions|
  {
    if actions == [] then None
    else
      var later := LastDecision(actions[1..], id);
      if later.Some? then later
      else if actions[0].DecideRisk? && actions[0].id == id then Some((actions[0].action, actions[0].now))
      else None
  }

  /** However actions interleave, each profile is in the state of the last decision on it: allowed,
      reviewing or blocked, since then; nothing else about it changes. */
  lemma {:induction false} LastDecisionStands(s: State, actions: seq<Action>, k: nat)
    requires k < |s.riskProfiles|
    ensures var t := Run(s, actions);
      && |t.riskProfiles| == |s.riskProfiles|
      && var p, q := s.riskProfiles[k], t.riskProfiles[k];
         match LastDecision(actions, p.id)
         case None => q == p
         case Some((action, now)) =>
           && q.id == p.id && q.details == p.details && q.updatedAt == now
           && (action == Allow ==> q.reviewState == Allowed)
           && (action == Review ==> q.reviewState == Reviewing)
           && (action == Block ==> q.reviewState == Blocked)
    decreases |actions|
  {
    if actions != [] {
      LastDecisionStands(Step(s, actions[0]), actions[1..], k);
    }
  }

  ghost function Started(s: State, actions: seq<Action>, id: string): nat
    decreases |actions|
  {
    if actions == [] then 0
    else
      (if actions[0].StartReplay? && actions[0].id == id
            && Find(s.webhookEvents, (e: WebhookEvent) => e.id == id).Some? then 1 else 0)
        + Started(Step(s, actions[0]), actions[1..], id)
  }

  /** Every started replay completes or still waits: none completes twice. */
  lemma {:induction false} CompletedWereStarted(s: State, actions: seq<Action>, id: string)
    ensures Completed(s, actions, id) + Run(s, actions).waiting[id] == Started(s, actions, id) + s.waiting[id]
    decreases |actions|
  {
    if actions != [] {
      CompletedWereStarted(Step(s, actions[0]), actions[1..], id);
    }
  }

  // ---- retries ---------------------------------------------------------------------------------------------

  ghost predicate UniqueIds(runs: seq<DeliveryRun>) {
    forall i, j :: 0 <= i < j < |runs| ==> runs[i].id != runs[j].id
  }

  function FailedDeliveries(runs: seq<DeliveryRun>): nat {
    if runs == [] then 0 else FailedDeliveries(runs[..|runs| - 1]) + if runs[|runs| - 1].status == Failed then 1 else 0
  }

  lemma {:induction false} FindUnique(runs: seq<DeliveryRun>, k: nat)
    requires UniqueIds(runs) && k < |runs|
    ensures Find(runs, (r: DeliveryRun) => r.id == runs[k].id) == Some(runs[k])
  {
    var matches := (r: DeliveryRun) => r.id == runs[k].id;
    FindsWhereAny(runs, matches);
    assert matches(runs[k]);
    var found := Find(runs, matches).value;
    assert found.id == runs[k].id;
  }

  /** The count after one entry may have changed. */
  lemma {:induction false} FailedAfterOne(runs: seq<DeliveryRun>, runs': seq<DeliveryRun>, k: nat)
    requires |runs'| == |runs| && k < |runs|
    requires forall i :: 0 <= i < |runs| && i != k ==> runs'[i] == runs[i]
    ensures FailedDeliveries(runs') ==
      FailedDeliveries(runs) - (if runs[k].status == Failed then 1 else 0) + (if runs'[k].status == Failed then 1 else 0)
  {
    var n := |runs| - 1;
    if k == n {
      assert runs'[..n] == runs[..n];
    } else {
      FailedAfterOne(runs[..n], runs'[..n], k);
    }
  }

  /** `u` is the run `r` after a retry: one attempt more, its error cleared, and each action that had
      an error succeeded; all other actions are as they were. */
  ghost predicate RetriedOnce(r: DeliveryRun, u: DeliveryRun) {
    && u.id == r.id && u.details == r.details
    && u.status == Succeeded && u.attempt == r.attempt + 1 && u.lastError == None
    && |u.actionRuns| == |r.actionRuns|
    && forall i :: 0 <= i < |r.actionRuns| ==>
      u.actionRuns[i] == if r.actionRuns[i].error in {None, Some("")} then r.actionRuns[i]
                         else ActionRun(r.actionRuns[i].actionId, Succeeded, None)
  }

  /** A retry lowers the number of failed deliveries by exactly one if its run had failed, and
      otherwise changes nothing at all. */
  lemma RetryFixesOne(s: State, k: nat, now: string)
    requires UniqueIds(s.deliveryRuns) && k < |s.deliveryRuns|
    ensures var run := s.deliveryRuns[k];
      var t := Step(s, RetryDelivery(run.id, now));
      if run.status == Failed then
        && FailedDeliveries(t.deliveryRuns) == FailedDeliveries(s.deliveryRuns) - 1
        && t == s.(deliveryRuns := s.deliveryRuns[k := t.deliveryRuns[k]])
        && RetriedOnce(run, t.deliveryRuns[k]) && t.deliveryRuns[k].updatedAt == now
      else t == s
  {
    var runs := s.deliveryRuns;
    FindUnique(runs, k);
    var t := Step(s, RetryDelivery(runs[k].id, now));
    if runs[k].status == Failed {
      assert t.deliveryRuns == runs[k := Retried(runs[k], now)];
      FailedAfterOne(runs, t.deliveryRuns, k);
    }
  }

  /** `u` is the run `r`, retried at most once, and only if it had failed. */
  ghost predicate RetriedAtMostOnce(r: DeliveryRun, u: DeliveryRun) {
    u == r || (r.status == Failed && RetriedOnce(r, u))
  }

  lemma StepRun(s: State, a: Action, k: nat)
    requires UniqueIds(s.deliveryRuns) && k < |s.deliveryRuns|
    ensures var t := Step(s, a);
      && |t.deliveryRuns| == |s.deliveryRuns| && UniqueIds(t.deliveryRuns)
      && RetriedAtMostOnce(s.deliveryRuns[k], t.deliveryRuns[k])
  {
    if a.RetryDelivery? && s.deliveryRuns[k].id == a.id {
      FindUnique(s.deliveryRuns, k);
    }
  }

  /** Over any interleaving a run is retried at most once, and only if it had failed: a retried run
      has succeeded and is never retried again. */
  lemma {:induction false} RunsAreRetriedAtMostOnce(s: State, actions: seq<Action>, k: nat)
    requires UniqueIds(s.deliveryRuns) && k < |s.deliveryRuns|
    ensures |Run(s, actions).deliveryRuns| == |s.deliveryRuns|
    ensures RetriedAtMostOnce(s.deliveryRuns[k], Run(s, actions).deliveryRuns[k])
    decreases |actions|
  {
    if actions != [] {
      StepRun(s, actions[0], k);
      RunsAreRetriedAtMostOnce(Step(s, actions[0]), actions[1..], k);
    }
  }

  /** How many retries take effect. */
  ghost function EffectiveRetries(s: State, actions: seq<Action>): nat
    decreases |actions|
  {
    if actions == [] then 0
    else
      (if actions[0].RetryDelivery? && Retries(s, actions[0].id) then 1 else 0)
        + EffectiveRetries(Step(s, actions[0]), actions[1..])
  }

  lemma RetriedRun(s: State, id: string) returns (k: nat)
    requires Retries(s, id)
    ensures k < |s.deliveryRuns| && s.deliveryRuns[k].id == id && (UniqueIds(s.deliveryRuns) ==> s.deliveryRuns[k].status == Failed)
  {
    var matches := (r: DeliveryRun) => r.id == id;
    FindsWhereAny(s.deliveryRuns, matches);
    k :| 0 <= k < |s.deliveryRuns| && s.deliveryRuns[k] == Find(s.deliveryRuns, matches).value;
  }

  /** Every effective retry takes one delivery off the failed ones, and nothing else changes their
      number. */
  lemma {:induction false} RetriesAddUp(s: State, actions: seq<Action>)
    requires UniqueIds(s.deliveryRuns)
    ensures FailedDeliveries(Run(s, actions).deliveryRuns) + EffectiveRetries(s, actions) == FailedDeliveries(s.deliveryRuns)
    decreases |actions|
  {
    if actions != [] {
      var a := actions[0];
      var t := Step(s, a);
      if a.RetryDelivery? && Retries(s, a.id) {
        var k := RetriedRun(s, a.id);
        RetryFixesOne(s, k, a.now);
        StepRun(s, a, k);
      }
      RetriesAddUp(t, actions[1..]);
    }
  }
}
