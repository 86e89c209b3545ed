/** The two ways in which the agent console adds up simulated usage: by agent and by service. Money
    is exact, in whole units of the smallest denomination. */
module AgentConsole {
  import Sums

  type Money = nat

  /** How many units an agent requests of the service with this slug. */
  datatype Request = Request(slug: string, units: int)

  datatype AgentSeed = AgentSeed(id: string, requests: seq<Request>)

  datatype Usage = Usage(agent: string, slug: string, units: nat, amount: Money)

  datatype AgentStat = AgentStat(id: string, requests: nat, spent: Money, servicesUsed: nat)

  datatype ServiceListing = ServiceListing(slug: string, requests: nat, revenue: Money)

  /** The amount that recording a usage charges: of a service, an agent, units and the number of
      the usage, which fixes its time. */
  type Charge = (string, string, nat, nat) -> Money

  datatype Context = Context(
    totalSpend: Money, agents: seq<AgentStat>, services: seq<ServiceListing>, activity: seq<Usage>)

  // ---- sums over usages and over rows -------------------------------------------------------------

  function Amount(usage: Usage): nat {
    usage.amount
  }

  function Units(usage: Usage): nat {
    usage.units
  }

  function Sum<T>(rows: seq<T>, f: T -> nat): nat {
    if rows == [] then 0 else Sum(rows[..|rows| - 1], f) + f(rows[|rows| - 1])
  }

  function SumFor(usages: seq<Usage>, slug: string, f: Usage -> nat): nat {
    if usages == [] then 0
    else
      var last := usages[|usages| - 1];
      SumFor(usages[..|usages| - 1], slug, f) + if last.slug == slug then f(last) else 0
  }

  lemma {:induction false} SumAppend<T>(xs: seq<T>, ys: seq<T>, f: T -> nat)
    ensures Sum(xs + ys, f) == Sum(xs, f) + Sum(ys, f)
    decreases |ys|
  {
    if ys == [] {
      assert xs + ys == xs;
    } else {
      SumAppend(xs, ys[..|ys| - 1], f);
      assert (xs + ys)[..|xs + ys| - 1] == xs + ys[..|ys| - 1];
    }
  }

  lemma SumForNext(usages: seq<Usage>, usage: Usage, slug: string, f: Usage -> nat)
    ensures SumFor(usages + [usage], slug, f) == SumFor(usages, slug, f) + if usage.slug == slug then f(usage) else 0
  {
  }

  // ---- what is recorded -----------------------------------------------------------------------------

  /** The loop passes over requests for services it does not know and for no units. */
  predicate Recorded(slugs: seq<string>, request: Request) {
    request.slug in slugs && request.units > 0
  }

  /** The usages of one agent's requests, of which the first is usage number `n`. */
  function UsagesOf(slugs: seq<string>, charge: Charge, agent: string, requests: seq<Request>, n: nat): seq<Usage> {
    if requests == [] then []
    else
      var last := requests[|requests| - 1];
      var before := UsagesOf(slugs, charge, agent, requests[..|requests| - 1], n);
      if Recorded(slugs, last) then
        before + [Usage(agent, last.slug, last.units, charge(last.slug, agent, last.units, n + |before|))]
      else before
  }

  function AllUsages(slugs: seq<string>, charge: Charge, agents: seq<AgentSeed>): seq<Usage> {
    if agents == [] then []
    else
      var before := AllUsages(slugs, charge, agents[..|agents| - 1]);
      var last := agents[|agents| - 1];
      before + UsagesOf(slugs, charge, last.id, last.requests, |before|)
  }

  function StatOf(agent: string, usages: seq<Usage>): AgentStat {
    AgentStat(agent, Sum(usages, Units), Sum(usages, Amount), |usages|)
  }

  function Stats(slugs: seq<string>, charge: Charge, agents: seq<AgentSeed>): seq<AgentStat> {
    if agents == [] then []
    else
      var before := agents[..|agents| - 1];
      var last := agents[|agents| - 1];
      Stats(slugs, charge, before)
        + [StatOf(last.id, UsagesOf(slugs, charge, last.id, last.requests, |AllUsages(slugs, charge, before)|))]
  }

  function ListingOf(slug: string, usages: seq<Usage>): ServiceListing {
    ServiceListing(slug, SumFor(usages, slug, Units), SumFor(usages, slug, Amount))
  }

  function Listings(slugs: seq<string>, usages: seq<Usage>): seq<ServiceListing> {
    if slugs == [] then []
    else Listings(slugs[..|slugs| - 1], usages) + [ListingOf(slugs[|slugs| - 1], usages)]
  }

  // ---- the loops ----------------------------------------------------------------------------------------

  /** Both maps hold, for each slug, the sum over the usages. */
  ghost predicate Tallied(requests: map<string, nat>, revenue: map<string, Money>, usages: seq<Usage>) {
    forall slug ::
      Sums.Get(requests, slug) == SumFor(usages, slug, Units) && Sums.Get(revenue, slug) == SumFor(usages, slug, Amount)
  }

  lemma NothingTallied()
    ensures Tallied(map[], map[], [])
  {
  }

  lemma TalliedNext(requests: map<string, nat>, revenue: map<string, Money>, usages: seq<Usage>, usage: Usage)
    requires Tallied(requests, revenue, usages)
    ensures Tallied(requests[usage.slug := Sums.Get(requests, usage.slug) + usage.units],
                    revenue[usage.slug := Sums.Get(revenue, usage.slug) + usage.amount],
                    usages + [usage])
  {
    var requests' := requests[usage.slug := Sums.Get(requests, usage.slug) + usage.units];
    var revenue' := revenue[usage.slug := Sums.Get(revenue, usage.slug) + usage.amount];
    forall slug
      ensures Sums.Get(requests', slug) == SumFor(usages + [usage], slug, Units)
      ensures Sums.Get(revenue', slug) == SumFor(usages + [usage], slug, Amount)
    {
      SumForNext(usages, usage, slug, Units);
      SumForNext(usages, usage, slug, Amount);
    }
  }

  /** The counters that both loops update. */
  class Counters {
    var perServiceRequests: map<string, nat>
    var perServiceRevenue: map<string, Money>
    var activity: seq<Usage>

    constructor ()
      ensures Valid() && activity == []
    {
      perServiceRequests, perServiceRevenue, activity := map[], map[], [];
      new;
      NothingTallied();
    }

    ghost predicate Valid()
      reads this
    {
      Tallied(perServiceRequests, perServiceRevenue, activity)
    }

    method Record(usage: Usage)
      requires Valid()
      modifies this
      ensures Valid() && activity == old(activity) + [usage]
    {
      TalliedNext(perServiceRequests, perServiceRevenue, activity, usage);
      perServiceRequests := perServiceRequests[usage.slug := Sums.Get(perServiceRequests, usage.slug) + usage.units];
      perServiceRevenue := perServiceRevenue[usage.slug := Sums.Get(perServiceRevenue, usage.slug) + usage.amount];
      activity := activity + [usage];
    }

    /** The inner loop, over the requests of one agent. */
    method RecordAgent(slugs: seq<string>, charge: Charge, agent: AgentSeed) returns (stat: AgentStat)
      requires Valid()
      modifies this
      ensures Valid()
      ensures var usages := UsagesOf(slugs, charge, agent.id, agent.requests, |old(activity)|);
        activity == old(activity) + usages && stat == StatOf(agent.id, usages)
    {
      ghost var usages: seq<Usage> := [];
      var spent: Money := 0;
      var requests: nat := 0;
      var used: nat := 0;
      for i := 0 to |agent.requests|
        invariant Valid()
        invariant usages == UsagesOf(slugs, charge, agent.id, agent.requests[..i], |old(activity)|)
        invariant activity == old(activity) + usages
        invariant AgentStat(agent.id, requests, spent, used) == StatOf(agent.id, usages)
      {
        assert agent.requests[..i + 1][..i] == agent.requests[..i];
        var request := agent.requests[i];
        if !Recorded(slugs, request) {
          continue;
        }
        var usage := Usage(agent.id, request.slug, request.units,
                           charge(request.slug, agent.id, request.units, |activity|));
        Record(usage);
        used, requests, spent := used + 1, requests + request.units, spent + usage.amount;
        assert (usages + [usage])[..|usages|] == usages;
        usages := usages + [usage];
      }
      assert agent.requests[..|agent.requests|] == agent.requests;
      return AgentStat(agent.id, requests, spent, used);
    }
  }

  method GetAgentConsoleContext(slugs: seq<string>, agents: seq<AgentSeed>, charge: Charge) returns (context: Context)
    ensures context.activity == AllUsages(slugs, charge, agents)
    ensures context.agents == Stats(slugs, charge, agents)
    ensures context.services == Listings(slugs, context.activity)
    ensures context.totalSpend == Sum(context.agents, (a: AgentStat) => a.spent)
  {
    var counters := new Counters();
    var stats: seq<AgentStat> := [];
    for i := 0 to |agents|
      invariant fresh(counters) && counters.Valid()
      invariant counters.activity == AllUsages(slugs, charge, agents[..i])
      invariant stats == Stats(slugs, charge, agents[..i])
    {
      assert agents[..i + 1][..i] == agents[..i];
      var stat := counters.RecordAgent(slugs, charge, agents[i]);
      stats := stats + [stat];
    }
    assert agents[..|agents|] == agents;
    var services: seq<ServiceListing> := [];
    for i := 0 to |slugs|
      invariant counters.Valid()
      invariant services == Listings(slugs[..i], counters.activity)
    {
      assert slugs[..i + 1][..i] == slugs[..i];
      services := services + [ServiceListing(slugs[i], Sums.Get(counters.perServiceRequests, slugs[i]),
                                             Sums.Get(counters.perServiceRevenue, slugs[i]))];
    }
    assert slugs[..|slugs|] == slugs;
    context := Context(Sum(stats, (a: AgentStat) => a.spent), stats, services, counters.activity);
  }

  // ---- both ways of adding up agree ------------------------------------------------------------------------

  lemma {:induction false} AgentsAddUp(slugs: seq<string>, charge: Charge, agents: seq<AgentSeed>)
    ensures Sum(Stats(slugs, charge, agents), (a: AgentStat) => a.spent) == Sum(AllUsages(slugs, charge, agents), Amount)
    ensures Sum(Stats(slugs, charge, agents), (a: AgentStat) => a.requests) == Sum(AllUsages(slugs, charge, agents), Units)
  {
    if agents != [] {
      var init, last := agents[..|agents| - 1], agents[|agents| - 1];
      AgentsAddUp(slugs, charge, init);
      var before := AllUsages(slugs, charge, init);
      var usages := UsagesOf(slugs, charge, last.id, last.requests, |before|);
      SumAppend(before, usages, Amount);
      SumAppend(before, usages, Units);
      var stats := Stats(slugs, charge, agents);
      assert stats[..|stats| - 1] == Stats(slugs, charge, init);
    }
  }

  /** The sum over the listings, each usage counted as often as its slug is listed. */
  function Counted(slugs: seq<string>, usages: seq<Usage>, f: Usage -> nat): nat {
    Sum(usages, (u: Usage) => multiset(slugs)[u.slug] * f(u))
  }

  function ListingSum(slugs: seq<string>, usages: seq<Usage>, f: Usage -> nat): nat {
    if slugs == [] then 0
    else ListingSum(slugs[..|slugs| - 1], usages, f) + SumFor(usages, slugs[|slugs| - 1], f)
  }

  lemma {:induction false} ListingSumAppend(slugs: seq<string>, usages: seq<Usage>, last: Usage, f: Usage -> nat)
    ensures ListingSum(slugs, usages + [last], f) == ListingSum(slugs, usages, f) + multiset(slugs)[last.slug] * f(last)
  {
    if slugs != [] {
      var init, slug := slugs[..|slugs| - 1], slugs[|slugs| - 1];
      ListingSumAppend(init, usages, last, f);
      SumForNext(usages, last, slug, f);
      CountLast(slugs, last.slug);
      TimesSum(multiset(init)[last.slug], if slug == last.slug then 1 else 0, f(last));
    }
  }

  lemma CountLast(slugs: seq<string>, slug: string)
    requires slugs != []
    ensures var n := |slugs| - 1;
      multiset(slugs)[slug] == multiset(slugs[..n])[slug] + if slugs[n] == slug then 1 else 0
  {
    assert slugs == slugs[..|slugs| - 1] + [slugs[|slugs| - 1]];
  }

  lemma TimesSum(n: nat, m: nat, x: nat)
    requires m <= 1
    ensures (n + m) * x == n * x + if m == 1 then x else 0
  {
  }

  lemma {:induction false} ListingSumIsCounted(slugs: seq<string>, usages: seq<Usage>, f: Usage -> nat)
    ensures ListingSum(slugs, usages, f) == Counted(slugs, usages, f)
  {
    if usages == [] {
      NothingListed(slugs, f);
    } else {
      var init, last := usages[..|usages| - 1], usages[|usages| - 1];
      ListingSumIsCounted(slugs, init, f);
      ListingSumAppend(slugs, init, last, f);
      assert usages == init + [last];
    }
  }

  lemma {:induction false} NothingListed(slugs: seq<string>, f: Usage -> nat)
    ensures ListingSum(slugs, [], f) == 0
  {
    if slugs != [] {
      NothingListed(slugs[..|slugs| - 1], f);
    }
  }

  lemma {:induction false} ListingsAddUp(slugs: seq<string>, usages: seq<Usage>)
    ensures Sum(Listings(slugs, usages), (s: ServiceListing) => s.revenue) == ListingSum(slugs, usages, Amount)
    ensures Sum(Listings(slugs, usages), (s: ServiceListing) => s.requests) == ListingSum(slugs, usages, Units)
  {
    if slugs != [] {
      var listings := Listings(slugs, usages);
      ListingsAddUp(slugs[..|slugs| - 1], usages);
      assert listings[..|listings| - 1] == Listings(slugs[..|slugs| - 1], usages);
    }
  }

  /** Every usage that counts for something has a slug that is listed once. */
  ghost predicate ListedOnce(slugs: seq<string>, usages: seq<Usage>, f: Usage -> nat) {
    forall i :: 0 <= i < |usages| && f(usages[i]) > 0 ==> multiset(slugs)[usages[i].slug] == 1
  }

  lemma {:induction false} CountedOnce(slugs: seq<string>, usages: seq<Usage>, f: Usage -> nat)
    requires forall i :: 0 <= i < |usages| ==> usages[i].slug in slugs
    ensures Counted(slugs, usages, f) >= Sum(usages, f)
    ensures Counted(slugs, usages, f) == Sum(usages, f) <==> ListedOnce(slugs, usages, f)
  {
    if usages != [] {
      var init, last := usages[..|usages| - 1], usages[|usages| - 1];
      CountedOnce(slugs, init, f);
      assert last.slug in multiset(slugs);
      TimesAtLeastOnce(multiset(slugs)[last.slug], f(last));
      if ListedOnce(slugs, usages, f) {
        forall i | 0 <= i < |init| && f(init[i]) > 0 ensures multiset(slugs)[init[i].slug] == 1 {
          assert init[i] == usages[i];
        }
      } else if ListedOnce(slugs, init, f) {
        forall i | 0 <= i < |usages| - 1 && f(usages[i]) > 0 ensures multiset(slugs)[usages[i].slug] == 1 {
          assert init[i] == usages[i];
        }
      }
    }
  }

  lemma TimesAtLeastOnce(n: nat, x: nat)
    requires n >= 1
    ensures n * x >= x
    ensures n * x == x <==> x == 0 || n == 1
  {
  }

  lemma {:induction false} UsagesAreKnown(slugs: seq<string>, charge: Charge, agents: seq<AgentSeed>)
    ensures forall i :: 0 <= i < |AllUsages(slugs, charge, agents)| ==> AllUsages(slugs, charge, agents)[i].slug in slugs
  {
    if agents != [] {
      var init, last := agents[..|agents| - 1], agents[|agents| - 1];
      UsagesAreKnown(slugs, charge, init);
      AgentUsagesAreKnown(slugs, charge, last.id, last.requests, |AllUsages(slugs, charge, init)|);
    }
  }

  lemma {:induction false} AgentUsagesAreKnown(slugs: seq<string>, charge: Charge, agent: string, requests: seq<Request>, n: nat)
    ensures forall i :: 0 <= i < |UsagesOf(slugs, charge, agent, requests, n)| ==>
      UsagesOf(slugs, charge, agent, requests, n)[i].slug in slugs
  {
    if requests != [] {
      AgentUsagesAreKnown(slugs, charge, agent, requests[..|requests| - 1], n);
    }
  }

  /** The double aggregation. Whatever is requested and whatever each usage costs, the spend and the
      requests of all agents are those of all recorded usages; the revenue and the requests of all
      services are the same again exactly if each usage that counts has a slug listed once. */
  lemma BothSumsAgree(slugs: seq<string>, charge: Charge, agents: seq<AgentSeed>)
    ensures var usages := AllUsages(slugs, charge, agents);
      var stats, listings := Stats(slugs, charge, agents), Listings(slugs, usages);
      && Sum(stats, (a: AgentStat) => a.spent) == Sum(usages, Amount)
      && Sum(stats, (a: AgentStat) => a.requests) == Sum(usages, Units)
      && (Sum(listings, (s: ServiceListing) => s.revenue) == Sum(usages, Amount) <==> ListedOnce(slugs, usages, Amount))
      && (Sum(listings, (s: ServiceListing) => s.requests) == Sum(usages, Units) <==> ListedOnce(slugs, usages, Units))
  {
    var usages := AllUsages(slugs, charge, agents);
    AgentsAddUp(slugs, charge, agents);
    ListingsAddUp(slugs, usages);
    ListingSumIsCounted(slugs, usages, Amount);
    ListingSumIsCounted(slugs, usages, Units);
    UsagesAreKnown(slugs, charge, agents);
    CountedOnce(slugs, usages, Amount);
    CountedOnce(slugs, usages, Units);
  }

  /** Distinct slugs are listed once. */
  lemma {:induction false} DistinctIsListedOnce(slugs: seq<string>, slug: string)
    requires forall i, j :: 0 <= i < j < |slugs| ==> slugs[i] != slugs[j]
    requires slug in slugs
    ensures multiset(slugs)[slug] == 1
  {
    var n := |slugs| - 1;
    assert slugs == slugs[..n] + [slugs[n]];
    if slugs[n] != slug {
      DistinctIsListedOnce(slugs[..n], slug);
    } else {
      assert slug !in slugs[..n];
      assert slug !in multiset(slugs[..n]);
    }
  }

  lemma DistinctSlugsAgree(slugs: seq<string>, charge: Charge, agents: seq<AgentSeed>)
    requires forall i, j :: 0 <= i < j < |slugs| ==> slugs[i] != slugs[j]
    ensures var usages := AllUsages(slugs, charge, agents);
      var stats, listings := Stats(slugs, charge, agents), Listings(slugs, usages);
      && Sum(stats, (a: AgentStat) => a.spent) == Sum(listings, (s: ServiceListing) => s.revenue)
      && Sum(stats, (a: AgentStat) => a.requests) == Sum(listings, (s: ServiceListing) => s.requests)
  {
    var usages := AllUsages(slugs, charge, agents);
    BothSumsAgree(slugs, charge, agents);
    UsagesAreKnown(slugs, charge, agents);
    forall i | 0 <= i < |usages| ensures multiset(slugs)[usages[i].slug] == 1 {
      DistinctIsListedOnce(slugs, usages[i].slug);
    }
  }

  // ---- every request is recorded ----------------------------------------------------------------------------

  /** How many of the requests are for listed slugs and a positive number of units. */
  function Counting(slugs: seq<string>, requests: seq<Request>): nat {
    if requests == [] then 0
    else
      var n := |requests| - 1;
      Counting(slugs, requests[..n]) + if requests[n].slug in slugs && requests[n].units > 0 then 1 else 0
  }

  /** How many units they ask for. */
  function UnitsAsked(slugs: seq<string>, requests: seq<Request>): nat {
    if requests == [] then 0
    else
      var n := |requests| - 1;
      UnitsAsked(slugs, requests[..n]) + if requests[n].slug in slugs && requests[n].units > 0 then requests[n].units else 0
  }

  /** How many such requests all agents together have. */
  function CountingAll(slugs: seq<string>, agents: seq<AgentSeed>): nat {
    if agents == [] then 0
    else CountingAll(slugs, agents[..|agents| - 1]) + Counting(slugs, agents[|agents| - 1].requests)
  }

  lemma {:induction false} AgentUsagesCount(slugs: seq<string>, charge: Charge, agent: string, requests: seq<Request>, n: nat)
    ensures |UsagesOf(slugs, charge, agent, requests, n)| == Counting(slugs, requests)
    ensures Sum(UsagesOf(slugs, charge, agent, requests, n), Units) == UnitsAsked(slugs, requests)
  {
    if requests != [] {
      var init, last := requests[..|requests| - 1], requests[|requests| - 1];
      AgentUsagesCount(slugs, charge, agent, init, n);
      var usages := UsagesOf(slugs, charge, agent, requests, n);
      if last.slug in slugs && last.units > 0 {
        assert usages[..|usages| - 1] == UsagesOf(slugs, charge, agent, init, n);
      }
    }
  }

  lemma {:induction false} UsagesCount(slugs: seq<string>, charge: Charge, agents: seq<AgentSeed>)
    ensures |AllUsages(slugs, charge, agents)| == CountingAll(slugs, agents)
  {
    if agents != [] {
      var init, last := agents[..|agents| - 1], agents[|agents| - 1];
      UsagesCount(slugs, charge, init);
      AgentUsagesCount(slugs, charge, last.id, last.requests, |AllUsages(slugs, charge, init)|);
    }
  }

  /** An agent's q-th request, if it counts, is usage number `n` and those that count before it. */
  lemma {:induction false} AgentRequestIsRecorded(slugs: seq<string>, charge: Charge, agent: string,
                                                  requests: seq<Request>, n: nat, q: nat)
    requires q < |requests| && requests[q].slug in slugs && requests[q].units > 0
    ensures var usages, k := UsagesOf(slugs, charge, agent, requests, n), Counting(slugs, requests[..q]);
      && k < |usages|
      && usages[k] == Usage(agent, requests[q].slug, requests[q].units,
                            charge(requests[q].slug, agent, requests[q].units, n + k))
  {
    var init := requests[..|requests| - 1];
    AgentUsagesCount(slugs, charge, agent, init, n);
    if q < |requests| - 1 {
      AgentRequestIsRecorded(slugs, charge, agent, init, n, q);
      assert init[..q] == requests[..q] && init[q] == requests[q];
    }
  }

  /** Every request of every agent that names a listed slug and a positive number of units is
      recorded, as often as it is made and in the order of agents and requests: its usage number is
      the number of such requests before it, which fixes its time, and there are no other usages. */
  lemma {:induction false} RequestsAreRecorded(slugs: seq<string>, charge: Charge, agents: seq<AgentSeed>, a: nat, q: nat)
    requires a < |agents| && q < |agents[a].requests|
    requires agents[a].requests[q].slug in slugs && agents[a].requests[q].units > 0
    ensures var usages, request := AllUsages(slugs, charge, agents), agents[a].requests[q];
      var k := CountingAll(slugs, agents[..a]) + Counting(slugs, agents[a].requests[..q]);
      && |usages| == CountingAll(slugs, agents)
      && k < |usages|
      && usages[k] == Usage(agents[a].id, request.slug, request.units,
                            charge(request.slug, agents[a].id, request.units, k))
    decreases |agents|
  {
    UsagesCount(slugs, charge, agents);
    var init, last := agents[..|agents| - 1], agents[|agents| - 1];
    UsagesCount(slugs, charge, init);
    if a < |agents| - 1 {
      RequestsAreRecorded(slugs, charge, init, a, q);
      assert init[..a] == agents[..a];
    } else {
      AgentRequestIsRecorded(slugs, charge, last.id, last.requests, CountingAll(slugs, init), q);
    }
  }

  /** Each agent's row is its own: its id, the requests of it that count, their units, and what the
      usages recorded for them cost. */
  lemma {:induction false} RowIsTheAgents(slugs: seq<string>, charge: Charge, agents: seq<AgentSeed>, a: nat)
    requires a < |agents|
    ensures |Stats(slugs, charge, agents)| == |agents|
    ensures var row := Stats(slugs, charge, agents)[a];
      && row.id == agents[a].id
      && row.servicesUsed == Counting(slugs, agents[a].requests)
      && row.requests == UnitsAsked(slugs, agents[a].requests)
      && row.spent ==
         Sum(UsagesOf(slugs, charge, agents[a].id, agents[a].requests, CountingAll(slugs, agents[..a])), Amount)
    decreases |agents|
  {
    var init, last := agents[..|agents| - 1], agents[|agents| - 1];
    if |agents| == 1 {
      assert Stats(slugs, charge, init) == [];
    } else {
      RowIsTheAgents(slugs, charge, init, if a < |init| then a else 0);
      assert a < |init| ==> init[..a] == agents[..a];
    }
    UsagesCount(slugs, charge, init);
    AgentUsagesCount(slugs, charge, last.id, last.requests, |AllUsages(slugs, charge, init)|);
  }

  /** Each service's row is its own: its slug, and the sums over the usages with that slug. */
  lemma {:induction false} ListingIsTheServices(slugs: seq<string>, usages: seq<Usage>, i: nat)
    requires i < |slugs|
    ensures |Listings(slugs, usages)| == |slugs|
    ensures var row := Listings(slugs, usages)[i];
      && row.slug == slugs[i]
      && row.requests == Sum(usages, (u: Usage) => if u.slug == slugs[i] then u.units else 0)
      && row.revenue == Sum(usages, (u: Usage) => if u.slug == slugs[i] then u.amount else 0)
  {
    if |slugs| == 1 {
      assert Listings(slugs[..0], usages) == [];
    } else {
      ListingIsTheServices(slugs[..|slugs| - 1], usages, if i < |slugs| - 1 then i else 0);
    }
    SumForIsSum(usages, slugs[i]);
  }

  lemma {:induction false} SumForIsSum(usages: seq<Usage>, slug: string)
    ensures SumFor(usages, slug, Units) == Sum(usages, (u: Usage) => if u.slug == slug then u.units else 0)
    ensures SumFor(usages, slug, Amount) == Sum(usages, (u: Usage) => if u.slug == slug then u.amount else 0)
  {
    if usages != [] {
      SumForIsSum(usages[..|usages| - 1], slug);
    }
  }
}
