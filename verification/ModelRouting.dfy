/**
  Routing to language models: tier selection, the cheapest model in the best tier that has one,
  and the fallback after a failure. Costs are reals; health probes are a parameter.
*/
module ModelRouting {
  import opened Options
  import opened SearchRanking
  import CB = CircuitBreaking

  datatype Tier = Low | Mid | Top

  datatype Purpose =
    | StoryAnalysis | Planning | CodeGeneration | TestGeneration | CodeReview
    | ErrorAnalysis | Documentation | CommitMessage | SelfReflection

  /** A model of the configuration; its tier is None when the lower-cased label names no tier. */
  datatype Model = Model(id: string, tier: Option<Tier>, costInput: real, costOutput: real) {
    /** The average price, by which models are compared and which an answer reports. */
    function Cost(): (cost: real)
      ensures 2.0 * cost == costInput + costOutput
    {
      (costInput + costOutput) / 2.0
    }
  }

  datatype Provider = Provider(name: string, enabled: bool, models: seq<Model>)

  datatype Selected = Selected(provider: string, model: string, tier: Tier, cost: real)

  /** What a call of `health_check` does. */
  datatype Probe = Healthy | Unhealthy | Raises

  datatype Outcome =
    | Chosen(selected: Selected)
    | NoModel      // "No suitable model found", "No fallback model available"
    | NotFound     // the lookup of a name or id in the configuration fails
    | ProbeRaised

  function Rank(t: Tier): nat {
    match t case Low => 0 case Mid => 1 case Top => 2
  }

  function TaskTier(p: Purpose): Tier {
    match p
    case StoryAnalysis => Mid
    case Planning => Top
    case CodeGeneration => Top
    case TestGeneration => Mid
    case CodeReview => Top
    case ErrorAnalysis => Top
    case Documentation => Low
    case CommitMessage => Low
    case SelfReflection => Mid
  }

  // ---- who is eligible -------------------------------------------------------------------------------

  type Health = map<string, bool>

  predicate Admitted(health: Health, exclude: seq<string>, p: Provider) {
    p.enabled && p.name !in exclude && !(p.name in health && !health[p.name])
  }

  predicate Eligible(providers: seq<Provider>, health: Health, exclude: seq<string>, t: Tier, p: Provider, m: Model) {
    p in providers && Admitted(health, exclude, p) && m in p.models && m.tier == Some(t)
  }

  ghost predicate SomeEligible(providers: seq<Provider>, health: Health, exclude: seq<string>, t: Tier) {
    exists p, m :: Eligible(providers, health, exclude, t, p, m)
  }

  /** `p` and `m` are eligible in `t`, and no eligible model of that tier is cheaper. */
  ghost predicate CheapestIn(providers: seq<Provider>, health: Health, exclude: seq<string>, t: Tier, p: Provider,
                             m: Model)
  {
    && Eligible(providers, health, exclude, t, p, m)
    && forall q, n :: Eligible(providers, health, exclude, t, q, n) ==>
         m.costInput + m.costOutput <= n.costInput + n.costOutput
  }

  /** Provider names are unique, and so are the model ids of every provider. */
  ghost predicate UniqueNames(providers: seq<Provider>) {
    && (forall i, j :: 0 <= i < j < |providers| ==> providers[i].name != providers[j].name)
    && (forall p :: p in providers ==> forall i, j :: 0 <= i < j < |p.models| ==> p.models[i].id != p.models[j].id)
  }

  /** The best routing answer for tier `limit`: a cheapest model of the highest tier not above it that has one. */
  ghost predicate Optimal(providers: seq<Provider>, health: Health, exclude: seq<string>, limit: Tier, s: Selected) {
    && Rank(s.tier) <= Rank(limit)
    && (forall t :: Rank(s.tier) < Rank(t) <= Rank(limit) ==> !SomeEligible(providers, health, exclude, t))
    && exists p, m :: CheapestIn(providers, health, exclude, s.tier, p, m)
         && s.provider == p.name && s.model == m.id && 2.0 * s.cost == m.costInput + m.costOutput
  }

  ghost predicate NoneEligible(providers: seq<Provider>, health: Health, exclude: seq<string>, limit: Tier) {
    forall t :: Rank(t) <= Rank(limit) ==> !SomeEligible(providers, health, exclude, t)
  }

  // ---- lookups by name ----------------------------------------------------------------------------------

  function FindProvider(providers: seq<Provider>, name: string): Option<Provider> {
    if providers == [] then None
    else if providers[0].name == name then Some(providers[0])
    else FindProvider(providers[1..], name)
  }

  function FindModel(models: seq<Model>, id: string): Option<Model> {
    if models == [] then None
    else if models[0].id == id then Some(models[0])
    else FindModel(models[1..], id)
  }

  function CreateSelected(providers: seq<Provider>, name: string, id: string, t: Tier): Outcome {
    match FindProvider(providers, name)
    case None => NotFound
    case Some(p) =>
      match FindModel(p.models, id)
      case None => NotFound
      case Some(m) => Chosen(Selected(name, id, t, m.Cost()))
  }

  lemma {:induction false} FindsProvider(providers: seq<Provider>, p: Provider)
    requires forall i, j :: 0 <= i < j < |providers| ==> providers[i].name != providers[j].name
    requires p in providers
    ensures FindProvider(providers, p.name) == Some(p)
  {
    if providers[0] == p {
    } else {
      var k :| 0 <= k < |providers| && providers[k] == p;
      assert providers[1..][k - 1] == p;
      FindsProvider(providers[1..], p);
    }
  }

  lemma {:induction false} FindsModel(models: seq<Model>, m: Model)
    requires forall i, j :: 0 <= i < j < |models| ==> models[i].id != models[j].id
    requires m in models
    ensures FindModel(models, m.id) == Some(m)
  {
    if models[0] == m {
    } else {
      var k :| 0 <= k < |models| && models[k] == m;
      assert models[1..][k - 1] == m;
      FindsModel(models[1..], m);
    }
  }

  /** The answer names provider and model and reports half the sum of the prices. */
  ghost predicate Creates(r: Outcome, p: Provider, m: Model, t: Tier) {
    && r.Chosen? && r.selected.provider == p.name && r.selected.model == m.id && r.selected.tier == t
    && 2.0 * r.selected.cost == m.costInput + m.costOutput
  }

  lemma CreatesExactly(providers: seq<Provider>, p: Provider, m: Model, t: Tier)
    requires UniqueNames(providers) && p in providers && m in p.models
    ensures Creates(CreateSelected(providers, p.name, m.id, t), p, m, t)
  {
    FindsProvider(providers, p);
    FindsModel(p.models, m);
  }

  // ---- the classes ---------------------------------------------------------------------------------------

  /** The routing context, which `fallback` changes in place. */
  class RoutingContext {
    const purpose: Purpose
    const complexity: real
    var preferredTier: Option<Tier>
    var exclude: seq<string>

    constructor (purpose: Purpose, complexity: real, preferredTier: Option<Tier>, exclude: seq<string>)
      ensures this.purpose == purpose && this.complexity == complexity
      ensures this.preferredTier == preferredTier && this.exclude == exclude
    {
      this.purpose, this.complexity := purpose, complexity;
      this.preferredTier, this.exclude := preferredTier, exclude;
    }

    /** The tier routing starts from. */
    function SelectTier(): Tier
      reads this
    {
      if preferredTier.Some? then preferredTier.value
      else if purpose == CodeGeneration && complexity > 7.0 then Top
      else if purpose == CodeGeneration && complexity < 3.0 then Mid
      else TaskTier(purpose)
    }
  }

  /** A preferred tier wins; without one, only code generation looks at the complexity. */
  lemma SelectTierIff(context: RoutingContext)
    ensures context.SelectTier() == Top <==>
            context.preferredTier == Some(Top)
            || (context.preferredTier == None
                && (context.purpose in {Planning, CodeReview, ErrorAnalysis}
                    || (context.purpose == CodeGeneration && context.complexity >= 3.0)))
    ensures context.SelectTier() == Low <==>
            context.preferredTier == Some(Low)
            || (context.preferredTier == None && context.purpose in {Documentation, CommitMessage})
  {
  }

  /** What a provider's `complete` does. */
  datatype CallResult = Reply(promptTokens: nat, completionTokens: nat) | CallRaised

  datatype Completion =
    | Completed(answeredBy: Selected, promptTokens: nat, completionTokens: nat)
    | Unrouted(reason: Outcome)
    | ProviderMissing
    | Failed

  const BREAKER_CONFIG := CB.Config(5, 60, 2)

  datatype Pick = Pick(provider: Provider, model: Model)

  /** What was recorded per provider. */
  type Histories = map<string, seq<CB.Event>>

  /** The calls recorded for the breaker of provider `n`. */
  function HistoryIn(history: Histories, n: string): seq<CB.Event> {
    if n in history then history[n] else []
  }

  ghost predicate Tracks(breakers: map<string, CB.Breaker>, history: Histories) {
    && breakers.Keys == history.Keys
    && forall n :: n in breakers ==>
         breakers[n] == CB.Run(BREAKER_CONFIG, history[n]) && CB.FailuresAsked(BREAKER_CONFIG, history[n])
  }

  function BreakerIn(breakers: map<string, CB.Breaker>, n: string): CB.Breaker {
    if n in breakers then breakers[n] else CB.INITIAL
  }

  /** Telling a breaker of an event; a failure only right after a query that allowed the request. */
  lemma KeepsTrack(breakers: map<string, CB.Breaker>, history: Histories, n: string, e: CB.Event)
    requires Tracks(breakers, history)
    requires var h := HistoryIn(history, n); e.Failure? ==>
      && h != [] && h[|h| - 1].Query?
      && CB.CanExecute(BREAKER_CONFIG, CB.Run(BREAKER_CONFIG, h[..|h| - 1]), h[|h| - 1].at)
    ensures BreakerIn(breakers, n) == CB.Run(BREAKER_CONFIG, HistoryIn(history, n))
    ensures Tracks(breakers[n := CB.Apply(BREAKER_CONFIG, BreakerIn(breakers, n), e)],
                   history[n := HistoryIn(history, n) + [e]])
  {
    CB.RunSnoc(BREAKER_CONFIG, HistoryIn(history, n), e);
    CB.AskedSnoc(BREAKER_CONFIG, HistoryIn(history, n), e);
  }

  /** Whether the breaker of `n`, with these histories, allows a request. */
  ghost predicate Allows(histories: Histories, n: string, now: real) {
    CB.CanExecute(BREAKER_CONFIG, CB.Run(BREAKER_CONFIG, HistoryIn(histories, n)), now)
  }

  /** From `before` to `after` the calls `evs` of provider `n` were recorded and nothing else. */
  ghost predicate OnlyRecorded(before: Histories, after: Histories, n: string, evs: seq<CB.Event>) {
    && HistoryIn(after, n) == HistoryIn(before, n) + evs
    && forall m :: m != n ==> HistoryIn(after, m) == HistoryIn(before, m)
  }

  /** Provider `n` was asked in vain, and the breaker of the answering provider is told of a success. */
  ghost predicate RefusedRecords(before: Histories, after: Histories, n: string, r: Completion, now: real) {
    forall m :: HistoryIn(after, m) == HistoryIn(before, m)
      + (if m == n then [CB.Query(now)]
         else if r.Completed? && m == r.answeredBy.provider then [CB.Success(now)] else [])
  }

  lemma RecordedElsewhere(before: Histories, between: Histories, after: Histories, n: string, other: string, now: real)
    requires other != n
    requires OnlyRecorded(before, between, n, [CB.Query(now)])
    requires OnlyRecorded(between, after, other, [CB.Success(now)])
    ensures forall m :: HistoryIn(after, m) == HistoryIn(before, m)
              + (if m == n then [CB.Query(now)] else if m == other then [CB.Success(now)] else [])
  {
  }

  lemma RecordedTwice(before: Histories, between: Histories, after: Histories, n: string, e: CB.Event, f: CB.Event)
    requires OnlyRecorded(before, between, n, [e]) && OnlyRecorded(between, after, n, [f])
    ensures OnlyRecorded(before, after, n, [e, f])
  {
    assert HistoryIn(before, n) + [e] + [f] == HistoryIn(before, n) + [e, f];
  }

  /** What a completion routed to provider `n` tells the breakers. */
  ghost predicate Recorded(before: Histories, after: Histories, n: string, r: Completion,
                           call: string -> CallResult, now: real)
  {
    if Allows(before, n, now) then
      OnlyRecorded(before, after, n, [CB.Query(now), if call(n).Reply? then CB.Success(now) else CB.Failure(now)])
    else RefusedRecords(before, after, n, r, now)
  }

  class ModelRouter {
    const providers: seq<Provider>    // the configuration
    const initialized: seq<string>    // the names of the providers that could be created
    const fallbackChain: seq<string>
    var healthCache: map<string, bool>
    var breakers: map<string, CB.Breaker>
    ghost var history: Histories
    var totalCost: real

    /** Every breaker is its history run, and failures are recorded only after an allowed query. */
    ghost predicate Valid()
      reads this
    {
      Tracks(breakers, history)
    }

    ghost function History(n: string): seq<CB.Event>
      reads this
    {
      HistoryIn(history, n)
    }

    constructor (providers: seq<Provider>, initialized: seq<string>, fallbackChain: seq<string>)
      ensures this.providers == providers && this.initialized == initialized
      ensures this.fallbackChain == fallbackChain && healthCache == map[]
      ensures Valid() && history == map[] && totalCost == 0.0
    {
      this.providers, this.initialized, this.fallbackChain := providers, initialized, fallbackChain;
      healthCache, breakers, history, totalCost := map[], map[], map[], 0.0;
    }

    /** All eligible models of a tier, each with its negated cost as the sort key. */
    method Candidates(tier: Tier, exclude: seq<string>) returns (found: seq<Scored<Pick>>)
      ensures forall s :: s in found ==> Eligible(providers, healthCache, exclude, tier, s.item.provider, s.item.model)
                                         && s.score == -s.item.model.Cost()
      ensures forall p, m :: Eligible(providers, healthCache, exclude, tier, p, m) ==>
                               Scored(Pick(p, m), -m.Cost()) in found
    {
      found := [];
      for i := 0 to |providers|
        invariant forall s :: s in found ==>
                    Eligible(providers, healthCache, exclude, tier, s.item.provider, s.item.model)
                    && s.score == -s.item.model.Cost()
        invariant forall p, m :: p in providers[..i] && Eligible(providers, healthCache, exclude, tier, p, m) ==>
                                   Scored(Pick(p, m), -m.Cost()) in found
      {
        var config := providers[i];
        assert providers[..i + 1] == providers[..i] + [config];
        if !config.enabled || config.name in exclude {
          continue;
        }
        if config.name in healthCache && !healthCache[config.name] {
          continue;
        }
        ghost var before := found;
        for j := 0 to |config.models|
          invariant forall s :: s in before ==> s in found
          invariant forall s :: s in found ==>
                      Eligible(providers, healthCache, exclude, tier, s.item.provider, s.item.model)
                      && s.score == -s.item.model.Cost()
          invariant forall m :: m in config.models[..j] && m.tier == Some(tier) ==>
                                  Scored(Pick(config, m), -m.Cost()) in found
        {
          var model := config.models[j];
          assert config.models[..j + 1] == config.models[..j] + [model];
          if model.tier == Some(tier) {
            found := found + [Scored(Pick(config, model), -model.Cost())];
          }
        }
        assert config.models[..|config.models|] == config.models;
      }
      assert providers[..|providers|] == providers;
    }

    method FindModelInTier(tier: Tier, exclude: seq<string>) returns (best: Option<Pick>)
      ensures best.Some? <==> SomeEligible(providers, healthCache, exclude, tier)
      ensures best.Some? ==> CheapestIn(providers, healthCache, exclude, tier, best.value.provider, best.value.model)
    {
      var candidates := Candidates(tier, exclude);
      if candidates == [] {
        return None;
      }
      var sorted := SortDescending(candidates);
      SortSorts(candidates);
      assert |multiset(sorted)| == |multiset(candidates)|;
      assert sorted[0] in multiset(sorted) && sorted[0] in multiset(candidates);
      best := Some(sorted[0].item);
      forall q, n | Eligible(providers, healthCache, exclude, tier, q, n)
        ensures best.value.model.costInput + best.value.model.costOutput <= n.costInput + n.costOutput
      {
        var s := Scored(Pick(q, n), -n.Cost());
        assert s in multiset(candidates) && s in multiset(sorted);
        var k :| 0 <= k < |sorted| && sorted[k] == s;
      }
      assert Eligible(providers, healthCache, exclude, tier, best.value.provider, best.value.model);
    }

    /** The health cache grows from `before` to `after` by answers of the providers asked. */
    ghost predicate Probed(before: Health, after: Health, probe: string -> Probe) {
      && (forall n :: n in before ==> n in after && after[n] == before[n])
      && forall n :: n in after && n !in before ==>
           n in initialized && after[n] == probe(n).Healthy? && !probe(n).Raises?
    }

    /** Some provider whose health is not known in `before` raises when asked. */
    ghost predicate SomeProbeRaises(before: Health, probe: string -> Probe) {
      exists n :: n in initialized && n !in before && probe(n).Raises?
    }

    lemma AllProbed(before: Health, after: Health, probe: string -> Probe)
      requires Probed(before, after, probe) && forall n :: n in initialized ==> n in before
      ensures after == before
    {
      assert after.Keys == before.Keys;
    }

    /** Probes every provider whose health is not known yet. */
    method CheckHealth(probe: string -> Probe) returns (raised: bool)
      modifies this`healthCache
      ensures Probed(old(healthCache), healthCache, probe)
      ensures raised <==> SomeProbeRaises(old(healthCache), probe)
      ensures !raised ==> forall n :: n in initialized ==> n in healthCache
    {
      for i := 0 to |initialized|
        invariant Probed(old(healthCache), healthCache, probe)
        invariant forall n :: n in initialized[..i] ==> n in healthCache
      {
        var name := initialized[i];
        assert initialized[..i + 1] == initialized[..i] + [name];
        if name !in healthCache {
          if probe(name).Raises? {
            return true;
          }
          healthCache := healthCache[name := probe(name).Healthy?];
        }
      }
      assert initialized[..|initialized|] == initialized;
      return false;
    }

    /** An honest routing answer under this health cache, unless a probe raised. */
    ghost predicate RoutedTo(health: Health, exclude: seq<string>, limit: Tier, r: Outcome) {
      && (r.Chosen? ==> r.selected.provider !in exclude)
      && (!r.ProbeRaised? ==> (r == NoModel <==> NoneEligible(providers, health, exclude, limit)))
      && (!r.ProbeRaised? && r != NoModel && UniqueNames(providers) ==>
            r.Chosen? && Optimal(providers, health, exclude, limit, r.selected))
    }

    /**
      Optimal routing with honest failure: with unique names the answer is a cheapest eligible
      model of the highest tier, not above the selected one, that has an eligible model at all;
      there is no answer exactly when no tier has one.
    */
    method Route(context: RoutingContext, probe: string -> Probe) returns (r: Outcome)
      modifies this`healthCache
      ensures Probed(old(healthCache), healthCache, probe)
      ensures r.ProbeRaised? <==> SomeProbeRaises(old(healthCache), probe)
      ensures !r.ProbeRaised? ==> forall n :: n in initialized ==> n in healthCache
      ensures RoutedTo(healthCache, context.exclude, context.SelectTier(), r)
    {
      var raised := CheckHealth(probe);
      if raised {
        return ProbeRaised;
      }
      var limit := context.SelectTier();
      var tier := limit;
      var best := FindModelInTier(tier, context.exclude);
      if best.Some? {
        return Answer(best.value, tier, limit, context.exclude);
      }
      if tier == Top {
        tier := Mid;
        best := FindModelInTier(tier, context.exclude);
        if best.Some? {
          return Answer(best.value, tier, limit, context.exclude);
        }
      }
      if tier != Low {
        tier := Low;
        best := FindModelInTier(tier, context.exclude);
        if best.Some? {
          return Answer(best.value, tier, limit, context.exclude);
        }
      }
      return NoModel;
    }

    function Answer(best: Pick, tier: Tier, ghost limit: Tier, ghost exclude: seq<string>): (r: Outcome)
      reads this
      requires Rank(tier) <= Rank(limit)
      requires CheapestIn(providers, healthCache, exclude, tier, best.provider, best.model)
      requires forall t :: Rank(tier) < Rank(t) <= Rank(limit) ==> !SomeEligible(providers, healthCache, exclude, t)
      ensures r.Chosen? || r.NotFound?
      ensures r.Chosen? ==> r.selected.provider !in exclude
      ensures UniqueNames(providers) ==> r.Chosen? && Optimal(providers, healthCache, exclude, limit, r.selected)
    {
      assert UniqueNames(providers) ==>
        Creates(CreateSelected(providers, best.provider.name, best.model.id, tier), best.provider, best.model, tier)
      by {
        if UniqueNames(providers) {
          CreatesExactly(providers, best.provider, best.model, tier);
        }
      }
      CreateSelected(providers, best.provider.name, best.model.id, tier)
    }

    /** The first configuration entry with this name that lists a model. */
    function WithModels(entries: seq<Provider>, name: string): Option<Provider> {
      if entries == [] then None
      else if entries[0].name == name && entries[0].models != [] then Some(entries[0])
      else WithModels(entries[1..], name)
    }

    lemma {:induction false} WithModelsFacts(entries: seq<Provider>, name: string)
      ensures var r := WithModels(entries, name);
        if r.None? then forall p :: p in entries && p.name == name ==> p.models == []
        else
          && r.value in entries && r.value.name == name && r.value.models != []
          && exists k :: 0 <= k < |entries| && entries[k] == r.value
               && forall j :: 0 <= j < k && entries[j].name == name ==> entries[j].models == []
    {
      if entries == [] {
      } else if entries[0].name == name && entries[0].models != [] {
      } else {
        WithModelsFacts(entries[1..], name);
        assert forall p :: p in entries <==> p == entries[0] || p in entries[1..];
        assert forall k :: 0 < k < |entries| ==> entries[k] == entries[1..][k - 1];
        if WithModels(entries, name).Some? {
          var k :| 0 <= k < |entries[1..]| && entries[1..][k] == WithModels(entries, name).value
                   && forall j :: 0 <= j < k && entries[1..][j].name == name ==> entries[1..][j].models == [];
          assert entries[k + 1] == WithModels(entries, name).value;
        }
      }
    }

    function FirstModel(p: Provider, t: Tier): (r: Outcome)
      requires p in providers && p.models != []
      ensures r.Chosen? || r.NotFound?
      ensures r.Chosen? ==> r.selected.provider == p.name
      ensures UniqueNames(providers) ==> Creates(r, p, p.models[0], t)
    {
      assert UniqueNames(providers) ==>
        Creates(CreateSelected(providers, p.name, p.models[0].id, t), p, p.models[0], t) by {
        if UniqueNames(providers) {
          CreatesExactly(providers, p, p.models[0], t);
        }
      }
      CreateSelected(providers, p.name, p.models[0].id, t)
    }

    /** The configuration entry the fallback chain leads to: that of the first usable name. */
    function ChainEntry(chain: seq<string>, exclude: seq<string>): Option<Provider> {
      if chain == [] then None
      else if chain[0] !in exclude && WithModels(providers, chain[0]).Some? then WithModels(providers, chain[0])
      else ChainEntry(chain[1..], exclude)
    }

    /** Earlier names of the chain are excluded or have no entry that lists a model. */
    lemma {:induction false} ChainEntryIsFirst(chain: seq<string>, exclude: seq<string>)
      ensures ChainEntry(chain, exclude).None? <==>
              forall n :: n in chain && n !in exclude ==> WithModels(providers, n).None?
      ensures var e := ChainEntry(chain, exclude); e.Some? ==>
        && e.value in providers && e.value.models != [] && e.value.name !in exclude
        && exists k :: 0 <= k < |chain| && chain[k] == e.value.name
             && forall j :: 0 <= j < k ==> chain[j] in exclude || WithModels(providers, chain[j]).None?
    {
      if chain == [] {
      } else {
        ChainEntryIsFirst(chain[1..], exclude);
        if chain[0] !in exclude && WithModels(providers, chain[0]).Some? {
          WithModelsFacts(providers, chain[0]);
        } else if ChainEntry(chain, exclude).Some? {
          var k :| 0 <= k < |chain[1..]| && chain[1..][k] == ChainEntry(chain, exclude).value.name
                   && forall j :: 0 <= j < k ==> chain[1..][j] in exclude || WithModels(providers, chain[1..][j]).None?;
          assert chain[k + 1] == ChainEntry(chain, exclude).value.name;
          forall j | 0 <= j < k + 1
            ensures chain[j] in exclude || WithModels(providers, chain[j]).None?
          {
            if j > 0 {
              assert chain[j] == chain[1..][j - 1];
            }
          }
        } else {
          forall n | n in chain && n !in exclude
            ensures WithModels(providers, n).None?
          {
            if n != chain[0] {
              assert n in chain[1..];
            }
          }
        }
      }
    }

    predicate Usable(p: Provider, exclude: seq<string>) {
      p.enabled && p.name !in exclude && p.models != []
    }

    /** The last resort: the first enabled provider that is not excluded and lists a model. */
    function LastResort(entries: seq<Provider>, exclude: seq<string>): (r: Option<Provider>)
      ensures r.Some? ==>
                exists k :: 0 <= k < |entries| && entries[k] == r.value && Usable(r.value, exclude)
                            && forall j :: 0 <= j < k ==> !Usable(entries[j], exclude)
      ensures r.None? <==> forall p :: p in entries ==> !Usable(p, exclude)
    {
      if entries == [] then None
      else if entries[0].enabled && entries[0].name !in exclude && entries[0].models != [] then Some(entries[0])
      else
        assert forall p :: p in entries <==> p == entries[0] || p in entries[1..];
        assert forall k :: 0 < k < |entries| ==> entries[k] == entries[1..][k - 1];
        LastResort(entries[1..], exclude)
    }

    /** `r` is the fallback answer after `failed`, the context excluding `excluded` before. */
    ghost predicate FallsBackTo(failed: Selected, excluded: seq<string>, health: Health, r: Outcome) {
      var exclude := excluded + [failed.provider];
      && (r.Chosen? ==> r.selected.provider !in exclude)
      && (UniqueNames(providers) ==> !r.NotFound?)
      && var entry := ChainEntry(fallbackChain, exclude);
         if entry.Some? then FirstModelIs(entry.value, failed.tier, r)
         else if failed.tier == Top then RoutedTo(health, exclude, Mid, r)
         else
           var any := LastResort(providers, exclude);
           if any.Some? then FirstModelIs(any.value, Low, r) else r == NoModel
    }

    ghost predicate FirstModelIs(p: Provider, t: Tier, r: Outcome) {
      p in providers && p.models != [] && r == FirstModel(p, t)
    }

    /**
      The fallback never returns the failed provider or an excluded one. The first usable name
      of the chain comes first, whether or not it is enabled or healthy; then, after a failure
      in the top tier, routing from the middle tier without the failed provider; otherwise the
      first enabled provider that is not excluded. The answer is the first model listed.
    */
    method Fallback(failed: Selected, context: RoutingContext, probe: string -> Probe) returns (r: Outcome)
      modifies this`healthCache, context
      ensures Probed(old(healthCache), healthCache, probe)
      ensures FallsBackTo(failed, old(context.exclude), healthCache, r)
      ensures var exclude := old(context.exclude) + [failed.provider];
        if ChainEntry(fallbackChain, exclude).None? && failed.tier == Top then
          context.exclude == exclude && context.preferredTier == Some(Mid)
        else
          context.exclude == old(context.exclude) && context.preferredTier == old(context.preferredTier)
    {
      var exclude := context.exclude + [failed.provider];
      for i := 0 to |fallbackChain|
        invariant ChainEntry(fallbackChain, exclude) == ChainEntry(fallbackChain[i..], exclude)
      {
        var name := fallbackChain[i];
        assert fallbackChain[i..][1..] == fallbackChain[i + 1..];
        if name !in exclude {
          var entry := WithModels(providers, name);
          if entry.Some? {
            WithModelsFacts(providers, name);
            return FirstModel(entry.value, failed.tier);
          }
        }
      }
      if failed.tier == Top {
        context.exclude := exclude;
        context.preferredTier := Some(Mid);
        r := Route(context, probe);
        return;
      }
      for i := 0 to |providers|
        invariant LastResort(providers, exclude) == LastResort(providers[i..], exclude)
      {
        var config := providers[i];
        assert providers[i..][1..] == providers[i + 1..];
        if config.enabled && config.name !in exclude && config.models != [] {
          return FirstModel(config, Low);
        }
      }
      return NoModel;
    }

    // ---- completing a request ----

    /** `get_breaker` followed by `can_execute`. */
    method Ask(n: string, now: real) returns (ok: bool)
      requires Valid()
      modifies this`breakers, this`history
      ensures Valid() && OnlyRecorded(old(history), history, n, [CB.Query(now)])
      ensures ok == Allows(old(history), n, now)
    {
      var b := BreakerIn(breakers, n);
      ok := CB.CanExecute(BREAKER_CONFIG, b, now);
      KeepsTrack(breakers, history, n, CB.Query(now));
      breakers := breakers[n := CB.Look(BREAKER_CONFIG, b, now)];
      history := history[n := History(n) + [CB.Query(now)]];
    }

    method RecordSuccess(n: string, now: real)
      requires Valid()
      modifies this`breakers, this`history
      ensures Valid() && OnlyRecorded(old(history), history, n, [CB.Success(now)])
    {
      KeepsTrack(breakers, history, n, CB.Success(now));
      breakers := breakers[n := CB.Succeed(BREAKER_CONFIG, BreakerIn(breakers, n), now)];
      history := history[n := History(n) + [CB.Success(now)]];
    }

    /** Only called for a request that the breaker has just allowed. */
    method RecordFailure(n: string, now: real, ghost before: seq<CB.Event>)
      requires Valid() && History(n) == before + [CB.Query(now)]
      requires CB.CanExecute(BREAKER_CONFIG, CB.Run(BREAKER_CONFIG, before), now)
      modifies this`breakers, this`history
      ensures Valid() && OnlyRecorded(old(history), history, n, [CB.Failure(now)])
    {
      assert History(n)[..|History(n)| - 1] == before;
      KeepsTrack(breakers, history, n, CB.Failure(now));
      breakers := breakers[n := CB.Fail(BREAKER_CONFIG, BreakerIn(breakers, n), now)];
      history := history[n := History(n) + [CB.Failure(now)]];
    }

    function CallCost(s: Selected, promptTokens: nat, completionTokens: nat): real {
      match FindProvider(providers, s.provider)
      case None => 0.0
      case Some(p) =>
        match FindModel(p.models, s.model)
        case None => 0.0
        case Some(m) =>
          promptTokens as real * m.costInput / 1000.0 + completionTokens as real * m.costOutput / 1000.0
    }

    /** With unique names, a call is charged by the prices of the model that answered, per thousand tokens. */
    lemma CallCostInPrices(p: Provider, m: Model, s: Selected, promptTokens: nat, completionTokens: nat)
      requires UniqueNames(providers) && p in providers && m in p.models && s.provider == p.name && s.model == m.id
      ensures 1000.0 * CallCost(s, promptTokens, completionTokens)
              == promptTokens as real * m.costInput + completionTokens as real * m.costOutput
    {
      FindsProvider(providers, p);
      FindsModel(p.models, m);
    }

    /** The tracked cost grows by the cost of the answer and by nothing else. */
    ghost predicate Accounted(before: real, after: real, r: Completion) {
      after == before + if r.Completed? then CallCost(r.answeredBy, r.promptTokens, r.completionTokens) else 0.0
    }

    /** The providers called for the fallback answer `other`. */
    function Contacted(other: Outcome): seq<string> {
      if other.Chosen? && other.selected.provider in initialized then [other.selected.provider] else []
    }

    /** What becomes of the request at the fallback answer `other`. */
    function SecondTry(other: Outcome, call: string -> CallResult, missing: Completion): Completion {
      if !other.Chosen? then Unrouted(other)
      else if other.selected.provider !in initialized then missing
      else
        match call(other.selected.provider)
        case CallRaised => Failed
        case Reply(prompt, completion) => Completed(other.selected, prompt, completion)
    }

    /** A completion that the breaker of `selected` refused: only the fallback provider is called. */
    ghost predicate Refused(excluded: seq<string>, health: Health, selected: Selected, other: Outcome,
                            r: Completion, call: string -> CallResult, called: seq<string>)
    {
      && FallsBackTo(selected, excluded, health, other)
      && called == Contacted(other) && r == SecondTry(other, call, ProviderMissing)
    }

    /** A completion that the breaker of `selected` allowed. */
    ghost predicate Allowed(excluded: seq<string>, health: Health, selected: Selected, other: Option<Outcome>,
                            r: Completion, call: string -> CallResult, called: seq<string>)
    {
      if call(selected.provider).Reply? then
        && other == None && called == [selected.provider]
        && r == SecondTry(Chosen(selected), call, Failed)
      else
        && other.Some? && FallsBackTo(selected, excluded, health, other.value)
        && called == [selected.provider] + Contacted(other.value)
        && r == SecondTry(other.value, call, Failed)
    }

    /**
      What one completion routed to `selected` answers and whom it calls, `before` being the
      histories at its start.
    */
    ghost predicate Attempted(before: Histories, excluded: seq<string>, health: Health, selected: Selected,
                              other: Option<Outcome>, r: Completion, call: string -> CallResult,
                              called: seq<string>, now: real)
    {
      if Allows(before, selected.provider, now) then
        Allowed(excluded, health, selected, other, r, call, called)
      else
        other.Some? && Refused(excluded, health, selected, other.value, r, call, called)
    }

    /** The branch taken when the breaker of the routed provider refuses. */
    method CompleteElsewhere(selected: Selected, context: RoutingContext, probe: string -> Probe,
                             call: string -> CallResult, now: real, ghost before: Histories)
      returns (r: Completion, ghost other: Outcome, ghost called: seq<string>)
      requires Valid() && OnlyRecorded(before, history, selected.provider, [CB.Query(now)])
      modifies this`healthCache, this`breakers, this`history, this`totalCost, context
      ensures Valid() && Probed(old(healthCache), healthCache, probe) && Accounted(old(totalCost), totalCost, r)
      ensures Refused(old(context.exclude), healthCache, selected, other, r, call, called)
      ensures RefusedRecords(before, history, selected.provider, r, now)
    {
      called := [];
      ghost var between := history;
      var fallen := Fallback(selected, context, probe);
      other := fallen;
      if !fallen.Chosen? {
        return Unrouted(fallen), other, called;
      }
      if fallen.selected.provider !in initialized {
        return ProviderMissing, other, called;
      }
      called := [fallen.selected.provider];
      var reply := call(fallen.selected.provider);
      if reply.CallRaised? {
        return Failed, other, called;
      }
      RecordSuccess(fallen.selected.provider, now);
      RecordedElsewhere(before, between, history, selected.provider, fallen.selected.provider, now);
      totalCost := totalCost + CallCost(fallen.selected, reply.promptTokens, reply.completionTokens);
      return Completed(fallen.selected, reply.promptTokens, reply.completionTokens), other, called;
    }

    /** The handler of a failed call; the provider it falls back to is not recorded with its breaker. */
    method CompleteAfterFailure(selected: Selected, context: RoutingContext, probe: string -> Probe,
                                call: string -> CallResult)
      returns (r: Completion, ghost other: Outcome, ghost called: seq<string>)
      requires Valid()
      modifies this`healthCache, this`totalCost, context
      ensures Valid() && Probed(old(healthCache), healthCache, probe) && Accounted(old(totalCost), totalCost, r)
      ensures FallsBackTo(selected, old(context.exclude), healthCache, other) && called == Contacted(other)
      ensures r == SecondTry(other, call, Failed)
    {
      called := [];
      var fallen := Fallback(selected, context, probe);
      other := fallen;
      if !fallen.Chosen? {
        return Unrouted(fallen), other, called;
      }
      if fallen.selected.provider == selected.provider || fallen.selected.provider !in initialized {
        return Failed, other, called;
      }
      called := [fallen.selected.provider];
      var reply := call(fallen.selected.provider);
      if reply.CallRaised? {
        return Failed, other, called;
      }
      totalCost := totalCost + CallCost(fallen.selected, reply.promptTokens, reply.completionTokens);
      return Completed(fallen.selected, reply.promptTokens, reply.completionTokens), other, called;
    }

    /** The branch taken when the breaker allows the request: `before` are the histories without the query. */
    method CompleteAllowed(selected: Selected, context: RoutingContext, probe: string -> Probe,
                           call: string -> CallResult, now: real, ghost before: Histories)
      returns (r: Completion, ghost other: Option<Outcome>, ghost called: seq<string>)
      requires Valid() && selected.provider in initialized
      requires OnlyRecorded(before, history, selected.provider, [CB.Query(now)])
      requires Allows(before, selected.provider, now)
      modifies this`healthCache, this`breakers, this`history, this`totalCost, context
      ensures Valid() && Probed(old(healthCache), healthCache, probe) && Accounted(old(totalCost), totalCost, r)
      ensures OnlyRecorded(before, history, selected.provider,
                           [CB.Query(now),
                            if call(selected.provider).Reply? then CB.Success(now) else CB.Failure(now)])
      ensures Allowed(old(context.exclude), healthCache, selected, other, r, call, called)
    {
      called, other := [selected.provider], None;
      ghost var between := history;
      var reply := call(selected.provider);
      if reply.Reply? {
        RecordSuccess(selected.provider, now);
        RecordedTwice(before, between, history, selected.provider, CB.Query(now), CB.Success(now));
        totalCost := totalCost + CallCost(selected, reply.promptTokens, reply.completionTokens);
        return Completed(selected, reply.promptTokens, reply.completionTokens), other, called;
      }
      RecordFailure(selected.provider, now, HistoryIn(before, selected.provider));
      RecordedTwice(before, between, history, selected.provider, CB.Query(now), CB.Failure(now));
      ghost var fallen, more;
      r, fallen, more := CompleteAfterFailure(selected, context, probe, call);
      called, other := called + more, Some(fallen);
    }

    /** The completion once it is routed to an initialized provider. */
    method Attempt(selected: Selected, context: RoutingContext, probe: string -> Probe,
                   call: string -> CallResult, now: real)
      returns (r: Completion, ghost other: Option<Outcome>, ghost called: seq<string>)
      requires Valid() && selected.provider in initialized
      modifies this`healthCache, this`breakers, this`history, this`totalCost, context
      ensures Valid() && Probed(old(healthCache), healthCache, probe) && Accounted(old(totalCost), totalCost, r)
      ensures Attempted(old(history), old(context.exclude), healthCache, selected, other, r, call, called, now)
      ensures Recorded(old(history), history, selected.provider, r, call, now)
    {
      ghost var before := history;
      var allowed := Ask(selected.provider, now);
      if allowed {
        r, other, called := CompleteAllowed(selected, context, probe, call, now, before);
      } else {
        ghost var fallen;
        r, fallen, called := CompleteElsewhere(selected, context, probe, call, now, before);
        other := Some(fallen);
      }
    }

    /** The answer, if any, is the reply of the last of at most two different providers called. */
    predicate Answers(r: Completion, call: string -> CallResult, called: seq<string>) {
      && |called| <= 2 && (|called| == 2 ==> called[0] != called[1])
      && (r.Completed? ==>
            && r.answeredBy.provider in initialized
            && called != [] && called[|called| - 1] == r.answeredBy.provider
            && call(r.answeredBy.provider) == Reply(r.promptTokens, r.completionTokens))
    }

    lemma CallsAtMostTwo(before: Histories, excluded: seq<string>, health: Health, selected: Selected,
                         other: Option<Outcome>, r: Completion, call: string -> CallResult,
                         called: seq<string>, now: real)
      requires selected.provider in initialized
      requires Attempted(before, excluded, health, selected, other, r, call, called, now)
      ensures Answers(r, call, called)
    {
    }

    /**
      One completion. `primary` is the routing answer, `other` the fallback answer if one was
      sought, and `called` lists the providers called. The breaker of the routed provider guards
      that provider alone: the provider fallen back to is called whatever its own breaker says,
      and on the refusing branch that breaker is told of the success without having been asked.
    */
    method Complete(context: RoutingContext, probe: string -> Probe, call: string -> CallResult, now: real)
      returns (r: Completion, ghost primary: Outcome, ghost other: Option<Outcome>, ghost called: seq<string>)
      requires Valid()
      modifies this`healthCache, this`breakers, this`history, this`totalCost, context
      ensures Valid() && Probed(old(healthCache), healthCache, probe) && Accounted(old(totalCost), totalCost, r)
      ensures Answers(r, call, called)
      ensures primary.ProbeRaised? <==> SomeProbeRaises(old(healthCache), probe)
      ensures RoutedTo(healthCache, old(context.exclude), old(context.SelectTier()), primary)
      ensures if primary.Chosen? && primary.selected.provider in initialized then
                && Attempted(old(history), old(context.exclude), healthCache, primary.selected, other, r,
                             call, called, now)
                && Recorded(old(history), history, primary.selected.provider, r, call, now)
              else
                && history == old(history) && called == []
                && r == if primary.Chosen? then ProviderMissing else Unrouted(primary)
    {
      called, other := [], None;
      var routed := Route(context, probe);
      primary := routed;
      if !routed.Chosen? {
        return Unrouted(routed), primary, other, called;
      }
      if routed.selected.provider !in initialized {
        return ProviderMissing, primary, other, called;
      }
      ghost var known := healthCache;
      r, other, called := Attempt(routed.selected, context, probe, call, now);
      AllProbed(known, healthCache, probe);
      CallsAtMostTwo(old(history), old(context.exclude), healthCache, routed.selected, other, r, call, called, now);
    }
  }

  /**
    In every run of completions that do not overlap: once a provider's open breaker has been told
    of a success, as the refusing branch of `Complete` may do, it stays open and rejects every
    request routed to the provider, however long the run goes on.
  */
  lemma StuckProviderStaysStuck(router: ModelRouter, n: string, k: nat, now: real)
    requires router.Valid() && k <= |router.History(n)|
    requires var told := router.History(n)[..k];
      CB.Run(BREAKER_CONFIG, told).state == CB.Open && CB.LastRecord(told).Some? && CB.LastRecord(told).value.Success?
    ensures CB.Run(BREAKER_CONFIG, router.History(n)).state == CB.Open
    ensures !Allows(router.history, n, now)
  {
    var h := router.History(n);
    assert h[..|h|] == h;
    CB.StuckForGood(BREAKER_CONFIG, h, k, |h|, now);
  }

  // ---- a run that leaves a provider stuck ----------------------------------------------------------------

  const SMALL := Provider("small", true, [Model("s", Some(Low), 1.0, 1.0)])
  const LARGE := Provider("large", true, [Model("l", Some(Top), 1.0, 1.0)])
  const NAMES := ["small", "large"]

  ghost predicate AllHealthy(health: Health) {
    forall n :: n in health ==> health[n]
  }

  /** The request of this purpose has this provider as its only choice. */
  predicate Suits(purpose: Purpose, p: Provider) {
    (purpose == Documentation && p == SMALL) || (purpose == CodeGeneration && p == LARGE)
  }

  lemma OnlyChoice(health: Health, purpose: Purpose, p: Provider, r: Outcome)
    requires AllHealthy(health) && Suits(purpose, p)
    ensures !NoneEligible([SMALL, LARGE], health, [], TaskTier(purpose))
    ensures r.Chosen? && Optimal([SMALL, LARGE], health, [], TaskTier(purpose), r.selected) ==>
              r.selected.provider == p.name
    ensures UniqueNames([SMALL, LARGE])
  {
    var t := TaskTier(purpose);
    assert Eligible([SMALL, LARGE], health, [], t, p, p.models[0]);
    assert SomeEligible([SMALL, LARGE], health, [], t);
  }

  /** A request routed to `p`, whose breaker allows it, fails. */
  method FailOnce(router: ModelRouter, purpose: Purpose, p: Provider)
    requires router.Valid() && router.providers == [SMALL, LARGE] && router.initialized == NAMES
    requires AllHealthy(router.healthCache) && Suits(purpose, p) && Allows(router.history, p.name, 0.0)
    modifies router
    ensures router.Valid() && AllHealthy(router.healthCache)
    ensures OnlyRecorded(old(router.history), router.history, p.name, [CB.Query(0.0), CB.Failure(0.0)])
  {
    var context := new RoutingContext(purpose, 5.0, None, []);
    var r, primary, other, called := router.Complete(context, _ => Healthy, _ => CallRaised, 0.0);
    OnlyChoice(router.healthCache, purpose, p, primary);
  }

  /** A breaker that saw nothing but fewer than five failed requests allows another; after five it refuses. */
  lemma AfterFailures(history: Histories, n: string, i: nat)
    requires HistoryIn(history, n) == CB.AskedFailures(i, 0.0) && i <= 5
    ensures Allows(history, n, 0.0) <==> i < 5
  {
    CB.AskedFailuresRun(BREAKER_CONFIG, i, 0.0);
  }

  lemma OneMoreFailure(before: Histories, between: Histories, after: Histories, n: string, i: nat)
    requires OnlyRecorded(before, between, n, CB.AskedFailures(i, 0.0))
    requires OnlyRecorded(between, after, n, [CB.Query(0.0), CB.Failure(0.0)])
    ensures OnlyRecorded(before, after, n, CB.AskedFailures(i + 1, 0.0))
  {
    var h, more := HistoryIn(before, n), CB.AskedFailures(i, 0.0);
    assert h + more + [CB.Query(0.0), CB.Failure(0.0)] == h + (more + [CB.Query(0.0), CB.Failure(0.0)]);
  }

  /** Five requests that a provider fails open its breaker. */
  method OpenBreaker(router: ModelRouter, purpose: Purpose, p: Provider)
    requires router.Valid() && router.providers == [SMALL, LARGE] && router.initialized == NAMES
    requires AllHealthy(router.healthCache) && Suits(purpose, p) && router.History(p.name) == []
    modifies router
    ensures router.Valid() && AllHealthy(router.healthCache)
    ensures OnlyRecorded(old(router.history), router.history, p.name, CB.AskedFailures(5, 0.0))
  {
    ghost var before := router.history;
    for i := 0 to 5
      invariant router.Valid() && AllHealthy(router.healthCache)
      invariant OnlyRecorded(before, router.history, p.name, CB.AskedFailures(i, 0.0))
    {
      AfterFailures(router.history, p.name, i);
      ghost var between := router.history;
      FailOnce(router, purpose, p);
      OneMoreFailure(before, between, router.history, p.name, i);
    }
  }

  lemma SmallIsFallback(router: ModelRouter, failed: Selected, excluded: seq<string>, r: Outcome)
    requires router.providers == [SMALL, LARGE] && router.fallbackChain == NAMES
    requires failed.provider == "large" && excluded == []
    requires router.FallsBackTo(failed, excluded, router.healthCache, r)
    ensures r.Chosen? && r.selected.provider == "small"
  {
    assert router.ChainEntry(NAMES, excluded + ["large"]) == Some(SMALL);
    assert UniqueNames(router.providers);
  }

  /** The refused request of the stuck run: "large" refuses, "small" answers. */
  method RefuseOnce(router: ModelRouter)
    requires router.Valid() && router.providers == [SMALL, LARGE] && router.initialized == router.fallbackChain == NAMES
    requires AllHealthy(router.healthCache) && !Allows(router.history, "large", 0.0)
    modifies router
    ensures router.Valid() && router.History("small") == old(router.History("small")) + [CB.Success(0.0)]
  {
    var context := new RoutingContext(CodeGeneration, 5.0, None, []);
    var r, primary, other, called := router.Complete(context, _ => Healthy, _ => Reply(1, 1), 0.0);
    OnlyChoice(router.healthCache, CodeGeneration, LARGE, primary);
    SmallIsFallback(router, primary.selected, [], other.value);
  }

  lemma NowStuck(history: Histories, n: string)
    requires HistoryIn(history, n) == CB.AskedFailures(5, 0.0) + [CB.Success(0.0)]
    ensures CB.Run(BREAKER_CONFIG, HistoryIn(history, n)).state == CB.Open
    ensures CB.LastRecord(HistoryIn(history, n)) == Some(CB.Success(0.0))
    ensures forall now :: !Allows(history, n, now)
  {
    var h := HistoryIn(history, n);
    CB.StuckReachableWhenAsked(BREAKER_CONFIG, 0.0);
    forall now
      ensures !Allows(history, n, now)
    {
      assert h[..|h|] == h;
      CB.StuckForGood(BREAKER_CONFIG, h, |h|, |h|, now);
    }
  }

  /**
    Two providers that fail five requests each, and one more request: the second provider's
    breaker refuses it, the first answers it, and the first breaker, which is open, is told of a
    success. From then on it rejects every request, although the provider answers.
  */
  method StuckRun() returns (router: ModelRouter)
    ensures router.Valid() && fresh(router)
    ensures CB.Run(BREAKER_CONFIG, router.History("small")).state == CB.Open
    ensures CB.LastRecord(router.History("small")) == Some(CB.Success(0.0))
    ensures forall now :: !Allows(router.history, "small", now)
  {
    router := new ModelRouter([SMALL, LARGE], NAMES, NAMES);
    OpenBreaker(router, Documentation, SMALL);
    OpenBreaker(router, CodeGeneration, LARGE);
    AfterFailures(router.history, "large", 5);
    RefuseOnce(router);
    NowStuck(router.history, "small");
  }
}
