/**
 * The model manager keeps four books in step: the runtime models, the residency entries, the
 * loaded table and the remembered configurations. Unloading a model first drops its cached
 * contexts through the hook the service installs, so the context cache is part of the state here.
 */
module ModelManagers {
  import opened Common
  import opened MemoryEstimates
  import opened MapSums
  import opened DevicePolicy
  import opened Runtimes
  import R = Residency
  import C = ContextCache

  type Options = map<string, int>

  /** What the selected runtime really needs: weights, one context, and overhead. */
  datatype Cost = Cost(weights: nat, perContext: nat, overhead: nat) {
    function Usage(contexts: nat): nat { weights + contexts * perContext + overhead }
  }

  datatype ModelInfo = ModelInfo(contextTokens: int, options: Options, execution: Selection, cost: Cost)

  datatype Remembered = Remembered(contextTokens: int, options: Options, keepAliveMs: int)

  datatype LoadRequest = LoadRequest(contextTokens: int, options: Options, keepAliveMs: int)

  const DEFAULT: LoadRequest := LoadRequest(0, map[], -1)

  datatype Limits = Limits(maxModels: nat, maxContexts: nat, maxTokens: nat, defaultContext: nat)

  /** The books, as values. */
  datatype Books = Books(
    models: map<string, LoadedModel>,
    entries: map<string, R.Entry>,
    loaded: map<string, ModelInfo>,
    remembered: map<string, Remembered>,
    contexts: map<string, C.Entry>)

  /** One model's records agree with each other. */
  predicate Record(b: Books, id: string, limits: Limits) {
    && id in b.models && id in b.entries && id in b.loaded && id in b.remembered
    && var info := b.loaded[id];
    && b.models[id].spec == ModelSpec(id, info.contextTokens, info.options) && b.models[id].execution == info.execution
    && b.remembered[id] == Remembered(info.contextTokens, info.options, b.entries[id].keepAliveMs)
    && info.contextTokens <= limits.maxTokens
  }

  /** A configuration that may be used again. */
  predicate Sane(memo: Remembered) {
    memo.options.Keys !! DEVICE_KEYS && 2 <= memo.contextTokens && 0 <= memo.keepAliveMs
  }

  /** A model's reservation covers every context the limits allow it. */
  ghost predicate Covered(info: ModelInfo, memory: MemoryEstimate, limits: Limits) {
    2 <= info.contextTokens
    && info.cost.Usage(Slots(limits.maxContexts, limits.maxTokens, info.contextTokens)) <= memory.Sum()
  }

  /** A cached context belongs to a loaded model, to its very instance, and is charged that model's context size. */
  predicate ContextAgrees(e: C.Entry, loaded: map<string, ModelInfo>, models: map<string, LoadedModel>) {
    && e.modelId in loaded && e.reservedTokens == loaded[e.modelId].contextTokens
    && e.modelId in models && e.instance == models[e.modelId].handle
  }

  ghost predicate AllRecorded(b: Books, limits: Limits) {
    forall id {:trigger Record(b, id, limits)} :: id in b.loaded ==> Record(b, id, limits)
  }

  ghost predicate AllCovered(b: Books, limits: Limits) {
    forall id {:trigger Covered(b.loaded[id], b.entries[id].memory, limits)} ::
      id in b.loaded && id in b.entries ==> Covered(b.loaded[id], b.entries[id].memory, limits)
  }

  ghost predicate AllSane(b: Books) {
    forall id {:trigger Sane(b.remembered[id])} :: id in b.remembered ==> Sane(b.remembered[id])
  }

  ghost predicate AllContexts(b: Books) {
    forall k {:trigger ContextAgrees(b.contexts[k], b.loaded, b.models)} :: k in b.contexts ==>
      ContextAgrees(b.contexts[k], b.loaded, b.models)
  }

  /** The four books are in step. */
  ghost predicate Coherent(b: Books, limits: Limits) {
    && b.models.Keys == b.entries.Keys == b.loaded.Keys && b.loaded.Keys <= b.remembered.Keys
    && AllRecorded(b, limits) && AllCovered(b, limits) && AllSane(b) && AllContexts(b)
  }

  function Restrict<V>(m: map<string, V>, keep: set<string>): map<string, V> { map k | k in m && k in keep :: m[k] }

  function ContextsFor(contexts: map<string, C.Entry>, keep: set<string>): map<string, C.Entry> {
    map k | k in contexts && contexts[k].modelId in keep :: contexts[k]
  }

  /** The books once only the models in `keep` are left resident. */
  function Narrow(b: Books, keep: set<string>): Books {
    Books(Restrict(b.models, keep), Restrict(b.entries, keep), Restrict(b.loaded, keep), b.remembered,
      ContextsFor(b.contexts, keep))
  }

  lemma NarrowCoherent(b: Books, keep: set<string>, limits: Limits)
    requires Coherent(b, limits)
    ensures Coherent(Narrow(b, keep), limits)
  {
    var n := Narrow(b, keep);
    forall id | id in n.loaded ensures Record(n, id, limits) {
      assert Record(b, id, limits);
    }
    forall id | id in n.loaded && id in n.entries ensures Covered(n.loaded[id], n.entries[id].memory, limits) {
      assert Covered(b.loaded[id], b.entries[id].memory, limits);
    }
    forall id | id in n.remembered ensures Sane(n.remembered[id]) {
      assert Sane(b.remembered[id]);
    }
    forall k | k in n.contexts ensures ContextAgrees(n.contexts[k], n.loaded, n.models) {
      assert ContextAgrees(b.contexts[k], b.loaded, b.models);
    }
  }

  lemma NarrowAll(b: Books, limits: Limits)
    requires Coherent(b, limits)
    ensures Narrow(b, b.loaded.Keys) == b
  {
    assert Restrict(b.models, b.loaded.Keys) == b.models;
    assert Restrict(b.entries, b.loaded.Keys) == b.entries;
    assert Restrict(b.loaded, b.loaded.Keys) == b.loaded;
    forall k | k in b.contexts ensures b.contexts[k].modelId in b.loaded.Keys {
      assert ContextAgrees(b.contexts[k], b.loaded, b.models);
    }
    assert ContextsFor(b.contexts, b.loaded.Keys) == b.contexts;
  }

  lemma NarrowTwice(b: Books, keep: set<string>, fewer: set<string>)
    requires fewer <= keep
    ensures Narrow(Narrow(b, keep), fewer) == Narrow(b, fewer)
  {
    var twice, once := Narrow(Narrow(b, keep), fewer), Narrow(b, fewer);
    assert twice.models == once.models && twice.entries == once.entries && twice.loaded == once.loaded;
    assert twice.contexts == once.contexts;
  }

  /** Removing one model's records and contexts narrows the books to the other models. */
  lemma Forgotten(b: Books, id: string, limits: Limits)
    requires Coherent(b, limits)
    ensures Books(b.models - {id}, b.entries - {id}, b.loaded - {id}, b.remembered,
                  map k | k in b.contexts && b.contexts[k].modelId != id :: b.contexts[k]) ==
            Narrow(b, b.loaded.Keys - {id})
    ensures Coherent(Narrow(b, b.loaded.Keys - {id}), limits)
  {
    var keep := b.loaded.Keys - {id};
    forall k | k in b.contexts ensures b.contexts[k].modelId in b.loaded.Keys {
      assert ContextAgrees(b.contexts[k], b.loaded, b.models);
    }
    assert b.models - {id} == Restrict(b.models, keep);
    assert b.entries - {id} == Restrict(b.entries, keep);
    assert b.loaded - {id} == Restrict(b.loaded, keep);
    NarrowCoherent(b, keep, limits);
  }

  lemma NarrowEntries(b: Books, limits: Limits, id: string)
    requires Coherent(b, limits)
    ensures Narrow(b, b.loaded.Keys - {id}).entries == b.entries - {id}
    ensures Narrow(b, b.loaded.Keys - {id}).loaded.Keys == b.loaded.Keys - {id}
  {
  }

  /** A registered runtime that supports the model: what it would need, and the devices it offers. */
  datatype Offer = Offer(id: string, cost: Result<Cost>, devices: seq<RuntimeDevice>)

  /** The estimate the runtime answers for so many contexts, in 64-bit fields. */
  function EstimateOf(offer: Offer, slots: nat): Result<MemoryEstimate> {
    if offer.cost.Err? then Err(offer.cost.code)
    else
      var c := offer.cost.value;
      if c.weights > U64_MAX || slots * c.perContext > U64_MAX || c.overhead > U64_MAX then Err(ResourceLimit)
      else Ok(MemoryEstimate(c.weights, slots * c.perContext, c.overhead))
  }

  function Estimates(offers: seq<Offer>, slots: nat): seq<Result<MemoryEstimate>> {
    seq(|offers|, i requires 0 <= i < |offers| => EstimateOf(offers[i], slots))
  }

  function Candidates(offers: seq<Offer>): seq<Candidate> {
    seq(|offers|, i requires 0 <= i < |offers| => Candidate(offers[i].id, offers[i].devices))
  }

  function CostOf(offers: seq<Offer>, runtime: string): Cost {
    if offers == [] then Cost(0, 0, 0)
    else if offers[0].id == runtime && offers[0].cost.Ok? then offers[0].cost.value
    else CostOf(offers[1..], runtime)
  }

  /** The reservation of the hungriest offer covers the offer that is finally selected. */
  lemma {:induction false} ReservationCoversCost(offers: seq<Offer>, slots: nat, runtime: string, reserved: nat)
    requires forall o :: o in offers ==> EstimateOf(o, slots).Ok? && EstimateOf(o, slots).value.Sum() <= reserved
    requires exists o :: o in offers && o.id == runtime
    ensures CostOf(offers, runtime).Usage(slots) <= reserved
  {
    assert offers[0] in offers;
    if offers[0].id != runtime {
      assert forall o :: o in offers ==> o == offers[0] || o in offers[1..];
      ReservationCoversCost(offers[1..], slots, runtime, reserved);
    }
  }

  /** What the catalog and the runtimes answer while a model is being loaded. */
  datatype Answers = Answers(contextLength: Result<nat>, verified: Result<()>, offers: seq<Offer>,
                             surveyCancelled: bool, pathExists: bool, attempts: Pair -> Attempt)

  /** A request, completed from the configuration remembered for the model. */
  function Configure(request: LoadRequest, memo: Option<Remembered>): LoadRequest {
    if memo.None? then request
    else LoadRequest(if request.contextTokens == 0 then memo.value.contextTokens else request.contextTokens,
                     if request.options == map[] then memo.value.options else request.options,
                     if request.keepAliveMs < 0 then memo.value.keepAliveMs else request.keepAliveMs)
  }

  predicate Usable(config: LoadRequest) { config.options.Keys !! DEVICE_KEYS && 0 <= config.contextTokens }

  /** A resident model may be asked for again with the configuration it has. */
  predicate Compatible(request: LoadRequest, info: ModelInfo) {
    (request.contextTokens == 0 || request.contextTokens == info.contextTokens)
    && (request.options == map[] || request.options == info.options)
  }

  predicate Acceptable(request: LoadRequest) { Usable(request) && -1 <= request.keepAliveMs <= MAX_KEEP_ALIVE }

  /** The context size a configuration gets, given the manifest's, or why it gets none. */
  function ContextFor(config: LoadRequest, contextLength: nat, limits: Limits): (r: Result<nat>)
    requires 0 <= config.contextTokens
    ensures r.Ok? ==> 2 <= r.value && r.value <= contextLength && r.value <= limits.maxTokens
    ensures r.Ok? && config.contextTokens != 0 ==> r.value == config.contextTokens
  {
    var context := if config.contextTokens != 0 then config.contextTokens
                   else Min(contextLength, Min(limits.defaultContext, limits.maxTokens));
    if context < 2 then Err(InvalidArgument)
    else if context > contextLength then Err(ContextOverflow)
    else if context > limits.maxTokens then Err(ResourceLimit)
    else Ok(context)
  }

  /** The books with one more model. */
  function Admit(b: Books, id: string, model: LoadedModel, e: R.Entry, info: ModelInfo): Books {
    Books(b.models[id := model], b.entries[id := e], b.loaded[id := info],
          b.remembered[id := Remembered(info.contextTokens, info.options, e.keepAliveMs)], b.contexts)
  }

  lemma AdmitCoherent(b: Books, id: string, model: LoadedModel, e: R.Entry, info: ModelInfo, limits: Limits)
    requires Coherent(b, limits) && id !in b.loaded
    requires Record(Admit(b, id, model, e, info), id, limits) && Covered(info, e.memory, limits)
    requires info.options.Keys !! DEVICE_KEYS && 0 <= e.keepAliveMs
    ensures Coherent(Admit(b, id, model, e, info), limits)
  {
    var now := Admit(b, id, model, e, info);
    forall k | k in now.loaded ensures Record(now, k, limits) {
      assert k != id ==> Record(b, k, limits);
    }
    forall k | k in now.loaded && k in now.entries ensures Covered(now.loaded[k], now.entries[k].memory, limits) {
      assert k != id ==> Covered(b.loaded[k], b.entries[k].memory, limits);
    }
    forall k | k in now.remembered ensures Sane(now.remembered[k]) {
      assert k != id ==> Sane(b.remembered[k]);
    }
    forall k | k in now.contexts ensures ContextAgrees(now.contexts[k], now.loaded, now.models) {
      assert ContextAgrees(b.contexts[k], b.loaded, b.models);
    }
  }

  function Recall(remembered: map<string, Remembered>, id: string): Option<Remembered> {
    if id in remembered then Some(remembered[id]) else None
  }

  /** The books with one entry, and the lifetime remembered for it, replaced. */
  function WithEntry(b: Books, id: string, e: R.Entry): Books
    requires id in b.remembered
  {
    b.(entries := b.entries[id := e], remembered := b.remembered[id := b.remembered[id].(keepAliveMs := e.keepAliveMs)])
  }

  /** A new lifetime, stamp or lease count keeps the books coherent. */
  lemma WithEntryCoherent(b: Books, id: string, e: R.Entry, limits: Limits)
    requires Coherent(b, limits) && id in b.loaded
    requires e.memory == b.entries[id].memory && 0 <= e.keepAliveMs
    ensures Coherent(WithEntry(b, id, e), limits)
  {
    var now := WithEntry(b, id, e);
    forall k | k in now.loaded ensures Record(now, k, limits) {
      assert Record(b, k, limits);
    }
    forall k | k in now.loaded && k in now.entries ensures Covered(now.loaded[k], now.entries[k].memory, limits) {
      assert Covered(b.loaded[k], b.entries[k].memory, limits);
    }
    forall k | k in now.remembered ensures Sane(now.remembered[k]) {
      assert Sane(b.remembered[k]);
    }
    forall k | k in now.contexts ensures ContextAgrees(now.contexts[k], now.loaded, now.models) {
      assert ContextAgrees(b.contexts[k], b.loaded, b.models);
    }
  }

  function LeasesOn(entries: map<string, R.Entry>, id: string): int {
    if id in entries then entries[id].active else 0
  }

  function WithLease(b: Books, id: string, e: R.Entry): Books { b.(entries := b.entries[id := e]) }

  /**
   * What using a model does to the books. Other models are kept or evicted, never changed, and
   * nothing is forgotten; a resident model evicts nothing; a remembered model comes back with the
   * configuration it had, and with the lifetime it had unless the request gave another.
   */
  ghost predicate Used(was: Books, now: Books, id: string, keepAliveMs: int) {
    && Kept(was, now, id)
    && (id in was.loaded ==> now.loaded == was.loaded)
    && (id in was.remembered ==> now.remembered[id] == WithLifetime(was.remembered[id], keepAliveMs))
  }

  function WithLifetime(memo: Remembered, keepAliveMs: int): Remembered {
    if keepAliveMs < 0 then memo else memo.(keepAliveMs := keepAliveMs)
  }

  ghost predicate Kept(was: Books, now: Books, id: string) {
    && now.remembered.Keys == was.remembered.Keys + {id} && now.loaded.Keys <= was.loaded.Keys + {id}
    && (forall k {:trigger SameRecords(was, now, k)} :: k in now.loaded && k != id ==> SameRecords(was, now, k))
    && (forall k {:trigger SameMemo(was, now, k)} :: k in was.remembered && k != id ==> SameMemo(was, now, k))
    && now.contexts == ContextsFor(was.contexts, now.loaded.Keys)
  }

  predicate SameRecords(was: Books, now: Books, k: string) {
    && k in was.loaded && k in was.entries && k in now.loaded && k in now.entries
    && now.entries[k] == was.entries[k] && now.loaded[k] == was.loaded[k]
  }

  predicate SameMemo(was: Books, now: Books, k: string) {
    k in was.remembered && k in now.remembered && now.remembered[k] == was.remembered[k]
  }

  lemma RenewUses(was: Books, id: string, e: R.Entry, keepAliveMs: int, limits: Limits)
    requires Coherent(was, limits) && id in was.loaded
    requires e.keepAliveMs == if keepAliveMs < 0 then was.entries[id].keepAliveMs else keepAliveMs
    ensures Used(was, WithEntry(was, id, e), id, keepAliveMs)
  {
    NarrowAll(was, limits);
    assert Record(was, id, limits);
    forall k | k in was.loaded && k != id ensures SameRecords(was, WithEntry(was, id, e), k) {
      assert Record(was, k, limits);
    }
  }

  lemma EntryUses(was: Books, mid: Books, id: string, model: LoadedModel, e: R.Entry, info: ModelInfo, keepAliveMs: int,
    limits: Limits)
    requires Coherent(was, limits) && id !in was.loaded
    requires mid == Narrow(was, mid.loaded.Keys) && mid.loaded.Keys <= was.loaded.Keys
    requires id in was.remembered ==>
               && info.contextTokens == was.remembered[id].contextTokens && info.options == was.remembered[id].options
               && e.keepAliveMs == WithLifetime(was.remembered[id], keepAliveMs).keepAliveMs
    ensures Used(was, Admit(mid, id, model, e, info), id, keepAliveMs)
  {
    var now := Admit(mid, id, model, e, info);
    forall k | k in now.loaded && k != id ensures SameRecords(was, now, k) {
      assert Record(was, k, limits);
    }
    forall k | k in was.contexts ensures was.contexts[k].modelId != id {
      assert ContextAgrees(was.contexts[k], was.loaded, was.models);
    }
    assert now.contexts == ContextsFor(was.contexts, now.loaded.Keys);
  }

  lemma LeaseUses(was: Books, now: Books, id: string, e: R.Entry, keepAliveMs: int)
    requires Used(was, now, id, keepAliveMs)
    ensures Used(was, WithLease(now, id, e), id, keepAliveMs)
  {
    forall k | k in now.loaded && k != id ensures SameRecords(was, WithLease(now, id, e), k) {
      assert SameRecords(was, now, k);
    }
    forall k | k in was.remembered && k != id ensures SameMemo(was, WithLease(now, id, e), k) {
      assert SameMemo(was, now, k);
    }
  }

  predicate Stale(entries: map<string, R.Entry>, id: string, now: int) {
    R.Idle(entries, id) && now >= entries[id].expires
  }

  /** The models whose time is not over, or which are in use. */
  function Unexpired(b: Books, now: int): set<string> { set id | id in b.loaded && !Stale(b.entries, id, now) }

  /** Some idle models were evicted, nothing else happened. */
  ghost predicate Shrunk(was: Books, now: Books) {
    && now == Narrow(was, now.loaded.Keys) && now.loaded.Keys <= was.loaded.Keys
    && forall id {:trigger R.Idle(was.entries, id)} :: id in was.loaded && id !in now.loaded ==> R.Idle(was.entries, id)
  }

  lemma ForgetCoherent(b: Books, id: string, limits: Limits)
    requires Coherent(b, limits) && id !in b.loaded
    ensures Coherent(b.(remembered := b.remembered - {id}), limits)
  {
    var now := b.(remembered := b.remembered - {id});
    forall k | k in now.loaded ensures Record(now, k, limits) {
      assert Record(b, k, limits);
    }
    forall k | k in now.loaded && k in now.entries ensures Covered(now.loaded[k], now.entries[k].memory, limits) {
      assert Covered(b.loaded[k], b.entries[k].memory, limits);
    }
    forall k | k in now.remembered ensures Sane(now.remembered[k]) {
      assert Sane(b.remembered[k]);
    }
    forall k | k in now.contexts ensures ContextAgrees(now.contexts[k], now.loaded, now.models) {
      assert ContextAgrees(b.contexts[k], b.loaded, b.models);
    }
  }

  /** The cache may change as long as every context agrees with its model. */
  lemma ContextsCoherent(b: Books, contexts: map<string, C.Entry>, limits: Limits)
    requires Coherent(b, limits)
    requires forall k {:trigger ContextAgrees(contexts[k], b.loaded, b.models)} :: k in contexts ==>
               ContextAgrees(contexts[k], b.loaded, b.models)
    ensures Coherent(b.(contexts := contexts), limits)
  {
    var now := b.(contexts := contexts);
    forall id | id in now.loaded ensures Record(now, id, limits) {
      assert Record(b, id, limits);
    }
    forall id | id in now.loaded && id in now.entries ensures Covered(now.loaded[id], now.entries[id].memory, limits) {
      assert Covered(b.loaded[id], b.entries[id].memory, limits);
    }
    forall id | id in now.remembered ensures Sane(now.remembered[id]) {
      assert Sane(b.remembered[id]);
    }
  }

  // ---- The reservation against what is really live ----------------------------------------------

  /** How many contexts of a model are live: its cached ones, and the one of an embedding under way. */
  function Live(b: Books, embedding: Option<string>, id: string): nat {
    |C.ContextsOf(b.contexts, id)| + if embedding == Some(id) then 1 else 0
  }

  function Usages(b: Books, embedding: Option<string>): map<string, nat> {
    map id | id in b.loaded :: b.loaded[id].cost.Usage(Live(b, embedding, id))
  }

  function Itself(bytes: nat): nat { bytes }

  /** A model's live contexts are within the slots it was charged for, an embedding context included. */
  lemma LiveWithinSlots(b: Books, embedding: Option<string>, id: string, limits: Limits, clock: nat)
    requires Coherent(b, limits) && id in b.loaded && 1 <= limits.maxContexts
    requires C.Sound(b.contexts, limits.maxContexts, limits.maxTokens, clock)
    requires embedding == Some(id) ==> C.ContextsOf(b.contexts, id) == map[]
    ensures 2 <= b.loaded[id].contextTokens
    ensures Live(b, embedding, id) <= Slots(limits.maxContexts, limits.maxTokens, b.loaded[id].contextTokens)
  {
    assert Covered(b.loaded[id], b.entries[id].memory, limits) && Record(b, id, limits);
    var context := b.loaded[id].contextTokens;
    QuotientBound(1, context, limits.maxTokens);
    forall k | k in b.contexts && b.contexts[k].modelId == id ensures b.contexts[k].reservedTokens == context {
      assert ContextAgrees(b.contexts[k], b.loaded, b.models);
    }
    C.ContextsWithinSlots(b.contexts, limits.maxContexts, limits.maxTokens, clock, id, context);
  }

  lemma UsageWithinReservation(b: Books, embedding: Option<string>, id: string, limits: Limits, clock: nat)
    requires Coherent(b, limits) && id in b.loaded && 1 <= limits.maxContexts
    requires C.Sound(b.contexts, limits.maxContexts, limits.maxTokens, clock)
    requires embedding == Some(id) ==> C.ContextsOf(b.contexts, id) == map[]
    ensures Usages(b, embedding)[id] <= R.BytesOf(b.entries[id])
  {
    LiveWithinSlots(b, embedding, id, limits, clock);
    var info := b.loaded[id];
    assert Covered(info, b.entries[id].memory, limits);
    MulMonotone(Live(b, embedding, id), Slots(limits.maxContexts, limits.maxTokens, info.contextTokens),
      info.cost.perContext);
  }

  lemma LiveWithinReservations(b: Books, embedding: Option<string>, limits: Limits, cacheClock: nat)
    requires Coherent(b, limits) && 1 <= limits.maxContexts
    requires C.Sound(b.contexts, limits.maxContexts, limits.maxTokens, cacheClock)
    requires embedding.Some? ==> C.ContextsOf(b.contexts, embedding.value) == map[]
    ensures Total(Usages(b, embedding), Itself) <= R.ReservedBytes(b.entries)
  {
    forall id | id in b.loaded ensures Usages(b, embedding)[id] <= R.BytesOf(b.entries[id]) {
      UsageWithinReservation(b, embedding, id, limits, cacheClock);
    }
    TotalPointwise(Usages(b, embedding), Itself, b.entries, R.BytesOf);
  }

  /** Weights, live contexts and overhead of all loaded models together stay within the memory budget. */
  lemma LiveWithinBudget(b: Books, embedding: Option<string>, limits: Limits, cacheClock: nat, budget: U64, clock: nat)
    requires Coherent(b, limits) && 1 <= limits.maxContexts
    requires C.Sound(b.contexts, limits.maxContexts, limits.maxTokens, cacheClock)
    requires R.Sound(b.entries, limits.maxModels, budget, clock)
    requires embedding.Some? ==> C.ContextsOf(b.contexts, embedding.value) == map[]
    ensures Total(Usages(b, embedding), Itself) <= R.ReservedBytes(b.entries) <= budget
  {
    LiveWithinReservations(b, embedding, limits, cacheClock);
  }

  class ModelManager {
    const limits: Limits
    const runtimes: RuntimeManager
    const residency: R.ModelResidencyManager
    const cache: C.ContextCacheManager
    var loaded: map<string, ModelInfo>
    var remembered: map<string, Remembered>

    ghost function State(): Books
      reads this, runtimes, residency, cache
    {
      Books(runtimes.models, residency.entries, loaded, remembered, cache.entries)
    }

    ghost predicate Valid()
      reads this, runtimes, residency, cache
    {
      residency.Valid() && cache.Valid() && InStep() && Coherent(State(), limits)
    }

    /** The components were built with the same limits. */
    ghost predicate InStep() {
      && runtimes.limit == residency.limit == limits.maxModels
      && cache.maxCount == limits.maxContexts && cache.maxTokens == limits.maxTokens <= INT_MAX
    }

    constructor (limits: Limits, hardware: HardwareInfo, budget: U64, reserve: U64, keepAliveMs: int, ram: Option<U64>,
                 cache: C.ContextCacheManager)
      requires 1 <= limits.maxModels && 1 <= limits.maxContexts && 2 <= limits.maxTokens <= INT_MAX
      requires 2 <= limits.defaultContext && -1 <= keepAliveMs
      requires cache.Valid() && cache.maxCount == limits.maxContexts && cache.maxTokens == limits.maxTokens
               && cache.entries == map[]
      ensures Valid() && State() == Books(map[], map[], map[], map[], map[]) && this.cache == cache
              && this.limits == limits
      ensures fresh(runtimes) && fresh(residency)
    {
      this.limits := limits;
      runtimes := new RuntimeManager(limits.maxModels, hardware);
      residency := new R.ModelResidencyManager(limits.maxModels, budget, reserve, keepAliveMs, ram);
      this.cache := cache;
      loaded := map[];
      remembered := map[];
    }

    method Evict(id: string, automatic: bool) returns (r: Result<()>)
      requires Valid() && id in loaded
      modifies this, runtimes, residency, cache
      ensures Valid()
      ensures r.Ok? <==> R.Idle(old(residency.entries), id)
      ensures r.Err? ==> State() == old(State()) && residency.evictions == old(residency.evictions)
      ensures r.Ok? ==> State() == Narrow(old(State()), old(loaded).Keys - {id})
                        && residency.evictions == old(residency.evictions) + (if automatic then 1 else 0)
    {
      if residency.entries[id].active != 0 {
        return Err(ModelInUse);
      }
      DropModel(id, automatic);
      return Ok(());
    }

    /** Drops the model's contexts, then its runtime model, then its records. */
    method DropModel(id: string, automatic: bool)
      requires Valid() && R.Idle(residency.entries, id)
      modifies this, runtimes, residency, cache
      ensures Valid()
      ensures State() == Narrow(old(State()), old(loaded).Keys - {id})
      ensures residency.evictions == old(residency.evictions) + (if automatic then 1 else 0)
    {
      ghost var was := State();
      Forgotten(was, id, limits);
      cache.EraseModel(id);
      var gone := runtimes.Unload(id);
      var erased := residency.Erased(id, automatic);
      loaded := loaded - {id};
      assert State() == Narrow(was, was.loaded.Keys - {id});
    }

    /** `b` results from `origin` by automatic evictions, one per refused reading. */
    ghost predicate EvictedTo(b: Books, origin: Books, required: nat, readings: seq<Option<U64>>) {
      && b == Narrow(origin, b.loaded.Keys) && b.loaded.Keys <= origin.loaded.Keys
      && b.entries == R.DropOldest(origin.entries, |readings|)
      && AllRefused(origin.entries, required, readings)
    }

    lemma EvictedNext(b: Books, next: Books, origin: Books, required: nat, readings: seq<Option<U64>>,
      reading: Option<U64>, victim: string)
      requires R.DistinctStamps(b.entries) && R.IsOldestIdle(b.entries, victim)
      requires EvictedTo(b, origin, required, readings) && !Admits(b.entries, required, reading)
      requires next == Narrow(origin, next.loaded.Keys) && next.loaded.Keys <= origin.loaded.Keys
               && next.entries == b.entries - {victim}
      ensures EvictedTo(next, origin, required, readings + [reading])
    {
      assert next.entries == R.DropOldest(origin.entries, |readings + [reading]|) by {
        R.DropNext(origin.entries, |readings|, victim);
      }
      RefusedAgain(origin.entries, required, readings, reading);
    }

    lemma NarrowedNext(b: Books, origin: Books, victim: string)
      requires Coherent(b, limits) && b == Narrow(origin, b.loaded.Keys) && b.loaded.Keys <= origin.loaded.Keys
      ensures var next := Narrow(b, b.loaded.Keys - {victim});
              && next.loaded.Keys == b.loaded.Keys - {victim} && next.entries == b.entries - {victim}
              && next == Narrow(origin, next.loaded.Keys) && next.loaded.Keys <= origin.loaded.Keys
    {
      NarrowEntries(b, limits, victim);
      NarrowTwice(origin, b.loaded.Keys, b.loaded.Keys - {victim});
    }

    ghost predicate Evicting(origin: Books, required: nat, readings: seq<Option<U64>>)
      reads this, runtimes, residency, cache
    {
      EvictedTo(State(), origin, required, readings)
    }

    method EvictVictim(victim: string, ghost origin: Books, ghost required: nat, ghost readings: seq<Option<U64>>,
      ghost reading: Option<U64>)
      requires Valid() && R.IsOldestIdle(residency.entries, victim)
      requires Evicting(origin, required, readings) && !Admits(residency.entries, required, reading)
      modifies this, runtimes, residency, cache
      ensures Valid() && loaded.Keys == old(loaded).Keys - {victim}
      ensures Evicting(origin, required, readings + [reading])
      ensures residency.evictions == old(residency.evictions) + 1
    {
      NarrowedNext(State(), origin, victim);
      EvictedNext(State(), Narrow(State(), loaded.Keys - {victim}), origin, required, readings, reading, victim);
      DropModel(victim, true);
    }

    /** One round of the admission loop; `r` is the answer once it is decided. */
    method AdmitOrEvict(required: U64, available: Option<U64>, cancelled: bool, ghost origin: Books,
      ghost readings: seq<Option<U64>>)
      returns (r: Option<Result<()>>)
      requires Valid() && Evicting(origin, required, readings)
      modifies this, runtimes, residency, cache
      ensures Valid()
      ensures r.Some? ==> Evicting(origin, required, readings) && residency.evictions == old(residency.evictions)
      ensures r.None? ==> Evicting(origin, required, readings + [available]) && |loaded| < |old(loaded)|
                          && residency.evictions == old(residency.evictions) + 1
      ensures r.Some? && r.value.Ok? <==> old(Admits(residency.entries, required, available))
      ensures r == Some(Err(ResourceLimit)) ==> R.NoneIdle(residency.entries)
      ensures r.Some? && r.value.Err? ==> r.value.code in {ResourceLimit, Cancelled}
    {
      var fits := residency.Fits(required, available);
      if fits {
        return Some(Ok(()));
      }
      if cancelled {
        return Some(Err(Cancelled));
      }
      var victim := residency.OldestIdle();
      if victim.None? {
        return Some(Err(ResourceLimit));
      }
      EvictVictim(victim.value, origin, required, readings, available);
      return None;
    }

    /**
     * The admission loop of load. The available RAM and the cancellation flag are read afresh each
     * time round; `readings` records the former, `last` being the one the loop ended with.
     */
    method EvictUntilFits(required: U64)
      returns (r: Result<()>, ghost readings: seq<Option<U64>>, ghost last: Option<U64>)
      requires Valid()
      modifies this, runtimes, residency, cache
      ensures Valid() && Evicting(old(State()), required, readings)
      ensures residency.evictions == old(residency.evictions) + |readings|
      ensures r.Ok? <==> Admits(residency.entries, required, last)
      ensures r == Err(ResourceLimit) ==> R.NoneIdle(residency.entries)
      ensures r.Err? ==> r.code in {ResourceLimit, Cancelled}
    {
      readings := [];
      ghost var origin := State();
      NarrowAll(origin, limits);
      while true
        invariant Valid() && Evicting(origin, required, readings)
        invariant residency.evictions == old(residency.evictions) + |readings|
        decreases |loaded|
      {
        var available: Option<U64> := *;
        var cancelled: bool := *;
        var decided := AdmitOrEvict(required, available, cancelled, origin, readings);
        if decided.Some? {
          return decided.value, readings, available;
        }
        readings := readings + [available];
      }
    }

    /** With the j-th reading, after j evictions, the model still did not fit. */
    ghost predicate Refused(entries: map<string, R.Entry>, j: nat, required: nat, available: Option<U64>) {
      !Admits(R.DropOldest(entries, j), required, available)
    }

    ghost predicate AllRefused(entries: map<string, R.Entry>, required: nat, readings: seq<Option<U64>>) {
      forall j {:trigger Refused(entries, j, required, readings[j])} ::
        0 <= j < |readings| ==> Refused(entries, j, required, readings[j])
    }

    lemma RefusedAgain(entries: map<string, R.Entry>, required: nat, readings: seq<Option<U64>>, available: Option<U64>)
      requires AllRefused(entries, required, readings)
      requires !Admits(R.DropOldest(entries, |readings|), required, available)
      ensures AllRefused(entries, required, readings + [available])
    {
      var more := readings + [available];
      forall j | 0 <= j < |more| ensures Refused(entries, j, required, more[j]) {
        if j < |readings| {
          assert Refused(entries, j, required, readings[j]);
        }
      }
    }

    ghost predicate Admits(entries: map<string, R.Entry>, required: nat, available: Option<U64>) {
      R.Admits(entries, residency.limit, residency.budget, residency.reserve, required, available)
    }

    /** Context size, integrity and memory reservation of a model about to be loaded. */
    method Appraise(config: LoadRequest, answers: Answers) returns (r: Result<(nat, MemoryEstimate)>)
      requires Valid() && Usable(config)
      ensures r.Ok? ==>
                && answers.contextLength.Ok? && answers.verified.Ok?
                && ContextFor(config, answers.contextLength.value, limits) == Ok(r.value.0)
                && 0 < r.value.1.Sum() <= U64_MAX
                && forall o :: o in answers.offers ==> ReservedFor(o, r.value.0, r.value.1)
    {
      if answers.contextLength.Err? {
        return Err(answers.contextLength.code);
      }
      var context := ContextFor(config, answers.contextLength.value, limits);
      if context.Err? {
        return Err(context.code);
      }
      if answers.verified.Err? {
        return Err(answers.verified.code);
      }
      var slots := Slots(limits.maxContexts, limits.maxTokens, context.value);
      var estimates := Estimates(answers.offers, slots);
      var memory := runtimes.EstimateMemory(estimates);
      if memory.Err? {
        return Err(memory.code);
      }
      forall o | o in answers.offers ensures ReservedFor(o, context.value, memory.value) {
        var i :| 0 <= i < |answers.offers| && answers.offers[i] == o;
        assert estimates[i] in estimates;
      }
      return Ok((context.value, memory.value));
    }

    /** The reservation is at least what this runtime estimates for the slots of the context size. */
    predicate ReservedFor(o: Offer, context: nat, memory: MemoryEstimate) {
      1 <= context &&
      var answer := EstimateOf(o, Slots(limits.maxContexts, limits.maxTokens, context));
      answer.Ok? && answer.value.Sum() <= memory.Sum()
    }

    /** Loads the runtime model that was admitted and enters it in the books. */
    method Place(id: string, context: nat, memory: MemoryEstimate, config: LoadRequest, answers: Answers, now: int)
      returns (r: Result<()>)
      requires Valid() && id !in loaded && Usable(config)
      requires 2 <= context <= limits.maxTokens && memory.Sum() <= U64_MAX
               && Admits(residency.entries, memory.Sum(), None)
      requires forall o :: o in answers.offers ==> ReservedFor(o, context, memory)
      modifies this, runtimes, residency, cache
      ensures Valid()
      ensures !old(runtimes.Refuses(ModelSpec(id, context, config.options)))
      ensures r.Err? ==> State() == old(State())
      ensures r.Ok? ==> Entered(old(State()), id, context, memory, config, now)
      ensures r.Ok? ==> Chosen(old(State()), id, context, config, answers)
    {
      ghost var was := State();
      var spec := ModelSpec(id, context, config.options);
      assert !runtimes.Refuses(spec) by {
        SameSize(runtimes.models, residency.entries);
      }
      var survey := if answers.surveyCancelled then Err(Cancelled) else Ok(Candidates(answers.offers));
      var selection := runtimes.Load(spec, survey, answers.pathExists, answers.attempts);
      if selection.Err? {
        return Err(selection.code);
      }
      var info := ModelInfo(context, config.options, selection.value, CostOf(answers.offers, selection.value.runtime));
      CoveredBySelection(answers.offers, selection.value.runtime, context, memory, info);
      Register(id, memory, info, config.keepAliveMs, now, was);
      return Ok(());
    }

    /** The model that was entered runs where the device policy puts it. */
    ghost predicate Chosen(mid: Books, id: string, context: nat, config: LoadRequest, answers: Answers)
      reads this, runtimes
    {
      && id in loaded
      && ChosenByPolicy(runtimes.hardware, ModelSpec(id, context, config.options), Candidates(answers.offers),
                        answers.attempts, mid.models, Ok(loaded[id].execution), runtimes.models)
    }

    lemma SameSize(models: map<string, LoadedModel>, entries: map<string, R.Entry>)
      requires models.Keys == entries.Keys
      ensures |models| == |entries|
    {
      assert |models| == |models.Keys| && |entries| == |entries.Keys|;
    }

    /** Enters the model just loaded in the three other books. The residency check cannot fail any more. */
    method Register(id: string, memory: MemoryEstimate, info: ModelInfo, keepAliveMs: int, now: int, ghost was: Books)
      requires residency.Valid() && cache.Valid() && InStep() && Coherent(was, limits)
      requires id !in loaded && id in runtimes.models
               && State() == was.(models := was.models[id := runtimes.models[id]])
      requires runtimes.models[id].spec == ModelSpec(id, info.contextTokens, info.options)
               && runtimes.models[id].execution == info.execution
      requires 2 <= info.contextTokens <= limits.maxTokens && info.options.Keys !! DEVICE_KEYS
      requires memory.Sum() <= U64_MAX && Admits(residency.entries, memory.Sum(), None) && Covered(info, memory, limits)
      modifies this, residency
      ensures Valid()
      ensures id in residency.entries && State() == Admit(was, id, runtimes.models[id], residency.entries[id], info)
      ensures residency.entries[id] ==
              R.NewEntry(memory, if keepAliveMs < 0 then residency.keepAlive else keepAliveMs, now, residency.clock)
    {
      var registered := residency.Loaded(id, memory, keepAliveMs, now);
      assert registered.Ok?;
      loaded := loaded[id := info];
      remembered := remembered[id := Remembered(info.contextTokens, info.options, residency.entries[id].keepAliveMs)];
      AdmitCoherent(was, id, runtimes.models[id], residency.entries[id], info, limits);
      assert State() == Admit(was, id, runtimes.models[id], residency.entries[id], info);
    }

    lemma CoveredBySelection(offers: seq<Offer>, runtime: string, context: nat, memory: MemoryEstimate, info: ModelInfo)
      requires forall o :: o in offers ==> ReservedFor(o, context, memory)
      requires exists c :: c in Candidates(offers) && c.id == runtime
      requires 2 <= context == info.contextTokens && info.cost == CostOf(offers, runtime)
      ensures Covered(info, memory, limits)
    {
      var c :| c in Candidates(offers) && c.id == runtime;
      var i :| 0 <= i < |offers| && Candidates(offers)[i] == c;
      assert offers[i] in offers;
      ReservationCoversCost(offers, Slots(limits.maxContexts, limits.maxTokens, context), runtime, memory.Sum());
    }

    /** The books after a model was entered in the books `mid`. */
    ghost predicate Entered(mid: Books, id: string, context: nat, memory: MemoryEstimate, config: LoadRequest, now: int)
      reads this, runtimes, residency, cache
    {
      && id in loaded && id in residency.entries && id in runtimes.models
      && State() == Admit(mid, id, runtimes.models[id], residency.entries[id], loaded[id])
      && loaded[id].contextTokens == context && loaded[id].options == config.options
      && residency.entries[id] == R.NewEntry(memory,
        if config.keepAliveMs < 0 then residency.keepAlive else config.keepAliveMs, now, residency.clock)
    }

    /** The part of load that runs when the model is not resident; `mid` is what the admission loop leaves. */
    method LoadFresh(id: string, config: LoadRequest, answers: Answers, now: int)
      returns (r: Result<()>, ghost mid: Books, ghost memory: MemoryEstimate, ghost readings: seq<Option<U64>>,
        ghost last: Option<U64>)
      requires Valid() && id !in loaded && Usable(config)
      modifies this, runtimes, residency, cache
      ensures Valid()
      ensures r.Ok? ==> Admits(mid.entries, memory.Sum(), last)
      ensures EvictedTo(mid, old(State()), memory.Sum(), readings)
      ensures r.Err? ==> State() == mid
      ensures r.Ok? ==> answers.contextLength.Ok? && ContextFor(config, answers.contextLength.value, limits).Ok?
                        && Entered(mid, id, ContextFor(config, answers.contextLength.value, limits).value,
                          memory, config, now)
                        && Chosen(mid, id, ContextFor(config, answers.contextLength.value, limits).value,
                          config, answers)
    {
      mid, memory, readings, last := State(), MemoryEstimate(0, 0, 0), [], None;
      NarrowAll(mid, limits);
      var plan := Appraise(config, answers);
      if plan.Err? {
        return Err(plan.code), mid, memory, [], last;
      }
      memory := plan.value.1;
      var total := plan.value.1.TotalBytes();
      if total.value > residency.budget {
        return Err(ResourceLimit), mid, memory, [], last;
      }
      r, readings, last := EvictUntilFits(total.value);
      mid := State();
      if r.Ok? {
        r := Place(id, plan.value.0, plan.value.1, config, answers, now);
      }
    }

    /** The books after a resident model is asked for again. */
    ghost predicate Renewed(was: Books, id: string, keepAliveMs: int, now: int)
      reads this, runtimes, residency, cache
    {
      && id in was.entries && id in was.remembered
      && State() == WithEntry(was, id, R.Touched(was.entries[id], keepAliveMs, residency.clock, now))
    }

    method Renew(id: string, keepAliveMs: int, now: int)
      requires Valid() && id in loaded
      modifies this, residency
      ensures Valid() && Renewed(old(State()), id, keepAliveMs, now)
    {
      ghost var was := State();
      residency.Touch(id, keepAliveMs, now);
      remembered := remembered[id := remembered[id].(keepAliveMs := residency.entries[id].keepAliveMs)];
      WithEntryCoherent(was, id, residency.entries[id], limits);
      assert State() == WithEntry(was, id, residency.entries[id]);
    }

    /**
     * Load: `target` is the model the reference names. A resident model is only renewed; any other
     * is admitted, loaded and entered, or the books change by evictions alone.
     */
    method Load(target: Result<string>, request: LoadRequest, answers: Answers, now: int)
      returns (r: Result<()>, ghost mid: Books, ghost memory: MemoryEstimate, ghost readings: seq<Option<U64>>)
      requires Valid()
      modifies this, runtimes, residency, cache
      ensures Valid()
      ensures EvictedTo(mid, old(State()), memory.Sum(), readings)
      ensures r.Err? ==> State() == mid
      ensures r.Ok? ==> target.Ok? && Acceptable(request)
      ensures target.Ok? && !Acceptable(request) ==> r == Err(InvalidArgument)
      ensures target.Ok? && Acceptable(request) && target.value in old(loaded) ==>
                r == if Compatible(request, old(loaded)[target.value]) then Ok(()) else Err(ModelInUse)
      ensures r.Ok? && target.value in old(loaded)
              ==> readings == [] && Renewed(old(State()), target.value, request.keepAliveMs, now)
      ensures r.Ok? && target.value !in old(loaded) ==>
                var config := Configure(request, Recall(old(remembered), target.value));
                && answers.contextLength.Ok? && 0 <= config.contextTokens
                && ContextFor(config, answers.contextLength.value, limits).Ok?
                && Entered(mid, target.value, ContextFor(config, answers.contextLength.value, limits).value,
                  memory, config, now)
                && Chosen(mid, target.value, ContextFor(config, answers.contextLength.value, limits).value,
                  config, answers)
    {
      mid, memory, readings := State(), MemoryEstimate(0, 0, 0), [];
      NarrowAll(mid, limits);
      if target.Err? {
        return Err(target.code), mid, memory, readings;
      }
      if !Acceptable(request) {
        return Err(InvalidArgument), mid, memory, readings;
      }
      var id := target.value;
      if id in loaded {
        if !Compatible(request, loaded[id]) {
          return Err(ModelInUse), mid, memory, readings;
        }
        Renew(id, request.keepAliveMs, now);
        return Ok(()), mid, memory, readings;
      }
      assert id in remembered ==> Sane(State().remembered[id]);
      var config := Configure(request, Recall(remembered, id));
      ghost var last;
      r, mid, memory, readings, last := LoadFresh(id, config, answers, now);
    }

    /** Loads the model if need be, and takes a lease on it. */
    method Acquire(id: string, keepAliveMs: int, answers: Answers, now: int) returns (r: Result<()>)
      requires Valid()
      modifies this, runtimes, residency, cache
      ensures Valid()
      ensures r.Err? ==> State() == Narrow(old(State()), loaded.Keys) && loaded.Keys <= old(loaded).Keys
      ensures r.Ok? ==> id in loaded && Used(old(State()), State(), id, keepAliveMs)
      ensures r.Ok? ==> residency.entries[id].active == 1 + LeasesOn(old(residency.entries), id)
    {
      ghost var was := State();
      r := LoadForUse(id, keepAliveMs, answers, now);
      if r.Err? {
        return;
      }
      ghost var b := State();
      Lease(id, keepAliveMs, now);
      LeaseUses(was, b, id, residency.entries[id], keepAliveMs);
      assert State() == WithLease(b, id, residency.entries[id]);
    }

    /** The default load every request starts with. */
    method LoadForUse(id: string, keepAliveMs: int, answers: Answers, now: int) returns (r: Result<()>)
      requires Valid()
      modifies this, runtimes, residency, cache
      ensures Valid()
      ensures r.Err? ==> State() == Narrow(old(State()), loaded.Keys) && loaded.Keys <= old(loaded).Keys
      ensures r.Ok? ==> id in loaded && Used(old(State()), State(), id, keepAliveMs)
      ensures r.Ok? ==> residency.entries[id].active == LeasesOn(old(residency.entries), id)
      ensures r.Ok? && keepAliveMs >= 0 ==> residency.entries[id].keepAliveMs == keepAliveMs
    {
      ghost var was := State();
      ghost var mid, memory;
      r, mid, memory := LoadPlain(id, keepAliveMs, answers, now);
      if r.Ok? {
        if id in was.loaded {
          RenewUses(was, id, R.Touched(was.entries[id], keepAliveMs, residency.clock, now), keepAliveMs, limits);
        } else {
          if id in was.remembered {
            assert Sane(was.remembered[id]);
            DefaultRecalls(was.remembered[id], keepAliveMs, answers.contextLength.value);
          }
          EntryUses(was, mid, id, runtimes.models[id], residency.entries[id], loaded[id], keepAliveMs, limits);
        }
      }
    }

    /** A load that asks for nothing but perhaps a lifetime. */
    method LoadPlain(id: string, keepAliveMs: int, answers: Answers, now: int)
      returns (r: Result<()>, ghost mid: Books, ghost memory: MemoryEstimate)
      requires Valid()
      modifies this, runtimes, residency, cache
      ensures Valid()
      ensures mid == Narrow(old(State()), mid.loaded.Keys) && mid.loaded.Keys <= old(loaded).Keys
      ensures r.Err? ==> State() == mid
      ensures r.Ok? && id in old(loaded) ==> Renewed(old(State()), id, keepAliveMs, now)
      ensures r.Ok? && id !in old(loaded) ==>
                var config := Configure(DEFAULT.(keepAliveMs := keepAliveMs), Recall(old(remembered), id));
                && answers.contextLength.Ok? && 0 <= config.contextTokens
                && ContextFor(config, answers.contextLength.value, limits).Ok?
                && Entered(mid, id, ContextFor(config, answers.contextLength.value, limits).value, memory, config, now)
    {
      ghost var readings;
      r, mid, memory, readings := Load(Ok(id), DEFAULT.(keepAliveMs := keepAliveMs), answers, now);
    }

    /** The default load completes to the remembered configuration, with the lifetime asked for if any. */
    lemma DefaultRecalls(memo: Remembered, keepAliveMs: int, contextLength: nat)
      requires Sane(memo)
      ensures var config := Configure(DEFAULT.(keepAliveMs := keepAliveMs), Some(memo));
              && config == LoadRequest(memo.contextTokens, memo.options, WithLifetime(memo, keepAliveMs).keepAliveMs)
              && (ContextFor(config, contextLength, limits).Ok?
                ==> ContextFor(config, contextLength, limits).value == memo.contextTokens)
    {
    }

    method Lease(id: string, keepAliveMs: int, now: int)
      requires Valid() && id in loaded && (keepAliveMs < 0 || keepAliveMs == residency.entries[id].keepAliveMs)
      modifies residency
      ensures Valid() && residency.clock == old(residency.clock) + 1
      ensures State() == WithLease(old(State()), id,
              R.Leased(old(residency.entries)[id], keepAliveMs, residency.clock, now))
    {
      ghost var was := State();
      residency.Acquire(id, keepAliveMs, now);
      Returned(was, id, residency.entries[id]);
      assert State() == WithLease(was, id, residency.entries[id]);
    }

    /** Only models were evicted since `origin`. */
    ghost predicate Remaining(origin: Books)
      reads this, runtimes, residency, cache
    {
      State() == Narrow(origin, loaded.Keys)
    }

    method DropAlso(id: string, ghost origin: Books)
      requires Valid() && R.Idle(residency.entries, id) && Remaining(origin)
      modifies this, runtimes, residency, cache
      ensures Valid() && Remaining(origin)
      ensures loaded.Keys == old(loaded).Keys - {id} && residency.entries == old(residency.entries) - {id}
    {
      NarrowTwice(origin, loaded.Keys, loaded.Keys - {id});
      NarrowEntries(State(), limits, id);
      DropModel(id, true);
    }

    /** The loop of expiry: what is left of the models that were due is in `due`. */
    ghost predicate Expiring(origin: Books, now: int, due: set<string>)
      reads this, runtimes, residency, cache
    {
      Remaining(origin) && loaded.Keys == Unexpired(origin, now) + due
        && due <= origin.loaded.Keys - Unexpired(origin, now)
    }

    method DropDue(id: string, ghost origin: Books, ghost now: int, ghost due: set<string>)
      requires Valid() && Expiring(origin, now, due) && id in due
      modifies this, runtimes, residency, cache
      ensures Valid() && Expiring(origin, now, due - {id})
    {
      DueIsIdle(State(), origin, now, due, id);
      DropAlso(id, origin);
    }

    lemma DueIsIdle(b: Books, origin: Books, now: int, due: set<string>, id: string)
      requires Coherent(b, limits) && b == Narrow(origin, b.loaded.Keys) && id in due
      requires b.loaded.Keys == Unexpired(origin, now) + due && due <= origin.loaded.Keys - Unexpired(origin, now)
      ensures R.Idle(b.entries, id) && b.loaded.Keys - {id} == Unexpired(origin, now) + (due - {id})
    {
      assert id in b.loaded && b.entries == Restrict(origin.entries, b.loaded.Keys);
    }

    /** Evicts every idle model whose time is over. */
    method DropExpired(now: int)
      requires Valid()
      modifies this, runtimes, residency, cache
      ensures Valid() && loaded.Keys == Unexpired(old(State()), now) && Remaining(old(State()))
    {
      ghost var origin := State();
      NarrowAll(origin, limits);
      var ids := residency.Expired(now);
      assert Expiring(origin, now, Later(ids, 0)) by {
        StaleIsExpired(ids, origin, now);
      }
      DropAll(ids, origin, now);
    }

    method DropAll(ids: seq<string>, ghost origin: Books, ghost now: int)
      requires Valid() && Expiring(origin, now, Later(ids, 0))
      requires forall j, k :: 0 <= j < k < |ids| ==> ids[j] != ids[k]
      modifies this, runtimes, residency, cache
      ensures Valid() && Remaining(origin) && loaded.Keys == Unexpired(origin, now)
    {
      for i := 0 to |ids|
        invariant Valid() && Expiring(origin, now, Later(ids, i))
      {
        DropNth(ids, i, origin, now);
      }
    }

    method DropNth(ids: seq<string>, i: nat, ghost origin: Books, ghost now: int)
      requires Valid() && i < |ids| && Expiring(origin, now, Later(ids, i))
      requires forall j, k :: 0 <= j < k < |ids| ==> ids[j] != ids[k]
      modifies this, runtimes, residency, cache
      ensures Valid() && Expiring(origin, now, Later(ids, i + 1))
    {
      LaterStep(ids, i);
      DropDue(ids[i], origin, now, Later(ids, i));
    }

    lemma StaleIsExpired(ids: seq<string>, b: Books, now: int)
      requires Coherent(b, limits)
      requires forall k :: k in ids <==> R.Idle(b.entries, k) && now >= b.entries[k].expires
      ensures b.loaded.Keys - Unexpired(b, now) == Later(ids, 0) && Unexpired(b, now) <= b.loaded.Keys
      ensures b.loaded.Keys == Unexpired(b, now) + Later(ids, 0)
    {
      assert ids[0..] == ids;
    }

    ghost function Later(ids: seq<string>, i: nat): set<string>
      requires i <= |ids|
    {
      set id | id in ids[i..]
    }

    lemma LaterStep(ids: seq<string>, i: nat)
      requires i < |ids| && forall j, k :: 0 <= j < k < |ids| ==> ids[j] != ids[k]
      ensures ids[i] in Later(ids, i) && Later(ids, i + 1) == Later(ids, i) - {ids[i]}
    {
      assert ids[i..] == [ids[i]] + ids[i + 1..];
    }

    /** Reclaims idle models while the available RAM stays below the reserve. */
    method RelievePressure() returns (ghost readings: seq<Option<U64>>, ghost last: Option<U64>)
      requires Valid()
      modifies this, runtimes, residency, cache
      ensures Valid() && Evicting(old(State()), 0, readings)
      ensures AllShort(readings)
      ensures Short(last) ==> R.NoneIdle(residency.entries)
    {
      readings := [];
      ghost var origin := State();
      assert Evicting(origin, 0, readings) by {
        NarrowAll(origin, limits);
      }
      var available: Option<U64> := *;
      while Short(available)
        invariant Valid() && Evicting(origin, 0, readings)
        invariant AllShort(readings)
        decreases |loaded|
      {
        var stuck := Reclaim(available, origin, readings);
        if stuck {
          break;
        }
        readings := readings + [available];
        available := *;
      }
      last := available;
    }

    method Reclaim(available: Option<U64>, ghost origin: Books, ghost readings: seq<Option<U64>>) returns (stuck: bool)
      requires Valid() && Evicting(origin, 0, readings) && Short(available)
      modifies this, runtimes, residency, cache
      ensures Valid()
      ensures stuck ==> Evicting(origin, 0, readings) && R.NoneIdle(residency.entries)
      ensures !stuck ==> Evicting(origin, 0, readings + [available]) && |loaded| < |old(loaded)|
    {
      var victim := residency.OldestIdle();
      if victim.None? {
        return true;
      }
      EvictVictim(victim.value, origin, 0, readings, available);
      return false;
    }

    ghost predicate AllShort(readings: seq<Option<U64>>) { forall j :: 0 <= j < |readings| ==> Short(readings[j]) }

    predicate Short(available: Option<U64>) { available.Some? && available.value < residency.reserve }

    /** Expiry and pressure together only evict idle models, and leave none that is stale. */
    lemma ShrunkBy(was: Books, settled: Books, now: Books, readings: seq<Option<U64>>, time: int)
      requires Coherent(was, limits) && R.DistinctStamps(settled.entries)
      requires settled == Narrow(was, Unexpired(was, time))
      requires EvictedTo(now, settled, 0, readings)
      ensures Shrunk(was, now)
      ensures forall id :: id in now.loaded ==> !Stale(now.entries, id, time)
    {
      assert now == Narrow(was, now.loaded.Keys) by {
        NarrowTwice(was, Unexpired(was, time), now.loaded.Keys);
      }
      R.DropOldestIsLru(settled.entries, |readings|);
      forall id | id in was.loaded && id !in now.loaded ensures R.Idle(was.entries, id) {
        assert id in settled.entries && id !in now.entries ==> R.Idle(settled.entries, id);
      }
    }

    /** Maintenance after every job and while idle: expiry first, then memory pressure. */
    method Maintain(now: int) returns (ghost settled: Books, ghost readings: seq<Option<U64>>)
      requires Valid()
      modifies this, runtimes, residency, cache
      ensures Valid() && Shrunk(old(State()), State())
      ensures settled == Narrow(old(State()), Unexpired(old(State()), now))
      ensures EvictedTo(State(), settled, 0, readings)
      ensures forall id :: id in loaded ==> !Stale(residency.entries, id, now)
    {
      ghost var was := State();
      DropExpired(now);
      settled := State();
      ghost var last;
      readings, last := RelievePressure();
      ShrunkBy(was, settled, State(), readings, now);
    }

    /** Gives a lease back, then maintains. */
    method Release(id: string, now: int) returns (r: Result<()>)
      requires Valid() && id in loaded
      modifies this, runtimes, residency, cache
      ensures Valid()
      ensures r.Ok? <==> old(residency.entries)[id].active > 0
      ensures r.Err? ==> State() == old(State())
      ensures r.Ok? ==> Shrunk(WithLease(old(State()), id,
              R.Released(old(residency.entries)[id], old(residency.clock) + 1, now)), State())
    {
      r := GiveBack(id, now);
      if r.Ok? {
        ghost var settled, readings := Maintain(now);
      }
    }

    method GiveBack(id: string, now: int) returns (r: Result<()>)
      requires Valid() && id in loaded
      modifies this, residency
      ensures Valid()
      ensures r.Ok? <==> old(residency.entries)[id].active > 0
      ensures r.Err? ==> State() == old(State())
      ensures r.Ok? ==> State() == WithLease(old(State()), id,
              R.Released(old(residency.entries)[id], old(residency.clock) + 1, now))
    {
      ghost var was := State();
      r := residency.Release(id, now);
      if r.Err? {
        assert State() == was;
        return;
      }
      remembered := remembered[id := remembered[id].(keepAliveMs := residency.entries[id].keepAliveMs)];
      assert State() == WithEntry(was, id, residency.entries[id]);
      Returned(was, id, residency.entries[id]);
    }

    /** Giving a lease back leaves the remembered lifetime as it is. */
    lemma Returned(was: Books, id: string, e: R.Entry)
      requires Coherent(was, limits) && id in was.loaded
      requires e.memory == was.entries[id].memory && e.keepAliveMs == was.entries[id].keepAliveMs >= 0
      ensures Coherent(WithEntry(was, id, e), limits) && WithEntry(was, id, e) == WithLease(was, id, e)
    {
      WithEntryCoherent(was, id, e, limits);
      assert Record(was, id, limits);
    }

    /** Drops one cached context. */
    method Forget(key: string)
      requires Valid()
      modifies cache
      ensures Valid() && State() == old(State()).(contexts := old(cache.entries) - {key})
    {
      ghost var was := State();
      cache.Erase(key);
      SubsetAgrees(was, cache.entries);
      assert State() == was.(contexts := cache.entries);
    }

    /** Drops every cached context of a model, to make room for its embedding context. */
    method ForgetModel(id: string)
      requires Valid()
      modifies cache
      ensures Valid() && State() == old(State()).(contexts := cache.entries)
      ensures cache.entries == map k | k in old(cache.entries) && old(cache.entries)[k].modelId != id ::
                old(cache.entries)[k]
    {
      ghost var was := State();
      cache.EraseModel(id);
      SubsetAgrees(was, cache.entries);
      assert State() == was.(contexts := cache.entries);
    }

    lemma SubsetAgrees(b: Books, part: map<string, C.Entry>)
      requires Coherent(b, limits) && C.Submap(part, b.contexts)
      ensures Coherent(b.(contexts := part), limits)
    {
      forall k | k in part ensures ContextAgrees(part[k], b.loaded, b.models) {
        assert ContextAgrees(b.contexts[k], b.loaded, b.models);
      }
      ContextsCoherent(b, part, limits);
    }

    /** The cached context of a loaded model under a key, created if need be. */
    method Context(key: string, id: string, created: Result<int>) returns (r: Result<int>)
      requires Valid() && id in loaded
      modifies cache
      ensures Valid() && State() == old(State()).(contexts := cache.entries)
      ensures forall k :: k in cache.entries ==>
                (k in old(cache.entries) && cache.entries[k].modelId == old(cache.entries)[k].modelId)
                || (k == key && k !in old(cache.entries) && cache.entries[k].modelId == id)
      ensures r.Ok? ==> key in cache.entries && cache.entries[key].context == r.value
      ensures key in cache.entries && cache.entries[key].modelId == id
              ==> id in runtimes.models && cache.entries[key].instance == runtimes.models[id].handle
    {
      ghost var was := State();
      assert Covered(was.loaded[id], was.entries[id].memory, limits);
      ghost var kept;
      r, kept := cache.Acquire(key, C.ModelSpec(id, loaded[id].contextTokens, runtimes.models[id].handle), created);
      AcquiredAgrees(was, cache.entries, key, id);
      assert State() == was.(contexts := cache.entries);
    }

    lemma AcquiredAgrees(b: Books, now: map<string, C.Entry>, key: string, id: string)
      requires Coherent(b, limits) && id in b.loaded
      requires forall k :: k in now ==>
                 || (k in b.contexts && now[k] == b.contexts[k].(access := now[k].access))
                 || (k == key && id in b.models && now[k].modelId == id
                   && now[k].reservedTokens == b.loaded[id].contextTokens
                     && now[k].instance == b.models[id].handle)
      ensures Coherent(b.(contexts := now), limits)
      ensures key in now && now[key].modelId == id ==> id in b.models && now[key].instance == b.models[id].handle
    {
      forall k | k in now ensures ContextAgrees(now[k], b.loaded, b.models) {
        if k in b.contexts {
          assert ContextAgrees(b.contexts[k], b.loaded, b.models);
        }
      }
      ContextsCoherent(b, now, limits);
    }

    /** Unload on request: only a resident, idle model. */
    method Unload(target: Result<string>) returns (r: Result<()>)
      requires Valid()
      modifies this, runtimes, residency, cache
      ensures Valid()
      ensures r.Ok? <==> target.Ok? && R.Idle(old(residency.entries), target.value)
      ensures r.Err? ==> State() == old(State())
      ensures r.Ok? ==> State() == Narrow(old(State()), old(loaded).Keys - {target.value})
    {
      if target.Err? {
        return Err(target.code);
      }
      if target.value !in loaded {
        return Err(NotFound);
      }
      r := Evict(target.value, false);
    }

    /** Remove: only a model that is not resident; `removed` is the catalog's answer. */
    method Remove(target: Result<string>, removed: Result<()>) returns (r: Result<()>)
      requires Valid()
      modifies this
      ensures Valid()
      ensures r.Ok? <==> target.Ok? && target.value !in old(loaded) && removed.Ok?
      ensures State() == if r.Ok? then old(State()).(remembered := old(remembered) - {target.value}) else old(State())
    {
      if target.Err? {
        return Err(target.code);
      }
      if target.value in loaded {
        return Err(ModelInUse);
      }
      if removed.Err? {
        return removed;
      }
      ghost var was := State();
      remembered := remembered - {target.value};
      ForgetCoherent(was, target.value, limits);
      assert State() == was.(remembered := was.remembered - {target.value});
      return Ok(());
    }
  }
}
