/** Loaded runtime models: choice of estimate, choice of device, and what a failed load leaves. */
module Runtimes {
  import opened Common
  import opened MemoryEstimates
  import opened DevicePolicy

  datatype ModelSpec = ModelSpec(id: string, contextTokens: int, options: map<string, int>)

  /** A registered runtime that supports the model, with the devices it offers. */
  datatype Candidate = Candidate(id: string, devices: seq<RuntimeDevice>)

  /** What happens when one runtime is asked to load the model on one device. */
  datatype Attempt =
    | CancelledBefore | CancelledDuring
    | Loaded(handle: int)
    | NullModel
    | Failed(code: ErrorCode)

  datatype Failure = Failure(runtime: string, backend: Backend)

  datatype Reason = MetalReason | CudaReason | VulkanReason | CpuWithoutGpu | CpuAfterFailure

  datatype Selection = Selection(runtime: string, device: RuntimeDevice, reason: Reason, failures: seq<Failure>)

  datatype LoadedModel = LoadedModel(spec: ModelSpec, execution: Selection, handle: int)

  function ReasonFor(backend: Backend, failures: seq<Failure>): Reason {
    match backend
    case Metal => MetalReason
    case Cuda => CudaReason
    case Vulkan => VulkanReason
    case Cpu => if failures == [] then CpuWithoutGpu else CpuAfterFailure
  }

  /** A failure after which the next device or runtime is tried. */
  predicate Recoverable(backend: Backend, attempt: Attempt) {
    && backend != Cpu
    && (attempt.NullModel? || (attempt.Failed? && attempt.code in {RuntimeUnavailable, RuntimeFailure, ResourceLimit}))
  }

  /** The error a decisive, unsuccessful attempt ends the load with. */
  function CodeOf(attempt: Attempt): ErrorCode
    requires !attempt.Loaded?
  {
    match attempt
    case CancelledBefore => Cancelled
    case CancelledDuring => Cancelled
    case NullModel => RuntimeFailure
    case Failed(code) => code
  }

  datatype Pair = Pair(device: RuntimeDevice, runtime: string)

  /** The (device, runtime) pairs in the order they are tried: by device, then by runtime. */
  function PairsOn(device: RuntimeDevice, candidates: seq<Candidate>): seq<Pair> {
    if candidates == [] then []
    else
      PairsOn(device, candidates[..|candidates| - 1])
      + if device in candidates[|candidates| - 1].devices then [Pair(device, candidates[|candidates| - 1].id)] else []
  }

  function Pairs(ordered: seq<RuntimeDevice>, candidates: seq<Candidate>): seq<Pair> {
    if ordered == [] then []
    else Pairs(ordered[..|ordered| - 1], candidates) + PairsOn(ordered[|ordered| - 1], candidates)
  }

  function FailuresOf(pairs: seq<Pair>): seq<Failure> {
    seq(|pairs|, i requires 0 <= i < |pairs| => Failure(pairs[i].runtime, pairs[i].device.backend))
  }

  predicate Passes(pair: Pair, attempts: Pair -> Attempt) { Recoverable(pair.device.backend, attempts(pair)) }

  /** The load is decided by the first pair that is not a recoverable failure. */
  ghost predicate Decides(pairs: seq<Pair>, attempts: Pair -> Attempt, k: nat) {
    && k <= |pairs|
    && (forall i :: 0 <= i < k ==> Passes(pairs[i], attempts))
    && (k < |pairs| ==> !Passes(pairs[k], attempts))
  }

  function Offered(candidates: seq<Candidate>): seq<RuntimeDevice> {
    if candidates == [] then [] else Offered(candidates[..|candidates| - 1]) + candidates[|candidates| - 1].devices
  }

  lemma {:induction false} PairsOnPrefix(device: RuntimeDevice, candidates: seq<Candidate>, j: nat)
    requires j <= |candidates|
    ensures PairsOn(device, candidates[..j]) <= PairsOn(device, candidates)
    decreases |candidates|
  {
    if j == |candidates| {
      assert candidates[..j] == candidates;
    } else {
      var init := candidates[..|candidates| - 1];
      assert init[..j] == candidates[..j];
      PairsOnPrefix(device, init, j);
    }
  }

  lemma {:induction false} PairsPrefix(ordered: seq<RuntimeDevice>, candidates: seq<Candidate>, i: nat)
    requires i < |ordered|
    ensures Pairs(ordered[..i], candidates) + PairsOn(ordered[i], candidates) <= Pairs(ordered, candidates)
    decreases |ordered|
  {
    var init := ordered[..|ordered| - 1];
    assert init[..i] == ordered[..i];
    if i < |init| {
      PairsPrefix(init, candidates, i);
    }
  }

  lemma {:induction false} PairsOnCandidates(device: RuntimeDevice, candidates: seq<Candidate>, pair: Pair)
    requires pair in PairsOn(device, candidates)
    ensures exists c :: c in candidates && c.id == pair.runtime
  {
    var init, last := candidates[..|candidates| - 1], candidates[|candidates| - 1];
    if pair in PairsOn(device, init) {
      PairsOnCandidates(device, init, pair);
    } else {
      assert last in candidates && last.id == pair.runtime;
    }
  }

  lemma {:induction false} PairsNameCandidates(ordered: seq<RuntimeDevice>, candidates: seq<Candidate>, pair: Pair)
    requires pair in Pairs(ordered, candidates)
    ensures exists c :: c in candidates && c.id == pair.runtime
  {
    var init, last := ordered[..|ordered| - 1], ordered[|ordered| - 1];
    if pair in Pairs(init, candidates) {
      PairsNameCandidates(init, candidates, pair);
    } else {
      PairsOnCandidates(last, candidates, pair);
    }
  }

  /** Every pair seen failed recoverably, and its failure was recorded. */
  ghost predicate Tried(seen: seq<Pair>, attempts: Pair -> Attempt, failures: seq<Failure>) {
    failures == FailuresOf(seen) && forall i :: 0 <= i < |seen| ==> Passes(seen[i], attempts)
  }

  /** What the walk over the pairs ends with, and what it publishes. */
  ghost predicate Outcome(spec: ModelSpec, pairs: seq<Pair>, attempts: Pair -> Attempt, k: nat,
                          before: map<string, LoadedModel>, r: Result<Selection>, after: map<string, LoadedModel>)
  {
    && Decides(pairs, attempts, k)
    && if k == |pairs| then
         r == Err(RuntimeUnavailable) && after == before
       else if !attempts(pairs[k]).Loaded? then
         r == Err(CodeOf(attempts(pairs[k]))) && after == before
       else
         var failures := FailuresOf(pairs[..k]);
         var selection := Selection(pairs[k].runtime, pairs[k].device,
           ReasonFor(pairs[k].device.backend, failures), failures);
         r == Ok(selection) && after == before[spec.id := LoadedModel(spec, selection, attempts(pairs[k]).handle)]
  }

  /** The first pair in the order of the canonical device list decides. */
  ghost predicate ChosenByPolicy(hardware: HardwareInfo, spec: ModelSpec, candidates: seq<Candidate>,
                                 attempts: Pair -> Attempt, before: map<string, LoadedModel>, r: Result<Selection>,
                                 after: map<string, LoadedModel>)
  {
    exists ordered: seq<RuntimeDevice>, k: nat
      {:trigger Outcome(spec, Pairs(ordered, candidates), attempts, k, before, r, after)} ::
      Canonical(hardware, DevicesIn(Offered(candidates)), ordered)
      && Outcome(spec, Pairs(ordered, candidates), attempts, k, before, r, after)
  }

  /** The first estimate that failed, or the first that shows that one is beyond 64 bits. */
  ghost predicate FailsFirst(answers: seq<Result<MemoryEstimate>>, i: nat, code: ErrorCode) {
    && i < |answers| && (forall j :: 0 <= j < i ==> answers[j].Ok?)
    && (answers[i] == Err(code) || (answers[i].Ok? && code == ResourceLimit && exists j ::
      0 <= j <= i && TooLarge(answers[j])))
  }

  predicate TooLarge(answer: Result<MemoryEstimate>) { answer.Ok? && answer.value.Sum() > U64_MAX }

  /** Keys by which a caller could try to choose the device. */
  const DEVICE_KEYS: set<string> := {"runtime", "backend", "device", "device_id", "gpu_layers", "n_gpu_layers"}

  class RuntimeManager {
    const limit: int
    const hardware: HardwareInfo
    var models: map<string, LoadedModel>

    constructor (limit: int, hardware: HardwareInfo)
      ensures this.limit == limit && this.hardware == hardware && models == map[]
    {
      this.limit := limit;
      this.hardware := hardware;
      models := map[];
    }

    /** What a load is refused for before any device is looked at. */
    predicate Refuses(spec: ModelSpec)
      reads this
    {
      spec.contextTokens <= 1 || spec.id in models || |models| >= limit || spec.options.Keys * DEVICE_KEYS != {}
    }

    /** The guards of a load, then the choice of device; a failure publishes nothing. */
    method Load(spec: ModelSpec, survey: Result<seq<Candidate>>, pathExists: bool, attempts: Pair -> Attempt)
      returns (r: Result<Selection>)
      modifies this
      ensures r.Err? ==> models == old(models)
      ensures old(Refuses(spec)) ==> r.Err? && r.code in {InvalidArgument, AlreadyExists, ResourceLimit}
      ensures r.Ok? ==> !old(Refuses(spec)) && survey.Ok? && survey.value != []
      ensures !old(Refuses(spec)) && survey.Err? ==> r == Err(survey.code)
      ensures !old(Refuses(spec)) && survey == Ok([]) ==> r == Err(if pathExists then RuntimeUnavailable else NotFound)
      ensures !old(Refuses(spec)) && survey.Ok? && survey.value != [] ==>
                ChosenByPolicy(hardware, spec, survey.value, attempts, old(models), r, models)
      ensures r.Ok? ==> spec.id in models && models[spec.id].spec == spec && models[spec.id].execution == r.value
                        && models == old(models)[spec.id := models[spec.id]]
      ensures r.Ok? ==> exists c :: c in survey.value && c.id == r.value.runtime
    {
      if spec.contextTokens <= 1 {
        return Err(InvalidArgument);
      }
      if spec.id in models {
        return Err(AlreadyExists);
      }
      if |models| >= limit {
        return Err(ResourceLimit);
      }
      if spec.options.Keys * DEVICE_KEYS != {} {
        return Err(InvalidArgument);
      }
      if survey.Err? {
        return Err(survey.code);
      }
      if survey.value == [] {
        return Err(if pathExists then RuntimeUnavailable else NotFound);
      }
      ghost var ordered, k;
      r, ordered, k := LoadOnFirstDevice(spec, survey.value, attempts);
      if r.Ok? {
        PairsNameCandidates(ordered, survey.value, Pairs(ordered, survey.value)[k]);
      }
    }

    /**
     * Loads the model on the first device and runtime, in policy order, that take it: `k` is the
     * first pair that is not a recoverable failure on an accelerator.
     */
    method LoadOnFirstDevice(spec: ModelSpec, candidates: seq<Candidate>, attempts: Pair -> Attempt)
      returns (r: Result<Selection>, ghost ordered: seq<RuntimeDevice>, ghost k: nat)
      modifies this
      ensures Canonical(hardware, DevicesIn(Offered(candidates)), ordered)
      ensures Outcome(spec, Pairs(ordered, candidates), attempts, k, old(models), r, models)
    {
      var devices := OrderExecutionDevices(hardware, Offered(candidates));
      ordered := devices;
      r, k := Walk(spec, devices, candidates, attempts);
    }

    /** The two nested loops over devices and candidate runtimes; `k` is the deciding pair. */
    method Walk(spec: ModelSpec, ordered: seq<RuntimeDevice>, candidates: seq<Candidate>, attempts: Pair -> Attempt)
      returns (r: Result<Selection>, ghost k: nat)
      modifies this
      ensures Outcome(spec, Pairs(ordered, candidates), attempts, k, old(models), r, models)
    {
      var failures: seq<Failure> := [];
      ghost var all := Pairs(ordered, candidates);
      for i := 0 to |ordered|
        invariant models == old(models)
        invariant Tried(Pairs(ordered[..i], candidates), attempts, failures)
      {
        assert ordered[..i + 1][..i] == ordered[..i];
        PairsPrefix(ordered, candidates, i);
        var decided;
        ghost var before := Pairs(ordered[..i], candidates);
        decided, r, failures, k := TryDevice(spec, ordered[i], candidates, attempts, failures, before, all);
        if decided {
          return;
        }
      }
      assert ordered[..|ordered|] == ordered;
      assert all[..|all|] == all;
      return Err(RuntimeUnavailable), |all|;
    }

    /** The inner loop: one device, every candidate runtime that offers it. */
    method TryDevice(spec: ModelSpec, device: RuntimeDevice, candidates: seq<Candidate>, attempts: Pair -> Attempt,
                     before: seq<Failure>, ghost seen: seq<Pair>, ghost all: seq<Pair>)
      returns (decided: bool, r: Result<Selection>, failures: seq<Failure>, ghost k: nat)
      requires Tried(seen, attempts, before) && seen + PairsOn(device, candidates) <= all
      modifies this
      ensures decided ==> Outcome(spec, all, attempts, k, old(models), r, models)
      ensures !decided ==> models == old(models) && Tried(seen + PairsOn(device, candidates), attempts, failures)
    {
      failures := before;
      k := 0;
      for j := 0 to |candidates|
        invariant models == old(models)
        invariant Tried(seen + PairsOn(device, candidates[..j]), attempts, failures)
      {
        assert candidates[..j + 1][..j] == candidates[..j];
        if device !in candidates[j].devices {
          assert PairsOn(device, candidates[..j + 1]) == PairsOn(device, candidates[..j]);
          continue;
        }
        var pair := Pair(device, candidates[j].id);
        ghost var now := seen + PairsOn(device, candidates[..j]);
        PairsOnPrefix(device, candidates, j + 1);
        assert seen + PairsOn(device, candidates[..j + 1]) == now + [pair];
        assert now + [pair] <= all;
        if !Passes(pair, attempts) {
          k := |now|;
          assert all[..k] == now && all[k] == pair;
          var attempt := attempts(pair);
          if !attempt.Loaded? {
            return true, Err(CodeOf(attempt)), failures, k;
          }
          var selection := Selection(pair.runtime, device, ReasonFor(device.backend, failures), failures);
          models := models[spec.id := LoadedModel(spec, selection, attempt.handle)];
          return true, Ok(selection), failures, k;
        }
        failures := failures + [Failure(pair.runtime, device.backend)];
        assert Tried(now + [pair], attempts, failures);
      }
      assert candidates[..|candidates|] == candidates;
      return false, Err(RuntimeUnavailable), failures, 0;
    }

    method Unload(id: string) returns (r: Result<()>)
      modifies this
      ensures r.Ok? <==> id in old(models)
      ensures models == old(models) - {id}
    {
      if id !in models {
        assert models - {id} == models;
        return Err(NotFound);
      }
      models := models - {id};
      return Ok(());
    }

    /**
     * The reservation of the hungriest runtime that supports the model; `answers` are the
     * estimates of those runtimes, any of which may throw.
     */
    method EstimateMemory(answers: seq<Result<MemoryEstimate>>) returns (r: Result<MemoryEstimate>)
      ensures r.Ok? ==> Ok(r.value) in answers && 0 < r.value.Sum() <= U64_MAX
      ensures r.Ok? ==> forall a :: a in answers ==> a.Ok? && a.value.Sum() <= r.value.Sum()
      ensures r.Err? ==>
                || (answers == [] && r.code == RuntimeUnavailable)
                || (exists i :: FailsFirst(answers, i, r.code))
                || (r.code == RuntimeFailure && forall a :: a in answers ==> a.Ok? && a.value.Sum() == 0)
    {
      var result := MemoryEstimate(0, 0, 0);
      var found := false;
      for k := 0 to |answers|
        invariant found <==> 0 < k
        invariant forall j :: 0 <= j < k ==> answers[j].Ok?
        invariant forall a :: a in answers[..k] ==>
                    a.Ok? && (a.value == result || a.value.Sum() <= result.Sum() <= U64_MAX)
        invariant found ==> Ok(result) in answers[..k]
      {
        assert answers[..k + 1] == answers[..k] + [answers[k]];
        if answers[k].Err? {
          assert FailsFirst(answers, k, answers[k].code);
          return Err(answers[k].code);
        }
        var estimate := answers[k].value;
        if found {
          var a, b := estimate.TotalBytes(), result.TotalBytes();
          if a.Err? || b.Err? {
            ShowsTooLarge(answers, k, result);
            return Err(ResourceLimit);
          }
          if a.value > b.value {
            result := estimate;
          }
        } else {
          result := estimate;
        }
        found := true;
      }
      assert answers[..|answers|] == answers;
      if !found {
        return Err(RuntimeUnavailable);
      }
      var total := result.TotalBytes();
      if total.Err? {
        ShowsTooLarge(answers, |answers| - 1, result);
        return Err(total.code);
      }
      if total.value == 0 {
        return Err(RuntimeFailure);
      }
      return Ok(result);
    }

    lemma ShowsTooLarge(answers: seq<Result<MemoryEstimate>>, k: nat, result: MemoryEstimate)
      requires k < |answers| && forall j :: 0 <= j <= k ==> answers[j].Ok?
      requires Ok(result) in answers[..k + 1] && (TooLarge(answers[k]) || TooLarge(Ok(result)))
      ensures FailsFirst(answers, k, ResourceLimit)
    {
      var j :| 0 <= j <= k && answers[..k + 1][j] == Ok(result);
      assert answers[j] == Ok(result);
    }
  }
}
