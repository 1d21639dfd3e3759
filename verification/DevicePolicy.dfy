/** The execution device policy: one canonical order for each set of supported devices. */
module DevicePolicy {
  import opened Common

  datatype Backend = Cpu | Metal | Cuda | Vulkan
  datatype Vendor = Unknown | Apple | Nvidia | Amd | Intel

  datatype GpuInfo = GpuInfo(id: string, vendor: Vendor, vramBytes: Option<nat>, workingSetBytes: Option<nat>,
    backends: seq<Backend>)

  datatype HardwareInfo = HardwareInfo(gpus: seq<GpuInfo>, appleSilicon: bool, metalAvailable: bool,
    cudaAvailable: bool, vulkanAvailable: bool)

  /** The device id is empty for the CPU, otherwise the id of a GPU. */
  datatype RuntimeDevice = RuntimeDevice(backend: Backend, deviceId: string)

  datatype Ranked = Ranked(device: RuntimeDevice, rank: nat, memory: nat)

  /** The first GPU with this id. */
  function FindGpu(gpus: seq<GpuInfo>, id: string): (r: Option<GpuInfo>)
    ensures r.Some? ==> r.value in gpus && r.value.id == id
    ensures r.None? <==> forall g :: g in gpus ==> g.id != id
  {
    if gpus == [] then None else if gpus[0].id == id then Some(gpus[0]) else FindGpu(gpus[1..], id)
  }

  function GpuMemory(gpu: GpuInfo): nat {
    if gpu.vramBytes.Some? then gpu.vramBytes.value
    else if gpu.workingSetBytes.Some? then gpu.workingSetBytes.value else 0
  }

  /** The vendors and backends the policy accepts, and what the machine must offer for them. */
  predicate Supports(h: HardwareInfo, vendor: Vendor, backend: Backend) {
    || (backend == Metal && vendor == Apple && h.appleSilicon && h.metalAvailable)
    || (backend == Cuda && vendor == Nvidia && h.cudaAvailable)
    || (backend == Vulkan && vendor in {Amd, Intel} && h.vulkanAvailable)
  }

  /** Where the policy places a device, if it may execute models at all. */
  function Place(h: HardwareInfo, device: RuntimeDevice): (r: Option<Ranked>)
    ensures r.Some? ==> r.value.device == device
    ensures device.backend == Cpu ==> (r.Some? <==> device.deviceId == "")
    ensures device.backend != Cpu ==>
              var gpu := FindGpu(h.gpus, device.deviceId);
              && (r.Some? <==>
                gpu.Some? && device.backend in gpu.value.backends && Supports(h, gpu.value.vendor, device.backend))
              && (r.Some? ==> r.value.memory == GpuMemory(gpu.value))
    ensures r.Some? ==>
              (r.value.rank == 3 <==> device.backend == Cpu) && (device.backend == Cpu ==> device.deviceId == "")
    ensures r.Some? ==>
              (r.value.rank == 0 <==> device.backend == Metal) && (r.value.rank == 1 <==> device.backend == Cuda)
  {
    if device.backend == Cpu then
      if device.deviceId == "" then Some(Ranked(device, 3, 0)) else None
    else
      match FindGpu(h.gpus, device.deviceId)
      case None => None
      case Some(gpu) =>
        if device.backend !in gpu.backends then None
        else if h.appleSilicon && h.metalAvailable && gpu.vendor == Apple && device.backend == Metal then
          Some(Ranked(device, 0, GpuMemory(gpu)))
        else if h.cudaAvailable && gpu.vendor == Nvidia && device.backend == Cuda then
          Some(Ranked(device, 1, GpuMemory(gpu)))
        else if h.vulkanAvailable && (gpu.vendor == Amd || gpu.vendor == Intel) && device.backend == Vulkan then
          Some(Ranked(device, 2, GpuMemory(gpu)))
        else None
  }

  /** QString's order: lexicographic on code units. */
  predicate Less(a: string, b: string) {
    b != [] && (a == [] || a[0] < b[0] || (a[0] == b[0] && Less(a[1..], b[1..])))
  }

  lemma {:induction false} LessIsTotal(a: string, b: string)
    ensures a == b <==> !Less(a, b) && !Less(b, a)
    ensures !(Less(a, b) && Less(b, a))
  {
    if a != [] && b != [] && a[0] == b[0] {
      LessIsTotal(a[1..], b[1..]);
      assert a == [a[0]] + a[1..] && b == [b[0]] + b[1..];
    }
  }

  lemma {:induction false} LessIsTransitive(a: string, b: string, c: string)
    requires Less(a, b) && Less(b, c)
    ensures Less(a, c)
  {
    if a != [] && a[0] == b[0] && b[0] == c[0] {
      LessIsTransitive(a[1..], b[1..], c[1..]);
    }
  }

  /** The comparator given to the sort. */
  predicate Precedes(a: Ranked, b: Ranked) {
    if a.rank != b.rank then a.rank < b.rank
    else if a.memory != b.memory then a.memory > b.memory
    else Less(a.device.deviceId, b.device.deviceId)
  }

  lemma PrecedesIsTransitive(a: Ranked, b: Ranked, c: Ranked)
    requires Precedes(a, b) && Precedes(b, c)
    ensures Precedes(a, c)
  {
    if a.rank == b.rank == c.rank && a.memory == b.memory == c.memory {
      LessIsTransitive(a.device.deviceId, b.device.deviceId, c.device.deviceId);
    }
  }

  /** On placed devices the comparator is a strict total order: equal ranks mean equal backends. */
  lemma PrecedesIsTotal(h: HardwareInfo, a: RuntimeDevice, b: RuntimeDevice)
    requires Place(h, a).Some? && Place(h, b).Some?
    ensures var x, y := Place(h, a).value, Place(h, b).value;
            && (a == b <==> !Precedes(x, y) && !Precedes(y, x))
            && !(Precedes(x, y) && Precedes(y, x))
  {
    LessIsTotal(a.deviceId, b.deviceId);
  }

  ghost predicate StrictlySorted(items: seq<Ranked>) {
    forall i, j :: 0 <= i < j < |items| ==> Precedes(items[i], items[j])
  }

  function DevicesIn(devices: seq<RuntimeDevice>): set<RuntimeDevice> { set d | d in devices }

  /** The canonical list of a set of supported devices. */
  ghost predicate Canonical(h: HardwareInfo, supported: set<RuntimeDevice>, list: seq<RuntimeDevice>) {
    && (forall d :: d in list <==> d in supported && Place(h, d).Some?)
    && (forall i, j :: 0 <= i < j < |list| ==> Ahead(h, list[i], list[j]))
  }

  ghost predicate Ahead(h: HardwareInfo, a: RuntimeDevice, b: RuntimeDevice) {
    Place(h, a).Some? && Place(h, b).Some? && Precedes(Place(h, a).value, Place(h, b).value)
  }

  /** std::sort with the comparator, on items it orders totally. */
  method Sort(h: HardwareInfo, items: seq<Ranked>) returns (sorted: seq<Ranked>)
    requires forall i :: 0 <= i < |items| ==> Place(h, items[i].device) == Some(items[i])
    requires forall i, j :: 0 <= i < j < |items| ==> items[i] != items[j]
    ensures StrictlySorted(sorted) && forall x :: x in sorted <==> x in items
  {
    sorted := [];
    for k := 0 to |items|
      invariant StrictlySorted(sorted) && forall x :: x in sorted <==> x in items[..k]
    {
      assert items[..k + 1] == items[..k] + [items[k]];
      assert items[k] !in sorted;
      sorted := Insert(h, sorted, items[k]);
    }
    assert items[..|items|] == items;
  }

  method Insert(h: HardwareInfo, sorted: seq<Ranked>, item: Ranked) returns (longer: seq<Ranked>)
    requires StrictlySorted(sorted) && item !in sorted
    requires forall x :: x in sorted + [item] ==> Place(h, x.device) == Some(x)
    ensures StrictlySorted(longer) && forall x :: x in longer <==> x in sorted || x == item
  {
    var at := |sorted|;
    while 0 < at && Precedes(item, sorted[at - 1])
      invariant 0 <= at <= |sorted| && forall j :: at <= j < |sorted| ==> Precedes(item, sorted[j])
    {
      at := at - 1;
    }
    if 0 < at {
      assert sorted[at - 1] in sorted && item in sorted + [item];
      PrecedesIsTotal(h, item.device, sorted[at - 1].device);
      forall i | 0 <= i < at - 1 ensures Precedes(sorted[i], item) {
        PrecedesIsTransitive(sorted[i], sorted[at - 1], item);
      }
    }
    longer := sorted[..at] + [item] + sorted[at..];
  }

  method OrderExecutionDevices(h: HardwareInfo, supported: seq<RuntimeDevice>) returns (result: seq<RuntimeDevice>)
    ensures Canonical(h, DevicesIn(supported), result)
  {
    var ranked: seq<Ranked> := [];
    for k := 0 to |supported|
      invariant forall i :: 0 <= i < |ranked| ==> Place(h, ranked[i].device) == Some(ranked[i])
      invariant forall i, j :: 0 <= i < j < |ranked| ==> ranked[i] != ranked[j]
      invariant forall x :: x in ranked ==> x.device in supported[..k]
      invariant forall d :: d in supported[..k] && Place(h, d).Some? ==> Place(h, d).value in ranked
    {
      assert supported[..k + 1] == supported[..k] + [supported[k]];
      if exists i :: 0 <= i < |ranked| && ranked[i].device == supported[k] {
        continue;
      }
      var place := Place(h, supported[k]);
      if place.Some? {
        ranked := ranked + [place.value];
      }
    }
    assert supported[..|supported|] == supported;
    var sorted := Sort(h, ranked);
    assert forall x :: x in sorted ==> Place(h, x.device) == Some(x);
    result := Devices(sorted);
    SortedIsCanonical(h, supported, sorted);
  }

  function Devices(items: seq<Ranked>): seq<RuntimeDevice> {
    seq(|items|, i requires 0 <= i < |items| => items[i].device)
  }

  lemma SortedIsCanonical(h: HardwareInfo, supported: seq<RuntimeDevice>, sorted: seq<Ranked>)
    requires StrictlySorted(sorted) && forall x :: x in sorted ==>
               x.device in supported && Place(h, x.device) == Some(x)
    requires forall d :: d in supported && Place(h, d).Some? ==> Place(h, d).value in sorted
    ensures Canonical(h, DevicesIn(supported), Devices(sorted))
  {
    var result := Devices(sorted);
    forall d ensures d in result <==> d in supported && Place(h, d).Some? {
      if d in result {
        var i :| 0 <= i < |result| && result[i] == d;
        assert sorted[i] in sorted;
      }
      if d in supported && Place(h, d).Some? {
        var i :| 0 <= i < |sorted| && sorted[i] == Place(h, d).value;
        assert result[i] == d;
      }
    }
    assert forall i :: 0 <= i < |sorted| ==> sorted[i] in sorted && Place(h, result[i]) == Some(sorted[i]);
  }

  /** A set of devices has one canonical list: neither order nor duplication of the input matters. */
  lemma {:induction false} CanonicalIsUnique(h: HardwareInfo, supported: set<RuntimeDevice>, a: seq<RuntimeDevice>,
    b: seq<RuntimeDevice>)
    requires Canonical(h, supported, a) && Canonical(h, supported, b)
    ensures a == b
    decreases |a|
  {
    assert a != [] ==> a[0] in b;
    assert b != [] ==> b[0] in a;
    if a != [] && b != [] {
      FirstIsLeast(h, supported, a, b);
      FirstIsLeast(h, supported, b, a);
      PrecedesIsTotal(h, a[0], b[0]);
      CanonicalTail(h, supported, a);
      CanonicalTail(h, supported, b);
      CanonicalIsUnique(h, supported - {a[0]}, a[1..], b[1..]);
      assert a == [a[0]] + a[1..] && b == [b[0]] + b[1..];
    }
  }

  lemma FirstIsLeast(h: HardwareInfo, supported: set<RuntimeDevice>, a: seq<RuntimeDevice>, b: seq<RuntimeDevice>)
    requires Canonical(h, supported, a) && Canonical(h, supported, b) && a != [] && b != []
    ensures Place(h, a[0]).Some? && Place(h, b[0]).Some?
    ensures a[0] == b[0] || Precedes(Place(h, a[0]).value, Place(h, b[0]).value)
  {
    assert a[0] in a && b[0] in b;
    assert b[0] in a;
  }

  lemma CanonicalTail(h: HardwareInfo, supported: set<RuntimeDevice>, a: seq<RuntimeDevice>)
    requires Canonical(h, supported, a) && a != []
    ensures Canonical(h, supported - {a[0]}, a[1..])
  {
    assert a[0] in a;
    forall d ensures d in a[1..] <==> d in supported - {a[0]} && Place(h, d).Some? {
      if d in a[1..] {
        var i :| 0 <= i < |a[1..]| && a[1..][i] == d;
        assert a[i + 1] == d && d in a;
        PrecedesIsTotal(h, a[0], a[i + 1]);
      }
      if d in supported - {a[0]} && Place(h, d).Some? {
        assert d in a;
        var i :| 0 <= i < |a| && a[i] == d;
        assert a[1..][i - 1] == d;
      }
    }
  }

  /** The canonical list has no duplicates, prefers Metal, CUDA, Vulkan in turn, and ends with the CPU if it has it. */
  lemma CpuComesLast(h: HardwareInfo, supported: set<RuntimeDevice>, a: seq<RuntimeDevice>)
    requires Canonical(h, supported, a)
    ensures forall i, j :: 0 <= i < j < |a| ==> a[i] != a[j]
    ensures forall i :: 0 <= i < |a| && a[i].backend == Cpu ==> i == |a| - 1
    ensures forall i, j :: 0 <= i < j < |a| && a[j].backend == Metal ==> a[i].backend == Metal
    ensures forall i, j :: 0 <= i < j < |a| && a[j].backend == Cuda ==> a[i].backend == Metal || a[i].backend == Cuda
  {
    forall i, j | 0 <= i < j < |a|
      ensures a[i] != a[j] && a[i].backend != Cpu
    {
      assert Ahead(h, a[i], a[j]);
      PrecedesIsTotal(h, a[i], a[j]);
    }
    assert forall i :: 0 <= i < |a| - 1 ==> Ahead(h, a[i], a[|a| - 1]);
  }
}
