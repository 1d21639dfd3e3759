/** Which models are resident, what they reserve, when they expire and in what order they go. */
module Residency {
  import opened Common
  import opened MapSums
  import opened MemoryEstimates

  datatype Entry = Entry(memory: MemoryEstimate, keepAliveMs: int, expires: int, access: nat, active: int)

  const GIB: nat := 0x4000_0000

  function BytesOf(e: Entry): nat { e.memory.Sum() }

  ghost function ReservedBytes(entries: map<string, Entry>): nat { Total(entries, BytesOf) }

  predicate Idle(entries: map<string, Entry>, id: string) { id in entries && entries[id].active == 0 }

  predicate NoneIdle(entries: map<string, Entry>) { forall id :: id in entries ==> !Idle(entries, id) }

  function StampOf(entries: map<string, Entry>, k: string): nat
    requires k in entries
  {
    entries[k].access
  }

  ghost predicate DistinctStamps(entries: map<string, Entry>) {
    forall j, k {:trigger StampOf(entries, j), StampOf(entries, k)} ::
      j in entries && k in entries && StampOf(entries, j) == StampOf(entries, k) ==> j == k
  }

  lemma DistinctSubmap(part: map<string, Entry>, all: map<string, Entry>)
    requires DistinctStamps(all) && forall k :: k in part ==> k in all && part[k] == all[k]
    ensures DistinctStamps(part)
  {
    forall j, k | j in part && k in part && StampOf(part, j) == StampOf(part, k) ensures j == k {
      assert StampOf(all, j) == StampOf(all, k);
    }
  }

  ghost predicate Sound(entries: map<string, Entry>, limit: int, budget: U64, clock: nat) {
    && |entries| <= limit && ReservedBytes(entries) <= budget
    && (forall k :: k in entries ==>
      entries[k].access <= clock && 0 <= entries[k].active && 0 <= entries[k].keepAliveMs)
    && DistinctStamps(entries)
  }

  /** The idle entry used longest ago. */
  ghost predicate IsOldestIdle(entries: map<string, Entry>, id: string) {
    Idle(entries, id) && forall k :: Idle(entries, k) ==> entries[id].access <= entries[k].access
  }

  /** The admission test: a free place, room in the budget, and the RAM reserve kept. */
  ghost predicate Admits(entries: map<string, Entry>, limit: int, budget: U64, reserve: U64, required: nat,
    available: Option<U64>) {
    && |entries| < limit && ReservedBytes(entries) + required <= budget
    && (available.Some? ==> reserve + required <= available.value)
  }

  lemma {:induction false} OldestIdleExists(entries: map<string, Entry>, k: string)
    requires Idle(entries, k)
    ensures exists o :: IsOldestIdle(entries, o)
  {
    var rest := entries - {k};
    assert forall j :: j in entries ==> j == k || (j in rest && rest[j] == entries[j]);
    assert forall j :: Idle(entries, j) ==> j == k || Idle(rest, j);
    if j :| Idle(rest, j) {
      OldestIdleExists(rest, j);
      var o :| IsOldestIdle(rest, o);
      assert IsOldestIdle(entries, if entries[k].access <= entries[o].access then k else o);
    } else {
      assert IsOldestIdle(entries, k);
    }
  }

  ghost function OldestIdleOf(entries: map<string, Entry>): (victim: string)
    requires exists o :: IsOldestIdle(entries, o)
    ensures IsOldestIdle(entries, victim)
  {
    var o :| IsOldestIdle(entries, o);
    o
  }

  /** What is left once the j idle entries used longest ago are gone. */
  ghost function DropOldest(entries: map<string, Entry>, j: nat): map<string, Entry> {
    if j == 0 then entries
    else
      var left := DropOldest(entries, j - 1);
      if exists o :: IsOldestIdle(left, o) then left - {OldestIdleOf(left)} else left
  }

  lemma DropNext(entries: map<string, Entry>, j: nat, victim: string)
    requires DistinctStamps(DropOldest(entries, j)) && IsOldestIdle(DropOldest(entries, j), victim)
    ensures DropOldest(entries, j + 1) == DropOldest(entries, j) - {victim}
  {
    var left := DropOldest(entries, j);
    assert StampOf(left, OldestIdleOf(left)) == StampOf(left, victim);
  }

  /** Evicting in that order takes only idle entries, each used before every idle entry that stays. */
  lemma {:induction false} DropOldestIsLru(entries: map<string, Entry>, j: nat)
    requires DistinctStamps(entries)
    ensures var left := DropOldest(entries, j);
            && (forall k :: k in left ==> k in entries && left[k] == entries[k])
            && (forall k :: k in entries && k !in left ==> Idle(entries, k))
            && (forall k, s :: k in entries && k !in left && Idle(left, s) ==> entries[k].access < entries[s].access)
            && |left| <= |entries|
  {
    if j > 0 {
      DropOldestIsLru(entries, j - 1);
      var left := DropOldest(entries, j - 1);
      if exists o :: IsOldestIdle(left, o) {
        var o := OldestIdleOf(left);
        forall s | Idle(left - {o}, s) ensures entries[o].access < entries[s].access {
          assert StampOf(entries, o) == StampOf(entries, s) ==> o == s;
        }
      }
    }
  }

  /** What an entry becomes when it is used. */
  function Touched(e: Entry, keepAlive: int, access: nat, now: int): Entry {
    var ttl := if keepAlive >= 0 then keepAlive else e.keepAliveMs;
    e.(keepAliveMs := ttl, access := access, expires := now + ttl)
  }

  /** What an entry becomes when a request takes, or gives back, a lease on its model. */
  function Leased(e: Entry, keepAlive: int, access: nat, now: int): Entry {
    Touched(e, keepAlive, access, now).(active := e.active + 1)
  }

  function Released(e: Entry, access: nat, now: int): Entry {
    Touched(e.(active := e.active - 1), -1, access, now)
  }

  function NewEntry(memory: MemoryEstimate, ttl: int, now: int, access: nat): Entry {
    Entry(memory, ttl, now + ttl, access, 0)
  }

  lemma SoundWithout(entries: map<string, Entry>, id: string, limit: int, budget: U64, clock: nat)
    requires Sound(entries, limit, budget, clock) && id in entries
    ensures Sound(entries - {id}, limit, budget, clock)
    ensures ReservedBytes(entries - {id}) == ReservedBytes(entries) - BytesOf(entries[id])
  {
    TotalWithout(entries, BytesOf, id);
    DistinctSubmap(entries - {id}, entries);
  }

  /** Replacing an entry by one of the same size, with a new stamp or the same one. */
  lemma SoundUpdated(entries: map<string, Entry>, id: string, e: Entry, limit: int, budget: U64, clock: nat, later: nat)
    requires Sound(entries, limit, budget, clock) && id in entries && clock <= later
    requires e.memory == entries[id].memory && 0 <= e.active && 0 <= e.keepAliveMs
    requires e.access == entries[id].access || clock < e.access <= later
    ensures Sound(entries[id := e], limit, budget, later)
    ensures ReservedBytes(entries[id := e]) == ReservedBytes(entries)
  {
    TotalSameWeight(entries, BytesOf, id, e);
    assert |entries[id := e]| == |entries|;
    DistinctUpdated(entries, id, e, clock);
  }

  lemma DistinctUpdated(entries: map<string, Entry>, id: string, e: Entry, clock: nat)
    requires DistinctStamps(entries) && id in entries && forall k :: k in entries ==> entries[k].access <= clock
    requires e.access == entries[id].access || clock < e.access
    ensures DistinctStamps(entries[id := e])
  {
    var now := entries[id := e];
    forall j, k | j in now && k in now && StampOf(now, j) == StampOf(now, k) ensures j == k {
      assert j != id && k != id ==> StampOf(entries, j) == StampOf(entries, k);
      assert j == id || k == id ==> StampOf(now, id) == StampOf(now, j);
      if e.access == entries[id].access {
        assert StampOf(entries, id) == e.access;
        assert j != id ==> StampOf(entries, j) == StampOf(now, j);
        assert k != id ==> StampOf(entries, k) == StampOf(now, k);
      }
    }
  }

  lemma SoundWithNew(entries: map<string, Entry>, id: string, e: Entry, limit: int, budget: U64, clock: nat)
    requires Sound(entries, limit, budget, clock) && id !in entries
    requires |entries| < limit && ReservedBytes(entries) + BytesOf(e) <= budget
    requires e.access == clock + 1 && 0 <= e.active && 0 <= e.keepAliveMs
    ensures Sound(entries[id := e], limit, budget, clock + 1)
  {
    var now := entries[id := e];
    assert ReservedBytes(now) == ReservedBytes(entries) + BytesOf(e) by {
      TotalWith(entries, BytesOf, id, e);
      assert entries - {id} == entries;
    }
    assert |now| == |entries| + 1;
    forall j, k | j in now && k in now && StampOf(now, j) == StampOf(now, k) ensures j == k {
      assert j != id && k != id ==> StampOf(entries, j) == StampOf(entries, k);
    }
  }

  class ModelResidencyManager {
    const limit: int
    const budget: U64
    const reserve: U64
    const keepAlive: int
    var clock: nat
    var loads: nat
    var evictions: nat
    var entries: map<string, Entry>

    ghost predicate Valid()
      reads this
    {
      1 <= limit && 0 <= keepAlive && Sound(entries, limit, budget, clock)
    }

    /** `ramBytes` is the detected physical memory; zero options ask for the automatic policy. */
    constructor (maxModels: int, memoryBudgetBytes: U64, memoryReserveBytes: U64, keepAliveMs: int,
      ramBytes: Option<U64>)
      requires 1 <= maxModels && -1 <= keepAliveMs
      ensures Valid() && entries == map[] && limit == maxModels && reserve == memoryReserveBytes
      ensures var total := if ramBytes.Some? then ramBytes.value else 4 * GIB;
              && budget <= total
              && (memoryBudgetBytes != 0 ==> budget == Min(memoryBudgetBytes, total))
              && (memoryBudgetBytes == 0 && total > 2 * GIB ==> budget == Min(total - 2 * GIB, total - total / 4))
              && (memoryBudgetBytes == 0 && total <= 2 * GIB ==> budget == total / 2)
              && (keepAliveMs >= 0 ==> keepAlive == keepAliveMs)
              && (keepAliveMs < 0 ==> keepAlive == if total <= 8 * GIB then 0 else 300000)
    {
      var total := if ramBytes.Some? then ramBytes.value else 4 * GIB;
      var system := if 2 * GIB < total / 4 then total / 4 else 2 * GIB;
      var automatic := if total > system then total - system else total / 2;
      limit := maxModels;
      budget := if memoryBudgetBytes != 0 then Min(memoryBudgetBytes, total) else automatic;
      reserve := memoryReserveBytes;
      keepAlive := if keepAliveMs < 0 then (if total <= 8 * GIB then 0 else 300000) else keepAliveMs;
      clock, loads, evictions := 0, 0, 0;
      entries := map[];
    }

    /** The 64-bit sum of every reservation; it never wraps, because it stays within the budget. */
    method Bytes() returns (bytes: U64)
      requires Valid()
      ensures bytes == ReservedBytes(entries) && bytes <= budget
    {
      bytes := 0;
      var left := entries;
      while left != map[]
        invariant forall k :: k in left ==> k in entries && left[k] == entries[k]
        invariant bytes + Total(left, BytesOf) == ReservedBytes(entries)
        decreases |left|
      {
        var k :| k in left;
        TotalWithout(left, BytesOf, k);
        var total := left[k].memory.TotalBytes();
        bytes := bytes + total.value;
        left := left - {k};
      }
    }

    method Fits(required: U64, available: Option<U64>) returns (fits: bool)
      requires Valid()
      ensures fits <==> Admits(entries, limit, budget, reserve, required, available)
    {
      var used := Bytes();
      fits := |entries| < limit && used <= budget && required <= budget - used
              && (available.None? || (available.value >= reserve && required <= available.value - reserve));
    }

    method OldestIdle() returns (victim: Option<string>)
      requires Valid()
      ensures victim.None? ==> forall k :: !Idle(entries, k)
      ensures victim.Some? ==> IsOldestIdle(entries, victim.value)
    {
      victim := None;
      var left := entries.Keys;
      while left != {}
        invariant left <= entries.Keys
        invariant victim.Some? ==> Idle(entries, victim.value)
        invariant forall k :: Idle(entries, k) && k !in left ==>
                    victim.Some? && entries[victim.value].access <= entries[k].access
      {
        var k :| k in left;
        if entries[k].active == 0 && (victim.None? || entries[k].access < entries[victim.value].access) {
          victim := Some(k);
        }
        left := left - {k};
      }
    }

    method Expired(now: int) returns (ids: seq<string>)
      requires Valid()
      ensures forall k :: k in ids <==> Idle(entries, k) && now >= entries[k].expires
      ensures forall i, j :: 0 <= i < j < |ids| ==> ids[i] != ids[j]
    {
      ids := [];
      var left := entries.Keys;
      while left != {}
        invariant left <= entries.Keys
        invariant forall k :: k in ids <==> Idle(entries, k) && now >= entries[k].expires && k !in left
        invariant forall i, j :: 0 <= i < j < |ids| ==> ids[i] != ids[j]
      {
        var k :| k in left;
        left := left - {k};
        if entries[k].active == 0 && now >= entries[k].expires {
          ids := ids + [k];
        }
      }
    }

    method Loaded(id: string, memory: MemoryEstimate, keepAliveMs: int, now: int) returns (r: Result<()>)
      requires Valid()
      modifies this
      ensures Valid()
      ensures r.Ok? <==>
                id !in old(entries) && memory.Sum() <= U64_MAX
                  && Admits(old(entries), limit, budget, reserve, memory.Sum(), None)
      ensures r.Err? ==> unchanged(this)
      ensures r.Ok? ==>
                && entries == old(entries)[id :=
                  NewEntry(memory, if keepAliveMs < 0 then keepAlive else keepAliveMs, now, clock)]
                && clock == old(clock) + 1 && loads == old(loads) + 1 && evictions == old(evictions)
    {
      if id in entries {
        return Err(AlreadyExists);
      }
      var total := memory.TotalBytes();
      if total.Err? {
        return Err(total.code);
      }
      var fits := Fits(total.value, None);
      if !fits {
        return Err(ResourceLimit);
      }
      var ttl := if keepAliveMs < 0 then keepAlive else keepAliveMs;
      var e := NewEntry(memory, ttl, now, clock + 1);
      SoundWithNew(entries, id, e, limit, budget, clock);
      clock := clock + 1;
      entries := entries[id := e];
      loads := loads + 1;
      return Ok(());
    }

    method Touch(id: string, keepAliveMs: int, now: int)
      requires Valid() && id in entries
      modifies this
      ensures Valid() && evictions == old(evictions) && loads == old(loads) && clock == old(clock) + 1
      ensures entries == old(entries)[id := Touched(old(entries)[id], keepAliveMs, clock, now)]
    {
      SoundUpdated(entries, id, Touched(entries[id], keepAliveMs, clock + 1, now), limit, budget, clock, clock + 1);
      clock := clock + 1;
      entries := entries[id := Touched(entries[id], keepAliveMs, clock, now)];
    }

    method Acquire(id: string, keepAliveMs: int, now: int)
      requires Valid() && id in entries
      modifies this
      ensures Valid() && evictions == old(evictions) && loads == old(loads) && clock == old(clock) + 1
      ensures entries == old(entries)[id := Leased(old(entries)[id], keepAliveMs, clock, now)]
    {
      var e := Leased(entries[id], keepAliveMs, clock + 1, now);
      SoundUpdated(entries, id, e, limit, budget, clock, clock + 1);
      clock := clock + 1;
      entries := entries[id := e];
    }

    method Release(id: string, now: int) returns (r: Result<()>)
      requires Valid() && id in entries
      modifies this
      ensures Valid() && evictions == old(evictions) && loads == old(loads)
      ensures r.Ok? <==> old(entries)[id].active > 0
      ensures r.Err? ==> entries == old(entries) && clock == old(clock)
      ensures r.Ok? ==> clock == old(clock) + 1 && entries == old(entries)[id := Released(old(entries)[id], clock, now)]
    {
      if entries[id].active <= 0 {
        return Err(RuntimeFailure);
      }
      var e := Released(entries[id], clock + 1, now);
      SoundUpdated(entries, id, e, limit, budget, clock, clock + 1);
      clock := clock + 1;
      entries := entries[id := e];
      return Ok(());
    }

    method Erased(id: string, eviction: bool) returns (r: Result<()>)
      requires Valid()
      modifies this
      ensures Valid() && clock == old(clock) && loads == old(loads)
      ensures r.Err? <==> id in old(entries) && old(entries)[id].active != 0
      ensures r.Err? ==> entries == old(entries) && evictions == old(evictions)
      ensures r.Ok? ==> entries == old(entries) - {id}
                        && evictions == old(evictions) + (if eviction && id in old(entries) then 1 else 0)
    {
      if id !in entries {
        assert entries - {id} == entries;
        return Ok(());
      }
      if entries[id].active != 0 {
        return Err(ModelInUse);
      }
      SoundWithout(entries, id, limit, budget, clock);
      entries := entries - {id};
      if eviction {
        evictions := evictions + 1;
      }
      return Ok(());
    }
  }
}
