/** The bounded cache of inference contexts, keyed by session or conversation. */
module ContextCache {
  import opened Common
  import opened MapSums

  /** What the cache reads of a loaded model; `instance` is the runtime model a context belongs to. */
  datatype ModelSpec = ModelSpec(id: string, contextTokens: int, instance: int)

  datatype Entry = Entry(modelId: string, reservedTokens: nat, access: nat, context: int, instance: int)

  function TokensOf(e: Entry): nat { e.reservedTokens }

  ghost function Reserved(entries: map<string, Entry>): nat { Total(entries, TokensOf) }

  function StampOf(entries: map<string, Entry>, k: string): nat
    requires k in entries
  {
    entries[k].access
  }

  ghost predicate DistinctStamps(entries: map<string, Entry>) {
    forall j, k {:trigger StampOf(entries, j), StampOf(entries, k)} ::
      j in entries && k in entries && StampOf(entries, j) == StampOf(entries, k) ==> j == k
  }

  lemma DistinctSubmap(part: map<string, Entry>, all: map<string, Entry>)
    requires DistinctStamps(all) && Submap(part, all)
    ensures DistinctStamps(part)
  {
    forall j, k | j in part && k in part && StampOf(part, j) == StampOf(part, k) ensures j == k {
      assert StampOf(all, j) == StampOf(all, k);
    }
  }

  /** The entries are charged, within both budgets, and ordered by distinct access stamps. */
  ghost predicate Sound(entries: map<string, Entry>, maxCount: int, maxTokens: int, clock: nat) {
    && |entries| <= maxCount && Reserved(entries) <= maxTokens
    && (forall k :: k in entries ==> entries[k].access <= clock && 1 < entries[k].reservedTokens)
    && DistinctStamps(entries)
  }

  ghost predicate Submap(part: map<string, Entry>, all: map<string, Entry>) {
    forall k :: k in part ==> k in all && part[k] == all[k]
  }

  /** A part holding, with any entry, every entry used after it. */
  ghost predicate Recent(part: map<string, Entry>, all: map<string, Entry>) {
    Submap(part, all) && forall j, k :: j in part && k in all && k !in part ==> all[k].access < all[j].access
  }

  ghost predicate LeavesRoom(part: map<string, Entry>, maxCount: int, maxTokens: int, needed: nat) {
    |part| < maxCount && Reserved(part) + needed <= maxTokens
  }

  /** Every recent part of `all` that leaves room lies within `now`. */
  ghost predicate Covers(now: map<string, Entry>, all: map<string, Entry>, maxCount: int, maxTokens: int, needed: nat) {
    forall part :: Recent(part, all) && LeavesRoom(part, maxCount, maxTokens, needed) ==> Submap(part, now)
  }

  /** The largest most-recently-used part that leaves room: the shortest eviction run. */
  ghost predicate LruCut(kept: map<string, Entry>, all: map<string, Entry>, maxCount: int, maxTokens: int,
    needed: nat) {
    && Recent(kept, all) && LeavesRoom(kept, maxCount, maxTokens, needed)
    && Covers(kept, all, maxCount, maxTokens, needed)
  }

  lemma LruCutUnique(a: map<string, Entry>, b: map<string, Entry>, all: map<string, Entry>, maxCount: int,
    maxTokens: int, needed: nat)
    requires LruCut(a, all, maxCount, maxTokens, needed) && LruCut(b, all, maxCount, maxTokens, needed)
    ensures a == b
  {
  }

  predicate IsOldest(entries: map<string, Entry>, key: string) {
    key in entries && forall k :: k in entries ==> entries[key].access <= entries[k].access
  }

  lemma {:induction false} OldestExists(entries: map<string, Entry>)
    requires entries != map[]
    ensures exists k :: IsOldest(entries, k)
  {
    var k :| k in entries;
    var rest := entries - {k};
    assert forall j :: j in entries ==> j == k || (j in rest && rest[j] == entries[j]);
    if rest == map[] {
      assert IsOldest(entries, k);
    } else {
      OldestExists(rest);
      var o :| IsOldest(rest, o);
      assert IsOldest(entries, if entries[k].access <= entries[o].access then k else o);
    }
  }

  /** A recent part containing the oldest entry of what is left is all of what is left. */
  lemma OldestKeepsAll(part: map<string, Entry>, now: map<string, Entry>, all: map<string, Entry>, oldest: string)
    requires Recent(part, all) && Submap(part, now) && Submap(now, all)
    requires IsOldest(now, oldest) && oldest in part
    ensures part == now
  {
    assert forall k :: k in now ==> k in part;
  }

  lemma RecentWithoutOldest(now: map<string, Entry>, all: map<string, Entry>, oldest: string)
    requires Recent(now, all) && IsOldest(now, oldest) && DistinctStamps(now)
    ensures Recent(now - {oldest}, all)
  {
    forall j | j in now && j != oldest ensures now[oldest].access < now[j].access {
      assert StampOf(now, oldest) == StampOf(now, j) ==> oldest == j;
    }
  }

  lemma CoversWithoutOldest(now: map<string, Entry>, all: map<string, Entry>, oldest: string, maxCount: int,
    maxTokens: int, needed: nat)
    requires Submap(now, all) && Covers(now, all, maxCount, maxTokens, needed) && IsOldest(now, oldest)
    requires !LeavesRoom(now, maxCount, maxTokens, needed)
    ensures Covers(now - {oldest}, all, maxCount, maxTokens, needed)
  {
    forall part | Recent(part, all) && LeavesRoom(part, maxCount, maxTokens, needed)
      ensures Submap(part, now - {oldest})
    {
      if oldest in part { OldestKeepsAll(part, now, all, oldest); }
    }
  }

  lemma SoundWithNewest(entries: map<string, Entry>, id: string, e: Entry, maxCount: int, maxTokens: int, clock: nat)
    requires Sound(entries, maxCount, maxTokens, clock) && id !in entries
    requires LeavesRoom(entries, maxCount, maxTokens, e.reservedTokens) && 1 < e.reservedTokens && e.access == clock + 1
    ensures Sound(entries[id := e], maxCount, maxTokens, clock + 1)
    ensures Reserved(entries[id := e]) == Reserved(entries) + e.reservedTokens
  {
    var now := entries[id := e];
    assert Reserved(now) == Reserved(entries) + e.reservedTokens by {
      TotalWith(entries, TokensOf, id, e);
      assert entries - {id} == entries;
    }
    assert |now| == |entries| + 1;
    assert forall k :: k in now ==> now[k].access <= clock + 1 && 1 < now[k].reservedTokens;
    DistinctWithNewest(entries, id, e, clock);
  }

  lemma DistinctWithNewest(entries: map<string, Entry>, id: string, e: Entry, clock: nat)
    requires DistinctStamps(entries) && forall k :: k in entries ==> entries[k].access <= clock
    requires e.access == clock + 1
    ensures DistinctStamps(entries[id := e])
  {
    var now := entries[id := e];
    forall j, k | j in now && k in now && StampOf(now, j) == StampOf(now, k) ensures j == k {
      assert j != id && k != id ==> StampOf(entries, j) == StampOf(entries, k);
    }
  }

  lemma SoundWhenTouched(entries: map<string, Entry>, id: string, maxCount: int, maxTokens: int, clock: nat)
    requires Sound(entries, maxCount, maxTokens, clock) && id in entries
    ensures var now := entries[id := entries[id].(access := clock + 1)];
            Sound(now, maxCount, maxTokens, clock + 1) && Reserved(now) == Reserved(entries)
  {
    TotalSameWeight(entries, TokensOf, id, entries[id].(access := clock + 1));
    assert |entries[id := entries[id].(access := clock + 1)]| == |entries|;
    DistinctWithNewest(entries, id, entries[id].(access := clock + 1), clock);
  }

  lemma SoundWithout(entries: map<string, Entry>, id: string, maxCount: int, maxTokens: int, clock: nat)
    requires Sound(entries, maxCount, maxTokens, clock) && id in entries
    ensures Sound(entries - {id}, maxCount, maxTokens, clock)
    ensures Reserved(entries - {id}) == Reserved(entries) - entries[id].reservedTokens
  {
    TotalWithout(entries, TokensOf, id);
    DistinctSubmap(entries - {id}, entries);
  }

  class ContextCacheManager {
    const maxCount: int
    const maxTokens: int
    var reserved: int
    var clock: nat
    var evictions: nat
    var entries: map<string, Entry>

    ghost predicate Valid()
      reads this
    {
      1 <= maxCount && 2 <= maxTokens && reserved == Reserved(entries) && Sound(entries, maxCount, maxTokens, clock)
    }

    constructor (count: int, tokens: int)
      requires 1 <= count && 2 <= tokens
      ensures Valid() && maxCount == count && maxTokens == tokens && entries == map[]
    {
      maxCount, maxTokens := count, tokens;
      reserved, clock, evictions := 0, 0, 0;
      entries := map[];
    }

    /**
     * `created` is the answer of the runtime, should a context have to be created; `kept` is what
     * is left of the old entries when it is asked.
     */
    method Acquire(id: string, model: ModelSpec, created: Result<int>)
      returns (r: Result<int>, ghost kept: map<string, Entry>)
      requires Valid() && 1 < model.contextTokens
      modifies this
      ensures Valid()
      ensures id in old(entries) ==>
                && r == Ok(old(entries)[id].context) && evictions == old(evictions) && clock == old(clock) + 1
                && entries == old(entries)[id := old(entries)[id].(access := clock)]
      ensures id !in old(entries) && model.contextTokens > maxTokens ==>
                r == Err(ResourceLimit) && entries == old(entries) && evictions == old(evictions)
      ensures id !in old(entries) && model.contextTokens <= maxTokens ==>
                && LruCut(kept, old(entries), maxCount, maxTokens, model.contextTokens)
                && evictions == old(evictions) + |old(entries)| - |kept|
                && r == created
                && (created.Err? ==> entries == kept)
                && (created.Ok? ==> clock == old(clock) + 1
                                    && entries == kept[id := Entry(model.id, model.contextTokens, clock, created.value,
                                      model.instance)])
    {
      kept := entries;
      if id in entries {
        SoundWhenTouched(entries, id, maxCount, maxTokens, clock);
        clock := clock + 1;
        entries := entries[id := entries[id].(access := clock)];
        return Ok(entries[id].context), entries;
      }
      var needed := model.contextTokens;
      if needed > maxTokens {
        return Err(ResourceLimit), entries;
      }
      MakeRoom(needed);
      kept := entries;
      if created.Err? {
        return Err(created.code), kept;
      }
      var newest := Entry(model.id, needed, clock + 1, created.value, model.instance);
      SoundWithNewest(entries, id, newest, maxCount, maxTokens, clock);
      clock := clock + 1;
      entries := entries[id := newest];
      reserved := reserved + needed;
      return Ok(created.value), kept;
    }

    /** The eviction loop: least recently used entries go until the budgets leave room. */
    method MakeRoom(needed: int)
      requires Valid() && 1 < needed <= maxTokens
      modifies this
      ensures Valid() && clock == old(clock)
      ensures LruCut(entries, old(entries), maxCount, maxTokens, needed)
      ensures evictions == old(evictions) + |old(entries)| - |entries|
    {
      ghost var all := entries;
      while entries != map[] && (|entries| >= maxCount || reserved > maxTokens - needed)
        invariant Valid() && clock == old(clock)
        invariant Recent(entries, all)
        invariant Covers(entries, all, maxCount, maxTokens, needed)
        invariant evictions == old(evictions) + |all| - |entries|
        decreases |entries|
      {
        EvictOne(all, needed);
      }
    }

    method EvictOne(ghost all: map<string, Entry>, ghost needed: nat)
      requires Valid() && entries != map[] && !LeavesRoom(entries, maxCount, maxTokens, needed)
      requires Recent(entries, all) && Covers(entries, all, maxCount, maxTokens, needed)
      modifies this
      ensures Valid() && clock == old(clock)
      ensures Recent(entries, all) && Covers(entries, all, maxCount, maxTokens, needed)
      ensures evictions == old(evictions) + 1 && |entries| == |old(entries)| - 1
    {
      OldestExists(entries);
      var oldest :| IsOldest(entries, oldest);
      RecentWithoutOldest(entries, all, oldest);
      CoversWithoutOldest(entries, all, oldest, maxCount, maxTokens, needed);
      Erase(oldest);
      evictions := evictions + 1;
    }

    method Erase(id: string)
      requires Valid()
      modifies this
      ensures Valid() && entries == old(entries) - {id} && evictions == old(evictions) && clock == old(clock)
      ensures id in old(entries) ==> |entries| == |old(entries)| - 1
    {
      if id in entries {
        SoundWithout(entries, id, maxCount, maxTokens, clock);
        reserved := reserved - entries[id].reservedTokens;
        entries := entries - {id};
      }
    }

    method EraseModel(modelId: string)
      requires Valid()
      modifies this
      ensures Valid() && clock == old(clock)
      ensures entries == map k | k in old(entries) && old(entries)[k].modelId != modelId :: old(entries)[k]
      ensures evictions == old(evictions) + |old(entries)| - |entries|
    {
      var left := entries.Keys;
      while left != {}
        invariant Valid() && clock == old(clock) && Submap(entries, old(entries)) && left <= entries.Keys
        invariant evictions == old(evictions) + |old(entries)| - |entries|
        invariant forall k :: k in old(entries) && k !in left ==> (k in entries <==> old(entries)[k].modelId != modelId)
      {
        var k :| k in left;
        if entries[k].modelId == modelId {
          Erase(k);
          evictions := evictions + 1;
        }
        left := left - {k};
      }
    }
  }

  /** The live contexts of one model. */
  function ContextsOf(entries: map<string, Entry>, modelId: string): map<string, Entry> {
    map k | k in entries && entries[k].modelId == modelId :: entries[k]
  }

  /** A model's contexts never outnumber the slots its memory reservation was charged for. */
  lemma ContextsWithinSlots(entries: map<string, Entry>, maxCount: int, maxTokens: int, clock: nat,
    modelId: string, context: nat)
    requires Sound(entries, maxCount, maxTokens, clock) && 0 < context
    requires forall k :: k in entries && entries[k].modelId == modelId ==> entries[k].reservedTokens == context
    ensures |ContextsOf(entries, modelId)| <= maxCount
    ensures |ContextsOf(entries, modelId)| <= maxTokens / context
  {
    var mine := ContextsOf(entries, modelId);
    TotalAtLeast(mine, TokensOf, context);
    TotalSubmap(mine, entries, TokensOf);
    assert mine.Keys <= entries.Keys;
    KeysCount(mine.Keys, entries.Keys);
    QuotientBound(|mine|, context, maxTokens);
  }

  lemma {:induction false} KeysCount(part: set<string>, all: set<string>)
    requires part <= all
    ensures |part| <= |all|
  {
    if part != {} {
      var k :| k in part;
      KeysCount(part - {k}, all - {k});
    }
  }
}
