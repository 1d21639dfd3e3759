/**
 * Prompt caches of the MLX worker: a cache handed out for reuse holds exactly the first tokens of
 * the prompt, and logits processors always see the whole history.
 */
module MlxCache {
  import opened Common

  type Token = int

  /** common_prefix, counted. */
  method CountShared(left: seq<Token>, right: seq<Token>) returns (count: nat)
    ensures count == CommonPrefix(left, right, Min(|left|, |right|))
  {
    count := 0;
    while count < |left| && count < |right| && left[count] == right[count]
      invariant count <= |left| && count <= |right| && left[..count] == right[..count]
    {
      count := count + 1;
    }
    CommonPrefixIsUnique(left, right, Min(|left|, |right|), count);
  }

  /** A prompt cache of the foreign library: the tokens evaluated into it, and whether it can be cut. */
  datatype Cache = Cache(tokens: seq<Token>, trimmable: bool)

  /** What the worker remembers of a context: the tokens it believes are in the cache. */
  datatype Entry = Entry(previous: seq<Token>, cache: Cache)

  predicate Faithful(e: Entry) { e.previous == e.cache.tokens && e.previous != [] }

  /** trim_prompt_cache: cuts at most the amount asked for, and says how much. */
  method Trim(cache: Cache, amount: nat) returns (cut: nat, rest: Cache)
    requires amount <= |cache.tokens|
    ensures cut <= amount && rest == cache.(tokens := cache.tokens[..|cache.tokens| - cut])
  {
    var some: int := *;
    cut := if 0 <= some < amount then some else amount;
    rest := cache.(tokens := cache.tokens[..|cache.tokens| - cut]);
  }

  lemma SharedWithin(previous: seq<Token>, tokens: seq<Token>)
    requires tokens != []
    ensures var n := Min(CommonPrefix(previous, tokens, Min(|previous|, |tokens|)), |tokens| - 1);
            n == CommonPrefix(previous, tokens, Min(|previous|, |tokens| - 1))
  {
    CommonPrefixWithin(previous, tokens, Min(|previous|, |tokens|), Min(|previous|, |tokens| - 1));
  }

  /** `cuttable` tells whether a new cache can be cut, `refused` that cutting the old one failed. */
  method PrepareCache(entry: Option<Entry>, tokens: seq<Token>, cuttable: bool)
    returns (cache: Cache, count: nat, ghost refused: bool)
    requires tokens != [] && (entry.Some? ==> Faithful(entry.value))
    ensures count < |tokens| && cache.tokens == tokens[..count]
    ensures 0 < count ==>
              entry.Some? && entry.value.cache.trimmable && !refused && tokens[..count] <= entry.value.previous
    ensures entry.Some? && entry.value.cache.trimmable && !refused ==>
              count == CommonPrefix(entry.value.previous, tokens, Min(|entry.value.previous|, |tokens| - 1))
  {
    refused := false;
    if entry.None? {
      return Cache([], cuttable), 0, refused;
    }
    var shared := CountShared(entry.value.previous, tokens);
    count := Min(shared, |tokens| - 1);
    SharedWithin(entry.value.previous, tokens);
    if count <= 0 || !entry.value.cache.trimmable {
      return Cache([], cuttable), 0, refused;
    }
    assert entry.value.previous[..count] == tokens[..count] by {
      assert entry.value.previous[..shared][..count] == tokens[..shared][..count];
    }
    var amount := |entry.value.previous| - count;
    if amount == 0 {
      return entry.value.cache, count, refused;
    }
    var cut, rest := Trim(entry.value.cache, amount);
    if cut != amount {
      return Cache([], cuttable), 0, true;
    }
    return rest, count, refused;
  }

  /** The next token of the model: from the tokens evaluated and the history the processors see. */
  datatype Engine = Engine(next: (seq<Token>, seq<Token>) -> Token, ends: Token -> bool)

  /** What a fresh cache generates after the prompt. */
  function Cold(e: Engine, prompt: seq<Token>, done: seq<Token>, left: nat): seq<Token>
    decreases left
  {
    if left == 0 then done
    else
      var token := e.next(prompt + done, prompt + done);
      if e.ends(token) then done + [token] else Cold(e, prompt, done + [token], left - 1)
  }

  /** full_history_processor: puts back the prompt tokens that caching and chunked prefill leave out. */
  class HistoryProcessor {
    const prompt: seq<Token>
    var prefix: Option<seq<Token>>

    constructor (prompt: seq<Token>)
      ensures this.prompt == prompt && prefix == None
    {
      this.prompt := prompt;
      prefix := None;
    }

    /**
     * The first history must be a nonempty end of the prompt; from then on its missing front is put
     * before every history.
     */
    method Complete(history: seq<Token>) returns (r: Result<seq<Token>>)
      modifies this
      ensures old(prefix).None? ==>
              (r.Ok? <==> history != [] && |history| <= |prompt| && prompt[|prompt| - |history|..] == history)
      ensures r.Ok? ==>
                prefix.Some? && (old(prefix).Some? ==> prefix == old(prefix)) && r.value == prefix.value + history
      ensures r.Ok? && old(prefix).None? ==> r.value == prompt
      ensures r.Err? ==> prefix == old(prefix)
    {
      if prefix.None? {
        if history == [] || |history| > |prompt| || prompt[|prompt| - |history|..] != history {
          return Err(RuntimeFailure);
        }
        prefix := Some(prompt[..|prompt| - |history|]);
      }
      return Ok(prefix.value + history);
    }
  }

  lemma HistoryCompletes(tokens: seq<Token>, seen: nat, done: seq<Token>)
    requires seen <= |tokens|
    ensures tokens[..|tokens| - seen] + (tokens[|tokens| - seen..] + done) == tokens + done
  {
    assert tokens == tokens[..|tokens| - seen] + tokens[|tokens| - seen..];
  }

  class Worker {
    const contextTokens: int
    var contexts: map<string, Entry>

    ghost predicate Valid()
      reads this
    {
      forall k :: k in contexts ==> Faithful(contexts[k]) && |contexts[k].previous| <= contextTokens
    }

    constructor (contextTokens: int)
      ensures Valid() && contexts == map[]
    {
      this.contextTokens := contextTokens;
      contexts := map[];
    }

    method Drop(key: string)
      requires Valid()
      modifies this
      ensures Valid() && contexts == old(contexts) - {key}
    {
      contexts := contexts - {key};
    }

    /**
     * One generation. The tokens are those a fresh cache would generate; the context is remembered
     * again only with the tokens its cache is known to hold, and not at all after a failure.
     */
    method Generate(key: string, tokens: seq<Token>, maximum: int, e: Engine)
      returns (r: Result<seq<Token>>, reused: nat)
      requires Valid()
      modifies this
      ensures Valid()
      ensures r.Ok? ==> tokens != [] && 1 <= maximum && |tokens| + maximum <= contextTokens
      ensures r.Ok? ==> r.value == Cold(e, tokens, [], maximum) && reused < |tokens|
      ensures contexts - {key} == old(contexts) - {key}
      ensures key !in old(contexts) ==> reused == 0
      ensures r.Err? && tokens != [] && 1 <= maximum && |tokens| + maximum <= contextTokens ==> key !in contexts
    {
      reused := 0;
      if tokens == [] || maximum < 1 || |tokens| + maximum > contextTokens {
        return Err(RuntimeFailure), reused;
      }
      var entry := if key in contexts then Some(contexts[key]) else None;
      contexts := contexts - {key};
      var cuttable: bool := *;
      var cache;
      ghost var refused;
      cache, reused, refused := PrepareCache(entry, tokens, cuttable);
      var evaluated;
      r, evaluated := Steps(cache, reused, tokens, maximum, e);
      if r.Err? {
        return;
      }
      var all := tokens + r.value;
      var known: bool := *;
      if known && 0 < |evaluated.tokens| <= |all| && evaluated.trimmable {
        contexts := contexts[key := Entry(all[..|evaluated.tokens|], evaluated)];
      }
    }

    // A dropped context is never used again: the next generation under its key starts from
    // nothing, and no other context is touched.
    method GenerateAfterDrop(key: string, tokens: seq<Token>, maximum: int, e: Engine)
      returns (r: Result<seq<Token>>, reused: nat)
      requires Valid()
      modifies this
      ensures Valid() && reused == 0
      ensures r.Ok? ==> 1 <= maximum && r.value == Cold(e, tokens, [], maximum)
      ensures forall k :: k != key ==>
                (k in contexts <==> k in old(contexts)) && (k in contexts ==> contexts[k] == old(contexts)[k])
    {
      ghost var was := contexts;
      Drop(key);
      r, reused := Generate(key, tokens, maximum, e);
      assert forall k :: k != key ==> (k in contexts <==> k in contexts - {key}) && (k in was <==> k in was - {key});
    }

    /**
     * The foreign generation loop over a cache that holds the first `reused` tokens. It may have
     * evaluated any part of the new tokens, or ahead of them, when it ends.
     */
    method Steps(cache: Cache, reused: nat, tokens: seq<Token>, maximum: nat, e: Engine)
      returns (r: Result<seq<Token>>, after: Cache)
      requires reused < |tokens| && cache.tokens == tokens[..reused] && 1 <= maximum
      ensures r.Ok? ==> r.value == Cold(e, tokens, [], maximum) && |r.value| <= maximum
      ensures r.Ok? ==> var all := tokens + r.value; after.tokens <= all || all <= after.tokens
    {
      after := cache;
      var processor := new HistoryProcessor(tokens);
      var evaluated := cache.tokens + tokens[reused..];
      assert evaluated == tokens;
      var chunk: nat := *;
      var seen := if 0 < chunk <= |tokens| - reused then chunk else 1;
      ghost var front := tokens[..|tokens| - seen];
      var done: seq<Token> := [];
      var n := 0;
      while n < maximum
        invariant 0 <= n <= maximum && |done| == n
        invariant fresh(processor) && processor.prompt == tokens && processor.prefix in {None, Some(front)}
        invariant processor.prefix.None? ==> done == []
        invariant evaluated == tokens + done
        invariant Cold(e, tokens, done, maximum - n) == Cold(e, tokens, [], maximum)
      {
        var history := tokens[|tokens| - seen..] + done;
        HistoryCompletes(tokens, seen, done);
        var complete := processor.Complete(history);
        if complete.Err? {
          return Err(complete.code), after;
        }
        assert complete.value == tokens + done;
        var token := e.next(evaluated, complete.value);
        if e.ends(token) {
          done := done + [token];
          break;
        }
        done := done + [token];
        evaluated := evaluated + [token];
        n := n + 1;
      }
      r := Ok(done);
      var failed: bool := *;
      if failed {
        return Err(RuntimeFailure), after;
      }
      var ahead: seq<Token>, offset: nat := *, *;
      var all := tokens + done;
      after := cache.(tokens := if offset <= |all| then all[..offset] else all + ahead);
    }
  }
}
