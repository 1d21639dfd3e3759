/**
 * Reuse of the key/value memory of a llama.cpp context: whatever happened before, a request sees
 * the memory a fresh context would have, and generates the tokens a fresh context would generate.
 */
module KvReuse {
  import opened Common

  type Token = int

  datatype Content = Text(token: Token) | Media(embedding: int)

  /** One cell of the memory: what was evaluated, and at which position. */
  datatype Cell = Cell(content: Content, pos: nat)

  /** The cells of tokens evaluated in order from a position on. */
  function Cells(tokens: seq<Token>, start: nat): (cells: seq<Cell>)
    ensures |cells| == |tokens|
  {
    seq(|tokens|, i requires 0 <= i < |tokens| => Cell(Text(tokens[i]), start + i))
  }

  lemma CellsConcat(a: seq<Token>, b: seq<Token>, start: nat)
    ensures Cells(a + b, start) == Cells(a, start) + Cells(b, start + |a|)
  {
  }

  /** What is left of the memory once every position from `from` on is removed. */
  function Below(kv: seq<Cell>, from: nat): seq<Cell> {
    if kv == [] then []
    else Below(kv[..|kv| - 1], from) + if kv[|kv| - 1].pos < from then [kv[|kv| - 1]] else []
  }

  lemma {:induction false} NothingBelowZero(kv: seq<Cell>)
    ensures Below(kv, 0) == []
  {
    if kv != [] {
      NothingBelowZero(kv[..|kv| - 1]);
    }
  }

  predicate InOrder(kv: seq<Cell>) { forall i :: 0 <= i < |kv| ==> kv[i].pos == i }

  lemma {:induction false} BelowIsPrefix(kv: seq<Cell>, from: nat)
    requires InOrder(kv) && from <= |kv|
    ensures Below(kv, from) == kv[..from]
    decreases |kv|
  {
    if from == |kv| {
      AllBelow(kv, from);
    } else {
      var init, last := kv[..|kv| - 1], kv[|kv| - 1];
      assert kv == init + [last];
      BelowIsPrefix(init, from);
      BelowAppend(init, last, from);
      assert init[..from] == kv[..from];
    }
  }

  lemma {:induction false} AllBelow(kv: seq<Cell>, from: nat)
    requires InOrder(kv) && |kv| <= from
    ensures Below(kv, from) == kv
  {
    if kv != [] {
      var init, last := kv[..|kv| - 1], kv[|kv| - 1];
      assert kv == init + [last];
      AllBelow(init, from);
      BelowAppend(init, last, from);
    }
  }

  lemma BelowAppend(kv: seq<Cell>, c: Cell, from: nat)
    ensures Below(kv + [c], from) == Below(kv, from) + if c.pos < from then [c] else []
  {
    assert (kv + [c])[..|kv|] == kv;
  }

  /**
   * The model and the sampler of a request, and its consumer: the next token depends on the memory
   * and on the history the sampler has accepted; the consumer decides on the tokens so far.
   */
  datatype Engine = Engine(next: (seq<Cell>, seq<Token>) -> Token, ends: Token -> bool, wants: seq<Token> -> bool)

  datatype Outcome = Outcome(tokens: seq<Token>, stopped: bool)

  /** What a fresh context generates for a prompt evaluated to `base`, whose next position is `start`. */
  function Cold(e: Engine, base: seq<Cell>, start: nat, prompt: seq<Token>, done: seq<Token>, left: nat): Outcome
    decreases left
  {
    if left == 0 then Outcome(done, false)
    else
      var now := done + [e.next(base + Cells(done, start), prompt + done)];
      if e.ends(now[|done|]) || !e.wants(now) then Outcome(now, true)
      else Cold(e, base, start, prompt, now, left - 1)
  }

  lemma StillWithin(prompt: seq<Token>, previous: seq<Token>, done: seq<Token>, token: Token)
    requires previous <= prompt + done || previous <= prompt + (done + [token])
    ensures previous <= prompt + (done + [token])
  {
    assert prompt + (done + [token]) == (prompt + done) + [token];
  }

  datatype Generation = Generation(outcome: Outcome, cached: nat)

  /** Chunks of a prompt with media: what they evaluate to, how many tokens they count, and the position after them. */
  datatype Chunks = Chunks(cells: seq<Cell>, next: nat)

  class LlamaContext {
    const size: nat
    const batch: nat
    var previous: seq<Token>
    var nextPosition: nat
    var kv: seq<Cell> // the memory of the foreign context

    /** The remembered tokens are evaluated at the front of the memory, at their positions. */
    ghost predicate Valid()
      reads this
    {
      1 <= batch && |kv| <= size && Cells(previous, 0) <= kv && (previous != [] ==> InOrder(kv))
    }

    constructor (size: nat)
      requires 1 <= size
      ensures Valid() && this.size == size && kv == []
    {
      this.size := size;
      batch := if size < 512 then size else 512;
      previous, nextPosition, kv := [], 0, [];
    }

    /** llama_decode: evaluates a batch, or fails after any part of it. */
    method Evaluate(tokens: seq<Token>, position: nat) returns (ok: bool)
      modifies this`kv
      ensures old(kv) <= kv <= old(kv) + Cells(tokens, position)
      ensures ok ==> kv == old(kv) + Cells(tokens, position)
    {
      ok := *;
      var part: int := *;
      var cells := Cells(tokens, position);
      kv := kv + if !ok && 0 <= part < |cells| then cells[..part] else cells;
    }

    /** llama_memory_seq_rm: a model may refuse to remove a part. */
    method RemoveFrom(from: nat) returns (ok: bool)
      modifies this`kv
      ensures kv == if ok then Below(old(kv), from) else old(kv)
    {
      ok := *;
      if ok {
        kv := Below(kv, from);
      }
    }

    /** One batch at the next position. After a failure or a cancellation the memory may hold any part of it. */
    method DecodeBatch(tokens: seq<Token>, track: bool) returns (r: Result<()>)
      requires Valid() && |kv| + |tokens| <= size
      requires Ready(track)
      modifies this
      ensures Valid() && |kv| <= old(|kv|) + |tokens|
      ensures r.Ok? ==> kv == old(kv) + Cells(tokens, old(nextPosition)) && nextPosition == old(nextPosition) + |tokens|
      ensures r.Ok? ==> previous == if track then old(previous) + tokens else old(previous)
      ensures r.Ok? ==> Ready(track)
    {
      var cancelled: bool := *;
      if cancelled {
        return Err(Cancelled);
      }
      ghost var before := kv;
      CellsConcat(previous, tokens, 0);
      var ok := Evaluate(tokens, nextPosition);
      StillInOrder(before, Cells(tokens, nextPosition), kv);
      cancelled := *;
      if cancelled || !ok {
        return Err(if cancelled then Cancelled else RuntimeFailure);
      }
      if track {
        previous := previous + tokens;
      }
      nextPosition := nextPosition + |tokens|;
      return Ok(());
    }

    /** Evaluates tokens batch by batch. */
    method Decode(tokens: seq<Token>, track: bool) returns (r: Result<()>)
      requires Valid() && |kv| + |tokens| <= size
      requires Ready(track)
      modifies this
      ensures Valid() && |kv| <= old(|kv|) + |tokens|
      ensures r.Ok? ==> kv == old(kv) + Cells(tokens, old(nextPosition)) && nextPosition == old(nextPosition) + |tokens|
      ensures r.Ok? ==> previous == if track then old(previous) + tokens else []
    {
      var start := 0;
      ghost var base, position, known := kv, nextPosition, previous;
      while start < |tokens|
        invariant 0 <= start <= |tokens| && Valid()
        invariant Decoded(base, position, known, tokens[..start], track)
        invariant Ready(track)
      {
        var count := Min(batch, |tokens| - start);
        var part := tokens[start..start + count];
        r := DecodeBatch(part, track);
        if r.Err? {
          return;
        }
        OneMoreBatch(base, position, known, tokens, start, count);
        start := start + count;
      }
      assert tokens[..|tokens|] == tokens;
      return Ok(());
    }

    /** A text context remembers all that its memory holds; one with media remembers nothing. */
    ghost predicate Ready(track: bool)
      reads this
    {
      if track then kv == Cells(previous, 0) && nextPosition == |kv| else previous == []
    }

    lemma OneMoreBatch(base: seq<Cell>, position: nat, known: seq<Token>, tokens: seq<Token>, start: nat, count: nat)
      requires start + count <= |tokens|
      ensures var part := tokens[start..start + count];
              && tokens[..start + count] == tokens[..start] + part
                && known + tokens[..start] + part == known + tokens[..start + count]
              && base + Cells(tokens[..start], position) + Cells(part, position + start)
                == base + Cells(tokens[..start + count], position)
    {
      var part := tokens[start..start + count];
      assert tokens[..start + count] == tokens[..start] + part;
      CellsConcat(tokens[..start], part, position);
    }

    /** So many tokens have been evaluated since the memory was `base`. */
    ghost predicate Decoded(base: seq<Cell>, position: nat, known: seq<Token>, done: seq<Token>, track: bool)
      reads this
    {
      && kv == base + Cells(done, position) && nextPosition == position + |done|
      && previous == if track then known + done else known
    }

    lemma StillInOrder(before: seq<Cell>, added: seq<Cell>, after: seq<Cell>)
      requires before <= after <= before + added
      ensures InOrder(before) && (forall i :: 0 <= i < |added| ==> added[i].pos == |before| + i) ==> InOrder(after)
    {
      assert forall i :: |before| <= i < |after| ==> after[i] == added[i - |before|];
    }

    /** Keeps the longest common prefix of the last evaluation and the prompt, but not all of the prompt. */
    method Rewind(prompt: seq<Token>, media: bool) returns (reuse: nat, ghost refused: bool)
      requires Valid() && (media || prompt != [])
      modifies this
      ensures Valid() && nextPosition == reuse == if refused then 0 else Reusable(old(previous), prompt, media)
      ensures previous == prompt[..reuse] && kv == Cells(prompt[..reuse], 0)
    {
      reuse := Reusable(previous, prompt, media);
      ghost var before := kv;
      var removed := RemoveFrom(reuse);
      refused := !removed;
      if removed {
        NothingBelowZero(before);
        if reuse > 0 {
          BelowIsPrefix(before, reuse);
        }
      } else {
        kv := [];
        reuse := 0;
      }
      assert previous[..reuse] == prompt[..reuse];
      previous := previous[..reuse];
      nextPosition := reuse;
    }

    /** The chunks of a media prompt, evaluated one after the other; a failure leaves any part of them. */
    method EvaluateChunks(chunks: Chunks) returns (r: Result<()>)
      requires Valid() && kv == [] && previous == [] && |chunks.cells| <= size
      modifies this`kv, this`nextPosition
      ensures Valid()
      ensures r.Ok? ==> kv == chunks.cells && nextPosition == chunks.next
    {
      var failed: Option<ErrorCode> := *;
      if failed.Some? {
        var part: int := *;
        kv := if 0 <= part < |chunks.cells| then chunks.cells[..part] else chunks.cells;
        nextPosition := *;
        return Err(failed.value);
      }
      kv := chunks.cells;
      nextPosition := chunks.next;
      return Ok(());
    }

    /** After prefill the memory is that of a fresh context that evaluated this prompt, and nothing else. */
    method Prefill(prompt: seq<Token>, media: Option<Chunks>) returns (r: Result<()>, reuse: nat)
      requires Valid() && 1 <= InputTokens(prompt, media) <= size
      modifies this
      ensures Valid()
      ensures reuse in {0, Reusable(old(previous), prompt, media.Some?)}
      ensures r.Ok? ==> kv == Base(prompt, media) && nextPosition == Start(prompt, media)
      ensures r.Ok? ==> previous == if media.Some? then [] else prompt
    {
      ghost var refused;
      reuse, refused := Rewind(prompt, media.Some?);
      if media.Some? {
        assert reuse == 0;
        r := EvaluateChunks(media.value);
        return;
      }
      assert prompt == prompt[..reuse] + prompt[reuse..];
      CellsConcat(prompt[..reuse], prompt[reuse..], 0);
      r := Decode(prompt[reuse..], true);
    }

    /** The sampling loop: token by token what a fresh context would generate. */
    method Continue(prompt: seq<Token>, media: Option<Chunks>, e: Engine, maxTokens: nat) returns (r: Result<Outcome>)
      requires Valid() && kv == Base(prompt, media) && nextPosition == Start(prompt, media)
      requires previous == if media.Some? then [] else prompt
      requires InputTokens(prompt, media) + maxTokens <= size
      modifies this
      ensures Valid()
      ensures r.Ok? ==> r.value == Cold(e, Base(prompt, media), Start(prompt, media), prompt, [], maxTokens)
      ensures r.Ok? && media.None? ==> prompt <= previous <= prompt + r.value.tokens
    {
      var done: seq<Token> := [];
      var n := 0;
      ghost var base, start := kv, nextPosition;
      while n < maxTokens
        invariant 0 <= n <= maxTokens && Valid() && |done| == n
        invariant media.None? ==> prompt <= previous <= prompt + done
        invariant n < maxTokens ==> Holds(base, start, prompt, done, media.None?)
        invariant Cold(e, base, start, prompt, done, maxTokens - n) == Cold(e, base, start, prompt, [], maxTokens)
      {
        var failed: Option<ErrorCode> := *;
        if failed.Some? {
          return Err(failed.value);
        }
        var token := e.next(kv, prompt + done);
        if e.ends(token) || !e.wants(done + [token]) {
          if media.None? {
            StillWithin(prompt, previous, done, token);
          }
          return Ok(Outcome(done + [token], true));
        }
        if n + 1 < maxTokens {
          var evaluated := Append(token, base, start, prompt, done, media.None?);
          if evaluated.Err? {
            return Err(evaluated.code);
          }
        }
        if media.None? {
          StillWithin(prompt, previous, done, token);
        }
        done := done + [token];
        n := n + 1;
      }
      return Ok(Outcome(done, false));
    }

    /** The memory holds the evaluated prompt and the tokens generated so far. */
    ghost predicate Holds(base: seq<Cell>, start: nat, prompt: seq<Token>, done: seq<Token>, track: bool)
      reads this
    {
      && kv == base + Cells(done, start) && nextPosition == start + |done|
      && previous == if track then prompt + done else []
    }

    method Append(token: Token, ghost base: seq<Cell>, ghost start: nat, ghost prompt: seq<Token>,
      ghost done: seq<Token>, track: bool)
      returns (r: Result<()>)
      requires Valid() && Holds(base, start, prompt, done, track) && |kv| < size
      requires track ==> base == Cells(prompt, 0) && start == |prompt|
      modifies this
      ensures Valid() && (r.Ok? ==> Holds(base, start, prompt, done + [token], track))
      ensures r.Ok? && track ==> prompt <= previous <= prompt + (done + [token])
    {
      CellsConcat(done, [token], start);
      if track {
        CellsConcat(prompt, done, 0);
      }
      r := Decode([token], track);
      assert prompt + done + [token] == prompt + (done + [token]);
      assert base + Cells(done, start) + Cells([token], start + |done|) == base + Cells(done + [token], start);
    }

    /** One request. The result is that of a fresh context, whatever this context was used for before. */
    method Generate(prompt: seq<Token>, media: Option<Chunks>, e: Engine, options: Result<()>, maxTokens: nat)
      returns (r: Result<Generation>)
      requires Valid()
      modifies this
      ensures Valid()
      ensures r.Ok? ==> options.Ok? && 1 <= InputTokens(prompt, media) && InputTokens(prompt, media) + maxTokens <= size
      ensures r.Ok? ==> r.value.outcome == Cold(e, Base(prompt, media), Start(prompt, media), prompt, [], maxTokens)
      ensures r.Ok? ==> r.value.cached in {0, Reusable(old(previous), prompt, media.Some?)}
      ensures r.Ok? ==> if media.Some? then previous == [] else prompt <= previous <= prompt + r.value.outcome.tokens
      ensures options.Err? || InputTokens(prompt, media) <= 0 || InputTokens(prompt, media) + maxTokens > size ==>
                r.Err? && kv == old(kv) && previous == old(previous)
    {
      if options.Err? {
        return Err(options.code);
      }
      if InputTokens(prompt, media) <= 0 || InputTokens(prompt, media) + maxTokens > size {
        return Err(ContextOverflow);
      }
      var ready, reuse := Prefill(prompt, media);
      if ready.Err? {
        return Err(ready.code);
      }
      var outcome := Continue(prompt, media, e, maxTokens);
      if outcome.Err? {
        return Err(outcome.code);
      }
      if media.Some? {
        previous := [];
      }
      return Ok(Generation(outcome.value, reuse));
    }
  }

  /** How much of the remembered tokens a prompt may reuse: its last token is always evaluated again. */
  function Reusable(previous: seq<Token>, prompt: seq<Token>, media: bool): nat
    requires media || prompt != []
  {
    if media then 0 else CommonPrefix(previous, prompt, Min(|previous|, |prompt| - 1))
  }

  function InputTokens(prompt: seq<Token>, media: Option<Chunks>): nat {
    if media.Some? then |media.value.cells| else |prompt|
  }

  /** The memory of a fresh context after the prompt, and the position that follows it. */
  function Base(prompt: seq<Token>, media: Option<Chunks>): seq<Cell> {
    if media.Some? then media.value.cells else Cells(prompt, 0)
  }

  function Start(prompt: seq<Token>, media: Option<Chunks>): nat {
    if media.Some? then media.value.next else |prompt|
  }
}
