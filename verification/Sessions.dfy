/** Chat sessions, the check of one-shot conversations, and the trimming of a history to a context. */
module Sessions {
  import opened Common
  import opened Texts

  datatype Role = System | User | Assistant

  datatype Message = Message(role: Role, content: Text)

  type History = seq<Message>

  datatype Session = Session(modelId: string, messages: History)

  /** Where the first turn starts: after the system message, if there is one. */
  function FirstTurn(h: History): nat { if h != [] && h[0].role.System? then 1 else 0 }

  function RoleAt(h: History, i: int): Role { if (i - FirstTurn(h)) % 2 == 0 then User else Assistant }

  /** An optional system message, then user and assistant in turn. */
  ghost predicate Alternates(h: History) {
    forall i :: FirstTurn(h) <= i < |h| ==> h[i].role == RoleAt(h, i)
  }

  /** An optional system message, then complete user/assistant turns. */
  ghost predicate WellFormed(h: History) {
    Alternates(h) && (|h| - FirstTurn(h)) % 2 == 0
  }

  // ---- One-shot conversations ------------------------------------------------------------------

  /** Nothing is left once surrounding white space is trimmed. */
  predicate Blank(text: Text) { forall i :: 0 <= i < |text| ==> IsSpace(text[i]) }

  function Characters(h: History): nat {
    if h == [] then 0 else Characters(h[..|h| - 1]) + |h[|h| - 1].content|
  }

  lemma {:induction false} CharactersGrow(h: History, k: nat)
    requires k <= |h|
    ensures Characters(h[..k]) <= Characters(h)
    decreases |h|
  {
    if k < |h| {
      assert h[..|h| - 1][..k] == h[..k];
      CharactersGrow(h[..|h| - 1], k);
    } else {
      assert h[..k] == h;
    }
  }

  lemma CharactersStep(h: History, i: nat)
    requires i < |h|
    ensures Characters(h[..i + 1]) == Characters(h[..i]) + |h[i].content| <= Characters(h)
  {
    assert h[..i + 1][..i] == h[..i];
    CharactersGrow(h, i + 1);
  }

  /** What a one-shot conversation must look like. */
  ghost predicate AcceptableConversation(h: History, limit: int) {
    && h != [] && h[|h| - 1].role.User? && (forall i :: 0 <= i < |h| ==> InPlace(h, i)) && Characters(h) <= limit
  }

  /** Not blank, and of the role its place asks for. */
  predicate InPlace(h: History, i: nat)
    requires i < |h|
  {
    !Blank(h[i].content) && (FirstTurn(h) <= i ==> h[i].role == RoleAt(h, i))
  }

  method CheckConversation(h: History, limit: int) returns (r: Result<()>)
    requires 1 <= limit
    ensures r == if AcceptableConversation(h, limit) then Ok(()) else Err(InvalidArgument)
  {
    if h == [] || !h[|h| - 1].role.User? {
      return Err(InvalidArgument);
    }
    var characters := 0;
    var expected := User;
    for i := 0 to |h|
      invariant characters == Characters(h[..i]) <= limit
      invariant forall j :: 0 <= j < i ==> InPlace(h, j)
      invariant expected == if i < FirstTurn(h) then User else RoleAt(h, i)
    {
      CharactersStep(h, i);
      characters := characters + |h[i].content|;
      if characters > limit || Blank(h[i].content) {
        assert characters <= limit ==> !InPlace(h, i);
        return Err(InvalidArgument);
      }
      if i == 0 && h[i].role.System? {
        continue;
      }
      if h[i].role != expected {
        assert !InPlace(h, i);
        return Err(InvalidArgument);
      }
      expected := if expected.User? then Assistant else User;
    }
    assert h[..|h|] == h;
    return Ok(());
  }

  /** The history of the temporary session is well formed, and the whole is that history and a prompt. */
  lemma ConversationIsTurns(h: History, limit: int)
    requires AcceptableConversation(h, limit)
    ensures WellFormed(h[..|h| - 1])
    ensures h == h[..|h| - 1] + [Message(User, h[|h| - 1].content)]
  {
    var n := |h| - 1;
    assert n >= FirstTurn(h) && InPlace(h, n);
    forall i | FirstTurn(h[..n]) <= i < n ensures h[..n][i].role == RoleAt(h[..n], i) {
      assert InPlace(h, i);
    }
  }

  // ---- Trimming to the context -----------------------------------------------------------------

  /** The history without the `dropped` messages after the system message. */
  function Trimmed(h: History, dropped: nat): History
    requires FirstTurn(h) + dropped <= |h|
  {
    h[..FirstTurn(h)] + h[FirstTurn(h) + dropped..]
  }

  type Tokenizer = History -> Result<seq<int>>

  /** The dropped turns so far all left a prompt that was tokenized and found too long. */
  ghost predicate AllTooLong(h: History, dropped: nat, room: int, tokenize: Tokenizer)
    requires FirstTurn(h) + dropped <= |h|
  {
    forall d: nat :: d < dropped && d % 2 == 0 ==> TooLong(tokenize(Trimmed(h, d)), room)
  }

  predicate TooLong(tokens: Result<seq<int>>, room: int) { tokens.Ok? && tokens.value != [] && |tokens.value| > room }

  /** Doubles: none of a number means it is infinite or not a number. */
  datatype Options = Options(maxTokens: int, temperature: Option<real>, topP: Option<real>, topK: int, stop: seq<Text>)

  predicate ValidOptions(o: Options, contextTokens: int) {
    && 0 < o.maxTokens < contextTokens
    && o.temperature.Some? && 0.0 <= o.temperature.value <= 10.0
    && o.topP.Some? && 0.0 < o.topP.value <= 1.0
    && 0 <= o.topK && |o.stop| <= 16
    && (forall i :: 0 <= i < |o.stop| ==> 1 <= |o.stop[i]| <= 1024)
  }

  datatype Prepared = Prepared(messages: History, tokens: seq<int>, dropped: nat)

  /** Whole turns were dropped, each because the prompt before was too long. */
  ghost predicate Trimming(all: History, dropped: nat, room: int, tokenize: Tokenizer) {
    && dropped % 2 == 0 && FirstTurn(all) + dropped < |all| && (|all| - FirstTurn(all)) % 2 == 1
    && AllTooLong(all, dropped, room, tokenize)
  }

  /** The prompt fits, and every longer prompt did not: the fewest oldest whole turns were dropped. */
  ghost predicate Fits(all: History, room: int, tokenize: Tokenizer, p: Prepared) {
    && Trimming(all, p.dropped, room, tokenize)
    && p.messages == Trimmed(all, p.dropped)
    && tokenize(p.messages) == Ok(p.tokens) && 0 < |p.tokens| <= room
  }

  /** Why no prompt was prepared, after `dropped` messages were dropped. */
  ghost predicate Fails(all: History, room: int, tokenize: Tokenizer, dropped: nat, code: ErrorCode) {
    && Trimming(all, dropped, room, tokenize)
    && var tokens := tokenize(Trimmed(all, dropped));
    || code == Cancelled
    || (tokens.Err? && code == tokens.code)
    || (tokens == Ok([]) && code == RuntimeFailure)
    || (TooLong(tokens, room) && code == ContextOverflow && |all| == FirstTurn(all) + dropped + 1)
  }

  /** `catalog` is the verdict of the generation parameter catalog on the options. */
  method Prepare(history: History, prompt: Text, o: Options, catalog: Result<()>, contextTokens: int, inputLimit: int,
    tokenize: Tokenizer)
    returns (r: Result<Prepared>, ghost dropped: nat)
    requires WellFormed(history)
    ensures r.Ok? ==> !Blank(prompt) && |prompt| <= inputLimit && catalog.Ok? && ValidOptions(o, contextTokens)
                      && Fits(history + [Message(User, prompt)], contextTokens - o.maxTokens, tokenize, r.value)
    ensures r.Err? ==>
              if Blank(prompt) || |prompt| > inputLimit then r.code == InvalidArgument
              else if catalog.Err? then r.code == catalog.code
              else if !ValidOptions(o, contextTokens) then r.code == InvalidArgument
              else Fails(history + [Message(User, prompt)], contextTokens - o.maxTokens, tokenize, dropped, r.code)
  {
    dropped := 0;
    if Blank(prompt) || |prompt| > inputLimit {
      return Err(InvalidArgument), 0;
    }
    if catalog.Err? {
      return Err(catalog.code), 0;
    }
    if !ValidOptions(o, contextTokens) {
      return Err(InvalidArgument), 0;
    }
    r, dropped := Trim(history + [Message(User, prompt)], contextTokens - o.maxTokens, tokenize);
  }

  lemma DropTurn(all: History, dropped: nat, room: int, tokenize: Tokenizer)
    requires dropped % 2 == 0 && FirstTurn(all) + dropped + 2 < |all|
    requires AllTooLong(all, dropped, room, tokenize) && TooLong(tokenize(Trimmed(all, dropped)), room)
    ensures var now, f := Trimmed(all, dropped), FirstTurn(all); Trimmed(all, dropped + 2) == now[..f] + now[f + 2..]
    ensures AllTooLong(all, dropped + 2, room, tokenize)
  {
  }

  lemma OddIsOne(left: int, all: int, dropped: int)
    requires 1 <= left <= 2 && left == all - dropped && all % 2 == 1 && dropped % 2 == 0
    ensures left == 1
  {
  }

  /** The trimming loop; cancellation may be seen at any round. */
  method Trim(all: History, room: int, tokenize: Tokenizer) returns (r: Result<Prepared>, ghost tried: nat)
    requires FirstTurn(all) < |all| && (|all| - FirstTurn(all)) % 2 == 1
    ensures r.Ok? ==> Fits(all, room, tokenize, r.value)
    ensures r.Err? ==> Fails(all, room, tokenize, tried, r.code)
  {
    var messages := all;
    var dropped := 0;
    var first := FirstTurn(all);
    while true
      invariant Trimming(all, dropped, room, tokenize) && messages == Trimmed(all, dropped)
      decreases |messages|
    {
      var cancelled: bool := *;
      if cancelled {
        return Err(Cancelled), dropped;
      }
      var tokens := tokenize(messages);
      if tokens.Err? {
        return Err(tokens.code), dropped;
      }
      if tokens.value == [] {
        return Err(RuntimeFailure), dropped;
      }
      if |tokens.value| <= room {
        return Ok(Prepared(messages, tokens.value, dropped)), dropped;
      }
      if |messages| <= first + 2 {
        OddIsOne(|messages| - first, |all| - first, dropped);
        return Err(ContextOverflow), dropped;
      }
      DropTurn(all, dropped, room, tokenize);
      messages := messages[..first] + messages[first + 2..];
      dropped := dropped + 2;
    }
  }

  lemma EvenStep(i: int, d: int)
    requires d % 2 == 0
    ensures (i + d) % 2 == i % 2
  {
  }

  lemma TrimmedAlternates(h: History, dropped: nat)
    requires Alternates(h) && dropped % 2 == 0 && FirstTurn(h) + dropped < |h|
    ensures FirstTurn(Trimmed(h, dropped)) == FirstTurn(h) && Alternates(Trimmed(h, dropped))
  {
    var now, f := Trimmed(h, dropped), FirstTurn(h);
    assert h[f + dropped].role == RoleAt(h, f + dropped);
    assert now[f] == h[f + dropped];
    forall i | f <= i < |now| ensures now[i].role == RoleAt(now, i) {
      assert now[i] == h[i + dropped];
      EvenStep(i - f, dropped);
    }
  }

  lemma AppendAlternates(h: History, m: Message)
    requires Alternates(h) && m.role == RoleAt(h, |h|)
    ensures FirstTurn(h + [m]) == FirstTurn(h) && Alternates(h + [m])
  {
  }

  lemma TrimmedWithNewest(h: History, m: Message, dropped: nat)
    requires FirstTurn(h + [m]) == FirstTurn(h) && FirstTurn(h) + dropped <= |h|
    ensures Trimmed(h + [m], dropped) == Trimmed(h, dropped) + [m]
  {
    assert (h + [m])[FirstTurn(h) + dropped..] == h[FirstTurn(h) + dropped..] + [m];
  }

  /** A prepared prompt keeps the system message and the newest message, and with a reply is whole turns again. */
  lemma CommitKeepsTurns(history: History, prompt: Text, room: int, tokenize: Tokenizer, p: Prepared, reply: Text)
    requires WellFormed(history) && Fits(history + [Message(User, prompt)], room, tokenize, p)
    ensures WellFormed(p.messages + [Message(Assistant, reply)])
    ensures p.dropped <= |history| - FirstTurn(history)
    ensures p.messages == Trimmed(history, p.dropped) + [Message(User, prompt)]
  {
    var all := history + [Message(User, prompt)];
    AppendAlternates(history, Message(User, prompt));
    TrimmedAlternates(all, p.dropped);
    EvenStep(|p.messages| - FirstTurn(all), p.dropped);
    AppendAlternates(p.messages, Message(Assistant, reply));
    TrimmedWithNewest(history, Message(User, prompt), p.dropped);
  }

  // ---- The session table -----------------------------------------------------------------------

  /** A random identifier without braces has 36 characters. */
  predicate IsUuid(id: string) { |id| == 36 }

  ghost predicate Sound(sessions: map<string, Session>, limit: int) {
    && |sessions| <= limit
    && forall id {:trigger Good(sessions, id)} :: id in sessions ==> Good(sessions, id)
  }

  ghost predicate Good(sessions: map<string, Session>, id: string)
    requires id in sessions
  {
    IsUuid(id) && WellFormed(sessions[id].messages)
  }

  class SessionManager {
    const limit: int
    var sessions: map<string, Session>

    ghost predicate Valid()
      reads this
    {
      1 <= limit && Sound(sessions, limit)
    }

    constructor (limit: int)
      requires 1 <= limit
      ensures Valid() && sessions == map[] && this.limit == limit
    {
      this.limit := limit;
      sessions := map[];
    }

    /** `uuid` is the random identifier drawn for the session: one no session has. */
    method Create(modelId: string, system: Text, uuid: string) returns (r: Result<string>)
      requires Valid() && IsUuid(uuid) && uuid !in sessions
      modifies this
      ensures Valid()
      ensures r == if |old(sessions)| < limit then Ok(uuid) else Err(ResourceLimit)
      ensures r.Err? ==> sessions == old(sessions)
      ensures r.Ok? ==>
              sessions == old(sessions)[uuid :=
                Session(modelId, if system == [] then [] else [Message(System, system)])]
    {
      if |sessions| >= limit {
        return Err(ResourceLimit);
      }
      Put(uuid, Session(modelId, if system == [] then [] else [Message(System, system)]));
      return Ok(uuid);
    }

    method Put(id: string, session: Session)
      requires Valid() && IsUuid(id) && WellFormed(session.messages)
      requires id in sessions || |sessions| < limit
      modifies this
      ensures Valid() && sessions == old(sessions)[id := session]
    {
      ghost var was := sessions;
      sessions := sessions[id := session];
      assert id in was ==> |sessions| == |was|;
      assert id !in was ==> |sessions| == |was| + 1;
      forall k | k in sessions ensures Good(sessions, k) {
        assert k != id ==> Good(was, k);
      }
    }

    method SetMessages(id: string, messages: History)
      requires Valid() && id in sessions && WellFormed(messages)
      modifies this
      ensures Valid() && sessions == old(sessions)[id := old(sessions)[id].(messages := messages)]
    {
      assert Good(sessions, id);
      Put(id, sessions[id].(messages := messages));
    }

    method Reset(id: string) returns (r: Result<()>)
      requires Valid()
      modifies this
      ensures Valid()
      ensures r == if id in old(sessions) then Ok(()) else Err(NotFound)
      ensures r.Err? ==> sessions == old(sessions)
      ensures r.Ok? ==> var h := old(sessions)[id].messages;
                        sessions == old(sessions)[id := old(sessions)[id].(messages := h[..FirstTurn(h)])]
    {
      if id !in sessions {
        return Err(NotFound);
      }
      var h := sessions[id].messages;
      if h != [] && h[0].role.System? {
        SetMessages(id, [h[0]]);
        assert h[..1] == [h[0]];
      } else {
        SetMessages(id, []);
        assert h[..0] == [];
      }
      return Ok(());
    }

    method Close(id: string) returns (r: Result<()>)
      requires Valid()
      modifies this
      ensures Valid()
      ensures r == if id in old(sessions) then Ok(()) else Err(NotFound)
      ensures sessions == old(sessions) - {id}
    {
      if id !in sessions {
        assert sessions - {id} == sessions;
        return Err(NotFound);
      }
      ghost var was := sessions;
      sessions := sessions - {id};
      forall k | k in sessions ensures Good(sessions, k) {
        assert Good(was, k);
      }
      return Ok(());
    }

    predicate UsesModel(modelId: string)
      reads this
    {
      exists id :: id in sessions && sessions[id].modelId == modelId
    }
  }
}
