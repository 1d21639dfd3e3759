/**
 * The validator of structured conversations, against a grammar: calls are answered at once, each
 * exactly once, in any order. The validator keeps two sets; the grammar looks at whole blocks.
 */
module Conversations {
  import opened Common

  // ---- The parts of a conversation that validation looks at ------------------------------------

  datatype Role = System | User | Assistant | Tool | Unsupported

  /** A content field; native content is judged by its own reader, which may fail. */
  datatype Content = Absent | Null | Words(blank: bool) | Native(usable: Result<bool>) | Malformed

  /** An optional field that must be a string. */
  datatype Field = Missing | Given(value: string) | NotString

  /** A function call; `object` says whether the arguments are a JSON object encoded as a string. */
  datatype Call = Call(isFunction: bool, name: string, id: Field, arguments: bool)

  datatype Calls = NoCalls | NotArray | CallList(calls: seq<Call>)

  /** `regular` is false when the message is no object or has a field of an unknown name. */
  datatype Message = Message(regular: bool, role: Role, content: Content, calls: Calls, resultId: Field,
    reasoning: Field, name: Field)

  datatype Definition = Definition(regular: bool, name: string)

  datatype Choice = Auto | Never | Required | UnknownChoice

  datatype Request = Request(options: Result<()>, contextId: string, keepAliveMs: int, choice: Choice, parallel: bool,
                             tools: seq<Definition>, messages: seq<Message>, characters: int)

  predicate InNames(c: char) {
    'A' <= c <= 'Z' || 'a' <= c <= 'z' || '0' <= c <= '9' || c == '_' || c == '.' || c == ':' || c == '-'
  }

  predicate PlainName(name: string) { 1 <= |name| <= 128 && forall i :: 0 <= i < |name| ==> InNames(name[i]) }

  /** The pattern's dollar also matches before a newline at the very end. */
  predicate NameValid(name: string) {
    PlainName(name) || (name != "" && name[|name| - 1] == '\n' && PlainName(name[..|name| - 1]))
  }

  /** A valid name is a plain one exactly when it does not end in a newline. */
  lemma ValidNames(name: string)
    requires NameValid(name)
    ensures PlainName(name) <==> name[|name| - 1] != '\n'
  {
    assert PlainName(name) ==> InNames(name[|name| - 1]);
  }

  /** An input: the name `f` followed by a newline. */
  lemma NameWithNewlineInput()
    ensures NameValid("f\n") && !PlainName("f\n")
  {
    assert "f\n"[..1] == "f";
    assert !InNames("f\n"[1]);
  }

  predicate CallValid(c: Call) {
    c.isFunction && NameValid(c.name) && c.id.Given? && 1 <= |c.id.value| <= 128 && c.arguments
  }

  function IdOf(f: Field): string { if f.Given? then f.value else "" }

  function CallsOf(m: Message): seq<Call> { if m.calls.CallList? then m.calls.calls else [] }

  function Ids(calls: seq<Call>): seq<string> { seq(|calls|, i requires 0 <= i < |calls| => IdOf(calls[i].id)) }

  function ResultIds(messages: seq<Message>): seq<string> {
    seq(|messages|, i requires 0 <= i < |messages| => IdOf(messages[i].resultId))
  }

  /** The part of a message's shape that is checked before its calls or content. */
  predicate Plausible(m: Message) {
    && m.regular && !m.role.Unsupported? && !m.content.Malformed?
    && (m.content.Native? ==> m.role.User? || m.role.Tool?) && (m.content.Native? ==> m.content.usable == Ok(true))
    && (m.reasoning.Missing? || (m.role.Assistant? && m.reasoning.Given?))
      && (m.name.Missing? || (m.role.Tool? && m.name.Given?))
    && (m.role.Assistant? || m.calls.NoCalls?) && (m.role.Tool? || m.resultId.Missing?)
  }

  /** What is asked of a message by itself. */
  predicate Shaped(m: Message) {
    && Plausible(m)
    && (if m.role.Tool? then m.content.Words? || m.content.Native?
        else if m.calls.NoCalls? then m.content.Native? || (m.content.Words? && !m.content.blank)
        else CallsValid(m.calls))
  }

  predicate CallsValid(c: Calls) {
    c.CallList? && 1 <= |c.calls| <= 64 && forall i :: 0 <= i < |c.calls| ==> CallValid(c.calls[i])
  }

  // ---- The grammar -----------------------------------------------------------------------------

  /** Messages without calls or results, and calls followed at once by a permutation of their results. */
  ghost predicate Grammar(messages: seq<Message>)
    decreases |messages|
  {
    messages == [] ||
    (!messages[0].role.Tool? &&
     var n := |CallsOf(messages[0])|;
     n < |messages| && Answers(CallsOf(messages[0]), messages[1..n + 1]) && Grammar(messages[n + 1..]))
  }

  /** The messages are results, of each call exactly one. */
  ghost predicate Answers(calls: seq<Call>, results: seq<Message>) {
    && (forall i :: 0 <= i < |results| ==> results[i].role.Tool?)
    && multiset(ResultIds(results)) == multiset(Ids(calls))
  }

  function AllIds(messages: seq<Message>): seq<string> {
    if messages == [] then [] else Ids(CallsOf(messages[0])) + AllIds(messages[1..])
  }

  ghost predicate Distinct(ids: seq<string>) { forall i, j :: 0 <= i < j < |ids| ==> ids[i] != ids[j] }

  ghost predicate Acceptable(messages: seq<Message>) {
    && messages != [] && (forall i :: 0 <= i < |messages| ==>
      Shaped(messages[i]) && (messages[i].role.System? ==> i == 0))
    && Distinct(AllIds(messages)) && Grammar(messages)
    && (messages[|messages| - 1].role.User? || messages[|messages| - 1].role.Tool?)
  }

  // ---- The sets the validator keeps ------------------------------------------------------------

  /** What is left of a conversation, when these results are still owed. */
  ghost predicate Continues(rest: seq<Message>, pending: set<string>)
    decreases |rest|
  {
    if rest == [] then pending == {}
    else if rest[0].role.Tool? then IdOf(rest[0].resultId) in pending
      && Continues(rest[1..], pending - {IdOf(rest[0].resultId)})
    else pending == {} && Continues(rest[1..], IdSet(CallsOf(rest[0])))
  }

  function IdSet(calls: seq<Call>): set<string> { set id | id in Ids(calls) }

  /** The calls still to come have ids that are new and distinct. */
  ghost predicate Fresh(rest: seq<Message>, seen: set<string>)
    decreases |rest|
  {
    rest == [] || (Distinct(Ids(CallsOf(rest[0]))) && IdSet(CallsOf(rest[0])) !! seen
      && Fresh(rest[1..], seen + IdSet(CallsOf(rest[0]))))
  }

  lemma {:induction false} FreshIsDistinct(rest: seq<Message>, seen: set<string>)
    ensures Fresh(rest, seen) <==> Distinct(AllIds(rest)) && forall id :: id in AllIds(rest) ==> id !in seen
    decreases |rest|
  {
    if rest != [] {
      var mine, others := Ids(CallsOf(rest[0])), AllIds(rest[1..]);
      FreshIsDistinct(rest[1..], seen + IdSet(CallsOf(rest[0])));
      DistinctConcat(mine, others);
    }
  }

  lemma DistinctConcat(a: seq<string>, b: seq<string>)
    ensures Distinct(a + b) <==> Distinct(a) && Distinct(b) && forall id :: id in b ==> id !in a
  {
    if Distinct(a + b) {
      assert forall i :: 0 <= i < |a| ==> (a + b)[i] == a[i];
      assert forall i :: 0 <= i < |b| ==> (a + b)[|a| + i] == b[i];
      forall i, j | 0 <= i < |a| && 0 <= j < |b| ensures a[i] != b[j] {
        assert (a + b)[i] != (a + b)[|a| + j];
      }
    } else if Distinct(a) && Distinct(b) {
      var i, j :| 0 <= i < j < |a + b| && (a + b)[i] == (a + b)[j];
      assert i < |a| <= j && b[j - |a|] in b;
    }
  }

  lemma PayOne(rest: seq<Message>, pending: set<string>)
    requires rest != [] && 1 <= |pending| <= |rest|
    ensures var id := IdOf(rest[0].resultId); var n := |pending|;
            && multiset(ResultIds(rest[..n])) == multiset{id} + multiset(ResultIds(rest[1..][..n - 1]))
            && (id in pending ==>
              |pending - {id}| == n - 1 && multiset(pending) == multiset{id} + multiset(pending - {id}))
            && rest[n..] == rest[1..][n - 1..]
  {
    var id, n := IdOf(rest[0].resultId), |pending|;
    assert ResultIds(rest[..n]) == [id] + ResultIds(rest[1..][..n - 1]);
  }

  /** Owed results are paid by as many messages, a permutation of them. */
  lemma {:induction false} PaidByPermutation(rest: seq<Message>, pending: set<string>)
    ensures Continues(rest, pending) <==> Paid(rest, pending) && Continues(rest[|pending|..], {})
    decreases |rest|
  {
    if pending == {} {
      assert rest[0..] == rest && rest[..0] == [];
    } else if rest != [] && |pending| <= |rest| {
      var id := IdOf(rest[0].resultId);
      PayOne(rest, pending);
      if rest[0].role.Tool? {
        if id in pending {
          PaidByPermutation(rest[1..], pending - {id});
          PaidTail(rest, pending);
        } else {
          assert multiset(pending)[id] == 0;
        }
      }
    } else if rest != [] {
      TooFew(rest, pending);
    }
  }

  ghost predicate Paid(rest: seq<Message>, pending: set<string>) {
    && |pending| <= |rest| && (forall i :: 0 <= i < |pending| ==> rest[i].role.Tool?)
    && multiset(ResultIds(rest[..|pending|])) == multiset(pending)
  }

  lemma PaidTail(rest: seq<Message>, pending: set<string>)
    requires rest != [] && |pending| <= |rest| && rest[0].role.Tool? && IdOf(rest[0].resultId) in pending
    ensures Paid(rest, pending) <==> Paid(rest[1..], pending - {IdOf(rest[0].resultId)})
  {
    PayOne(rest, pending);
    var left := pending - {IdOf(rest[0].resultId)};
    assert forall i :: 0 <= i < |left| ==> rest[1..][i] == rest[i + 1];
    var mine, others := multiset(ResultIds(rest[..|pending|])), multiset(ResultIds(rest[1..][..|pending| - 1]));
    assert mine == multiset(pending) <==> others == multiset(left) by {
      assert mine - multiset{IdOf(rest[0].resultId)} == others;
      assert multiset(pending) - multiset{IdOf(rest[0].resultId)} == multiset(left);
    }
    if Paid(rest[1..], left) {
      forall i | 0 <= i < |pending| ensures rest[i].role.Tool? {
        assert i > 0 ==> rest[1..][i - 1] == rest[i];
      }
    }
  }

  lemma {:induction false} TooFew(rest: seq<Message>, pending: set<string>)
    requires |rest| < |pending|
    ensures !Continues(rest, pending)
    decreases |rest|
  {
    if rest != [] && rest[0].role.Tool? && IdOf(rest[0].resultId) in pending {
      TooFew(rest[1..], pending - {IdOf(rest[0].resultId)});
    }
  }

  lemma {:induction false} SetOfDistinct(ids: seq<string>)
    requires Distinct(ids)
    ensures |set id | id in ids| == |ids| && multiset(set id | id in ids) == multiset(ids)
  {
    if ids != [] {
      var init, last := ids[..|ids| - 1], ids[|ids| - 1];
      SetOfDistinct(init);
      assert ids == init + [last];
      assert (set id | id in ids) == (set id | id in init) + {last};
    } else {
      assert (set id | id in ids) == {};
    }
  }

  /** The blocks of the grammar are what the set of owed results accepts, when call ids are distinct. */
  lemma {:induction false} GrammarIsContinues(messages: seq<Message>, seen: set<string>)
    requires Fresh(messages, seen)
    ensures Grammar(messages) <==> Continues(messages, {})
    decreases |messages|
  {
    if messages != [] && !messages[0].role.Tool? {
      var n := |CallsOf(messages[0])|;
      ContinuesByBlock(messages);
      if n < |messages| {
        FreshLater(messages, seen, n + 1);
        GrammarIsContinues(messages[n + 1..], SeenAfter(messages, seen, n + 1));
      }
    }
  }

  /** The owed set accepts a message with its block of results, and then the rest. */
  lemma ContinuesByBlock(messages: seq<Message>)
    requires messages != [] && !messages[0].role.Tool? && Distinct(Ids(CallsOf(messages[0])))
    ensures var calls := CallsOf(messages[0]);
            var n := |calls|;
            Continues(messages, {}) <==>
              n < |messages| && Answers(calls, messages[1..n + 1]) && Continues(messages[n + 1..], {})
  {
    var calls, rest := CallsOf(messages[0]), messages[1..];
    var n := |calls|;
    SetOfDistinct(Ids(calls));
    PaidByPermutation(rest, IdSet(calls));
    if n < |messages| {
      assert rest[..n] == messages[1..n + 1] && rest[n..] == messages[n + 1..];
      PaidIsAnswered(calls, rest);
    }
  }

  lemma PaidIsAnswered(calls: seq<Call>, rest: seq<Message>)
    requires |calls| <= |rest| && Distinct(Ids(calls))
    ensures Paid(rest, IdSet(calls)) <==> Answers(calls, rest[..|calls|])
  {
    SetOfDistinct(Ids(calls));
    assert |IdSet(calls)| == |calls|;
    assert forall i :: 0 <= i < |calls| ==> rest[..|calls|][i] == rest[i];
    if Answers(calls, rest[..|calls|]) {
      assert forall i :: 0 <= i < |calls| ==> rest[i].role.Tool?;
    }
  }

  function SeenAfter(messages: seq<Message>, seen: set<string>, k: nat): set<string>
    requires k <= |messages|
    decreases k
  {
    if k == 0 then seen else SeenAfter(messages[1..], seen + IdSet(CallsOf(messages[0])), k - 1)
  }

  lemma {:induction false} FreshLater(messages: seq<Message>, seen: set<string>, k: nat)
    requires Fresh(messages, seen) && k <= |messages|
    ensures Fresh(messages[k..], SeenAfter(messages, seen, k))
    decreases k
  {
    if k == 0 {
      assert messages[0..] == messages;
    } else {
      FreshLater(messages[1..], seen + IdSet(CallsOf(messages[0])), k - 1);
      assert messages[1..][k - 1..] == messages[k..];
    }
  }

  // ---- The validator ---------------------------------------------------------------------------

  /** The calls of one assistant message: `ids` grows by theirs, which are then owed. */
  method TakeCalls(calls: seq<Call>, ids: set<string>) returns (r: Result<set<string>>)
    ensures r.Ok? <==>
              (forall i :: 0 <= i < |calls| ==> CallValid(calls[i])) && Distinct(Ids(calls)) && IdSet(calls) !! ids
    ensures r.Ok? ==> r.value == IdSet(calls)
    ensures r.Err? ==> r.code == InvalidArgument
  {
    var known, pending := ids, {};
    for i := 0 to |calls|
      invariant forall j :: 0 <= j < i ==> CallValid(calls[j])
      invariant Distinct(Ids(calls)[..i]) && pending == (set id | id in Ids(calls)[..i])
      invariant known == ids + pending && pending !! ids
    {
      var id := IdOf(calls[i].id);
      assert Ids(calls)[i] == id && Ids(calls)[..i + 1] == Ids(calls)[..i] + [id];
      assert id in IdSet(calls);
      if !CallValid(calls[i]) || id in known {
        assert id in pending ==> exists j :: 0 <= j < i && Ids(calls)[j] == id;
        return Err(InvalidArgument);
      }
      known := known + {id};
      pending := pending + {id};
    }
    assert Ids(calls)[..|calls|] == Ids(calls);
    return Ok(pending);
  }

  /** The checks of one message alone, in the validator's order. */
  method CheckShape(m: Message) returns (r: Result<()>)
    ensures r.Ok? <==> Plausible(m)
    ensures r.Err? ==> r.code == InvalidArgument || (m.content.Native? && m.content.usable == Err(r.code))
  {
    if !m.regular || m.role.Unsupported? || m.content.Malformed?
      || (m.content.Native? && !m.role.User? && !m.role.Tool?) {
      return Err(InvalidArgument);
    }
    if m.content.Native? && m.content.usable.Err? {
      return Err(m.content.usable.code);
    }
    if m.content.Native? && !m.content.usable.value {
      return Err(InvalidArgument);
    }
    if !(m.reasoning.Missing? || (m.role.Assistant? && m.reasoning.Given?))
      || !(m.name.Missing? || (m.role.Tool? && m.name.Given?)) {
      return Err(InvalidArgument);
    }
    if !(m.role.Assistant? || m.calls.NoCalls?) || !(m.role.Tool? || m.resultId.Missing?) {
      return Err(InvalidArgument);
    }
    return Ok(());
  }

  datatype Books = Books(ids: set<string>, pending: set<string>)

  /** The books after a message that may follow. */
  function Next(m: Message, b: Books): Books {
    if m.role.Tool? then b.(pending := b.pending - {IdOf(m.resultId)})
    else Books(b.ids + IdSet(CallsOf(m)), IdSet(CallsOf(m)))
  }

  ghost predicate MayFollow(m: Message, i: nat, b: Books) {
    && Shaped(m) && (m.role.System? ==> i == 0)
    && if m.role.Tool? then IdOf(m.resultId) in b.pending
       else b.pending == {} && Distinct(Ids(CallsOf(m))) && IdSet(CallsOf(m)) !! b.ids
  }

  /** One round of the validator's loop. */
  method CheckMessage(m: Message, i: nat, b: Books) returns (r: Result<Books>)
    ensures r.Ok? <==> MayFollow(m, i, b)
    ensures r.Ok? ==> r.value == Next(m, b)
    ensures r.Err? ==> r.code == InvalidArgument || (m.content.Native? && m.content.usable == Err(r.code))
  {
    var shape := CheckShape(m);
    if shape.Err? {
      return Err(shape.code);
    }
    if (m.role.System? && i != 0) || (!m.role.Tool? && b.pending != {}) {
      return Err(InvalidArgument);
    }
    if m.role.Tool? {
      var id := IdOf(m.resultId);
      if id !in b.pending || !(m.content.Words? || m.content.Native?) {
        return Err(InvalidArgument);
      }
      return Ok(b.(pending := b.pending - {id}));
    }
    if m.calls.NoCalls? {
      if !m.content.Native? && !(m.content.Words? && !m.content.blank) {
        return Err(InvalidArgument);
      }
      assert Ids(CallsOf(m)) == [];
      return Ok(Books(b.ids, {}));
    }
    if m.calls.NotArray? || m.calls.calls == [] || |m.calls.calls| > 64 {
      return Err(InvalidArgument);
    }
    var owed := TakeCalls(m.calls.calls, b.ids);
    return if owed.Err? then Err(owed.code) else Ok(Books(b.ids + owed.value, owed.value));
  }

  /** What is still to be checked from message `i` on. */
  ghost predicate RestAcceptable(messages: seq<Message>, i: nat, b: Books)
    requires i <= |messages|
  {
    && (forall j :: i <= j < |messages| ==> Shaped(messages[j]) && (messages[j].role.System? ==> j == 0))
    && Continues(messages[i..], b.pending) && Fresh(messages[i..], b.ids)
  }

  lemma RestAfter(messages: seq<Message>, i: nat, b: Books)
    requires i < |messages|
    ensures RestAcceptable(messages, i, b)
            <==> MayFollow(messages[i], i, b) && RestAcceptable(messages, i + 1, Next(messages[i], b))
  {
    var rest := messages[i..];
    assert rest[0] == messages[i] && rest[1..] == messages[i + 1..];
    if messages[i].role.Tool? && Shaped(messages[i]) {
      ToolsHaveNoCalls(messages[i], b);
    }
  }

  lemma ToolsHaveNoCalls(m: Message, b: Books)
    requires m.role.Tool? && Shaped(m)
    ensures IdSet(CallsOf(m)) == {} && b.ids + IdSet(CallsOf(m)) == b.ids && Distinct(Ids(CallsOf(m)))
  {
    assert Ids(CallsOf(m)) == [];
  }

  /** The whole list is acceptable exactly when the validator's sets never object. */
  lemma AcceptableIsRest(messages: seq<Message>)
    requires messages != []
    ensures Acceptable(messages) <==>
            RestAcceptable(messages, 0, Books({}, {}))
              && (messages[|messages| - 1].role.User? || messages[|messages| - 1].role.Tool?)
  {
    assert messages[0..] == messages;
    FreshIsDistinct(messages, {});
    if Fresh(messages, {}) {
      GrammarIsContinues(messages, {});
    }
  }

  method CheckMessages(messages: seq<Message>) returns (r: Result<()>)
    requires messages != []
    ensures r.Ok? <==> Acceptable(messages)
    ensures r.Err? ==>
              || r.code == InvalidArgument
              || exists m :: m in messages && m.content.Native? && m.content.usable == Err(r.code)
  {
    AcceptableIsRest(messages);
    var b := Books({}, {});
    for i := 0 to |messages|
      invariant RestAcceptable(messages, 0, Books({}, {})) <==> RestAcceptable(messages, i, b)
    {
      RestAfter(messages, i, b);
      var next := CheckMessage(messages[i], i, b);
      if next.Err? {
        assert messages[i] in messages;
        return Err(next.code);
      }
      b := next.value;
    }
    var last := messages[|messages| - 1].role;
    return if b.pending == {} && (last.User? || last.Tool?) then Ok(()) else Err(InvalidArgument);
  }

  // ---- Requests --------------------------------------------------------------------------------

  predicate LimitsKept(r: Request, maxCharacters: int) {
    && |r.contextId| <= 128 && -1 <= r.keepAliveMs <= MAX_KEEP_ALIVE
    && !r.choice.UnknownChoice? && (r.choice.Required? ==> r.tools != [])
    && 1 <= |r.messages| <= 4096 && |r.tools| <= 256 && r.characters <= maxCharacters
  }

  ghost predicate ToolsValid(tools: seq<Definition>) {
    && (forall i :: 0 <= i < |tools| ==> tools[i].regular && NameValid(tools[i].name))
    && (forall i, j :: 0 <= i < j < |tools| ==> tools[i].name != tools[j].name)
  }

  ghost predicate RequestValid(r: Request, maxCharacters: int) {
    r.options.Ok? && LimitsKept(r, maxCharacters) && ToolsValid(r.tools) && Acceptable(r.messages)
  }

  function Names(tools: seq<Definition>): set<string> { set t | t in tools :: t.name }

  method CheckTools(tools: seq<Definition>) returns (ok: bool)
    ensures ok <==> ToolsValid(tools)
  {
    var names := {};
    for i := 0 to |tools|
      invariant ToolsValid(tools[..i]) && names == Names(tools[..i])
    {
      assert tools[..i + 1] == tools[..i] + [tools[i]];
      if !tools[i].regular || !NameValid(tools[i].name) || tools[i].name in names {
        assert tools[i].name in names ==> exists j :: 0 <= j < i && tools[..i][j].name == tools[i].name;
        return false;
      }
      names := names + {tools[i].name};
    }
    assert tools[..|tools|] == tools;
    return true;
  }

  method ValidateRequest(r: Request, maxCharacters: int) returns (v: Result<()>)
    ensures v.Ok? <==> RequestValid(r, maxCharacters)
  {
    if r.options.Err? {
      return r.options;
    }
    if !LimitsKept(r, maxCharacters) {
      return Err(InvalidArgument);
    }
    var tools := CheckTools(r.tools);
    if !tools {
      return Err(InvalidArgument);
    }
    v := CheckMessages(r.messages);
  }

  // ---- Replies ---------------------------------------------------------------------------------

  /** A call without an id is given a random one. */
  function Filled(c: Call, uuid: string): Call {
    if c.id.Missing? || c.id == Given("") then c.(id := Given(uuid)) else c
  }

  function AllFilled(calls: seq<Call>, uuids: seq<string>): seq<Call>
    requires |uuids| == |calls|
  {
    seq(|calls|, i requires 0 <= i < |calls| => Filled(calls[i], uuids[i]))
  }

  predicate ReplyAllowed(calls: seq<Call>, r: Request) {
    && |calls| <= 64 && (r.parallel || |calls| <= 1)
    && (r.choice.Never? ==> calls == []) && (r.choice.Required? ==> calls != [])
  }

  /** Well-formed calls of known functions, under ids new to the conversation. */
  ghost predicate ReplyValid(calls: seq<Call>, r: Request) {
    && (forall i :: 0 <= i < |calls| ==> CallValid(calls[i]) && calls[i].name in Names(r.tools))
    && NewIds(calls, AllIds(r.messages))
  }

  /** The ids are distinct, and none of those used before. */
  ghost predicate NewIds(calls: seq<Call>, used: seq<string>) {
    Distinct(Ids(calls)) && forall i :: 0 <= i < |calls| ==> IdOf(calls[i].id) !in used
  }

  method ValidateReply(calls: seq<Call>, r: Request, uuids: seq<string>) returns (v: Result<seq<Call>>)
    requires |uuids| == |calls|
    ensures v == if ReplyAllowed(calls, r) && ReplyValid(AllFilled(calls, uuids), r) then Ok(AllFilled(calls, uuids))
            else Err(ProtocolError)
  {
    if !ReplyAllowed(calls, r) {
      return Err(ProtocolError);
    }
    var ids := set id | id in AllIds(r.messages);
    var names := Names(r.tools);
    ghost var all := AllFilled(calls, uuids);
    var reply: seq<Call> := [];
    for i := 0 to |calls|
      invariant reply == all[..i]
      invariant forall j :: 0 <= j < i ==> CallValid(all[j]) && all[j].name in names
      invariant NewIds(reply, AllIds(r.messages)) && ids == set id | id in AllIds(r.messages) + Ids(reply)
    {
      var call := Filled(calls[i], uuids[i]);
      OneMoreId(r.messages, all, i);
      if !CallValid(call) || IdOf(call.id) in ids || call.name !in names {
        IdsOfPrefix(r.messages, all, i + 1);
        return Err(ProtocolError);
      }
      ids := ids + {IdOf(call.id)};
      reply := reply + [call];
    }
    assert all[..|calls|] == all;
    return Ok(reply);
  }

  lemma OneMoreId(messages: seq<Message>, all: seq<Call>, i: nat)
    requires i < |all|
    ensures var before, id := AllIds(messages) + Ids(all[..i]), IdOf(all[i].id);
            && all[..i + 1] == all[..i] + [all[i]] && AllIds(messages) + Ids(all[..i + 1]) == before + [id]
            && (NewIds(all[..i + 1], AllIds(messages)) <==> NewIds(all[..i], AllIds(messages)) && id !in before)
  {
    var mine, id := Ids(all[..i]), IdOf(all[i].id);
    assert Ids(all[..i + 1]) == mine + [id];
    assert AllIds(messages) + (mine + [id]) == (AllIds(messages) + mine) + [id];
    DistinctConcat(mine, [id]);
    assert all[..i + 1] == all[..i] + [all[i]];
  }

  lemma IdsOfPrefix(messages: seq<Message>, all: seq<Call>, k: nat)
    requires k <= |all|
    ensures NewIds(all, AllIds(messages)) ==> NewIds(all[..k], AllIds(messages))
  {
    assert Ids(all) == Ids(all[..k]) + Ids(all[k..]);
    DistinctConcat(Ids(all[..k]), Ids(all[k..]));
  }

  // ---- The next request ------------------------------------------------------------------------

  lemma {:induction false} AllIdsConcat(a: seq<Message>, b: seq<Message>)
    ensures AllIds(a + b) == AllIds(a) + AllIds(b)
  {
    if a == [] {
      assert a + b == b;
    } else {
      assert (a + b)[1..] == a[1..] + b;
      AllIdsConcat(a[1..], b);
    }
  }

  lemma {:induction false} ResultsHaveNoCalls(results: seq<Message>)
    requires forall i :: 0 <= i < |results| ==> Shaped(results[i]) && results[i].role.Tool?
    ensures AllIds(results) == []
  {
    if results != [] {
      ResultsHaveNoCalls(results[1..]);
      assert CallsOf(results[0]) == [];
    }
  }

  lemma {:induction false} GrammarConcat(a: seq<Message>, b: seq<Message>)
    requires Grammar(a) && Grammar(b)
    ensures Grammar(a + b)
    decreases |a|
  {
    if a == [] {
      assert a + b == b;
    } else {
      var n := |CallsOf(a[0])|;
      GrammarConcat(a[n + 1..], b);
      GrammarBlock(a[0], a[1..n + 1], a[n + 1..] + b);
      BlockFirst(a, n, b);
    }
  }

  lemma BlockFirst(a: seq<Message>, n: nat, b: seq<Message>)
    requires n < |a|
    ensures a + b == [a[0]] + a[1..n + 1] + (a[n + 1..] + b)
  {
    assert a == [a[0]] + a[1..n + 1] + a[n + 1..];
  }

  lemma GrammarBlock(m: Message, results: seq<Message>, rest: seq<Message>)
    requires !m.role.Tool? && |results| == |CallsOf(m)| && Answers(CallsOf(m), results) && Grammar(rest)
    ensures Grammar([m] + results + rest)
  {
    var all, n := [m] + results + rest, |results|;
    assert all[0] == m && all[1..n + 1] == results && all[n + 1..] == rest;
  }

  /** The assistant message that carries a reply's calls. */
  predicate Carries(m: Message, calls: seq<Call>) {
    Plausible(m) && m.role.Assistant? && m.calls == CallList(calls)
  }

  /**
   * A valid request, answered by a validated reply with calls, and one result for each call in any
   * order, make a valid request again, as long as the size limits are kept.
   */
  lemma NextRequestIsValid(r: Request, calls: seq<Call>, reply: Message, results: seq<Message>, characters: int,
    maxCharacters: int)
    requires RequestValid(r, maxCharacters)
    requires calls != [] && ReplyAllowed(calls, r) && ReplyValid(calls, r) && Carries(reply, calls)
    requires Answers(calls, results) && forall i :: 0 <= i < |results| ==> Shaped(results[i])
    requires |results| == |calls| && |r.messages| + 1 + |results| <= 4096 && characters <= maxCharacters
    ensures RequestValid(r.(messages := r.messages + [reply] + results, characters := characters), maxCharacters)
  {
    NewIdsAreDistinct(calls, AllIds(r.messages));
    NextMessagesAreAcceptable(r.messages, calls, reply, results);
  }

  lemma NewIdsAreDistinct(calls: seq<Call>, used: seq<string>)
    requires NewIds(calls, used) && Distinct(used)
    ensures Distinct(used + Ids(calls))
  {
    DistinctConcat(used, Ids(calls));
  }

  lemma NextMessagesAreAcceptable(messages: seq<Message>, calls: seq<Call>, reply: Message, results: seq<Message>)
    requires Acceptable(messages) && calls != [] && |calls| <= 64 && Carries(reply, calls)
    requires (forall i :: 0 <= i < |calls| ==> CallValid(calls[i])) && Distinct(AllIds(messages) + Ids(calls))
    requires |results| == |calls| && Answers(calls, results) && forall i :: 0 <= i < |results| ==> Shaped(results[i])
    ensures Acceptable(messages + [reply] + results)
  {
    var block := [reply] + results;
    assert messages + [reply] + results == messages + block;
    BlockIsGrammar(calls, reply, results);
    GrammarConcat(messages, block);
    BlockIds(calls, reply, results);
    AllIdsConcat(messages, block);
    BlockIsShaped(messages, calls, reply, results);
  }

  lemma BlockIsGrammar(calls: seq<Call>, reply: Message, results: seq<Message>)
    requires Carries(reply, calls) && |results| == |calls| && Answers(calls, results)
    ensures Grammar([reply] + results)
  {
    GrammarBlock(reply, results, []);
    assert [reply] + results + [] == [reply] + results;
  }

  lemma BlockIds(calls: seq<Call>, reply: Message, results: seq<Message>)
    requires Carries(reply, calls) && forall i :: 0 <= i < |results| ==> Shaped(results[i]) && results[i].role.Tool?
    ensures AllIds([reply] + results) == Ids(calls)
  {
    ResultsHaveNoCalls(results);
    AllIdsHead(reply, results);
    assert Ids(calls) + [] == Ids(calls);
  }

  lemma AllIdsHead(m: Message, rest: seq<Message>)
    ensures AllIds([m] + rest) == Ids(CallsOf(m)) + AllIds(rest)
  {
    assert ([m] + rest)[1..] == rest;
  }

  /** Appending the block keeps the shapes, leaves the system message first, and ends in a result. */
  lemma BlockIsShaped(messages: seq<Message>, calls: seq<Call>, reply: Message, results: seq<Message>)
    requires messages != [] && calls != [] && |calls| <= 64 && Carries(reply, calls) && |results| == |calls|
    requires forall i :: 0 <= i < |calls| ==> CallValid(calls[i])
    requires forall i :: 0 <= i < |messages| ==> Shaped(messages[i]) && (messages[i].role.System? ==> i == 0)
    requires forall i :: 0 <= i < |results| ==> Shaped(results[i]) && results[i].role.Tool?
    ensures var next := messages + ([reply] + results);
            && (forall i :: 0 <= i < |next| ==> Shaped(next[i]) && (next[i].role.System? ==> i == 0))
            && next[|next| - 1].role.Tool?
  {
    assert Shaped(reply);
  }
}
