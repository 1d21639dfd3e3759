/**
 * The service: serial jobs over the model manager, the sessions and the context cache. Between two
 * jobs no model is leased, the books are in step, and every cached context has a living owner.
 */
module Services {
  import opened Common
  import opened Texts
  import opened StopFilters
  import M = ModelManagers
  import R = Residency
  import C = ContextCache
  import S = Sessions
  import opened MemoryEstimates
  import opened DevicePolicy
  import opened MapSums
  import Runtimes

  // ---- Who owns a cached context ---------------------------------------------------------------

  const CONVERSATION: string := "conversation:"

  /** Length of a SHA-256 digest in hexadecimal. */
  const DIGEST: nat := 64

  predicate IsDigest(digest: string) { |digest| == DIGEST }

  /** The cache key of a structured conversation; the digest is that of its context id. */
  function ConversationKey(model: string, digest: string): string { CONVERSATION + model + ":" + digest }

  predicate IsConversationKey(key: string, model: string) {
    && |key| == |CONVERSATION| + |model| + 1 + DIGEST
    && key[..|key| - DIGEST] == CONVERSATION + model + ":"
  }

  /** A conversation's key determines its model and its digest, and is no session's key. */
  lemma ConversationKeysAreDistinct(a: string, x: string, b: string, y: string)
    requires IsDigest(x) && IsDigest(y) && ConversationKey(a, x) == ConversationKey(b, y)
    ensures a == b && x == y
    ensures IsConversationKey(ConversationKey(a, x), a) && !S.IsUuid(ConversationKey(a, x))
  {
    var k := ConversationKey(a, x);
    assert k[|k| - DIGEST..] == x && ConversationKey(b, y)[|k| - DIGEST..] == y;
    assert k[|CONVERSATION|..|k| - DIGEST - 1] == a && ConversationKey(b, y)[|CONVERSATION|..|k| - DIGEST - 1] == b;
    assert k[..|k| - DIGEST] == CONVERSATION + a + ":";
  }

  /** A context belongs to an open session on its model, or to a conversation with its model. */
  predicate Owned(key: string, model: string, sessions: map<string, S.Session>) {
    (key in sessions && sessions[key].modelId == model) || IsConversationKey(key, model)
  }

  ghost predicate AllOwned(contexts: map<string, C.Entry>, sessions: map<string, S.Session>) {
    forall k {:trigger Owned(k, contexts[k].modelId, sessions)} :: k in contexts ==>
      Owned(k, contexts[k].modelId, sessions)
  }

  lemma OwnedSubmap(part: map<string, C.Entry>, all: map<string, C.Entry>, sessions: map<string, S.Session>)
    requires AllOwned(all, sessions)
    requires forall k :: k in part ==> k in all && part[k].modelId == all[k].modelId
    ensures AllOwned(part, sessions)
  {
    forall k | k in part ensures Owned(k, part[k].modelId, sessions) {
      assert Owned(k, all[k].modelId, sessions);
    }
  }

  /** Sessions may change, as long as those with a context keep their model. */
  lemma OwnedElsewhere(contexts: map<string, C.Entry>, was: map<string, S.Session>, now: map<string, S.Session>)
    requires AllOwned(contexts, was)
    requires forall k :: k in contexts && k in was ==> k in now && now[k].modelId == was[k].modelId
    ensures AllOwned(contexts, now)
  {
    forall k | k in contexts ensures Owned(k, contexts[k].modelId, now) {
      assert Owned(k, contexts[k].modelId, was);
    }
  }

  /** The owner of a key determines the model of its context. */
  lemma OwnerNamesModel(key: string, model: string, other: string, sessions: map<string, S.Session>)
    requires Owned(key, model, sessions) && Owned(key, other, sessions)
    requires forall k :: k in sessions ==> S.IsUuid(k)
    ensures model == other
  {
    if IsConversationKey(key, model) {
      KeyNamesModel(key, model);
      KeyNamesModel(key, other);
    }
  }

  lemma KeyNamesModel(key: string, model: string)
    requires IsConversationKey(key, model)
    ensures model == key[|CONVERSATION|..|key| - DIGEST - 1]
  {
    var front := key[..|key| - DIGEST];
    assert front == CONVERSATION + (model + ":");
    assert front[|CONVERSATION|..] == model + ":";
    assert model == front[|CONVERSATION|..][..|model|];
  }

  // ---- Leases and memories ---------------------------------------------------------------------

  /** Only `leased` is in use, once. */
  ghost predicate Balanced(entries: map<string, R.Entry>, leased: Option<string>) {
    forall k {:trigger LeasesOf(entries, k)} :: k in entries ==>
      LeasesOf(entries, k) == if leased == Some(k) then 1 else 0
  }

  function LeasesOf(entries: map<string, R.Entry>, id: string): int
    requires id in entries
  {
    entries[id].active
  }

  /** Nothing is forgotten, and only the lifetime of `id` may have changed, to the one asked for. */
  ghost predicate Recalls(was: map<string, M.Remembered>, now: map<string, M.Remembered>,
                          id: Option<string>, keepAliveMs: int)
  {
    forall k {:trigger Recalled(was, now, k)} :: k in was ==>
      Recalled(was, now, k) && (now[k] == was[k] || (id == Some(k) && now[k] == M.WithLifetime(was[k], keepAliveMs)))
  }

  predicate Recalled(was: map<string, M.Remembered>, now: map<string, M.Remembered>, id: string) {
    id in was && id in now && now[id].contextTokens == was[id].contextTokens && now[id].options == was[id].options
  }

  lemma TakeKeeps(was: M.Books, now: M.Books, id: string, keepAliveMs: int, sessions: map<string, S.Session>,
    limits: M.Limits)
    requires M.Coherent(now, limits) && M.Used(was, now, id, keepAliveMs)
    requires id in now.entries && now.entries[id].active == 1
    requires Balanced(was.entries, None) && AllOwned(was.contexts, sessions)
    ensures Balanced(now.entries, Some(id)) && AllOwned(now.contexts, sessions)
    ensures Recalls(was.remembered, now.remembered, Some(id), keepAliveMs)
  {
    forall k | k in now.entries && k != id ensures LeasesOf(now.entries, k) == 0 {
      assert M.SameRecords(was, now, k);
      assert LeasesOf(was.entries, k) == 0;
    }
    OwnedSubmap(now.contexts, was.contexts, sessions);
    forall k | k in was.remembered && k != id ensures now.remembered[k] == was.remembered[k] {
      assert M.SameMemo(was, now, k);
    }
  }

  lemma NarrowKeeps(was: M.Books, now: M.Books, leased: Option<string>, sessions: map<string, S.Session>)
    requires now == M.Narrow(was, now.loaded.Keys)
    requires Balanced(was.entries, leased) && AllOwned(was.contexts, sessions)
    ensures Balanced(now.entries, leased) && AllOwned(now.contexts, sessions) && now.remembered == was.remembered
  {
    NarrowedKeeps(was, now.loaded.Keys, leased, sessions);
  }

  lemma NarrowedKeeps(was: M.Books, keep: set<string>, leased: Option<string>, sessions: map<string, S.Session>)
    requires Balanced(was.entries, leased) && AllOwned(was.contexts, sessions)
    ensures var now := M.Narrow(was, keep);
            Balanced(now.entries, leased) && AllOwned(now.contexts, sessions) && now.remembered == was.remembered
  {
    var now := M.Narrow(was, keep);
    forall k | k in now.entries ensures LeasesOf(now.entries, k) == LeasesOf(was.entries, k) {
    }
    OwnedSubmap(now.contexts, was.contexts, sessions);
  }

  lemma ReturnKeeps(was: M.Books, id: string, e: R.Entry)
    requires Balanced(was.entries, Some(id)) && id in was.entries && e.active == was.entries[id].active - 1
    ensures Balanced(M.WithLease(was, id, e).entries, None)
  {
    var now := M.WithLease(was, id, e);
    forall k | k in now.entries ensures LeasesOf(now.entries, k) == 0 {
      assert LeasesOf(was.entries, k) == if k == id then 1 else 0;
    }
  }

  /** What loading `id` on request does to what is remembered: a plain request keeps its configuration. */
  ghost predicate LoadRecalls(was: map<string, M.Remembered>, now: map<string, M.Remembered>, id: string,
    request: M.LoadRequest) {
    forall k {:trigger Recalled(was, now, k)} :: k in was ==>
      && k in now && (k != id ==> now[k] == was[k])
      && (Plain(request) ==> Recalled(was, now, k) && now[k] in {was[k], M.WithLifetime(was[k], request.keepAliveMs)})
  }

  predicate Plain(request: M.LoadRequest) { request.contextTokens == 0 && request.options == map[] }

  lemma RenewKeeps(was: M.Books, id: string, e: R.Entry, request: M.LoadRequest, limits: M.Limits)
    requires M.Coherent(was, limits) && id in was.loaded && Balanced(was.entries, None)
    requires e.active == was.entries[id].active
    requires e.keepAliveMs == if request.keepAliveMs < 0 then was.entries[id].keepAliveMs else request.keepAliveMs
    ensures Balanced(M.WithEntry(was, id, e).entries, None)
    ensures LoadRecalls(was.remembered, M.WithEntry(was, id, e).remembered, id, request)
  {
    assert M.Record(was, id, limits);
    var now := M.WithEntry(was, id, e);
    forall k | k in now.entries ensures LeasesOf(now.entries, k) == 0 {
      assert LeasesOf(was.entries, k) == 0;
    }
  }

  lemma AdmitKeeps(was: M.Books, mid: M.Books, id: string, model: Runtimes.LoadedModel, e: R.Entry, info: M.ModelInfo,
                   request: M.LoadRequest, limits: M.Limits)
    requires Balanced(mid.entries, None) && e.active == 0 && mid.remembered == was.remembered
    requires Plain(request) && id in was.remembered ==>
               && info.contextTokens == was.remembered[id].contextTokens && info.options == was.remembered[id].options
               && e.keepAliveMs == M.WithLifetime(was.remembered[id], request.keepAliveMs).keepAliveMs
    ensures Balanced(M.Admit(mid, id, model, e, info).entries, None)
    ensures LoadRecalls(was.remembered, M.Admit(mid, id, model, e, info).remembered, id, request)
  {
    var now := M.Admit(mid, id, model, e, info);
    forall k | k in now.entries ensures LeasesOf(now.entries, k) == 0 {
      assert k != id ==> LeasesOf(mid.entries, k) == 0;
    }
  }

  // ---- Requests and their results --------------------------------------------------------------

  datatype Finish = Stop | Length | CancelledFinish | ErrorFinish

  datatype Chat = Chat(sessionId: string, prompt: Text, options: S.Options, keepAliveMs: int)

  datatype Completion = Completion(messages: S.History, options: S.Options, keepAliveMs: int)

  /** The prompt size of a conversation and the context size of the model it was measured for. */
  datatype Budget = Budget(inputTokens: int, contextTokens: int)

  datatype GenerationResult = GenerationResult(text: Text, finish: Finish, code: Option<ErrorCode>, calls: seq<string>)

  datatype Generated = Generated(finish: Finish, generatedTokens: int, cachedTokens: int)

  /** What the outside answers during one request: catalog, runtime, tokenizer, model output and clock. */
  datatype World = World(target: Result<string>, catalog: Result<()>, answers: M.Answers, tokenize: S.Tokenizer,
    created: Result<int>,
                         chunks: seq<Text>, ended: Result<Generated>, arrival: int, departure: int)

  /** A successful turn: the prompt that was fitted, and the reply shown for it. */
  datatype Turn = Turn(prepared: S.Prepared, contextTokens: int, text: Text, finish: Finish)

  /**
   * The turn answers the prompt: the fitted history was generated from, and the reply is what the
   * stop strings let through.
   */
  ghost predicate Replies(history: S.History, chat: Chat, turn: Turn, world: World) {
    && S.ValidOptions(chat.options, turn.contextTokens)
    && S.Fits(history + [S.Message(S.User, chat.prompt)], turn.contextTokens - chat.options.maxTokens, world.tokenize,
      turn.prepared)
    && turn.text == Visible(chat.options.stop, [], world.chunks)
  }

  /** The session afterwards: the fitted history, the prompt and the reply, nothing else. */
  ghost predicate Commits(was: map<string, S.Session>, now: map<string, S.Session>, chat: Chat, turn: Turn,
    world: World) {
    && chat.sessionId in was && Replies(was[chat.sessionId].messages, chat, turn, world)
    && now == was[chat.sessionId := S.Session(was[chat.sessionId].modelId,
      turn.prepared.messages + [S.Message(S.Assistant, turn.text)])]
  }

  /** Sessions are the same and keep their models. */
  ghost predicate SameModels(was: map<string, S.Session>, now: map<string, S.Session>) {
    now.Keys == was.Keys && forall s {:trigger ModelOf(now, s)} :: s in now ==> ModelOf(was, s) == ModelOf(now, s)
  }

  lemma CommitsKeepModels(was: map<string, S.Session>, now: map<string, S.Session>, chat: Chat,
    turn: Result<Turn>, world: World)
    requires if turn.Ok? then Commits(was, now, chat, turn.value, world) else now == was
    ensures SameModels(was, now)
  {
  }

  /** The model's output contains a stop string, so that its memory runs past what was shown. */
  ghost predicate Stops(chat: Chat, world: World) { !NoMatch(chat.options.stop, Flatten(world.chunks)) }

  lemma PlacedTwice(was: map<string, S.Session>, uuid: string, first: S.Session, second: S.Session)
    requires uuid !in was
    ensures was[uuid := first][uuid := second] == was[uuid := second] && was[uuid := second] - {uuid} == was
  {
  }

  lemma CommitsElsewhere(was: map<string, S.Session>, now: map<string, S.Session>, chat: Chat, turn: Turn, world: World)
    requires Commits(was, now, chat, turn, world)
    ensures chat.sessionId in now && now - {chat.sessionId} == was - {chat.sessionId}
  {
  }

  datatype Conversation = Conversation(contextId: string, maxTokens: int, stop: seq<Text>, keepAliveMs: int)

  datatype Prompt = Prompt(tokens: int, stop: seq<Text>)

  datatype Reply = Reply(text: Text, calls: seq<string>)

  /** What the outside answers to a structured conversation: `parse` is parser and reply validator in one. */
  datatype Exchange = Exchange(valid: Result<()>, digest: string, prompt: Result<Prompt>, parse: Text -> Result<Reply>)

  // ---- Jobs and what they leave remembered -----------------------------------------------------

  datatype Job =
    | ChatJob(chat: Chat, world: World)
    | CompletionJob(completion: Completion, world: World)
    | ConversationJob(request: Conversation, world: World, exchange: Exchange)
    | EmbeddingJob(world: World, valid: Result<()>, supported: bool, embedding: Result<seq<real>>)
    | MeasureJob(world: World, valid: Result<()>, tokens: Result<int>, keepAliveMs: int)
    | LoadJob(target: Result<string>, load: M.LoadRequest, answers: M.Answers, now: int)
    | UnloadJob(target: Result<string>)
    | RemoveJob(target: Result<string>, removed: Result<()>)
    | CreateJob(target: Result<string>, system: Text)
    | ResetJob(id: string)
    | CloseJob(id: string)

  /** A digest has the length of a digest. */
  predicate Meaningful(job: Job) { job.ConversationJob? ==> IsDigest(job.exchange.digest) }

  /** The lifetime a job asks for; negative if it leaves it to what is remembered. */
  function LifetimeOf(job: Job): int {
    match job
    case ChatJob(chat, _) => chat.keepAliveMs
    case CompletionJob(completion, _) => completion.keepAliveMs
    case ConversationJob(request, _, _) => request.keepAliveMs
    case MeasureJob(_, _, _, keepAliveMs) => keepAliveMs
    case LoadJob(_, load, _, _) => load.keepAliveMs
    case _ => -1
  }

  /** The jobs that may change the configuration remembered for a model. */
  predicate Reconfigures(job: Job, id: string) {
    || (job.RemoveJob? && job.target == Ok(id))
    || (job.LoadJob? && job.target == Ok(id) && !Plain(job.load))
  }

  /** The model a job works on, given the sessions that are open when it starts. */
  function Addressed(job: Job, sessions: map<string, S.Session>): Option<string> {
    match job
    case ChatJob(chat, _) => ModelOf(sessions, chat.sessionId)
    case CompletionJob(_, world) => TargetOf(world.target)
    case ConversationJob(_, world, _) => TargetOf(world.target)
    case EmbeddingJob(world, _, _, _) => TargetOf(world.target)
    case MeasureJob(world, _, _, _) => TargetOf(world.target)
    case LoadJob(target, _, _, _) => TargetOf(target)
    case _ => None
  }

  /** The job asks for a lifetime of the addressed model. */
  predicate Relives(job: Job, addressed: Option<string>, id: string) { LifetimeOf(job) >= 0 && addressed == Some(id) }

  /** What a job leaves remembered of every model it does not reconfigure. */
  ghost predicate Retains(was: map<string, M.Remembered>, now: map<string, M.Remembered>, job: Job,
    addressed: Option<string>) {
    forall k {:trigger Recalled(was, now, k)} :: k in was && !Reconfigures(job, k) ==>
      Recalled(was, now, k) && (!Relives(job, addressed, k) ==> now[k] == was[k])
  }

  lemma RecallsRetains(was: map<string, M.Remembered>, now: map<string, M.Remembered>, job: Job,
    addressed: Option<string>)
    requires Recalls(was, now, addressed, LifetimeOf(job))
    ensures Retains(was, now, job, addressed)
  {
    forall k | k in was ensures Recalled(was, now, k) && (!Relives(job, addressed, k) ==> now[k] == was[k]) {
      assert Recalled(was, now, k);
    }
  }

  lemma LoadRetains(was: map<string, M.Remembered>, now: map<string, M.Remembered>, job: Job)
    requires job.LoadJob? && job.target.Ok? && LoadRecalls(was, now, job.target.value, job.load)
    ensures Retains(was, now, job, Some(job.target.value))
  {
    forall k | k in was && !Reconfigures(job, k)
      ensures Recalled(was, now, k) && (!Relives(job, Some(job.target.value), k) ==> now[k] == was[k])
    {
      assert Plain(job.load) ==> Recalled(was, now, k);
    }
  }

  // ---- Which model a session belongs to, over a whole run ----------------------------------------

  /** A session open at the start, or created by a job of the run, is for this model. */
  ghost predicate Owns(open: map<string, S.Session>, jobs: seq<Job>, uuids: seq<string>, session: string, model: string)
    requires |uuids| == |jobs|
  {
    ModelOf(open, session) == Some(model) || exists i :: 0 <= i < |jobs| && Creates(jobs[i], uuids[i], session, model)
  }

  predicate Creates(job: Job, uuid: string, session: string, model: string) {
    job.CreateJob? && uuid == session && job.target == Ok(model)
  }

  /** After a job every session is an old one on its old model, or the one the job created. */
  ghost predicate Heirs(was: map<string, S.Session>, now: map<string, S.Session>, job: Job, uuid: string) {
    forall s {:trigger ModelOf(now, s)} :: s in now ==>
      ModelOf(was, s) == ModelOf(now, s) || Creates(job, uuid, s, now[s].modelId)
  }

  ghost predicate AllOwn(open: map<string, S.Session>, jobs: seq<Job>, uuids: seq<string>, now: map<string, S.Session>)
    requires |uuids| == |jobs|
  {
    forall s {:trigger ModelOf(now, s)} :: s in now ==> Owns(open, jobs, uuids, s, now[s].modelId)
  }

  lemma OpenOwn(open: map<string, S.Session>, jobs: seq<Job>, uuids: seq<string>)
    requires |uuids| == |jobs|
    ensures AllOwn(open, jobs, uuids, open)
  {
    forall s | s in open ensures Owns(open, jobs, uuids, s, open[s].modelId) {
      assert ModelOf(open, s) == Some(open[s].modelId);
    }
  }

  lemma HeirsOwn(open: map<string, S.Session>, jobs: seq<Job>, uuids: seq<string>, i: nat,
                 was: map<string, S.Session>, now: map<string, S.Session>)
    requires |uuids| == |jobs| && i < |jobs| && AllOwn(open, jobs, uuids, was) && Heirs(was, now, jobs[i], uuids[i])
    ensures AllOwn(open, jobs, uuids, now)
  {
    forall s | s in now ensures Owns(open, jobs, uuids, s, now[s].modelId) {
      assert ModelOf(now, s) == Some(now[s].modelId);
      if ModelOf(was, s) == ModelOf(now, s) {
        assert Owns(open, jobs, uuids, s, was[s].modelId);
      }
    }
  }

  /** Sessions opened by the first `i` jobs have identifiers drawn for them. */
  ghost predicate Drawn(open: map<string, S.Session>, now: map<string, S.Session>, uuids: seq<string>, i: nat)
    requires i <= |uuids|
  {
    forall id :: id in now && id !in open ==> id in uuids[..i]
  }

  ghost predicate Fresh(open: map<string, S.Session>, uuids: seq<string>) {
    && (forall i :: 0 <= i < |uuids| ==> uuids[i] !in open)
    && (forall i, j :: 0 <= i < j < |uuids| ==> uuids[i] != uuids[j])
  }

  lemma NextIsFresh(open: map<string, S.Session>, now: map<string, S.Session>, uuids: seq<string>, i: nat)
    requires i < |uuids| && Fresh(open, uuids) && Drawn(open, now, uuids, i)
    ensures uuids[i] !in now
  {
    assert forall k :: 0 <= k < i ==> uuids[..i][k] == uuids[k] != uuids[i];
  }

  lemma NewSessionsAreDrawn(open: map<string, S.Session>, was: map<string, S.Session>, now: map<string, S.Session>,
                            jobs: seq<Job>, uuids: seq<string>, i: nat)
    requires |uuids| == |jobs| && i < |jobs| && Heirs(was, now, jobs[i], uuids[i]) && Drawn(open, was, uuids, i)
    ensures Drawn(open, now, uuids, i + 1)
  {
    assert uuids[..i + 1] == uuids[..i] + [uuids[i]];
    forall id | id in now ensures id in was || id == uuids[i] {
      assert ModelOf(now, id) == Some(now[id].modelId);
    }
  }

  /** The job works on this model, or on a session for it. */
  ghost predicate Addresses(open: map<string, S.Session>, jobs: seq<Job>, uuids: seq<string>, job: Job, id: string)
    requires |uuids| == |jobs|
  {
    if job.ChatJob? then Owns(open, jobs, uuids, job.chat.sessionId, id) else Addressed(job, map[]) == Some(id)
  }

  lemma AddressedAddresses(open: map<string, S.Session>, jobs: seq<Job>, uuids: seq<string>, job: Job,
                           now: map<string, S.Session>, id: string)
    requires |uuids| == |jobs| && AllOwn(open, jobs, uuids, now) && Addressed(job, now) == Some(id)
    ensures Addresses(open, jobs, uuids, job, id)
  {
  }

  /** One of the first n jobs reconfigures the model. */
  predicate ReconfiguredBy(jobs: seq<Job>, n: nat, id: string)
    requires n <= |jobs|
  {
    exists i :: 0 <= i < n && Reconfigures(jobs[i], id)
  }

  /** One of the first n jobs addresses the model and asks for a lifetime. */
  ghost predicate RelivedBy(open: map<string, S.Session>, jobs: seq<Job>, uuids: seq<string>, n: nat, id: string)
    requires |uuids| == |jobs| && n <= |jobs|
  {
    exists i :: 0 <= i < n && LifetimeOf(jobs[i]) >= 0 && Addresses(open, jobs, uuids, jobs[i], id)
  }

  predicate Reconfigured(jobs: seq<Job>, id: string) { ReconfiguredBy(jobs, |jobs|, id) }

  ghost predicate Relived(open: map<string, S.Session>, jobs: seq<Job>, uuids: seq<string>, id: string)
    requires |uuids| == |jobs|
  {
    RelivedBy(open, jobs, uuids, |jobs|, id)
  }

  /** What the first n jobs of a run leave remembered of one model. */
  ghost predicate Spared(was: map<string, M.Remembered>, now: map<string, M.Remembered>,
                         open: map<string, S.Session>, jobs: seq<Job>, uuids: seq<string>, n: nat, id: string)
    requires |uuids| == |jobs| && n <= |jobs| && id in was
  {
    !ReconfiguredBy(jobs, n, id) ==>
      Recalled(was, now, id) && (!RelivedBy(open, jobs, uuids, n, id) ==> now[id] == was[id])
  }

  ghost predicate RetainsAll(was: map<string, M.Remembered>, now: map<string, M.Remembered>,
                             open: map<string, S.Session>, jobs: seq<Job>, uuids: seq<string>, n: nat)
    requires |uuids| == |jobs| && n <= |jobs|
  {
    forall k {:trigger Spared(was, now, open, jobs, uuids, n, k)} :: k in was ==>
      Spared(was, now, open, jobs, uuids, n, k)
  }

  lemma RetainsNext(was: map<string, M.Remembered>, mid: map<string, M.Remembered>, now: map<string, M.Remembered>,
                    open: map<string, S.Session>, jobs: seq<Job>, uuids: seq<string>, i: nat,
                    sessions: map<string, S.Session>)
    requires |uuids| == |jobs| && i < |jobs| && RetainsAll(was, mid, open, jobs, uuids, i)
    requires AllOwn(open, jobs, uuids, sessions) && Retains(mid, now, jobs[i], Addressed(jobs[i], sessions))
    ensures RetainsAll(was, now, open, jobs, uuids, i + 1)
  {
    forall k | k in was ensures Spared(was, now, open, jobs, uuids, i + 1, k) {
      assert Spared(was, mid, open, jobs, uuids, i, k);
      if !ReconfiguredBy(jobs, i + 1, k) {
        assert !ReconfiguredBy(jobs, i, k) && !Reconfigures(jobs[i], k);
        assert Recalled(mid, now, k);
        if Relives(jobs[i], Addressed(jobs[i], sessions), k) {
          AddressedAddresses(open, jobs, uuids, jobs[i], sessions, k);
        }
      }
    }
  }

  datatype ServiceOptions = ServiceOptions(limits: M.Limits, maxQueued: int, maxSessions: int, maxInputCharacters: int,
                                           memoryBudgetBytes: U64, memoryReserveBytes: U64, keepAliveMs: int)

  /** The options the service accepts; int options are 32 bits wide. */
  predicate Checked(o: ServiceOptions) {
    && 1 <= o.maxQueued && 1 <= o.limits.maxModels && 1 <= o.maxSessions && 1 <= o.limits.maxContexts
    && 2 <= o.limits.maxTokens <= INT_MAX && 1 <= o.maxInputCharacters && 2 <= o.limits.defaultContext
    && -1 <= o.keepAliveMs <= MAX_KEEP_ALIVE
  }

  class Service {
    const models: M.ModelManager
    const sessions: S.SessionManager
    const inputLimit: int

    ghost predicate Valid()
      reads models, models.runtimes, models.residency, models.cache, sessions
    {
      models.Valid() && sessions.Valid() && 1 <= inputLimit && AllOwned(models.cache.entries, sessions.sessions)
    }

    ghost predicate Leases(leased: Option<string>)
      reads models.residency
    {
      Balanced(models.residency.entries, leased) && (leased.Some? ==> leased.value in models.residency.entries)
    }

    constructor (o: ServiceOptions, hardware: HardwareInfo, ram: Option<U64>)
      requires Checked(o)
      ensures Valid() && Leases(None) && models.remembered == map[] && models.cache.entries == map[]
              && sessions.sessions == map[]
      ensures inputLimit == o.maxInputCharacters && models.limits == o.limits && sessions.limit == o.maxSessions
      ensures fresh(models) && fresh(models.runtimes) && fresh(models.residency) && fresh(models.cache)
              && fresh(sessions)
    {
      var cache := new C.ContextCacheManager(o.limits.maxContexts, o.limits.maxTokens);
      models := new M.ModelManager(o.limits, hardware, o.memoryBudgetBytes, o.memoryReserveBytes, o.keepAliveMs,
        ram, cache);
      sessions := new S.SessionManager(o.maxSessions);
      inputLimit := o.maxInputCharacters;
      new;
      assert models.State().entries == map[];
    }

    method Take(id: string, keepAliveMs: int, world: World) returns (r: Result<()>)
      requires Valid() && Leases(None)
      modifies models, models.runtimes, models.residency, models.cache
      ensures Valid() && models.cache.entries.Keys <= old(models.cache.entries).Keys
      ensures r.Err? ==> Leases(None) && models.remembered == old(models.remembered)
      ensures r.Ok? ==> Leases(Some(id)) && Recalls(old(models.remembered), models.remembered, Some(id), keepAliveMs)
    {
      ghost var was := models.State();
      r := models.Acquire(id, keepAliveMs, world.answers, world.arrival);
      if r.Ok? {
        assert M.LeasesOn(was.entries, id) == 0 by {
          assert id in was.entries ==> LeasesOf(was.entries, id) == 0;
        }
        TakeKeeps(was, models.State(), id, keepAliveMs, sessions.sessions, models.limits);
      } else {
        NarrowKeeps(was, models.State(), None, sessions.sessions);
      }
    }

    method Return(id: string, now: int)
      requires Valid() && Leases(Some(id))
      modifies models, models.runtimes, models.residency, models.cache
      ensures Valid() && Leases(None) && models.remembered == old(models.remembered)
      ensures models.cache.entries == M.ContextsFor(old(models.cache.entries), models.loaded.Keys)
    {
      ghost var was := models.State();
      ghost var e := R.Released(models.residency.entries[id], models.residency.clock + 1, now);
      assert LeasesOf(was.entries, id) == 1;
      var r := models.Release(id, now);
      ReturnKeeps(was, id, e);
      NarrowedKeeps(M.WithLease(was, id, e), models.loaded.Keys, None, sessions.sessions);
    }

    method Settle(leased: Option<string>, now: int)
      requires Valid() && Leases(leased)
      modifies models, models.runtimes, models.residency, models.cache
      ensures Valid() && Leases(None) && models.remembered == old(models.remembered)
      ensures models.cache.entries.Keys <= old(models.cache.entries).Keys
    {
      if leased.Some? {
        Return(leased.value, now);
      }
    }

    method Erase(key: string)
      requires Valid()
      modifies models.cache
      ensures Valid() && models.cache.entries == old(models.cache.entries) - {key}
    {
      OwnedSubmap(models.cache.entries - {key}, models.cache.entries, sessions.sessions);
      models.Forget(key);
    }

    /** The context cached under a key, whose owner says it is the model's. */
    method Obtain(key: string, id: string, created: Result<int>) returns (r: Result<int>)
      requires Valid() && id in models.loaded && Owned(key, id, sessions.sessions)
      modifies models.cache
      ensures Valid()
      ensures r.Ok? ==> key in models.cache.entries && models.cache.entries[key].modelId == id
                        && id in models.runtimes.models
                          && models.cache.entries[key].instance == models.runtimes.models[id].handle
    {
      ghost var was := models.cache.entries;
      r := models.Context(key, id, created);
      StillOwned(was, models.cache.entries, key, id, sessions.sessions);
      assert r.Ok? ==> models.cache.entries[key].modelId == id by {
        if r.Ok? {
          KeysAreUuids();
          OwnerNamesModel(key, models.cache.entries[key].modelId, id, sessions.sessions);
        }
      }
    }

    lemma KeysAreUuids()
      requires sessions.Valid()
      ensures forall k :: k in sessions.sessions ==> S.IsUuid(k)
    {
      forall k | k in sessions.sessions ensures S.IsUuid(k) {
        assert S.Good(sessions.sessions, k);
      }
    }

    lemma StillOwned(was: map<string, C.Entry>, now: map<string, C.Entry>, key: string, id: string,
      owners: map<string, S.Session>)
      requires AllOwned(was, owners) && Owned(key, id, owners)
      requires forall k :: k in now ==>
                 (k in was && now[k].modelId == was[k].modelId) || (k == key && now[k].modelId == id)
      ensures AllOwned(now, owners)
      ensures key in now ==> Owned(key, now[key].modelId, owners)
    {
      forall k | k in now ensures Owned(k, now[k].modelId, owners) {
        if k in was {
          assert Owned(k, was[k].modelId, owners);
        }
      }
    }

    /** Prepares the prompt, generates, and commits the turn once everything succeeded. */
    method Respond(chat: Chat, id: string, world: World) returns (r: Result<Turn>, pieces: seq<Text>)
      requires Valid() && chat.sessionId in sessions.sessions
      requires id in models.loaded && sessions.sessions[chat.sessionId].modelId == id
      modifies models.cache, sessions
      ensures Valid()
      ensures r.Err? ==> sessions.sessions == old(sessions.sessions)
      ensures r.Ok? ==>
                Flatten(pieces) == r.value.text
                  && Commits(old(sessions.sessions), sessions.sessions, chat, r.value, world)
      ensures r.Ok? && Stops(chat, world) ==> chat.sessionId !in models.cache.entries
    {
      pieces := [];
      var session := sessions.sessions[chat.sessionId];
      assert S.Good(sessions.sessions, chat.sessionId);
      var context := models.loaded[id].contextTokens;
      ghost var dropped;
      var prepared: Result<S.Prepared>;
      prepared, dropped := S.Prepare(session.messages, chat.prompt, chat.options, world.catalog, context, inputLimit,
        world.tokenize);
      if prepared.Err? {
        return Err(prepared.code), pieces;
      }
      var handle := Obtain(chat.sessionId, id, world.created);
      if handle.Err? {
        return Err(handle.code), pieces;
      }
      var shown: Result<Shown>;
      shown, pieces := Stream(chat.options.stop, world, true, None);
      if shown.Err? {
        return Err(shown.code), pieces;
      }
      var turn := Turn(prepared.value, context, shown.value.text, shown.value.finish);
      S.CommitKeepsTurns(session.messages, chat.prompt, context - chat.options.maxTokens, world.tokenize,
        prepared.value, turn.text);
      Commit(chat.sessionId, prepared.value.messages + [S.Message(S.Assistant, turn.text)]);
      if shown.value.stopped {
        Erase(chat.sessionId);
      }
      return Ok(turn), pieces;
    }

    method Commit(id: string, messages: S.History)
      requires Valid() && id in sessions.sessions && S.WellFormed(messages)
      modifies sessions
      ensures Valid() && sessions.sessions == old(sessions.sessions)[id :=
              old(sessions.sessions)[id].(messages := messages)]
    {
      ghost var was := sessions.sessions;
      sessions.SetMessages(id, messages);
      OwnedElsewhere(models.cache.entries, was, sessions.sessions);
    }

    /** A request: the lease on the session's model first, then the response. */
    method Infer(chat: Chat, world: World) returns (r: Result<Turn>, leased: Option<string>, pieces: seq<Text>)
      requires Valid() && Leases(None)
      modifies models, models.runtimes, models.residency, models.cache, sessions
      ensures Valid() && Leases(leased)
      ensures Recalls(old(models.remembered), models.remembered, ModelOf(old(sessions.sessions), chat.sessionId),
              chat.keepAliveMs)
      ensures r.Err? ==> sessions.sessions == old(sessions.sessions)
      ensures r.Ok? ==>
                Flatten(pieces) == r.value.text
                  && Commits(old(sessions.sessions), sessions.sessions, chat, r.value, world)
      ensures r.Ok? && Stops(chat, world) ==> chat.sessionId !in models.cache.entries
    {
      pieces := [];
      if chat.sessionId !in sessions.sessions {
        return Err(NotFound), None, pieces;
      }
      var id := sessions.sessions[chat.sessionId].modelId;
      var taken := Take(id, chat.keepAliveMs, world);
      if taken.Err? {
        return Err(taken.code), None, pieces;
      }
      leased := Some(id);
      r, pieces := Respond(chat, id, world);
    }

    /** A failed request leaves no context behind. */
    method Attempt(chat: Chat, world: World) returns (r: Result<Turn>, leased: Option<string>, pieces: seq<Text>)
      requires Valid() && Leases(None)
      modifies models, models.runtimes, models.residency, models.cache, sessions
      ensures Valid() && Leases(leased)
      ensures Recalls(old(models.remembered), models.remembered, ModelOf(old(sessions.sessions), chat.sessionId),
              chat.keepAliveMs)
      ensures r.Err? ==> sessions.sessions == old(sessions.sessions)
      ensures r.Ok? ==>
                Flatten(pieces) == r.value.text
                  && Commits(old(sessions.sessions), sessions.sessions, chat, r.value, world)
      ensures r.Err? || Stops(chat, world) ==> chat.sessionId !in models.cache.entries
    {
      r, leased, pieces := Infer(chat, world);
      if r.Err? {
        Erase(chat.sessionId);
      }
    }

    // ---- Jobs: each starts and ends with no model leased -----------------------------------------

    /** A new session, under the random identifier drawn for it. */
    method Create(modelId: string, system: Text, uuid: string) returns (r: Result<string>)
      requires Valid() && S.IsUuid(uuid) && uuid !in sessions.sessions
      modifies sessions
      ensures Valid() && sessions.sessions - {uuid} == old(sessions.sessions)
      ensures r == if |old(sessions.sessions)| < sessions.limit then Ok(uuid) else Err(ResourceLimit)
      ensures sessions.sessions == if r.Err? then old(sessions.sessions) else
                old(sessions.sessions)[uuid :=
                  S.Session(modelId, if system == [] then [] else [S.Message(S.System, system)])]
    {
      ghost var was := sessions.sessions;
      r := sessions.Create(modelId, system, uuid);
      OwnedElsewhere(models.cache.entries, was, sessions.sessions);
    }

    /** The session of a one-shot conversation: its history without the newest message. */
    method OpenTemporary(completion: Completion, target: Result<string>, uuid: string) returns (r: Result<Chat>)
      requires Valid() && S.IsUuid(uuid) && uuid !in sessions.sessions
      modifies sessions
      ensures Valid()
      ensures r.Err? ==> sessions.sessions == old(sessions.sessions)
      ensures sessions.sessions - {uuid} == old(sessions.sessions)
      ensures r.Ok? <==> target.Ok? && S.AcceptableConversation(completion.messages, inputLimit)
                         && |old(sessions.sessions)| < sessions.limit
      ensures r.Ok? ==> var h := completion.messages;
                        && S.AcceptableConversation(h, inputLimit) && target.Ok?
                          && r.value == Temporary(completion, uuid)
                        && sessions.sessions == old(sessions.sessions)[uuid := S.Session(target.value, h[..|h| - 1])]
    {
      var checked := CheckCompletion(completion, target);
      if checked.Err? {
        return Err(checked.code);
      }
      var created := Open(target.value, checked.value, uuid);
      return if created.Err? then Err(created.code) else Ok(Temporary(completion, uuid));
    }

    method Open(modelId: string, history: S.History, uuid: string) returns (r: Result<string>)
      requires Valid() && S.IsUuid(uuid) && uuid !in sessions.sessions && S.WellFormed(history)
      modifies sessions
      ensures Valid() && sessions.sessions - {uuid} == old(sessions.sessions)
      ensures r.Ok? <==> |old(sessions.sessions)| < sessions.limit
      ensures sessions.sessions == if r.Ok? then old(sessions.sessions)[uuid := S.Session(modelId, history)]
              else old(sessions.sessions)
    {
      ghost var was := sessions.sessions;
      r := Create(modelId, [], uuid);
      if r.Err? {
        return;
      }
      Commit(uuid, history);
      PlacedTwice(was, uuid, S.Session(modelId, []), S.Session(modelId, history));
    }

    /** The catalog's answer and the form of the messages; the history is all but the newest message. */
    method CheckCompletion(completion: Completion, target: Result<string>) returns (r: Result<S.History>)
      requires 1 <= inputLimit
      ensures r.Ok? <==> target.Ok? && S.AcceptableConversation(completion.messages, inputLimit)
      ensures r.Ok? ==> S.WellFormed(r.value) && r.value == completion.messages[..|completion.messages| - 1]
      ensures r.Err? ==> r.code == if target.Err? then target.code else InvalidArgument
    {
      if target.Err? {
        return Err(target.code);
      }
      var checked := S.CheckConversation(completion.messages, inputLimit);
      if checked.Err? {
        return Err(checked.code);
      }
      S.ConversationIsTurns(completion.messages, inputLimit);
      return Ok(completion.messages[..|completion.messages| - 1]);
    }

    /** Closes the session of a one-shot conversation and drops its context. */
    method CloseTemporary(uuid: string)
      requires Valid() && uuid in sessions.sessions
      modifies models.cache, sessions
      ensures Valid() && sessions.sessions == old(sessions.sessions) - {uuid}
      ensures models.cache.entries == old(models.cache.entries) - {uuid}
    {
      Erase(uuid);
      ghost var was := sessions.sessions;
      var closed := sessions.Close(uuid);
      OwnedElsewhere(models.cache.entries, was, sessions.sessions);
    }

    /** A chat turn: committed as a whole, or the sessions are as before. `shown` is what was streamed. */
    method ChatTurn(chat: Chat, world: World)
      returns (result: GenerationResult, shown: seq<Text>, ghost turn: Result<Turn>)
      requires Valid() && Leases(None)
      modifies models, models.runtimes, models.residency, models.cache, sessions
      ensures Valid() && Leases(None)
      ensures Recalls(old(models.remembered), models.remembered, ModelOf(old(sessions.sessions), chat.sessionId),
              chat.keepAliveMs)
      ensures result == ResultOf(turn, shown)
      ensures turn.Err? ==> sessions.sessions == old(sessions.sessions)
      ensures turn.Ok? ==> Commits(old(sessions.sessions), sessions.sessions, chat, turn.value, world)
      ensures turn.Err? || Stops(chat, world) ==> chat.sessionId !in models.cache.entries
    {
      var r: Result<Turn>, leased: Option<string>;
      r, leased, shown := Err(Cancelled), None, [];
      var cancelled: bool := *;
      if cancelled {
        Erase(chat.sessionId);
      } else {
        r, leased, shown := Attempt(chat, world);
      }
      Settle(leased, world.departure);
      turn := r;
      result := ResultOf(r, shown);
    }

    /** A one-shot conversation: answered in a session of its own that is always gone afterwards. */
    method Complete(completion: Completion, world: World, uuid: string)
      returns (result: GenerationResult, shown: seq<Text>, ghost turn: Result<Turn>)
      requires Valid() && Leases(None) && S.IsUuid(uuid) && uuid !in sessions.sessions
      modifies models, models.runtimes, models.residency, models.cache, sessions
      ensures Valid() && Leases(None) && sessions.sessions == old(sessions.sessions)
      ensures Recalls(old(models.remembered), models.remembered, TargetOf(world.target), completion.keepAliveMs)
      ensures result == ResultOf(turn, shown)
      ensures turn.Ok? ==> S.AcceptableConversation(completion.messages, inputLimit)
                           && Replies(completion.messages[..|completion.messages| - 1], Temporary(completion, uuid),
                             turn.value, world)
    {
      shown := [];
      var cancelled: bool := *;
      var temporary := Err(Cancelled);
      ghost var was := sessions.sessions;
      if !cancelled {
        temporary := OpenTemporary(completion, world.target, uuid);
      }
      if temporary.Err? {
        Erase("");
        return ResultOf(Err(temporary.code), shown), shown, Err(temporary.code);
      }
      result, shown, turn := AnswerOnce(temporary.value, world);
    }

    /** The rest of a one-shot conversation, once its session is open. */
    method AnswerOnce(chat: Chat, world: World)
      returns (result: GenerationResult, shown: seq<Text>, ghost turn: Result<Turn>)
      requires Valid() && Leases(None) && chat.sessionId in sessions.sessions
      modifies models, models.runtimes, models.residency, models.cache, sessions
      ensures Valid() && Leases(None) && sessions.sessions == old(sessions.sessions) - {chat.sessionId}
      ensures Recalls(old(models.remembered), models.remembered, ModelOf(old(sessions.sessions), chat.sessionId),
              chat.keepAliveMs)
      ensures result == ResultOf(turn, shown)
      ensures turn.Ok? ==> Replies(old(sessions.sessions)[chat.sessionId].messages, chat, turn.value, world)
    {
      var r, leased;
      r, leased, shown := AttemptOnce(chat, world);
      Settle(leased, world.departure);
      turn := r;
      result := ResultOf(r, shown);
    }

    method AttemptOnce(chat: Chat, world: World) returns (r: Result<Turn>, leased: Option<string>, pieces: seq<Text>)
      requires Valid() && Leases(None) && chat.sessionId in sessions.sessions
      modifies models, models.runtimes, models.residency, models.cache, sessions
      ensures Valid() && Leases(leased) && sessions.sessions == old(sessions.sessions) - {chat.sessionId}
      ensures Recalls(old(models.remembered), models.remembered, ModelOf(old(sessions.sessions), chat.sessionId),
              chat.keepAliveMs)
      ensures r.Ok? ==>
                Flatten(pieces) == r.value.text
                  && Replies(old(sessions.sessions)[chat.sessionId].messages, chat, r.value, world)
    {
      ghost var was := sessions.sessions;
      r, leased, pieces := Attempt(chat, world);
      if r.Ok? {
        CommitsElsewhere(was, sessions.sessions, chat, r.value, world);
      }
      CloseTemporary(chat.sessionId);
    }

    /** Everything live together stays within the memory budget, in every state between jobs. */
    lemma WithinBudget()
      requires Valid()
      ensures Total(M.Usages(models.State(), None), M.Itself) <= models.residency.budget
    {
      M.LiveWithinBudget(models.State(), None, models.limits, models.cache.clock, models.residency.budget,
        models.residency.clock);
    }

    /** Makes room for the embedding context of a model: with it, what is live stays within the budget. */
    method MakeRoomToEmbed(id: string)
      requires Valid() && id in models.loaded
      modifies models.cache
      ensures Valid() && Total(M.Usages(models.State(), Some(id)), M.Itself) <= models.residency.budget
    {
      ghost var was := models.cache.entries;
      models.ForgetModel(id);
      OwnedSubmap(models.cache.entries, was, sessions.sessions);
      M.LiveWithinBudget(models.State(), Some(id), models.limits, models.cache.clock, models.residency.budget,
        models.residency.clock);
    }

    /** A structured conversation. `key` is the cache key once it is known. */
    method Converse(request: Conversation, world: World, exchange: Exchange)
      returns (result: GenerationResult, key: Option<string>, ghost raw: Text)
      requires Valid() && Leases(None) && IsDigest(exchange.digest)
      modifies models, models.runtimes, models.residency, models.cache
      ensures Valid() && Leases(None)
      ensures Recalls(old(models.remembered), models.remembered, TargetOf(world.target), request.keepAliveMs)
      ensures key.Some? ==> world.target.Ok? && key.value == ConversationKey(world.target.value, exchange.digest)
      ensures key.Some? && (result.code.Some? || request.contextId == "") ==> key.value !in models.cache.entries
      ensures result.code.Some? ==> result == Failed(result.code.value, result.text)
      ensures result.code.Some? && result.text != [] ==> result.code.value == ConsumerFailure
      ensures key.Some? && result.code.None? && Passes(request, world, exchange) ==> key.value !in models.cache.entries
      ensures result.code.None? ==> key.Some? && Parsed(request, world, exchange, raw, result)
    {
      key, raw := None, [];
      var r := AdmittedTo(world, exchange.valid);
      if r.Err? {
        Erase("");
        return Failed(r.code, []), key, raw;
      }
      var id := r.value;
      var taken := Take(id, request.keepAliveMs, world);
      if taken.Err? {
        Erase("");
        return Failed(taken.code, []), key, raw;
      }
      key := Some(ConversationKey(id, exchange.digest));
      ConversationKeysAreDistinct(id, exchange.digest, id, exchange.digest);
      result, raw := Exchanged(request, id, key.value, world, exchange);
      if result.code.Some? || request.contextId == "" {
        Erase(key.value);
      }
      Return(id, world.departure);
    }

    /** The part of a structured conversation that runs under the lease. */
    method Exchanged(request: Conversation, id: string, key: string, world: World, exchange: Exchange)
      returns (result: GenerationResult, ghost raw: Text)
      requires Valid() && id in models.loaded && Owned(key, id, sessions.sessions)
      modifies models.cache
      ensures Valid()
      ensures result.code.Some? ==> result == Failed(result.code.value, result.text)
      ensures result.code.Some? && result.text != [] ==> result.code.value == ConsumerFailure
      ensures result.code.None? ==> Parsed(request, world, exchange, raw, result)
      ensures result.code.None? && Passes(request, world, exchange) ==> key !in models.cache.entries
    {
      raw := [];
      if exchange.prompt.Err? {
        return Failed(exchange.prompt.code, []), raw;
      }
      var prompt := exchange.prompt.value;
      if prompt.tokens <= 0 || prompt.tokens > models.loaded[id].contextTokens - request.maxTokens {
        return Failed(ContextOverflow, []), raw;
      }
      var handle := Obtain(key, id, world.created);
      if handle.Err? {
        return Failed(handle.code, []), raw;
      }
      var shown, pieces := Stream(request.stop + prompt.stop, world, false, Some(inputLimit));
      if shown.Err? {
        return Failed(shown.code, []), raw;
      }
      raw := shown.value.text;
      result := Turned(shown.value, exchange);
      if result.code.None? && shown.value.stopped {
        Erase(key);
      }
    }

    /**
     * The result of a complete turn. One cut off by the output limit is refused, and so is one that
     * does not parse; a listener that throws leaves the text, but never a call.
     */
    method Turned(shown: Shown, exchange: Exchange) returns (result: GenerationResult)
      ensures result.code.None? ==> !shown.finish.Length? && result.finish == shown.finish
                                    && exchange.parse(shown.text) == Ok(Reply(result.text, result.calls))
      ensures result.code.Some? ==> result == Failed(result.code.value, result.text)
      ensures result.code.Some? && result.text != [] ==> result.code.value == ConsumerFailure
    {
      if shown.finish.Length? {
        return Failed(ProtocolError, []);
      }
      var reply := exchange.parse(shown.text);
      if reply.Err? {
        return Failed(reply.code, []);
      }
      var throws: bool := *;
      if reply.value.text != [] && throws {
        return Failed(ConsumerFailure, reply.value.text);
      }
      return GenerationResult(reply.value.text, shown.finish, None, reply.value.calls);
    }

    /** An embedding: the model's cached contexts make room for the embedding context. */
    method Embed(world: World, valid: Result<()>, supported: bool, embedding: Result<seq<real>>)
      returns (r: Result<seq<real>>)
      requires Valid() && Leases(None)
      modifies models, models.runtimes, models.residency, models.cache
      ensures Valid() && Leases(None)
      ensures Recalls(old(models.remembered), models.remembered, TargetOf(world.target), -1)
      ensures r.Ok? ==> valid.Ok? && world.target.Ok? && supported && r == embedding && Admissible(r.value)
    {
      var id := AdmittedTo(world, valid);
      if id.Err? {
        return Err(id.code);
      }
      var taken := Take(id.value, -1, world);
      if taken.Err? {
        return Err(taken.code);
      }
      r := Err(RuntimeUnavailable);
      if supported {
        MakeRoomToEmbed(id.value);
        r := CheckEmbedding(embedding);
      }
      Return(id.value, world.departure);
    }

    /** The checks before the lease: cancellation, the form of the request, the catalog. */
    method AdmittedTo(world: World, valid: Result<()>) returns (r: Result<string>)
      ensures r.Ok? ==> valid.Ok? && r == world.target
    {
      var cancelled: bool := *;
      if cancelled {
        return Err(Cancelled);
      }
      return if valid.Err? then Err(valid.code) else world.target;
    }

    /** Accepts exactly an answer of admissible length that is not zero throughout. */
    method CheckEmbedding(embedding: Result<seq<real>>) returns (r: Result<seq<real>>)
      ensures r == if embedding.Err? || Admissible(embedding.value) then embedding else Err(RuntimeFailure)
    {
      if embedding.Err? {
        return embedding;
      }
      var vector := embedding.value;
      if vector == [] || |vector| > 16384 {
        return Err(RuntimeFailure);
      }
      var norm := 0.0;
      for i := 0 to |vector|
        invariant 0.0 <= norm && (norm > 0.0 <==> NonZero(vector, i))
      {
        SquareSign(vector[i]);
        norm := norm + Times(vector[i], vector[i]);
      }
      return if norm > 0.0 then embedding else Err(RuntimeFailure);
    }

    /** The exact prompt size of a structured conversation; nothing is cached for it. */
    method Measure(world: World, valid: Result<()>, tokens: Result<int>, keepAliveMs: int) returns (r: Result<Budget>)
      requires Valid() && Leases(None)
      modifies models, models.runtimes, models.residency, models.cache
      ensures Valid() && Leases(None) && models.cache.entries.Keys <= old(models.cache.entries).Keys
      ensures Recalls(old(models.remembered), models.remembered, TargetOf(world.target), keepAliveMs)
      ensures r.Ok? ==> valid.Ok? && world.target.Ok? && tokens.Ok? && world.target.value in models.remembered
                        && r.value == Budget(tokens.value, models.remembered[world.target.value].contextTokens)
    {
      var id := AdmittedTo(world, valid);
      if id.Err? {
        return Err(id.code);
      }
      var taken := Take(id.value, keepAliveMs, world);
      if taken.Err? {
        return Err(taken.code);
      }
      ResidentAsRemembered(id.value);
      var context := models.loaded[id.value].contextTokens;
      var cancelled: bool := *;
      Return(id.value, world.departure);
      if tokens.Err? {
        return Err(tokens.code);
      }
      return if cancelled then Err(Cancelled) else Ok(Budget(tokens.value, context));
    }

    method CreateSession(target: Result<string>, system: Text, uuid: string) returns (r: Result<string>)
      requires Valid() && S.IsUuid(uuid) && uuid !in sessions.sessions
      modifies sessions
      ensures Valid() && sessions.sessions - {uuid} == old(sessions.sessions)
      ensures r.Ok? ==> r.value == uuid && target.Ok? && |system| <= inputLimit && uuid in sessions.sessions
                        && sessions.sessions[uuid] ==
                          S.Session(target.value, if system == [] then [] else [S.Message(S.System, system)])
      ensures r.Ok? <==> target.Ok? && |system| <= inputLimit && |old(sessions.sessions)| < sessions.limit
      ensures r.Err? ==> sessions.sessions == old(sessions.sessions)
    {
      if target.Err? {
        return Err(target.code);
      }
      if |system| > inputLimit {
        return Err(InvalidArgument);
      }
      r := Create(target.value, system, uuid);
    }

    /** Back to the system message, and no context of what was said before. */
    method ResetSession(id: string) returns (r: Result<()>)
      requires Valid()
      modifies models.cache, sessions
      ensures Valid() && sessions.sessions.Keys == old(sessions.sessions).Keys
      ensures r == if id in old(sessions.sessions) then Ok(()) else Err(NotFound)
      ensures r.Err? ==>
                sessions.sessions == old(sessions.sessions) && models.cache.entries == old(models.cache.entries)
      ensures r.Ok? ==> models.cache.entries == old(models.cache.entries) - {id}
      ensures r.Ok? ==> var h := old(sessions.sessions)[id].messages;
                        sessions.sessions ==
                        old(sessions.sessions)[id := old(sessions.sessions)[id].(messages := h[..S.FirstTurn(h)])]
    {
      ghost var was := sessions.sessions;
      r := sessions.Reset(id);
      OwnedElsewhere(models.cache.entries, was, sessions.sessions);
      if r.Ok? {
        Erase(id);
      }
    }

    /** The session goes, and its context with it. */
    method CloseSession(id: string) returns (r: Result<()>)
      requires Valid()
      modifies models.cache, sessions
      ensures Valid() && sessions.sessions == old(sessions.sessions) - {id}
      ensures r == if id in old(sessions.sessions) then Ok(()) else Err(NotFound)
      ensures models.cache.entries == if r.Ok? then old(models.cache.entries) - {id} else old(models.cache.entries)
    {
      if id in sessions.sessions {
        CloseTemporary(id);
        return Ok(());
      }
      assert sessions.sessions - {id} == sessions.sessions;
      return Err(NotFound);
    }

    /** No context is cached for a session that is not open. */
    lemma ClosedSessionHasNoContext(id: string)
      requires Valid() && S.IsUuid(id) && id !in sessions.sessions
      ensures id !in models.cache.entries
    {
      forall k | k in models.cache.entries ensures k != id {
        assert Owned(k, models.cache.entries[k].modelId, sessions.sessions);
      }
    }

    method LoadModel(target: Result<string>, request: M.LoadRequest, answers: M.Answers, now: int)
      returns (r: Result<()>)
      requires Valid() && Leases(None)
      modifies models, models.runtimes, models.residency, models.cache
      ensures Valid() && Leases(None)
      ensures r.Err? ==> models.remembered == old(models.remembered)
      ensures r.Ok? ==> target.Ok? && target.value in models.loaded
                        && LoadRecalls(old(models.remembered), models.remembered, target.value, request)
    {
      ghost var was := models.State();
      ghost var mid, memory, readings;
      r, mid, memory, readings := models.Load(target, request, answers, now);
      NarrowKeeps(was, mid, None, sessions.sessions);
      if r.Ok? {
        var id := target.value;
        if id in was.loaded {
          RenewKeeps(was, id, models.residency.entries[id], request, models.limits);
        } else {
          assert id in was.remembered ==> M.Sane(was.remembered[id]);
          AdmitKeeps(was, mid, id, models.runtimes.models[id], models.residency.entries[id], models.loaded[id], request,
            models.limits);
        }
      }
    }

    /** Unloading needs a resident model that no session uses; its contexts go with it. */
    method UnloadModel(target: Result<string>) returns (r: Result<()>)
      requires Valid() && Leases(None)
      modifies models, models.runtimes, models.residency, models.cache
      ensures Valid() && Leases(None) && models.remembered == old(models.remembered)
      ensures r.Ok? <==> target.Ok? && !sessions.UsesModel(target.value) && target.value in old(models.loaded)
      ensures models.State() == if r.Ok? then M.Narrow(old(models.State()), old(models.loaded).Keys - {target.value})
              else old(models.State())
    {
      if target.Err? {
        return Err(target.code);
      }
      if sessions.UsesModel(target.value) {
        return Err(ModelInUse);
      }
      if target.value !in models.loaded {
        return Err(NotFound);
      }
      Discard(target.value);
      return Ok(());
    }

    method Discard(id: string)
      requires Valid() && Leases(None) && id in models.loaded
      modifies models, models.runtimes, models.residency, models.cache
      ensures Valid() && Leases(None) && models.remembered == old(models.remembered)
      ensures models.State() == M.Narrow(old(models.State()), old(models.loaded).Keys - {id})
    {
      ghost var was := models.State();
      assert LeasesOf(was.entries, id) == 0;
      var r := models.Unload(Ok(id));
      NarrowedKeeps(was, was.loaded.Keys - {id}, None, sessions.sessions);
    }

    /** Removing forgets the model; it is refused while a session uses the model or it is resident. */
    method RemoveModel(target: Result<string>, removed: Result<()>) returns (r: Result<()>)
      requires Valid() && Leases(None)
      modifies models
      ensures Valid() && Leases(None)
      ensures r.Ok? <==>
                target.Ok? && !sessions.UsesModel(target.value) && target.value !in models.loaded && removed.Ok?
      ensures models.remembered == if r.Ok? then old(models.remembered) - {target.value} else old(models.remembered)
    {
      if target.Err? {
        return Err(target.code);
      }
      if sessions.UsesModel(target.value) {
        return Err(ModelInUse);
      }
      r := models.Remove(target, removed);
    }

    method Maintain(now: int)
      requires Valid() && Leases(None)
      modifies models, models.runtimes, models.residency, models.cache
      ensures Valid() && Leases(None) && models.remembered == old(models.remembered)
              && M.Shrunk(old(models.State()), models.State())
    {
      ghost var was := models.State();
      ghost var settled, readings := models.Maintain(now);
      NarrowKeeps(was, models.State(), None, sessions.sessions);
    }

    // ---- Runs ------------------------------------------------------------------------------------

    /** One job, whatever becomes of it, and the maintenance after it. */
    method Step(job: Job, uuid: string, now: int)
      requires Valid() && Leases(None) && S.IsUuid(uuid) && uuid !in sessions.sessions && Meaningful(job)
      modifies models, models.runtimes, models.residency, models.cache, sessions
      ensures Valid() && Leases(None)
      ensures Retains(old(models.remembered), models.remembered, job, Addressed(job, old(sessions.sessions)))
      ensures Heirs(old(sessions.sessions), sessions.sessions, job, uuid)
    {
      Serve(job, uuid);
      Maintain(now);
    }

    method Serve(job: Job, uuid: string)
      requires Valid() && Leases(None) && S.IsUuid(uuid) && uuid !in sessions.sessions && Meaningful(job)
      modifies models, models.runtimes, models.residency, models.cache, sessions
      ensures Valid() && Leases(None)
      ensures Retains(old(models.remembered), models.remembered, job, Addressed(job, old(sessions.sessions)))
      ensures Heirs(old(sessions.sessions), sessions.sessions, job, uuid)
    {
      match job {
        case ChatJob(_, _) => ServeChat(job);
        case CompletionJob(_, _) => ServeCompletion(job, uuid);
        case ConversationJob(_, _, _) => ServeConversation(job);
        case EmbeddingJob(_, _, _, _) => ServeEmbedding(job);
        case MeasureJob(_, _, _, _) => ServeMeasure(job);
        case LoadJob(_, _, _, _) => ServeLoad(job);
        case UnloadJob(target) => var r := UnloadModel(target);
        case RemoveJob(_, _) => ServeRemove(job);
        case CreateJob(target, system) => var r := CreateSession(target, system, uuid);
        case ResetJob(id) => var r := ResetSession(id);
        case CloseJob(id) => var r := CloseSession(id);
      }
    }

    method ServeChat(job: Job)
      requires Valid() && Leases(None) && job.ChatJob?
      modifies models, models.runtimes, models.residency, models.cache, sessions
      ensures Valid() && Leases(None) && SameModels(old(sessions.sessions), sessions.sessions)
      ensures Retains(old(models.remembered), models.remembered, job, Addressed(job, old(sessions.sessions)))
    {
      ghost var was, before := models.remembered, sessions.sessions;
      ghost var turn;
      var result, shown;
      result, shown, turn := ChatTurn(job.chat, job.world);
      RecallsRetains(was, models.remembered, job, Addressed(job, before));
      CommitsKeepModels(before, sessions.sessions, job.chat, turn, job.world);
    }

    method ServeCompletion(job: Job, uuid: string)
      requires Valid() && Leases(None) && job.CompletionJob? && S.IsUuid(uuid) && uuid !in sessions.sessions
      modifies models, models.runtimes, models.residency, models.cache, sessions
      ensures Valid() && Leases(None) && sessions.sessions == old(sessions.sessions)
      ensures Retains(old(models.remembered), models.remembered, job, Addressed(job, old(sessions.sessions)))
    {
      ghost var was := models.remembered;
      ghost var turn;
      var result, shown;
      result, shown, turn := Complete(job.completion, job.world, uuid);
      RecallsRetains(was, models.remembered, job, TargetOf(job.world.target));
    }

    method ServeConversation(job: Job)
      requires Valid() && Leases(None) && job.ConversationJob? && Meaningful(job)
      modifies models, models.runtimes, models.residency, models.cache
      ensures Valid() && Leases(None)
      ensures Retains(old(models.remembered), models.remembered, job, Addressed(job, old(sessions.sessions)))
    {
      ghost var was := models.remembered;
      ghost var raw;
      var result, key;
      result, key, raw := Converse(job.request, job.world, job.exchange);
      RecallsRetains(was, models.remembered, job, TargetOf(job.world.target));
    }

    method ServeEmbedding(job: Job)
      requires Valid() && Leases(None) && job.EmbeddingJob?
      modifies models, models.runtimes, models.residency, models.cache
      ensures Valid() && Leases(None)
      ensures Retains(old(models.remembered), models.remembered, job, Addressed(job, old(sessions.sessions)))
    {
      ghost var was := models.remembered;
      var r := Embed(job.world, job.valid, job.supported, job.embedding);
      RecallsRetains(was, models.remembered, job, TargetOf(job.world.target));
    }

    method ServeMeasure(job: Job)
      requires Valid() && Leases(None) && job.MeasureJob?
      modifies models, models.runtimes, models.residency, models.cache
      ensures Valid() && Leases(None)
      ensures Retains(old(models.remembered), models.remembered, job, Addressed(job, old(sessions.sessions)))
    {
      ghost var was := models.remembered;
      var r := Measure(job.world, job.valid, job.tokens, job.keepAliveMs);
      RecallsRetains(was, models.remembered, job, TargetOf(job.world.target));
    }

    method ServeLoad(job: Job)
      requires Valid() && Leases(None) && job.LoadJob?
      modifies models, models.runtimes, models.residency, models.cache
      ensures Valid() && Leases(None)
      ensures Retains(old(models.remembered), models.remembered, job, Addressed(job, old(sessions.sessions)))
    {
      ghost var was := models.remembered;
      var r := LoadModel(job.target, job.load, job.answers, job.now);
      if r.Ok? {
        LoadRetains(was, models.remembered, job);
      }
    }

    method ServeRemove(job: Job)
      requires Valid() && Leases(None) && job.RemoveJob?
      modifies models
      ensures Valid() && Leases(None)
      ensures Retains(old(models.remembered), models.remembered, job, Addressed(job, old(sessions.sessions)))
    {
      var r := RemoveModel(job.target, job.removed);
    }

    /**
     * Any run of jobs, each followed by maintenance. The random identifiers drawn for sessions are
     * distinct and new.
     */
    method Run(jobs: seq<Job>, uuids: seq<string>, times: seq<int>)
      requires Valid() && Leases(None) && |uuids| == |times| == |jobs|
      requires forall i :: 0 <= i < |jobs| ==>
                 Meaningful(jobs[i]) && S.IsUuid(uuids[i]) && uuids[i] !in sessions.sessions
      requires forall i, j :: 0 <= i < j < |uuids| ==> uuids[i] != uuids[j]
      modifies models, models.runtimes, models.residency, models.cache, sessions
      ensures Valid() && Leases(None)
      ensures RetainsAll(old(models.remembered), models.remembered, old(sessions.sessions), jobs, uuids, |jobs|)
    {
      ghost var was, open := models.remembered, sessions.sessions;
      OpenOwn(open, jobs, uuids);
      assert Fresh(open, uuids);
      for i := 0 to |jobs|
        invariant Valid() && Leases(None)
        invariant Drawn(open, sessions.sessions, uuids, i)
        invariant AllOwn(open, jobs, uuids, sessions.sessions)
        invariant RetainsAll(was, models.remembered, open, jobs, uuids, i)
      {
        ghost var mid, before := models.remembered, sessions.sessions;
        NextIsFresh(open, before, uuids, i);
        Step(jobs[i], uuids[i], times[i]);
        NewSessionsAreDrawn(open, before, sessions.sessions, jobs, uuids, i);
        HeirsOwn(open, jobs, uuids, i, before, sessions.sessions);
        RetainsNext(was, mid, models.remembered, open, jobs, uuids, i, before);
      }
    }

    /** The configuration and lifetime a resident model has are those remembered for it. */
    lemma ResidentAsRemembered(id: string)
      requires Valid() && id in models.loaded
      ensures id in models.remembered && id in models.runtimes.models && id in models.residency.entries
      ensures models.runtimes.models[id].spec
              == Runtimes.ModelSpec(id, models.remembered[id].contextTokens, models.remembered[id].options)
      ensures models.residency.entries[id].keepAliveMs == models.remembered[id].keepAliveMs
      ensures models.loaded[id].contextTokens == models.remembered[id].contextTokens
    {
      assert M.Record(models.State(), id, models.limits);
    }

    /**
     * Whatever ran in between, and however often the model was evicted, loading it again by name
     * gives the specification it had, unless a job reconfigured it, and the lifetime it had as well,
     * unless a job that addressed this very model asked for one.
     */
    method RunThenReload(jobs: seq<Job>, uuids: seq<string>, times: seq<int>, id: string, answers: M.Answers, now: int)
      returns (r: Result<()>)
      requires Valid() && Leases(None) && |uuids| == |times| == |jobs| && id in models.loaded
      requires forall i :: 0 <= i < |jobs| ==>
                 Meaningful(jobs[i]) && S.IsUuid(uuids[i]) && uuids[i] !in sessions.sessions
      requires forall i, j :: 0 <= i < j < |uuids| ==> uuids[i] != uuids[j]
      requires !Reconfigured(jobs, id)
      modifies models, models.runtimes, models.residency, models.cache, sessions
      ensures Valid() && Leases(None)
      ensures id in old(models.runtimes.models) && id in old(models.residency.entries)
      ensures r.Ok? ==> id in models.runtimes.models && id in models.residency.entries
                        && models.runtimes.models[id].spec == old(models.runtimes.models)[id].spec
      ensures r.Ok? && !Relived(old(sessions.sessions), jobs, uuids, id) ==>
                models.residency.entries[id].keepAliveMs == old(models.residency.entries)[id].keepAliveMs
    {
      ResidentAsRemembered(id);
      ghost var was, open := models.remembered, sessions.sessions;
      Run(jobs, uuids, times);
      assert Spared(was, models.remembered, open, jobs, uuids, |jobs|, id);
      ghost var mid := models.remembered;
      r := LoadModel(Ok(id), M.DEFAULT, answers, now);
      if r.Ok? {
        assert Recalled(mid, models.remembered, id);
        ResidentAsRemembered(id);
      }
    }
  }

  function Temporary(completion: Completion, uuid: string): Chat {
    var h := completion.messages;
    Chat(uuid, if h == [] then [] else h[|h| - 1].content, completion.options, completion.keepAliveMs)
  }

  /** What the caller is told: a failure keeps the text already streamed, and never carries calls. */
  function ResultOf(turn: Result<Turn>, shown: seq<Text>): GenerationResult {
    match turn
    case Ok(t) => GenerationResult(t.text, t.finish, None, [])
    case Err(code) => Failed(code, Flatten(shown))
  }

  function Failed(code: ErrorCode, text: Text): GenerationResult {
    GenerationResult(text, if code == Cancelled then CancelledFinish else ErrorFinish, Some(code), [])
  }

  /** A vector that may be handed out as an embedding. */
  predicate Admissible(vector: seq<real>) { 1 <= |vector| <= 16384 && NonZero(vector, |vector|) }

  function Times(a: real, b: real): real { a * b }

  lemma PositiveTimes(a: real, b: real)
    requires a > 0.0 && b > 0.0
    ensures Times(a, b) > 0.0
  {
  }

  lemma SquareSign(x: real)
    ensures Times(x, x) >= 0.0 && (Times(x, x) > 0.0 <==> x != 0.0)
  {
    if x > 0.0 {
      PositiveTimes(x, x);
    } else if x < 0.0 {
      PositiveTimes(-x, -x);
      assert Times(-x, -x) == Times(x, x);
    }
  }

  predicate NonZero(vector: seq<real>, n: nat)
    requires n <= |vector|
  {
    exists i :: 0 <= i < n && vector[i] != 0.0
  }

  function TargetOf(target: Result<string>): Option<string> { if target.Ok? then Some(target.value) else None }

  /** A successful structured reply is what the parser makes of exactly the text the stop strings let through. */
  ghost predicate Parsed(request: Conversation, world: World, exchange: Exchange, raw: Text, result: GenerationResult) {
    && result.finish.Stop? && exchange.prompt.Ok?
    && exchange.parse(raw) == Ok(Reply(result.text, result.calls))
    && var stops := request.stop + exchange.prompt.value.stop;
    NonEmptyStops(stops) ==> raw == Visible(stops, [], world.chunks)
  }

  /** The model's output contains one of the request's or the template's stop strings. */
  ghost predicate Passes(request: Conversation, world: World, exchange: Exchange) {
    exchange.prompt.Ok? && var stops := request.stop + exchange.prompt.value.stop;
    NonEmptyStops(stops) && !NoMatch(stops, Flatten(world.chunks))
  }

  function ModelOf(sessions: map<string, S.Session>, id: string): Option<string> {
    if id in sessions then Some(sessions[id].modelId) else None
  }

  /** What one generation showed. */
  datatype Shown = Shown(text: Text, finish: Finish, stopped: bool)

  /** The streamed generation: the listener, if any, may throw at every event. */
  method Stream(stops: seq<Text>, world: World, listened: bool, limit: Option<nat>)
    returns (r: Result<Shown>, pieces: seq<Text>)
    ensures r.Ok? ==>
              r.value.text == Flatten(pieces) && (r.value.finish.Stop? || (r.value.finish.Length? && !r.value.stopped))
    ensures r.Ok? && NonEmptyStops(stops) ==>
              && r.value.text == Visible(stops, [], world.chunks)
              && (r.value.stopped <==> !NoMatch(stops, Flatten(world.chunks)))
  {
    var throws: bool := *;
    if throws {
      return Err(ConsumerFailure), [];
    }
    var ended := if world.ended.Ok? then Ok(()) else Err(world.ended.code);
    var delivered: Result<bool>;
    delivered, pieces := Deliver(stops, world.chunks, ended, listened, limit);
    if delivered.Err? {
      return Err(delivered.code), pieces;
    }
    var finish := world.ended.value.finish;
    if !finish.Stop? && !finish.Length? {
      return Err(RuntimeFailure), pieces;
    }
    return Ok(Shown(Flatten(pieces), if delivered.value then Stop else finish, delivered.value)), pieces;
  }
}
