/**
 * One connection of the local IPC server as a step system. The main thread reads frames, dispatches
 * them, drains the inbox and settles watched futures; worker threads push events into the inbox at
 * any moment. Lines of a request are accepted, events, then one terminal line.
 */
module IpcServer {
  import opened Common

  /** Admitted requests are numbered; ids may be used again once their request is settled. */
  type Serial = nat

  datatype Line = Refused(id: string) | Accepted(s: Serial) | Event(s: Serial) | Terminal(s: Serial)

  /** An event waiting in the inbox; `done` marks the last event of a chat. */
  datatype Note = Note(s: Serial, size: nat, done: bool)

  /**
   * What the main thread is at: nothing, the dispatch of a frame, a dispatch whose operation has been
   * started, the settling of a future it has seen ready, or sending what it took from the inbox.
   */
  datatype Main =
    | Free
    | Dispatching(s: Serial, cancel: bool)
    | Starting(s: Serial, chat: bool)
    | Observed(s: Serial)
    | Draining(rest: seq<Note>, settling: Option<Serial>)

  /**
   * `ids` are the ids in flight, with the request holding each. `talking` are operations that may
   * still push events, `computing` those that only have a result, `ready` those whose future is ready.
   */
  datatype State = State(
    limit: nat, capacity: nat, ids: map<string, Serial>, main: Main, inbox: seq<Note>, bytes: nat, overflow: bool,
    connected: bool,
    talking: set<Serial>, computing: set<Serial>, ready: set<Serial>, watched: set<Serial>, chats: set<Serial>,
    next: Serial, names: map<Serial, string>, disowned: set<Serial>, out: seq<Line>)

  datatype Action =
    | Frame(id: string, valid: bool, cancel: bool)
    | Answer | Watch | Start(chat: bool) | Accept | Disown
    | Observe(s: Serial) | Take | Send | Settle
    | Push(s: Serial, size: nat) | Finish(s: Serial, size: nat) | Ready(s: Serial)
    | Lose

  function Initial(limit: nat, capacity: nat): State {
    State(limit, capacity, map[], Free, [], 0, false, true, {}, {}, {}, {}, {}, 0, map[], {}, [])
  }

  predicate Enabled(st: State, a: Action) {
    match a
    case Frame(_, _, _) => st.main.Free?
    case Answer => st.main.Dispatching?
    case Watch => st.main.Dispatching? && !st.main.cancel
    case Start(_) => st.main.Dispatching? && !st.main.cancel
    case Accept => st.main.Starting?
    case Disown => st.main.Starting? && !st.main.chat
    case Observe(s) => st.main.Free? && s in st.watched && s in st.ready
    case Take => st.main.Free? || st.main.Observed?
    case Send => st.main.Draining? && st.main.rest != []
    case Settle => st.main.Draining? && st.main.rest == []
    case Push(s, _) => s in st.talking
    case Finish(s, _) => s in st.talking && s in st.chats
    case Ready(s) => (s in st.talking && s !in st.chats) || s in st.computing
    case Lose => true
  }

  /** A line is written while the connection lasts. */
  function Write(st: State, line: Line): State { if st.connected then st.(out := st.out + [line]) else st }

  /** The terminal line of a request, and the end of its id. */
  function Close(st: State, s: Serial): State { Write(st, Terminal(s)).(ids := st.ids - {NameOf(st, s)}) }

  function NameOf(st: State, s: Serial): string { if s in st.names then st.names[s] else "" }

  /** The inbox takes an event if it is in order and there is room, else it overflows. */
  function Post(st: State, n: Note): State {
    if !st.connected || st.overflow || st.bytes + n.size > st.capacity then st.(overflow := true)
    else st.(inbox := st.inbox + [n], bytes := st.bytes + n.size)
  }

  predicate Refuses(st: State, id: string, valid: bool, cancel: bool) {
    !valid || id in st.ids || (|st.ids| >= st.limit && !cancel)
  }

  function Apply(st: State, a: Action): State
    requires Enabled(st, a)
  {
    match a
    case Frame(id, valid, cancel) =>
      if Refuses(st, id, valid, cancel) then Write(st, Refused(id))
      else st.(ids := st.ids[id := st.next], main := Dispatching(st.next, cancel), names := st.names[st.next := id],
        next := st.next + 1)
    case Answer => Close(st, st.main.s).(main := Free)
    case Watch => st.(watched := st.watched + {st.main.s}, computing := st.computing + {st.main.s}, main := Free)
    case Start(chat) =>
      st.(talking := st.talking + {st.main.s}, chats := if chat then st.chats + {st.main.s} else st.chats,
          main := Starting(st.main.s, chat))
    case Accept =>
      Write(st, Accepted(st.main.s)).(watched := if st.main.chat then st.watched else st.watched + {st.main.s},
        main := Free)
    case Disown => Close(st, st.main.s).(disowned := st.disowned + {st.main.s}, main := Free)
    case Observe(s) => st.(main := Observed(s))
    case Take =>
      if st.overflow || !st.connected then st.(inbox := [], bytes := 0, connected := false, main := Free)
      else st.(inbox := [], bytes := 0, main := Draining(st.inbox, if st.main.Observed? then Some(st.main.s) else None))
    case Send =>
      var n := st.main.rest[0];
      (if n.done then Close(st, n.s) else Write(st, Event(n.s))).(main := Draining(st.main.rest[1..], st.main.settling))
    case Settle =>
      match st.main.settling {
        case None => st.(main := Free)
        case Some(s) => Close(st, s).(watched := st.watched - {s}, main := Free)
      }
    case Push(s, size) => Post(st, Note(s, size, false))
    case Finish(s, size) => Post(st, Note(s, size, true)).(talking := st.talking - {s})
    case Ready(s) => st.(talking := st.talking - {s}, computing := st.computing - {s}, ready := st.ready + {s})
    case Lose => st.(connected := false)
  }

  // ---- One request's part of the state -----------------------------------------------------------

  /** The lines about one request, in order. */
  function Trail(out: seq<Line>, s: Serial): seq<Line> {
    if out == [] then []
    else
      var last := out[|out| - 1];
      Trail(out[..|out| - 1], s) + if !last.Refused? && last.s == s then [last] else []
  }

  /** The events of one request on their way, in order: whether each is the last one of a chat. */
  function Flags(notes: seq<Note>, s: Serial): seq<bool> {
    if notes == [] then []
    else
      var last := notes[|notes| - 1];
      Flags(notes[..|notes| - 1], s) + if last.s == s then [last.done] else []
  }

  lemma TrailAppend(out: seq<Line>, line: Line, s: Serial)
    ensures Trail(out + [line], s) == Trail(out, s) + if !line.Refused? && line.s == s then [line] else []
  {
    assert (out + [line])[..|out|] == out;
  }

  lemma FlagsAppend(notes: seq<Note>, n: Note, s: Serial)
    ensures Flags(notes + [n], s) == Flags(notes, s) + if n.s == s then [n.done] else []
  {
    assert (notes + [n])[..|notes|] == notes;
  }

  lemma {:induction false} FlagsHead(notes: seq<Note>, s: Serial)
    requires notes != []
    ensures Flags(notes, s) == (if notes[0].s == s then [notes[0].done] else []) + Flags(notes[1..], s)
    decreases |notes|
  {
    if |notes| > 1 {
      var init := notes[..|notes| - 1];
      FlagsHead(init, s);
      assert notes[1..][..|notes| - 2] == init[1..];
    }
  }

  /** Events taken from the inbox but not yet sent. */
  function Rest(st: State): seq<Note> { if st.main.Draining? then st.main.rest else [] }

  function Coming(st: State, s: Serial): seq<bool> { Flags(Rest(st), s) + Flags(st.inbox, s) }

  /** The request's id is in flight and stands for this request. */
  predicate Open(st: State, s: Serial) {
    s in st.names && st.names[s] in st.ids && st.ids[st.names[s]] == s
  }

  /** Every event but the newest is followed by another of its request. */
  ghost predicate NoneLast(coming: seq<bool>) { forall i :: 0 <= i < |coming| - 1 ==> !coming[i] }

  predicate EndsLast(coming: seq<bool>) { coming != [] && coming[|coming| - 1] }

  predicate Settled(trail: seq<Line>) { trail != [] && trail[|trail| - 1].Terminal? }

  /** At most one terminal line, nothing after it, and no event before the acceptance. */
  ghost predicate Proper(trail: seq<Line>) {
    forall i :: 0 <= i < |trail| ==>
      && (trail[i].Terminal? ==> i == |trail| - 1) && (trail[i].Accepted? <==> i == 0 && !trail[0].Terminal?)
  }

  predicate Holds(main: Main, s: Serial) {
    ((main.Dispatching? || main.Starting? || main.Observed?) && main.s == s)
      || (main.Draining? && main.settling == Some(s))
  }

  ghost predicate Unknown(st: State, s: Serial) {
    && !Open(st, s) && Coming(st, s) == [] && Trail(st.out, s) == [] && !Holds(st.main, s) && s !in st.disowned
    && s !in st.talking && s !in st.computing && s !in st.ready && s !in st.watched && s !in st.chats
  }

  /** A request whose handle was not acceptable after its operation had begun: its id is free at once. */
  ghost predicate Cast(st: State, s: Serial) {
    && !Open(st, s) && !Holds(st.main, s) && s !in st.watched && s !in st.chats
    && s !in st.computing && NoneLast(Coming(st, s)) && !EndsLast(Coming(st, s))
    && Late(Trail(st.out, s)) && (st.connected ==> Trail(st.out, s) != [])
  }

  /** The lines about a request whose handle was refused: its terminal line, and then events at most. */
  ghost predicate Late(trail: seq<Line>) {
    trail != [] ==> trail[0].Terminal? && forall i :: 1 <= i < |trail| ==> trail[i].Event?
  }

  ghost predicate Regular(st: State, s: Serial) {
    var trail, coming := Trail(st.out, s), Coming(st, s);
    && Proper(trail)
    && (Open(st, s) ==> !Settled(trail))
    && (!Open(st, s) ==> (st.connected ==> Settled(trail)) && coming == [] && !Holds(st.main, s)
                         && s !in st.talking && s !in st.watched)
    && (st.main == Dispatching(s, true) || st.main == Dispatching(s, false) ==>
          trail == [] && coming == [] && s !in st.talking && s !in st.watched && s !in st.chats && s !in st.ready)
    && (st.main.Starting? && st.main.s == s ==> trail == [] && s !in st.watched && (s in st.chats <==> st.main.chat))
    && (st.connected && (coming != [] || s in st.talking) ==> (st.main.Starting? && st.main.s == s) || trail != [])
    && (s in st.watched ==> s !in st.chats)
    && NoneLast(coming) && (EndsLast(coming) ==> s in st.chats && s !in st.talking)
    && (s in st.ready ==> s !in st.talking && s !in st.computing && s !in st.chats)
      && (s in st.computing ==> s in st.watched)
    && (st.main.Observed? && st.main.s == s ==> s in st.watched && s in st.ready)
    && (st.main.Draining? && st.main.settling == Some(s) ==>
      s in st.watched && s in st.ready && Flags(st.inbox, s) == [])
  }

  /** An open request still has someone to settle it: the main thread, a future, or a chat's last event. */
  ghost predicate Attended(st: State, s: Serial) {
    Open(st, s) && st.connected && !st.overflow ==>
      || (st.main.Dispatching? && st.main.s == s)
      || ((s in st.watched || st.main == Starting(s, false)) && (s in st.computing || s in st.talking || s in st.ready))
      || (s in st.chats && (s in st.talking || EndsLast(Coming(st, s))))
  }

  ghost predicate Good(st: State, s: Serial) {
    if s >= st.next then Unknown(st, s) else if s in st.disowned then Cast(st, s) else Regular(st, s) && Attended(st, s)
  }

  /** Ids in flight stand for admitted requests with that id, within the limit but for one cancel. */
  ghost predicate Sound(st: State) {
    && (forall s: Serial :: s in st.names <==> s < st.next)
    && (forall id :: id in st.ids ==> st.ids[id] in st.names && st.names[st.ids[id]] == id)
    && |st.ids| <= st.limit + (if st.main.Dispatching? && st.main.cancel then 1 else 0)
    && st.bytes == Bytes(st.inbox) && st.bytes <= st.capacity
  }

  function Bytes(notes: seq<Note>): nat {
    if notes == [] then 0 else Bytes(notes[..|notes| - 1]) + notes[|notes| - 1].size
  }

  ghost predicate Invariant(st: State) {
    Sound(st) && forall s {:trigger Good(st, s)} :: Good(st, s)
  }

  // ---- Every step keeps it -----------------------------------------------------------------------

  /** The request an action is about. */
  function Actor(st: State, a: Action): Serial
    requires Enabled(st, a)
  {
    match a
    case Frame(_, _, _) => st.next
    case Observe(s) => s
    case Take => if st.main.Observed? then st.main.s else st.next
    case Send => st.main.rest[0].s
    case Settle => if st.main.settling.Some? then st.main.settling.value else st.next
    case Push(s, _) => s
    case Finish(s, _) => s
    case Ready(s) => s
    case Lose => st.next
    case _ => st.main.s
  }

  lemma SoundAfterFrame(st: State, id: string, valid: bool, cancel: bool)
    requires Sound(st) && st.main.Free?
    ensures Sound(Apply(st, Frame(id, valid, cancel)))
  {
    assert id !in st.ids ==> |st.ids[id := st.next]| == |st.ids| + 1;
  }

  lemma SoundAfterClose(st: State, s: Serial, main: Main)
    requires Sound(st) && Open(st, s) && !main.Dispatching?
    ensures Sound(Close(st, s).(main := main))
  {
    FewerIds(st, s);
  }

  lemma FewerIds(st: State, s: Serial)
    requires Open(st, s)
    ensures |st.ids - {NameOf(st, s)}| == |st.ids| - 1
  {
    var id := NameOf(st, s);
    assert (st.ids - {id})[id := st.ids[id]] == st.ids;
  }

  lemma SoundAfterPost(st: State, n: Note)
    requires Sound(st)
    ensures Sound(Post(st, n))
  {
    assert (st.inbox + [n])[..|st.inbox|] == st.inbox;
  }

  lemma SoundIsKept(st: State, a: Action)
    requires Sound(st) && Enabled(st, a) && Good(st, Actor(st, a))
    ensures Sound(Apply(st, a))
  {
    match a
    case Frame(id, valid, cancel) => SoundAfterFrame(st, id, valid, cancel);
    case Answer => SoundAfterClose(st, st.main.s, Free);
    case Disown => SoundAfterClose(st, st.main.s, Free);
    case Send => SoundAfterSend(st);
    case Settle => SoundAfterSettle(st);
    case Push(s, size) => SoundAfterPost(st, Note(s, size, false));
    case Finish(s, size) => SoundAfterPost(st, Note(s, size, true));
    case _ => SoundOtherwise(st, a);
  }

  lemma SoundOtherwise(st: State, a: Action)
    requires Sound(st) && Enabled(st, a)
    requires a.Watch? || a.Start? || a.Accept? || a.Observe? || a.Take? || a.Ready? || a.Lose?
    ensures Sound(Apply(st, a))
  {
  }

  lemma SoundAfterSend(st: State)
    requires Sound(st) && Enabled(st, Send) && Good(st, Actor(st, Send))
    ensures Sound(Apply(st, Send))
  {
    if st.main.rest[0].done {
      LastEventIsOpen(st);
      SoundAfterClose(st, st.main.rest[0].s, Draining(st.main.rest[1..], st.main.settling));
    }
  }

  lemma SoundAfterSettle(st: State)
    requires Sound(st) && Enabled(st, Settle) && Good(st, Actor(st, Settle))
    ensures Sound(Apply(st, Settle))
  {
    if st.main.settling.Some? {
      SoundAfterClose(st, st.main.settling.value, Free);
    }
  }

  lemma ComingAfterSend(st: State, s: Serial)
    requires Enabled(st, Send)
    ensures var n := st.main.rest[0]; Coming(st, s) == (if n.s == s then [n.done] else []) + Coming(Apply(st, Send), s)
    ensures Flags(Apply(st, Send).inbox, s) == Flags(st.inbox, s)
  {
    FlagsHead(st.main.rest, s);
    SendTakesHead(st);
    var n := st.main.rest[0];
    var head, tail, later := if n.s == s then [n.done] else [], Flags(st.main.rest[1..], s), Flags(st.inbox, s);
    assert (head + tail) + later == head + (tail + later);
  }

  lemma SendTakesHead(st: State)
    requires Enabled(st, Send)
    ensures Apply(st, Send).main == Draining(st.main.rest[1..], st.main.settling) && Apply(st, Send).inbox == st.inbox
  {
  }

  lemma ComingAfterPost(st: State, n: Note, s: Serial)
    ensures Coming(Post(st, n), s) ==
            Coming(st, s) + if n.s == s && Post(st, n).inbox == st.inbox + [n] then [n.done] else []
    ensures Post(st, n).overflow || Post(st, n).inbox == st.inbox + [n]
    ensures n.s != s ==> Flags(Post(st, n).inbox, s) == Flags(st.inbox, s)
  {
    if Post(st, n).inbox == st.inbox + [n] {
      FlagsAppend(st.inbox, n, s);
    } else {
      assert Post(st, n).inbox == st.inbox;
    }
  }

  lemma ComingAfterTake(st: State, s: Serial)
    requires Enabled(st, Take)
    ensures Coming(Apply(st, Take), s) == if st.overflow || !st.connected then [] else Coming(st, s)
  {
    assert Rest(st) == [] && Coming(st, s) == Flags(st.inbox, s);
  }

  lemma NoneLastEnds(coming: seq<bool>, flag: bool)
    requires NoneLast(coming) && !EndsLast(coming)
    ensures NoneLast(coming + [flag]) && (EndsLast(coming + [flag]) <==> flag)
  {
  }

  lemma NoneLastTail(coming: seq<bool>)
    requires NoneLast(coming) && coming != []
    ensures NoneLast(coming[1..]) && (coming[0] ==> coming == [true])
    ensures coming[1..] != [] ==> EndsLast(coming[1..]) == EndsLast(coming)
  {
    forall i | 0 <= i < |coming[1..]| - 1 ensures !coming[1..][i] {
      assert !coming[i + 1];
    }
  }

  /** Nothing about request `s` differs between two states. */
  ghost predicate Alike(st: State, t: State, s: Serial) {
    && Open(t, s) == Open(st, s) && Coming(t, s) == Coming(st, s) && Trail(t.out, s) == Trail(st.out, s)
    && Flags(t.inbox, s) == Flags(st.inbox, s)
    && (s in t.talking <==> s in st.talking) && (s in t.computing <==> s in st.computing)
      && (s in t.ready <==> s in st.ready)
    && (s in t.watched <==> s in st.watched) && (s in t.chats <==> s in st.chats)
      && (s in t.disowned <==> s in st.disowned)
    && (s < t.next <==> s < st.next)
    && (if Holds(st.main, s) then SameRole(st.main, t.main) else !Holds(t.main, s))
    && t.connected == st.connected && (st.overflow ==> t.overflow)
  }

  predicate SameRole(a: Main, b: Main) {
    a == b || (a.Draining? && b.Draining? && a.settling == b.settling)
  }

  lemma AlikeIsGood(st: State, t: State, s: Serial)
    requires Good(st, s) && Alike(st, t, s)
    ensures Good(t, s)
  {
  }

  lemma CloseElsewhere(st: State, p: Serial, main: Main, s: Serial)
    requires Sound(st) && Open(st, p) && s != p
    ensures var t := Close(st, p).(main := main); Open(t, s) == Open(st, s) && Trail(t.out, s) == Trail(st.out, s)
  {
    TrailAppend(st.out, Terminal(p), s);
  }

  lemma CloseHere(st: State, s: Serial, main: Main)
    requires Sound(st) && Open(st, s)
    ensures var t := Close(st, s).(main := main);
            && !Open(t, s) && Trail(t.out, s) == Trail(st.out, s) + if st.connected then [Terminal(s)] else []
  {
    TrailAppend(st.out, Terminal(s), s);
  }

  lemma FrameElsewhere(st: State, id: string, valid: bool, cancel: bool, s: Serial)
    requires Sound(st) && st.main.Free? && s != st.next
    ensures Alike(st, Apply(st, Frame(id, valid, cancel)), s)
  {
    TrailAppend(st.out, Refused(id), s);
  }

  lemma SettleElsewhere(st: State, s: Serial)
    requires Sound(st) && Enabled(st, Settle) && Good(st, Actor(st, Settle)) && s != Actor(st, Settle)
    ensures Alike(st, Apply(st, Settle), s)
  {
    if st.main.settling.Some? {
      var p, now := st.main.settling.value, Apply(st, Settle);
      var closed := Close(st, p).(main := Free);
      CloseElsewhere(st, p, Free, s);
      assert closed.inbox == st.inbox && Coming(closed, s) == Coming(st, s);
      assert now == closed.(watched := st.watched - {p});
      ElsewhereIsAlike(st, closed, now, s);
    }
  }

  lemma SendElsewhere(st: State, s: Serial)
    requires Sound(st) && Enabled(st, Send) && Good(st, Actor(st, Send)) && s != Actor(st, Send)
    ensures Alike(st, Apply(st, Send), s)
  {
    var n, main := st.main.rest[0], Draining(st.main.rest[1..], st.main.settling);
    if n.done {
      ComingAfterSend(st, s);
      LastEventIsOpen(st);
      CloseElsewhere(st, n.s, main, s);
    } else {
      EventElsewhere(st, s);
    }
  }

  lemma EventElsewhere(st: State, s: Serial)
    requires Sound(st) && Enabled(st, Send) && !st.main.rest[0].done && s != Actor(st, Send)
    ensures Alike(st, Apply(st, Send), s)
  {
    ComingAfterSend(st, s);
    TrailAppend(st.out, Event(st.main.rest[0].s), s);
  }

  lemma LastEventIsOpen(st: State)
    requires Enabled(st, Send) && Good(st, Actor(st, Send)) && st.main.rest[0].done
    ensures Open(st, st.main.rest[0].s) && Coming(st, st.main.rest[0].s) == [true]
  {
    ComingAfterSend(st, st.main.rest[0].s);
    NoneLastTail(Coming(st, st.main.rest[0].s));
  }

  lemma PostElsewhere(st: State, n: Note, s: Serial)
    requires s != n.s
    ensures Alike(st, Post(st, n), s)
  {
    ComingAfterPost(st, n, s);
  }

  /** A step about one request leaves every other as it is. */
  lemma BystandersAreAlike(st: State, a: Action, s: Serial)
    requires Sound(st) && Enabled(st, a) && Good(st, Actor(st, a)) && s != Actor(st, a)
    requires !a.Take? && !a.Lose?
    ensures Alike(st, Apply(st, a), s)
  {
    match a
    case Frame(id, valid, cancel) => FrameElsewhere(st, id, valid, cancel, s);
    case Answer => AnswerElsewhere(st, a, s);
    case Disown => AnswerElsewhere(st, a, s);
    case Send => SendElsewhere(st, s);
    case Settle => SettleElsewhere(st, s);
    case _ => OthersElsewhere(st, a, s);
  }

  lemma AnswerElsewhere(st: State, a: Action, s: Serial)
    requires Sound(st) && Enabled(st, a) && (a.Answer? || a.Disown?) && Good(st, st.main.s) && s != st.main.s
    ensures Alike(st, Apply(st, a), s)
  {
    var closed := Close(st, st.main.s).(main := Free);
    CloseElsewhere(st, st.main.s, Free, s);
    assert closed.inbox == st.inbox && Coming(closed, s) == Coming(st, s);
    assert Apply(st, a) == closed.(disowned := Apply(st, a).disowned)
           && (s in Apply(st, a).disowned <==> s in st.disowned);
    ElsewhereIsAlike(st, closed, Apply(st, a), s);
  }

  lemma ElsewhereIsAlike(st: State, closed: State, now: State, s: Serial)
    requires now == closed.(disowned := now.disowned, watched := now.watched)
    requires (s in now.disowned <==> s in st.disowned) && (s in now.watched <==> s in st.watched)
    requires closed == st.(out := closed.out, ids := closed.ids, main := Free) && !Holds(st.main, s)
    requires Open(closed, s) == Open(st, s) && Trail(closed.out, s) == Trail(st.out, s)
             && Coming(closed, s) == Coming(st, s)
    ensures Alike(st, now, s)
  {
  }

  lemma OthersElsewhere(st: State, a: Action, s: Serial)
    requires Enabled(st, a) && s != Actor(st, a)
    requires a.Watch? || a.Start? || a.Accept? || a.Observe? || a.Ready? || a.Push? || a.Finish?
    ensures Alike(st, Apply(st, a), s)
  {
    match a
    case Accept => AcceptElsewhere(st, s);
    case Push(p, size) => PostElsewhere(st, Note(p, size, false), s);
    case Finish(p, size) => FinishElsewhere(st, p, size, s);
    case Watch => DispatchElsewhere(st, a, s);
    case Start(_) => DispatchElsewhere(st, a, s);
    case _ => FutureElsewhere(st, a, s);
  }

  lemma AcceptElsewhere(st: State, s: Serial)
    requires Enabled(st, Accept) && s != st.main.s
    ensures Alike(st, Apply(st, Accept), s)
  {
    TrailAppend(st.out, Accepted(st.main.s), s);
  }

  lemma FinishElsewhere(st: State, p: Serial, size: nat, s: Serial)
    requires Enabled(st, Finish(p, size)) && s != p
    ensures Alike(st, Apply(st, Finish(p, size)), s)
  {
    PostElsewhere(st, Note(p, size, true), s);
  }

  lemma DispatchElsewhere(st: State, a: Action, s: Serial)
    requires Enabled(st, a) && (a.Watch? || a.Start?) && s != st.main.s
    ensures Alike(st, Apply(st, a), s)
  {
  }

  lemma FutureElsewhere(st: State, a: Action, s: Serial)
    requires Enabled(st, a) && (a.Observe? || a.Ready?) && s != a.s
    ensures Alike(st, Apply(st, a), s)
  {
  }

  // The request a step is about, action by action.

  lemma FrameActor(st: State, id: string, valid: bool, cancel: bool)
    requires Sound(st) && st.main.Free? && Good(st, st.next)
    ensures Good(Apply(st, Frame(id, valid, cancel)), st.next)
  {
    TrailAppend(st.out, Refused(id), st.next);
  }

  lemma AnswerActor(st: State)
    requires Sound(st) && st.main.Dispatching? && Good(st, st.main.s)
    ensures Good(Apply(st, Answer), st.main.s)
  {
    CloseHere(st, st.main.s, Free);
  }

  lemma DisownActor(st: State)
    requires Sound(st) && Enabled(st, Disown) && Good(st, st.main.s)
    ensures Good(Apply(st, Disown), st.main.s)
  {
    CloseHere(st, st.main.s, Free);
  }

  lemma DispatchActor(st: State, a: Action)
    requires Sound(st) && Enabled(st, a) && (a.Watch? || a.Start?) && Good(st, st.main.s)
    ensures Good(Apply(st, a), st.main.s)
  {
  }

  lemma AcceptActor(st: State)
    requires Sound(st) && st.main.Starting? && Good(st, st.main.s)
    ensures Good(Apply(st, Accept), st.main.s)
  {
    var s, now := st.main.s, Apply(st, Accept);
    TrailAppend(st.out, Accepted(s), s);
    assert Trail(st.out, s) == [] && Coming(now, s) == Coming(st, s);
    AcceptedIsGood(st, now, s);
  }

  /** A request that was accepted as it should be is in order. */
  lemma AcceptedIsGood(st: State, now: State, s: Serial)
    requires Good(st, s) && st.main.Starting? && st.main.s == s && now.main.Free?
    requires s < st.next == now.next && now.disowned == st.disowned
    requires Open(now, s) == Open(st, s) && Coming(now, s) == Coming(st, s)
    requires Trail(st.out, s) == [] && Trail(now.out, s) == if st.connected then [Accepted(s)] else []
    requires now.talking == st.talking && now.computing == st.computing && now.ready == st.ready
             && now.chats == st.chats
    requires s in now.watched <==> s !in st.chats
    requires now.connected == st.connected && now.overflow == st.overflow
    ensures Good(now, s)
  {
  }

  lemma SendActor(st: State)
    requires Sound(st) && Enabled(st, Send) && Good(st, Actor(st, Send))
    ensures Good(Apply(st, Send), Actor(st, Send))
  {
    if st.main.rest[0].done {
      LastSent(st);
    } else {
      EventSent(st);
    }
  }

  lemma LastSent(st: State)
    requires Sound(st) && Enabled(st, Send) && Good(st, Actor(st, Send)) && st.main.rest[0].done
    ensures Good(Apply(st, Send), Actor(st, Send))
  {
    var n, now := st.main.rest[0], Apply(st, Send);
    LastEventIsOpen(st);
    ComingAfterSend(st, n.s);
    assert Coming(now, n.s) == [];
    CloseHere(st, n.s, Draining(st.main.rest[1..], st.main.settling));
    ClosedIsGood(st, now, n.s);
  }

  /** A request that was closed as it should be is in order. */
  lemma ClosedIsGood(st: State, now: State, s: Serial)
    requires Good(st, s) && s < st.next == now.next && Open(st, s) && !Open(now, s) && s !in st.disowned
             && s !in now.disowned
    requires Trail(now.out, s) == Trail(st.out, s) + (if st.connected then [Terminal(s)] else [])
             && now.connected == st.connected
    requires Coming(now, s) == [] && !Holds(now.main, s) && s !in now.talking && s !in now.watched
    requires s !in now.computing && (s in now.ready ==> s !in now.chats)
    ensures Good(now, s)
  {
  }

  lemma EventSent(st: State)
    requires Sound(st) && Enabled(st, Send) && Good(st, Actor(st, Send)) && !st.main.rest[0].done
    ensures Good(Apply(st, Send), Actor(st, Send))
  {
    var n := st.main.rest[0];
    ComingAfterSend(st, n.s);
    NoneLastTail(Coming(st, n.s));
    assert Coming(st, n.s)[1..] == Coming(Apply(st, Send), n.s);
    TrailAppend(st.out, Event(n.s), n.s);
    SendTakesHead(st);
    EventIsGood(st, Apply(st, Send), n.s);
  }

  /** One event of the request was sent: what is coming loses its head, the trail gains a line. */
  ghost predicate SentEvent(st: State, now: State, s: Serial) {
    && Coming(st, s) != [] && !Coming(st, s)[0] && st.main.Draining? && st.main.rest != []
    && now == st.(out := now.out, main := Draining(st.main.rest[1..], st.main.settling))
    && Trail(now.out, s) == Trail(st.out, s) + (if st.connected then [Event(s)] else [])
    && Coming(now, s) == Coming(st, s)[1..] && NoneLast(Coming(now, s))
    && (Coming(now, s) != [] ==> EndsLast(Coming(now, s)) == EndsLast(Coming(st, s)))
    && (Coming(now, s) == [] ==> !EndsLast(Coming(st, s)))
  }

  /** A request one of whose events was sent is in order. */
  lemma EventIsGood(st: State, now: State, s: Serial)
    requires Good(st, s) && SentEvent(st, now, s)
    ensures Good(now, s)
  {
    if s < st.next {
      if s in st.disowned {
        LateEventIsCast(st, now, s);
      } else {
        EventIsRegular(st, now, s);
      }
    }
  }

  lemma LateEventIsCast(st: State, now: State, s: Serial)
    requires Cast(st, s) && SentEvent(st, now, s)
    ensures Cast(now, s)
  {
  }

  lemma EventIsRegular(st: State, now: State, s: Serial)
    requires Regular(st, s) && Attended(st, s) && SentEvent(st, now, s)
    ensures Regular(now, s) && Attended(now, s)
  {
    assert Open(now, s) == Open(st, s);
    if st.connected {
      ProperAppend(Trail(st.out, s), Event(s));
    }
  }

  lemma ProperAppend(trail: seq<Line>, line: Line)
    requires Proper(trail) && trail != [] && !Settled(trail) && line.Event?
    ensures Proper(trail + [line]) && !Settled(trail + [line])
  {
  }

  lemma SettleActor(st: State)
    requires Sound(st) && Enabled(st, Settle) && Good(st, Actor(st, Settle))
    ensures Good(Apply(st, Settle), Actor(st, Settle))
  {
    if st.main.settling.Some? {
      var s, now := st.main.settling.value, Apply(st, Settle);
      assert Coming(st, s) == [] && Coming(now, s) == [];
      CloseHere(st, s, Free);
      ClosedIsGood(st, now, s);
    }
  }

  lemma PostActor(st: State, a: Action)
    requires Sound(st) && Enabled(st, a) && (a.Push? || a.Finish?) && Good(st, a.s)
    ensures Good(Apply(st, a), a.s)
  {
    ComingAfterPost(st, Note(a.s, a.size, a.Finish?), a.s);
    NoneLastEnds(Coming(st, a.s), a.Finish?);
  }

  lemma FutureActor(st: State, a: Action)
    requires Sound(st) && Enabled(st, a) && (a.Ready? || a.Observe?) && Good(st, a.s)
    ensures Good(Apply(st, a), a.s)
  {
  }

  /** Taking the inbox, or losing the connection, touches every request a little. */
  lemma TakeIsGood(st: State, s: Serial)
    requires Sound(st) && Enabled(st, Take) && Good(st, s)
    ensures Good(Apply(st, Take), s)
  {
    ComingAfterTake(st, s);
  }

  lemma LoseIsGood(st: State, s: Serial)
    requires Good(st, s)
    ensures Good(Apply(st, Lose), s)
  {
  }

  lemma ActorIsGood(st: State, a: Action)
    requires Sound(st) && Enabled(st, a) && Good(st, Actor(st, a)) && !a.Take? && !a.Lose?
    ensures Good(Apply(st, a), Actor(st, a))
  {
    match a
    case Frame(id, valid, cancel) => FrameActor(st, id, valid, cancel);
    case Answer => AnswerActor(st);
    case Disown => DisownActor(st);
    case Accept => AcceptActor(st);
    case Send => SendActor(st);
    case Settle => SettleActor(st);
    case Push(_, _) => PostActor(st, a);
    case Finish(_, _) => PostActor(st, a);
    case Ready(_) => FutureActor(st, a);
    case Observe(_) => FutureActor(st, a);
    case _ => DispatchActor(st, a);
  }

  /** Every step of the main thread and of the workers keeps the invariant. */
  lemma StepKeepsInvariant(st: State, a: Action)
    requires Invariant(st) && Enabled(st, a)
    ensures Invariant(Apply(st, a))
  {
    assert Good(st, Actor(st, a));
    SoundIsKept(st, a);
    forall s ensures Good(Apply(st, a), s) {
      assert Good(st, s);
      if a.Take? {
        TakeIsGood(st, s);
      } else if a.Lose? {
        LoseIsGood(st, s);
      } else if s == Actor(st, a) {
        ActorIsGood(st, a);
      } else {
        BystandersAreAlike(st, a, s);
        AlikeIsGood(st, Apply(st, a), s);
      }
    }
  }

  // ---- Runs --------------------------------------------------------------------------------------

  predicate Runs(st: State, actions: seq<Action>)
    decreases |actions|
  {
    actions == [] || (Enabled(st, actions[0]) && Runs(Apply(st, actions[0]), actions[1..]))
  }

  function After(st: State, actions: seq<Action>): State
    requires Runs(st, actions)
    decreases |actions|
  {
    if actions == [] then st else After(Apply(st, actions[0]), actions[1..])
  }

  lemma {:induction false} RunKeepsInvariant(st: State, actions: seq<Action>)
    requires Invariant(st) && Runs(st, actions)
    ensures Invariant(After(st, actions))
    decreases |actions|
  {
    if actions != [] {
      StepKeepsInvariant(st, actions[0]);
      RunKeepsInvariant(Apply(st, actions[0]), actions[1..]);
    }
  }

  lemma InitialIsGood(limit: nat, capacity: nat)
    ensures Invariant(Initial(limit, capacity))
  {
  }

  predicate HasTerminal(trail: seq<Line>) { exists i :: 0 <= i < |trail| && trail[i].Terminal? }

  ghost predicate AtMostOneTerminal(trail: seq<Line>) {
    forall i, j :: 0 <= i < j < |trail| ==> !(trail[i].Terminal? && trail[j].Terminal?)
  }

  lemma TrailsHaveOneTerminal(trail: seq<Line>)
    requires Proper(trail) || Late(trail)
    ensures AtMostOneTerminal(trail)
    ensures Proper(trail) ==> (HasTerminal(trail) <==> Settled(trail))
    ensures Late(trail) ==> (HasTerminal(trail) <==> trail != [])
  {
  }

  /**
   * For every interleaving and every request: there is at most one terminal line, and while the
   * connection lasts there is one exactly when the request's id is free again. If its handle was
   * not refused, the lines are an acceptance and events, if any, then the terminal line and nothing
   * more, and until then something still is to settle it. Between frames the ids in flight are
   * within the limit, and the buffered bytes always within theirs.
   */
  lemma OneTerminalLast(limit: nat, capacity: nat, actions: seq<Action>, s: Serial)
    requires Runs(Initial(limit, capacity), actions)
    ensures var st := After(Initial(limit, capacity), actions);
            && (st.main.Free? ==> |st.ids| <= st.limit) && st.bytes <= st.capacity
            && (s < st.next ==>
                  && AtMostOneTerminal(Trail(st.out, s))
                  && (st.connected ==> (HasTerminal(Trail(st.out, s)) <==> !Open(st, s))))
            && (s < st.next && s !in st.disowned ==>
                  Proper(Trail(st.out, s)) && (st.connected ==> Attended(st, s)))
  {
    var init := Initial(limit, capacity);
    InitialIsGood(limit, capacity);
    RunKeepsInvariant(init, actions);
    var st := After(init, actions);
    assert Good(st, s);
    if s < st.next {
      TrailsHaveOneTerminal(Trail(st.out, s));
    }
  }

  // ---- Refused handles: when events come behind the terminal line --------------------------------

  /** Nothing of a refused operation is left that could still be sent. */
  predicate Silent(st: State, s: Serial) { s !in st.talking && Coming(st, s) == [] }

  lemma SilenceIsKept(st: State, a: Action, s: Serial)
    requires Invariant(st) && Enabled(st, a) && s < st.next && s in st.disowned && Silent(st, s)
    ensures var t := Apply(st, a); s < t.next && s in t.disowned && Silent(t, s) && Trail(t.out, s) == Trail(st.out, s)
  {
    assert Good(st, s) && Good(st, Actor(st, a));
    if a.Take? {
      ComingAfterTake(st, s);
    } else if !a.Lose? {
      SilentIsNoActor(st, a, s);
      BystandersAreAlike(st, a, s);
    }
  }

  lemma SilentIsNoActor(st: State, a: Action, s: Serial)
    requires Good(st, s) && Enabled(st, a) && s < st.next && s in st.disowned && Silent(st, s) && !a.Take?
    ensures Actor(st, a) != s
  {
    if a.Send? {
      ComingAfterSend(st, s);
    }
  }

  lemma {:induction false} SilentForEver(st: State, actions: seq<Action>, s: Serial)
    requires Invariant(st) && Runs(st, actions) && s < st.next && s in st.disowned && Silent(st, s)
    ensures Trail(After(st, actions).out, s) == Trail(st.out, s)
    decreases |actions|
  {
    if actions != [] {
      SilenceIsKept(st, actions[0], s);
      StepKeepsInvariant(st, actions[0]);
      SilentForEver(Apply(st, actions[0]), actions[1..], s);
    }
  }

  /** Only a request in dispatch can have its handle refused. */
  predicate PastDispatch(st: State, s: Serial) {
    s < st.next && s !in st.disowned && !((st.main.Dispatching? || st.main.Starting?) && st.main.s == s)
  }

  lemma PastDispatchIsKept(st: State, a: Action, s: Serial)
    requires Enabled(st, a) && PastDispatch(st, s)
    ensures PastDispatch(Apply(st, a), s)
  {
  }

  lemma {:induction false} NeverRefusedLater(st: State, actions: seq<Action>, s: Serial)
    requires Invariant(st) && Runs(st, actions) && PastDispatch(st, s)
    ensures Proper(Trail(After(st, actions).out, s))
    decreases |actions|
  {
    assert Good(st, s);
    if actions != [] {
      StepKeepsInvariant(st, actions[0]);
      PastDispatchIsKept(st, actions[0], s);
      NeverRefusedLater(Apply(st, actions[0]), actions[1..], s);
    }
  }

  lemma {:induction false} RunsConcat(st: State, first: seq<Action>, second: seq<Action>)
    requires Runs(st, first) && Runs(After(st, first), second)
    ensures Runs(st, first + second) && After(st, first + second) == After(After(st, first), second)
    decreases |first|
  {
    if first == [] {
      assert first + second == second;
    } else {
      assert (first + second)[1..] == first[1..] + second;
      RunsConcat(Apply(st, first[0]), first[1..], second);
    }
  }

  /** The main thread may send all it took: each event of a request becomes a line about it. */
  lemma {:induction false} SendsAll(st: State, s: Serial) returns (actions: seq<Action>)
    requires st.main.Draining? && st.main.settling.None? && st.connected
    ensures Runs(st, actions)
    ensures var t := After(st, actions);
            && t.main.Free? && t.connected && t.overflow == st.overflow && t.inbox == st.inbox && t.bytes == st.bytes
            && t.capacity == st.capacity && t.talking == st.talking
            && |Trail(t.out, s)| == |Trail(st.out, s)| + |Flags(st.main.rest, s)|
    decreases |st.main.rest|
  {
    if st.main.rest == [] {
      actions := [Settle];
      assert Runs(Apply(st, Settle), []);
      RunsOneMore(st, Settle, []);
    } else {
      var n, next := st.main.rest[0], Apply(st, Send);
      var line := if n.done then Terminal(n.s) else Event(n.s);
      assert next.out == st.out + [line];
      TrailAppend(st.out, line, s);
      FlagsHead(st.main.rest, s);
      var more := SendsAll(next, s);
      RunsOneMore(st, Send, more);
      actions := [Send] + more;
    }
  }

  lemma OneEventSent(st: State, s: Serial)
    requires st.main.Free? && st.inbox == [] && st.bytes == 0 && 1 <= st.capacity
    requires st.connected && !st.overflow && s in st.talking
    ensures Runs(st, [Push(s, 1), Take, Send])
    ensures Trail(After(st, [Push(s, 1), Take, Send]).out, s) == Trail(st.out, s) + [Event(s)]
  {
    var pushed := Apply(st, Push(s, 1));
    assert pushed.inbox == [Note(s, 1, false)] && pushed.out == st.out && pushed.main.Free? && pushed.connected
           && !pushed.overflow;
    TakenAndSent(pushed, s);
    RunsOneMore(st, Push(s, 1), [Take, Send]);
  }

  lemma TakenAndSent(st: State, s: Serial)
    requires st.main.Free? && st.inbox == [Note(s, 1, false)] && st.connected && !st.overflow
    ensures Runs(st, [Take, Send]) && Trail(After(st, [Take, Send]).out, s) == Trail(st.out, s) + [Event(s)]
  {
    var taken := Apply(st, Take);
    assert taken.main == Draining([Note(s, 1, false)], None) && taken.out == st.out;
    assert Apply(taken, Send).out == st.out + [Event(s)];
    TrailAppend(st.out, Event(s), s);
    RunsOneMore(taken, Send, []);
    RunsOneMore(st, Take, [Send]);
  }

  /** A refused operation that still talks, or has events on their way, can send one behind the terminal line. */
  lemma NextEventIsLate(st: State, s: Serial) returns (actions: seq<Action>)
    requires st.main.Free? && st.connected && !st.overflow && 1 <= st.capacity && !Silent(st, s)
    ensures Runs(st, actions) && |Trail(After(st, actions).out, s)| > |Trail(st.out, s)|
  {
    var taken := Apply(st, Take);
    assert taken.main == Draining(st.inbox, None) && taken.out == st.out;
    var sends := SendsAll(taken, s);
    RunsOneMore(st, Take, sends);
    actions := [Take] + sends;
    var drained := After(taken, sends);
    if Coming(st, s) == [] {
      OneEventSent(drained, s);
      RunsConcat(st, actions, [Push(s, 1), Take, Send]);
      actions := actions + [Push(s, 1), Take, Send];
    } else {
      assert Coming(st, s) == Flags(st.inbox, s);
    }
  }

  /** The lines about a request keep their order in every future. */
  ghost predicate OrderlyForEver(st: State, s: Serial) {
    forall actions :: Runs(st, actions) ==> Proper(Trail(After(st, actions).out, s))
  }

  /**
   * Between two frames, on a connection that can still carry an event: the lines about a request
   * keep their order in every future exactly when its handle was not refused, or nothing of the
   * refused operation is left to be sent and nothing was sent behind its terminal line before.
   */
  lemma OrderIsLostExactly(st: State, s: Serial)
    requires Invariant(st) && st.main.Free? && st.connected && !st.overflow && 1 <= st.capacity && s < st.next
    ensures OrderlyForEver(st, s) <==> s !in st.disowned || (Silent(st, s) && |Trail(st.out, s)| == 1)
  {
    assert Good(st, s);
    if s !in st.disowned {
      forall actions | Runs(st, actions) ensures Proper(Trail(After(st, actions).out, s)) {
        NeverRefusedLater(st, actions, s);
      }
    } else if Silent(st, s) {
      assert Runs(st, []) && After(st, []) == st;
      forall actions | Runs(st, actions) ensures Trail(After(st, actions).out, s) == Trail(st.out, s) {
        SilentForEver(st, actions, s);
      }
      LateIsProper(Trail(st.out, s));
    } else {
      var actions := NextEventIsLate(st, s);
      RunKeepsInvariant(st, actions);
      LaterStillRefused(st, actions, s);
      assert Good(After(st, actions), s);
      LateIsProper(Trail(After(st, actions).out, s));
    }
  }

  lemma LateIsProper(trail: seq<Line>)
    requires Late(trail) && trail != []
    ensures Proper(trail) <==> |trail| == 1
  {
    if |trail| > 1 {
      assert trail[0].Terminal?;
    }
  }

  lemma {:induction false} LaterStillRefused(st: State, actions: seq<Action>, s: Serial)
    requires Runs(st, actions)
    ensures st.disowned <= After(st, actions).disowned && st.next <= After(st, actions).next
    decreases |actions|
  {
    if actions != [] {
      LaterStillRefused(Apply(st, actions[0]), actions[1..], s);
    }
  }

  /** An input: a handle refused after one event, which is sent behind the terminal line. */
  lemma RefusedHandleMixesEvents()
    ensures exists actions ::
              Runs(Initial(1, 9), actions) && Trail(After(Initial(1, 9), actions).out, 0) == [Terminal(0), Event(0)]
  {
    var opening := [Frame("1", true, false), Start(false), Disown];
    var refused := RefusedAtOnce();
    OneEventSent(refused, 0);
    RunsConcat(Initial(1, 9), opening, [Push(0, 1), Take, Send]);
  }

  lemma RefusedAtOnce() returns (st: State)
    ensures var opening := [Frame("1", true, false), Start(false), Disown];
            Runs(Initial(1, 9), opening) && After(Initial(1, 9), opening) == st
    ensures st.main.Free? && st.inbox == [] && st.bytes == 0 && st.capacity == 9 && st.connected && !st.overflow
    ensures 0 in st.talking && Trail(st.out, 0) == [Terminal(0)]
  {
    var framed := Apply(Initial(1, 9), Frame("1", true, false));
    var started := Apply(framed, Start(false));
    st := Apply(started, Disown);
    assert st.out == [] + [Terminal(0)];
    TrailAppend([], Terminal(0), 0);
    RunsOneMore(started, Disown, []);
    RunsOneMore(framed, Start(false), [Disown]);
    RunsOneMore(Initial(1, 9), Frame("1", true, false), [Start(false), Disown]);
  }

  // ---- What a client sees under one id -----------------------------------------------------------

  /** The line carries the id: it refuses a frame with that id, or is about a request admitted under it. */
  predicate Bears(st: State, line: Line, id: string) {
    if line.Refused? then line.id == id else line.s in st.names && st.names[line.s] == id
  }

  function IdTrail(st: State, out: seq<Line>, id: string): seq<Line> {
    if out == [] then []
    else
      var last := out[|out| - 1];
      IdTrail(st, out[..|out| - 1], id) + if Bears(st, last, id) then [last] else []
  }

  predicate About(line: Line, s: Serial) { !line.Refused? && line.s == s }

  /** Every line that carries the id is about this one request. */
  ghost predicate OnlyAbout(st: State, out: seq<Line>, id: string, s: Serial) {
    forall i :: 0 <= i < |out| && Bears(st, out[i], id) ==> About(out[i], s)
  }

  lemma {:induction false} TrailIsAbout(out: seq<Line>, s: Serial)
    ensures forall line :: line in Trail(out, s) ==> About(line, s) && line in out
  {
    if out != [] {
      TrailIsAbout(out[..|out| - 1], s);
    }
  }

  lemma {:induction false} OnlyAboutIsTrail(st: State, out: seq<Line>, id: string, s: Serial)
    requires s in st.names && st.names[s] == id
    ensures IdTrail(st, out, id) == Trail(out, s) <==> OnlyAbout(st, out, id, s)
  {
    if out != [] {
      var init, last := out[..|out| - 1], out[|out| - 1];
      OnlyAboutIsTrail(st, init, id, s);
      OnlyAboutLast(st, init, last, id, s);
      assert out == init + [last];
      if Bears(st, last, id) && !About(last, s) {
        TrailIsAbout(out, s);
        assert last in IdTrail(st, out, id) && last !in Trail(out, s);
      } else if Bears(st, last, id) {
        assert IdTrail(st, out, id) == IdTrail(st, init, id) + [last] && Trail(out, s) == Trail(init, s) + [last];
        SameLast(IdTrail(st, init, id), Trail(init, s), last);
      } else {
        assert !About(last, s);
        assert IdTrail(st, out, id) == IdTrail(st, init, id) && Trail(out, s) == Trail(init, s);
      }
    }
  }

  lemma OnlyAboutLast(st: State, init: seq<Line>, last: Line, id: string, s: Serial)
    ensures OnlyAbout(st, init + [last], id, s) <==>
              OnlyAbout(st, init, id, s) && (Bears(st, last, id) ==> About(last, s))
  {
    var out := init + [last];
    assert forall i :: 0 <= i < |init| ==> out[i] == init[i];
    assert out[|init|] == last;
  }

  lemma SameLast(a: seq<Line>, b: seq<Line>, line: Line)
    ensures a + [line] == b + [line] <==> a == b
  {
    if a + [line] == b + [line] {
      assert a == (a + [line])[..|a|] && b == (b + [line])[..|b|];
    }
  }

  /** How many frames of a run carry the id. */
  function Carried(actions: seq<Action>, id: string): nat {
    if actions == [] then 0 else Carries(actions[0], id) + Carried(actions[1..], id)
  }

  function Carries(a: Action, id: string): nat { if a.Frame? && a.id == id then 1 else 0 }

  /** What has become of them: refused with a line, or admitted as a request. */
  function Uses(st: State, id: string): nat { Refusals(st.out, id) + |Carriers(st, id)| }

  function Refusals(out: seq<Line>, id: string): nat {
    if out == [] then 0 else Refusals(out[..|out| - 1], id) + if out[|out| - 1] == Refused(id) then 1 else 0
  }

  function Carriers(st: State, id: string): set<Serial> { set s | s in st.names && st.names[s] == id }

  lemma RefusalsAppend(out: seq<Line>, line: Line, id: string)
    ensures Refusals(out + [line], id) == Refusals(out, id) + if line == Refused(id) then 1 else 0
  {
    assert (out + [line])[..|out|] == out;
  }

  lemma {:induction false} RefusalsMember(out: seq<Line>, id: string)
    ensures Refusals(out, id) > 0 <==> Refused(id) in out
  {
    if out != [] {
      RefusalsMember(out[..|out| - 1], id);
      assert out == out[..|out| - 1] + [out[|out| - 1]];
    }
  }

  /** Only a frame is a new use of its id; on a connection that is up, every frame is one. */
  lemma StepUses(st: State, a: Action, id: string)
    requires Sound(st) && Enabled(st, a)
    ensures Uses(Apply(st, a), id) <= Uses(st, id) + Carries(a, id)
    ensures st.connected ==> Uses(Apply(st, a), id) == Uses(st, id) + Carries(a, id)
  {
    if !a.Frame? {
      NamesStay(st, a);
      OtherLinesRefuseNothing(st, a, id);
    } else if Refuses(st, a.id, a.valid, a.cancel) {
      RefusalsAppend(st.out, Refused(a.id), id);
      assert Carriers(Apply(st, a), id) == Carriers(st, id);
    } else {
      AdmissionIsOneUse(st, Apply(st, a), a.id, id);
    }
  }

  lemma NamesStay(st: State, a: Action)
    requires Enabled(st, a) && !a.Frame?
    ensures Apply(st, a).names == st.names
    ensures forall id :: Carriers(Apply(st, a), id) == Carriers(st, id)
  {
  }

  lemma AdmissionIsOneUse(st: State, t: State, name: string, id: string)
    requires st.next !in st.names && t.names == st.names[st.next := name] && t.out == st.out
    ensures Uses(t, id) == Uses(st, id) + if name == id then 1 else 0
  {
    assert Carriers(t, id) == if name == id then Carriers(st, id) + {st.next} else Carriers(st, id);
  }

  lemma OtherLinesRefuseNothing(st: State, a: Action, id: string)
    requires Enabled(st, a) && !a.Frame?
    ensures Refusals(Apply(st, a).out, id) == Refusals(st.out, id)
  {
    var t := Apply(st, a);
    if t.out != st.out {
      var line := t.out[|t.out| - 1];
      assert t.out == st.out + [line] && !line.Refused?;
      RefusalsAppend(st.out, line, id);
    }
  }

  lemma {:induction false} RunUses(st: State, actions: seq<Action>, id: string)
    requires Invariant(st) && Runs(st, actions)
    ensures var t := After(st, actions);
            && Uses(t, id) <= Uses(st, id) + Carried(actions, id)
            && (t.connected ==> st.connected && Uses(t, id) == Uses(st, id) + Carried(actions, id))
    decreases |actions|
  {
    if actions != [] {
      StepUses(st, actions[0], id);
      StepKeepsInvariant(st, actions[0]);
      RunUses(Apply(st, actions[0]), actions[1..], id);
    }
  }

  /** An id used once is borne by lines about its request only. */
  lemma UsedOnce(st: State, s: Serial)
    requires s in st.names && Uses(st, st.names[s]) <= 1
    ensures OnlyAbout(st, st.out, st.names[s], s)
  {
    var id := st.names[s];
    assert s in Carriers(st, id);
    forall t | t in Carriers(st, id) ensures t == s {
      if t != s {
        TwoAtLeast(Carriers(st, id), s, t);
      }
    }
    RefusalsMember(st.out, id);
    forall i | 0 <= i < |st.out| && Bears(st, st.out[i], id) ensures About(st.out[i], s) {
      assert st.out[i] in st.out;
      assert !st.out[i].Refused? ==> st.out[i].s in Carriers(st, id);
    }
  }

  lemma TwoAtLeast(all: set<Serial>, s: Serial, t: Serial)
    requires s in all && t in all && s != t
    ensures |all| >= 2
  {
    assert |all - {s}| == |all| - 1 && t in all - {s};
  }

  /** A line under the id that belongs to another use of it. */
  ghost predicate Foreign(st: State, line: Line, s: Serial) {
    && line in st.out && s in st.names && Bears(st, line, st.names[s])
    && (line.Refused? || (line.Terminal? && line.s != s))
  }

  /** An id used twice and free again: every use has left a refusal or a terminal line. */
  lemma UsedTwice(st: State, s: Serial) returns (line: Line)
    requires Invariant(st) && st.connected && s in st.names && st.names[s] !in st.ids && Uses(st, st.names[s]) >= 2
    ensures Foreign(st, line, s)
  {
    var id := st.names[s];
    RefusalsMember(st.out, id);
    if Refused(id) in st.out {
      line := Refused(id);
    } else {
      var others := Carriers(st, id) - {s};
      assert Carriers(st, id) == others + {s};
      var t :| t in others;
      FreeIsSettled(st, t);
      line := Terminal(t);
    }
  }

  lemma FreeIsSettled(st: State, s: Serial)
    requires Invariant(st) && st.connected && s in st.names && st.names[s] !in st.ids
    ensures Terminal(s) in st.out
  {
    assert Good(st, s);
    TrailIsAbout(st.out, s);
    var trail := Trail(st.out, s);
    TrailsHaveOneTerminal(trail);
    var i :| 0 <= i < |trail| && trail[i].Terminal?;
    assert trail[i] in trail && trail[i] == Terminal(s);
  }

  lemma {:induction false} IdTrailHas(st: State, out: seq<Line>, id: string, line: Line)
    ensures line in IdTrail(st, out, id) <==> line in out && Bears(st, line, id)
  {
    if out != [] {
      IdTrailHas(st, out[..|out| - 1], id, line);
      assert out == out[..|out| - 1] + [out[|out| - 1]];
    }
  }

  /**
   * A client that goes by ids sees one request's lines under an id that it has sent in one frame
   * only. Once the id is free again on a connection that is up, this is the only way: a second frame,
   * in flight or later, has left a line of its own.
   */
  lemma IdTrailIsTrail(limit: nat, capacity: nat, actions: seq<Action>, s: Serial)
    requires Runs(Initial(limit, capacity), actions) && s in After(Initial(limit, capacity), actions).names
    ensures var st := After(Initial(limit, capacity), actions);
            var id := st.names[s];
            && (Carried(actions, id) == 1 ==> IdTrail(st, st.out, id) == Trail(st.out, s))
            && (st.connected && id !in st.ids ==>
              (IdTrail(st, st.out, id) == Trail(st.out, s) <==> Carried(actions, id) == 1))
  {
    var st := After(Initial(limit, capacity), actions);
    var id := st.names[s];
    UsesAreFrames(limit, capacity, actions, s);
    OnlyAboutIsTrail(st, st.out, id, s);
    if Carried(actions, id) == 1 {
      UsedOnce(st, s);
    } else if st.connected && id !in st.ids {
      var line := UsedTwice(st, s);
      var i :| 0 <= i < |st.out| && st.out[i] == line;
    }
  }

  lemma UsesAreFrames(limit: nat, capacity: nat, actions: seq<Action>, s: Serial)
    requires Runs(Initial(limit, capacity), actions) && s in After(Initial(limit, capacity), actions).names
    ensures var st := After(Initial(limit, capacity), actions);
            var id := st.names[s];
            && Invariant(st) && 1 <= Uses(st, id) <= Carried(actions, id)
            && (st.connected ==> Uses(st, id) == Carried(actions, id))
  {
    var init := Initial(limit, capacity);
    var st := After(init, actions);
    InitialIsGood(limit, capacity);
    RunKeepsInvariant(init, actions);
    RunUses(init, actions, st.names[s]);
    assert Carriers(init, st.names[s]) == {};
    assert s in Carriers(st, st.names[s]);
  }

  /** What a client expects under one id: acceptance, events, one terminal line, and no refusal. */
  ghost predicate Orderly(trail: seq<Line>) { Proper(trail) && forall i :: 0 <= i < |trail| ==> !trail[i].Refused? }

  /**
   * Under an id sent in one frame a client sees what it expects, unless the handle was refused. When
   * the id is free again on a connection that is up, it does so exactly when there was one frame and
   * no refused operation has spoken behind its terminal line.
   */
  lemma OneIdIsProper(limit: nat, capacity: nat, actions: seq<Action>, s: Serial)
    requires Runs(Initial(limit, capacity), actions) && s in After(Initial(limit, capacity), actions).names
    ensures var st := After(Initial(limit, capacity), actions);
            var id := st.names[s];
            var seen := IdTrail(st, st.out, id);
            && (Carried(actions, id) == 1 && s !in st.disowned ==> Orderly(seen))
            && (st.connected && id !in st.ids ==>
                  (Orderly(seen) <==> Carried(actions, id) == 1 && (s !in st.disowned || |Trail(st.out, s)| == 1)))
  {
    var st := After(Initial(limit, capacity), actions);
    var id := st.names[s];
    UsesAreFrames(limit, capacity, actions, s);
    IdTrailIsTrail(limit, capacity, actions, s);
    TrailRefusesNothing(st.out, s);
    assert Good(st, s);
    if Carried(actions, id) != 1 && st.connected && id !in st.ids {
      var line := UsedTwice(st, s);
      FreeIsSettled(st, s);
      ForeignIsDisorderly(st, line, s);
    } else if s in st.disowned && st.connected {
      LateIsProper(Trail(st.out, s));
    }
  }

  lemma TrailRefusesNothing(out: seq<Line>, s: Serial)
    ensures forall i :: 0 <= i < |Trail(out, s)| ==> !Trail(out, s)[i].Refused?
  {
    TrailIsAbout(out, s);
    forall i | 0 <= i < |Trail(out, s)| ensures !Trail(out, s)[i].Refused? {
      assert Trail(out, s)[i] in Trail(out, s);
    }
  }

  lemma ForeignIsDisorderly(st: State, line: Line, s: Serial)
    requires Foreign(st, line, s) && Terminal(s) in st.out
    ensures !Orderly(IdTrail(st, st.out, st.names[s]))
  {
    var seen := IdTrail(st, st.out, st.names[s]);
    IdTrailHas(st, st.out, st.names[s], line);
    IdTrailHas(st, st.out, st.names[s], Terminal(s));
    var i :| 0 <= i < |seen| && seen[i] == line;
    var j :| 0 <= j < |seen| && seen[j] == Terminal(s);
  }

  /** An input: the id is repeated while its request is in flight, and refused under the same id. */
  lemma RepeatedIdIsRefused()
    ensures exists actions ::
              && Runs(Initial(1, 9), actions)
              && var st := After(Initial(1, 9), actions);
                 Open(st, 0) && st.names[0] == "1" && IdTrail(st, st.out, "1") == [Refused("1")]
  {
    var framed := Apply(Initial(1, 9), Frame("1", true, false));
    var watched := Apply(framed, Watch);
    var st := Apply(watched, Frame("1", true, false));
    var repeated := [Frame("1", true, false), Watch, Frame("1", true, false)];
    assert st.out == [Refused("1")] && st.out[..0] == [] && IdTrail(st, st.out, "1") == [] + [Refused("1")];
    assert Runs(st, []) && After(st, []) == st;
    RunsOneMore(watched, Frame("1", true, false), []);
    RunsOneMore(framed, Watch, [Frame("1", true, false)]);
    RunsOneMore(Initial(1, 9), Frame("1", true, false), [Watch, Frame("1", true, false)]);
    assert Runs(Initial(1, 9), repeated) && After(Initial(1, 9), repeated) == st;
  }

  lemma RunsOneMore(st: State, a: Action, rest: seq<Action>)
    requires Enabled(st, a) && Runs(Apply(st, a), rest)
    ensures Runs(st, [a] + rest) && After(st, [a] + rest) == After(Apply(st, a), rest)
  {
    assert ([a] + rest)[1..] == rest;
  }
}
