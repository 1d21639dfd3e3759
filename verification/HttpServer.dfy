/**
 * Two concurrent protocols of the HTTP server: the admission of requests by compare-and-swap on a
 * shared counter, and the stream of an RPC call, written by handler threads and drained by another.
 */
module HttpAdmission {
  import opened Common

  type Request = nat

  /** Where a request's thread is: it has read the counter, holds a charged lease, or is through. */
  datatype Phase =
    | Loaded(control: bool, seen: int) | Charged(control: bool) | Rejected(control: bool) | Released(control: bool)

  /** The two counters, their limits, and every request so far. */
  datatype State = State(work: int, control: int, workLimit: int, controlLimit: int, requests: map<Request, Phase>)

  /** A weak exchange may fail spuriously. */
  datatype Action = Load(r: Request, control: bool) | Exchange(r: Request, spurious: bool) | Destroy(r: Request)

  function CountOf(s: State, control: bool): int { if control then s.control else s.work }

  function LimitOf(s: State, control: bool): int { if control then s.controlLimit else s.workLimit }

  function WithCount(s: State, control: bool, count: int): State {
    if control then s.(control := count) else s.(work := count)
  }

  predicate Enabled(s: State, a: Action) {
    match a
    case Load(r, _) => r !in s.requests
    case Exchange(r, _) => r in s.requests && s.requests[r].Loaded?
    case Destroy(r) => r in s.requests && s.requests[r].Charged?
  }

  function Apply(s: State, a: Action): State
    requires Enabled(s, a)
  {
    match a
    case Load(r, control) => s.(requests := s.requests[r := Loaded(control, CountOf(s, control))])
    case Exchange(r, spurious) =>
      var p := s.requests[r];
      if p.seen >= LimitOf(s, p.control) then s.(requests := s.requests[r := Rejected(p.control)])
      else if CountOf(s, p.control) == p.seen && !spurious then
        WithCount(s, p.control, p.seen + 1).(requests := s.requests[r := Charged(p.control)])
      else s.(requests := s.requests[r := Loaded(p.control, CountOf(s, p.control))])
    case Destroy(r) =>
      var p := s.requests[r];
      WithCount(s, p.control, CountOf(s, p.control) - 1).(requests := s.requests[r := Released(p.control)])
  }

  /** The live charged leases of one kind. */
  function Leases(s: State, control: bool): set<Request> {
    set r | r in s.requests && s.requests[r] == Charged(control)
  }

  ghost predicate Invariant(s: State) {
    Exact(s, false) && Exact(s, true)
  }

  function Initial(workLimit: nat, controlLimit: nat): State { State(0, 0, workLimit, controlLimit, map[]) }

  lemma LeasesAfter(s: State, a: Action, control: bool)
    requires Enabled(s, a)
    ensures var t := Apply(s, a);
            Leases(t, control) == (if t.requests[a.r] == Charged(control) then Leases(s, control) + {a.r}
              else Leases(s, control) - {a.r})
  {
  }

  ghost predicate Exact(s: State, control: bool) {
    CountOf(s, control) == |Leases(s, control)| && CountOf(s, control) <= LimitOf(s, control)
  }

  lemma ExactIsKept(s: State, a: Action, control: bool)
    requires Exact(s, control) && Enabled(s, a)
    ensures Exact(Apply(s, a), control)
  {
    LeasesAfter(s, a, control);
    Counted(Leases(s, control), a.r);
    assert a.r in Leases(s, control) <==> a.r in s.requests && s.requests[a.r] == Charged(control);
  }

  lemma Counted(leases: set<Request>, r: Request)
    ensures |leases + {r}| == |leases| + (if r in leases then 0 else 1)
    ensures |leases - {r}| == |leases| - (if r in leases then 1 else 0)
  {
    assert r in leases ==> leases + {r} == leases;
    assert r !in leases ==> leases - {r} == leases;
  }

  lemma StepKeepsInvariant(s: State, a: Action)
    requires Invariant(s) && Enabled(s, a)
    ensures Invariant(Apply(s, a))
  {
    ExactIsKept(s, a, false);
    ExactIsKept(s, a, true);
  }

  predicate Runs(s: State, actions: seq<Action>)
    decreases |actions|
  {
    actions == [] || (Enabled(s, actions[0]) && Runs(Apply(s, actions[0]), actions[1..]))
  }

  function After(s: State, actions: seq<Action>): State
    requires Runs(s, actions)
    decreases |actions|
  {
    if actions == [] then s else After(Apply(s, actions[0]), actions[1..])
  }

  lemma {:induction false} RunKeepsInvariant(s: State, actions: seq<Action>)
    requires Invariant(s) && Runs(s, actions)
    ensures var t := After(s, actions); Invariant(t) && t.workLimit == s.workLimit && t.controlLimit == s.controlLimit
    decreases |actions|
  {
    if actions != [] {
      StepKeepsInvariant(s, actions[0]);
      RunKeepsInvariant(Apply(s, actions[0]), actions[1..]);
    }
  }

  /** However the threads interleave, each counter is the number of its live leases, and within its limit. */
  lemma CountersAreExact(workLimit: nat, controlLimit: nat, actions: seq<Action>)
    requires Runs(Initial(workLimit, controlLimit), actions)
    ensures var t := After(Initial(workLimit, controlLimit), actions);
            && t.work == |Leases(t, false)| <= workLimit && t.control == |Leases(t, true)| <= controlLimit
  {
    var init := Initial(workLimit, controlLimit);
    assert forall control :: Leases(init, control) == {};
    RunKeepsInvariant(init, actions);
    var t := After(init, actions);
    assert CountOf(t, false) == t.work && CountOf(t, true) == t.control;
  }

  function KindOf(s: State, a: Action): bool
    requires Enabled(s, a)
  {
    match a
    case Load(_, control) => control
    case Exchange(r, _) => s.requests[r].control
    case Destroy(r) => s.requests[r].control
  }

  // ---- Work and control are independent, over whole runs -----------------------------------------

  /** The actions of one kind in a run. */
  function Projected(s: State, actions: seq<Action>, control: bool): seq<Action>
    requires Runs(s, actions)
    decreases |actions|
  {
    if actions == [] then []
    else
      (if KindOf(s, actions[0]) == control then [actions[0]] else [])
      + Projected(Apply(s, actions[0]), actions[1..], control)
  }

  predicate OfKind(s: State, r: Request, control: bool) { r in s.requests && s.requests[r].control == control }

  /** The second state knows of one kind what the first knows, and no other requests. */
  ghost predicate Agree(s: State, t: State, control: bool) {
    && CountOf(t, control) == CountOf(s, control) && LimitOf(t, control) == LimitOf(s, control)
    && t.requests.Keys <= s.requests.Keys
    && forall r :: OfKind(s, r, control) ==> r in t.requests && t.requests[r] == s.requests[r]
  }

  lemma SameKindAgrees(s: State, t: State, a: Action, control: bool)
    requires Enabled(s, a) && Agree(s, t, control) && KindOf(s, a) == control
    ensures Enabled(t, a) && Agree(Apply(s, a), Apply(t, a), control)
  {
    assert a.Load? || OfKind(s, a.r, control);
    forall r | OfKind(Apply(s, a), r, control)
      ensures r in Apply(t, a).requests && Apply(t, a).requests[r] == Apply(s, a).requests[r] {
      assert r != a.r ==> OfKind(s, r, control);
    }
  }

  lemma OtherKindAgrees(s: State, t: State, a: Action, control: bool)
    requires Enabled(s, a) && Agree(s, t, control) && KindOf(s, a) != control
    ensures Agree(Apply(s, a), t, control)
  {
    forall r | OfKind(Apply(s, a), r, control) ensures r in t.requests && t.requests[r] == Apply(s, a).requests[r] {
      assert r != a.r;
      assert OfKind(s, r, control);
    }
  }

  lemma {:induction false} ProjectionAgrees(s: State, t: State, actions: seq<Action>, control: bool)
    requires Runs(s, actions) && Agree(s, t, control)
    ensures Runs(t, Projected(s, actions, control))
    ensures Agree(After(s, actions), After(t, Projected(s, actions, control)), control)
    decreases |actions|
  {
    if actions != [] {
      var a, rest := actions[0], Projected(Apply(s, actions[0]), actions[1..], control);
      if KindOf(s, a) == control {
        SameKindAgrees(s, t, a, control);
        ProjectionAgrees(Apply(s, a), Apply(t, a), actions[1..], control);
        assert ([a] + rest)[1..] == rest;
      } else {
        OtherKindAgrees(s, t, a, control);
        assert Projected(s, actions, control) == rest;
        ProjectionAgrees(Apply(s, a), t, actions[1..], control);
      }
    }
  }

  /**
   * Work and control never affect each other: whatever the interleaving, the actions of one kind
   * alone are a run too, and end with the same counter, the same live leases of that kind and the
   * same outcome of each of its requests.
   */
  lemma KindsAreIndependent(workLimit: nat, controlLimit: nat, actions: seq<Action>, control: bool)
    requires Runs(Initial(workLimit, controlLimit), actions)
    ensures var init := Initial(workLimit, controlLimit);
            var alone := Projected(init, actions, control);
            && Runs(init, alone)
            && var s, t := After(init, actions), After(init, alone);
            && CountOf(t, control) == CountOf(s, control) && Leases(t, control) == Leases(s, control)
            && forall r :: OfKind(s, r, control) ==> r in t.requests && t.requests[r] == s.requests[r]
  {
    var init := Initial(workLimit, controlLimit);
    ProjectionAgrees(init, init, actions, control);
    ProjectedKinds(init, init, actions, control);
    var s, t := After(init, actions), After(init, Projected(init, actions, control));
    forall r ensures r in Leases(t, control) <==> r in Leases(s, control) {
      assert OfKind(s, r, control) <==> OfKind(t, r, control);
    }
  }

  /** The projected run has requests of its kind only, and they are those of the whole run. */
  lemma {:induction false} ProjectedKinds(s: State, t: State, actions: seq<Action>, control: bool)
    requires Runs(s, actions) && Agree(s, t, control) && forall r :: r in t.requests ==> OfKind(s, r, control)
    ensures Runs(t, Projected(s, actions, control))
    ensures forall r :: r in After(t, Projected(s, actions, control)).requests ==> OfKind(After(s, actions), r, control)
    decreases |actions|
  {
    ProjectionAgrees(s, t, actions, control);
    if actions != [] {
      var a, rest := actions[0], Projected(Apply(s, actions[0]), actions[1..], control);
      if KindOf(s, a) == control {
        SameKindAgrees(s, t, a, control);
        KeepsKinds(s, a, control);
        ProjectedKinds(Apply(s, a), Apply(t, a), actions[1..], control);
        assert ([a] + rest)[1..] == rest;
      } else {
        OtherKindAgrees(s, t, a, control);
        KeepsKinds(s, a, control);
        assert Projected(s, actions, control) == rest;
        ProjectedKinds(Apply(s, a), t, actions[1..], control);
      }
    }
  }

  lemma KeepsKinds(s: State, a: Action, control: bool)
    requires Enabled(s, a)
    ensures forall r :: OfKind(s, r, control) ==> OfKind(Apply(s, a), r, control)
    ensures KindOf(s, a) == control ==> OfKind(Apply(s, a), a.r, control)
  {
  }

  // ---- Rejections are warranted ------------------------------------------------------------------

  /** The states a run goes through. */
  function Moments(s: State, actions: seq<Action>): seq<State>
    requires Runs(s, actions)
    decreases |actions|
  {
    [s] + if actions == [] then [] else Moments(Apply(s, actions[0]), actions[1..])
  }

  /** Some state among these had the counter at this value, or at the limit. */
  predicate Seen(moments: seq<State>, control: bool, count: int) {
    exists i :: 0 <= i < |moments| && CountOf(moments[i], control) == count
  }

  predicate SeenFull(moments: seq<State>, control: bool) {
    exists i :: 0 <= i < |moments| && CountOf(moments[i], control) >= LimitOf(moments[i], control)
  }

  /** What a request has read, and why it was rejected, was true at one of these moments. */
  ghost predicate Warranted(s: State, r: Request, moments: seq<State>) {
    r in s.requests ==>
      && (s.requests[r].Loaded? ==> Seen(moments, s.requests[r].control, s.requests[r].seen))
      && (s.requests[r].Rejected? ==> SeenFull(moments, s.requests[r].control))
  }

  ghost predicate SameLimits(s: State, moments: seq<State>) {
    forall i :: 0 <= i < |moments| ==> moments[i].workLimit == s.workLimit && moments[i].controlLimit == s.controlLimit
  }

  lemma StepIsWarranted(s: State, a: Action, r: Request, past: seq<State>)
    requires Enabled(s, a) && SameLimits(s, past) && s in past && Warranted(s, r, past)
    ensures var t := Apply(s, a); Warranted(t, r, past + [t]) && SameLimits(t, past + [t]) && t in past + [t]
  {
    var t := Apply(s, a);
    var now := past + [t];
    assert now[|past|] == t && forall i :: 0 <= i < |past| ==> now[i] == past[i];
    var k :| 0 <= k < |past| && past[k] == s;
    assert now[k] == s;
    if r in s.requests && s.requests[r].Loaded? {
      var i :| 0 <= i < |past| && CountOf(past[i], s.requests[r].control) == s.requests[r].seen;
      assert CountOf(now[i], s.requests[r].control) == s.requests[r].seen;
    }
    if r in s.requests && s.requests[r].Rejected? {
      var i :| 0 <= i < |past| && CountOf(past[i], s.requests[r].control) >= LimitOf(past[i], s.requests[r].control);
      assert CountOf(now[i], s.requests[r].control) >= LimitOf(now[i], s.requests[r].control);
    }
  }

  lemma {:induction false} RunIsWarranted(s: State, actions: seq<Action>, r: Request, past: seq<State>)
    requires Runs(s, actions) && SameLimits(s, past) && s in past && Warranted(s, r, past)
    ensures Warranted(After(s, actions), r, past + Moments(s, actions)[1..])
    decreases |actions|
  {
    if actions == [] {
      assert past + Moments(s, actions)[1..] == past;
    } else {
      var t := Apply(s, actions[0]);
      StepIsWarranted(s, actions[0], r, past);
      RunIsWarranted(t, actions[1..], r, past + [t]);
      assert Moments(s, actions)[1..] == [t] + Moments(t, actions[1..])[1..];
      assert past + [t] + Moments(t, actions[1..])[1..] == past + Moments(s, actions)[1..];
    }
  }

  lemma {:induction false} MomentsKeepInvariant(s: State, actions: seq<Action>)
    requires Runs(s, actions) && Invariant(s)
    ensures forall t :: t in Moments(s, actions) ==>
              Invariant(t) && t.workLimit == s.workLimit && t.controlLimit == s.controlLimit
    decreases |actions|
  {
    if actions != [] {
      StepKeepsInvariant(s, actions[0]);
      MomentsKeepInvariant(Apply(s, actions[0]), actions[1..]);
    }
  }

  /** A request is turned away only if at some moment of the run all places of its kind were taken by live leases. */
  lemma RejectionIsWarranted(workLimit: nat, controlLimit: nat, actions: seq<Action>, r: Request)
    requires Runs(Initial(workLimit, controlLimit), actions)
    requires var s := After(Initial(workLimit, controlLimit), actions); r in s.requests && s.requests[r].Rejected?
    ensures var init := Initial(workLimit, controlLimit);
            var control := After(init, actions).requests[r].control;
            exists t :: t in Moments(init, actions) && |Leases(t, control)| == LimitOf(init, control)
  {
    var init := Initial(workLimit, controlLimit);
    var control := After(init, actions).requests[r].control;
    var moments := Moments(init, actions);
    assert Leases(init, false) == {} && Leases(init, true) == {};
    MomentsKeepInvariant(init, actions);
    RunIsWarranted(init, actions, r, [init]);
    assert [init] + moments[1..] == moments;
    var i :| 0 <= i < |moments| && CountOf(moments[i], control) >= LimitOf(moments[i], control);
    assert moments[i] in moments && Exact(moments[i], control);
    assert |Leases(moments[i], control)| == LimitOf(init, control);
  }
}

module HttpStream {
  import opened Common

  /** A frame to write: the acceptance, or the n-th event of the handler. */
  datatype Frame = Accepted(size: nat) | Event(n: nat, size: nat)

  datatype Line = Sent(frame: Frame) | Done | Failed

  /** The provider: before the acceptance, between two calls, after reading readiness, writing, or through. */
  datatype Provider = Opening | Waiting | Checked(ready: bool) | Writing(pending: seq<Frame>, ready: bool) | Closed

  /** The shared stream state, then what was attempted and taken of the handler's events, and what was written. */
  datatype State = State(limit: nat, frames: seq<Frame>, buffered: nat, overflow: bool, abandoned: bool, ready: bool,
                         provider: Provider, attempted: nat, events: seq<Frame>, accepted: seq<Frame>,
                           written: seq<Line>)

  datatype Action =
    | Emit(size: nat) | Complete
    | Accept(size: nat) | Check | Drain(ok: bool) | Write(ok: bool) | Finish | Fail(ok: bool) | Abandon

  function Initial(limit: nat): State { State(limit, [], 0, false, false, false, Opening, 0, [], [], []) }

  /**
   * The handler's contract: events finish before the result is ready. A failure frame may go unwritten,
   * and the stream be given up before the acceptance or between two calls of the provider.
   */
  predicate Enabled(s: State, a: Action) {
    match a
    case Emit(_) => !s.ready
    case Complete => !s.ready
    case Accept(_) => s.provider.Opening?
    case Check => s.provider.Waiting?
    case Drain(_) => s.provider.Checked?
    case Write(_) => s.provider.Writing? && s.provider.pending != []
    case Finish => s.provider.Writing? && s.provider.pending == []
    case Fail(_) => s.provider.Waiting? || s.provider.Checked?
      || (s.provider.Writing? && s.provider.pending == [] && s.provider.ready)
    case Abandon => s.provider.Opening? || s.provider.Waiting? || s.provider.Closed?
  }

  function Apply(s: State, a: Action): State
    requires Enabled(s, a)
  {
    match a
    case Emit(size) =>
      var tried := s.(attempted := s.attempted + 1);
      var event := Event(s.attempted, size);
      if s.abandoned then tried
      else if s.overflow || size > s.limit - s.buffered then tried.(overflow := true)
      else tried.(frames := s.frames + [event], buffered := s.buffered + size, events := s.events + [event])
    case Complete => s.(ready := true)
    case Accept(size) =>
      s.(frames := [Accepted(size)] + s.frames, buffered := s.buffered + size, accepted := [Accepted(size)],
         overflow := s.overflow || s.buffered + size > s.limit, provider := Waiting)
    case Check => s.(provider := Checked(s.ready))
    case Drain(ok) =>
      if s.overflow then s.(written := if ok then s.written + [Failed] else s.written, provider := Closed)
      else s.(frames := [], buffered := 0, provider := Writing(s.frames, s.provider.ready))
    case Write(ok) =>
      if ok then s.(written := s.written + [Sent(s.provider.pending[0])],
        provider := Writing(s.provider.pending[1..], s.provider.ready))
      else s.(provider := Closed)
    case Finish =>
      if !s.provider.ready then s.(provider := Waiting)
      else s.(written := s.written + [Done], provider := Closed)
    case Fail(ok) => s.(written := if ok then s.written + [Failed] else s.written, provider := Closed)
    case Abandon => s.(abandoned := true, frames := [], buffered := 0, provider := Closed)
  }

  function Sizes(frames: seq<Frame>): nat {
    if frames == [] then 0 else Sizes(frames[..|frames| - 1]) + frames[|frames| - 1].size
  }

  function Sents(frames: seq<Frame>): seq<Line> { seq(|frames|, i requires 0 <= i < |frames| => Sent(frames[i])) }

  function Pending(s: State): seq<Frame> { if s.provider.Writing? then s.provider.pending else [] }

  /** Events carry the numbers 0, 1, 2, ... in order. */
  ghost predicate Numbered(events: seq<Frame>) {
    forall i :: 0 <= i < |events| ==> events[i].Event? && events[i].n == i
  }

  /** The frames written are the first ones there were, whatever becomes of the stream. */
  ghost predicate InOrder(s: State) {
    var frames := s.accepted + s.events;
    forall i :: 0 <= i < |s.written| && s.written[i].Sent? ==> i < |frames| && s.written[i].frame == frames[i]
  }

  ghost predicate Conserved(s: State) {
    && |s.accepted| <= 1 && (s.provider.Opening? ==> s.accepted == [])
    && (!s.provider.Opening? && !s.provider.Closed? ==> s.accepted != [])
    && (forall i :: 0 <= i < |s.accepted| ==> s.accepted[i].Accepted?)
    && (s.provider.Opening? ==> s.written == []) && Numbered(s.events) && |s.events| <= s.attempted
    && (!s.overflow && !s.abandoned ==> s.attempted == |s.events|)
    && (!s.provider.Closed? ==>
      !s.abandoned && s.written + Sents(Pending(s)) + Sents(s.frames) == Sents(s.accepted + s.events))
    && ((s.provider.Checked? || s.provider.Writing?) && s.provider.ready ==> s.ready)
    && (s.provider.Writing? && s.provider.ready ==> s.frames == [] && !s.overflow)
    && s.buffered == Sizes(s.frames) && (s.buffered <= s.limit || s.overflow)
    && (s.provider.Closed? && s.written != [] && s.written[|s.written| - 1] == Done ==>
          && s.written == Sents(s.accepted + s.events) + [Done] && s.accepted != []
          && s.ready && s.attempted == |s.events|)
    && (forall i :: 0 <= i < |s.written| && !s.written[i].Sent? ==> i == |s.written| - 1 && s.provider.Closed?)
  }

  ghost predicate Invariant(s: State) { Conserved(s) && InOrder(s) }

  lemma SizesAppend(frames: seq<Frame>, f: Frame)
    ensures Sizes(frames + [f]) == Sizes(frames) + f.size
  {
    assert (frames + [f])[..|frames|] == frames;
  }

  lemma {:induction false} SizesPrepend(frames: seq<Frame>, f: Frame)
    ensures Sizes([f] + frames) == Sizes(frames) + f.size
    decreases |frames|
  {
    if frames == [] {
      assert ([f] + frames)[..0] == [] && Sizes([]) == 0;
    } else {
      var init, last := frames[..|frames| - 1], frames[|frames| - 1];
      SizesPrepend(init, f);
      assert [f] + frames == ([f] + init) + [last];
      SizesAppend([f] + init, last);
    }
  }

  lemma EmitConserves(s: State, size: nat)
    requires Conserved(s) && Enabled(s, Emit(size))
    ensures Conserved(Apply(s, Emit(size)))
  {
    if !s.abandoned && !s.overflow && size <= s.limit - s.buffered {
      OneMoreEvent(s, Apply(s, Emit(size)), size);
    }
  }

  lemma OneMoreEvent(s: State, t: State, size: nat)
    requires Conserved(s) && !s.ready && !s.abandoned && !s.overflow && s.buffered + size <= s.limit
    requires t == s.(attempted := s.attempted + 1, frames := s.frames + [Event(s.attempted, size)],
                     buffered := s.buffered + size, events := s.events + [Event(s.attempted, size)])
    ensures Conserved(t)
  {
    var event := Event(s.attempted, size);
    SizesAppend(s.frames, event);
    assert t.accepted + t.events == (s.accepted + s.events) + [event];
    SentsAppend(s.frames, event);
    SentsAppend(s.accepted + s.events, event);
  }

  lemma SentsAppend(frames: seq<Frame>, f: Frame)
    ensures Sents(frames + [f]) == Sents(frames) + [Sent(f)]
  {
  }

  lemma AcceptConserves(s: State, size: nat)
    requires Conserved(s) && Enabled(s, Accept(size))
    ensures Conserved(Apply(s, Accept(size)))
  {
    SizesPrepend(s.frames, Accepted(size));
    assert Sents([Accepted(size)] + s.frames) == [Sent(Accepted(size))] + Sents(s.frames);
    assert Sents([Accepted(size)] + s.events) == [Sent(Accepted(size))] + Sents(s.accepted + s.events);
  }

  lemma WriteConserves(s: State, ok: bool)
    requires Conserved(s) && Enabled(s, Write(ok))
    ensures Conserved(Apply(s, Write(ok)))
  {
    assert Sents(s.provider.pending) == [Sent(s.provider.pending[0])] + Sents(s.provider.pending[1..]);
  }

  lemma StepConserves(s: State, a: Action)
    requires Conserved(s) && Enabled(s, a)
    ensures Conserved(Apply(s, a))
  {
    match a
    case Emit(size) => EmitConserves(s, size);
    case Accept(size) => AcceptConserves(s, size);
    case Write(ok) => WriteConserves(s, ok);
    case Drain(_) => ProviderConserves(s, a);
    case Finish => ProviderConserves(s, a);
    case _ => OtherwiseConserved(s, a);
  }

  lemma ProviderConserves(s: State, a: Action)
    requires Conserved(s) && Enabled(s, a) && (a.Drain? || a.Finish?)
    ensures Conserved(Apply(s, a))
  {
  }

  lemma OtherwiseConserved(s: State, a: Action)
    requires Conserved(s) && Enabled(s, a) && (a.Complete? || a.Check? || a.Fail? || a.Abandon?)
    ensures Conserved(Apply(s, a))
  {
  }

  lemma OrderIsKept(s: State, a: Action)
    requires Invariant(s) && Enabled(s, a)
    ensures InOrder(Apply(s, a))
  {
    var t := Apply(s, a);
    if a.Write? {
      NextIsWritten(s);
    } else if !a.Accept? {
      MoreFrames(s, t);
    }
  }

  /** More events, or a line that ends the stream, leave the order as it is. */
  lemma MoreFrames(s: State, t: State)
    requires InOrder(s) && t.accepted == s.accepted && s.events <= t.events
    requires t.written in {s.written, s.written + [Done], s.written + [Failed]}
    ensures InOrder(t)
  {
    var before, frames := s.accepted + s.events, t.accepted + t.events;
    assert forall i :: 0 <= i < |before| ==> before[i] == frames[i];
  }

  /** What is pending follows what has been written. */
  lemma NextIsWritten(s: State)
    requires Conserved(s) && s.provider.Writing? && s.provider.pending != []
    ensures var frames := s.accepted + s.events;
            |s.written| < |frames| && s.provider.pending[0] == frames[|s.written|]
  {
    var all := Sents(s.accepted + s.events);
    assert all[|s.written|] == (s.written + Sents(s.provider.pending) + Sents(s.frames))[|s.written|];
  }

  lemma StepKeepsInvariant(s: State, a: Action)
    requires Invariant(s) && Enabled(s, a)
    ensures Invariant(Apply(s, a))
  {
    StepConserves(s, a);
    OrderIsKept(s, a);
  }

  predicate Runs(s: State, actions: seq<Action>)
    decreases |actions|
  {
    actions == [] || (Enabled(s, actions[0]) && Runs(Apply(s, actions[0]), actions[1..]))
  }

  function After(s: State, actions: seq<Action>): State
    requires Runs(s, actions)
    decreases |actions|
  {
    if actions == [] then s else After(Apply(s, actions[0]), actions[1..])
  }

  lemma {:induction false} RunKeepsInvariant(s: State, actions: seq<Action>)
    requires Invariant(s) && Runs(s, actions)
    ensures Invariant(After(s, actions)) && After(s, actions).limit == s.limit
    decreases |actions|
  {
    if actions != [] {
      StepKeepsInvariant(s, actions[0]);
      RunKeepsInvariant(Apply(s, actions[0]), actions[1..]);
    }
  }

  /**
   * Every stream carries the acceptance and events as they came, up to some point, and then at most
   * one line that ends it. A stream that ends in `done` carries the acceptance, then every event the
   * handler emitted, in order, then `done`: readiness is read before the frames are taken, and nothing is emitted after
   * it. Until the limit is exceeded the buffer stays within it.
   */
  lemma DoneComesLast(limit: nat, actions: seq<Action>)
    requires Runs(Initial(limit), actions)
    ensures var s := After(Initial(limit), actions);
            && (s.buffered <= limit || s.overflow) && s.buffered == Sizes(s.frames) && InOrder(s)
            && (forall i :: 0 <= i < |s.written| && !s.written[i].Sent? ==> i == |s.written| - 1)
            && (s.written != [] && s.written[|s.written| - 1] == Done ==>
                  && s.attempted == |s.events| && Numbered(s.events) && |s.accepted| == 1
                  && s.written == [Sent(s.accepted[0])] + Sents(s.events) + [Done])
  {
    RunKeepsInvariant(Initial(limit), actions);
    var s := After(Initial(limit), actions);
    if s.written != [] && s.written[|s.written| - 1] == Done {
      assert Sents(s.accepted + s.events) == [Sent(s.accepted[0])] + Sents(s.events);
    }
  }
}
