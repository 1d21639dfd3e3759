/**
 * The scheduler as a step system: any number of threads submit, cancel and shut down, one worker
 * takes items. Each step is what one thread does under the lock, or between two lock sections.
 */
module Schedulers {
  import opened Common

  type Id = nat

  /** What the worker is doing; `Checking` and the states after it hold an item outside the lock. */
  datatype Worker = Waiting | Checking(id: Id) | Running(id: Id) | Refusing(id: Id) | Tending | Leaving | Gone

  /** How the worker settled an item: its run, or its reject. */
  datatype Settled = Settled(id: Id, ran: bool)

  /**
   * The fields of the scheduler, then what observers have seen: the submitted items, those accepted
   * in order, those refused and not yet told, those told, the worker's settlements in order, the
   * items taken after the shutdown, and how often the exit hook ran.
   */
  datatype State = State(
    capacity: nat, queue: seq<Id>, stopping: bool, active: Option<Id>, cancelled: set<Id>, worker: Worker,
    submitted: set<Id>, accepted: seq<Id>, refused: map<Id, ErrorCode>, told: seq<Id>, settled: seq<Settled>,
    late: set<Id>, exits: nat)

  datatype Action =
    | Submit(id: Id) | Tell(id: Id) | Cancel(id: Id) | Shutdown
    | Take | Idle | Quit | Check | Settle | Tend | Exit

  function Initial(capacity: nat): State {
    State(capacity, [], false, None, {}, Waiting, {}, [], map[], [], [], {}, 0)
  }

  predicate Enabled(s: State, a: Action) {
    match a
    case Submit(id) => id !in s.submitted
    case Tell(id) => id in s.refused
    case Cancel(_) => true
    case Shutdown => true
    case Take => s.worker.Waiting? && s.queue != []
    case Idle => s.worker.Waiting? && s.queue == [] && !s.stopping
    case Quit => s.worker.Waiting? && s.queue == [] && s.stopping
    case Check => s.worker.Checking?
    case Settle => s.worker.Running? || s.worker.Refusing?
    case Tend => s.worker.Tending?
    case Exit => s.worker.Leaving?
  }

  function SetOf(active: Option<Id>): set<Id> { if active.Some? then {active.value} else {} }

  function Apply(s: State, a: Action): State
    requires Enabled(s, a)
  {
    match a
    case Submit(id) =>
      var seen := s.(submitted := s.submitted + {id});
      if s.stopping then seen.(refused := s.refused[id := ShuttingDown])
      else if |s.queue| >= s.capacity then seen.(refused := s.refused[id := QueueFull])
      else seen.(queue := s.queue + [id], accepted := s.accepted + [id])
    case Tell(id) => s.(refused := s.refused - {id}, told := s.told + [id])
    case Cancel(id) => s.(cancelled := s.cancelled + {id})
    case Shutdown => s.(stopping := true, cancelled := s.cancelled + SetOf(s.active) + (set id | id in s.queue))
    case Take =>
      s.(queue := s.queue[1..], active := Some(s.queue[0]), worker := Checking(s.queue[0]),
         late := if s.stopping then s.late + {s.queue[0]} else s.late)
    case Idle => s.(worker := Tending)
    case Quit => s.(worker := Leaving)
    case Check => s.(worker := if s.worker.id in s.cancelled then Refusing(s.worker.id) else Running(s.worker.id))
    case Settle => s.(worker := Tending, settled := s.settled + [Settled(s.worker.id, s.worker.Running?)])
    case Tend => s.(worker := Waiting)
    case Exit => s.(worker := Gone, exits := s.exits + 1)
  }

  /** The item in the worker's hands. */
  function Hand(w: Worker): seq<Id> {
    if w.Checking? || w.Running? || w.Refusing? then [w.id] else []
  }

  function Ids(settled: seq<Settled>): seq<Id> {
    if settled == [] then [] else Ids(settled[..|settled| - 1]) + [settled[|settled| - 1].id]
  }

  // ---- What every interleaving keeps -----------------------------------------------------------

  /** Accepted items are settled in order: settled ones, then the one in hand, then the queue. */
  ghost predicate InOrder(s: State) { s.accepted == Ids(s.settled) + Hand(s.worker) + s.queue }

  /** Every submitted item is accepted, refused, or told of its refusal, exactly once. */
  ghost predicate Conserved(s: State) {
    forall id {:trigger Fates(s, id)} :: Fates(s, id) == if id in s.submitted then 1 else 0
  }

  /** How often an item was accepted, is refused, or was told so. */
  function Fates(s: State, id: Id): nat {
    multiset(s.accepted)[id] + (if id in s.refused then 1 else 0) + multiset(s.told)[id]
  }

  /** After the shutdown whatever is not settled is cancelled, and what is taken then is not run. */
  ghost predicate Draining(s: State) {
    && (s.stopping ==> forall id :: id in Hand(s.worker) || id in s.queue ==> id in s.cancelled)
    && (Hand(s.worker) != [] ==> s.active == Some(s.worker.id))
    && s.late <= s.cancelled && (s.worker.Running? ==> s.worker.id !in s.late)
    && (forall d :: d in s.settled && d.id in s.late ==> !d.ran)
  }

  /** Only after the shutdown, with nothing left, does the worker leave. */
  ghost predicate Leaves(s: State) {
    && (s.worker.Leaving? || s.worker.Gone? ==> s.stopping && s.queue == [])
    && s.exits == if s.worker.Gone? then 1 else 0
  }

  ghost predicate Invariant(s: State) {
    InOrder(s) && Conserved(s) && |s.queue| <= s.capacity && Draining(s) && Leaves(s)
  }

  lemma IdsAppend(settled: seq<Settled>, d: Settled)
    ensures Ids(settled + [d]) == Ids(settled) + [d.id]
  {
    assert (settled + [d])[..|settled|] == settled;
  }

  lemma {:induction false} SettledIds(settled: seq<Settled>, d: Settled)
    requires d in settled
    ensures d.id in Ids(settled)
    decreases |settled|
  {
    var init := settled[..|settled| - 1];
    if d in init {
      SettledIds(init, d);
    }
  }

  /** Nothing is accepted twice: a settled item is not in the queue. */
  lemma QueuedIsNotSettled(s: State, id: Id)
    requires InOrder(s) && Conserved(s) && id in s.queue
    ensures id !in Ids(s.settled) && id !in Hand(s.worker)
  {
    assert Fates(s, id) <= 1;
    assert multiset(s.accepted) == multiset(Ids(s.settled)) + multiset(Hand(s.worker)) + multiset(s.queue);
    assert multiset(s.queue)[id] >= 1;
  }

  lemma OrderIsKept(s: State, a: Action)
    requires InOrder(s) && Enabled(s, a)
    ensures InOrder(Apply(s, a))
  {
    match a
    case Submit(id) => Regroup(Ids(s.settled), Hand(s.worker), s.queue, [id]);
    case Take => TakeInOrder(s);
    case Settle => SettleInOrder(s);
    case _ =>
  }

  lemma Regroup(settled: seq<Id>, hand: seq<Id>, queue: seq<Id>, more: seq<Id>)
    ensures settled + hand + (queue + more) == (settled + hand + queue) + more
  {
  }

  lemma TakeInOrder(s: State)
    requires InOrder(s) && Enabled(s, Take)
    ensures InOrder(Apply(s, Take))
  {
    var first, rest := s.queue[0], s.queue[1..];
    assert s.queue == [first] + rest;
    Regroup(Ids(s.settled), [], [first], rest);
  }

  lemma SettleInOrder(s: State)
    requires InOrder(s) && Enabled(s, Settle)
    ensures InOrder(Apply(s, Settle))
  {
    IdsAppend(s.settled, Settled(s.worker.id, s.worker.Running?));
    var now := Ids(s.settled) + [s.worker.id];
    assert now + [] == now;
  }

  lemma ConservationIsKept(s: State, a: Action)
    requires Conserved(s) && Enabled(s, a)
    ensures Conserved(Apply(s, a))
  {
    var t := Apply(s, a);
    forall id ensures Fates(t, id) == if id in t.submitted then 1 else 0 {
      assert Fates(s, id) == if id in s.submitted then 1 else 0;
      match a
      case Submit(_) =>
      case Tell(_) =>
      case _ => assert Fates(t, id) == Fates(s, id);
    }
  }

  lemma TakeKeepsDraining(s: State)
    requires InOrder(s) && Conserved(s) && Draining(s) && Enabled(s, Take)
    ensures Draining(Apply(s, Take))
  {
    var t := Apply(s, Take);
    QueuedIsNotSettled(s, s.queue[0]);
    assert forall id :: id in s.queue[1..] ==> id in s.queue;
    forall d | d in t.settled && d.id in t.late ensures !d.ran {
      SettledIds(s.settled, d);
    }
  }

  lemma DrainingIsKept(s: State, a: Action)
    requires InOrder(s) && Conserved(s) && Draining(s) && Enabled(s, a)
    ensures Draining(Apply(s, a))
  {
    match a
    case Take => TakeKeepsDraining(s);
    case _ =>
  }

  /** Every step of every thread keeps the invariant. */
  lemma StepKeepsInvariant(s: State, a: Action)
    requires Invariant(s) && Enabled(s, a)
    ensures Invariant(Apply(s, a))
  {
    OrderIsKept(s, a);
    ConservationIsKept(s, a);
    DrainingIsKept(s, a);
  }

  // ---- Runs: any interleaving ------------------------------------------------------------------

  predicate Runs(s: State, actions: seq<Action>)
    decreases |actions|
  {
    actions == [] || (Enabled(s, actions[0]) && Runs(Apply(s, actions[0]), actions[1..]))
  }

  function After(s: State, actions: seq<Action>): State
    requires Runs(s, actions)
    decreases |actions|
  {
    if actions == [] then s else After(Apply(s, actions[0]), actions[1..])
  }

  lemma {:induction false} RunKeepsInvariant(s: State, actions: seq<Action>)
    requires Invariant(s) && Runs(s, actions)
    ensures Invariant(After(s, actions))
    decreases |actions|
  {
    if actions != [] {
      StepKeepsInvariant(s, actions[0]);
      RunKeepsInvariant(Apply(s, actions[0]), actions[1..]);
    }
  }

  /** How often an item is settled: run or rejected by the worker, or told of its refusal. */
  function Settlements(s: State, id: Id): nat { multiset(Ids(s.settled))[id] + multiset(s.told)[id] }

  /** Waiting in the queue, in the worker's hands, or about to be told. */
  predicate Outstanding(s: State, id: Id) { id in s.queue || id in Hand(s.worker) || id in s.refused }

  /**
   * In every reachable state each submitted item is settled once, or is outstanding and not
   * settled; the worker settles in the order of acceptance; nothing taken after the shutdown runs.
   */
  lemma SettledExactlyOnce(capacity: nat, actions: seq<Action>, id: Id)
    requires Runs(Initial(capacity), actions)
    ensures var s := After(Initial(capacity), actions);
            && Settlements(s, id) == (if id in s.submitted && !Outstanding(s, id) then 1 else 0)
            && Ids(s.settled) <= s.accepted && |s.queue| <= capacity
            && (forall d :: d in s.settled && d.id in s.late ==> !d.ran)
  {
    RunKeepsInvariant(Initial(capacity), actions);
    CapacityIsConstant(Initial(capacity), actions);
    SettledOnceNow(After(Initial(capacity), actions), id);
  }

  lemma SettledOnceNow(s: State, id: Id)
    requires InOrder(s) && Conserved(s)
    ensures Settlements(s, id) == if id in s.submitted && !Outstanding(s, id) then 1 else 0
    ensures Ids(s.settled) <= s.accepted
  {
    assert Fates(s, id) == if id in s.submitted then 1 else 0;
    AcceptedCount(s, id);
    SettledIsPrefix(s);
  }

  lemma SettledIsPrefix(s: State)
    requires InOrder(s)
    ensures Ids(s.settled) <= s.accepted
  {
  }

  lemma CountOfThree(a: seq<Id>, b: seq<Id>, c: seq<Id>, id: Id)
    ensures multiset(a + b + c)[id] == multiset(a)[id] + multiset(b)[id] + multiset(c)[id]
  {
    assert multiset(a + b + c) == multiset(a + b) + multiset(c);
    assert multiset(a + b) == multiset(a) + multiset(b);
  }

  lemma AcceptedCount(s: State, id: Id)
    requires InOrder(s)
    ensures multiset(s.accepted)[id] ==
            multiset(Ids(s.settled))[id] + multiset(Hand(s.worker))[id] + multiset(s.queue)[id]
    ensures id in s.queue <==> multiset(s.queue)[id] > 0
    ensures id in Hand(s.worker) <==> multiset(Hand(s.worker))[id] > 0
  {
    CountOfThree(Ids(s.settled), Hand(s.worker), s.queue, id);
  }

  lemma {:induction false} CapacityIsConstant(s: State, actions: seq<Action>)
    requires Runs(s, actions)
    ensures After(s, actions).capacity == s.capacity
    decreases |actions|
  {
    if actions != [] {
      CapacityIsConstant(Apply(s, actions[0]), actions[1..]);
    }
  }

  /** The exit hook runs at most once, after the last accepted item was settled, and nothing is accepted later. */
  lemma ExitHookIsLast(capacity: nat, actions: seq<Action>, more: seq<Action>)
    requires Runs(Initial(capacity), actions) && After(Initial(capacity), actions).exits > 0
    requires Runs(After(Initial(capacity), actions), more)
    ensures var s := After(Initial(capacity), actions);
            var t := After(s, more);
            && s.exits == 1 && Ids(s.settled) == s.accepted
            && t.exits == 1 && t.settled == s.settled && t.accepted == s.accepted
  {
    RunKeepsInvariant(Initial(capacity), actions);
    GoneForGood(After(Initial(capacity), actions), more);
  }

  lemma {:induction false} GoneForGood(s: State, more: seq<Action>)
    requires Invariant(s) && s.worker.Gone? && Runs(s, more)
    ensures var t := After(s, more); t.exits == s.exits && t.settled == s.settled && t.accepted == s.accepted
    decreases |more|
  {
    if more != [] {
      StepKeepsInvariant(s, more[0]);
      GoneForGood(Apply(s, more[0]), more[1..]);
    }
  }

  // ---- The shutdown drains ---------------------------------------------------------------------

  predicate IsWorkers(a: Action) {
    a.Take? || a.Idle? || a.Quit? || a.Check? || a.Settle? || a.Tend? || a.Exit?
  }

  /** Worker steps left once the shutdown began: four for each queued item, and the rest of this one. */
  function StepsLeft(s: State): nat {
    4 * |s.queue| + match s.worker
      case Gone => 0
      case Leaving => 1
      case Waiting => 2
      case Tending => 3
      case Running(_) => 4
      case Refusing(_) => 4
      case Checking(_) => 5
  }

  function WorkerSteps(actions: seq<Action>): nat {
    if actions == [] then 0 else (if IsWorkers(actions[0]) then 1 else 0) + WorkerSteps(actions[1..])
  }

  /** After the shutdown the worker is never stuck before the exit hook, and each step brings it nearer. */
  lemma WorkerMayStep(s: State)
    requires s.stopping && !s.worker.Gone?
    ensures exists a :: IsWorkers(a) && Enabled(s, a)
    ensures forall a :: IsWorkers(a) && Enabled(s, a) ==> StepsLeft(Apply(s, a)) == StepsLeft(s) - 1
    ensures forall a :: !IsWorkers(a) && Enabled(s, a) ==>
              StepsLeft(Apply(s, a)) == StepsLeft(s) && Apply(s, a).stopping
  {
    assert Enabled(s, match s.worker
      case Waiting => if s.queue != [] then Take else Quit
      case Checking(_) => Check
      case Running(_) => Settle
      case Refusing(_) => Settle
      case Tending => Tend
      case Leaving => Exit
      case Gone => Exit);
  }

  /** Whatever other threads do meanwhile, exactly that many worker steps end in the exit hook. */
  lemma {:induction false} ShutdownDrains(s: State, actions: seq<Action>)
    requires s.stopping && Runs(s, actions)
    ensures WorkerSteps(actions) + StepsLeft(After(s, actions)) == StepsLeft(s)
    ensures WorkerSteps(actions) == StepsLeft(s) <==> After(s, actions).worker.Gone? && After(s, actions).queue == []
    decreases |actions|
  {
    if actions != [] {
      ShutdownDrains(Apply(s, actions[0]), actions[1..]);
    }
  }
}
