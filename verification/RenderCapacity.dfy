/** The render capacity controller (src/services/render-capacity.ts): at most
    `maxConcurrent` tasks run, at most `maxQueued` wait, each waiting entry has
    a timer, and close() rejects whoever waits.

    Entries are named by their submission number. A step of the controller is
    one synchronous JavaScript turn: a call of run() or close(), the settling of
    a task's promise, or a timer callback. Tasks return a promise and do not
    re-enter the controller. */
module RenderCapacity {
  import opened Basics

  datatype Config = Config(maxConcurrent: int, maxQueued: int)

  /** How the promise handed out by run() was settled. */
  datatype Outcome = Fulfilled | Failed | QueueFull | QueueTimeout | CapacityClosed

  datatype State = State(
    submitted: nat,               // how many times run() was called
    active: int,
    closed: bool,
    queue: seq<nat>,
    armed: set<nat>,              // entries whose timeout timer is pending
    cancelled: set<nat>,
    running: set<nat>,            // started entries that still hold their slot
    started: seq<nat>,            // every entry whose task was called, in order
    outcomes: map<nat, Outcome>)

  function Initial(): State {
    State(0, 0, false, [], {}, {}, {}, [], map[])
  }

  /** executeEntry: take a slot and call the task. */
  function Execute(s: State, id: nat): State {
    s.(active := s.active + 1, running := s.running + {id}, started := s.started + [id])
  }

  /** Take the head off the queue and clear its timer. */
  function Shift(s: State): State
    requires s.queue != []
  {
    s.(queue := s.queue[1..], armed := s.armed - {s.queue[0]})
  }

  /** tryRunNext: hand free slots to the head of the queue. */
  function TryRunNext(c: Config, s: State): State
    decreases |s.queue|
  {
    if s.active < c.maxConcurrent && |s.queue| > 0 then
      var id := s.queue[0];
      if id in s.cancelled then TryRunNext(c, Shift(s)) else TryRunNext(c, Execute(Shift(s), id))
    else s
  }

  function Settled(s: State, id: nat, o: Outcome): State {
    s.(outcomes := s.outcomes[id := o])
  }

  /** run(task) */
  function Submit(c: Config, s: State): State {
    var id := s.submitted;
    var s := s.(submitted := id + 1);
    if s.closed then Settled(s, id, CapacityClosed)
    else if s.active < c.maxConcurrent then Execute(s, id)
    else if |s.queue| >= c.maxQueued then Settled(s, id, QueueFull)
    else s.(queue := s.queue + [id], armed := s.armed + {id})
  }

  /** The task of `id` settled: release its slot, then settle its promise. */
  function TaskSettled(c: Config, s: State, id: nat, ok: bool): State {
    var released := s.(active := s.active - 1, running := s.running - {id});
    Settled(TryRunNext(c, released), id, if ok then Fulfilled else Failed)
  }

  function Without(q: seq<nat>, id: nat): seq<nat> {
    if q == [] then [] else if q[0] == id then q[1..] else [q[0]] + Without(q[1..], id)
  }

  /** The timeout callback of `id`. */
  function TimerFired(s: State, id: nat): State {
    Settled(s.(cancelled := s.cancelled + {id}, queue := Without(s.queue, id), armed := s.armed - {id}),
            id, QueueTimeout)
  }

  function Members(q: seq<nat>): set<nat> { set id | id in q }

  function Rejected(q: seq<nat>): map<nat, Outcome> { map id | id in q :: CapacityClosed }

  function Close(s: State): State {
    if s.closed then s
    else
      s.(closed := true, queue := [], armed := s.armed - Members(s.queue),
         cancelled := s.cancelled + Members(s.queue), outcomes := s.outcomes + Rejected(s.queue))
  }

  /** The controller object. */
  class Controller {
    const config: Config
    var submitted: nat
    var active: int
    var closed: bool
    var queue: seq<nat>
    var armed: set<nat>
    var cancelled: set<nat>
    var running: set<nat>
    var started: seq<nat>
    var outcomes: map<nat, Outcome>

    function Snapshot(): State
      reads this
    {
      State(submitted, active, closed, queue, armed, cancelled, running, started, outcomes)
    }

    constructor (config: Config)
      ensures this.config == config && Snapshot() == Initial()
    {
      this.config := config;
      submitted, active, closed, queue := 0, 0, false, [];
      armed, cancelled, running, started, outcomes := {}, {}, {}, [], map[];
    }

    method ExecuteEntry(id: nat)
      modifies this
      ensures Snapshot() == Execute(old(Snapshot()), id)
    {
      active := active + 1;
      running := running + {id};
      started := started + [id];
    }

    method RunNext()
      modifies this
      ensures Snapshot() == TryRunNext(config, old(Snapshot()))
    {
      while active < config.maxConcurrent && |queue| > 0
        invariant TryRunNext(config, Snapshot()) == TryRunNext(config, old(Snapshot()))
        decreases |queue|
      {
        var id := queue[0];
        queue := queue[1..];
        armed := armed - {id};
        if id !in cancelled {
          ExecuteEntry(id);
        }
      }
    }

    method Run() returns (id: nat)
      modifies this
      ensures id == old(submitted)
      ensures Snapshot() == Submit(config, old(Snapshot()))
    {
      id := submitted;
      submitted := submitted + 1;
      if closed {
        outcomes := outcomes[id := CapacityClosed];
      } else if active < config.maxConcurrent {
        ExecuteEntry(id);
      } else if |queue| >= config.maxQueued {
        outcomes := outcomes[id := QueueFull];
      } else {
        armed := armed + {id};
        queue := queue + [id];
      }
    }

    /** The `then` and `catch` handlers: they run once per started entry, which
        is what the source's `released` flag guards. */
    method OnTaskSettled(id: nat, ok: bool)
      requires id in running
      modifies this
      ensures Snapshot() == TaskSettled(config, old(Snapshot()), id, ok)
    {
      running := running - {id};
      active := active - 1;
      RunNext();
      outcomes := outcomes[id := if ok then Fulfilled else Failed];
    }

    method OnTimeout(id: nat)
      requires id in armed
      modifies this
      ensures Snapshot() == TimerFired(old(Snapshot()), id)
    {
      armed := armed - {id};
      cancelled := cancelled + {id};
      queue := Without(queue, id);
      outcomes := outcomes[id := QueueTimeout];
    }

    method RejectClosed(id: nat)
      modifies this
      ensures Snapshot() == RejectOne(old(Snapshot()), id)
    {
      armed := armed - {id};
      cancelled := cancelled + {id};
      outcomes := outcomes[id := CapacityClosed];
    }

    method Shut()
      modifies this
      ensures Snapshot() == Close(old(Snapshot()))
    {
      if closed { return; }
      ghost var s := Snapshot();
      closed := true;
      var pending := queue;
      queue := [];
      for i := 0 to |pending|
        invariant Snapshot() == CloseUpTo(s, i)
      {
        CloseOneMore(s, i);
        RejectClosed(pending[i]);
      }
      assert pending[..|pending|] == pending;
    }
  }

  function RejectOne(s: State, id: nat): State {
    s.(armed := s.armed - {id}, cancelled := s.cancelled + {id}, outcomes := s.outcomes[id := CapacityClosed])
  }

  /** close() after rejecting the first `i` waiting entries. */
  ghost function CloseUpTo(s: State, i: nat): State
    requires i <= |s.queue|
  {
    s.(closed := true, queue := [], armed := s.armed - Members(s.queue[..i]),
       cancelled := s.cancelled + Members(s.queue[..i]), outcomes := s.outcomes + Rejected(s.queue[..i]))
  }

  lemma {:induction false} CloseOneMore(s: State, i: nat)
    requires i < |s.queue|
    ensures CloseUpTo(s, i + 1) == RejectOne(CloseUpTo(s, i), s.queue[i])
  {
    var id, done := s.queue[i], Members(s.queue[..i]);
    MembersSnoc(s.queue, i);
    assert s.armed - (done + {id}) == s.armed - done - {id};
    assert s.cancelled + (done + {id}) == s.cancelled + done + {id};
  }

  lemma MembersSnoc(q: seq<nat>, i: nat)
    requires i < |q|
    ensures Members(q[..i + 1]) == Members(q[..i]) + {q[i]}
    ensures forall m: map<nat, Outcome> ::
      m + Rejected(q[..i + 1]) == (m + Rejected(q[..i]))[q[i] := CapacityClosed]
  {
    assert q[..i + 1] == q[..i] + [q[i]];
  }

  // ---- Runs -----------------------------------------------------------------

  datatype Event = Submitted | TaskDone(id: nat, ok: bool) | Timeout(id: nat) | Closing

  /** The environment settles a task once, and fires only armed timers. */
  predicate Enabled(s: State, e: Event) {
    match e
    case TaskDone(id, _) => id in s.running
    case Timeout(id) => id in s.armed
    case _ => true
  }

  function Step(c: Config, s: State, e: Event): State {
    match e
    case Submitted => Submit(c, s)
    case TaskDone(id, ok) => TaskSettled(c, s, id, ok)
    case Timeout(id) => TimerFired(s, id)
    case Closing => Close(s)
  }

  function Run(c: Config, events: seq<Event>): State {
    if events == [] then Initial() else Step(c, Run(c, Front(events)), Last(events))
  }

  predicate Possible(c: Config, events: seq<Event>) {
    events == [] || (Possible(c, Front(events)) && Enabled(Run(c, Front(events)), Last(events)))
  }

  ghost predicate Increasing(s: seq<nat>) {
    forall i, j :: 0 <= i < j < |s| ==> s[i] < s[j]
  }

  /** Every submission is in exactly one place. */
  ghost predicate Accounted(s: State) {
    && (forall id: nat :: id < s.submitted <==> id in s.queue || id in s.running || id in s.outcomes)
    && (forall id :: id in s.queue ==> id !in s.running && id !in s.outcomes)
    && (forall id :: id in s.running ==> id !in s.outcomes)
  }

  /** Tasks start in submission order, and whoever waits came after whoever
      started. */
  ghost predicate InOrder(s: State) {
    && Increasing(s.started) && Increasing(s.queue)
    && (forall x, y :: x in s.started && y in s.queue ==> x < y)
    && (forall id :: id in s.started <==>
          id in s.running || (id in s.outcomes && (s.outcomes[id].Fulfilled? || s.outcomes[id].Failed?)))
  }

  ghost predicate TimersInv(s: State) {
    && (forall id :: id in s.armed <==> id in s.queue)
    && (forall id :: id in s.cancelled ==>
          id in s.outcomes && (s.outcomes[id].QueueTimeout? || s.outcomes[id].CapacityClosed?))
  }

  ghost predicate Bounded(c: Config, s: State) {
    && s.active == |s.running|
    && s.active <= Max(0, c.maxConcurrent)
    && |s.queue| <= Max(0, c.maxQueued)
    && (s.closed ==> s.queue == [])
  }

  /** Nobody waits while a slot is free. */
  ghost predicate WorkConserving(c: Config, s: State) {
    s.queue != [] ==> s.active == Max(0, c.maxConcurrent)
  }

  ghost predicate Core(c: Config, s: State) {
    Accounted(s) && InOrder(s) && TimersInv(s) && Bounded(c, s)
  }

  ghost predicate Inv(c: Config, s: State) {
    Core(c, s) && WorkConserving(c, s)
  }

  lemma IncreasingAppend(s: seq<nat>, id: nat)
    requires Increasing(s) && forall x :: x in s ==> x < id
    ensures Increasing(s + [id])
  {
    forall i | 0 <= i < |s| ensures s[i] < id {
      assert s[i] in s;
    }
  }

  lemma HeadAndTail(q: seq<nat>)
    requires q != [] && Increasing(q)
    ensures forall x :: x in q <==> x == q[0] || x in q[1..]
    ensures forall x :: x in q[1..] ==> q[0] < x
    ensures Increasing(q[1..])
  {
    assert q == [q[0]] + q[1..];
  }

  lemma ExecuteKeepsOrder(s: State, id: nat)
    requires InOrder(s) && id !in s.outcomes
    requires forall x :: x in s.started ==> x < id
    requires forall y :: y in s.queue ==> id < y
    ensures InOrder(Execute(s, id))
  {
    IncreasingAppend(s.started, id);
  }

  lemma ShiftKeepsCore(c: Config, s: State)
    requires Core(c, s) && s.active < c.maxConcurrent && s.queue != []
    ensures s.queue[0] !in s.cancelled
    ensures Core(c, Execute(Shift(s), s.queue[0]))
  {
    var t := Execute(Shift(s), s.queue[0]);
    HeadAndTail(s.queue);
    assert s.queue[0] in s.queue;
    ExecuteKeepsOrder(Shift(s), s.queue[0]);
    assert Accounted(t);
    assert TimersInv(t);
  }

  lemma {:induction false} TryRunNextRestores(c: Config, s: State)
    requires Core(c, s)
    ensures Inv(c, TryRunNext(c, s))
    decreases |s.queue|
  {
    if s.active < c.maxConcurrent && |s.queue| > 0 {
      ShiftKeepsCore(c, s);
      TryRunNextRestores(c, Execute(Shift(s), s.queue[0]));
    }
  }

  /** The scheduler neither reads nor writes outcomes. */
  lemma {:induction false} OutcomesCommute(c: Config, s: State, m: map<nat, Outcome>)
    ensures TryRunNext(c, s.(outcomes := m)) == TryRunNext(c, s).(outcomes := m)
    ensures TryRunNext(c, s).outcomes == s.outcomes
    decreases |s.queue|
  {
    if s.active < c.maxConcurrent && |s.queue| > 0 {
      var id := s.queue[0];
      if id in s.cancelled {
        OutcomesCommute(c, Shift(s), m);
      } else {
        OutcomesCommute(c, Execute(Shift(s), id), m);
      }
    }
  }

  lemma StartKeeps(c: Config, s: State)
    requires Inv(c, s) && s.active < c.maxConcurrent
    ensures Inv(c, Execute(s.(submitted := s.submitted + 1), s.submitted))
  {
    var t := Execute(s.(submitted := s.submitted + 1), s.submitted);
    assert s.queue == [];
    ExecuteKeepsOrder(s.(submitted := s.submitted + 1), s.submitted);
    assert Accounted(t);
  }

  lemma EnqueueKeeps(c: Config, s: State)
    requires Inv(c, s) && !s.closed && s.active >= c.maxConcurrent && |s.queue| < c.maxQueued
    ensures Inv(c, s.(submitted := s.submitted + 1, queue := s.queue + [s.submitted], armed := s.armed + {s.submitted}))
  {
    var t := s.(submitted := s.submitted + 1, queue := s.queue + [s.submitted], armed := s.armed + {s.submitted});
    assert forall x :: x in s.queue ==> x < s.submitted;
    IncreasingAppend(s.queue, s.submitted);
    assert InOrder(t);
    assert Accounted(t);
  }

  lemma RejectKeeps(c: Config, s: State, o: Outcome)
    requires Inv(c, s) && (o.CapacityClosed? || o.QueueFull?)
    ensures Inv(c, Settled(s.(submitted := s.submitted + 1), s.submitted, o))
  {
    var t := Settled(s.(submitted := s.submitted + 1), s.submitted, o);
    assert Accounted(t);
    assert InOrder(t);
  }

  lemma SubmitKeeps(c: Config, s: State)
    requires Inv(c, s)
    ensures Inv(c, Submit(c, s))
  {
    if s.closed {
      RejectKeeps(c, s, CapacityClosed);
    } else if s.active < c.maxConcurrent {
      StartKeeps(c, s);
    } else if |s.queue| >= c.maxQueued {
      RejectKeeps(c, s, QueueFull);
    } else {
      EnqueueKeeps(c, s);
    }
  }

  lemma TaskSettledKeeps(c: Config, s: State, id: nat, ok: bool)
    requires Inv(c, s) && id in s.running
    ensures Inv(c, TaskSettled(c, s, id, ok))
  {
    var o := if ok then Fulfilled else Failed;
    var released := s.(active := s.active - 1, running := s.running - {id});
    OutcomesCommute(c, released, s.outcomes[id := o]);
    TryRunNextRestores(c, Settled(released, id, o));
  }

  lemma IncreasingPrepend(id: nat, s: seq<nat>)
    requires Increasing(s) && forall x :: x in s ==> id < x
    ensures Increasing([id] + s)
  {
    forall i | 0 <= i < |s| ensures id < s[i] {
      assert s[i] in s;
    }
  }

  lemma {:induction false} WithoutRemoves(q: seq<nat>, id: nat)
    requires Increasing(q)
    ensures Increasing(Without(q, id)) && |Without(q, id)| <= |q|
    ensures forall x :: x in Without(q, id) <==> x in q && x != id
  {
    if q != [] {
      HeadAndTail(q);
      WithoutRemoves(q[1..], id);
      if q[0] != id {
        IncreasingPrepend(q[0], Without(q[1..], id));
      }
    }
  }

  lemma TimerFiredKeeps(c: Config, s: State, id: nat)
    requires Inv(c, s) && id in s.armed
    ensures Inv(c, TimerFired(s, id))
  {
    WithoutRemoves(s.queue, id);
  }

  lemma CloseKeeps(c: Config, s: State)
    requires Inv(c, s)
    ensures Inv(c, Close(s))
  {
  }

  /** In every reachable state: at most maxConcurrent active, at most maxQueued
      waiting, nobody waits while a slot is free, exactly the waiting entries
      have a timer, tasks start in submission order, and every submission is
      in exactly one of queued, running and settled. */
  lemma {:induction false} EveryRunKeepsInv(c: Config, events: seq<Event>)
    requires Possible(c, events)
    ensures Inv(c, Run(c, events))
  {
    if events != [] {
      EveryRunKeepsInv(c, Front(events));
      var s := Run(c, Front(events));
      match Last(events)
      case Submitted => SubmitKeeps(c, s);
      case TaskDone(id, ok) => TaskSettledKeeps(c, s, id, ok);
      case Timeout(id) => TimerFiredKeeps(c, s, id);
      case Closing => CloseKeeps(c, s);
    }
  }

  lemma OneSlotOneStart(c: Config, s: State)
    requires s.queue != [] && s.active == c.maxConcurrent - 1 && s.queue[0] !in s.cancelled
    ensures TryRunNext(c, s) == Execute(Shift(s), s.queue[0])
  {
    var t := Execute(Shift(s), s.queue[0]);
    assert TryRunNext(c, t) == t;
  }

  /** A slot freed while entries wait goes to the oldest of them, and to it
      alone; freed while nobody waits, it stays free. */
  lemma FreedSlotGoesToOldest(c: Config, events: seq<Event>, id: nat, ok: bool)
    requires Possible(c, events) && id in Run(c, events).running
    ensures var s := Run(c, events);
            var t := TaskSettled(c, s, id, ok);
            if s.queue == [] then t.started == s.started && t.active == s.active - 1
            else t.started == s.started + [s.queue[0]] && t.queue == s.queue[1..] && t.active == s.active
  {
    EveryRunKeepsInv(c, events);
    var s := Run(c, events);
    if s.queue != [] {
      assert s.queue[0] in s.queue;
      assert s.running != {};
      OneSlotOneStart(c, s.(active := s.active - 1, running := s.running - {id}));
    }
  }

  /** A settled promise never changes, and submissions are never forgotten. */
  lemma OutcomesAreFinal(c: Config, events: seq<Event>, e: Event)
    requires Possible(c, events) && Enabled(Run(c, events), e)
    ensures var s := Run(c, events);
            var t := Step(c, s, e);
            && (forall id :: id in s.outcomes ==> id in t.outcomes && t.outcomes[id] == s.outcomes[id])
            && s.started <= t.started
  {
    EveryRunKeepsInv(c, events);
    var s := Run(c, events);
    match e
    case TaskDone(id, ok) =>
      OutcomesCommute(c, s.(active := s.active - 1, running := s.running - {id}), map[]);
      FreedSlotGoesToOldest(c, events, id, ok);
    case _ =>
  }

  /** Once closed, always closed, and no task is ever started again. */
  lemma ClosedStartsNothing(c: Config, events: seq<Event>, e: Event)
    requires Possible(c, events) && Enabled(Run(c, events), e)
    requires Run(c, events).closed
    ensures Step(c, Run(c, events), e).closed
    ensures Step(c, Run(c, events), e).started == Run(c, events).started
  {
    EveryRunKeepsInv(c, events);
  }
}
