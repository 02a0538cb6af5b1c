/** How each submission to the capacity controller ends, read off the events of
    the run: what run() does with it, and how its promise settles. */
module RenderOutcomes {
  import opened Basics
  import opened RenderCapacity

  function Submissions(events: seq<Event>): nat {
    if events == [] then 0 else Submissions(Front(events)) + if Last(events) == Submitted then 1 else 0
  }

  lemma InFront<T>(s: seq<T>, x: T)
    requires s != []
    ensures x in s <==> x in Front(s) || x == Last(s)
  {
    assert s == Front(s) + [Last(s)];
  }

  /** Submissions are numbered in order, and only close() closes. */
  lemma {:induction false} RunCounts(c: Config, events: seq<Event>)
    requires Possible(c, events)
    ensures Run(c, events).submitted == Submissions(events)
    ensures Run(c, events).closed <==> Closing in events
  {
    if events != [] {
      var s := Run(c, Front(events));
      RunCounts(c, Front(events));
      EveryRunKeepsInv(c, Front(events));
      InFront(events, Closing);
      if Last(events).TaskDone? {
        var released := s.(active := s.active - 1, running := s.running - {Last(events).id});
        DispatchKeepsCounts(c, released);
      }
    }
  }

  lemma {:induction false} DispatchKeepsCounts(c: Config, s: State)
    ensures var t := TryRunNext(c, s); t.submitted == s.submitted && t.closed == s.closed && t.outcomes == s.outcomes
    decreases |s.queue|
  {
    if s.active < c.maxConcurrent && |s.queue| > 0 {
      DispatchKeepsCounts(c, if s.queue[0] in s.cancelled then Shift(s) else Execute(Shift(s), s.queue[0]));
    }
  }

  // ---- Submissions ------------------------------------------------------------------

  /** A submission to a closed controller is rejected as closed. To an open one it
      starts at once if fewer than maxConcurrent run; else it waits, with a timer,
      if fewer than maxQueued wait; else it is rejected as full. Nothing else
      changes. */
  lemma SubmissionDecided(c: Config, events: seq<Event>)
    requires Possible(c, events)
    ensures var s, t, id := Run(c, events), Run(c, events + [Submitted]), Submissions(events);
            && id == s.submitted
            && (Closing in events ==>
                  t == s.(submitted := id + 1, outcomes := s.outcomes[id := CapacityClosed]))
            && (Closing !in events && |s.running| < c.maxConcurrent ==>
                  t == s.(submitted := id + 1, active := s.active + 1, running := s.running + {id}, started := s.started + [id]))
            && (Closing !in events && |s.running| >= c.maxConcurrent && |s.queue| < c.maxQueued ==>
                  t == s.(submitted := id + 1, queue := s.queue + [id], armed := s.armed + {id}))
            && (Closing !in events && |s.running| >= c.maxConcurrent && |s.queue| >= c.maxQueued ==>
                  t == s.(submitted := id + 1, outcomes := s.outcomes[id := QueueFull]))
  {
    RunCounts(c, events);
    EveryRunKeepsInv(c, events);
    assert Front(events + [Submitted]) == events;
  }

  // ---- Outcomes -----------------------------------------------------------------------

  predicate Ended(s: State, id: nat, o: Outcome) { id in s.outcomes && s.outcomes[id] == o }

  predicate ClosesOut(s: State, before: seq<Event>, e: Event, id: nat) {
    (e == Closing && id in s.queue) || (e == Submitted && Closing in before && id == Submissions(before))
  }

  predicate FillsUp(c: Config, s: State, before: seq<Event>, e: Event, id: nat) {
    e == Submitted && Closing !in before && id == Submissions(before)
    && |s.running| >= c.maxConcurrent && |s.queue| >= c.maxQueued
  }

  /** The k-th event was close() with `id` waiting, or the submission of `id` after close(). */
  predicate ClosesAt(c: Config, events: seq<Event>, id: nat, k: nat) {
    k < |events| && ClosesOut(Run(c, events[..k]), events[..k], events[k], id)
  }

  /** The k-th event was the submission of `id` to an open controller with all slots
      busy and the queue full. */
  predicate FillsAt(c: Config, events: seq<Event>, id: nat, k: nat) {
    k < |events| && FillsUp(c, Run(c, events[..k]), events[..k], events[k], id)
  }

  ghost predicate ClosedOut(c: Config, events: seq<Event>, id: nat) { exists k: nat :: ClosesAt(c, events, id, k) }

  ghost predicate FilledUp(c: Config, events: seq<Event>, id: nat) { exists k: nat :: FillsAt(c, events, id, k) }

  lemma SameBefore(c: Config, events: seq<Event>, id: nat, k: nat)
    requires k < |events| - 1
    ensures ClosesAt(c, events, id, k) == ClosesAt(c, Front(events), id, k)
    ensures FillsAt(c, events, id, k) == FillsAt(c, Front(events), id, k)
  {
    assert Front(events)[..k] == events[..k];
  }

  lemma LastAt(c: Config, events: seq<Event>, id: nat)
    requires events != []
    ensures ClosesAt(c, events, id, |events| - 1) == ClosesOut(Run(c, Front(events)), Front(events), Last(events), id)
    ensures FillsAt(c, events, id, |events| - 1) == FillsUp(c, Run(c, Front(events)), Front(events), Last(events), id)
  {
  }

  lemma ClosedOutGrows(c: Config, events: seq<Event>, id: nat)
    requires events != []
    ensures ClosedOut(c, events, id) <==>
              ClosedOut(c, Front(events), id) || ClosesOut(Run(c, Front(events)), Front(events), Last(events), id)
  {
    LastAt(c, events, id);
    if ClosedOut(c, Front(events), id) {
      var k: nat :| ClosesAt(c, Front(events), id, k);
      SameBefore(c, events, id, k);
    }
    if ClosedOut(c, events, id) {
      var k: nat :| ClosesAt(c, events, id, k);
      if k < |events| - 1 { SameBefore(c, events, id, k); }
    }
  }

  lemma FilledUpGrows(c: Config, events: seq<Event>, id: nat)
    requires events != []
    ensures FilledUp(c, events, id) <==>
              FilledUp(c, Front(events), id) || FillsUp(c, Run(c, Front(events)), Front(events), Last(events), id)
  {
    LastAt(c, events, id);
    if FilledUp(c, Front(events), id) {
      var k: nat :| FillsAt(c, Front(events), id, k);
      SameBefore(c, events, id, k);
    }
    if FilledUp(c, events, id) {
      var k: nat :| FillsAt(c, events, id, k);
      if k < |events| - 1 { SameBefore(c, events, id, k); }
    }
  }

  /** Each step settles just the promises its event says. */
  lemma StepSettles(c: Config, before: seq<Event>, e: Event, id: nat)
    requires Possible(c, before) && Enabled(Run(c, before), e)
    ensures var s, t := Run(c, before), Step(c, Run(c, before), e);
            && (Ended(t, id, Fulfilled) <==> Ended(s, id, Fulfilled) || e == TaskDone(id, true))
            && (Ended(t, id, Failed) <==> Ended(s, id, Failed) || e == TaskDone(id, false))
            && (Ended(t, id, QueueTimeout) <==> Ended(s, id, QueueTimeout) || e == Timeout(id))
            && (Ended(t, id, CapacityClosed) <==> Ended(s, id, CapacityClosed) || ClosesOut(s, before, e, id))
            && (Ended(t, id, QueueFull) <==> Ended(s, id, QueueFull) || FillsUp(c, s, before, e, id))
  {
    var s := Run(c, before);
    EveryRunKeepsInv(c, before);
    RunCounts(c, before);
    match e
    case TaskDone(done, ok) =>
      DispatchKeepsCounts(c, s.(active := s.active - 1, running := s.running - {done}));
    case _ =>
  }

  /** How a promise settled, over every possible run: fulfilled exactly when its
      task fulfilled, failed exactly when it failed, timed out exactly when its
      timer fired, closed exactly when it waited at close() or came after it, and
      full exactly when it came to busy slots and a full queue. */
  lemma {:induction false} OutcomesSayTheEvents(c: Config, events: seq<Event>, id: nat)
    requires Possible(c, events)
    ensures var s := Run(c, events);
            && (Ended(s, id, Fulfilled) <==> TaskDone(id, true) in events)
            && (Ended(s, id, Failed) <==> TaskDone(id, false) in events)
            && (Ended(s, id, QueueTimeout) <==> Timeout(id) in events)
            && (Ended(s, id, CapacityClosed) <==> ClosedOut(c, events, id))
            && (Ended(s, id, QueueFull) <==> FilledUp(c, events, id))
  {
    if events != [] {
      OutcomesSayTheEvents(c, Front(events), id);
      StepSettles(c, Front(events), Last(events), id);
      InFront(events, TaskDone(id, true));
      InFront(events, TaskDone(id, false));
      InFront(events, Timeout(id));
      ClosedOutGrows(c, events, id);
      FilledUpGrows(c, events, id);
    }
  }
}
