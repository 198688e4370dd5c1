/**
 Every event is settled after a bounded number of drains of its queue, whatever else is enqueued meanwhile: it is
 delivered, given up or, in the normal queue, evicted.
 */
module BroadcasterProgress {
  import opened DeliveryLane
  import opened LaneInvariant
  import opened Broadcaster
  import opened BroadcasterBound

  // Drains of one queue that were both started and ended since some moment, and whether another has been started.
  datatype Rounds = Rounds(done: nat, open: bool)

  // A drain starts when the queue's flag goes up and ends when it comes down.
  function Counted(r: Rounds, was: bool, flag: bool): Rounds {
    if flag && !was then Rounds(r.done, true)
    else if was && !flag then Rounds(r.done + if r.open then 1 else 0, false)
    else r
  }

  // The drains that lie entirely in the run `more` from `s`.
  function RoundsIn(s: System, more: seq<Action>, high: bool): Rounds {
    if more == [] then Rounds(0, false)
    else
      var earlier := more[..|more| - 1];
      var was, flag := Draining(RunFrom(s, earlier).q, high), Draining(RunFrom(s, more).q, high);
      Counted(RoundsIn(s, earlier, high), was, flag)
  }

  // ------------------------------------------------------------------ one lane

  ghost predicate IsIssued(l: Lane, e: QueuedEvent) {
    e in l.past.issued
  }

  ghost predicate Missing(s: seq<QueuedEvent>, serial: nat) {
    forall e | e in s :: e.serial != serial
  }

  ghost predicate AtLeast(s: seq<QueuedEvent>, serial: nat, age: nat) {
    forall e | e in s :: e.serial == serial ==> e.retryCount >= age
  }

  // Each whole drain has used up an attempt of the event, if it is still there; what a new drain has taken is not in
  // the queue, and comes back one attempt older.
  ghost predicate Aged(l: Lane, serial: nat, r: Rounds) {
    && (r.open ==> l.busy && Missing(l.queue, serial))
    && AtLeast(l.queue, serial, r.done)
    && AtLeast(l.todo, serial, r.done)
    && AtLeast(l.requeue, serial, r.done + if r.open then 1 else 0)
  }

  lemma StepAges(l: Lane, step: Step, bounded: bool, e: QueuedEvent, r: Rounds)
    requires Settled(l) && Enabled(l, step) && IsIssued(l, e) && Aged(l, e.serial, r)
    ensures var l' := DeliveryLane.Apply(l, step, bounded);
            IsIssued(l', e) && Aged(l', e.serial, Counted(r, l.busy, l'.busy))
  {
    match step
    case Push(added) =>
      assert added.serial != e.serial;
    case Take =>
    case Attempt(ok) =>
      assert AtLeast(l.todo[1..], e.serial, r.done);
      assert l.todo[0] in l.todo;
    case Finish =>
  }

  lemma MoveAges(l: Lane, l': Lane, bounded: bool, e: QueuedEvent, r: Rounds)
    requires Moves(l, l', bounded) && Settled(l) && IsIssued(l, e) && Aged(l, e.serial, r)
    ensures IsIssued(l', e) && Aged(l', e.serial, Counted(r, l.busy, l'.busy))
  {
    hide Aged;
    hide IsIssued;
    if l' != l {
      var step :| Enabled(l, step) && l' == DeliveryLane.Apply(l, step, bounded);
      StepAges(l, step, bounded, e, r);
    }
  }

  // ------------------------------------------------------------------ the system

  lemma SoundLane(s: System, high: bool)
    requires Sound(s)
    ensures Exclusive(s) && Numbered(PastOf(s, high), high, s.q.totalEvents) && Valid(LaneOf(s, high), !high)
    ensures Settled(LaneOf(s, high)) && (high ==> s.pastHigh.evicted == [])
  {
  }

  lemma {:induction false} InsertAllAges(s: System, subs: seq<Submission>, high: bool, e: QueuedEvent, r: Rounds)
    requires Sound(s) && IsIssued(LaneOf(s, high), e) && Aged(LaneOf(s, high), e.serial, r)
    ensures var s' := InsertAll(s, subs);
            && IsIssued(LaneOf(s', high), e) && Aged(LaneOf(s', high), e.serial, r)
            && Draining(s'.q, high) == Draining(s.q, high)
  {
    if subs != [] {
      var before, sub := subs[..|subs| - 1], subs[|subs| - 1];
      var mid := InsertAll(s, before);
      var s' := Insert(mid, sub);
      hide *;
      InsertAllAges(s, before, high, e, r);
      InsertAllKeepsSound(s, before);
      SoundLane(mid, high);
      InsertMoves(mid, sub, high);
      InsertKeepsFlags(mid, sub, high);
      MoveAges(LaneOf(mid, high), LaneOf(s', high), !high, e, r);
      LaneFlag(mid, high);
      LaneFlag(s', high);
      SameFlag(r, Draining(mid.q, high));
      InsertAllUnfold(s, subs);
    }
  }

  lemma InsertKeepsFlags(s: System, sub: Submission, high: bool)
    ensures Draining(Insert(s, sub).q, high) == Draining(s.q, high)
  {
  }

  lemma LaneFlag(s: System, high: bool)
    ensures LaneOf(s, high).busy == Draining(s.q, high) && LaneOf(s, high).past == PastOf(s, high)
  {
  }

  lemma SameFlag(r: Rounds, flag: bool)
    ensures Counted(r, flag, flag) == r
  {
  }

  lemma ApplyAges(s: System, a: Action, high: bool, e: QueuedEvent, r: Rounds)
    requires Sound(s) && IsIssued(LaneOf(s, high), e) && Aged(LaneOf(s, high), e.serial, r)
    ensures var s' := Broadcaster.Apply(s, a);
            && IsIssued(LaneOf(s', high), e)
            && Aged(LaneOf(s', high), e.serial, Counted(r, Draining(s.q, high), Draining(s'.q, high)))
  {
    if a.Enqueue? {
      InsertAllAges(s, a.subs, high, e, r);
      hide Aged;
      hide IsIssued;
      SameFlag(r, Draining(s.q, high));
    } else {
      hide *;
      var s' := Broadcaster.Apply(s, a);
      SoundLane(s, high);
      StepMoves(s, a, high);
      MoveAges(LaneOf(s, high), LaneOf(s', high), !high, e, r);
      LaneFlag(s, high);
      LaneFlag(s', high);
    }
  }

  lemma RoundsSnoc(s: System, more: seq<Action>, high: bool)
    requires more != []
    ensures var earlier := more[..|more| - 1];
            var was, flag := Draining(RunFrom(s, earlier).q, high), Draining(RunFrom(s, more).q, high);
            && RunFrom(s, more) == Broadcaster.Apply(RunFrom(s, earlier), more[|more| - 1])
            && RoundsIn(s, more, high) == Counted(RoundsIn(s, earlier, high), was, flag)
  {
  }

  lemma NotYetAged(l: Lane, serial: nat)
    ensures Aged(l, serial, Rounds(0, false))
  {
  }

  lemma {:induction false} RunAges(s: System, more: seq<Action>, high: bool, e: QueuedEvent)
    requires Sound(s) && IsIssued(LaneOf(s, high), e)
    ensures var s' := RunFrom(s, more);
            Sound(s') && IsIssued(LaneOf(s', high), e) && Aged(LaneOf(s', high), e.serial, RoundsIn(s, more, high))
  {
    if more == [] {
      hide Aged;
      hide Sound;
      hide IsIssued;
      NotYetAged(LaneOf(s, high), e.serial);
    } else {
      hide *;
      var earlier, a := more[..|more| - 1], more[|more| - 1];
      RunAges(s, earlier, high, e);
      ApplyAges(RunFrom(s, earlier), a, high, e, RoundsIn(s, earlier, high));
      StepKeepsSound(RunFrom(s, earlier), a);
      RoundsSnoc(s, more, high);
    }
  }

  lemma AgedRun(acts: seq<Action>, more: seq<Action>, high: bool, e: QueuedEvent)
    requires e in PastOf(Run(acts), high).issued
    ensures var l := LaneOf(Run(acts + more), high);
            Valid(l, !high) && (high ==> l.past.evicted == []) && IsIssued(l, e)
            && Aged(l, e.serial, RoundsIn(Run(acts), more, high))
  {
    RunIsSound(acts);
    RunFromConcat(INITIAL, acts, more);
    assert IsIssued(LaneOf(Run(acts), high), e);
    hide Sound;
    hide IsIssued;
    hide RunFrom;
    hide Valid;
    hide Aged;
    RunAges(Run(acts), more, high, e);
    SoundLane(Run(acts + more), high);
  }

  // ------------------------------------------------------------------ the main results

  // However the drains interleave with enqueuing: what is left of an event after `n` whole drains of its queue has been
  // attempted at least `n` times.
  lemma DrainsUseUpAttempts(acts: seq<Action>, more: seq<Action>, high: bool, e: QueuedEvent, x: QueuedEvent)
    requires e in PastOf(Run(acts), high).issued && x.serial == e.serial
    requires var l := LaneOf(Run(acts + more), high); x in l.queue || x in l.todo || x in l.requeue
    ensures RoundsIn(Run(acts), more, high).done <= x.retryCount
         <= Occurrences(PastOf(Run(acts + more), high).attempts, e.serial)
  {
    AgedRun(acts, more, high, e);
    var l := LaneOf(Run(acts + more), high);
    hide Run;
    hide RoundsIn;
    hide Conserved;
    hide InOrder;
    hide ClassBounded;
    hide Occurrences;
    assert Tried(l.past, x, 0);
  }

  lemma SettledLane(l: Lane, bounded: bool, e: QueuedEvent, r: Rounds)
    requires Valid(l, bounded) && e in l.past.issued && Aged(l, e.serial, r)
    requires r.done >= if e.priority == "low" then 1 else 1 + MAX_RETRIES
    ensures Occurrences(l.past.completed, e.serial) + Occurrences(l.past.abandoned, e.serial) +
            Occurrences(l.past.evicted, e.serial) == 1
  {
    Nowhere(l, l.queue, e, r.done);
    Nowhere(l, l.todo, e, r.done);
    Nowhere(l, l.requeue, e, r.done);
    OccurrencesMember(l.past.issued, e.serial);
    OccurrencesOfIncreasing(l.past.issued, e.serial);
    assert Places(l, e.serial) == Occurrences(l.past.issued, e.serial) == 1;
  }

  lemma WithinAllowance(l: Lane, s: seq<QueuedEvent>, e: QueuedEvent)
    requires Increasing(l.past.issued) && e in l.past.issued && AllTried(l.past, s, 0)
    ensures forall x | x in s && x.serial == e.serial ::
              x.retryCount < if e.priority == "low" then 1 else 1 + MAX_RETRIES
  {
    forall x | x in s && x.serial == e.serial
      ensures x.retryCount < if e.priority == "low" then 1 else 1 + MAX_RETRIES
    {
      assert Tried(l.past, x, 0);
      assert Original(x) == e;
    }
  }

  // An event that is older than its allowance cannot be there.
  lemma Nowhere(l: Lane, s: seq<QueuedEvent>, e: QueuedEvent, age: nat)
    requires Increasing(l.past.issued) && e in l.past.issued && AllTried(l.past, s, 0) && AtLeast(s, e.serial, age)
    requires age >= if e.priority == "low" then 1 else 1 + MAX_RETRIES
    ensures Occurrences(s, e.serial) == 0
  {
    WithinAllowance(l, s, e);
    OccurrencesMember(s, e.serial);
  }

  // After one whole drain for low priority, and 1 + MAX_RETRIES otherwise, an event is settled, whatever is enqueued
  // meanwhile: it was delivered, given up or evicted, exactly one of them and exactly once.
  lemma EventsSettle(acts: seq<Action>, more: seq<Action>, high: bool, e: QueuedEvent)
    requires e in PastOf(Run(acts), high).issued
    requires RoundsIn(Run(acts), more, high).done >= if e.priority == "low" then 1 else 1 + MAX_RETRIES
    ensures var past := PastOf(Run(acts + more), high);
            && Occurrences(past.completed, e.serial) + Occurrences(past.abandoned, e.serial) +
               Occurrences(past.evicted, e.serial) == 1
            && (high ==> past.evicted == [])
  {
    AgedRun(acts, more, high, e);
    hide Run;
    hide RoundsIn;
    hide Valid;
    hide Aged;
    hide Occurrences;
    SettledLane(LaneOf(Run(acts + more), high), !high, e, RoundsIn(Run(acts), more, high));
  }

  // ------------------------------------------------------------------ fewer drains are not enough

  // Nothing is under way, and `e` is alone in the normal queue.
  ghost predicate Waiting(s: System, e: QueuedEvent) {
    s.drains == map[] && !s.q.drainingNormal && s.q.normal == [e]
  }

  lemma RoundsOneMore(s: System, more: seq<Action>, a: Action)
    ensures var s' := Broadcaster.Apply(RunFrom(s, more), a);
            && RunFrom(s, more + [a]) == s'
            && RoundsIn(s, more + [a], false)
               == Counted(RoundsIn(s, more, false), RunFrom(s, more).q.drainingNormal, s'.q.drainingNormal)
  {
    assert (more + [a])[..|more|] == more;
    RoundsSnoc(s, more + [a], false);
  }

  function FailingRounds(n: nat): seq<Action> {
    if n == 0 then [] else FailingRounds(n - 1) + [StartDrain(0, false)] + [Deliver(0, false)] + [EndDrain(0)]
  }

  lemma AloneIsTaken(s: System, e: QueuedEvent)
    requires Waiting(s, e)
    ensures var s' := Broadcaster.Apply(s, StartDrain(0, false));
            s'.drains == map[0 := Drain(false, [e], [])] && s'.q.drainingNormal && s'.q.normal == []
  {
  }

  lemma AloneFails(s: System, e: QueuedEvent)
    requires s.drains == map[0 := Drain(false, [e], [])] && Retriable(e)
    ensures var s' := Broadcaster.Apply(s, Deliver(0, false));
            s'.drains == map[0 := Drain(false, [], [Bumped(e)])] && s'.q == s.q
  {
    assert [e][1..] == [] && [] + [Bumped(e)] == [Bumped(e)];
    assert s.drains[0 := Drain(false, [], [Bumped(e)])] == map[0 := Drain(false, [], [Bumped(e)])];
  }

  lemma AloneReturns(s: System, e: QueuedEvent)
    requires s.drains == map[0 := Drain(false, [], [e])] && s.q.normal == []
    ensures Waiting(Broadcaster.Apply(s, EndDrain(0)), e)
  {
  }

  lemma {:induction false} FailuresKeepWaiting(s: System, e: QueuedEvent, n: nat)
    requires Waiting(s, e) && e.priority != "low" && e.retryCount == 0 && n <= MAX_RETRIES
    ensures Waiting(RunFrom(s, FailingRounds(n)), e.(retryCount := n))
    ensures RoundsIn(s, FailingRounds(n), false) == Rounds(n, false)
  {
    if n > 0 {
      FailuresKeepWaiting(s, e, n - 1);
      var m0 := FailingRounds(n - 1);
      var m1 := m0 + [StartDrain(0, false)];
      var m2 := m1 + [Deliver(0, false)];
      hide RunFrom;
      hide RoundsIn;
      hide Broadcaster.Apply;
      AloneIsTaken(RunFrom(s, m0), e.(retryCount := n - 1));
      RoundsOneMore(s, m0, StartDrain(0, false));
      AloneFails(RunFrom(s, m1), e.(retryCount := n - 1));
      RoundsOneMore(s, m1, Deliver(0, false));
      AloneReturns(RunFrom(s, m2), e.(retryCount := n));
      RoundsOneMore(s, m2, EndDrain(0));
    }
  }

  // No smaller number of drains settles every event: after MAX_RETRIES failing ones an event is still queued.
  lemma MaxRetriesDrainsAreTooFew()
    ensures var s, e := Run([Enqueue([PLAIN])]), QueuedEvent(0, "normal", 0);
            && s.pastNormal.issued == [e]
            && RoundsIn(s, FailingRounds(MAX_RETRIES), false).done == MAX_RETRIES
            && Run([Enqueue([PLAIN])] + FailingRounds(MAX_RETRIES)).q.normal == [e.(retryCount := MAX_RETRIES)]
  {
    var acts := [Enqueue([PLAIN])];
    assert [] + [Enqueue([PLAIN])] == acts && Run([]) == INITIAL;
    RunFromSnoc(INITIAL, [], Enqueue([PLAIN]));
    assert InsertAll(INITIAL, [PLAIN]) == Insert(INITIAL, PLAIN);
    FailuresKeepWaiting(Run(acts), QueuedEvent(0, "normal", 0), MAX_RETRIES);
    RunFromConcat(INITIAL, acts, FailingRounds(MAX_RETRIES));
    hide RunFrom;
    hide RoundsIn;
    hide FailingRounds;
  }
}
