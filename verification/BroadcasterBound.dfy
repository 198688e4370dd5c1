/**
 The size bound of the normal queue is exact: there is a run that reaches it. Each round takes the
 whole queue, refills it to the cap while the drain is in progress, and fails every delivery.
 Also here: the uninterrupted steps of a processor compute what the delivery loop computes.
 */
module BroadcasterBound {
  import opened DeliveryLane
  import opened LaneInvariant
  import opened Broadcaster

  lemma {:induction false} RunFromConcat(s: System, a: seq<Action>, b: seq<Action>)
    ensures RunFrom(s, a + b) == RunFrom(RunFrom(s, a), b)
  {
    if b == [] {
      assert a + b == a;
    } else {
      RunFromConcat(s, a, b[..|b| - 1]);
      assert (a + b)[..|a + b| - 1] == a + b[..|b| - 1];
    }
  }

  lemma RunFromSnoc(s: System, acts: seq<Action>, a: Action)
    ensures RunFrom(s, acts + [a]) == Broadcaster.Apply(RunFrom(s, acts), a)
  {
    assert (acts + [a])[..|acts|] == acts;
  }

  function Deliveries(pid: nat, batch: seq<QueuedEvent>, deliver: QueuedEvent -> Outcome): seq<Action> {
    seq(|batch|, i requires 0 <= i < |batch| => Deliver(pid, deliver(batch[i]).Reached?))
  }

  // What a processor holds after handling the first `n` events of its batch.
  function Partway(d: Drain, deliver: QueuedEvent -> Outcome, n: nat): Drain
    requires n <= |d.todo|
  {
    Drain(d.high, d.todo[n..], d.requeue + Requeued(d.todo[..n], deliver))
  }

  lemma PartwayStep(s: System, d: Drain, pid: nat, deliver: QueuedEvent -> Outcome, n: nat)
    requires n < |d.todo| && pid in s.drains && s.drains[pid] == Partway(d, deliver, n)
    ensures var s' := Broadcaster.Apply(s, Deliver(pid, deliver(d.todo[n]).Reached?));
            s'.q == s.q && s'.drains == s.drains[pid := Partway(d, deliver, n + 1)]
  {
    var e := d.todo[n];
    assert d.todo[..n + 1][..n] == d.todo[..n] && d.todo[..n + 1][n] == e;
    assert d.todo[n..][0] == e && d.todo[n..][1..] == d.todo[n + 1..];
    var more := if deliver(e).Errored? && Retriable(e) then [Bumped(e)] else [];
    assert Requeued(d.todo[..n + 1], deliver) == Requeued(d.todo[..n], deliver) + more;
    hide Requeued;
    assert (d.requeue + Requeued(d.todo[..n], deliver)) + more == d.requeue + (Requeued(d.todo[..n], deliver) + more);
  }

  lemma NothingDeliveredYet(s: System, pid: nat, deliver: QueuedEvent -> Outcome)
    requires pid in s.drains
    ensures var d := s.drains[pid];
            && RunFrom(s, Deliveries(pid, d.todo[..0], deliver)) == s
            && s.drains[pid := Partway(d, deliver, 0)] == s.drains
  {
    assert Deliveries(pid, s.drains[pid].todo[..0], deliver) == [];
    assert Partway(s.drains[pid], deliver, 0) == s.drains[pid];
  }

  lemma DeliveriesSnoc(pid: nat, batch: seq<QueuedEvent>, deliver: QueuedEvent -> Outcome, n: nat)
    requires 0 < n <= |batch|
    ensures Deliveries(pid, batch[..n], deliver)
         == Deliveries(pid, batch[..n - 1], deliver) + [Deliver(pid, deliver(batch[n - 1]).Reached?)]
  {
  }

  // The processor's own steps, done in a row, leave it with what the loop would requeue.
  lemma {:induction false} DeliveriesMatchLoop(s: System, pid: nat, deliver: QueuedEvent -> Outcome, n: nat)
    requires pid in s.drains && n <= |s.drains[pid].todo|
    ensures var d := s.drains[pid];
            var s' := RunFrom(s, Deliveries(pid, d.todo[..n], deliver));
            s'.q == s.q && s'.drains == s.drains[pid := Partway(d, deliver, n)]
  {
    hide *;
    var d := s.drains[pid];
    if n == 0 {
      NothingDeliveredYet(s, pid, deliver);
    } else {
      DeliveriesMatchLoop(s, pid, deliver, n - 1);
      var before := Deliveries(pid, d.todo[..n - 1], deliver);
      var last := Deliver(pid, deliver(d.todo[n - 1]).Reached?);
      DeliveriesSnoc(pid, d.todo, deliver, n);
      RunFromSnoc(s, before, last);
      PartwayStep(RunFrom(s, before), d, pid, deliver, n - 1);
    }
  }

  const PLAIN := Submission(Absent, Absent)

  ghost predicate AllPlain(s: seq<QueuedEvent>, age: nat) {
    forall e | e in s :: e.priority == "normal" && e.retryCount <= age
  }

  lemma {:induction false} FillEmptyQueue(s: System, subs: seq<Submission>)
    requires s.q.normal == [] && |subs| <= NORMAL_QUEUE_CAP
    requires forall i | 0 <= i < |subs| :: subs[i] == PLAIN
    ensures var s' := InsertAll(s, subs);
            && |s'.q.normal| == |subs| && AllPlain(s'.q.normal, 0)
            && s'.drains == s.drains && s'.q.drainingNormal == s.q.drainingNormal
  {
    if subs != [] {
      FillEmptyQueue(s, subs[..|subs| - 1]);
    }
  }

  const FILL := seq(NORMAL_QUEUE_CAP, i => PLAIN)

  // A state at rest whose normal queue holds `size` retriable events of at most the given age.
  ghost predicate Crowded(s: System, size: nat, age: nat) {
    && s.drains == map[] && !s.q.drainingNormal
    && |s.q.normal| == size && AllPlain(s.q.normal, age)
  }

  lemma {:induction false} AllFail(batch: seq<QueuedEvent>, age: nat)
    requires AllPlain(batch, age) && age < MAX_RETRIES
    ensures var r := Requeued(batch, e => Errored); |r| == |batch| && AllPlain(r, age + 1)
  {
    if batch != [] {
      AllFail(batch[..|batch| - 1], age);
    }
  }

  lemma TakesAll(s: System, size: nat, age: nat)
    requires Crowded(s, size, age)
    ensures var s' := Broadcaster.Apply(s, StartDrain(0, false));
            s'.drains == map[0 := Drain(false, s.q.normal, [])] && s'.q.normal == []
  {
    assert s.drains[0 := Drain(false, s.q.normal, [])] == map[0 := Drain(false, s.q.normal, [])];
  }

  lemma RefillsToCap(s: System)
    requires s.q.normal == []
    ensures var s' := Broadcaster.Apply(s, Enqueue(FILL));
            s'.drains == s.drains && |s'.q.normal| == NORMAL_QUEUE_CAP && AllPlain(s'.q.normal, 0)
  {
    FillEmptyQueue(s, FILL);
    hide InsertAll;
    hide AllPlain;
  }

  // Take the queue, then refill it to the cap.
  lemma TakeAndRefill(s: System, size: nat, age: nat) returns (acts: seq<Action>)
    requires Crowded(s, size, age)
    ensures var s' := RunFrom(s, acts);
            && s'.drains == map[0 := Drain(false, s.q.normal, [])]
            && |s'.q.normal| == NORMAL_QUEUE_CAP && AllPlain(s'.q.normal, 0)
  {
    acts := [] + [StartDrain(0, false)];
    assert RunFrom(s, []) == s;
    hide RunFrom;
    RunFromSnoc(s, [], StartDrain(0, false));
    TakesAll(s, size, age);
    RunFromSnoc(s, acts, Enqueue(FILL));
    RefillsToCap(RunFrom(s, acts));
    hide Broadcaster.Apply;
    acts := acts + [Enqueue(FILL)];
  }

  lemma FailedRound(s: System, size: nat, age: nat) returns (acts: seq<Action>)
    requires Crowded(s, size, age) && age < MAX_RETRIES
    ensures Crowded(RunFrom(s, acts), size + NORMAL_QUEUE_CAP, age + 1)
  {
    acts := TakeAndRefill(s, size, age);
    var s2 := RunFrom(s, acts);
    var todo := s.q.normal;
    var fail: QueuedEvent -> Outcome := e => Errored;
    var fails := Deliveries(0, todo, fail);
    assert todo[..|todo|] == todo && todo[|todo|..] == [] && [] + Requeued(todo, fail) == Requeued(todo, fail);
    DeliveriesMatchLoop(s2, 0, fail, |todo|);
    AllFail(todo, age);
    RunFromConcat(s, acts, fails);
    RunFromSnoc(s, acts + fails, EndDrain(0));
    hide RunFrom;
    hide Requeued;
    hide Deliveries;
    assert RunFrom(s2, fails).drains == map[0 := Drain(false, [], Requeued(todo, fail))];
    acts := acts + fails + [EndDrain(0)];
  }

  // No smaller bound holds for the normal queue.
  lemma NormalQueueBoundIsReached() returns (acts: seq<Action>)
    ensures |Run(acts).q.normal| == (1 + MAX_RETRIES) * NORMAL_QUEUE_CAP
  {
    acts := [Enqueue(FILL)];
    RunFromSnoc(INITIAL, [], Enqueue(FILL));
    assert [] + [Enqueue(FILL)] == acts;
    FillEmptyQueue(INITIAL, FILL);
    for age := 0 to MAX_RETRIES
      invariant Crowded(Run(acts), (age + 1) * NORMAL_QUEUE_CAP, age)
    {
      var round := FailedRound(Run(acts), (age + 1) * NORMAL_QUEUE_CAP, age);
      RunFromConcat(INITIAL, acts, round);
      acts := acts + round;
    }
  }
}
