/**
 What every step on one queue keeps: how often each event was attempted, how many events of each retry
 count there are, and, together with order and conservation, the invariant of the queue.
 */
module LaneInvariant {
  import opened DeliveryLane

  // ------------------------------------------------------------------ attempts per event

  function Original(e: QueuedEvent): QueuedEvent {
    e.(retryCount := 0)
  }

  // `e` has been attempted `e.retryCount + extra` times, within its retry allowance.
  ghost predicate Tried(past: Past, e: QueuedEvent, extra: nat) {
    && Original(e) in past.issued
    && Occurrences(past.attempts, e.serial) == e.retryCount + extra
    && e.retryCount <= MAX_RETRIES
    && (e.priority == "low" ==> e.retryCount == 0)
  }

  ghost predicate AllTried(past: Past, s: seq<QueuedEvent>, extra: nat) {
    forall e | e in s :: Tried(past, e, extra)
  }

  ghost predicate Accounted(l: Lane) {
    && AllTried(l.past, l.queue, 0)
    && AllTried(l.past, l.todo, 0)
    && AllTried(l.past, l.requeue, 0)
    && AllTried(l.past, l.past.evicted, 0)
    && AllTried(l.past, l.past.completed, 1)
    && AllTried(l.past, l.past.abandoned, 1)
    && (forall e | e in l.past.abandoned :: !Retriable(e))
    && (forall e | e in l.past.attempts :: Original(e) in l.past.issued)
  }

  // A new attempt of `head` changes nothing for sequences that do not hold it.
  lemma OthersStayTried(past: Past, past': Past, s: seq<QueuedEvent>, extra: nat, head: QueuedEvent)
    requires AllTried(past, s, extra)
    requires past'.issued == past.issued && past'.attempts == past.attempts + [head]
    requires Occurrences(s, head.serial) == 0
    ensures AllTried(past', s, extra)
  {
    forall x | x in s ensures Tried(past', x, extra) {
      assert Tried(past, x, extra);
      OccurrencesMember(s, head.serial);
      OccurrencesSnoc(past.attempts, head, x.serial);
    }
  }

  // The event about to be attempted is in no other place.
  lemma HeadIsNowhereElse(l: Lane)
    requires l.todo != [] && Conserved(l) && Increasing(l.past.issued)
    ensures var id := l.todo[0].serial;
            && Occurrences(l.queue, id) == Occurrences(l.todo[1..], id) == Occurrences(l.requeue, id) == 0
            && Occurrences(l.past.evicted, id) == Occurrences(l.past.completed, id) == 0
            && Occurrences(l.past.abandoned, id) == 0
  {
    var id := l.todo[0].serial;
    OccurrencesHead(l.todo, id);
    OccurrencesOfIncreasing(l.past.issued, id);
    assert Places(l, id) == Occurrences(l.past.issued, id);
  }

  lemma AttemptKeepsAccounts(l: Lane, ok: bool, bounded: bool)
    requires Increasing(l.past.issued) && Conserved(l) && Accounted(l) && l.todo != []
    ensures Accounted(Apply(l, Attempt(ok), bounded))
  {
    var past' := Apply(l, Attempt(ok), bounded).past;
    var e := l.todo[0];
    assert Tried(l.past, e, 0);
    HeadIsNowhereElse(l);
    OthersStayTried(l.past, past', l.queue, 0, e);
    OthersStayTried(l.past, past', l.todo[1..], 0, e);
    OthersStayTried(l.past, past', l.requeue, 0, e);
    OthersStayTried(l.past, past', l.past.evicted, 0, e);
    OthersStayTried(l.past, past', l.past.completed, 1, e);
    OthersStayTried(l.past, past', l.past.abandoned, 1, e);
    OccurrencesSnoc(l.past.attempts, e, e.serial);
    assert Tried(past', e, 1);
    assert Retriable(e) ==> Tried(past', Bumped(e), 0);
    hide Occurrences;
    hide Conserved;
    hide Increasing;
    hide Tried;
  }

  lemma PushKeepsAccounts(l: Lane, e: QueuedEvent, bounded: bool)
    requires Accounted(l) && Enabled(l, Push(e))
    ensures Accounted(Apply(l, Push(e), bounded))
  {
    forall i | 0 <= i < |l.past.attempts| ensures l.past.attempts[i].serial != e.serial {
      assert Original(l.past.attempts[i]) in l.past.issued;
    }
    OccurrencesMember(l.past.attempts, e.serial);
    hide Occurrences;
    var l' := Apply(l, Push(e), bounded);
    assert forall x, extra | Tried(l.past, x, extra) :: Tried(l'.past, x, extra);
    assert Tried(l'.past, e, 0);
  }

  lemma StepKeepsAccounts(l: Lane, step: Step, bounded: bool)
    requires Settled(l) && Increasing(l.past.issued) && Conserved(l) && Accounted(l) && Enabled(l, step)
    ensures Accounted(Apply(l, step, bounded))
  {
    hide Conserved;
    hide Increasing;
    match step
    case Push(e) => PushKeepsAccounts(l, e, bounded);
    case Attempt(ok) => AttemptKeepsAccounts(l, ok, bounded);
    case _ =>
  }

  // ------------------------------------------------------------------ the size of the bounded queue

  function Count(s: seq<QueuedEvent>, k: nat): (n: nat)
    ensures n <= |s|
  {
    if s == [] then 0
    else Count(s[..|s| - 1], k) + if s[|s| - 1].retryCount == k then 1 else 0
  }

  lemma {:induction false} CountConcat(a: seq<QueuedEvent>, b: seq<QueuedEvent>, k: nat)
    ensures Count(a + b, k) == Count(a, k) + Count(b, k)
  {
    if b == [] {
      assert a + b == a;
    } else {
      var m := |b| - 1;
      CountConcat(a, b[..m], k);
      assert (a + b)[..|a + b| - 1] == a + b[..m];
    }
  }

  lemma CountAddIf(s: seq<QueuedEvent>, add: bool, e: QueuedEvent, k: nat)
    ensures Count(s + (if add then [e] else []), k) == Count(s, k) + if add && e.retryCount == k then 1 else 0
  {
    if add {
      assert (s + [e])[..|s|] == s;
    } else {
      assert s + [] == s;
    }
  }

  lemma CountHead(s: seq<QueuedEvent>, k: nat)
    requires s != []
    ensures Count(s, k) == Count(s[1..], k) + if s[0].retryCount == k then 1 else 0
  {
    assert s == [s[0]] + s[1..];
    CountConcat([s[0]], s[1..], k);
    CountAddIf([], true, s[0], k);
    assert [] + [s[0]] == [s[0]];
  }

  lemma {:induction false} CountAbsent(s: seq<QueuedEvent>, k: nat)
    requires forall e | e in s :: e.retryCount != k
    ensures Count(s, k) == 0
  {
    if s != [] {
      CountAbsent(s[..|s| - 1], k);
    }
  }

  // The four retry classes make up the whole sequence.
  lemma {:induction false} CountsSumToLength(s: seq<QueuedEvent>)
    requires forall e | e in s :: e.retryCount <= MAX_RETRIES
    ensures |s| == Count(s, 0) + Count(s, 1) + Count(s, 2) + Count(s, 3)
  {
    if s != [] {
      CountsSumToLength(s[..|s| - 1]);
    }
  }

  // Every retry class is bounded on its own; while a drain runs, the queue holds only fresh events.
  ghost predicate ClassBounded(l: Lane) {
    && (forall k: nat :: Count(l.queue, k) <= NORMAL_QUEUE_CAP)
    && (forall k: nat :: Count(l.todo, k) + Count(l.requeue, k + 1) <= NORMAL_QUEUE_CAP)
    && (l.busy ==> forall e | e in l.queue :: e.retryCount == 0)
  }

  lemma AttemptKeepsClassBounds(l: Lane, ok: bool)
    requires ClassBounded(l) && l.todo != []
    ensures ClassBounded(Apply(l, Attempt(ok), true))
  {
    var l' := Apply(l, Attempt(ok), true);
    var e := l.todo[0];
    var again := !ok && Retriable(e);
    forall k: nat ensures Count(l'.todo, k) + Count(l'.requeue, k + 1) <= NORMAL_QUEUE_CAP {
      CountHead(l.todo, k);
      CountAddIf(l.requeue, again, Bumped(e), k + 1);
      assert Count(l.todo, k) + Count(l.requeue, k + 1) <= NORMAL_QUEUE_CAP;
    }
  }

  lemma FinishKeepsClassBounds(l: Lane)
    requires l.busy && l.todo == [] && Retried(l.requeue) && ClassBounded(l)
    ensures ClassBounded(Apply(l, Finish, true))
  {
    forall k: nat ensures Count(l.queue + l.requeue, k) <= NORMAL_QUEUE_CAP {
      CountConcat(l.queue, l.requeue, k);
      if k == 0 {
        CountAbsent(l.requeue, 0);
      } else {
        CountAbsent(l.queue, k);
        assert Count(l.todo, k - 1) + Count(l.requeue, k - 1 + 1) <= NORMAL_QUEUE_CAP;
      }
    }
  }

  lemma StepKeepsClassBounds(l: Lane, step: Step)
    requires Settled(l) && Retried(l.requeue) && ClassBounded(l) && Enabled(l, step)
    ensures ClassBounded(Apply(l, step, true))
  {
    match step
    case Push(e) => assert |Apply(l, Push(e), true).queue| <= NORMAL_QUEUE_CAP;
    case Take =>
    case Attempt(ok) => AttemptKeepsClassBounds(l, ok);
    case Finish => FinishKeepsClassBounds(l);
  }

  // ------------------------------------------------------------------ all invariants together

  ghost predicate Valid(l: Lane, bounded: bool) {
    && Settled(l)
    && InOrder(l)
    && Conserved(l)
    && Accounted(l)
    && (bounded ==> ClassBounded(l))
  }

  lemma StepKeepsValid(l: Lane, step: Step, bounded: bool)
    requires Valid(l, bounded) && Enabled(l, step)
    ensures Valid(Apply(l, step, bounded), bounded)
  {
    hide Increasing;
    hide Conserved;
    hide Accounted;
    hide ClassBounded;
    hide Line;
    StepKeepsOrder(l, step, bounded);
    StepConserves(l, step, bounded);
    StepKeepsAccounts(l, step, bounded);
    if bounded {
      StepKeepsClassBounds(l, step);
    }
  }

  // The queue of a valid bounded lane can exceed the cap, but only by its retry classes.
  lemma ValidQueueIsBounded(l: Lane)
    requires Valid(l, true)
    ensures |l.queue| <= (1 + MAX_RETRIES) * NORMAL_QUEUE_CAP
  {
    forall e | e in l.queue ensures e.retryCount <= MAX_RETRIES {
      assert Tried(l.past, e, 0);
    }
    CountsSumToLength(l.queue);
  }

  // In an increasing sequence, what comes before `y` is exactly what has a smaller serial.
  lemma BeforeInIncreasing(a: seq<QueuedEvent>, y: QueuedEvent, b: seq<QueuedEvent>, x: QueuedEvent)
    requires Increasing(a + [y] + b) && x in a + [y] + b && x.serial < y.serial
    ensures x in a
  {
    var s := a + [y] + b;
    assert s[|a|] == y;
    var p :| 0 <= p < |s| && s[p] == x;
    assert p < |a|;
    assert a[p] == x;
  }

  lemma FreshAround(s: seq<QueuedEvent>, b: nat)
    requires b < |s| && s[b].retryCount == 0
    ensures Fresh(s) == Fresh(s[..b]) + [s[b]] + Fresh(s[b + 1..])
  {
    hide Fresh;
    FreshSplit(s, b);
    FreshFirst(s[b..]);
    assert s[b..][1..] == s[b + 1..];
  }

  lemma LineAround(l: Lane, b: nat)
    requires b < |l.past.attempts| && l.past.attempts[b].retryCount == 0
    ensures Line(l) == Fresh(l.past.attempts[..b]) + [l.past.attempts[b]] +
                       (Fresh(l.past.attempts[b + 1..]) + Fresh(l.todo) + Fresh(l.queue))
  {
    FreshAround(l.past.attempts, b);
    hide Fresh;
  }

  // If a later event has had its first attempt, every earlier one had its own before, or was evicted untried.
  lemma ValidFirstAttemptOrder(l: Lane, i: nat, j: nat, b: nat)
    requires InOrder(l)
    requires i < j < |l.past.issued| && b < |l.past.attempts|
    requires l.past.attempts[b] == l.past.issued[j]
    ensures l.past.issued[i] in l.past.attempts[..b] || l.past.issued[i] in l.past.evicted
  {
    var x, y := l.past.issued[i], l.past.issued[j];
    if x !in l.past.evicted {
      assert x in Line(l) && x.serial < y.serial && y.retryCount == 0;
      LineAround(l, b);
      hide Ordered;
      hide Line;
      BeforeInIncreasing(Fresh(l.past.attempts[..b]), y,
                         Fresh(l.past.attempts[b + 1..]) + Fresh(l.todo) + Fresh(l.queue), x);
      FreshMember(l.past.attempts[..b], x);
    }
  }

  // Where an event is decides how often it was tried.
  lemma ValidAttemptCount(l: Lane, e: QueuedEvent)
    requires Increasing(l.past.issued) && Conserved(l) && Accounted(l) && e in l.past.issued
    ensures Occurrences(l.past.attempts, e.serial) <= 1 + MAX_RETRIES
    ensures e.priority == "low" ==> Occurrences(l.past.attempts, e.serial) <= 1
  {
    OccurrencesMember(l.past.issued, e.serial);
    assert Places(l, e.serial) > 0;
    var x := Locate(l, e.serial);
    assert Original(x) == e;
  }

  lemma Locate(l: Lane, serial: nat) returns (x: QueuedEvent)
    requires Accounted(l) && Places(l, serial) > 0
    ensures x.serial == serial && (Tried(l.past, x, 0) || Tried(l.past, x, 1))
  {
    var parts := [l.queue, l.todo, l.requeue, l.past.evicted, l.past.completed, l.past.abandoned];
    var k :=
      if Occurrences(l.queue, serial) > 0 then 0
      else if Occurrences(l.todo, serial) > 0 then 1
      else if Occurrences(l.requeue, serial) > 0 then 2
      else if Occurrences(l.past.evicted, serial) > 0 then 3
      else if Occurrences(l.past.completed, serial) > 0 then 4
      else 5;
    OccurrencesMember(parts[k], serial);
    var i :| 0 <= i < |parts[k]| && parts[k][i].serial == serial;
    x := parts[k][i];
    assert x in parts[k];
  }
}
