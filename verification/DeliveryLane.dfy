/**
 One delivery queue of the routed broadcaster, with the drain that may be working on it.

 A lane holds the queue itself, the part of a taken batch that is still to be attempted (`todo`),
 the part that failed and waits to go back (`requeue`), and the whole past of the queue:
 everything ever put in it, every delivery attempt, everything evicted, delivered or given up.
 The four steps are the lock-protected sections of the queue plus one delivery attempt.
 */
module DeliveryLane {

  const NORMAL_QUEUE_CAP: nat := 10_000
  const MAX_RETRIES: nat := 3

  // `serial` stands for the event itself: its place in the order of all insertions.
  datatype QueuedEvent = QueuedEvent(serial: nat, priority: string, retryCount: nat)

  datatype Lane = Lane(
    queue: seq<QueuedEvent>,
    busy: bool,
    todo: seq<QueuedEvent>,
    requeue: seq<QueuedEvent>,
    past: Past)

  datatype Past = Past(
    issued: seq<QueuedEvent>,
    attempts: seq<QueuedEvent>,
    evicted: seq<QueuedEvent>,
    completed: seq<QueuedEvent>,
    abandoned: seq<QueuedEvent>)

  const NO_PAST := Past([], [], [], [], [])

  datatype Step = Push(e: QueuedEvent) | Take | Attempt(ok: bool) | Finish

  // How many entries the overflow loop drops from the front.
  function Excess(queue: seq<QueuedEvent>, bounded: bool): (n: nat)
    ensures n <= |queue|
  {
    if bounded && |queue| > NORMAL_QUEUE_CAP then |queue| - NORMAL_QUEUE_CAP else 0
  }

  predicate Retriable(e: QueuedEvent) {
    e.priority != "low" && e.retryCount < MAX_RETRIES
  }

  function Bumped(e: QueuedEvent): QueuedEvent {
    e.(retryCount := e.retryCount + 1)
  }

  ghost predicate Enabled(l: Lane, step: Step) {
    match step
    case Push(e) => e.retryCount == 0 && forall i | i in l.past.issued :: i.serial < e.serial
    case Take => !l.busy
    case Attempt(_) => l.todo != []
    case Finish => l.busy && l.todo == []
  }

  function Apply(l: Lane, step: Step, bounded: bool): Lane
    requires step.Attempt? ==> l.todo != []
  {
    match step
    case Push(e) =>
      var full := l.queue + [e];
      var n := Excess(full, bounded);
      l.(queue := full[n..], past := l.past.(issued := l.past.issued + [e], evicted := l.past.evicted + full[..n]))
    case Take =>
      l.(queue := [], busy := true, todo := l.queue, requeue := [])
    case Attempt(ok) =>
      var e := l.todo[0];
      var again := !ok && Retriable(e);
      Lane(l.queue, l.busy, l.todo[1..], l.requeue + (if again then [Bumped(e)] else []),
           Past(l.past.issued, l.past.attempts + [e], l.past.evicted,
                l.past.completed + (if ok then [e] else []),
                l.past.abandoned + (if ok || again then [] else [e])))
    case Finish =>
      l.(queue := l.queue + l.requeue, busy := false, requeue := [])
  }

  // A lane without a drain holds no batch.
  predicate Settled(l: Lane) {
    !l.busy ==> l.todo == [] && l.requeue == []
  }

  // ------------------------------------------------------------------ first attempts keep enqueue order

  function Fresh(s: seq<QueuedEvent>): seq<QueuedEvent> {
    if s == [] then []
    else
      var last := s[|s| - 1];
      Fresh(s[..|s| - 1]) + if last.retryCount == 0 then [last] else []
  }

  lemma {:induction false} FreshMember(s: seq<QueuedEvent>, e: QueuedEvent)
    ensures e in Fresh(s) <==> e in s && e.retryCount == 0
  {
    if s != [] {
      var k := |s| - 1;
      FreshMember(s[..k], e);
      assert s == s[..k] + [s[k]];
    }
  }

  lemma {:induction false} FreshConcat(a: seq<QueuedEvent>, b: seq<QueuedEvent>)
    ensures Fresh(a + b) == Fresh(a) + Fresh(b)
  {
    if b == [] {
      assert a + b == a;
    } else {
      var k := |b| - 1;
      FreshConcat(a, b[..k]);
      assert (a + b)[..|a + b| - 1] == a + b[..k];
    }
  }

  lemma FreshSnoc(s: seq<QueuedEvent>, e: QueuedEvent)
    ensures Fresh(s + [e]) == Fresh(s) + if e.retryCount == 0 then [e] else []
  {
    assert (s + [e])[..|s|] == s;
  }

  lemma FreshSplit(s: seq<QueuedEvent>, n: nat)
    requires n <= |s|
    ensures Fresh(s) == Fresh(s[..n]) + Fresh(s[n..])
  {
    hide Fresh;
    FreshConcat(s[..n], s[n..]);
    assert s == s[..n] + s[n..];
  }

  ghost predicate Increasing(s: seq<QueuedEvent>) {
    forall i, j | 0 <= i < j < |s| :: s[i].serial < s[j].serial
  }

  // First attempts already made, then the ones still to come, in order.
  function Line(l: Lane): seq<QueuedEvent> {
    Fresh(l.past.attempts) + Fresh(l.todo) + Fresh(l.queue)
  }

  // `line` is `issued` in the same order, with nothing missing but evicted events.
  ghost predicate Ordered(issued: seq<QueuedEvent>, evicted: seq<QueuedEvent>, line: seq<QueuedEvent>) {
    && Increasing(issued)
    && Increasing(line)
    && (forall e | e in issued :: e.retryCount == 0)
    && (forall e | e in line :: e in issued)
    && (forall e | e in issued :: e in line || e in evicted)
  }

  ghost predicate Retried(s: seq<QueuedEvent>) {
    forall e | e in s :: e.retryCount > 0
  }

  ghost predicate InOrder(l: Lane) {
    Ordered(l.past.issued, l.past.evicted, Line(l)) && Retried(l.requeue)
  }

  lemma AppendIncreasing(s: seq<QueuedEvent>, e: QueuedEvent)
    requires Increasing(s) && forall i | i in s :: i.serial < e.serial
    ensures Increasing(s + [e])
  {
  }

  lemma DropMiddleIncreasing(a: seq<QueuedEvent>, b: seq<QueuedEvent>, c: seq<QueuedEvent>)
    requires Increasing(a + b + c)
    ensures Increasing(a + c)
  {
    var long := a + b + c;
    forall i, j | 0 <= i < j < |a + c| ensures (a + c)[i].serial < (a + c)[j].serial {
      var i' := if i < |a| then i else i + |b|;
      var j' := if j < |a| then j else j + |b|;
      assert (a + c)[i] == long[i'] && (a + c)[j] == long[j'];
    }
  }

  // Adding `e` at the back and losing `gone` from the middle keeps the order.
  lemma ReplaceKeepsOrdered(issued: seq<QueuedEvent>, evicted: seq<QueuedEvent>, line: seq<QueuedEvent>, e: QueuedEvent,
                            done: seq<QueuedEvent>, gone: seq<QueuedEvent>, kept: seq<QueuedEvent>,
                            dropped: seq<QueuedEvent>)
    requires Ordered(issued, evicted, line)
    requires e.retryCount == 0 && forall i | i in issued :: i.serial < e.serial
    requires line + [e] == done + gone + kept
    requires forall x | x in gone :: x in dropped
    ensures Ordered(issued + [e], evicted + dropped, done + kept)
  {
    AppendIncreasing(issued, e);
    AppendIncreasing(line, e);
    DropMiddleIncreasing(done, gone, kept);
    hide Increasing;
    forall x | x in done + kept ensures x in issued + [e] {
      assert x in done + gone + kept;
      assert x in line + [e];
    }
    forall x | x in issued + [e] ensures x in done + kept || x in evicted + dropped {
      if x !in evicted {
        assert x in line + [e];
        assert x in done + gone + kept;
      }
    }
  }

  lemma FreshAreMembers(s: seq<QueuedEvent>)
    ensures forall x | x in Fresh(s) :: x in s
  {
    forall x | x in Fresh(s) ensures x in s {
      FreshMember(s, x);
    }
  }

  lemma PushKeepsOrder(l: Lane, e: QueuedEvent, bounded: bool)
    requires InOrder(l) && Enabled(l, Push(e))
    ensures InOrder(Apply(l, Push(e), bounded))
  {
    hide Ordered;
    var full := l.queue + [e];
    var n := Excess(full, bounded);
    var done := Fresh(l.past.attempts) + Fresh(l.todo);
    hide Fresh;
    FreshSnoc(l.queue, e);
    FreshSplit(full, n);
    FreshAreMembers(full[..n]);
    assert Line(l) + [e] == done + (Fresh(l.queue) + [e]);
    ReplaceKeepsOrdered(l.past.issued, l.past.evicted, Line(l), e, done, Fresh(full[..n]), Fresh(full[n..]), full[..n]);
  }

  lemma AttemptKeepsOrder(l: Lane, ok: bool, bounded: bool)
    requires InOrder(l) && l.todo != []
    ensures InOrder(Apply(l, Attempt(ok), bounded))
  {
    hide Fresh;
    hide Ordered;
    FreshHead(l.past.attempts, l.todo);
    assert Line(Apply(l, Attempt(ok), bounded)) == Line(l);
  }

  lemma FinishKeepsOrder(l: Lane, bounded: bool)
    requires InOrder(l) && l.todo == []
    ensures InOrder(Apply(l, Finish, bounded))
  {
    FreshConcat(l.queue, l.requeue);
    RetriedHasNoFresh(l.requeue);
    hide Fresh;
    hide Ordered;
    assert Line(Apply(l, Finish, bounded)) == Line(l);
  }

  lemma StepKeepsOrder(l: Lane, step: Step, bounded: bool)
    requires Settled(l) && InOrder(l) && Enabled(l, step)
    ensures InOrder(Apply(l, step, bounded))
  {
    hide Ordered;
    match step
    case Push(e) => PushKeepsOrder(l, e, bounded);
    case Take => assert Line(Apply(l, Take, bounded)) == Line(l);
    case Attempt(ok) => AttemptKeepsOrder(l, ok, bounded);
    case Finish => FinishKeepsOrder(l, bounded);
  }

  lemma FreshFirst(s: seq<QueuedEvent>)
    requires s != []
    ensures Fresh(s) == (if s[0].retryCount == 0 then [s[0]] else []) + Fresh(s[1..])
  {
    assert Fresh([]) == [];
    hide Fresh;
    FreshSplit(s, 1);
    FreshSnoc([], s[0]);
    assert s[..1] == [] + [s[0]];
  }

  lemma FreshHead(a: seq<QueuedEvent>, b: seq<QueuedEvent>)
    requires b != []
    ensures Fresh(a + [b[0]]) + Fresh(b[1..]) == Fresh(a) + Fresh(b)
  {
    hide Fresh;
    FreshFirst(b);
    FreshSnoc(a, b[0]);
    var head := if b[0].retryCount == 0 then [b[0]] else [];
    assert (Fresh(a) + head) + Fresh(b[1..]) == Fresh(a) + (head + Fresh(b[1..]));
  }

  lemma RetriedHasNoFresh(s: seq<QueuedEvent>)
    requires Retried(s)
    ensures Fresh(s) == []
  {
    if Fresh(s) != [] {
      FreshMember(s, Fresh(s)[0]);
    }
  }

  // ------------------------------------------------------------------ nothing is lost or duplicated

  // How often an event occurs in a sequence, whatever its retry count.
  function Occurrences(s: seq<QueuedEvent>, serial: nat): nat {
    if s == [] then 0
    else Occurrences(s[..|s| - 1], serial) + if s[|s| - 1].serial == serial then 1 else 0
  }

  lemma {:induction false} OccurrencesConcat(a: seq<QueuedEvent>, b: seq<QueuedEvent>, serial: nat)
    ensures Occurrences(a + b, serial) == Occurrences(a, serial) + Occurrences(b, serial)
  {
    if b == [] {
      assert a + b == a;
    } else {
      var k := |b| - 1;
      OccurrencesConcat(a, b[..k], serial);
      assert (a + b)[..|a + b| - 1] == a + b[..k];
    }
  }

  lemma OccurrencesSnoc(s: seq<QueuedEvent>, e: QueuedEvent, serial: nat)
    ensures Occurrences(s + [e], serial) == Occurrences(s, serial) + if e.serial == serial then 1 else 0
  {
    assert (s + [e])[..|s|] == s;
  }

  lemma OccurrencesSplit(s: seq<QueuedEvent>, n: nat, serial: nat)
    requires n <= |s|
    ensures Occurrences(s, serial) == Occurrences(s[..n], serial) + Occurrences(s[n..], serial)
  {
    assert s == s[..n] + s[n..];
    OccurrencesConcat(s[..n], s[n..], serial);
  }

  lemma OccurrencesHead(s: seq<QueuedEvent>, serial: nat)
    requires s != []
    ensures Occurrences(s, serial) == Occurrences(s[1..], serial) + if s[0].serial == serial then 1 else 0
  {
    OccurrencesSplit(s, 1, serial);
    assert s[..1] == [] + [s[0]];
    OccurrencesSnoc([], s[0], serial);
  }

  lemma {:induction false} OccurrencesMember(s: seq<QueuedEvent>, serial: nat)
    ensures Occurrences(s, serial) > 0 <==> exists i :: 0 <= i < |s| && s[i].serial == serial
  {
    if s != [] {
      var k := |s| - 1;
      OccurrencesMember(s[..k], serial);
      if Occurrences(s[..k], serial) > 0 {
        var i :| 0 <= i < k && s[..k][i].serial == serial;
        assert s[i].serial == serial;
      } else if s[k].serial != serial {
        forall i | 0 <= i < |s| ensures s[i].serial != serial {
          assert i < k ==> s[..k][i] == s[i];
        }
      }
    }
  }

  lemma {:induction false} OccurrencesOfIncreasing(s: seq<QueuedEvent>, serial: nat)
    requires Increasing(s)
    ensures Occurrences(s, serial) <= 1
  {
    if s != [] {
      var k := |s| - 1;
      OccurrencesOfIncreasing(s[..k], serial);
      OccurrencesMember(s[..k], serial);
    }
  }

  // How often an event is found in the places where the events of a lane can be.
  function Places(l: Lane, serial: nat): nat {
    Occurrences(l.queue, serial) + Occurrences(l.todo, serial) + Occurrences(l.requeue, serial) +
    Occurrences(l.past.evicted, serial) + Occurrences(l.past.completed, serial) + Occurrences(l.past.abandoned, serial)
  }

  function Population(l: Lane): nat {
    |l.queue| + |l.todo| + |l.requeue| + |l.past.evicted| + |l.past.completed| + |l.past.abandoned|
  }

  ghost predicate Conserved(l: Lane) {
    && Population(l) == |l.past.issued|
    && forall serial: nat :: Places(l, serial) == Occurrences(l.past.issued, serial)
  }

  lemma PushConservesEvent(l: Lane, e: QueuedEvent, bounded: bool, serial: nat)
    requires Places(l, serial) == Occurrences(l.past.issued, serial)
    ensures var l' := Apply(l, Push(e), bounded); Places(l', serial) == Occurrences(l'.past.issued, serial)
  {
    var full := l.queue + [e];
    var n := Excess(full, bounded);
    OccurrencesSnoc(l.queue, e, serial);
    OccurrencesSplit(full, n, serial);
    OccurrencesConcat(l.past.evicted, full[..n], serial);
    OccurrencesSnoc(l.past.issued, e, serial);
    hide Occurrences;
  }

  lemma OccurrencesAddIf(s: seq<QueuedEvent>, add: bool, e: QueuedEvent, serial: nat)
    ensures Occurrences(s + (if add then [e] else []), serial) ==
            Occurrences(s, serial) + if add && e.serial == serial then 1 else 0
  {
    if add {
      OccurrencesSnoc(s, e, serial);
    } else {
      assert s + [] == s;
    }
  }

  lemma AttemptConservesEvent(l: Lane, ok: bool, bounded: bool, serial: nat)
    requires l.todo != []
    requires Places(l, serial) == Occurrences(l.past.issued, serial)
    ensures var l' := Apply(l, Attempt(ok), bounded); Places(l', serial) == Occurrences(l'.past.issued, serial)
  {
    var e := l.todo[0];
    var again := !ok && Retriable(e);
    OccurrencesHead(l.todo, serial);
    OccurrencesAddIf(l.requeue, again, Bumped(e), serial);
    OccurrencesAddIf(l.past.completed, ok, e, serial);
    OccurrencesAddIf(l.past.abandoned, !(ok || again), e, serial);
    hide Occurrences;
  }

  lemma StepConservesEvent(l: Lane, step: Step, bounded: bool, serial: nat)
    requires Settled(l) && Enabled(l, step)
    requires Places(l, serial) == Occurrences(l.past.issued, serial)
    ensures var l' := Apply(l, step, bounded); Places(l', serial) == Occurrences(l'.past.issued, serial)
  {
    match step
    case Push(e) => PushConservesEvent(l, e, bounded, serial);
    case Take =>
    case Attempt(ok) => AttemptConservesEvent(l, ok, bounded, serial);
    case Finish => OccurrencesConcat(l.queue, l.requeue, serial);
  }

  lemma StepConserves(l: Lane, step: Step, bounded: bool)
    requires Settled(l) && Conserved(l) && Enabled(l, step)
    ensures Conserved(Apply(l, step, bounded))
  {
    var l' := Apply(l, step, bounded);
    forall serial: nat ensures Places(l', serial) == Occurrences(l'.past.issued, serial) {
      StepConservesEvent(l, step, bounded, serial);
    }
  }
}
