/**
 The routed broadcaster's two queues: the lock-protected operations as a class, and the system in
 which any number of processors (background loops, flush requests) and enqueuers run concurrently.
 Every lock-protected section and every single delivery attempt is one atomic step.
 */
module Broadcaster {
  import opened DeliveryLane
  import opened LaneInvariant

  // A JSON field as `get(..).and_then(as_str)` sees it.
  datatype Field = Absent | Text(value: string) | NotText

  // What a caller enqueues, as far as the queue looks at it.
  datatype Submission = Submission(optionsPriority: Field, eventPriority: Field)

  function PriorityOf(sub: Submission): string {
    var field := if sub.optionsPriority.Absent? then sub.eventPriority else sub.optionsPriority;
    if field.Text? then field.value else "normal"
  }

  predicate IsUrgent(priority: string) {
    priority == "high" || priority == "urgent"
  }

  // `p` is the priority a submission asks for: the one in its options, or, if these have none at all, the one on the
  // event; "normal" if there is none there either or the one that is looked at is not a text.
  ghost predicate AsksFor(sub: Submission, p: string) {
    || sub.optionsPriority == Text(p)
    || (sub.optionsPriority == Absent && sub.eventPriority == Text(p))
    || (sub.optionsPriority == Absent && !sub.eventPriority.Text? && p == "normal")
    || (sub.optionsPriority == NotText && p == "normal")
  }

  // Every submission asks for exactly one priority.
  lemma AsksForOne(sub: Submission, p: string)
    ensures AsksFor(sub, p) <==> p == PriorityOf(sub)
  {
  }

  datatype Queues = Queues(
    normal: seq<QueuedEvent>,
    high: seq<QueuedEvent>,
    evicted: nat,
    totalEvents: nat,
    drainingHigh: bool,
    drainingNormal: bool)

  const EMPTY_QUEUES := Queues([], [], 0, 0, false, false)

  function QueueOf(q: Queues, high: bool): seq<QueuedEvent> {
    if high then q.high else q.normal
  }

  function Draining(q: Queues, high: bool): bool {
    if high then q.drainingHigh else q.drainingNormal
  }

  function WithQueue(q: Queues, high: bool, queue: seq<QueuedEvent>, draining: bool): Queues {
    if high then q.(high := queue, drainingHigh := draining)
    else q.(normal := queue, drainingNormal := draining)
  }

  // The entry made for the next submission.
  function Entry(q: Queues, sub: Submission): QueuedEvent {
    QueuedEvent(q.totalEvents, PriorityOf(sub), 0)
  }

  function Admit(q: Queues, sub: Submission): Queues {
    var e := Entry(q, sub);
    if IsUrgent(e.priority) then
      q.(high := q.high + [e], totalEvents := q.totalEvents + 1)
    else
      var full := q.normal + [e];
      var n := Excess(full, true);
      q.(normal := full[n..], evicted := q.evicted + n, totalEvents := q.totalEvents + 1)
  }

  // `q'` is `q` with one entry more: at the back of the high queue if its priority says so, else at the back of the
  // normal queue, from whose front drops what is too much then.
  ghost predicate Placed(q: Queues, q': Queues, e: QueuedEvent) {
    && q'.totalEvents == q.totalEvents + 1
    && q'.drainingHigh == q.drainingHigh && q'.drainingNormal == q.drainingNormal
    && (e.priority == "high" || e.priority == "urgent" ==>
          q'.high == q.high + [e] && q'.normal == q.normal && q'.evicted == q.evicted)
    && (e.priority != "high" && e.priority != "urgent" ==>
          && q'.high == q.high
          && (|q.normal| < NORMAL_QUEUE_CAP ==> q'.normal == q.normal + [e] && q'.evicted == q.evicted)
          && (|q.normal| >= NORMAL_QUEUE_CAP ==>
                var n := |q.normal| + 1 - NORMAL_QUEUE_CAP;
                q'.normal == q.normal[n..] + [e] && q'.evicted == q.evicted + n))
  }

  // In every state, a submission is entered once, under the priority it asks for, and in the queue of that priority.
  lemma AdmittedAsAsked(q: Queues, sub: Submission, p: string)
    requires AsksFor(sub, p)
    ensures Placed(q, Admit(q, sub), QueuedEvent(q.totalEvents, p, 0))
  {
  }

  function AdmitAll(q: Queues, subs: seq<Submission>): Queues {
    if subs == [] then q else Admit(AdmitAll(q, subs[..|subs| - 1]), subs[|subs| - 1])
  }

  // The entries of a batch that go to one of the queues.
  function Entries(first: nat, subs: seq<Submission>, high: bool): seq<QueuedEvent> {
    if subs == [] then []
    else
      var k := |subs| - 1;
      var e := QueuedEvent(first + k, PriorityOf(subs[k]), 0);
      Entries(first, subs[..k], high) + if IsUrgent(e.priority) == high then [e] else []
  }

  lemma EmptyBatch(q: Queues)
    ensures AdmitAll(q, []) == q && forall first, high :: Entries(first, [], high) == []
    ensures q.high + [] == q.high && (q.normal + [])[0..] == q.normal
  {
  }

  lemma AdmitAllUnfold(q: Queues, subs: seq<Submission>)
    requires subs != []
    ensures AdmitAll(q, subs) == Admit(AdmitAll(q, subs[..|subs| - 1]), subs[|subs| - 1])
  {
  }

  lemma EntriesUnfold(first: nat, subs: seq<Submission>, high: bool)
    requires subs != []
    ensures var k := |subs| - 1;
            var e := QueuedEvent(first + k, PriorityOf(subs[k]), 0);
            Entries(first, subs, high) ==
            Entries(first, subs[..k], high) + if IsUrgent(e.priority) == high then [e] else []
  {
  }

  // Dropping what is too much before and after one more entry drops what is too much in the end.
  lemma DropsAddUp(all: seq<QueuedEvent>, e: QueuedEvent, n: nat)
    requires n == 0 || n == Excess(all, true)
    ensures n <= |all|
    ensures var full := all[n..] + [e];
            && n + Excess(full, true) == Excess(all + [e], true)
            && full[Excess(full, true)..] == (all + [e])[Excess(all + [e], true)..]
  {
  }

  // `q'` is `q` with `urgent` and `others` added, and the oldest of what is too much for the normal queue dropped.
  ghost predicate Grown(q: Queues, q': Queues, urgent: seq<QueuedEvent>, others: seq<QueuedEvent>) {
    var n := if others == [] then 0 else Excess(q.normal + others, true);
    && q'.high == q.high + urgent
    && q'.normal == (q.normal + others)[n..]
    && q'.evicted == q.evicted + n
  }

  lemma AdmitGrows(q: Queues, mid: Queues, sub: Submission, urgent: seq<QueuedEvent>, others: seq<QueuedEvent>)
    requires Grown(q, mid, urgent, others)
    ensures var e := Entry(mid, sub);
            if IsUrgent(e.priority) then Grown(q, Admit(mid, sub), urgent + [e], others)
            else Grown(q, Admit(mid, sub), urgent, others + [e])
    ensures Admit(mid, sub).totalEvents == mid.totalEvents + 1
  {
    hide IsUrgent;
    hide PriorityOf;
    hide Excess;
    var e, all := Entry(mid, sub), q.normal + others;
    if IsUrgent(e.priority) {
      assert (q.high + urgent) + [e] == q.high + (urgent + [e]);
    } else {
      assert q.normal + (others + [e]) == all + [e];
      DropsAddUp(all, e, if others == [] then 0 else Excess(all, true));
    }
  }

  // Bulk insertion in one go: overflow drops the oldest normal entries, old and new, and nothing else.
  lemma {:induction false} BatchKeepsNewest(q: Queues, subs: seq<Submission>)
    ensures var q' := AdmitAll(q, subs);
            var added := Entries(q.totalEvents, subs, false);
            var n := if added == [] then 0 else Excess(q.normal + added, true);
            && q'.high == q.high + Entries(q.totalEvents, subs, true)
            && q'.normal == (q.normal + added)[n..]
            && q'.evicted == q.evicted + n
            && q'.totalEvents == q.totalEvents + |subs|
  {
    hide AdmitAll;
    hide Admit;
    hide Entries;
    hide IsUrgent;
    hide PriorityOf;
    hide Excess;
    if subs == [] {
      EmptyBatch(q);
    } else {
      var k := |subs| - 1;
      AdmitAllUnfold(q, subs);
      EntriesUnfold(q.totalEvents, subs, true);
      EntriesUnfold(q.totalEvents, subs, false);
      var mid := AdmitAll(q, subs[..k]);
      var urgent, others := Entries(q.totalEvents, subs[..k], true), Entries(q.totalEvents, subs[..k], false);
      BatchKeepsNewest(q, subs[..k]);
      assert Grown(q, mid, urgent, others);
      assert urgent + [] == urgent && others + [] == others;
      AdmitGrows(q, mid, subs[k], urgent, others);
    }
  }

  // The entries of a batch are its submissions under the priorities they ask for, numbered in order; those of the high
  // queue are exactly the ones that ask for "high" or "urgent".
  lemma {:induction false} EntriesAreAsked(first: nat, subs: seq<Submission>, high: bool)
    ensures Increasing(Entries(first, subs, high))
    ensures forall e :: e in Entries(first, subs, high) <==> IsEntry(first, subs, high, e)
  {
    if subs != [] {
      var k := |subs| - 1;
      EntriesAreAsked(first, subs[..k], high);
      AsksForOne(subs[k], PriorityOf(subs[k]));
      hide PriorityOf;
      EntriesUnfold(first, subs, high);
      hide Entries;
      var last := QueuedEvent(first + k, PriorityOf(subs[k]), 0);
      forall e ensures IsEntry(first, subs, high, e) <==>
                       IsEntry(first, subs[..k], high, e) || (e == last && IsUrgent(last.priority) == high)
      {
        AsksForOne(subs[k], e.priority);
        hide AsksFor;
      }
      hide IsUrgent;
      assert Entries(first, subs[..k], high) + [] == Entries(first, subs[..k], high);
      if IsUrgent(last.priority) == high {
        AppendIncreasing(Entries(first, subs[..k], high), last);
      }
    }
  }

  ghost predicate IsEntry(first: nat, subs: seq<Submission>, high: bool, e: QueuedEvent) {
    && first <= e.serial < first + |subs| && e.retryCount == 0
    && AsksFor(subs[e.serial - first], e.priority)
    && (high <==> e.priority == "high" || e.priority == "urgent")
  }

  lemma {:induction false} EntriesConcat(first: nat, a: seq<Submission>, b: seq<Submission>, high: bool)
    ensures Entries(first, a + b, high) == Entries(first, a, high) + Entries(first + |a|, b, high)
  {
    hide *;
    if b == [] {
      assert a + b == a;
      NoEntries(first + |a|, high);
    } else {
      var k := |b| - 1;
      EntriesConcat(first, a, b[..k], high);
      assert (a + b)[..|a + b| - 1] == a + b[..k];
      EntriesUnfold(first, a + b, high);
      EntriesUnfold(first + |a|, b, high);
    }
  }

  lemma NoEntries(first: nat, high: bool)
    ensures Entries(first, [], high) == []
  {
  }

  // ------------------------------------------------------------------ one drain, from start to end

  // The result of delivering one event: per-target tallies, or a failed lookup.
  datatype Outcome = Reached(ok: nat, bad: nat) | Errored

  function Requeued(batch: seq<QueuedEvent>, deliver: QueuedEvent -> Outcome): seq<QueuedEvent> {
    if batch == [] then []
    else
      var e := batch[|batch| - 1];
      Requeued(batch[..|batch| - 1], deliver) + if deliver(e).Errored? && Retriable(e) then [Bumped(e)] else []
  }

  function GivenUp(batch: seq<QueuedEvent>, deliver: QueuedEvent -> Outcome): nat {
    if batch == [] then 0
    else
      var e := batch[|batch| - 1];
      GivenUp(batch[..|batch| - 1], deliver) + if deliver(e).Errored? && !Retriable(e) then 1 else 0
  }

  function Tallied(t: (nat, nat, nat), outcome: Outcome): (nat, nat, nat) {
    match outcome
    case Reached(ok, bad) => (t.0 + 1, t.1 + ok, t.2 + bad)
    case Errored => t
  }

  // Events delivered, and the totals of reached and missed targets over them.
  function Tally(batch: seq<QueuedEvent>, deliver: QueuedEvent -> Outcome): (nat, nat, nat) {
    if batch == [] then (0, 0, 0)
    else
      Tallied(Tally(batch[..|batch| - 1], deliver), deliver(batch[|batch| - 1]))
  }

  function Total(batch: seq<QueuedEvent>, part: QueuedEvent -> nat): nat {
    if batch == [] then 0 else Total(batch[..|batch| - 1], part) + part(batch[|batch| - 1])
  }

  // The three tallies: the delivered events, and the targets reached and missed, summed over the batch.
  lemma {:induction false} TallyIsTotal(batch: seq<QueuedEvent>, deliver: QueuedEvent -> Outcome)
    ensures Tally(batch, deliver).0 == Total(batch, e => if deliver(e).Reached? then 1 else 0)
    ensures Tally(batch, deliver).1 == Total(batch, e => if deliver(e).Reached? then deliver(e).ok else 0)
    ensures Tally(batch, deliver).2 == Total(batch, e => if deliver(e).Reached? then deliver(e).bad else 0)
  {
    if batch != [] {
      TallyIsTotal(batch[..|batch| - 1], deliver);
    }
  }

  // The delivered events, and those given up.
  function Delivered(batch: seq<QueuedEvent>, deliver: QueuedEvent -> Outcome): seq<QueuedEvent> {
    if batch == [] then []
    else
      var e := batch[|batch| - 1];
      Delivered(batch[..|batch| - 1], deliver) + if deliver(e).Reached? then [e] else []
  }

  function Abandoned(batch: seq<QueuedEvent>, deliver: QueuedEvent -> Outcome): seq<QueuedEvent> {
    if batch == [] then []
    else
      var e := batch[|batch| - 1];
      Abandoned(batch[..|batch| - 1], deliver) + if deliver(e).Errored? && !Retriable(e) then [e] else []
  }

  lemma TalliedCounts(t: (nat, nat, nat), outcome: Outcome)
    ensures Tallied(t, outcome).0 == t.0 + if outcome.Reached? then 1 else 0
  {
  }

  // What the delivery of one more event adds to the results.
  lemma OneMoreDelivered(before: seq<QueuedEvent>, e: QueuedEvent, deliver: QueuedEvent -> Outcome)
    ensures var batch, again := before + [e], deliver(e).Errored? && Retriable(e);
            && Bumped(e).serial == e.serial
            && Delivered(batch, deliver) == Delivered(before, deliver) + (if deliver(e).Reached? then [e] else [])
            && Requeued(batch, deliver) == Requeued(before, deliver) + (if again then [Bumped(e)] else [])
            && Abandoned(batch, deliver)
               == Abandoned(before, deliver) + (if deliver(e).Errored? && !again then [e] else [])
            && Tally(batch, deliver) == Tallied(Tally(before, deliver), deliver(e))
            && GivenUp(batch, deliver) == GivenUp(before, deliver) + (if deliver(e).Errored? && !again then 1 else 0)
  {
    assert (before + [e])[..|before|] == before;
    hide Retriable;
  }

  // No event disappears from a drained batch, and none is counted twice: each is delivered, requeued or given up, and
  // the counters say how many.
  lemma {:induction false} DrainPartitionsBatch(batch: seq<QueuedEvent>, deliver: QueuedEvent -> Outcome, serial: nat)
    ensures Occurrences(batch, serial) ==
            Occurrences(Delivered(batch, deliver), serial) + Occurrences(Requeued(batch, deliver), serial) +
            Occurrences(Abandoned(batch, deliver), serial)
    ensures |Delivered(batch, deliver)| == Tally(batch, deliver).0
    ensures |Abandoned(batch, deliver)| == GivenUp(batch, deliver)
    ensures |batch| == Tally(batch, deliver).0 + |Requeued(batch, deliver)| + GivenUp(batch, deliver)
  {
    if batch != [] {
      var before, e := batch[..|batch| - 1], batch[|batch| - 1];
      assert batch == before + [e];
      hide *;
      DrainPartitionsBatch(before, deliver, serial);
      OneMoreDelivered(before, e, deliver);
      TalliedCounts(Tally(before, deliver), deliver(e));
      var again := deliver(e).Errored? && Retriable(e);
      OccurrencesAddIf(Delivered(before, deliver), deliver(e).Reached?, e, serial);
      OccurrencesAddIf(Requeued(before, deliver), again, Bumped(e), serial);
      OccurrencesAddIf(Abandoned(before, deliver), deliver(e).Errored? && !again, e, serial);
      OccurrencesSnoc(before, e, serial);
    }
  }

  lemma {:induction false} RequeuedAges(batch: seq<QueuedEvent>, deliver: QueuedEvent -> Outcome, age: nat)
    requires forall e | e in batch :: e.retryCount >= age
    ensures forall e | e in Requeued(batch, deliver) :: age + 1 <= e.retryCount <= MAX_RETRIES
  {
    if batch != [] {
      RequeuedAges(batch[..|batch| - 1], deliver, age);
    }
  }

  function DrainTimes(batch: seq<QueuedEvent>, deliveries: seq<QueuedEvent -> Outcome>): seq<QueuedEvent> {
    if deliveries == [] then batch
    else Requeued(DrainTimes(batch, deliveries[..|deliveries| - 1]), deliveries[|deliveries| - 1])
  }

  lemma {:induction false} DrainTimesAges(batch: seq<QueuedEvent>, deliveries: seq<QueuedEvent -> Outcome>)
    ensures forall e | e in DrainTimes(batch, deliveries) :: e.retryCount >= |deliveries|
    ensures deliveries != [] && DrainTimes(batch, deliveries) != [] ==> |deliveries| <= MAX_RETRIES
  {
    if deliveries != [] {
      var k := |deliveries| - 1;
      DrainTimesAges(batch, deliveries[..k]);
      RequeuedAges(DrainTimes(batch, deliveries[..k]), deliveries[k], k);
      var left := DrainTimes(batch, deliveries);
      if left != [] {
        assert left[0] in left;
      }
    }
  }

  // Whatever the deliveries do, a queue nobody adds to is empty after 1 + MAX_RETRIES drains.
  lemma QuietQueueEmpties(batch: seq<QueuedEvent>, deliveries: seq<QueuedEvent -> Outcome>)
    requires |deliveries| > MAX_RETRIES
    ensures DrainTimes(batch, deliveries) == []
  {
    DrainTimesAges(batch, deliveries);
  }

  // ------------------------------------------------------------------ the queue object

  class BroadcastQueue {
    var normal: seq<QueuedEvent>
    var high: seq<QueuedEvent>
    var evicted: nat
    var totalEvents: nat
    var delivered: nat
    var failed: nat
    var latencySamples: nat
    var drainingHigh: bool
    var drainingNormal: bool

    ghost function State(): Queues
      reads this
    {
      Queues(normal, high, evicted, totalEvents, drainingHigh, drainingNormal)
    }

    constructor ()
      ensures State() == EMPTY_QUEUES && delivered == failed == latencySamples == 0
    {
      normal, high, evicted, totalEvents := [], [], 0, 0;
      delivered, failed, latencySamples := 0, 0, 0;
      drainingHigh, drainingNormal := false, false;
    }

    // The body of the bulk insert's loop.
    method InsertOne(item: Submission)
      modifies this
      ensures State() == Admit(old(State()), item)
      ensures forall p | AsksFor(item, p) :: Placed(old(State()), State(), QueuedEvent(old(totalEvents), p, 0))
      ensures delivered == old(delivered) && failed == old(failed) && latencySamples == old(latencySamples)
    {
      var e := QueuedEvent(totalEvents, PriorityOf(item), 0);
      totalEvents := totalEvents + 1;
      if IsUrgent(e.priority) {
        high := high + [e];
      } else {
        normal := normal + [e];
        ghost var full, start := normal, evicted;
        while |normal| > NORMAL_QUEUE_CAP
          invariant start <= evicted <= start + |full|
          invariant normal == full[evicted - start..]
          invariant evicted > start ==> |normal| >= NORMAL_QUEUE_CAP
          invariant high == old(high) && totalEvents == old(totalEvents) + 1
          invariant drainingHigh == old(drainingHigh) && drainingNormal == old(drainingNormal)
          invariant delivered == old(delivered) && failed == old(failed) && latencySamples == old(latencySamples)
        {
          normal := normal[1..];
          evicted := evicted + 1;
        }
        assert evicted - start == Excess(full, true);
      }
      assert State() == Admit(old(State()), item);
      forall p | AsksFor(item, p) ensures Placed(old(State()), State(), QueuedEvent(old(totalEvents), p, 0)) {
        AdmittedAsAsked(old(State()), item, p);
      }
    }

    // Returns the normal-queue depth after the last insert.
    method EnqueueBatch(items: seq<Submission>) returns (depth: nat)
      modifies this
      ensures State() == AdmitAll(old(State()), items)
      ensures depth == |normal|
      ensures delivered == old(delivered) && failed == old(failed) && latencySamples == old(latencySamples)
    {
      for i := 0 to |items|
        invariant State() == AdmitAll(old(State()), items[..i])
        invariant delivered == old(delivered) && failed == old(failed) && latencySamples == old(latencySamples)
      {
        assert items[..i + 1][..i] == items[..i];
        InsertOne(items[i]);
      }
      assert items[..|items|] == items;
      depth := |normal|;
    }

    // `None`, the lost race for the drain flag, is `taken == false`.
    method TakeBatch(wantHigh: bool) returns (taken: bool, batch: seq<QueuedEvent>)
      modifies this
      ensures taken == !Draining(old(State()), wantHigh)
      ensures !taken ==> State() == old(State()) && batch == []
      ensures taken ==> batch == QueueOf(old(State()), wantHigh)
                        && State() == WithQueue(old(State()), wantHigh, [], true)
      ensures taken && wantHigh ==> batch == old(high) && high == [] && drainingHigh && normal == old(normal)
      ensures taken && !wantHigh ==> batch == old(normal) && normal == [] && drainingNormal && high == old(high)
      ensures delivered == old(delivered) && failed == old(failed) && latencySamples == old(latencySamples)
    {
      if (if wantHigh then drainingHigh else drainingNormal) {
        return false, [];
      }
      taken := true;
      if wantHigh {
        drainingHigh := true;
        batch, high := high, [];
      } else {
        drainingNormal := true;
        batch, normal := normal, [];
      }
    }

    method FinishDrain(wantHigh: bool, requeue: seq<QueuedEvent>)
      modifies this
      ensures State() == WithQueue(old(State()), wantHigh, QueueOf(old(State()), wantHigh) + requeue, false)
      ensures wantHigh ==> high == old(high) + requeue && !drainingHigh && normal == old(normal)
      ensures !wantHigh ==> normal == old(normal) + requeue && !drainingNormal && high == old(high)
      ensures delivered == old(delivered) && failed == old(failed) && latencySamples == old(latencySamples)
    {
      for i := 0 to |requeue|
        invariant State() == WithQueue(old(State()), wantHigh, QueueOf(old(State()), wantHigh) + requeue[..i],
                                       Draining(old(State()), wantHigh))
        invariant delivered == old(delivered) && failed == old(failed) && latencySamples == old(latencySamples)
      {
        if wantHigh {
          high := high + [requeue[i]];
        } else {
          normal := normal + [requeue[i]];
        }
      }
      assert requeue[..|requeue|] == requeue;
      if wantHigh {
        drainingHigh := false;
      } else {
        drainingNormal := false;
      }
    }

    method RecordProcessed(deliveredMore: nat, failedMore: nat, samples: nat)
      modifies this
      ensures State() == old(State())
      ensures delivered == old(delivered) + deliveredMore
      ensures failed == old(failed) + failedMore
      ensures latencySamples == old(latencySamples) + samples
    {
      delivered, failed, latencySamples := delivered + deliveredMore, failed + failedMore, latencySamples + samples;
    }

    // A drain nobody interferes with.
    method ProcessQueue(wantHigh: bool, deliver: QueuedEvent -> Outcome) returns (processed: nat)
      modifies this
      ensures var q := old(State());
              if Draining(q, wantHigh) then
                State() == q && processed == 0 && delivered == old(delivered) && failed == old(failed)
              else
                var batch := QueueOf(q, wantHigh);
                && State() == WithQueue(q, wantHigh, Requeued(batch, deliver), false)
                && processed == Tally(batch, deliver).0
                && latencySamples == old(latencySamples) + processed
                && delivered == old(delivered) + Tally(batch, deliver).1
                && failed == old(failed) + Tally(batch, deliver).2 + GivenUp(batch, deliver)
    {
      var taken, batch := TakeBatch(wantHigh);
      if !taken {
        return 0;
      }
      var ok, bad, requeue;
      processed, ok, bad, requeue := DeliverBatch(batch, deliver);
      RecordProcessed(ok, bad, processed);
      FinishDrain(wantHigh, requeue);
    }
  }

  lemma NothingDelivered(deliver: QueuedEvent -> Outcome)
    ensures Requeued([], deliver) == [] && GivenUp([], deliver) == 0 && Tally([], deliver) == (0, 0, 0)
  {
  }

  // The delivery loop with its running tallies.
  method DeliverBatch(batch: seq<QueuedEvent>, deliver: QueuedEvent -> Outcome)
    returns (processed: nat, ok: nat, bad: nat, requeue: seq<QueuedEvent>)
    ensures requeue == Requeued(batch, deliver)
    ensures Tally(batch, deliver) == (processed, ok, bad - GivenUp(batch, deliver))
    ensures |batch| == processed + |requeue| + GivenUp(batch, deliver)
  {
    hide Retriable;
    hide Requeued;
    hide GivenUp;
    hide Tally;
    NothingDelivered(deliver);
    assert batch[..0] == [];
    processed, ok, bad, requeue := 0, 0, 0, [];
    for i := 0 to |batch|
      invariant requeue == Requeued(batch[..i], deliver)
      invariant GivenUp(batch[..i], deliver) <= bad
      invariant Tally(batch[..i], deliver) == (processed, ok, bad - GivenUp(batch[..i], deliver))
    {
      assert batch[..i + 1] == batch[..i] + [batch[i]];
      OneMoreDelivered(batch[..i], batch[i], deliver);
      match deliver(batch[i])
      case Reached(reached, missed) =>
        ok, bad, processed := ok + reached, bad + missed, processed + 1;
      case Errored =>
        if Retriable(batch[i]) {
          requeue := requeue + [Bumped(batch[i])];
        } else {
          bad := bad + 1;
        }
    }
    assert batch[..|batch|] == batch;
    DrainPartitionsBatch(batch, deliver, 0);
  }

  // ------------------------------------------------------------------ the concurrent system

  // A processor between `take_batch` and `finish_drain`.
  datatype Drain = Drain(high: bool, todo: seq<QueuedEvent>, requeue: seq<QueuedEvent>)

  datatype System = System(q: Queues, drains: map<nat, Drain>, pastNormal: Past, pastHigh: Past)

  datatype Action =
    | Enqueue(subs: seq<Submission>)
    | StartDrain(pid: nat, high: bool)
    | Deliver(pid: nat, ok: bool)
    | EndDrain(pid: nat)

  const INITIAL := System(EMPTY_QUEUES, map[], NO_PAST, NO_PAST)

  function PastOf(s: System, high: bool): Past {
    if high then s.pastHigh else s.pastNormal
  }

  function WithPast(s: System, high: bool, past: Past): System {
    if high then s.(pastHigh := past) else s.(pastNormal := past)
  }

  // Inserting one submission, with its history.
  function Insert(s: System, sub: Submission): System {
    var e := Entry(s.q, sub);
    var high := IsUrgent(e.priority);
    var past := PastOf(s, high);
    var full := QueueOf(s.q, high) + [e];
    var n := Excess(full, !high);
    WithPast(s, high, past.(issued := past.issued + [e], evicted := past.evicted + full[..n])).(q := Admit(s.q, sub))
  }

  function InsertAll(s: System, subs: seq<Submission>): System {
    if subs == [] then s else Insert(InsertAll(s, subs[..|subs| - 1]), subs[|subs| - 1])
  }

  // An action that is not possible in a state leaves it as it is.
  function Apply(s: System, a: Action): System {
    match a
    case Enqueue(subs) => InsertAll(s, subs)
    case StartDrain(pid, high) =>
      if pid in s.drains || Draining(s.q, high) then s
      else s.(q := WithQueue(s.q, high, [], true), drains := s.drains[pid := Drain(high, QueueOf(s.q, high), [])])
    case Deliver(pid, ok) =>
      if pid !in s.drains || s.drains[pid].todo == [] then s
      else
        var d := s.drains[pid];
        var l := DeliveryLane.Apply(Lane([], true, d.todo, d.requeue, PastOf(s, d.high)), Attempt(ok), !d.high);
        WithPast(s, d.high, l.past).(drains := s.drains[pid := Drain(d.high, l.todo, l.requeue)])
    case EndDrain(pid) =>
      if pid !in s.drains || s.drains[pid].todo != [] then s
      else
        var d := s.drains[pid];
        s.(q := WithQueue(s.q, d.high, QueueOf(s.q, d.high) + d.requeue, false), drains := s.drains - {pid})
  }

  function RunFrom(s: System, acts: seq<Action>): System {
    if acts == [] then s else Apply(RunFrom(s, acts[..|acts| - 1]), acts[|acts| - 1])
  }

  // Every interleaving is the run of some sequence of actions.
  function Run(acts: seq<Action>): System {
    RunFrom(INITIAL, acts)
  }

  // The insert histories agree with the queue operation the class implements.
  lemma {:induction false} InsertAllIsAdmitAll(s: System, subs: seq<Submission>)
    ensures InsertAll(s, subs).q == AdmitAll(s.q, subs)
    ensures InsertAll(s, subs).drains == s.drains
  {
    if subs != [] {
      InsertAllIsAdmitAll(s, subs[..|subs| - 1]);
    }
  }

  // ------------------------------------------------------------------ mutual exclusion

  ghost predicate Drains(s: System, pid: nat, high: bool) {
    pid in s.drains && s.drains[pid].high == high
  }

  // At most one processor works on a queue, and the flag says whether there is one.
  ghost predicate OneDrainer(s: System, high: bool) {
    && (forall p, r | Drains(s, p, high) && Drains(s, r, high) :: p == r)
    && (Draining(s.q, high) <==> exists p :: Drains(s, p, high))
  }

  ghost predicate Exclusive(s: System) {
    OneDrainer(s, true) && OneDrainer(s, false)
  }

  lemma SameDrainer(s: System, s': System, high: bool)
    requires OneDrainer(s, high)
    requires Draining(s'.q, high) == Draining(s.q, high)
    requires forall p :: Drains(s, p, high) <==> Drains(s', p, high)
    ensures OneDrainer(s', high)
  {
  }

  lemma StepKeepsOneDrainer(s: System, a: Action, high: bool)
    requires Exclusive(s)
    ensures OneDrainer(Apply(s, a), high)
  {
    assert OneDrainer(s, high);
    var s' := Apply(s, a);
    match a
    case Enqueue(subs) =>
      InsertAllIsAdmitAll(s, subs);
      AdmitAllKeepsFlags(s.q, subs);
      SameDrainer(s, s', high);
    case StartDrain(pid, which) =>
      if pid in s.drains || Draining(s.q, which) {
      } else if which == high {
        assert forall p :: Drains(s', p, high) <==> Drains(s, p, high) || p == pid;
        assert Drains(s', pid, high);
      } else {
        SameDrainer(s, s', high);
      }
    case Deliver(pid, ok) =>
      SameDrainer(s, s', high);
    case EndDrain(pid) =>
      if pid in s.drains && s.drains[pid].todo == [] {
        assert Drains(s, pid, s.drains[pid].high);
        if s.drains[pid].high == high {
          assert forall p :: Drains(s', p, high) ==> Drains(s, p, high) && p != pid;
        } else {
          SameDrainer(s, s', high);
        }
      }
  }

  lemma StepKeepsExclusive(s: System, a: Action)
    requires Exclusive(s)
    ensures Exclusive(Apply(s, a))
  {
    StepKeepsOneDrainer(s, a, true);
    StepKeepsOneDrainer(s, a, false);
  }

  lemma {:induction false} AdmitAllKeepsFlags(q: Queues, subs: seq<Submission>)
    ensures forall high :: Draining(AdmitAll(q, subs), high) == Draining(q, high)
  {
    if subs != [] {
      AdmitAllKeepsFlags(q, subs[..|subs| - 1]);
    }
  }

  // ------------------------------------------------------------------ the system is two lanes

  // What the processor on a queue, if any, is holding.
  ghost function Held(s: System, high: bool): Drain {
    if exists p :: Drains(s, p, high) then
      var p :| Drains(s, p, high);
      s.drains[p]
    else Drain(high, [], [])
  }

  ghost function LaneOf(s: System, high: bool): Lane {
    Lane(QueueOf(s.q, high), Draining(s.q, high), Held(s, high).todo, Held(s, high).requeue, PastOf(s, high))
  }

  lemma HeldBy(s: System, pid: nat)
    requires Exclusive(s) && pid in s.drains
    ensures Held(s, s.drains[pid].high) == s.drains[pid]
  {
    assert Drains(s, pid, s.drains[pid].high);
  }

  lemma HeldUnchanged(s: System, s': System, high: bool)
    requires Exclusive(s)
    requires forall p :: Drains(s, p, high) <==> Drains(s', p, high)
    requires forall p | Drains(s, p, high) :: p in s'.drains && s'.drains[p] == s.drains[p]
    ensures Held(s', high) == Held(s, high)
  {
  }

  // One step of the system moves each lane by at most one step of its own.
  ghost predicate Moves(l: Lane, l': Lane, bounded: bool) {
    l' == l || exists step :: Enabled(l, step) && l' == DeliveryLane.Apply(l, step, bounded)
  }

  // Everything issued to a queue has a used serial number and a priority that belongs there.
  ghost predicate Numbered(past: Past, high: bool, totalEvents: nat) {
    forall e | e in past.issued :: e.serial < totalEvents && IsUrgent(e.priority) == high
  }

  lemma InsertMoves(s: System, sub: Submission, high: bool)
    requires Exclusive(s) && Numbered(PastOf(s, high), high, s.q.totalEvents)
    ensures Exclusive(Insert(s, sub))
    ensures Moves(LaneOf(s, high), LaneOf(Insert(s, sub), high), !high)
  {
    var s' := Insert(s, sub);
    var e := Entry(s.q, sub);
    assert forall p, h :: Drains(s, p, h) <==> Drains(s', p, h);
    assert forall h :: Draining(s.q, h) == Draining(s'.q, h);
    HeldUnchanged(s, s', high);
    if IsUrgent(e.priority) == high {
      var l := LaneOf(s, high);
      assert l.past == PastOf(s, high);
      assert Enabled(l, Push(e));
      assert LaneOf(s', high) == DeliveryLane.Apply(l, Push(e), !high);
    } else {
      assert LaneOf(s', high) == LaneOf(s, high);
    }
  }

  lemma StartMoves(s: System, pid: nat, which: bool, high: bool)
    requires Exclusive(s)
    ensures Moves(LaneOf(s, high), LaneOf(Apply(s, StartDrain(pid, which)), high), !high)
  {
    var s' := Apply(s, StartDrain(pid, which));
    if s' != s {
      StepKeepsExclusive(s, StartDrain(pid, which));
      assert forall p, h :: Drains(s', p, h) <==> Drains(s, p, h) || (p == pid && h == which);
      if high == which {
        HeldBy(s', pid);
        assert Enabled(LaneOf(s, high), Take);
        assert LaneOf(s', high) == DeliveryLane.Apply(LaneOf(s, high), Take, !high);
      } else {
        HeldUnchanged(s, s', high);
      }
    }
  }

  lemma DeliverMoves(s: System, pid: nat, ok: bool, high: bool)
    requires Exclusive(s)
    ensures Moves(LaneOf(s, high), LaneOf(Apply(s, Deliver(pid, ok)), high), !high)
  {
    var s' := Apply(s, Deliver(pid, ok));
    if pid in s.drains && s.drains[pid].todo != [] {
      StepKeepsExclusive(s, Deliver(pid, ok));
      HeldBy(s, pid);
      HeldBy(s', pid);
      assert forall p, h :: Drains(s', p, h) <==> Drains(s, p, h);
      if high == s.drains[pid].high {
        assert Drains(s, pid, high);
        assert Enabled(LaneOf(s, high), Attempt(ok));
        assert LaneOf(s', high) == DeliveryLane.Apply(LaneOf(s, high), Attempt(ok), !high);
      } else {
        HeldUnchanged(s, s', high);
      }
    }
  }

  lemma EndMoves(s: System, pid: nat, high: bool)
    requires Exclusive(s)
    ensures Moves(LaneOf(s, high), LaneOf(Apply(s, EndDrain(pid)), high), !high)
  {
    var s' := Apply(s, EndDrain(pid));
    if pid in s.drains && s.drains[pid].todo == [] {
      HeldBy(s, pid);
      assert forall p, h :: Drains(s', p, h) <==> Drains(s, p, h) && p != pid;
      if high == s.drains[pid].high {
        assert Drains(s, pid, high);
        assert !exists p :: Drains(s', p, high);
        assert Enabled(LaneOf(s, high), Finish);
        assert LaneOf(s', high) == DeliveryLane.Apply(LaneOf(s, high), Finish, !high);
      } else {
        HeldUnchanged(s, s', high);
      }
    }
  }

  // ------------------------------------------------------------------ every reachable state

  // Serial numbers are handed out once, urgent events go to the high queue, and only the normal queue evicts.
  ghost predicate Booked(s: System) {
    && Numbered(s.pastHigh, true, s.q.totalEvents)
    && Numbered(s.pastNormal, false, s.q.totalEvents)
    && (forall id: nat | id < s.q.totalEvents ::
          Occurrences(s.pastHigh.issued, id) + Occurrences(s.pastNormal.issued, id) == 1)
    && s.q.totalEvents == |s.pastHigh.issued| + |s.pastNormal.issued|
    && s.q.evicted == |s.pastNormal.evicted|
    && s.pastHigh.evicted == []
  }

  ghost predicate Sound(s: System) {
    && Exclusive(s)
    && Booked(s)
    && Valid(LaneOf(s, true), false)
    && Valid(LaneOf(s, false), true)
  }

  lemma IssuedOnce(s: System, id: nat)
    requires Booked(s)
    ensures Occurrences(s.pastHigh.issued, id) + Occurrences(s.pastNormal.issued, id) ==
            if id < s.q.totalEvents then 1 else 0
  {
    if id >= s.q.totalEvents {
      OccurrencesMember(s.pastHigh.issued, id);
      OccurrencesMember(s.pastNormal.issued, id);
      assert forall i | 0 <= i < |s.pastHigh.issued| :: s.pastHigh.issued[i] in s.pastHigh.issued;
      assert forall i | 0 <= i < |s.pastNormal.issued| :: s.pastNormal.issued[i] in s.pastNormal.issued;
    }
  }

  lemma InsertKeepsBooked(s: System, sub: Submission)
    requires Booked(s)
    ensures Booked(Insert(s, sub))
  {
    var s' := Insert(s, sub);
    var e := Entry(s.q, sub);
    forall id: nat | id < s'.q.totalEvents
      ensures Occurrences(s'.pastHigh.issued, id) + Occurrences(s'.pastNormal.issued, id) == 1
    {
      IssuedOnce(s, id);
      OccurrencesSnoc(s.pastHigh.issued, e, id);
      OccurrencesSnoc(s.pastNormal.issued, e, id);
    }
    hide Occurrences;
  }

  lemma MovesKeepValid(l: Lane, l': Lane, bounded: bool)
    requires Moves(l, l', bounded) && Valid(l, bounded)
    ensures Valid(l', bounded)
  {
    hide Valid;
    if l' != l {
      var step :| Enabled(l, step) && l' == DeliveryLane.Apply(l, step, bounded);
      StepKeepsValid(l, step, bounded);
    }
  }

  lemma InsertKeepsSound(s: System, sub: Submission)
    requires Sound(s)
    ensures Sound(Insert(s, sub))
  {
    hide Valid;
    hide Exclusive;
    InsertKeepsBooked(s, sub);
    InsertMoves(s, sub, true);
    InsertMoves(s, sub, false);
    hide Booked;
    hide Moves;
    MovesKeepValid(LaneOf(s, true), LaneOf(Insert(s, sub), true), false);
    MovesKeepValid(LaneOf(s, false), LaneOf(Insert(s, sub), false), true);
  }

  lemma {:induction false} InsertAllKeepsSound(s: System, subs: seq<Submission>)
    requires Sound(s)
    ensures Sound(InsertAll(s, subs))
  {
    hide Sound;
    if subs != [] {
      InsertAllKeepsSound(s, subs[..|subs| - 1]);
      InsertKeepsSound(InsertAll(s, subs[..|subs| - 1]), subs[|subs| - 1]);
    }
  }

  lemma StepMoves(s: System, a: Action, high: bool)
    requires Exclusive(s) && !a.Enqueue?
    ensures Moves(LaneOf(s, high), LaneOf(Apply(s, a), high), !high)
  {
    hide Exclusive;
    hide Moves;
    match a
    case StartDrain(pid, which) => StartMoves(s, pid, which, high);
    case Deliver(pid, ok) => DeliverMoves(s, pid, ok, high);
    case EndDrain(pid) => EndMoves(s, pid, high);
  }

  lemma StepKeepsSound(s: System, a: Action)
    requires Sound(s)
    ensures Sound(Apply(s, a))
  {
    if a.Enqueue? {
      InsertAllKeepsSound(s, a.subs);
    } else {
      StepKeepsExclusive(s, a);
      StepMoves(s, a, true);
      StepMoves(s, a, false);
      hide Exclusive;
      hide Valid;
      hide Moves;
      MovesKeepValid(LaneOf(s, true), LaneOf(Apply(s, a), true), false);
      MovesKeepValid(LaneOf(s, false), LaneOf(Apply(s, a), false), true);
      StepKeepsBooked(s, a);
    }
  }

  lemma StepKeepsBooked(s: System, a: Action)
    requires Booked(s) && !a.Enqueue?
    ensures Booked(Apply(s, a))
  {
    var s' := Apply(s, a);
    assert s'.q.totalEvents == s.q.totalEvents && s'.q.evicted == s.q.evicted;
    assert s'.pastHigh.issued == s.pastHigh.issued && s'.pastNormal.issued == s.pastNormal.issued;
    assert s'.pastHigh.evicted == s.pastHigh.evicted && s'.pastNormal.evicted == s.pastNormal.evicted;
    hide Occurrences;
    hide Apply;
  }

  lemma EmptyIsValid(l: Lane, bounded: bool)
    requires l == Lane([], false, [], [], NO_PAST)
    ensures Valid(l, bounded)
  {
  }

  lemma InitIsSound()
    ensures Sound(INITIAL)
  {
    assert forall p, high :: !Drains(INITIAL, p, high);
    assert forall high :: Held(INITIAL, high) == Drain(high, [], []);
    hide Valid;
    EmptyIsValid(LaneOf(INITIAL, true), false);
    EmptyIsValid(LaneOf(INITIAL, false), true);
  }

  lemma {:induction false} RunIsSound(acts: seq<Action>)
    ensures Sound(Run(acts))
  {
    hide Sound;
    if acts == [] {
      InitIsSound();
    } else {
      RunIsSound(acts[..|acts| - 1]);
      StepKeepsSound(Run(acts[..|acts| - 1]), acts[|acts| - 1]);
    }
  }

  // ------------------------------------------------------------------ the main results

  // At most one processor drains a queue at any time, and a drain flag is never left behind.
  lemma DrainsExcludeEachOther(acts: seq<Action>, p: nat, r: nat)
    ensures var s := Run(acts);
            && (p in s.drains && r in s.drains && s.drains[p].high == s.drains[r].high ==> p == r)
            && (s.q.drainingHigh <==> exists x :: x in s.drains && s.drains[x].high)
            && (s.q.drainingNormal <==> exists x :: x in s.drains && !s.drains[x].high)
  {
    var s := Run(acts);
    RunIsSound(acts);
    hide Valid;
    hide Booked;
    assert OneDrainer(s, true) && OneDrainer(s, false);
    if p in s.drains && r in s.drains && s.drains[p].high == s.drains[r].high {
      assert Drains(s, p, s.drains[p].high) && Drains(s, r, s.drains[p].high);
    }
    assert Draining(s.q, true) == s.q.drainingHigh && Draining(s.q, false) == s.q.drainingNormal;
    assert forall x :: Drains(s, x, true) <==> x in s.drains && s.drains[x].high;
    assert forall x :: Drains(s, x, false) <==> x in s.drains && !s.drains[x].high;
  }

  // First attempts happen in enqueue order; only an event evicted before its first attempt is skipped.
  lemma FirstAttemptsInEnqueueOrder(acts: seq<Action>, high: bool, i: nat, j: nat, b: nat)
    requires var past := PastOf(Run(acts), high);
             i < j < |past.issued| && b < |past.attempts| && past.attempts[b] == past.issued[j]
    ensures var past := PastOf(Run(acts), high);
            past.issued[i] in past.attempts[..b] || (!high && past.issued[i] in past.evicted)
  {
    RunIsSound(acts);
    var s := Run(acts);
    assert Valid(LaneOf(s, high), !high);
    hide Conserved;
    hide Accounted;
    hide ClassBounded;
    hide Ordered;
    ValidFirstAttemptOrder(LaneOf(s, high), i, j, b);
    assert high ==> PastOf(s, high).evicted == [];
  }

  // The normal queue can outgrow its cap, but never beyond one cap per retry class.
  lemma NormalQueueStaysBounded(acts: seq<Action>)
    ensures |Run(acts).q.normal| <= (1 + MAX_RETRIES) * NORMAL_QUEUE_CAP
  {
    RunIsSound(acts);
    hide Valid;
    ValidQueueIsBounded(LaneOf(Run(acts), false));
  }

  lemma {:induction false} AdmitAllKeepsCap(q: Queues, subs: seq<Submission>)
    requires |q.normal| <= NORMAL_QUEUE_CAP
    ensures |AdmitAll(q, subs).normal| <= NORMAL_QUEUE_CAP
  {
    if subs != [] {
      AdmitAllKeepsCap(q, subs[..|subs| - 1]);
    }
  }

  // The cap is exceeded exactly when a drain of the normal queue ends and puts back more than there is room for.
  lemma CapIsExceededIff(s: System, a: Action)
    requires |s.q.normal| <= NORMAL_QUEUE_CAP
    ensures |Apply(s, a).q.normal| > NORMAL_QUEUE_CAP <==>
            && a.EndDrain? && a.pid in s.drains && s.drains[a.pid].todo == [] && !s.drains[a.pid].high
            && |s.q.normal| + |s.drains[a.pid].requeue| > NORMAL_QUEUE_CAP
  {
    if a.Enqueue? {
      InsertAllIsAdmitAll(s, a.subs);
      AdmitAllKeepsCap(s.q, a.subs);
    }
  }

  lemma {:induction false} NormalEntriesExist(first: nat, subs: seq<Submission>, i: nat)
    requires i < |subs| && !IsUrgent(PriorityOf(subs[i]))
    ensures Entries(first, subs, false) != []
  {
    if i < |subs| - 1 {
      NormalEntriesExist(first, subs[..|subs| - 1], i);
    }
  }

  // Everything ever submitted, in order.
  function Submitted(acts: seq<Action>): seq<Submission> {
    if acts == [] then []
    else
      var a := acts[|acts| - 1];
      Submitted(acts[..|acts| - 1]) + if a.Enqueue? then a.subs else []
  }

  lemma InsertIssues(s: System, sub: Submission, high: bool)
    ensures var s', e := Insert(s, sub), QueuedEvent(s.q.totalEvents, PriorityOf(sub), 0);
            && PastOf(s', high).issued == PastOf(s, high).issued + (if IsUrgent(e.priority) == high then [e] else [])
            && s'.q.totalEvents == s.q.totalEvents + 1
  {
    hide IsUrgent;
    hide PriorityOf;
    assert PastOf(s, high).issued + [] == PastOf(s, high).issued;
  }

  lemma InsertAllUnfold(s: System, subs: seq<Submission>)
    requires subs != []
    ensures InsertAll(s, subs) == Insert(InsertAll(s, subs[..|subs| - 1]), subs[|subs| - 1])
  {
  }

  lemma NothingIssued(s: System, high: bool)
    ensures InsertAll(s, []) == s
    ensures PastOf(s, high).issued + Entries(s.q.totalEvents, [], high) == PastOf(s, high).issued
  {
  }

  lemma {:induction false} InsertAllIssues(s: System, subs: seq<Submission>, high: bool)
    ensures var s' := InsertAll(s, subs);
            && PastOf(s', high).issued == PastOf(s, high).issued + Entries(s.q.totalEvents, subs, high)
            && s'.q.totalEvents == s.q.totalEvents + |subs|
  {
    hide *;
    if subs == [] {
      NothingIssued(s, high);
    } else {
      var k := |subs| - 1;
      InsertAllIssues(s, subs[..k], high);
      InsertAllUnfold(s, subs);
      InsertIssues(InsertAll(s, subs[..k]), subs[k], high);
      EntriesUnfold(s.q.totalEvents, subs, high);
    }
  }

  lemma StepIssues(s: System, a: Action, high: bool)
    requires !a.Enqueue?
    ensures PastOf(Apply(s, a), high).issued == PastOf(s, high).issued
    ensures Apply(s, a).q.totalEvents == s.q.totalEvents
  {
  }

  lemma {:induction false} RunIssues(acts: seq<Action>, high: bool)
    ensures PastOf(Run(acts), high).issued == Entries(0, Submitted(acts), high)
    ensures Run(acts).q.totalEvents == |Submitted(acts)|
  {
    if acts == [] {
      NoEntries(0, high);
    } else {
      hide *;
      var before, a := acts[..|acts| - 1], acts[|acts| - 1];
      RunIssues(before, high);
      RunSubmits(acts);
      if a.Enqueue? {
        InsertAllIssues(Run(before), a.subs, high);
        EntriesConcat(0, Submitted(before), a.subs, high);
      } else {
        StepIssues(Run(before), a, high);
      }
    }
  }

  lemma RunSubmits(acts: seq<Action>)
    requires acts != []
    ensures var before, a := acts[..|acts| - 1], acts[|acts| - 1];
            && Run(acts) == Apply(Run(before), a)
            && (a.Enqueue? ==>
                  Run(acts) == InsertAll(Run(before), a.subs) && Submitted(acts) == Submitted(before) + a.subs)
            && (!a.Enqueue? ==> Submitted(acts) == Submitted(before))
  {
    hide InsertAll;
    var before := acts[..|acts| - 1];
    assert Submitted(before) + [] == Submitted(before);
  }

  // In every run, what was ever put in a queue are the submissions that ask for a priority of that queue, each under
  // that priority and numbered by its place among all submissions.
  lemma IssuedAsAsked(acts: seq<Action>, high: bool, e: QueuedEvent)
    ensures e in PastOf(Run(acts), high).issued <==>
              && e.serial < |Submitted(acts)| && e.retryCount == 0
              && AsksFor(Submitted(acts)[e.serial], e.priority)
              && (high <==> e.priority == "high" || e.priority == "urgent")
  {
    RunIssues(acts, high);
    EntriesAreAsked(0, Submitted(acts), high);
    hide Run;
    hide Submitted;
    hide Entries;
    hide AsksFor;
    hide Increasing;
    assert e in Entries(0, Submitted(acts), high) <==> IsEntry(0, Submitted(acts), high, e);
  }

  // Right after a batch with at least one submission that goes to the normal queue, the cap holds.
  lemma NormalEnqueueRestoresCap(acts: seq<Action>, subs: seq<Submission>, i: nat)
    requires i < |subs| && !IsUrgent(PriorityOf(subs[i]))
    ensures |Run(acts + [Enqueue(subs)]).q.normal| <= NORMAL_QUEUE_CAP
  {
    var q := Run(acts).q;
    assert (acts + [Enqueue(subs)])[..|acts|] == acts;
    InsertAllIsAdmitAll(Run(acts), subs);
    BatchKeepsNewest(q, subs);
    NormalEntriesExist(q.totalEvents, subs, i);
    hide AdmitAll;
    hide Entries;
    hide IsUrgent;
  }

  // Events in the hands of processors.
  ghost function InFlight(s: System): nat {
    |Held(s, true).todo| + |Held(s, true).requeue| + |Held(s, false).todo| + |Held(s, false).requeue|
  }

  // The total counter is accounted for, event by event.
  lemma EventsAreConserved(acts: seq<Action>)
    ensures var s := Run(acts);
            s.q.totalEvents ==
            |s.q.normal| + |s.q.high| + InFlight(s) + s.q.evicted +
            |s.pastHigh.completed| + |s.pastNormal.completed| + |s.pastHigh.abandoned| + |s.pastNormal.abandoned|
    ensures forall id: nat | id < Run(acts).q.totalEvents ::
              Places(LaneOf(Run(acts), true), id) + Places(LaneOf(Run(acts), false), id) == 1
  {
    RunIsSound(acts);
    var s := Run(acts);
    hide Occurrences;
    hide Accounted;
    hide ClassBounded;
    hide InOrder;
    hide Exclusive;
    assert LaneOf(s, true).past == s.pastHigh && LaneOf(s, false).past == s.pastNormal;
  }

  // Attempts per event: at most one plus the retries, one only for low priority.
  lemma AttemptsAreBounded(acts: seq<Action>, high: bool, e: QueuedEvent)
    requires e in PastOf(Run(acts), high).issued
    ensures var tries := Occurrences(PastOf(Run(acts), high).attempts, e.serial);
            tries <= 1 + MAX_RETRIES && (e.priority == "low" ==> tries <= 1)
  {
    RunIsSound(acts);
    var l := LaneOf(Run(acts), high);
    assert Valid(l, !high);
    hide Occurrences;
    hide Conserved;
    hide Accounted;
    hide ClassBounded;
    ValidAttemptCount(l, e);
  }

  // An event is given up only when every attempt it is entitled to has failed.
  lemma GivingUpIsEarned(acts: seq<Action>, high: bool, e: QueuedEvent)
    requires e in PastOf(Run(acts), high).abandoned
    ensures Occurrences(PastOf(Run(acts), high).attempts, e.serial) ==
            if e.priority == "low" then 1 else 1 + MAX_RETRIES
  {
    RunIsSound(acts);
    var l := LaneOf(Run(acts), high);
    assert Valid(l, !high);
    hide Occurrences;
    hide Conserved;
    hide InOrder;
    hide ClassBounded;
    assert Tried(l.past, e, 1) && !Retriable(e);
  }

  // Whatever a queue or its drain holds belongs there: urgent events in the high queue, all others in the normal one.
  lemma RetriesReturnToTheirQueue(acts: seq<Action>, high: bool, e: QueuedEvent)
    requires var l := LaneOf(Run(acts), high); e in l.queue || e in l.todo || e in l.requeue
    ensures IsUrgent(e.priority) == high
  {
    RunIsSound(acts);
    var s := Run(acts);
    var l := LaneOf(s, high);
    assert Valid(l, !high);
    hide Occurrences;
    hide Conserved;
    hide InOrder;
    hide ClassBounded;
    assert Tried(l.past, e, 0);
    assert Original(e) in PastOf(s, high).issued;
  }
}
