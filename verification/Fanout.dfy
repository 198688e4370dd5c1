/**
 Cross-instance fan-out through the shared tables: events are published once, every other instance
 fetches what it has not acknowledged, tries each fetched event and acknowledges it, and a cleanup
 deletes old events together with their acknowledgements. The broadcaster's and the
 customer channels' relays are the same protocol.
 */
module Fanout {

  // `readable` says whether the stored payload parses.
  datatype Row = Row(id: nat, source: nat, createdAt: nat, readable: bool)

  // The two tables; an acknowledgement is an (event, instance) pair.
  datatype Store = Store(events: map<nat, Row>, acks: set<(nat, nat)>)

  // One pass of an instance: what it fetched, how much of it is acknowledged, and whether the next row was tried.
  datatype Pass = Pass(fetched: seq<Row>, processed: nat, tried: bool)

  // A delivery attempt; a row that does not parse is only logged.
  datatype Try = Try(event: nat, instance: nat, delivered: bool)

  datatype System = System(
    store: Store,
    passes: map<nat, Pass>,
    published: map<nat, Row>,
    tries: seq<Try>,
    acked: set<(nat, nat)>,
    ackFailures: seq<(nat, nat)>)

  datatype Action =
    | Publish(row: Row)
    | Begin(instance: nat, limit: nat, rows: seq<Row>)
    | Attempt(instance: nat, reached: bool)
    | Ack(instance: nat, dbUp: bool)
    | End(instance: nat)
    | Cleanup(cutoff: nat)

  const INITIAL := System(Store(map[], {}), map[], map[], [], {}, [])

  function Pending(store: Store, instance: nat): set<nat> {
    set id | id in store.events && store.events[id].source != instance && (id, instance) !in store.acks
  }

  function Min(a: nat, b: nat): nat {
    if a < b then a else b
  }

  // An event left out of the result is at least as new as every row in it.
  ghost predicate Covers(events: map<nat, Row>, rows: seq<Row>, id: nat)
    requires id in events
  {
    forall i | 0 <= i < |rows| ::
      rows[i].createdAt <= events[id].createdAt || exists j :: 0 <= j < |rows| && rows[j].id == id
  }

  // A result of `ORDER BY created_at LIMIT limit` over the pending rows; ties are broken anyhow.
  ghost predicate Oldest(events: map<nat, Row>, pending: set<nat>, limit: nat, rows: seq<Row>) {
    && |rows| == Min(limit, |pending|)
    && (forall i | 0 <= i < |rows| :: rows[i].id in pending && rows[i].id in events && events[rows[i].id] == rows[i])
    && (forall i, j | 0 <= i < j < |rows| :: rows[i].id != rows[j].id && rows[i].createdAt <= rows[j].createdAt)
    && (forall id | id in pending && id in events :: Covers(events, rows, id))
  }

  function Removed(store: Store, cutoff: nat): Store {
    var kept := map id | id in store.events && store.events[id].createdAt >= cutoff :: store.events[id];
    Store(kept, set ack | ack in store.acks && ack.0 in kept)
  }

  ghost predicate Enabled(s: System, a: Action) {
    match a
    case Publish(row) => row.id !in s.published
    case Begin(i, limit, rows) => i !in s.passes && Oldest(s.store.events, Pending(s.store, i), limit, rows)
    case Attempt(i, _) => i in s.passes && s.passes[i].processed < |s.passes[i].fetched| && !s.passes[i].tried
    case Ack(i, _) => i in s.passes && s.passes[i].processed < |s.passes[i].fetched| && s.passes[i].tried
    case End(i) => i in s.passes && s.passes[i].processed == |s.passes[i].fetched|
    case Cleanup(_) => true
  }

  function Effect(s: System, a: Action): System
    requires a.Attempt? || a.Ack? ==>
               a.instance in s.passes && s.passes[a.instance].processed < |s.passes[a.instance].fetched|
  {
    match a
    case Publish(row) =>
      s.(store := s.store.(events := s.store.events[row.id := row]), published := s.published[row.id := row])
    case Begin(i, _, rows) =>
      s.(passes := s.passes[i := Pass(rows, 0, false)])
    case Attempt(i, reached) =>
      var p := s.passes[i];
      var row := p.fetched[p.processed];
      s.(passes := s.passes[i := p.(tried := true)], tries := s.tries + [Try(row.id, i, row.readable && reached)])
    case Ack(i, dbUp) =>
      var p := s.passes[i];
      var key := (p.fetched[p.processed].id, i);
      // The acknowledgement references the event, so it fails when the cleanup was faster.
      if dbUp && key.0 in s.store.events then
        s.(store := s.store.(acks := s.store.acks + {key}), acked := s.acked + {key},
           passes := s.passes[i := p.(processed := p.processed + 1, tried := false)])
      else
        s.(passes := s.passes - {i}, ackFailures := s.ackFailures + [key])
    case End(i) =>
      s.(passes := s.passes - {i})
    case Cleanup(cutoff) =>
      s.(store := Removed(s.store, cutoff))
  }

  // An action that is not possible in a state leaves it as it is.
  ghost function Apply(s: System, a: Action): System {
    if Enabled(s, a) then Effect(s, a) else s
  }

  ghost function RunFrom(s: System, acts: seq<Action>): System {
    if acts == [] then s else Apply(RunFrom(s, acts[..|acts| - 1]), acts[|acts| - 1])
  }

  ghost function Run(acts: seq<Action>): System {
    RunFrom(INITIAL, acts)
  }

  lemma RunInSteps(acts: seq<Action>, a: Action)
    ensures Run([]) == INITIAL && Run(acts + [a]) == Apply(Run(acts), a)
  {
    assert (acts + [a])[..|acts|] == acts;
  }

  // ------------------------------------------------------------------ invariants

  // The row a pass has tried but not acknowledged yet.
  predicate Hanging(passes: map<nat, Pass>, event: nat, instance: nat) {
    && instance in passes
    && passes[instance].tried
    && passes[instance].processed < |passes[instance].fetched|
    && passes[instance].fetched[passes[instance].processed].id == event
  }

  function TriesOf(tries: seq<Try>, event: nat, instance: nat): nat {
    if tries == [] then 0
    else
      var last := tries[|tries| - 1];
      TriesOf(tries[..|tries| - 1], event, instance) + if last.event == event && last.instance == instance then 1 else 0
  }

  function FailuresOf(failures: seq<(nat, nat)>, key: (nat, nat)): nat {
    if failures == [] then 0
    else FailuresOf(failures[..|failures| - 1], key) + if failures[|failures| - 1] == key then 1 else 0
  }

  ghost predicate TablesFit(s: System) {
    && (forall id | id in s.published :: s.published[id].id == id)
    && (forall id | id in s.store.events :: id in s.published && s.store.events[id] == s.published[id])
    && (forall ack | ack in s.store.acks :: ack.0 in s.store.events && ack in s.acked)
    && (forall ack | ack in s.acked && ack.0 in s.store.events :: ack in s.store.acks)
    && (forall ack | ack in s.acked :: ack.0 in s.published)
  }

  ghost predicate PassFits(s: System, i: nat, p: Pass) {
    && p.processed <= |p.fetched|
    && (forall k | 0 <= k < |p.fetched| ::
          var row := p.fetched[k];
          row.id in s.published && s.published[row.id] == row && row.source != i)
    && (forall k, m | 0 <= k < m < |p.fetched| :: p.fetched[k].id != p.fetched[m].id)
    && (forall k | 0 <= k < p.processed :: (p.fetched[k].id, i) in s.acked)
    && (forall k | p.processed <= k < |p.fetched| :: (p.fetched[k].id, i) !in s.acked)
    && (p.tried ==> p.processed < |p.fetched|)
  }

  ghost predicate PassesFit(s: System) {
    forall i | i in s.passes :: PassFits(s, i, s.passes[i])
  }

  ghost predicate TriesFit(s: System) {
    forall t | t in s.tries ::
      && t.event in s.published
      && s.published[t.event].source != t.instance
      && (t.delivered ==> s.published[t.event].readable)
  }

  // Every try was acknowledged, or its acknowledgement failed, or it is still hanging.
  ghost predicate Balanced(s: System, event: nat, instance: nat) {
    TriesOf(s.tries, event, instance) ==
    FailuresOf(s.ackFailures, (event, instance)) +
    (if (event, instance) in s.acked then 1 else 0) +
    (if Hanging(s.passes, event, instance) then 1 else 0)
  }

  ghost predicate Sound(s: System) {
    && TablesFit(s)
    && PassesFit(s)
    && TriesFit(s)
    && forall event, instance :: Balanced(s, event, instance)
  }

  lemma StepKeepsTables(s: System, a: Action)
    requires TablesFit(s) && PassesFit(s) && Enabled(s, a)
    ensures TablesFit(Effect(s, a))
  {
  }

  lemma AckKeepsOwnPass(s: System, a: Action)
    requires a.Ack? && PassesFit(s) && Enabled(s, a)
    requires a.instance in Effect(s, a).passes
    ensures PassFits(Effect(s, a), a.instance, Effect(s, a).passes[a.instance])
  {
    var i := a.instance;
    var p, s' := s.passes[i], Effect(s, a);
    assert PassFits(s, i, p);
    hide PassesFit;
    var key := (p.fetched[p.processed].id, i);
    assert s'.acked == s.acked + {key} && s'.passes[i] == p.(processed := p.processed + 1, tried := false);
  }

  lemma AckKeepsOtherPass(s: System, a: Action, i: nat)
    requires a.Ack? && PassesFit(s) && Enabled(s, a) && i != a.instance
    requires i in Effect(s, a).passes
    ensures PassFits(Effect(s, a), i, Effect(s, a).passes[i])
  {
    var p, s' := s.passes[i], Effect(s, a);
    assert PassFits(s, i, p);
    hide PassesFit;
    assert s'.passes[i] == p;
    assert forall event :: (event, i) in s'.acked <==> (event, i) in s.acked;
  }

  lemma AckKeepsPass(s: System, a: Action, i: nat)
    requires a.Ack? && PassesFit(s) && Enabled(s, a)
    requires i in Effect(s, a).passes
    ensures PassFits(Effect(s, a), i, Effect(s, a).passes[i])
  {
    hide *;
    if i == a.instance {
      AckKeepsOwnPass(s, a);
    } else {
      AckKeepsOtherPass(s, a, i);
    }
  }

  lemma StepKeepsPass(s: System, a: Action, i: nat)
    requires TablesFit(s) && PassesFit(s) && Enabled(s, a)
    requires i in Effect(s, a).passes
    ensures PassFits(Effect(s, a), i, Effect(s, a).passes[i])
  {
    if a.Ack? {
      AckKeepsPass(s, a, i);
    } else if i in s.passes {
      assert PassFits(s, i, s.passes[i]);
    }
  }

  lemma StepKeepsTries(s: System, a: Action)
    requires TriesFit(s) && PassesFit(s) && Enabled(s, a)
    ensures TriesFit(Effect(s, a))
  {
    if a.Attempt? {
      assert PassFits(s, a.instance, s.passes[a.instance]);
    }
  }

  // An acknowledgement settles the hanging row of its pass, one way or the other.
  lemma AckSettles(s: System, a: Action, event: nat, instance: nat)
    requires a.Ack? && Enabled(s, a)
    ensures var p := s.passes[a.instance];
            var key := (p.fetched[p.processed].id, a.instance);
            var hit := key == (event, instance);
            && Hanging(Effect(s, a).passes, event, instance) == (Hanging(s.passes, event, instance) && !hit)
            && (hit ==> Hanging(s.passes, event, instance))
  {
  }

  lemma FailuresSnoc(failures: seq<(nat, nat)>, last: (nat, nat), key: (nat, nat))
    ensures FailuresOf(failures + [last], key) == FailuresOf(failures, key) + if last == key then 1 else 0
  {
    assert (failures + [last])[..|failures|] == failures;
  }

  // It is recorded as stored or as failed, and not stored twice.
  lemma AckIsRecorded(s: System, a: Action)
    requires a.Ack? && PassesFit(s) && Enabled(s, a)
    ensures var p, s' := s.passes[a.instance], Effect(s, a);
            var key := (p.fetched[p.processed].id, a.instance);
            && key !in s.acked
            && s'.tries == s.tries
            && (|| (s'.acked == s.acked + {key} && s'.ackFailures == s.ackFailures)
                || (s'.acked == s.acked && s'.ackFailures == s.ackFailures + [key]))
  {
    assert PassFits(s, a.instance, s.passes[a.instance]);
  }

  lemma AckKeepsBalance(s: System, a: Action, event: nat, instance: nat)
    requires a.Ack? && PassesFit(s) && Enabled(s, a) && Balanced(s, event, instance)
    ensures Balanced(Effect(s, a), event, instance)
  {
    var p := s.passes[a.instance];
    var key := (p.fetched[p.processed].id, a.instance);
    hide Effect;
    hide Enabled;
    hide Hanging;
    hide PassesFit;
    hide TriesOf;
    hide FailuresOf;
    AckIsRecorded(s, a);
    AckSettles(s, a, event, instance);
    FailuresSnoc(s.ackFailures, key, (event, instance));
  }

  lemma TriesSnoc(tries: seq<Try>, last: Try, event: nat, instance: nat)
    ensures TriesOf(tries + [last], event, instance) ==
            TriesOf(tries, event, instance) + if last.event == event && last.instance == instance then 1 else 0
  {
    assert (tries + [last])[..|tries|] == tries;
  }

  // An attempt leaves its row hanging.
  lemma AttemptHangs(s: System, a: Action, event: nat, instance: nat)
    requires a.Attempt? && Enabled(s, a)
    ensures var p := s.passes[a.instance];
            var hit := p.fetched[p.processed].id == event && a.instance == instance;
            && Hanging(Effect(s, a).passes, event, instance) == (Hanging(s.passes, event, instance) || hit)
            && (hit ==> !Hanging(s.passes, event, instance))
  {
  }

  lemma AttemptKeepsBalance(s: System, a: Action, event: nat, instance: nat)
    requires a.Attempt? && Enabled(s, a) && Balanced(s, event, instance)
    ensures Balanced(Effect(s, a), event, instance)
  {
    var p := s.passes[a.instance];
    var row := p.fetched[p.processed];
    var last := Try(row.id, a.instance, row.readable && a.reached);
    TriesSnoc(s.tries, last, event, instance);
    AttemptHangs(s, a, event, instance);
    hide TriesOf;
    hide FailuresOf;
    hide Hanging;
    assert Effect(s, a).tries == s.tries + [last];
  }

  lemma OtherStepsKeepBalance(s: System, a: Action, event: nat, instance: nat)
    requires PassesFit(s) && Enabled(s, a) && !a.Ack? && !a.Attempt? && Balanced(s, event, instance)
    ensures Balanced(Effect(s, a), event, instance)
  {
    hide FailuresOf;
    hide TriesOf;
    assert instance in s.passes ==> PassFits(s, instance, s.passes[instance]);
  }

  lemma StepKeepsSound(s: System, a: Action)
    requires Sound(s)
    ensures Sound(Apply(s, a))
  {
    hide PassesFit;
    hide TriesFit;
    hide TablesFit;
    hide TriesOf;
    hide FailuresOf;
    hide Hanging;
    if Enabled(s, a) {
      StepKeepsTables(s, a);
      StepKeepsTries(s, a);
      StepKeepsPasses(s, a);
      forall event, instance ensures Balanced(Effect(s, a), event, instance) {
        if a.Ack? {
          AckKeepsBalance(s, a, event, instance);
        } else if a.Attempt? {
          AttemptKeepsBalance(s, a, event, instance);
        } else {
          OtherStepsKeepBalance(s, a, event, instance);
        }
      }
    }
  }

  lemma StepKeepsPasses(s: System, a: Action)
    requires TablesFit(s) && PassesFit(s) && Enabled(s, a)
    ensures PassesFit(Effect(s, a))
  {
    hide PassFits;
    hide TablesFit;
    forall i | i in Effect(s, a).passes ensures PassFits(Effect(s, a), i, Effect(s, a).passes[i]) {
      StepKeepsPass(s, a, i);
    }
  }

  lemma {:induction false} RunIsSound(acts: seq<Action>)
    ensures Sound(Run(acts))
  {
    if acts != [] {
      RunIsSound(acts[..|acts| - 1]);
      StepKeepsSound(Run(acts[..|acts| - 1]), acts[|acts| - 1]);
    }
  }

  // ------------------------------------------------------------------ what every run keeps

  lemma {:induction false} TriesOfMember(tries: seq<Try>, event: nat, instance: nat)
    ensures TriesOf(tries, event, instance) > 0 <==>
            exists t :: t in tries && t.event == event && t.instance == instance
  {
    if tries != [] {
      var k := |tries| - 1;
      TriesOfMember(tries[..k], event, instance);
      assert tries == tries[..k] + [tries[k]];
    }
  }

  // An instance never tries an event of its own, and what does not parse is never delivered.
  lemma NoSelfDelivery(acts: seq<Action>, t: Try)
    requires t in Run(acts).tries
    ensures var s := Run(acts);
            && t.event in s.published
            && s.published[t.event].source != t.instance
            && (t.delivered ==> s.published[t.event].readable)
  {
    RunIsSound(acts);
  }

  // Every stored acknowledgement was preceded by a try of the same instance.
  lemma AckImpliesTry(acts: seq<Action>, event: nat, instance: nat)
    requires (event, instance) in Run(acts).store.acks
    ensures exists t :: t in Run(acts).tries && t.event == event && t.instance == instance
  {
    RunIsSound(acts);
    var s := Run(acts);
    assert Balanced(s, event, instance);
    TriesOfMember(s.tries, event, instance);
  }

  // How often an instance tries an event: once for the acknowledgement, and once more per failed acknowledgement.
  lemma TriesAreCounted(acts: seq<Action>, event: nat, instance: nat)
    ensures var s := Run(acts);
            var tries, failures := TriesOf(s.tries, event, instance), FailuresOf(s.ackFailures, (event, instance));
            && failures <= tries <= failures + 1
            && ((event, instance) in s.acked ==> tries == failures + 1)
  {
    RunIsSound(acts);
    var s := Run(acts);
    assert Balanced(s, event, instance);
    assert instance in s.passes ==> PassFits(s, instance, s.passes[instance]);
  }

  lemma {:induction false} HistoryGrows(s: System, acts: seq<Action>)
    ensures var s' := RunFrom(s, acts);
            && s.acked <= s'.acked
            && forall id | id in s.published :: id in s'.published && s'.published[id] == s.published[id]
  {
    if acts != [] {
      HistoryGrows(s, acts[..|acts| - 1]);
    }
  }

  lemma {:induction false} RunFromConcat(s: System, a: seq<Action>, b: seq<Action>)
    ensures RunFrom(s, a + b) == RunFrom(RunFrom(s, a), b)
  {
    if b == [] {
      assert a + b == a;
    } else {
      RunFromConcat(s, a, b[..|b| - 1]);
      assert (a + b)[..|a + b| - 1] == a + b[..|b| - 1];
    }
  }

  // Once acknowledged, an event is never fetched by that instance again, however the run goes on.
  lemma AckedIsNeverFetchedAgain(acts: seq<Action>, more: seq<Action>, event: nat, instance: nat, limit: nat,
          rows: seq<Row>)
    requires (event, instance) in Run(acts).acked
    requires Enabled(Run(acts + more), Begin(instance, limit, rows))
    ensures forall k | 0 <= k < |rows| :: rows[k].id != event
  {
    RunFromConcat(INITIAL, acts, more);
    HistoryGrows(Run(acts), more);
    RunIsSound(acts + more);
  }

  // A pass that comes to its end has acknowledged every row it fetched, whatever happened meanwhile.
  lemma EndedPassAckedAll(acts: seq<Action>, instance: nat, k: nat)
    requires Enabled(Run(acts), End(instance))
    requires k < |Run(acts).passes[instance].fetched|
    ensures (Run(acts).passes[instance].fetched[k].id, instance) in Run(acts).acked
  {
    RunIsSound(acts);
    var s := Run(acts);
    assert PassFits(s, instance, s.passes[instance]);
  }

  // A pending event stops being pending only by an acknowledgement of that instance or by the cleanup.
  lemma LeavingPending(s: System, a: Action, event: nat, instance: nat)
    requires Sound(s)
    requires event in Pending(s.store, instance) && event !in Pending(Apply(s, a).store, instance)
    ensures (a.Ack? && a.instance == instance && a.dbUp && Hanging(s.passes, event, instance)) ||
            (a.Cleanup? && s.store.events[event].createdAt < a.cutoff)
  {
  }

  // What is not pending for an instance never becomes pending again: it was acknowledged, deleted, or its own.
  lemma {:induction false} NeverPendingAgain(s: System, acts: seq<Action>, event: nat, instance: nat)
    requires Sound(s) && event in s.published && event !in Pending(s.store, instance)
    ensures event !in Pending(RunFrom(s, acts).store, instance)
  {
    if acts != [] {
      var before := acts[..|acts| - 1];
      NeverPendingAgain(s, before, event, instance);
      HistoryGrows(s, before);
      RunKeepsSound(s, before);
      hide RunFrom;
      StaysSettled(RunFrom(s, before), acts[|acts| - 1], event, instance);
    }
  }

  lemma StaysSettled(s: System, a: Action, event: nat, instance: nat)
    requires Sound(s) && event in s.published && event !in Pending(s.store, instance)
    ensures event !in Pending(Apply(s, a).store, instance)
  {
    hide PassesFit;
    hide TriesFit;
  }

  // In every run, what is pending for an instance are the stored events of others that it has not acknowledged.
  lemma PendingIsExact(acts: seq<Action>, event: nat, instance: nat)
    ensures event in Pending(Run(acts).store, instance) <==>
              && event in Run(acts).store.events && Run(acts).store.events[event].source != instance
              && (event, instance) !in Run(acts).acked
  {
    RunIsSound(acts);
  }

  // An event is stored once it is published, and until a cleanup comes past its age.
  lemma StoredAfter(s: System, a: Action, event: nat)
    ensures var events, after := s.store.events, Apply(s, a).store.events;
            && (event in after <==>
                || (a.Publish? && a.row.id == event && event !in s.published)
                || (event in events && !(a.Cleanup? && events[event].createdAt < a.cutoff)))
            && (event in after ==>
                  after[event]
                  == (if a.Publish? && a.row.id == event && event !in s.published then a.row else events[event]))
  {
  }

  // What a cleanup does in any reachable state: exactly the events older than the cutoff go, with exactly their
  // acknowledgements, and no instance waits for them any more.
  lemma CleanupIsExact(acts: seq<Action>, cutoff: nat)
    ensures var before, after := Run(acts).store, Run(acts + [Cleanup(cutoff)]).store;
            && (forall id :: id in after.events <==> id in before.events && before.events[id].createdAt >= cutoff)
            && (forall id | id in after.events :: after.events[id] == before.events[id])
            && (forall ack :: ack in after.acks <==>
                  ack in before.acks && ack.0 in before.events && before.events[ack.0].createdAt >= cutoff)
            && (forall instance, id :: id in Pending(after, instance) <==>
                  id in Pending(before, instance) && before.events[id].createdAt >= cutoff)
  {
    RunInSteps(acts, Cleanup(cutoff));
    RunIsSound(acts);
    hide PassesFit;
    hide TriesFit;
    hide Balanced;
  }

  // Other instances never touch an instance's pending set or its pass.
  lemma OthersDoNotInterfere(s: System, a: Action, instance: nat)
    requires a.Begin? || a.Attempt? || a.Ack? || a.End?
    requires a.instance != instance
    ensures Pending(Apply(s, a).store, instance) == Pending(s.store, instance)
    ensures instance in Apply(s, a).passes <==> instance in s.passes
    ensures instance in s.passes ==> Apply(s, a).passes[instance] == s.passes[instance]
  {
  }

  // ------------------------------------------------------------------ what the query returns

  lemma OldestOf(events: map<nat, Row>, pending: set<nat>) returns (m: nat)
    requires pending != {} && pending <= events.Keys
    ensures m in pending && forall id | id in pending :: events[m].createdAt <= events[id].createdAt
  {
    m :| m in pending;
    var rest := pending - {m};
    assert forall id | id in pending :: id == m || id in rest;
    if rest != {} {
      var n := OldestOf(events, rest);
      if events[n].createdAt < events[m].createdAt {
        m := n;
      }
    }
  }

  lemma PrependCovers(events: map<nat, Row>, m: nat, rest: seq<Row>, id: nat)
    requires m in events && id in events && events[m].id == m
    requires events[m].createdAt <= events[id].createdAt
    requires id == m || Covers(events, rest, id)
    ensures Covers(events, [events[m]] + rest, id)
  {
    var rows := [events[m]] + rest;
    assert rows[0].id == m;
    if j :| 0 <= j < |rest| && rest[j].id == id {
      assert rows[j + 1].id == id;
    }
  }

  lemma PrependOldest(events: map<nat, Row>, pending: set<nat>, limit: nat, m: nat, rest: seq<Row>)
    requires pending <= events.Keys && m in pending && events[m].id == m && limit > 0
    requires forall id | id in pending :: events[m].createdAt <= events[id].createdAt
    requires Oldest(events, pending - {m}, limit - 1, rest)
    ensures Oldest(events, pending, limit, [events[m]] + rest)
  {
    hide Covers;
    var rows := [events[m]] + rest;
    assert |pending| == |pending - {m}| + 1;
    forall id | id in pending && id in events ensures Covers(events, rows, id) {
      assert id != m ==> id in pending - {m};
      PrependCovers(events, m, rest, id);
    }
    assert forall i | 0 < i < |rows| :: rows[i] == rest[i - 1];
  }

  // The query always has a result.
  lemma FetchExists(events: map<nat, Row>, pending: set<nat>, limit: nat) returns (rows: seq<Row>)
    requires pending <= events.Keys && forall id | id in pending :: events[id].id == id
    ensures Oldest(events, pending, limit, rows)
    decreases limit
  {
    if limit == 0 || pending == {} {
      rows := [];
    } else {
      var m := OldestOf(events, pending);
      var rest := FetchExists(events, pending - {m}, limit - 1);
      hide Oldest;
      PrependOldest(events, pending, limit, m, rest);
      rows := [events[m]] + rest;
    }
  }

  lemma {:induction false} RunKeepsSound(s: System, acts: seq<Action>)
    requires Sound(s)
    ensures Sound(RunFrom(s, acts))
  {
    if acts != [] {
      RunKeepsSound(s, acts[..|acts| - 1]);
      StepKeepsSound(RunFrom(s, acts[..|acts| - 1]), acts[|acts| - 1]);
    }
  }

  // ------------------------------------------------------------------ the tables as an object

  ghost function AckedBy(rows: seq<Row>, instance: nat): set<(nat, nat)> {
    set k | 0 <= k < |rows| :: (rows[k].id, instance)
  }

  lemma AckedBySnoc(rows: seq<Row>, n: nat, instance: nat)
    requires n < |rows|
    ensures AckedBy(rows[..n + 1], instance) == AckedBy(rows[..n], instance) + {(rows[n].id, instance)}
  {
    assert forall k | 0 <= k < n :: rows[..n + 1][k] == rows[..n][k];
  }

  // The delivery attempts of `instance` on some rows; `reached` says which deliveries get through.
  function TriesOn(rows: seq<Row>, instance: nat, reached: nat -> bool): seq<Try> {
    seq(|rows|, k requires 0 <= k < |rows| => Try(rows[k].id, instance, rows[k].readable && reached(rows[k].id)))
  }

  lemma TriesOnSnoc(rows: seq<Row>, n: nat, instance: nat, reached: nat -> bool)
    requires n < |rows|
    ensures TriesOn(rows[..n + 1], instance, reached)
         == TriesOn(rows[..n], instance, reached) + [Try(rows[n].id, instance, rows[n].readable && reached(rows[n].id))]
  {
    assert rows[..n + 1] == rows[..n] + [rows[n]];
  }

  // Row by row: each gets one attempt, which delivers exactly if the payload parses and the delivery gets through.
  lemma TriesOnAt(rows: seq<Row>, instance: nat, reached: nat -> bool, k: nat)
    requires k < |rows|
    ensures |TriesOn(rows, instance, reached)| == |rows|
    ensures var t := TriesOn(rows, instance, reached)[k];
            && t.event == rows[k].id && t.instance == instance
            && (t.delivered <==> rows[k].readable && reached(rows[k].id))
  {
  }

  // What an attempt of a pass does in a run.
  lemma AttemptInRun(acts: seq<Action>, i: nat, reached: bool)
    requires Enabled(Run(acts), Attempt(i, reached))
    ensures var s, s' := Run(acts), Run(acts + [Attempt(i, reached)]);
            var row := s.passes[i].fetched[s.passes[i].processed];
            && s'.store == s.store && s'.acked == s.acked
            && |s'.tries| == |s.tries| + 1 && s'.tries[..|s.tries|] == s.tries
            && s'.tries[|s.tries|].event == row.id && s'.tries[|s.tries|].instance == i
            && (s'.tries[|s.tries|].delivered <==> row.readable && reached)
  {
    RunInSteps(acts, Attempt(i, reached));
    hide Run;
  }

  // How far a pass over `rows` gets: to the first row whose acknowledgement does not get through.
  ghost predicate StopsAt(rows: seq<Row>, dbUp: nat -> bool, processed: nat) {
    && processed <= |rows|
    && (forall k | 0 <= k < processed :: dbUp(rows[k].id))
    && (processed < |rows| ==> !dbUp(rows[processed].id))
  }

  // The rows a pass has tried when it stops: a failed acknowledgement comes after its attempt.
  function TriedRows(rows: seq<Row>, processed: nat): seq<Row>
    requires processed <= |rows|
  {
    if processed == |rows| then rows else rows[..processed + 1]
  }

  class FanoutTables {
    var events: map<nat, Row>
    var acks: set<(nat, nat)>
    // What this process has tried to deliver.
    var tries: seq<Try>

    ghost function State(): Store
      reads this
    {
      Store(events, acks)
    }

    constructor ()
      ensures State() == Store(map[], {}) && tries == []
    {
      events, acks, tries := map[], {}, [];
    }

    // One processing pass over the rows the query returned: `reached` says which deliveries, `dbUp` for which
    // events the acknowledgement insert gets through. `ok` is false when the pass stops at a failed insert.
    method ProcessRemoteEvents(instance: nat, limit: nat, rows: seq<Row>, reached: nat -> bool, dbUp: nat -> bool)
      returns (ok: bool, processed: nat)
      requires Oldest(events, Pending(State(), instance), limit, rows)
      modifies this`acks, this`tries
      ensures StopsAt(rows, dbUp, processed) && (ok <==> processed == |rows|)
      ensures acks == old(acks) + AckedBy(rows[..processed], instance)
      ensures forall ack :: ack in acks <==>
                ack in old(acks) || (ack.1 == instance && exists k :: 0 <= k < processed && rows[k].id == ack.0)
      ensures tries == old(tries) + TriesOn(TriedRows(rows, processed), instance, reached)
    {
      acks, tries, ok, processed := ProcessRows(events, acks, tries, instance, rows, reached, dbUp);
    }

    method CleanupRemoteEvents(cutoff: nat) returns (removed: nat)
      modifies this`events, this`acks
      ensures State() == Removed(old(State()), cutoff)
      ensures forall id :: id in events <==> id in old(events) && old(events)[id].createdAt >= cutoff
      ensures forall id | id in events :: events[id] == old(events)[id]
      ensures forall ack :: ack in acks <==> ack in old(acks) && ack.0 in events
      ensures removed == |Expired(old(events), cutoff)|
    {
      var before := |events|;
      events := map id | id in events && events[id].createdAt >= cutoff :: events[id];
      acks := set ack | ack in acks && ack.0 in events;
      RemovedCount(old(events), events, Expired(old(events), cutoff), cutoff);
      removed := before - |events|;
    }
  }

  // The events that a cleanup is for.
  function Expired(events: map<nat, Row>, cutoff: nat): (gone: set<nat>)
    ensures forall id :: id in gone <==> id in events && events[id].createdAt < cutoff
  {
    set id | id in events && events[id].createdAt < cutoff
  }

  // What is kept and what goes make up the whole table.
  lemma RemovedCount(events: map<nat, Row>, kept: map<nat, Row>, gone: set<nat>, cutoff: nat)
    requires forall id :: id in kept <==> id in events && events[id].createdAt >= cutoff
    requires forall id :: id in gone <==> id in events && events[id].createdAt < cutoff
    ensures |events| == |kept| + |gone|
  {
    assert events.Keys == kept.Keys + gone && kept.Keys !! gone;
    assert |events.Keys| == |kept.Keys| + |gone|;
  }

  // The loop over the rows: each is tried, then acknowledged.
  method ProcessRows(events: map<nat, Row>, acked: set<(nat, nat)>, tried: seq<Try>, instance: nat, rows: seq<Row>,
                     reached: nat -> bool, dbUp: nat -> bool)
    returns (acks: set<(nat, nat)>, tries: seq<Try>, ok: bool, processed: nat)
    requires forall k | 0 <= k < |rows| :: rows[k].id in events
    ensures StopsAt(rows, dbUp, processed) && (ok <==> processed == |rows|)
    ensures acks == acked + AckedBy(rows[..processed], instance)
    ensures tries == tried + TriesOn(TriedRows(rows, processed), instance, reached)
  {
    hide *;
    acks, tries, processed := acked, tried, 0;
    NothingProcessed(rows, instance, reached);
    while processed < |rows|
      invariant processed <= |rows| && forall k | 0 <= k < processed :: dbUp(rows[k].id)
      invariant acks == acked + AckedBy(rows[..processed], instance)
      invariant tries == tried + TriesOn(rows[..processed], instance, reached)
    {
      var row := rows[processed];
      AckedBySnoc(rows, processed, instance);
      TriesOnSnoc(rows, processed, instance, reached);
      tries := tries + [Try(row.id, instance, row.readable && reached(row.id))];
      // The acknowledgement references the event, which the query found.
      var inserted := dbUp(row.id) && row.id in events;
      if !inserted {
        Stopped(rows, dbUp, processed);
        ok := false;
        return;
      }
      acks := acks + {(row.id, instance)};
      processed := processed + 1;
    }
    Stopped(rows, dbUp, processed);
    ok := true;
  }

  lemma Stopped(rows: seq<Row>, dbUp: nat -> bool, processed: nat)
    requires processed <= |rows| && forall k | 0 <= k < processed :: dbUp(rows[k].id)
    requires processed < |rows| ==> !dbUp(rows[processed].id)
    ensures StopsAt(rows, dbUp, processed)
    ensures TriedRows(rows, processed) == if processed == |rows| then rows[..processed] else rows[..processed + 1]
  {
    assert rows[..|rows|] == rows;
  }

  lemma NothingProcessed(rows: seq<Row>, instance: nat, reached: nat -> bool)
    ensures AckedBy(rows[..0], instance) == {} && TriesOn(rows[..0], instance, reached) == []
  {
  }
}
