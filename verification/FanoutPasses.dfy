/**
 Whole passes of the fan-out: what a pass does when it runs by itself, what it does among the passes of
 other instances, and how many passes drain a backlog.
 */
module FanoutPasses {
  import opened Fanout

  // ------------------------------------------------------------------ a pass by itself

  // The attempts and acknowledgements of the first `n` rows.
  function RowActions(i: nat, rows: seq<Row>, reached: nat -> bool, dbUp: nat -> bool, n: nat): seq<Action>
    requires n <= |rows|
  {
    if n == 0 then []
    else
      RowActions(i, rows, reached, dbUp, n - 1) + [Attempt(i, reached(rows[n - 1].id)), Ack(i, dbUp(rows[n - 1].id))]
  }

  // A pass that acknowledges `processed` rows and stops there, at the end or at a failed insert.
  function PassOf(i: nat, limit: nat, rows: seq<Row>, reached: nat -> bool, dbUp: nat -> bool,
          processed: nat): seq<Action>
    requires processed <= |rows|
  {
    [Begin(i, limit, rows)] +
    if processed == |rows| then RowActions(i, rows, reached, dbUp, |rows|) + [End(i)]
    else RowActions(i, rows, reached, dbUp, processed + 1)
  }

  lemma RunFromOne(s: System, acts: seq<Action>, a: Action)
    ensures RunFrom(s, acts + [a]) == Apply(RunFrom(s, acts), a)
  {
    assert (acts + [a])[..|acts|] == acts;
  }

  lemma RunFromTwo(s: System, acts: seq<Action>, a: Action, b: Action)
    ensures RunFrom(s, acts + [a, b]) == Apply(Apply(RunFrom(s, acts), a), b)
  {
    hide RunFrom;
    RunFromOne(s, acts, a);
    RunFromOne(s, acts + [a], b);
    assert acts + [a] + [b] == acts + [a, b];
  }

  // The state of a pass, begun in `s`, that has acknowledged its first `n` rows.
  ghost predicate Halfway(s: System, s': System, i: nat, n: nat, reached: nat -> bool)
    requires i in s.passes && n <= |s.passes[i].fetched|
  {
    var p := s.passes[i];
    && s'.store == s.store.(acks := s.store.acks + AckedBy(p.fetched[..n], i))
    && s'.passes == s.passes[i := p.(processed := n)]
    && s'.tries == s.tries + TriesOn(p.fetched[..n], i, reached)
  }

  // One more row, acknowledged or not.
  lemma HalfwayStep(s: System, mid: System, i: nat, n: nat, reached: nat -> bool, up: bool)
    requires i in s.passes && n < |s.passes[i].fetched| && !s.passes[i].tried
    requires s.passes[i].fetched[n].id in s.store.events
    requires Halfway(s, mid, i, n, reached)
    ensures var row := s.passes[i].fetched[n];
            var next := Apply(Apply(mid, Attempt(i, reached(row.id))), Ack(i, up));
            if up then Halfway(s, next, i, n + 1, reached)
            else
              && next.store == mid.store && next.passes == s.passes - {i}
              && next.tries == s.tries + TriesOn(s.passes[i].fetched[..n + 1], i, reached)
  {
    var p := s.passes[i];
    var row := p.fetched[n];
    AckedBySnoc(p.fetched, n, i);
    TriesOnSnoc(p.fetched, n, i, reached);
    hide AckedBy;
    hide TriesOn;
    var tried := Apply(mid, Attempt(i, reached(row.id)));
    assert tried.passes == s.passes[i := p.(processed := n, tried := true)] && tried.store == mid.store;
    assert tried.tries == mid.tries + [Try(row.id, i, row.readable && reached(row.id))];
    var next := Apply(tried, Ack(i, up));
    assert next.tries == tried.tries;
    assert up ==> next.store.acks == mid.store.acks + {(row.id, i)};
    assert up ==> next.passes == s.passes[i := p.(processed := n + 1)];
    assert !up ==> next.passes == tried.passes - {i} == s.passes - {i};
  }

  lemma HalfwayStart(s: System, i: nat, reached: nat -> bool)
    requires i in s.passes && s.passes[i].processed == 0
    ensures Halfway(s, s, i, 0, reached)
  {
    var p := s.passes[i];
    assert p.(processed := 0) == p;
    NothingProcessed(p.fetched, i, reached);
  }

  lemma {:induction false} RowsRun(s: System, i: nat, reached: nat -> bool, dbUp: nat -> bool, n: nat)
    requires i in s.passes && n <= |s.passes[i].fetched|
    requires s.passes[i].processed == 0 && !s.passes[i].tried
    requires forall k | 0 <= k < n :: s.passes[i].fetched[k].id in s.store.events && dbUp(s.passes[i].fetched[k].id)
    ensures Halfway(s, RunFrom(s, RowActions(i, s.passes[i].fetched, reached, dbUp, n)), i, n, reached)
  {
    hide Halfway;
    hide Apply;
    var rows := s.passes[i].fetched;
    if n == 0 {
      HalfwayStart(s, i, reached);
    } else {
      RowsRun(s, i, reached, dbUp, n - 1);
      var before := RowActions(i, rows, reached, dbUp, n - 1);
      HalfwayStep(s, RunFrom(s, before), i, n - 1, reached, true);
      RunFromTwo(s, before, Attempt(i, reached(rows[n - 1].id)), Ack(i, true));
      hide RunFrom;
    }
  }

  lemma BeginRuns(s: System, i: nat, limit: nat, rows: seq<Row>)
    requires Enabled(s, Begin(i, limit, rows))
    ensures var s' := RunFrom(s, [Begin(i, limit, rows)]);
            && s'.store == s.store && s'.tries == s.tries
            && s'.passes == s.passes[i := Pass(rows, 0, false)] && i !in s.passes
            && forall k | 0 <= k < |rows| :: rows[k].id in s.store.events
  {
    RunFromOne(s, [], Begin(i, limit, rows));
    assert RunFrom(s, []) == s;
    assert [] + [Begin(i, limit, rows)] == [Begin(i, limit, rows)];
    hide RunFrom;
  }

  // The system's steps of a pass, done in a row, do what the processing loop does: for every result of the
  // query, and wherever the pass stops.
  lemma PassMatchesLoop(s: System, i: nat, limit: nat, rows: seq<Row>, reached: nat -> bool, dbUp: nat -> bool,
                        processed: nat)
    requires Enabled(s, Begin(i, limit, rows)) && StopsAt(rows, dbUp, processed)
    ensures var s' := RunFrom(s, PassOf(i, limit, rows, reached, dbUp, processed));
            && s'.store == s.store.(acks := s.store.acks + AckedBy(rows[..processed], i))
            && s'.tries == s.tries + TriesOn(TriedRows(rows, processed), i, reached)
            && s'.passes == s.passes
  {
    if processed == |rows| {
      WholePass(s, i, limit, rows, reached, dbUp);
    } else {
      BrokenPass(s, i, limit, rows, reached, dbUp, processed);
    }
    hide PassOf;
    hide RunFrom;
    hide Enabled;
    assert rows[..|rows|] == rows;
  }

  // The state after the query and `n` rows.
  lemma PassStarts(s: System, i: nat, limit: nat, rows: seq<Row>, reached: nat -> bool, dbUp: nat -> bool, n: nat)
    returns (s1: System)
    requires Enabled(s, Begin(i, limit, rows)) && n <= |rows| && forall k | 0 <= k < n :: dbUp(rows[k].id)
    ensures s1.store == s.store && s1.tries == s.tries && i !in s.passes
    ensures s1.passes == s.passes[i := Pass(rows, 0, false)]
    ensures forall k | 0 <= k < |rows| :: rows[k].id in s.store.events
    ensures Halfway(s1, RunFrom(s, [Begin(i, limit, rows)] + RowActions(i, rows, reached, dbUp, n)), i, n, reached)
  {
    BeginRuns(s, i, limit, rows);
    hide Enabled;
    hide Halfway;
    hide RowActions;
    hide RunFrom;
    s1 := RunFrom(s, [Begin(i, limit, rows)]);
    RowsRun(s1, i, reached, dbUp, n);
    RunFromConcat(s, [Begin(i, limit, rows)], RowActions(i, rows, reached, dbUp, n));
  }

  lemma WholePass(s: System, i: nat, limit: nat, rows: seq<Row>, reached: nat -> bool, dbUp: nat -> bool)
    requires Enabled(s, Begin(i, limit, rows)) && StopsAt(rows, dbUp, |rows|)
    ensures var s' := RunFrom(s, PassOf(i, limit, rows, reached, dbUp, |rows|));
            && s'.store == s.store.(acks := s.store.acks + AckedBy(rows, i))
            && s'.tries == s.tries + TriesOn(rows, i, reached)
            && s'.passes == s.passes
  {
    var s1 := PassStarts(s, i, limit, rows, reached, dbUp, |rows|);
    var done := [Begin(i, limit, rows)] + RowActions(i, rows, reached, dbUp, |rows|);
    assert PassOf(i, limit, rows, reached, dbUp, |rows|) == done + [End(i)];
    hide *;
    RunFromOne(s, done, End(i));
    EndRuns(s, s1, RunFrom(s, done), i, rows, reached);
  }

  lemma BrokenActions(i: nat, limit: nat, rows: seq<Row>, reached: nat -> bool, dbUp: nat -> bool, processed: nat)
    requires StopsAt(rows, dbUp, processed) && processed < |rows|
    ensures PassOf(i, limit, rows, reached, dbUp, processed)
         == [Begin(i, limit, rows)] + RowActions(i, rows, reached, dbUp, processed)
            + [Attempt(i, reached(rows[processed].id)), Ack(i, false)]
  {
  }

  lemma BrokenPass(s: System, i: nat, limit: nat, rows: seq<Row>, reached: nat -> bool, dbUp: nat -> bool,
                   processed: nat)
    requires Enabled(s, Begin(i, limit, rows)) && StopsAt(rows, dbUp, processed) && processed < |rows|
    ensures var s' := RunFrom(s, PassOf(i, limit, rows, reached, dbUp, processed));
            && s'.store == s.store.(acks := s.store.acks + AckedBy(rows[..processed], i))
            && s'.tries == s.tries + TriesOn(rows[..processed + 1], i, reached)
            && s'.passes == s.passes
  {
    var row := rows[processed];
    var s1 := PassStarts(s, i, limit, rows, reached, dbUp, processed);
    var done := [Begin(i, limit, rows)] + RowActions(i, rows, reached, dbUp, processed);
    BrokenActions(i, limit, rows, reached, dbUp, processed);
    hide RunFrom;
    hide PassOf;
    hide RowActions;
    hide Enabled;
    hide Apply;
    hide AckedBy;
    hide TriesOn;
    RunFromTwo(s, done, Attempt(i, reached(row.id)), Ack(i, false));
    HalfwayStep(s1, RunFrom(s, done), i, processed, reached, false);
    assert s1.passes - {i} == s.passes;
  }

  lemma EndRuns(s: System, s1: System, s2: System, i: nat, rows: seq<Row>, reached: nat -> bool)
    requires s1.store == s.store && s1.tries == s.tries && i !in s.passes
    requires s1.passes == s.passes[i := Pass(rows, 0, false)] && Halfway(s1, s2, i, |rows|, reached)
    ensures var s3 := Apply(s2, End(i));
            && s3.store == s.store.(acks := s.store.acks + AckedBy(rows, i))
            && s3.tries == s.tries + TriesOn(rows, i, reached)
            && s3.passes == s.passes
  {
    hide AckedBy;
    hide TriesOn;
    assert rows[..|rows|] == rows;
    assert s2.passes - {i} == s.passes;
  }

  // ------------------------------------------------------------------ what a pass removes

  function Ids(rows: seq<Row>): set<nat> {
    set k | 0 <= k < |rows| :: rows[k].id
  }

  lemma {:induction false} IdsCount(rows: seq<Row>)
    requires forall i, j | 0 <= i < j < |rows| :: rows[i].id != rows[j].id
    ensures |Ids(rows)| == |rows|
  {
    if rows != [] {
      var k := |rows| - 1;
      IdsCount(rows[..k]);
      IdsSnoc(rows, k);
      assert rows[k].id !in Ids(rows[..k]);
      assert rows[..k + 1] == rows;
    }
  }

  lemma IdsSnoc(rows: seq<Row>, n: nat)
    requires n < |rows|
    ensures Ids(rows[..n + 1]) == Ids(rows[..n]) + {rows[n].id}
  {
    assert forall k | 0 <= k < n :: rows[..n + 1][k] == rows[..n][k];
  }

  lemma FetchedIds(events: map<nat, Row>, pending: set<nat>, limit: nat, rows: seq<Row>)
    requires Oldest(events, pending, limit, rows)
    ensures Ids(rows) <= pending && |Ids(rows)| == Min(limit, |pending|)
    ensures |pending - Ids(rows)| == |pending| - Min(limit, |pending|)
  {
    IdsCount(rows);
    assert pending == Ids(rows) + (pending - Ids(rows));
  }

  // Every pass without failures, whatever the query returned, removes exactly the fetched events from the pending
  // set: the oldest min(limit, pending) of them.
  lemma FullPassDrains(s: System, i: nat, limit: nat, rows: seq<Row>, reached: nat -> bool, dbUp: nat -> bool)
    requires Sound(s) && Enabled(s, Begin(i, limit, rows)) && StopsAt(rows, dbUp, |rows|)
    ensures var s' := RunFrom(s, PassOf(i, limit, rows, reached, dbUp, |rows|));
            && Pending(s'.store, i) == Pending(s.store, i) - Ids(rows)
            && |Pending(s'.store, i)| == |Pending(s.store, i)| - Min(limit, |Pending(s.store, i)|)
            && s'.store.events == s.store.events && s'.passes == s.passes
  {
    PassMatchesLoop(s, i, limit, rows, reached, dbUp, |rows|);
    assert rows[..|rows|] == rows;
    FetchedIds(s.store.events, Pending(s.store, i), limit, rows);
    var s' := RunFrom(s, PassOf(i, limit, rows, reached, dbUp, |rows|));
    hide RunFrom;
    hide PassOf;
    hide Sound;
    hide Enabled;
    forall id ensures (id, i) in AckedBy(rows, i) <==> id in Ids(rows) {
      if id in Ids(rows) {
        var k :| 0 <= k < |rows| && rows[k].id == id;
        assert (rows[k].id, i) in AckedBy(rows, i);
      }
    }
    assert Pending(s'.store, i) == Pending(s.store, i) - Ids(rows);
  }

  // ------------------------------------------------------------------ a pass among others

  // Events of others that were published since `s`.
  function PublishedSince(s: System, s': System, i: nat): set<nat> {
    set id | id in s'.published && id !in s.published && s'.published[id].source != i
  }

  // Between Begin and End, without a cleanup: nothing was deleted, and the pass has acknowledged what it processed.
  ghost predicate Tracks(s: System, s': System, i: nat, rows: seq<Row>) {
    && i in s'.passes && s'.passes[i].fetched == rows && s'.passes[i].processed <= |rows|
    && (forall id :: id in s.published ==> id in s'.published && s'.published[id] == s.published[id])
    && (forall id :: id in s'.store.events <==> id in s.store.events || (id in s'.published && id !in s.published))
    && (forall id :: (id, i) in s'.store.acks <==>
          (id, i) in s.store.acks || id in Ids(rows[..s'.passes[i].processed]))
  }

  lemma BeginTracks(s: System, i: nat, limit: nat, rows: seq<Row>)
    requires Sound(s) && Enabled(s, Begin(i, limit, rows))
    ensures Tracks(s, Apply(s, Begin(i, limit, rows)), i, rows)
  {
    assert Ids(rows[..0]) == {};
    hide Oldest;
    hide PassesFit;
    hide TriesFit;
  }

  lemma AckTracks(s: System, s': System, i: nat, rows: seq<Row>, a: Action)
    requires TablesFit(s) && TablesFit(s') && Tracks(s, s', i, rows)
    requires a.Ack? && a.instance == i && Enabled(s', a) && i in Apply(s', a).passes
    ensures Tracks(s, Apply(s', a), i, rows)
  {
    var p := s'.passes[i];
    assert p.fetched[p.processed].id in s'.store.events && a.dbUp;
    IdsSnoc(rows, p.processed);
    hide Ids;
    assert Apply(s', a).store.acks == s'.store.acks + {(rows[p.processed].id, i)};
  }

  lemma StepTracks(s: System, s': System, i: nat, rows: seq<Row>, a: Action)
    requires TablesFit(s) && TablesFit(s') && Tracks(s, s', i, rows) && !a.Cleanup? && i in Apply(s', a).passes
    ensures Tracks(s, Apply(s', a), i, rows)
  {
    if a.Ack? && a.instance == i && Enabled(s', a) {
      AckTracks(s, s', i, rows, a);
    } else if a.Publish? {
      PublishTracks(s, s', i, rows, a);
    } else {
      hide *;
      OtherTracks(s, s', i, rows, a);
    }
  }

  lemma PublishTracks(s: System, s': System, i: nat, rows: seq<Row>, a: Action)
    requires TablesFit(s') && Tracks(s, s', i, rows) && a.Publish?
    ensures Tracks(s, Apply(s', a), i, rows)
  {
    hide Ids;
  }

  // Steps that touch neither events nor this pass's acknowledgements.
  lemma OtherTracks(s: System, s': System, i: nat, rows: seq<Row>, a: Action)
    requires Tracks(s, s', i, rows) && i in Apply(s', a).passes
    requires !a.Cleanup? && !a.Publish? && (a.Ack? && a.instance == i ==> !Enabled(s', a))
    ensures Tracks(s, Apply(s', a), i, rows)
  {
    hide Oldest;
    hide Ids;
    assert Apply(s', a).published == s'.published && Apply(s', a).store.events == s'.store.events;
  }

  ghost predicate NoCleanup(acts: seq<Action>) {
    forall k | 0 <= k < |acts| :: !acts[k].Cleanup?
  }

  // A pass of `i` is open in `s` and after each of the actions.
  ghost predicate StaysOpen(s: System, i: nat, acts: seq<Action>) {
    i in RunFrom(s, acts).passes && (acts != [] ==> StaysOpen(s, i, acts[..|acts| - 1]))
  }

  lemma {:induction false} MidTracks(s: System, i: nat, limit: nat, rows: seq<Row>, mid: seq<Action>)
    requires Sound(s) && Enabled(s, Begin(i, limit, rows))
    requires NoCleanup(mid) && StaysOpen(Apply(s, Begin(i, limit, rows)), i, mid)
    ensures Tracks(s, RunFrom(Apply(s, Begin(i, limit, rows)), mid), i, rows)
  {
    var s1 := Apply(s, Begin(i, limit, rows));
    hide Sound;
    hide Enabled;
    hide Apply;
    hide Tracks;
    if mid == [] {
      BeginTracks(s, i, limit, rows);
    } else {
      var before := mid[..|mid| - 1];
      MidTracks(s, i, limit, rows, before);
      StepKeepsSound(s, Begin(i, limit, rows));
      RunKeepsSound(s1, before);
      SoundTables(s);
      SoundTables(RunFrom(s1, before));
      StepTracks(s, RunFrom(s1, before), i, rows, mid[|mid| - 1]);
    }
  }

  lemma SoundTables(s: System)
    requires Sound(s)
    ensures TablesFit(s)
  {
  }

  // Whatever others do between a pass's query and its end, as long as nothing is cleaned up: the pending set
  // has lost exactly the fetched events and gained exactly what others published meanwhile.
  lemma PassAmongOthers(s: System, i: nat, limit: nat, rows: seq<Row>, mid: seq<Action>)
    requires Sound(s) && Enabled(s, Begin(i, limit, rows))
    requires NoCleanup(mid) && StaysOpen(Apply(s, Begin(i, limit, rows)), i, mid)
    requires Enabled(RunFrom(Apply(s, Begin(i, limit, rows)), mid), End(i))
    ensures var s2 := RunFrom(Apply(s, Begin(i, limit, rows)), mid);
            Pending(Apply(s2, End(i)).store, i) == Pending(s.store, i) - Ids(rows) + PublishedSince(s, s2, i)
  {
    var s1 := Apply(s, Begin(i, limit, rows));
    MidTracks(s, i, limit, rows, mid);
    StepKeepsSound(s, Begin(i, limit, rows));
    RunKeepsSound(s1, mid);
    SoundTables(s);
    SoundTables(RunFrom(s1, mid));
    FetchedIds(s.store.events, Pending(s.store, i), limit, rows);
    hide RunFrom;
    hide Sound;
    hide Oldest;
    TrackedPending(s, RunFrom(s1, mid), i, rows);
  }

  lemma TrackedPending(s: System, s': System, i: nat, rows: seq<Row>)
    requires TablesFit(s) && TablesFit(s') && Tracks(s, s', i, rows)
    requires Enabled(s', End(i)) && Ids(rows) <= Pending(s.store, i)
    ensures Pending(Apply(s', End(i)).store, i) == Pending(s.store, i) - Ids(rows) + PublishedSince(s, s', i)
  {
    assert rows[..|rows|] == rows;
    hide Ids;
    var after := Pending(s'.store, i);
    assert Apply(s', End(i)).store == s'.store;
    forall id ensures id in after <==> id in Pending(s.store, i) - Ids(rows) + PublishedSince(s, s', i) {
      assert (id, i) in s.store.acks ==> id in s.store.events;
    }
  }

  // ------------------------------------------------------------------ draining a backlog

  function Drop(a: nat, b: nat): nat {
    if a > b then a - b else 0
  }

  // How many passes of `i` have come to their end.
  ghost function Completed(s: System, acts: seq<Action>, i: nat): nat {
    if acts == [] then 0
    else
      var before, last := acts[..|acts| - 1], acts[|acts| - 1];
      Completed(s, before, i) + if last == End(i) && Enabled(RunFrom(s, before), last) then 1 else 0
  }

  // Nobody else publishes, and the passes of `i` fetch up to `limit` rows each.
  ghost predicate Quiet(acts: seq<Action>, i: nat, limit: nat) {
    forall k | 0 <= k < |acts| ::
      && (acts[k].Publish? ==> acts[k].row.source == i)
      && (acts[k].Begin? && acts[k].instance == i ==> acts[k].limit == limit)
  }

  // The pending set is within the bound, and what will be left of it after the current pass within the next one.
  ghost predicate Within(s: System, i: nat, bound: nat, limit: nat) {
    && |Pending(s.store, i)| <= bound
    && (i in s.passes ==> |Pending(s.store, i) - Ids(s.passes[i].fetched)| <= Drop(bound, limit))
  }

  lemma PendingShrinks(s: System, a: Action, i: nat)
    requires Sound(s) && (a.Publish? ==> a.row.source == i)
    ensures Pending(Apply(s, a).store, i) <= Pending(s.store, i)
  {
    forall id | id in Pending(Apply(s, a).store, i) ensures id in Pending(s.store, i) {
      if id in s.published && id !in Pending(s.store, i) {
        StaysSettled(s, a, id, i);
      }
    }
    hide PassesFit;
    hide TriesFit;
    hide Oldest;
  }

  lemma EndedIsNotPending(s: System, i: nat)
    requires Sound(s) && Enabled(s, End(i))
    ensures Pending(s.store, i) - Ids(s.passes[i].fetched) == Pending(s.store, i)
  {
    assert PassFits(s, i, s.passes[i]);
    forall id | id in Ids(s.passes[i].fetched) ensures id !in Pending(s.store, i) {
      assert (id, i) in s.acked;
    }
  }

  lemma SubsetCount(a: set<nat>, b: set<nat>, c: set<nat>)
    requires a <= b
    ensures |a| <= |b| && |a - c| <= |b - c|
  {
    assert b == a + (b - a) && |b| == |a| + |b - a|;
    assert b - c == (a - c) + ((b - c) - (a - c)) && |b - c| == |a - c| + |(b - c) - (a - c)|;
  }

  // What an action does to the pass of `i`.
  lemma PassAfter(s: System, a: Action, i: nat)
    requires i in Apply(s, a).passes
    ensures i in s.passes ==> Apply(s, a).passes[i].fetched == s.passes[i].fetched
    ensures i !in s.passes ==>
              && a.Begin? && a.instance == i && Enabled(s, a)
              && Apply(s, a).passes[i].fetched == a.rows && Apply(s, a).store == s.store
  {
    hide Oldest;
  }

  lemma StepStaysWithin(s: System, a: Action, i: nat, bound: nat, limit: nat)
    requires Sound(s) && Within(s, i, bound, limit) && Quiet([a], i, limit)
    ensures Within(Apply(s, a), i, if a == End(i) && Enabled(s, a) then Drop(bound, limit) else bound, limit)
  {
    assert [a][0] == a;
    PendingShrinks(s, a, i);
    var after := Apply(s, a);
    if i in after.passes {
      PassAfter(s, a, i);
      if i in s.passes {
        SubsetCount(Pending(after.store, i), Pending(s.store, i), Ids(s.passes[i].fetched));
      } else {
        FetchedIds(s.store.events, Pending(s.store, i), limit, a.rows);
      }
      assert a != End(i) || !Enabled(s, a);
    } else if a == End(i) && Enabled(s, a) {
      EndedIsNotPending(s, i);
      assert after.store == s.store;
    }
    SubsetCount(Pending(after.store, i), Pending(s.store, i), {});
    hide Sound;
    hide Enabled;
    hide Pending;
    hide Ids;
  }

  lemma DropMore(pending: nat, n: nat, limit: nat)
    ensures Drop(Drop(pending, n * limit), limit) == Drop(pending, (n + 1) * limit)
  {
    assert (n + 1) * limit == n * limit + limit;
  }

  lemma SplitLast(s: System, acts: seq<Action>, i: nat, limit: nat)
    requires acts != []
    ensures var before, a := acts[..|acts| - 1], acts[|acts| - 1];
            && RunFrom(s, acts) == Apply(RunFrom(s, before), a)
            && Completed(s, acts, i)
            == Completed(s, before, i) + (if a == End(i) && Enabled(RunFrom(s, before), a) then 1 else 0)
            && (Quiet(acts, i, limit) ==> Quiet(before, i, limit) && Quiet([a], i, limit))
            && (Faultless(acts, i) ==> Faultless(before, i) && Faultless([a], i))
  {
    var before := acts[..|acts| - 1];
    hide Enabled;
    hide Apply;
    assert forall k | 0 <= k < |before| :: before[k] == acts[k];
  }

  lemma WithinAtStart(s: System, i: nat, limit: nat)
    requires i !in s.passes
    ensures Within(RunFrom(s, []), i, Drop(|Pending(s.store, i)|, Completed(s, [], i) * limit), limit)
  {
    hide Pending;
  }

  lemma {:induction false} RunStaysWithin(s: System, acts: seq<Action>, i: nat, limit: nat)
    requires Sound(s) && i !in s.passes && Quiet(acts, i, limit)
    ensures Within(RunFrom(s, acts), i, Drop(|Pending(s.store, i)|, Completed(s, acts, i) * limit), limit)
  {
    hide *;
    if acts == [] {
      WithinAtStart(s, i, limit);
    } else {
      var before, a := acts[..|acts| - 1], acts[|acts| - 1];
      var n, pending := Completed(s, before, i), |Pending(s.store, i)|;
      SplitLast(s, acts, i, limit);
      RunStaysWithin(s, before, i, limit);
      RunKeepsSound(s, before);
      StepStaysWithin(RunFrom(s, before), a, i, Drop(pending, n * limit), limit);
      DropMore(pending, n, limit);
    }
  }

  // However passes, failures, cleanups and other instances interleave: while nobody else publishes, `n` completed
  // passes of up to `limit` rows leave at most the backlog less n * limit, and nothing once n * limit covers it.
  lemma BacklogDrains(s: System, acts: seq<Action>, i: nat, limit: nat)
    requires Sound(s) && i !in s.passes && Quiet(acts, i, limit)
    ensures var left, n := Pending(RunFrom(s, acts).store, i), Completed(s, acts, i);
            && |left| <= Drop(|Pending(s.store, i)|, n * limit)
            && (n * limit >= |Pending(s.store, i)| ==> left == {})
  {
    RunStaysWithin(s, acts, i, limit);
  }

  lemma QuotientCovers(pending: nat, limit: nat, n: nat)
    requires limit > 0 && n >= (pending + limit - 1) / limit
    ensures n * limit >= pending
  {
    var q := (pending + limit - 1) / limit;
    assert q * limit >= pending;
    assert n * limit == q * limit + (n - q) * limit;
  }

  // As many passes as the rounded-up quotient of backlog and limit leave nothing of it.
  lemma CeilingPassesDrain(s: System, acts: seq<Action>, i: nat, limit: nat)
    requires Sound(s) && i !in s.passes && Quiet(acts, i, limit) && limit > 0
    requires Completed(s, acts, i) >= (|Pending(s.store, i)| + limit - 1) / limit
    ensures Pending(RunFrom(s, acts).store, i) == {}
  {
    hide *;
    BacklogDrains(s, acts, i, limit);
    QuotientCovers(|Pending(s.store, i)|, limit, Completed(s, acts, i));
  }

  // ------------------------------------------------------------------ draining exactly

  // Nothing is cleaned up, and no acknowledgement of `i` is lost to the database.
  ghost predicate Faultless(acts: seq<Action>, i: nat) {
    forall k | 0 <= k < |acts| :: !acts[k].Cleanup? && (acts[k].Ack? && acts[k].instance == i ==> acts[k].dbUp)
  }

  // How much of the current pass is acknowledged.
  function Progress(s: System, i: nat): nat {
    if i in s.passes then s.passes[i].processed else 0
  }

  ghost predicate Exactly(s: System, i: nat, bound: nat, limit: nat) {
    && |Pending(s.store, i)| + Progress(s, i) == bound
    && (i in s.passes ==> |s.passes[i].fetched| == Min(limit, bound)
                          && forall k | 0 <= k < |s.passes[i].fetched| :: s.passes[i].fetched[k].id in s.store.events)
  }

  lemma PublishKeepsPending(s: System, a: Action, i: nat)
    requires Sound(s) && !a.Ack? && !a.Cleanup? && (a.Publish? ==> a.row.source == i)
    ensures Pending(Apply(s, a).store, i) == Pending(s.store, i)
    ensures forall id | id in s.store.events :: id in Apply(s, a).store.events
  {
    hide PassesFit;
    hide TriesFit;
    hide Oldest;
  }

  lemma AckTakesOne(s: System, a: Action, i: nat)
    requires Sound(s) && a.Ack? && a.instance == i && a.dbUp && Enabled(s, a)
    requires s.passes[i].fetched[s.passes[i].processed].id in s.store.events
    ensures |Pending(Apply(s, a).store, i)| == |Pending(s.store, i)| - 1
    ensures Apply(s, a).store.events == s.store.events
    ensures i in Apply(s, a).passes && Apply(s, a).passes[i].processed == s.passes[i].processed + 1
    ensures Apply(s, a).passes[i].fetched == s.passes[i].fetched
  {
    assert PassFits(s, i, s.passes[i]);
    var id := s.passes[i].fetched[s.passes[i].processed].id;
    assert id in Pending(s.store, i);
    assert Pending(Apply(s, a).store, i) == Pending(s.store, i) - {id};
  }

  lemma StepStaysExact(s: System, a: Action, i: nat, bound: nat, limit: nat)
    requires Sound(s) && Exactly(s, i, bound, limit) && Quiet([a], i, limit) && Faultless([a], i)
    ensures Exactly(Apply(s, a), i, if a == End(i) && Enabled(s, a) then Drop(bound, limit) else bound, limit)
  {
    assert [a][0] == a;
    if Enabled(s, a) {
      if a.Ack? && a.instance == i {
        AckTakesOne(s, a, i);
      } else if a.Ack? {
        OthersDoNotInterfere(s, a, i);
        assert Apply(s, a).store.events == s.store.events;
      } else {
        PublishKeepsPending(s, a, i);
        if i in Apply(s, a).passes && i !in s.passes {
          PassAfter(s, a, i);
        }
      }
    }
    hide Sound;
    hide Pending;
    hide Covers;
  }

  lemma ExactAtStart(s: System, i: nat, limit: nat)
    requires i !in s.passes
    ensures Exactly(RunFrom(s, []), i, Drop(|Pending(s.store, i)|, Completed(s, [], i) * limit), limit)
  {
    hide Pending;
  }

  lemma {:induction false} RunStaysExact(s: System, acts: seq<Action>, i: nat, limit: nat)
    requires Sound(s) && i !in s.passes && Quiet(acts, i, limit) && Faultless(acts, i)
    ensures Exactly(RunFrom(s, acts), i, Drop(|Pending(s.store, i)|, Completed(s, acts, i) * limit), limit)
  {
    hide *;
    if acts == [] {
      ExactAtStart(s, i, limit);
    } else {
      var before, a := acts[..|acts| - 1], acts[|acts| - 1];
      var n, pending := Completed(s, before, i), |Pending(s.store, i)|;
      SplitLast(s, acts, i, limit);
      RunStaysExact(s, before, i, limit);
      RunKeepsSound(s, before);
      StepStaysExact(RunFrom(s, before), a, i, Drop(pending, n * limit), limit);
      DropMore(pending, n, limit);
    }
  }

  // In a run without failures and cleanups that ends between two passes, `n` passes have drained exactly
  // min(n * limit, backlog) events.
  lemma BacklogDrainsExactly(s: System, acts: seq<Action>, i: nat, limit: nat)
    requires Sound(s) && i !in s.passes && Quiet(acts, i, limit) && Faultless(acts, i)
    requires i !in RunFrom(s, acts).passes
    ensures |Pending(RunFrom(s, acts).store, i)| == Drop(|Pending(s.store, i)|, Completed(s, acts, i) * limit)
  {
    RunStaysExact(s, acts, i, limit);
  }

  // ------------------------------------------------------------------ such runs exist

  lemma {:induction false} CompletedConcat(s: System, a: seq<Action>, b: seq<Action>, i: nat)
    ensures Completed(s, a + b, i) == Completed(s, a, i) + Completed(RunFrom(s, a), b, i)
  {
    if b == [] {
      assert a + b == a;
    } else {
      var k := |b| - 1;
      CompletedConcat(s, a, b[..k], i);
      RunFromConcat(s, a, b[..k]);
      hide RunFrom;
      hide Enabled;
      assert (a + b)[..|a + b| - 1] == a + b[..k];
    }
  }

  lemma {:induction false} NoneCompleted(s: System, acts: seq<Action>, i: nat)
    requires forall k | 0 <= k < |acts| :: acts[k] != End(i)
    ensures Completed(s, acts, i) == 0
  {
    if acts != [] {
      assert forall k | 0 <= k < |acts| - 1 :: acts[..|acts| - 1][k] == acts[k];
      NoneCompleted(s, acts[..|acts| - 1], i);
    }
  }

  lemma {:induction false} RowActionsAre(i: nat, rows: seq<Row>, reached: nat -> bool, dbUp: nat -> bool, n: nat)
    requires n <= |rows| && forall k | 0 <= k < n :: dbUp(rows[k].id)
    ensures forall a | a in RowActions(i, rows, reached, dbUp, n) ::
              (a.Attempt? || (a.Ack? && a.dbUp)) && a.instance == i
  {
    if n > 0 {
      RowActionsAre(i, rows, reached, dbUp, n - 1);
    }
  }

  // Everything a whole pass does before its end.
  function Opening(i: nat, limit: nat, rows: seq<Row>, reached: nat -> bool, dbUp: nat -> bool): seq<Action> {
    [Begin(i, limit, rows)] + RowActions(i, rows, reached, dbUp, |rows|)
  }

  lemma OpeningActions(i: nat, limit: nat, rows: seq<Row>, reached: nat -> bool, dbUp: nat -> bool)
    requires StopsAt(rows, dbUp, |rows|)
    ensures var acts := Opening(i, limit, rows, reached, dbUp);
            && PassOf(i, limit, rows, reached, dbUp, |rows|) == acts + [End(i)]
            && forall k | 0 <= k < |acts| ::
                 acts[k] == Begin(i, limit, rows) || acts[k].Attempt? || (acts[k].Ack? && acts[k].dbUp)
  {
    RowActionsAre(i, rows, reached, dbUp, |rows|);
    var acts := Opening(i, limit, rows, reached, dbUp);
    forall k | 0 <= k < |acts|
      ensures acts[k] == Begin(i, limit, rows) || acts[k].Attempt? || (acts[k].Ack? && acts[k].dbUp)
    {
      assert k > 0 ==> acts[k] in RowActions(i, rows, reached, dbUp, |rows|);
    }
    hide RowActions;
  }

  lemma OpeningReachesEnd(s: System, i: nat, limit: nat, rows: seq<Row>, reached: nat -> bool, dbUp: nat -> bool)
    requires Enabled(s, Begin(i, limit, rows)) && StopsAt(rows, dbUp, |rows|)
    ensures Enabled(RunFrom(s, Opening(i, limit, rows, reached, dbUp)), End(i))
  {
    var s1 := PassStarts(s, i, limit, rows, reached, dbUp, |rows|);
    hide RowActions;
    hide RunFrom;
    hide AckedBy;
    hide TriesOn;
  }

  lemma WholePassCounts(s: System, i: nat, limit: nat, rows: seq<Row>, reached: nat -> bool, dbUp: nat -> bool)
    requires Enabled(s, Begin(i, limit, rows)) && StopsAt(rows, dbUp, |rows|)
    ensures Completed(s, PassOf(i, limit, rows, reached, dbUp, |rows|), i) == 1
    ensures Quiet(PassOf(i, limit, rows, reached, dbUp, |rows|), i, limit)
    ensures Faultless(PassOf(i, limit, rows, reached, dbUp, |rows|), i)
  {
    OpeningActions(i, limit, rows, reached, dbUp);
    OpeningReachesEnd(s, i, limit, rows, reached, dbUp);
    hide Opening;
    hide PassOf;
    hide RunFrom;
    hide Enabled;
    var acts := Opening(i, limit, rows, reached, dbUp);
    NoneCompleted(s, acts, i);
    assert (acts + [End(i)])[..|acts|] == acts;
  }

  lemma QuietConcat(a: seq<Action>, b: seq<Action>, i: nat, limit: nat)
    requires Quiet(a, i, limit) && Quiet(b, i, limit) && Faultless(a, i) && Faultless(b, i)
    ensures Quiet(a + b, i, limit) && Faultless(a + b, i)
  {
  }

  // From any sound state between two passes, any number of passes can follow without a failure.
  lemma {:induction false} DrainingRun(s: System, i: nat, limit: nat, n: nat) returns (acts: seq<Action>)
    requires Sound(s) && i !in s.passes
    ensures Quiet(acts, i, limit) && Faultless(acts, i)
    ensures Completed(s, acts, i) == n && i !in RunFrom(s, acts).passes
  {
    if n == 0 {
      acts := [];
    } else {
      var first := DrainingRun(s, i, limit, n - 1);
      RunKeepsSound(s, first);
      var mid := RunFrom(s, first);
      var rows := FetchedFrom(mid, i, limit);
      var all := (_: nat) => true;
      WholePass(mid, i, limit, rows, all, all);
      WholePassCounts(mid, i, limit, rows, all, all);
      var last := PassOf(i, limit, rows, all, all, |rows|);
      hide *;
      QuietConcat(first, last, i, limit);
      CompletedConcat(s, first, last, i);
      RunFromConcat(s, first, last);
      acts := first + last;
    }
  }

  lemma FetchedFrom(s: System, i: nat, limit: nat) returns (rows: seq<Row>)
    requires Sound(s) && i !in s.passes
    ensures Enabled(s, Begin(i, limit, rows)) && StopsAt(rows, (_: nat) => true, |rows|)
  {
    rows := FetchExists(s.store.events, Pending(s.store, i), limit);
    hide Oldest;
  }
}
