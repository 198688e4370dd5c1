/**
 Conversation rooms: a mode that is fixed when the room comes into being, a bounded history of its
 latest messages, and the catch-up of a client that reconnects.
 */
module RoomHistory {
  import opened Wrappers

  const ROOM_HISTORY_CAP: nat := 50

  // A message carries the timestamp of its payload, if the payload has one.
  datatype Message = Message(serial: nat, timestamp: Option<string>)

  datatype Room = Room(simplified: bool, history: seq<Message>, lastMessageAt: Option<string>)

  const DEFAULT := Room(false, [], None)

  // Timestamps are compared as texts.
  predicate Before(a: string, b: string) {
    b != [] && (a == [] || a[0] < b[0] || (a[0] == b[0] && Before(a[1..], b[1..])))
  }

  predicate NewerThan(m: Message, since: string) {
    m.timestamp.Some? && Before(since, m.timestamp.value)
  }

  // The messages newer than `since`, in order.
  function Newer(ms: seq<Message>, since: string): (r: seq<Message>)
    ensures |r| <= |ms|
  {
    if ms == [] then []
    else
      var last := ms[|ms| - 1];
      Newer(ms[..|ms| - 1], since) + if NewerThan(last, since) then [last] else []
  }

  function Recorded(room: Room, m: Message, now: string): Room {
    Room(room.simplified,
         if room.simplified then room.history else Last(room.history + [m], ROOM_HISTORY_CAP),
         Some(now))
  }

  function Missed(room: Room, since: Option<string>): seq<Message> {
    if since.None? then [] else Newer(room.history, since.value)
  }

  // ------------------------------------------------------------------ the table of rooms

  class RoomTable {
    var rooms: map<string, Room>

    constructor ()
      ensures rooms == map[]
    {
      rooms := map[];
    }

    method EnsureRoom(id: string, simplified: bool) returns (mode: bool)
      modifies this
      ensures rooms == Opened(old(rooms), id, simplified) && mode == rooms[id].simplified
      ensures id in old(rooms) ==> rooms == old(rooms)
      ensures id !in old(rooms) ==> rooms == old(rooms)[id := Room(simplified, [], None)]
    {
      if id !in rooms {
        var room := DEFAULT;
        if simplified {
          room := room.(simplified := true);
        }
        rooms := rooms[id := room];
      }
      mode := rooms[id].simplified;
    }

    method Record(id: string, m: Message, now: string)
      modifies this
      ensures rooms == Opened(old(rooms), id, false)[id := Recorded(Opened(old(rooms), id, false)[id], m, now)]
      ensures rooms.Keys == old(rooms).Keys + {id} && forall d | d in old(rooms) && d != id :: rooms[d] == old(rooms)[d]
      ensures rooms[id].lastMessageAt == Some(now)
      ensures rooms[id].simplified <==> id in old(rooms) && old(rooms)[id].simplified
    {
      var room := if id in rooms then rooms[id] else DEFAULT;
      room := room.(lastMessageAt := Some(now));
      if !room.simplified {
        var history := room.history + [m];
        ghost var all := history;
        while |history| > ROOM_HISTORY_CAP
          invariant |history| <= |all| && history == Last(all, |history|)
          invariant |history| >= ROOM_HISTORY_CAP || history == all
        {
          history := history[1..];
        }
        room := room.(history := history);
      }
      rooms := rooms[id := room];
    }

    method SyncSince(id: string, since: Option<string>) returns (missed: seq<Message>, lastMessageAt: Option<string>)
      ensures id !in rooms ==> missed == [] && lastMessageAt == None
      ensures id in rooms ==> missed == Missed(rooms[id], since) && lastMessageAt == rooms[id].lastMessageAt
      ensures since == None ==> missed == []
      ensures id in rooms && since.Some? ==>
                forall m :: m in missed <==>
                  && m in rooms[id].history && m.timestamp.Some?
                  && exists k: nat :: Exceeds(since.value, m.timestamp.value, k)
    {
      if id !in rooms {
        return [], None;
      }
      missed := [];
      lastMessageAt := rooms[id].lastMessageAt;
      if since.Some? {
        var history := rooms[id].history;
        for i := 0 to |history|
          invariant missed == Newer(history[..i], since.value)
        {
          assert history[..i + 1][..i] == history[..i];
          if NewerThan(history[i], since.value) {
            missed := missed + [history[i]];
          }
        }
        assert history[..|history|] == history;
        forall m {
          NewerAreGreater(history, since.value, m);
        }
        hide Exceeds;
      }
    }
  }

  function Opened(rooms: map<string, Room>, id: string, simplified: bool): (r: map<string, Room>)
    ensures id in r
  {
    if id in rooms then rooms else rooms[id := DEFAULT.(simplified := simplified)]
  }

  // ------------------------------------------------------------------ every run

  // `Touch` is any use that creates a missing room with the default mode.
  datatype Action = Ensure(id: string, simplified: bool) | Touch(id: string) | Say(id: string, m: Message, now: string)

  function Apply(rooms: map<string, Room>, a: Action): map<string, Room> {
    match a
    case Ensure(id, simplified) => Opened(rooms, id, simplified)
    case Touch(id) => Opened(rooms, id, false)
    case Say(id, m, now) => var there := Opened(rooms, id, false); there[id := Recorded(there[id], m, now)]
  }

  function RunFrom(rooms: map<string, Room>, acts: seq<Action>): map<string, Room> {
    if acts == [] then rooms else Apply(RunFrom(rooms, acts[..|acts| - 1]), acts[|acts| - 1])
  }

  function Run(acts: seq<Action>): map<string, Room> {
    RunFrom(map[], acts)
  }

  // Everything ever said in a room.
  function Said(acts: seq<Action>, id: string): seq<Message> {
    if acts == [] then []
    else
      var last := acts[|acts| - 1];
      Said(acts[..|acts| - 1], id) + if last.Say? && last.id == id then [last.m] else []
  }

  // The room's mode is the one asked for by the first action that names the room.
  function FirstMode(acts: seq<Action>, id: string): Option<bool> {
    if acts == [] then None
    else
      var earlier, last := FirstMode(acts[..|acts| - 1], id), acts[|acts| - 1];
      if earlier.Some? then earlier
      else if last.id != id then None
      else Some(last.Ensure? && last.simplified)
  }

  lemma LastOfLast<T>(s: seq<T>, x: T, n: nat)
    requires n > 0
    ensures Last(Last(s, n) + [x], n) == Last(s + [x], n)
  {
  }

  // A full room holds exactly the last fifty messages said in it, a simplified room none.
  lemma {:induction false} HistoryIsLastFifty(acts: seq<Action>, id: string)
    ensures id in Run(acts) <==> FirstMode(acts, id).Some?
    ensures id !in Run(acts) ==> Said(acts, id) == []
    ensures id in Run(acts) ==>
              && Run(acts)[id].simplified == FirstMode(acts, id).value
              && Run(acts)[id].history
                 == (if Run(acts)[id].simplified then [] else Last(Said(acts, id), ROOM_HISTORY_CAP))
  {
    if acts != [] {
      var before, a := acts[..|acts| - 1], acts[|acts| - 1];
      HistoryIsLastFifty(before, id);
      if a.Say? && a.id == id {
        LastOfLast(Said(before, id), a.m, ROOM_HISTORY_CAP);
      } else {
        assert Said(acts, id) == Said(before, id);
      }
      hide Last;
      assert Run(acts) == Apply(Run(before), a);
    }
  }

  // When the latest message was said, if any was.
  function LatestSaid(acts: seq<Action>, id: string): Option<string> {
    if acts == [] then None
    else
      var last := acts[|acts| - 1];
      if last.Say? && last.id == id then Some(last.now) else LatestSaid(acts[..|acts| - 1], id)
  }

  // Every room, simplified or not, knows when its latest message was said.
  lemma {:induction false} LastMessageIsLatest(acts: seq<Action>, id: string)
    ensures id in Run(acts) ==> Run(acts)[id].lastMessageAt == LatestSaid(acts, id)
    ensures id !in Run(acts) ==> LatestSaid(acts, id) == None
  {
    if acts != [] {
      var before, a := acts[..|acts| - 1], acts[|acts| - 1];
      LastMessageIsLatest(before, id);
      assert Run(acts) == Apply(Run(before), a);
      hide Last;
    }
  }

  // The mode of a room never changes again.
  lemma {:induction false} ModeIsFixed(acts: seq<Action>, more: seq<Action>, id: string)
    requires id in Run(acts)
    ensures id in Run(acts + more) && Run(acts + more)[id].simplified == Run(acts)[id].simplified
  {
    if more == [] {
      assert acts + more == acts;
    } else {
      var earlier := more[..|more| - 1];
      ModeIsFixed(acts, earlier, id);
      assert (acts + more)[..|acts + more| - 1] == acts + earlier;
      assert Run(acts + more) == Apply(Run(acts + earlier), more[|more| - 1]);
    }
  }

  // ------------------------------------------------------------------ catching up

  lemma {:induction false} NewerConcat(a: seq<Message>, b: seq<Message>, since: string)
    ensures Newer(a + b, since) == Newer(a, since) + Newer(b, since)
  {
    if b == [] {
      assert a + b == a;
    } else {
      NewerConcat(a, b[..|b| - 1], since);
      assert (a + b)[..|a + b| - 1] == a + b[..|b| - 1];
    }
  }

  lemma {:induction false} NoneNewer(ms: seq<Message>, since: string)
    ensures Newer(ms, since) == [] <==> forall i | 0 <= i < |ms| :: !NewerThan(ms[i], since)
  {
    if ms != [] {
      var front := ms[..|ms| - 1];
      NoneNewer(front, since);
      assert forall i | 0 <= i < |ms| - 1 :: front[i] == ms[i];
    }
  }

  lemma {:induction false} AllNewer(ms: seq<Message>, since: string)
    requires forall i | 0 <= i < |ms| :: NewerThan(ms[i], since)
    ensures |Newer(ms, since)| == |ms|
  {
    if ms != [] {
      AllNewer(ms[..|ms| - 1], since);
    }
  }

  lemma {:induction false} EveryNewer(ms: seq<Message>, since: string)
    requires forall i | 0 <= i < |ms| :: NewerThan(ms[i], since)
    ensures Newer(ms, since) == ms
  {
    if ms != [] {
      EveryNewer(ms[..|ms| - 1], since);
      assert ms == ms[..|ms| - 1] + [ms[|ms| - 1]];
    }
  }

  lemma {:induction false} NewerMembers(ms: seq<Message>, since: string)
    ensures forall m | m in Newer(ms, since) :: NewerThan(m, since)
  {
    if ms != [] {
      NewerMembers(ms[..|ms| - 1], since);
      hide NewerThan;
    }
  }

  // From where on a full room still holds the messages.
  function FirstKept(said: seq<Message>): nat {
    |said| - |Last(said, ROOM_HISTORY_CAP)|
  }

  function Dropped(said: seq<Message>): seq<Message> {
    said[..FirstKept(said)]
  }

  lemma DroppedAndKept(said: seq<Message>)
    ensures said == Dropped(said) + Last(said, ROOM_HISTORY_CAP)
  {
  }

  // The catch-up is complete exactly if no message that fell out of the history is newer than `since`.
  lemma SyncIsComplete(acts: seq<Action>, id: string, since: string)
    requires id in Run(acts) && !Run(acts)[id].simplified
    ensures Missed(Run(acts)[id], Some(since)) == Newer(Said(acts, id), since)
       <==> forall m | m in Dropped(Said(acts, id)) :: !NewerThan(m, since)
  {
    hide Run;
    hide Said;
    hide Newer;
    hide NewerThan;
    hide Dropped;
    HistoryIsLastFifty(acts, id);
    var said := Said(acts, id);
    var kept := Last(said, ROOM_HISTORY_CAP);
    DroppedAndKept(said);
    NewerConcat(Dropped(said), kept, since);
    NoneNewer(Dropped(said), since);
    SuffixOnly(Newer(Dropped(said), since), Newer(kept, since));
    ElementWise(Dropped(said), since);
  }

  lemma ElementWise(ms: seq<Message>, since: string)
    ensures (forall i | 0 <= i < |ms| :: !NewerThan(ms[i], since)) <==> forall m | m in ms :: !NewerThan(m, since)
  {
    hide NewerThan;
  }

  lemma SuffixOnly<T>(a: seq<T>, b: seq<T>)
    ensures a + b == b <==> a == []
  {
    assert a + b == b ==> |a + b| == |b|;
  }

  ghost predicate InTimeOrder(ms: seq<Message>) {
    && (forall i | 0 <= i < |ms| :: ms[i].timestamp.Some?)
    && (forall i, j | 0 <= i < j < |ms| :: !Before(ms[j].timestamp.value, ms[i].timestamp.value))
  }

  // Timestamps are totally ordered.
  lemma {:induction false} BeforeIsTotal(a: string, b: string)
    ensures a == b ==> !Before(a, b)
    ensures a != b ==> Before(a, b) != Before(b, a)
  {
    if a != [] && b != [] && a[0] == b[0] {
      BeforeIsTotal(a[1..], b[1..]);
      assert a == [a[0]] + a[1..] && b == [b[0]] + b[1..];
    }
  }

  // `b` continues `a` at position `k`, or has the greater character there.
  ghost predicate Exceeds(a: string, b: string, k: nat) {
    k <= |a| && k < |b| && a[..k] == b[..k] && (k == |a| || a[k] < b[k])
  }

  // The order is that of dictionaries: the first difference decides, and a text comes before its continuations.
  lemma {:induction false} BeforeIsByFirstDifference(a: string, b: string)
    ensures Before(a, b) <==> exists k: nat :: Exceeds(a, b, k)
  {
    if a == [] || b == [] || a[0] != b[0] {
      assert Before(a, b) ==> Exceeds(a, b, 0);
      assert forall k: nat | 0 < k && Exceeds(a, b, k) :: a[..k][0] == b[..k][0];
    } else {
      BeforeIsByFirstDifference(a[1..], b[1..]);
      if k: nat :| Exceeds(a[1..], b[1..], k) {
        assert a[..k + 1] == [a[0]] + a[1..][..k] && b[..k + 1] == [b[0]] + b[1..][..k];
        assert Exceeds(a, b, k + 1);
      }
      if k: nat :| Exceeds(a, b, k) {
        assert k > 0;
        assert a[1..][..k - 1] == a[..k][1..] && b[1..][..k - 1] == b[..k][1..];
        assert Exceeds(a[1..], b[1..], k - 1);
      }
    }
  }

  // Without `since` nothing is missed; with it, exactly the kept messages whose timestamp continues it, or has the
  // greater character where the two first differ.
  lemma {:induction false} NewerAreGreater(ms: seq<Message>, since: string, m: Message)
    ensures m in Newer(ms, since) <==>
            m in ms && m.timestamp.Some? && exists k: nat :: Exceeds(since, m.timestamp.value, k)
  {
    if ms != [] {
      var last := ms[|ms| - 1];
      NewerAreGreater(ms[..|ms| - 1], since, m);
      assert m in ms <==> m in ms[..|ms| - 1] || m == last;
      if last.timestamp.Some? {
        BeforeIsByFirstDifference(since, last.timestamp.value);
      }
      hide Exceeds;
      hide Before;
    }
  }

  lemma MissedAreGreater(room: Room, since: Option<string>, m: Message)
    ensures m in Missed(room, since) <==>
              && m in room.history && since.Some? && m.timestamp.Some?
              && exists k: nat :: Exceeds(since.value, m.timestamp.value, k)
  {
    if since.Some? {
      NewerAreGreater(room.history, since.value, m);
    }
    hide Exceeds;
    hide Newer;
  }

  // If since < a and not b < a then since < b.
  lemma {:induction false} BeforeCarries(since: string, a: string, b: string)
    requires Before(since, a) && !Before(b, a)
    ensures Before(since, b)
  {
    if since != [] && b != [] && since[0] == a[0] == b[0] {
      BeforeCarries(since[1..], a[1..], b[1..]);
    }
  }

  lemma NewerFromThereOn(said: seq<Message>, k: nat, since: string)
    requires InTimeOrder(said) && k < |said| && NewerThan(said[k], since)
    ensures forall i | k <= i < |said| :: NewerThan(said[i], since)
  {
    hide Before;
    forall i | k < i < |said| ensures NewerThan(said[i], since) {
      BeforeCarries(since, said[k].timestamp.value, said[i].timestamp.value);
    }
  }

  // With timestamps that never go back, the catch-up is complete exactly if at most fifty messages are newer.
  lemma SyncCompleteForFifty(acts: seq<Action>, id: string, since: string)
    requires id in Run(acts) && !Run(acts)[id].simplified && InTimeOrder(Said(acts, id))
    ensures Missed(Run(acts)[id], Some(since)) == Newer(Said(acts, id), since)
       <==> |Newer(Said(acts, id), since)| <= ROOM_HISTORY_CAP
  {
    SyncIsComplete(acts, id, since);
    HistoryIsLastFifty(acts, id);
    DroppedNewerMeansMany(Said(acts, id), since);
    hide Run;
    hide Said;
    hide NewerThan;
  }

  lemma DroppedNewerMeansMany(said: seq<Message>, since: string)
    requires InTimeOrder(said)
    ensures (exists m | m in Dropped(said) :: NewerThan(m, since)) ==> |Newer(said, since)| > ROOM_HISTORY_CAP
  {
    hide NewerThan;
    hide Newer;
    hide InTimeOrder;
    if m :| m in Dropped(said) && NewerThan(m, since) {
      var i :| 0 <= i < |Dropped(said)| && Dropped(said)[i] == m;
      var late := said[i..];
      NewerFromThereOn(said, i, since);
      AllNewer(late, since);
      assert said == said[..i] + late;
      NewerConcat(said[..i], late, since);
    }
  }

  // Fifty-one newer messages: the oldest of them is not delivered.
  lemma SyncMissesTheFiftyFirst(said: seq<Message>, since: string)
    requires |said| == ROOM_HISTORY_CAP + 1 && forall i | 0 <= i < |said| :: NewerThan(said[i], since)
    ensures Newer(Last(said, ROOM_HISTORY_CAP), since) == said[1..] != Newer(said, since)
  {
    var kept := Last(said, ROOM_HISTORY_CAP);
    assert kept == said[1..];
    EveryNewer(kept, since);
    EveryNewer(said, since);
    assert |said[1..]| < |said|;
  }

  // ------------------------------------------------------------------ what a client has seen

  lemma NewerOfKept(said: seq<Message>, k: nat, since: string)
    requires FirstKept(said) <= k + 1 <= |said|
    ensures Newer(Last(said, ROOM_HISTORY_CAP), since)
         == Newer(said[FirstKept(said)..k + 1], since) + Newer(said[k + 1..], since)
  {
    assert Last(said, ROOM_HISTORY_CAP) == said[FirstKept(said)..k + 1] + said[k + 1..];
    NewerConcat(said[FirstKept(said)..k + 1], said[k + 1..], since);
  }

  lemma CatchUpNeeds(said: seq<Message>, k: nat, since: string)
    requires k < |said| && Newer(Last(said, ROOM_HISTORY_CAP), since) == said[k + 1..]
    ensures |said| - (k + 1) <= ROOM_HISTORY_CAP
    ensures forall i | k < i < |said| :: NewerThan(said[i], since)
    ensures forall i | FirstKept(said) <= i <= k :: !NewerThan(said[i], since)
  {
    hide Newer;
    hide NewerThan;
    var rest, early := said[k + 1..], said[FirstKept(said)..k + 1];
    NewerMembers(Last(said, ROOM_HISTORY_CAP), since);
    forall i | k < i < |said| ensures NewerThan(said[i], since) {
      assert said[i] == rest[i - (k + 1)];
    }
    NewerOfKept(said, k, since);
    EveryNewer(rest, since);
    SuffixOnly(Newer(early, since), rest);
    NoneNewer(early, since);
    assert forall i | FirstKept(said) <= i <= k :: said[i] == early[i - FirstKept(said)];
  }

  lemma CatchUpSuffices(said: seq<Message>, k: nat, since: string)
    requires k < |said| <= k + 1 + ROOM_HISTORY_CAP
    requires forall i | k < i < |said| :: NewerThan(said[i], since)
    requires forall i | FirstKept(said) <= i <= k :: !NewerThan(said[i], since)
    ensures Newer(Last(said, ROOM_HISTORY_CAP), since) == said[k + 1..]
  {
    hide Newer;
    hide NewerThan;
    var rest, early := said[k + 1..], said[FirstKept(said)..k + 1];
    NewerOfKept(said, k, since);
    assert forall i | 0 <= i < |early| :: early[i] == said[FirstKept(said) + i];
    NoneNewer(early, since);
    assert forall i | 0 <= i < |rest| :: rest[i] == said[k + 1 + i];
    EveryNewer(rest, since);
  }

  // For any timestamps: a client that has seen everything up to message `k` gets exactly the rest if and only if the
  // rest is at most fifty messages, all of them newer than `since`, and none that is still kept from before is.
  lemma CatchUpIsExact(acts: seq<Action>, id: string, k: nat, since: string)
    requires id in Run(acts) && !Run(acts)[id].simplified && k < |Said(acts, id)|
    ensures var said := Said(acts, id);
            Missed(Run(acts)[id], Some(since)) == said[k + 1..] <==>
              && |said| - (k + 1) <= ROOM_HISTORY_CAP
              && (forall i | k < i < |said| :: NewerThan(said[i], since))
              && (forall i | FirstKept(said) <= i <= k :: !NewerThan(said[i], since))
  {
    HistoryIsLastFifty(acts, id);
    hide Run;
    hide Said;
    hide Newer;
    hide NewerThan;
    hide FirstKept;
    var said := Said(acts, id);
    if Newer(Last(said, ROOM_HISTORY_CAP), since) == said[k + 1..] {
      CatchUpNeeds(said, k, since);
    } else if |said| - (k + 1) <= ROOM_HISTORY_CAP && (forall i | k < i < |said| :: NewerThan(said[i], since)) {
      if forall i | FirstKept(said) <= i <= k :: !NewerThan(said[i], since) {
        CatchUpSuffices(said, k, since);
      }
    }
  }

  lemma NothingEarlierIsNewer(said: seq<Message>, k: nat)
    requires InTimeOrder(said) && k < |said|
    ensures forall i | 0 <= i <= k :: !NewerThan(said[i], said[k].timestamp.value)
  {
    hide Before;
    BeforeIsTotal(said[k].timestamp.value, said[k].timestamp.value);
  }

  // With timestamps that never go back, a client that asks with the timestamp of the last message it has seen gets
  // exactly the rest if and only if that is at most fifty messages and the first of them has a newer timestamp.
  lemma CatchUpAfterSeen(acts: seq<Action>, id: string, k: nat)
    requires id in Run(acts) && !Run(acts)[id].simplified && k < |Said(acts, id)| && InTimeOrder(Said(acts, id))
    ensures var said := Said(acts, id);
            Missed(Run(acts)[id], said[k].timestamp) == said[k + 1..] <==>
              && |said| - (k + 1) <= ROOM_HISTORY_CAP
              && (k + 1 < |said| ==> NewerThan(said[k + 1], said[k].timestamp.value))
  {
    var said := Said(acts, id);
    assert said[k].timestamp == Some(said[k].timestamp.value);
    hide *;
    CatchUpIsExact(acts, id, k, said[k].timestamp.value);
    NothingEarlierIsNewer(said, k);
    if k + 1 < |said| && NewerThan(said[k + 1], said[k].timestamp.value) {
      NewerFromThereOn(said, k + 1, said[k].timestamp.value);
    }
  }

  // Two messages with one timestamp: a client that has seen only the first never gets the second by asking with it.
  lemma TiedMessageIsLost(id: string, a: Message, b: Message, now: string, more: seq<Action>)
    requires a.timestamp.Some? && b.timestamp == a.timestamp
    ensures var acts := [Say(id, a, now)] + [Say(id, b, now)];
            && Said(acts, id) == [a, b]
            && id in Run(acts + more) && b !in Missed(Run(acts + more)[id], a.timestamp)
  {
    var acts := [Say(id, a, now)] + [Say(id, b, now)];
    SaidSnoc([], Say(id, a, now), id);
    SaidSnoc([Say(id, a, now)], Say(id, b, now), id);
    HistoryIsLastFifty(acts, id);
    ModeIsFixed(acts, more, id);
    hide Run;
    BeforeIsTotal(a.timestamp.value, a.timestamp.value);
    NewerMembers(Run(acts + more)[id].history, a.timestamp.value);
    hide Newer;
  }

  lemma SaidSnoc(acts: seq<Action>, a: Action, id: string)
    ensures Said(acts + [a], id) == Said(acts, id) + if a.Say? && a.id == id then [a.m] else []
  {
    assert (acts + [a])[..|acts|] == acts;
  }
}
