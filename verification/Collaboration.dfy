/**
 Live collaboration state: who is looking at which conversation, who is typing, and who is around.
 */
module Collaboration {
  import opened Wrappers

  const VIEWER_CAP: nat := 50
  const TYPING_TTL: nat := 5_000
  const PRESENCE_TTL: nat := 300_000
  const TOP_ACTIVE_CAP: nat := 5

  // `typing` is the expiry of a typing indicator. Times are in milliseconds.
  datatype Viewer = Viewer(joinedAt: nat, lastActivity: nat, typing: Option<nat>)

  datatype Presence = Presence(status: string, expires: nat)

  type Room = map<string, Viewer>
  type Rooms = map<int, Room>
  type Place = (int, string)

  // A walk over viewers reads the clock anew for each of them.
  type Clock = Place -> nat

  function RoomOf(rooms: Rooms, c: int): Room {
    if c in rooms then rooms[c] else map[]
  }

  predicate Full(room: Room, user: string) {
    user !in room && |room| >= VIEWER_CAP
  }

  function Joined(rooms: Rooms, c: int, user: string, now: nat): Rooms {
    var room := RoomOf(rooms, c);
    if user in room then rooms[c := room[user := room[user].(lastActivity := now)]]
    else if Full(room, user) then rooms
    else rooms[c := room[user := Viewer(now, now, None)]]
  }

  function Left(rooms: Rooms, c: int, user: string): Rooms {
    if c !in rooms then rooms
    else if rooms[c] - {user} == map[] then rooms - {c}
    else rooms[c := rooms[c] - {user}]
  }

  // A viewer who only types, or only stops typing, is entered without regard to the capacity.
  function Typed(rooms: Rooms, c: int, user: string, active: bool, now: nat): Rooms {
    var room := RoomOf(rooms, c);
    var v := if user in room then room[user] else Viewer(now, now, None);
    rooms[c := room[user := v.(lastActivity := now, typing := if active then Some(now + TYPING_TTL) else None)]]
  }

  predicate Lapsed(v: Viewer, now: nat) {
    v.typing.Some? && v.typing.value <= now
  }

  predicate IsTyping(v: Viewer, now: nat) {
    v.typing.Some? && v.typing.value > now
  }

  function Cleared(v: Viewer, now: nat): Viewer {
    if Lapsed(v, now) then v.(typing := None) else v
  }

  function ClearedRoom(c: int, room: Room, clock: Clock): Room {
    map u | u in room :: Cleared(room[u], clock((c, u)))
  }

  function ClearedRooms(rooms: Rooms, clock: Clock): Rooms {
    map c | c in rooms :: ClearedRoom(c, rooms[c], clock)
  }

  // The viewers, over all rooms, that satisfy `p` when it is their turn.
  ghost function Where(rooms: Rooms, p: (Viewer, nat) -> bool, clock: Clock): set<Place> {
    set c, u | c in rooms && u in rooms[c] && p(rooms[c][u], clock((c, u))) :: (c, u)
  }

  function UsersWhere(c: int, room: Room, p: (Viewer, nat) -> bool, clock: Clock): set<string> {
    set u | u in room && p(room[u], clock((c, u)))
  }

  ghost function Places(rooms: Rooms): set<Place> {
    set c, u | c in rooms && u in rooms[c] :: (c, u)
  }

  ghost function Typing(rooms: Rooms, clock: Clock): set<Place> {
    Where(rooms, IsTyping, clock)
  }

  ghost function LapsedPlaces(rooms: Rooms, clock: Clock): set<Place> {
    Where(rooms, Lapsed, clock)
  }

  // ------------------------------------------------------------------ the ranking

  type Rank = (int, nat)

  // More viewers first, then the smaller id.
  predicate Ahead(a: Rank, b: Rank) {
    a.1 > b.1 || (a.1 == b.1 && a.0 < b.0)
  }

  ghost predicate Ordered(ranked: seq<Rank>) {
    forall i, j | 0 <= i < j < |ranked| :: Ahead(ranked[i], ranked[j])
  }

  function Ranked(r: Rank, ranked: seq<Rank>): seq<Rank> {
    if ranked == [] then [r]
    else if Ahead(r, ranked[0]) then [r] + ranked
    else [ranked[0]] + Ranked(r, ranked[1..])
  }

  lemma {:induction false} RankedKeepsOrder(r: Rank, ranked: seq<Rank>)
    requires Ordered(ranked) && forall q | q in ranked :: q.0 != r.0
    ensures Ordered(Ranked(r, ranked))
    ensures forall q :: q in Ranked(r, ranked) <==> q == r || q in ranked
    ensures |Ranked(r, ranked)| == |ranked| + 1
  {
    if ranked != [] && !Ahead(r, ranked[0]) {
      RankedKeepsOrder(r, ranked[1..]);
      assert Ahead(ranked[0], r);
      forall q | q in Ranked(r, ranked[1..]) ensures Ahead(ranked[0], q) {
        if q != r {
          assert q in ranked[1..];
        }
      }
    }
  }

  // The `n` most active rooms, best first: no room left out is ahead of one listed.
  ghost predicate MostActive(rooms: Rooms, top: seq<Rank>, n: nat) {
    && Ordered(top)
    && (forall r | r in top :: r.0 in rooms && r.1 == |rooms[r.0]|)
    && |top| == (if |rooms| < n then |rooms| else n)
    && (forall c, r | c in rooms && (c, |rooms[c]|) !in top && r in top :: Ahead(r, (c, |rooms[c]|)))
  }

  // There is only one such list.
  lemma MostActiveIsUnique(rooms: Rooms, a: seq<Rank>, b: seq<Rank>, n: nat)
    requires MostActive(rooms, a, n) && MostActive(rooms, b, n)
    ensures a == b
  {
    forall i | 0 <= i < |a| ensures a[..i] == b[..i] && a[i] == b[i] {
      SamePlace(rooms, a, b, n, i);
    }
  }

  lemma {:induction false} SamePlace(rooms: Rooms, a: seq<Rank>, b: seq<Rank>, n: nat, i: nat)
    requires MostActive(rooms, a, n) && MostActive(rooms, b, n) && i < |a|
    ensures |b| == |a| && a[..i] == b[..i] && a[i] == b[i]
  {
    if i > 0 {
      SamePlace(rooms, a, b, n, i - 1);
      assert a[..i] == a[..i - 1] + [a[i - 1]];
      assert b[..i] == b[..i - 1] + [b[i - 1]];
    } else {
      assert a[..i] == b[..i];
    }
    NotLater(rooms, a, b, n, i);
    NotLater(rooms, b, a, n, i);
  }

  lemma NotLater(rooms: Rooms, a: seq<Rank>, b: seq<Rank>, n: nat, i: nat)
    requires MostActive(rooms, a, n) && MostActive(rooms, b, n) && i < |a| == |b| && a[..i] == b[..i]
    ensures !Ahead(a[i], b[i])
  {
    forall j | 0 <= j < |b| ensures b[j] == a[i] ==> !Ahead(a[i], b[i]) {
      assert j < i ==> b[j] == b[..i][j] == a[..i][j] == a[j];
    }
    var c := a[i].0;
    assert a[i] in a && b[i] in b && a[i] == (c, |rooms[c]|);
    assert a[i] !in b ==> Ahead(b[i], a[i]);
  }

  // ------------------------------------------------------------------ the state object

  class CollabState {
    var rooms: Rooms
    var presence: map<string, Presence>

    constructor ()
      ensures rooms == map[] && presence == map[]
    {
      rooms, presence := map[], map[];
    }

    method Join(c: int, user: string, now: nat) returns (ok: bool)
      modifies this`rooms
      ensures ok <==> !Full(RoomOf(old(rooms), c), user)
      ensures rooms == Joined(old(rooms), c, user, now)
    {
      var room := map[];
      if c in rooms {
        room := rooms[c];
      } else {
        rooms := rooms[c := room];
      }
      if user in room {
        room := room[user := room[user].(lastActivity := now)];
        rooms := rooms[c := room];
        return true;
      }
      if |room| >= VIEWER_CAP {
        return false;
      }
      rooms := rooms[c := room[user := Viewer(now, now, None)]];
      ok := true;
    }

    method Leave(c: int, user: string)
      modifies this`rooms
      ensures rooms == Left(old(rooms), c, user)
    {
      if c in rooms {
        rooms := rooms[c := rooms[c] - {user}];
        if rooms[c] == map[] {
          rooms := rooms - {c};
        }
      }
    }

    method SetTyping(c: int, user: string, active: bool, now: nat)
      modifies this`rooms
      ensures rooms == Typed(old(rooms), c, user, active, now)
    {
      var room := if c in rooms then rooms[c] else map[];
      if user !in room {
        room := room[user := Viewer(now, now, None)];
      }
      var viewer := room[user];
      viewer := viewer.(lastActivity := now);
      viewer := viewer.(typing := if active then Some(now + TYPING_TTL) else None);
      room := room[user := viewer];
      rooms := rooms[c := room];
      assert room == Typed(old(rooms), c, user, active, now)[c];
    }

    method SetPresence(user: string, status: string, now: nat)
      modifies this`presence
      ensures presence == old(presence)[user := Presence(status, now + PRESENCE_TTL)]
    {
      presence := presence[user := Presence(status, now + PRESENCE_TTL)];
    }

    method Stats(clock: Clock) returns (totalViewers: nat, totalTyping: nat, totalRooms: nat, top: seq<Rank>)
      ensures totalViewers == |Places(rooms)|
      ensures totalTyping == |Typing(rooms, clock)|
      ensures totalRooms == |rooms|
      ensures MostActive(rooms, top, TOP_ACTIVE_CAP)
    {
      totalRooms := |rooms|;
      var ranked;
      totalViewers, totalTyping, ranked := Counted(rooms, clock);
      top := if |ranked| <= TOP_ACTIVE_CAP then ranked else ranked[..TOP_ACTIVE_CAP];
      TopOfRanking(rooms, ranked, top);
    }

    method Cleanup(clock: Clock, later: string -> nat) returns (cleaned: nat)
      modifies this
      ensures rooms == ClearedRooms(old(rooms), clock)
      ensures presence == map u | u in old(presence) && old(presence)[u].expires > later(u) :: old(presence)[u]
      ensures cleaned == |LapsedPlaces(old(rooms), clock)| + (|old(presence)| - |presence|)
    {
      rooms, cleaned := ClearLapsed(rooms, clock);
      var held := |presence|;
      presence := map u | u in presence && presence[u].expires > later(u) :: presence[u];
      SmallerSet(presence.Keys, old(presence).Keys);
      cleaned := cleaned + (held - |presence|);
    }
  }

  // One walk over the rooms, in no particular order: both totals and the full ranking.
  method Counted(rooms: Rooms, clock: Clock) returns (viewers: nat, typing: nat, ranked: seq<Rank>)
    ensures viewers == |Places(rooms)|
    ensures typing == |Typing(rooms, clock)|
    ensures IsRanking(rooms, ranked)
  {
    hide *;
    viewers, typing, ranked := 0, 0, [];
    var todo := rooms.Keys;
    ghost var done: Rooms := map[];
    NothingCounted(clock);
    while todo != {}
      invariant todo <= rooms.Keys && done == rooms - todo
      invariant viewers == |Places(done)| && typing == |Typing(done, clock)| && IsRanking(done, ranked)
      decreases todo
    {
      SomeRoom(todo);
      var c :| c in todo;
      var room := rooms[c];
      WalkStep(rooms, todo, c);
      CountedRoom(done, c, room, clock);
      RankingGrows(done, c, room, ranked);
      viewers := viewers + |room|;
      typing := typing + |UsersWhere(c, room, IsTyping, clock)|;
      ranked := Ranked((c, |room|), ranked);
      todo, done := todo - {c}, done[c := room];
    }
    assert done == rooms;
  }

  // One walk over all viewers; the typing indicators that have run out are taken off and counted.
  method ClearLapsed(before: Rooms, clock: Clock) returns (rooms: Rooms, cleaned: nat)
    ensures rooms == ClearedRooms(before, clock)
    ensures cleaned == |LapsedPlaces(before, clock)|
  {
    hide *;
    rooms, cleaned := before, 0;
    var todo := before.Keys;
    ghost var done: Rooms := map[];
    NothingLapsed(before, clock);
    while todo != {}
      invariant todo <= before.Keys && done == before - todo
      invariant rooms == before + ClearedRooms(done, clock)
      invariant cleaned == |LapsedPlaces(done, clock)|
      decreases todo
    {
      SomeRoom(todo);
      var c :| c in todo;
      WalkStep(before, todo, c);
      LapsedRoom(done, c, before[c], clock);
      ClearedGrows(before, done, c, before[c], clock);
      cleaned := cleaned + |UsersWhere(c, before[c], Lapsed, clock)|;
      rooms := rooms[c := ClearedRoom(c, before[c], clock)];
      todo, done := todo - {c}, done[c := before[c]];
    }
    assert done == before;
    ClearedAll(before, clock);
  }

  lemma SomeRoom(todo: set<int>)
    requires todo != {}
    ensures exists c :: c in todo
  {
    assert (forall c :: c !in todo) ==> todo == {};
  }

  lemma WalkStep(rooms: Rooms, todo: set<int>, c: int)
    requires c in todo && todo <= rooms.Keys
    ensures rooms - (todo - {c}) == (rooms - todo)[c := rooms[c]] && c !in rooms - todo
  {
  }

  lemma ClearedGrows(before: Rooms, done: Rooms, c: int, room: Room, clock: Clock)
    ensures before + ClearedRooms(done[c := room], clock) ==
              (before + ClearedRooms(done, clock))[c := ClearedRoom(c, room, clock)]
  {
    hide ClearedRoom;
  }

  lemma ClearedAll(before: Rooms, clock: Clock)
    ensures before + ClearedRooms(before, clock) == ClearedRooms(before, clock)
  {
    hide ClearedRoom;
  }

  lemma NothingCounted(clock: Clock)
    ensures Places(map[]) == {} && Typing(map[], clock) == {} && IsRanking(map[], [])
  {
  }

  lemma NothingLapsed(rooms: Rooms, clock: Clock)
    ensures LapsedPlaces(map[], clock) == {} && ClearedRooms(map[], clock) == map[] && rooms + map[] == rooms
  {
  }

  lemma {:induction false} PairedCount(c: int, users: set<string>)
    ensures |set u | u in users :: (c, u)| == |users|
  {
    var pairs := set u | u in users :: (c, u);
    if users == {} {
      assert pairs == {};
    } else {
      var u :| u in users;
      var fewer := set w | w in users - {u} :: (c, w);
      PairedCount(c, users - {u});
      assert pairs == fewer + {(c, u)} && (c, u) !in fewer;
    }
  }

  lemma WhereSplits(done: Rooms, c: int, room: Room, p: (Viewer, nat) -> bool, clock: Clock)
    requires c !in done
    ensures var here := set u | u in UsersWhere(c, room, p, clock) :: (c, u);
            Where(done[c := room], p, clock) == Where(done, p, clock) + here && Where(done, p, clock) !! here
  {
    var here := set u | u in UsersWhere(c, room, p, clock) :: (c, u);
    var all := Where(done[c := room], p, clock);
    forall x | x in all ensures x in Where(done, p, clock) + here {
      assert x.0 != c ==> done[c := room][x.0] == done[x.0];
    }
    forall x | x in Where(done, p, clock) ensures x in all && x !in here {
      assert done[c := room][x.0] == done[x.0];
    }
  }

  lemma WhereGrows(done: Rooms, c: int, room: Room, p: (Viewer, nat) -> bool, clock: Clock)
    requires c !in done
    ensures |Where(done[c := room], p, clock)| == |Where(done, p, clock)| + |UsersWhere(c, room, p, clock)|
  {
    hide *;
    WhereSplits(done, c, room, p, clock);
    PairedCount(c, UsersWhere(c, room, p, clock));
  }

  lemma PlacesAreAll(rooms: Rooms, c: int, room: Room, clock: Clock)
    ensures Places(rooms) == Where(rooms, (v, now) => true, clock)
    ensures UsersWhere(c, room, (v, now) => true, clock) == room.Keys
  {
  }

  lemma CountedRoom(done: Rooms, c: int, room: Room, clock: Clock)
    requires c !in done
    ensures |Places(done[c := room])| == |Places(done)| + |room|
    ensures |Typing(done[c := room], clock)| == |Typing(done, clock)| + |UsersWhere(c, room, IsTyping, clock)|
  {
    hide Where;
    hide UsersWhere;
    hide Places;
    PlacesAreAll(done, c, room, clock);
    PlacesAreAll(done[c := room], c, room, clock);
    WhereGrows(done, c, room, (v, now) => true, clock);
    WhereGrows(done, c, room, IsTyping, clock);
  }

  lemma LapsedRoom(done: Rooms, c: int, room: Room, clock: Clock)
    requires c !in done
    ensures |LapsedPlaces(done[c := room], clock)| == |LapsedPlaces(done, clock)| + |UsersWhere(c, room, Lapsed, clock)|
  {
    hide Where;
    hide UsersWhere;
    WhereGrows(done, c, room, Lapsed, clock);
  }

  ghost predicate IsRanking(rooms: Rooms, ranked: seq<Rank>) {
    && Ordered(ranked)
    && |ranked| == |rooms|
    && forall r :: r in ranked <==> r.0 in rooms && r.1 == |rooms[r.0]|
  }

  lemma RankingGrows(done: Rooms, c: int, room: Room, ranked: seq<Rank>)
    requires c !in done && IsRanking(done, ranked)
    ensures IsRanking(done[c := room], Ranked((c, |room|), ranked))
  {
    hide Ordered;
    hide Ranked;
    RankedKeepsOrder((c, |room|), ranked);
    assert done[c := room].Keys == done.Keys + {c};
    assert |done[c := room].Keys| == |done.Keys| + 1;
  }

  lemma TopOfRanking(rooms: Rooms, ranked: seq<Rank>, top: seq<Rank>)
    requires IsRanking(rooms, ranked) && top <= ranked
    requires |top| == if |ranked| < TOP_ACTIVE_CAP then |ranked| else TOP_ACTIVE_CAP
    ensures MostActive(rooms, top, TOP_ACTIVE_CAP)
  {
    assert top == ranked[..|top|];
    forall k | 0 <= k < |top| ensures ranked[k] in top {
      assert top[k] == ranked[k];
    }
    forall c, r | c in rooms && (c, |rooms[c]|) !in top && r in top ensures Ahead(r, (c, |rooms[c]|)) {
      assert (c, |rooms[c]|) in ranked;
      var j :| 0 <= j < |ranked| && ranked[j] == (c, |rooms[c]|);
      var i :| 0 <= i < |top| && top[i] == r;
      assert ranked[i] == top[i];
    }
  }

  // ------------------------------------------------------------------ every run

  datatype Action =
    | Join(c: int, user: string, now: nat)
    | Leave(c: int, user: string)
    | SetTyping(c: int, user: string, active: bool, now: nat)
    | Cleanup(clock: Clock)

  function Apply(rooms: Rooms, a: Action): Rooms {
    match a
    case Join(c, user, now) => Joined(rooms, c, user, now)
    case Leave(c, user) => Left(rooms, c, user)
    case SetTyping(c, user, active, now) => Typed(rooms, c, user, active, now)
    case Cleanup(clock) => ClearedRooms(rooms, clock)
  }

  function Run(acts: seq<Action>): Rooms {
    if acts == [] then map[] else Apply(Run(acts[..|acts| - 1]), acts[|acts| - 1])
  }

  ghost predicate NoEmptyRoom(rooms: Rooms) {
    forall c | c in rooms :: rooms[c] != map[]
  }

  lemma StepLeavesNoEmptyRoom(rooms: Rooms, a: Action)
    requires NoEmptyRoom(rooms)
    ensures NoEmptyRoom(Apply(rooms, a))
  {
    match a
    case Join(c, user, now) => JoinLeavesNoEmptyRoom(rooms, c, user, now);
    case Leave(c, user) =>
    case SetTyping(c, user, active, now) =>
      assert user in Typed(rooms, c, user, active, now)[c];
    case Cleanup(clock) => CleanupLeavesNoEmptyRoom(rooms, clock);
  }

  lemma JoinLeavesNoEmptyRoom(rooms: Rooms, c: int, user: string, now: nat)
    requires NoEmptyRoom(rooms)
    ensures NoEmptyRoom(Joined(rooms, c, user, now))
  {
    var after := Joined(rooms, c, user, now);
    assert after == rooms || (after == rooms[c := after[c]] && user in after[c]);
  }

  lemma CleanupLeavesNoEmptyRoom(rooms: Rooms, clock: Clock)
    requires NoEmptyRoom(rooms)
    ensures NoEmptyRoom(ClearedRooms(rooms, clock))
  {
    forall c | c in rooms ensures ClearedRooms(rooms, clock)[c] != map[] {
      var u :| u in rooms[c];
      assert u in ClearedRooms(rooms, clock)[c];
    }
  }

  lemma {:induction false} RunsLeaveNoEmptyRoom(acts: seq<Action>)
    ensures NoEmptyRoom(Run(acts))
  {
    if acts != [] {
      RunsLeaveNoEmptyRoom(acts[..|acts| - 1]);
      StepLeavesNoEmptyRoom(Run(acts[..|acts| - 1]), acts[|acts| - 1]);
    }
  }

  // ------------------------------------------------------------------ what an operation does to one room

  // Joining again, or joining a room at or above its capacity, adds nobody; any other join adds one viewer.
  lemma JoinAddsAtMostTheUser(rooms: Rooms, c: int, user: string, now: nat)
    ensures var before, after := RoomOf(rooms, c), RoomOf(Joined(rooms, c, user, now), c);
            && (user in before || |before| >= VIEWER_CAP ==> after.Keys == before.Keys)
            && (user !in before && |before| < VIEWER_CAP ==> after.Keys == before.Keys + {user} && user !in before.Keys)
            && forall d | d != c :: RoomOf(Joined(rooms, c, user, now), d) == RoomOf(rooms, d)
  {
  }

  // What is recorded of who joins: a newcomer comes in without an indicator, if there is room; joining again only
  // refreshes the activity.
  lemma JoinIsExact(rooms: Rooms, c: int, user: string, now: nat)
    ensures var room, after := if c in rooms then rooms[c] else map[], Joined(rooms, c, user, now);
            && (user in room ==>
                  after == rooms[c := room[user := Viewer(room[user].joinedAt, now, room[user].typing)]])
            && (user !in room && |room| < VIEWER_CAP ==> after == rooms[c := room[user := Viewer(now, now, None)]])
            && (user !in room && |room| >= VIEWER_CAP ==> after == rooms)
  {
  }

  // Leaving takes exactly the user out of exactly that room.
  lemma LeaveRemovesOnlyTheUser(rooms: Rooms, c: int, user: string)
    ensures RoomOf(Left(rooms, c, user), c) == RoomOf(rooms, c) - {user}
    ensures forall d | d != c :: RoomOf(Left(rooms, c, user), d) == RoomOf(rooms, d)
  {
  }

  // Whoever types, or stops typing, is in the room afterwards, and nobody else's room changes.
  lemma TypingEntersTheUser(rooms: Rooms, c: int, user: string, active: bool, now: nat)
    ensures RoomOf(Typed(rooms, c, user, active, now), c).Keys == RoomOf(rooms, c).Keys + {user}
    ensures forall d | d != c :: RoomOf(Typed(rooms, c, user, active, now), d) == RoomOf(rooms, d)
  {
  }

  // An indicator shows from the moment it is set for as long as its time to live, and nobody else's changes.
  lemma TypingLasts(rooms: Rooms, c: int, user: string, active: bool, now: nat, later: nat)
    ensures var after := Typed(rooms, c, user, active, now);
            && c in after && user in after[c]
            && (IsTyping(after[c][user], later) <==> active && later < now + TYPING_TTL)
            && after[c][user].lastActivity == now
            && after[c][user].joinedAt == (if user in RoomOf(rooms, c) then RoomOf(rooms, c)[user].joinedAt else now)
            && forall d, u | (d, u) != (c, user) ::
                 (u in RoomOf(after, d) <==> u in RoomOf(rooms, d))
                 && (u in RoomOf(rooms, d) ==> RoomOf(after, d)[u] == RoomOf(rooms, d)[u])
  {
  }

  lemma CleanupKeepsViewers(rooms: Rooms, clock: Clock, c: int)
    ensures RoomOf(ClearedRooms(rooms, clock), c).Keys == RoomOf(rooms, c).Keys
  {
  }

  // A cleanup takes off exactly the indicators whose time has come when it is their turn, and counts them.
  lemma CleanupIsExact(rooms: Rooms, clock: Clock)
    ensures Apply(rooms, Cleanup(clock)) == ClearedRooms(rooms, clock)
    ensures ClearedRooms(rooms, clock).Keys == rooms.Keys
    ensures forall c | c in rooms :: ClearedRooms(rooms, clock)[c].Keys == rooms[c].Keys
    ensures forall c, u | c in rooms && u in rooms[c] ::
              ClearedRooms(rooms, clock)[c][u] ==
              if rooms[c][u].typing.Some? && rooms[c][u].typing.value <= clock((c, u)) then
                Viewer(rooms[c][u].joinedAt, rooms[c][u].lastActivity, None)
              else rooms[c][u]
    ensures LapsedPlaces(rooms, clock) ==
            set c, u | c in rooms && u in rooms[c] && rooms[c][u].typing.Some?
                       && rooms[c][u].typing.value <= clock((c, u)) :: (c, u)
    ensures Typing(rooms, clock) ==
            set c, u | c in rooms && u in rooms[c] && rooms[c][u].typing.Some?
                       && clock((c, u)) < rooms[c][u].typing.value :: (c, u)
  {
  }

  // A cleanup is never noticed: nobody goes, and whoever types afterwards typed without it.
  lemma CleanupIsInvisible(rooms: Rooms, clock: Clock, c: int, user: string, later: nat)
    requires clock((c, user)) <= later
    ensures var before, after := RoomOf(rooms, c), RoomOf(ClearedRooms(rooms, clock), c);
            && (user in after <==> user in before)
            && (user in before ==> (IsTyping(after[user], later) <==> IsTyping(before[user], later)))
  {
  }

  // ------------------------------------------------------------------ the capacity

  // Somebody types in a full room without having joined it.
  predicate Intrudes(rooms: Rooms, a: Action, c: int) {
    a.SetTyping? && a.c == c && Full(RoomOf(rooms, c), a.user)
  }

  function Intrusions(acts: seq<Action>, c: int): nat {
    if acts == [] then 0
    else
      var before := acts[..|acts| - 1];
      Intrusions(before, c) + if Intrudes(Run(before), acts[|acts| - 1], c) then 1 else 0
  }

  // What an action does to one room: it adds at most the user it names, and a join not to a full room.
  lemma RoomAfter(rooms: Rooms, a: Action, c: int)
    ensures var room, after := RoomOf(rooms, c), RoomOf(Apply(rooms, a), c);
            || after.Keys <= room.Keys
            || ((a.Join? || a.SetTyping?) && a.c == c && after.Keys == room.Keys + {a.user}
                && (a.Join? ==> !Full(room, a.user)))
    ensures Intrudes(rooms, a, c) ==> RoomOf(Apply(rooms, a), c).Keys == RoomOf(rooms, c).Keys + {a.user}
  {
    hide Joined;
    hide Left;
    hide Typed;
    hide ClearedRooms;
    match a
    case Join(d, user, now) => JoinAddsAtMostTheUser(rooms, d, user, now);
    case Leave(d, user) => LeaveRemovesOnlyTheUser(rooms, d, user);
    case SetTyping(d, user, active, now) => TypingEntersTheUser(rooms, d, user, active, now);
    case Cleanup(clock) => CleanupKeepsViewers(rooms, clock, c);
  }

  lemma SizeAfter(rooms: Rooms, a: Action, c: int)
    ensures |RoomOf(Apply(rooms, a), c)| <= |RoomOf(rooms, c)| + 1
    ensures |RoomOf(Apply(rooms, a), c)| > |RoomOf(rooms, c)| ==>
              && (a.Join? || a.SetTyping?) && a.c == c && a.user !in RoomOf(rooms, c)
              && (a.Join? ==> |RoomOf(rooms, c)| < VIEWER_CAP)
    ensures Intrudes(rooms, a, c) ==> |RoomOf(Apply(rooms, a), c)| == |RoomOf(rooms, c)| + 1
  {
    RoomAfter(rooms, a, c);
    hide Apply;
    hide RoomOf;
    var room, after := RoomOf(rooms, c), RoomOf(Apply(rooms, a), c);
    if after.Keys <= room.Keys {
      SmallerSet(after.Keys, room.Keys);
    } else {
      Grown(room, after, a.user);
    }
  }

  lemma Grown(room: Room, after: Room, user: string)
    requires after.Keys == room.Keys + {user}
    ensures |after| == |room| + if user in room then 0 else 1
  {
    assert user in room ==> after.Keys == room.Keys;
    assert |after.Keys| == |room.Keys| + if user in room then 0 else 1;
  }

  // One step takes a room above its capacity exactly if somebody who has not joined types in a full room.
  lemma CapacityIsLostIff(rooms: Rooms, a: Action, c: int)
    requires |RoomOf(rooms, c)| <= VIEWER_CAP
    ensures |RoomOf(Apply(rooms, a), c)| > VIEWER_CAP <==> Intrudes(rooms, a, c)
  {
    SizeAfter(rooms, a, c);
    hide Apply;
    hide RoomOf;
  }

  // A room outgrows its capacity by no more than the number of such intrusions.
  lemma {:induction false} RoomsAreBounded(acts: seq<Action>, c: int)
    ensures |RoomOf(Run(acts), c)| <= VIEWER_CAP + Intrusions(acts, c)
  {
    if acts != [] {
      var before, a := acts[..|acts| - 1], acts[|acts| - 1];
      RoomsAreBounded(before, c);
      SizeAfter(Run(before), a, c);
      RunSnoc(acts);
      hide Apply;
      hide RoomOf;
    }
  }

  lemma RunSnoc(acts: seq<Action>)
    requires acts != []
    ensures Run(acts) == Apply(Run(acts[..|acts| - 1]), acts[|acts| - 1])
  {
  }

  // A newcomer who joins and leaves leaves no trace.
  lemma JoinThenLeave(rooms: Rooms, c: int, user: string, now: nat)
    requires NoEmptyRoom(rooms) && user !in RoomOf(rooms, c)
    ensures Left(Joined(rooms, c, user, now), c, user) == rooms
  {
    var room := RoomOf(rooms, c);
    hide NoEmptyRoom;
    if Full(room, user) {
      LeaveUnentered(rooms, c, user);
    } else {
      var entered := room[user := Viewer(now, now, None)];
      assert entered - {user} == room;
      LeaveEntered(rooms, c, user, entered);
    }
  }

  lemma LeaveUnentered(rooms: Rooms, c: int, user: string)
    requires NoEmptyRoom(rooms) && user !in RoomOf(rooms, c)
    ensures Left(rooms, c, user) == rooms
  {
    if c in rooms {
      assert rooms[c] - {user} == rooms[c];
    }
  }

  lemma LeaveEntered(rooms: Rooms, c: int, user: string, entered: Room)
    requires NoEmptyRoom(rooms) && entered - {user} == RoomOf(rooms, c)
    ensures Left(rooms[c := entered], c, user) == rooms
  {
    assert c in rooms ==> rooms[c] != map[];
    hide NoEmptyRoom;
    assert c in rooms ==> rooms[c := rooms[c]] == rooms;
  }

  // ------------------------------------------------------------------ who views and who types, over whole runs

  // Whether the user got into the room, by joining or typing, and has not left since.
  predicate Viewing(acts: seq<Action>, c: int, user: string) {
    acts != [] &&
    var before, a := acts[..|acts| - 1], acts[|acts| - 1];
    if a.Cleanup? || a.c != c || a.user != user then Viewing(before, c, user)
    else if a.Leave? then false
    else a.SetTyping? || Viewing(before, c, user) || |RoomOf(Run(before), c)| < VIEWER_CAP
  }

  lemma StepViewing(rooms: Rooms, a: Action, c: int, user: string)
    ensures user in RoomOf(Apply(rooms, a), c) <==>
            if a.Cleanup? || a.c != c || a.user != user then user in RoomOf(rooms, c)
            else !a.Leave? && (a.SetTyping? || user in RoomOf(rooms, c) || |RoomOf(rooms, c)| < VIEWER_CAP)
  {
    hide Joined;
    hide Left;
    hide Typed;
    hide ClearedRooms;
    match a
    case Join(d, u, now) => JoinAddsAtMostTheUser(rooms, d, u, now);
    case Leave(d, u) => LeaveRemovesOnlyTheUser(rooms, d, u);
    case SetTyping(d, u, active, now) => TypingEntersTheUser(rooms, d, u, active, now);
    case Cleanup(clock) => CleanupKeepsViewers(rooms, clock, c);
  }

  // In every run the viewers of a conversation are exactly those who got in and have not left since.
  lemma {:induction false} ViewersAreExact(acts: seq<Action>, c: int, user: string)
    ensures user in RoomOf(Run(acts), c) <==> Viewing(acts, c, user)
  {
    if acts != [] {
      var before, a := acts[..|acts| - 1], acts[|acts| - 1];
      ViewersAreExact(before, c, user);
      StepViewing(Run(before), a, c, user);
      RunSnoc(acts);
      hide Apply;
      hide RoomOf;
    }
  }

  // Until when the user's latest indicator in the room shows, if it has not been taken back.
  function ShownUntil(acts: seq<Action>, c: int, user: string): Option<nat> {
    if acts == [] then None
    else
      var before, a := acts[..|acts| - 1], acts[|acts| - 1];
      if a.SetTyping? && a.c == c && a.user == user then (if a.active then Some(a.now + TYPING_TTL) else None)
      else if a.Leave? && a.c == c && a.user == user then None
      else ShownUntil(before, c, user)
  }

  function Indicator(rooms: Rooms, c: int, user: string): Option<nat> {
    if user in RoomOf(rooms, c) then RoomOf(rooms, c)[user].typing else None
  }

  predicate Shows(until: Option<nat>, later: nat) {
    until.Some? && later < until.value
  }

  lemma JoinKeepsIndicators(rooms: Rooms, d: int, u: string, now: nat, c: int, user: string)
    ensures Indicator(Joined(rooms, d, u, now), c, user) == Indicator(rooms, c, user)
  {
  }

  lemma StepShows(rooms: Rooms, a: Action, c: int, user: string, later: nat)
    requires a.Cleanup? ==> a.clock((c, user)) <= later
    ensures Shows(Indicator(Apply(rooms, a), c, user), later) <==>
            if a.SetTyping? && a.c == c && a.user == user then a.active && later < a.now + TYPING_TTL
            else if a.Leave? && a.c == c && a.user == user then false
            else Shows(Indicator(rooms, c, user), later)
  {
    hide Joined;
    hide Left;
    hide Typed;
    hide ClearedRooms;
    match a
    case Join(d, u, now) => JoinKeepsIndicators(rooms, d, u, now, c, user);
    case Leave(d, u) => LeaveRemovesOnlyTheUser(rooms, d, u);
    case SetTyping(d, u, active, now) => TypingLasts(rooms, d, u, active, now, later);
    case Cleanup(clock) => CleanupIsInvisible(rooms, clock, c, user, later);
  }

  // In every run a user is seen typing exactly while the latest indicator, not taken back by the user or by leaving,
  // is younger than its time to live; cleanups up to that moment make no difference.
  lemma {:induction false} TypingIsExact(acts: seq<Action>, c: int, user: string, later: nat)
    requires forall k | 0 <= k < |acts| :: acts[k].Cleanup? ==> acts[k].clock((c, user)) <= later
    ensures user in RoomOf(Run(acts), c) && IsTyping(RoomOf(Run(acts), c)[user], later)
       <==> ShownUntil(acts, c, user).Some? && later < ShownUntil(acts, c, user).value
  {
    if acts != [] {
      var before, a := acts[..|acts| - 1], acts[|acts| - 1];
      assert forall k | 0 <= k < |before| :: before[k] == acts[k];
      TypingIsExact(before, c, user, later);
      StepShows(Run(before), a, c, user, later);
      RunSnoc(acts);
      hide Apply;
      hide RoomOf;
    }
  }

  // ------------------------------------------------------------------ a room above its capacity

  function Name(i: nat): string {
    seq(i, _ => 'u')
  }

  function Arrivals(c: int, n: nat): seq<Action> {
    if n == 0 then [] else Arrivals(c, n - 1) + [Join(c, Name(n - 1), 0)]
  }

  lemma RunOneMore(acts: seq<Action>, a: Action)
    ensures Run(acts + [a]) == Apply(Run(acts), a)
  {
    assert (acts + [a])[..|acts|] == acts;
  }

  lemma RoomGainsOne(rooms: Rooms, c: int, n: nat)
    requires |RoomOf(rooms, c)| == n < VIEWER_CAP && forall u | u in RoomOf(rooms, c) :: |u| < n
    ensures var after := RoomOf(Apply(rooms, Join(c, Name(n), 0)), c);
            |after| == n + 1 && forall u | u in after :: |u| < n + 1
  {
    var room, after := RoomOf(rooms, c), RoomOf(Apply(rooms, Join(c, Name(n), 0)), c);
    assert |Name(n)| == n && Name(n) !in room;
    hide Name;
    assert after == room[Name(n) := Viewer(0, 0, None)];
    hide Apply;
    hide RoomOf;
    Grown(room, after, Name(n));
  }

  lemma NobodyAtFirst(c: int)
    ensures RoomOf(Run([]), c) == map[]
  {
  }

  lemma {:induction false} RoomFills(c: int, n: nat)
    requires n <= VIEWER_CAP
    ensures |RoomOf(Run(Arrivals(c, n)), c)| == n
    ensures forall u | u in RoomOf(Run(Arrivals(c, n)), c) :: |u| < n
  {
    hide Run;
    hide Apply;
    hide RoomOf;
    hide Name;
    if n == 0 {
      NobodyAtFirst(c);
    } else {
      RoomFills(c, n - 1);
      RunOneMore(Arrivals(c, n - 1), Join(c, Name(n - 1), 0));
      RoomGainsOne(Run(Arrivals(c, n - 1)), c, n - 1);
    }
  }

  // Fifty viewers join, and one who has not joined starts typing.
  lemma CapacityIsLost(c: int)
    ensures |RoomOf(Run(Arrivals(c, VIEWER_CAP)), c)| == VIEWER_CAP
    ensures |RoomOf(Run(Arrivals(c, VIEWER_CAP) + [SetTyping(c, Name(VIEWER_CAP), true, 0)]), c)| == VIEWER_CAP + 1
  {
    RoomFills(c, VIEWER_CAP);
    var acts, a := Arrivals(c, VIEWER_CAP), SetTyping(c, Name(VIEWER_CAP), true, 0);
    RunOneMore(acts, a);
    SizeAfter(Run(acts), a, c);
    hide Run;
    hide Arrivals;
    hide Apply;
    hide RoomOf;
  }
}
