/**
 The realtime hub: the registry of live connections, its ceilings, the presence transitions it
 announces, and the walk that fans one frame out to the connections of an audience.
 */
module Hub {
  import opened Wrappers

  const MAX_CONNECTIONS_PER_USER: nat := 5
  const MAX_CONNECTIONS_GLOBAL: nat := 10_000
  const ROOM_CAPACITY: nat := 100
  const MAX_SUBSCRIPTIONS_PER_USER: nat := 50

  // `room` is absent for a personal channel.
  datatype Conn = Conn(user: string, admin: bool, room: Option<string>)

  datatype UserState = UserState(online: bool, subscriptions: set<string>)

  datatype Registry = Registry(conns: map<nat, Conn>, users: map<string, UserState>)

  datatype Refusal = PerUserLimit | GlobalLimit | RoomLimit

  // `online` is false for the transition to offline.
  datatype Transition = Transition(user: string, online: bool)

  function OfUser(conns: map<nat, Conn>, user: string): set<nat> {
    set id | id in conns && conns[id].user == user
  }

  function InRoom(conns: map<nat, Conn>, room: string): set<nat> {
    set id | id in conns && conns[id].room == Some(room)
  }

  // The ceilings in the order in which they are tested.
  function Refused(conns: map<nat, Conn>, c: Conn): Option<Refusal> {
    if |OfUser(conns, c.user)| >= MAX_CONNECTIONS_PER_USER then Some(PerUserLimit)
    else if |conns| >= MAX_CONNECTIONS_GLOBAL then Some(GlobalLimit)
    else if c.room.Some? && |InRoom(conns, c.room.value)| >= ROOM_CAPACITY then Some(RoomLimit)
    else None
  }

  function Subscriptions(users: map<string, UserState>, user: string): set<string> {
    if user in users then users[user].subscriptions else {}
  }

  function OnlineFlag(users: map<string, UserState>, user: string): bool {
    user in users && users[user].online
  }

  function Entered(users: map<string, UserState>, user: string): map<string, UserState> {
    users[user := UserState(true, Subscriptions(users, user))]
  }

  function Registered(r: Registry, id: nat, c: Conn): (Registry, Option<Transition>) {
    (Registry(r.conns[id := c], Entered(r.users, c.user)),
     if OfUser(r.conns, c.user) == {} then Some(Transition(c.user, true)) else None)
  }

  // The offline transition is announced only if there was user state to take a last snapshot of.
  function Unregistered(r: Registry, id: nat): (Registry, Option<Transition>) {
    if id !in r.conns then (r, None)
    else
      var user := r.conns[id].user;
      var conns := r.conns - {id};
      if OfUser(conns, user) != {} then (Registry(conns, r.users), None)
      else (Registry(conns, r.users - {user}), if user in r.users then Some(Transition(user, false)) else None)
  }

  predicate MayRemove(conns: map<nat, Conn>, id: nat, caller: string, admin: bool) {
    id in conns && (admin || conns[id].user == caller)
  }

  // Who gets a frame meant for a conversation.
  predicate InAudience(c: Conn, conversation: string, subscribed: set<string>) {
    c.room == Some(conversation) || (c.room.None? && c.user in subscribed)
  }

  function Subscribers(users: map<string, UserState>, conversation: string): set<string> {
    set u | u in users && conversation in users[u].subscriptions
  }

  // The tests of a registration in their order: the user's own connections, then all, then those in the room.
  lemma RefusalIsExact(conns: map<nat, Conn>, c: Conn)
    ensures var mine := |set i | i in conns && conns[i].user == c.user|;
            var there := |set i | i in conns && conns[i].room == c.room|;
            && (Refused(conns, c) == Some(PerUserLimit) <==> mine >= MAX_CONNECTIONS_PER_USER)
            && (Refused(conns, c) == Some(GlobalLimit) <==>
                mine < MAX_CONNECTIONS_PER_USER && |conns| >= MAX_CONNECTIONS_GLOBAL)
            && (Refused(conns, c) == Some(RoomLimit) <==>
                && mine < MAX_CONNECTIONS_PER_USER && |conns| < MAX_CONNECTIONS_GLOBAL
                && c.room.Some? && there >= ROOM_CAPACITY)
  {
    assert (set i | i in conns && conns[i].user == c.user) == OfUser(conns, c.user);
    if c.room.Some? {
      assert (set i | i in conns && conns[i].room == c.room) == InRoom(conns, c.room.value);
    }
    hide OfUser;
    hide InRoom;
  }

  // A registration adds the connection, flags its user as online without touching the subscriptions, and announces
  // the user exactly if there was no other connection.
  lemma RegistrationIsExact(r: Registry, id: nat, c: Conn)
    requires id !in r.conns
    ensures var (r', t) := Registered(r, id, c);
            && r'.conns == r.conns[id := c]
            && r'.users.Keys == r.users.Keys + {c.user}
            && (forall u | u in r.users && u != c.user :: r'.users[u] == r.users[u])
            && r'.users[c.user].online
            && r'.users[c.user].subscriptions == (if c.user in r.users then r.users[c.user].subscriptions else {})
            && (t == Some(Transition(c.user, true)) <==> forall i | i in r.conns :: r.conns[i].user != c.user)
            && (t == None <==> exists i | i in r.conns :: r.conns[i].user == c.user)
  {
    assert forall i | i in r.conns && r.conns[i].user == c.user :: i in OfUser(r.conns, c.user);
    assert forall i :: i in OfUser(r.conns, c.user) ==> i in r.conns && r.conns[i].user == c.user;
  }

  // Removing a connection leaves all others; the user state goes, and the user is announced as offline, exactly if no
  // other connection of that user is left.
  lemma UnregistrationIsExact(r: Registry, id: nat)
    ensures var (r', t) := Unregistered(r, id);
            && r'.conns == r.conns - {id}
            && (id !in r.conns ==> r'.users == r.users && t == None)
            && (id in r.conns ==>
                  var user := r.conns[id].user;
                  && ((exists i | i in r.conns :: i != id && r.conns[i].user == user) ==>
                        r'.users == r.users && t == None)
                  && ((forall i | i in r.conns :: i == id || r.conns[i].user != user) ==>
                        && r'.users == r.users - {user}
                        && t == if user in r.users then Some(Transition(user, false)) else None))
  {
    if id in r.conns {
      var rest := r.conns - {id};
      assert forall i :: i in OfUser(rest, r.conns[id].user) <==>
                         i in r.conns && i != id && r.conns[i].user == r.conns[id].user;
    } else {
      assert r.conns - {id} == r.conns;
    }
  }

  // A frame meant for a conversation is for the connections in its room, and for those connections in no room whose
  // user has subscribed to it.
  lemma AudienceIsExact(conns: map<nat, Conn>, users: map<string, UserState>, conversation: string, id: nat)
    ensures id in Audience(conns, users, conversation) <==>
              && id in conns
              && (|| conns[id].room == Some(conversation)
                  || (conns[id].room == None && conns[id].user in users
                      && conversation in users[conns[id].user].subscriptions))
  {
  }

  // ------------------------------------------------------------------ the hub object

  class RealtimeHub {
    var conns: map<nat, Conn>
    var users: map<string, UserState>
    // What each receiver has been sent; a closed receiver refuses.
    var outbox: map<nat, seq<string>>
    var closed: set<nat>
    var attempted: nat
    var delivered: nat
    var failures: nat

    ghost predicate Valid()
      reads this
    {
      outbox.Keys == conns.Keys
    }

    ghost function View(): Registry
      reads this
    {
      Registry(conns, users)
    }

    constructor ()
      ensures Valid() && View() == Registry(map[], map[]) && closed == {}
      ensures attempted == delivered == failures == 0
    {
      conns, users, outbox, closed := map[], map[], map[], {};
      attempted, delivered, failures := 0, 0, 0;
    }

    method Register(id: nat, c: Conn) returns (refusal: Option<Refusal>, transition: Option<Transition>)
      requires Valid() && id !in conns
      modifies this
      ensures Valid()
      ensures refusal == Refused(old(conns), c)
      ensures refusal.Some? ==> View() == old(View()) && outbox == old(outbox) && transition == None
      ensures refusal.None? ==> (View(), transition) == Registered(old(View()), id, c)
      ensures refusal.None? ==> outbox == old(outbox)[id := []]
      ensures closed == old(closed) && attempted == old(attempted)
      ensures delivered == old(delivered) && failures == old(failures)
    {
      transition := None;
      var mine := |OfUser(conns, c.user)|;
      if mine >= MAX_CONNECTIONS_PER_USER {
        return Some(PerUserLimit), None;
      }
      if |conns| >= MAX_CONNECTIONS_GLOBAL {
        return Some(GlobalLimit), None;
      }
      if c.room.Some? {
        if |InRoom(conns, c.room.value)| >= ROOM_CAPACITY {
          return Some(RoomLimit), None;
        }
      }
      refusal := None;
      conns := conns[id := c];
      outbox := outbox[id := []];
      var user := if c.user in users then users[c.user] else UserState(false, {});
      users := users[c.user := user.(online := true)];
      if mine == 0 {
        transition := Some(Transition(c.user, true));
      }
    }

    method Unregister(id: nat) returns (transition: Option<Transition>)
      requires Valid()
      modifies this
      ensures Valid()
      ensures (View(), transition) == Unregistered(old(View()), id)
      ensures outbox == old(outbox) - {id} && closed == old(closed)
      ensures attempted == old(attempted) && delivered == old(delivered) && failures == old(failures)
    {
      transition := None;
      if id !in conns {
        assert outbox - {id} == outbox;
        return;
      }
      var user := conns[id].user;
      conns := conns - {id};
      outbox := outbox - {id};
      if OfUser(conns, user) == {} {
        if user in users {
          transition := Some(Transition(user, false));
        }
        users := users - {user};
      }
    }

    // The check and the removal take the lock separately: `checked` are the connections the check saw.
    method RemoveConnection(id: nat, caller: string, admin: bool, checked: map<nat, Conn>)
      returns (transition: Option<Transition>)
      requires Valid()
      modifies this
      ensures Valid()
      ensures id in checked && (admin || checked[id].user == caller) ==>
                (View(), transition) == Unregistered(old(View()), id) && outbox == old(outbox) - {id}
      ensures id !in checked || (!admin && checked[id].user != caller) ==>
                View() == old(View()) && transition == None && outbox == old(outbox)
      ensures closed == old(closed) && attempted == old(attempted)
      ensures delivered == old(delivered) && failures == old(failures)
    {
      if id !in checked {
        return None;
      }
      var owned := admin || checked[id].user == caller;
      if !owned {
        return None;
      }
      transition := Unregister(id);
    }

    // One frame to every connection that satisfies `pred`.
    method FanOut(pred: (nat, Conn) -> bool, enabled: bool, frame: string) returns (count: nat)
      requires Valid()
      modifies this`outbox, this`attempted, this`delivered, this`failures
      ensures Valid()
      ensures !enabled ==> count == 0 && outbox == old(outbox) && attempted == old(attempted)
                           && delivered == old(delivered) && failures == old(failures)
      ensures enabled ==>
                var matching := Matching(pred, conns, conns.Keys);
                && count == |matching - closed|
                && outbox == Sent(old(outbox), matching - closed, frame)
                && (forall id | id in conns ::
                      outbox[id] == if pred(id, conns[id]) && id !in closed then old(outbox)[id] + [frame]
                                    else old(outbox)[id])
                && attempted == old(attempted) + 1
                && delivered == old(delivered) + count
                && failures == old(failures) + |matching * closed|
    {
      count := 0;
      if !enabled {
        return;
      }
      attempted := attempted + 1;
      var failed;
      outbox, count, failed := Walk(pred, conns, closed, outbox, frame);
      delivered := delivered + count;
      failures := failures + failed;
    }

    // Subscribers are looked up under one lock, the frame is fanned out under another: `seen` are the user states
    // that the lookup saw.
    method ToConversation(conversation: string, enabled: bool, frame: string, seen: map<string, UserState>)
      returns (count: nat)
      requires Valid()
      modifies this`outbox, this`attempted, this`delivered, this`failures
      ensures Valid()
      ensures !enabled ==> count == 0 && outbox == old(outbox) && attempted == old(attempted)
                           && delivered == old(delivered) && failures == old(failures)
      ensures enabled ==> attempted == old(attempted) + 1 && delivered == old(delivered) + count
      ensures enabled ==> failures == old(failures) + |Audience(conns, seen, conversation) * closed|
      ensures enabled ==>
                var audience := Audience(conns, seen, conversation);
                count == |audience - closed| && outbox == Sent(old(outbox), audience - closed, frame)
      ensures enabled ==>
                forall id | id in conns ::
                  var c := conns[id];
                  var meant := || c.room == Some(conversation)
                               || (c.room == None && c.user in seen && conversation in seen[c.user].subscriptions);
                  outbox[id] == if meant && id !in closed then old(outbox)[id] + [frame] else old(outbox)[id]
    {
      hide Sent;
      if !enabled {
        return 0;
      }
      var subscribed := Subscribers(seen, conversation);
      var pred := (_, c: Conn) => InAudience(c, conversation, subscribed);
      assert Matching(pred, conns, conns.Keys) == Audience(conns, seen, conversation);
      count := FanOut(pred, enabled, frame);
      forall id | id in conns ensures pred(id, conns[id]) <==> id in Audience(conns, seen, conversation) {
      }
      forall id | id in conns {
        AudienceIsExact(conns, seen, conversation, id);
      }
      hide Audience;
      hide InAudience;
    }
  }

  // The walk over the connections, in no particular order.
  method Walk(pred: (nat, Conn) -> bool, conns: map<nat, Conn>, closed: set<nat>, before: map<nat, seq<string>>,
              frame: string)
    returns (outbox: map<nat, seq<string>>, count: nat, failed: nat)
    requires before.Keys == conns.Keys
    ensures outbox == Sent(before, Matching(pred, conns, conns.Keys) - closed, frame)
    ensures count == |Matching(pred, conns, conns.Keys) - closed|
    ensures failed == |Matching(pred, conns, conns.Keys) * closed|
  {
    hide *;
    outbox, count, failed := before, 0, 0;
    var todo := conns.Keys;
    ghost var done: set<nat> := {};
    NothingMatched(pred, conns, closed, before, frame);
    while todo != {}
      invariant todo <= conns.Keys && done == conns.Keys - todo
      invariant outbox == Sent(before, Matching(pred, conns, done) - closed, frame) && outbox.Keys == conns.Keys
      invariant count == |Matching(pred, conns, done) - closed|
      invariant failed == |Matching(pred, conns, done) * closed|
      decreases todo
    {
      var id :| id in todo;
      OneMoreMatched(pred, conns, done, id, closed);
      SplitOff(conns.Keys, todo, id);
      if pred(id, conns[id]) {
        if id !in closed {
          SentOneMore(before, Matching(pred, conns, done) - closed, id, frame);
          KeysKept(outbox, id, outbox[id] + [frame]);
          outbox := outbox[id := outbox[id] + [frame]];
          count := count + 1;
        } else {
          failed := failed + 1;
        }
      }
      todo, done := todo - {id}, done + {id};
    }
    assert done == conns.Keys;
  }

  // Room connections, and personal channels whose user follows the conversation.
  function Audience(conns: map<nat, Conn>, users: map<string, UserState>, conversation: string): set<nat> {
    set id | id in conns && InAudience(conns[id], conversation, Subscribers(users, conversation))
  }

  ghost function Matching(pred: (nat, Conn) -> bool, conns: map<nat, Conn>, among: set<nat>): set<nat> {
    set id | id in among && id in conns && pred(id, conns[id])
  }

  function Sent(outbox: map<nat, seq<string>>, receivers: set<nat>, frame: string): (r: map<nat, seq<string>>)
    ensures r.Keys == outbox.Keys
  {
    map id | id in outbox :: if id in receivers then outbox[id] + [frame] else outbox[id]
  }

  lemma SplitOff(all: set<nat>, todo: set<nat>, id: nat)
    requires id in todo && todo <= all
    ensures all - (todo - {id}) == all - todo + {id} && id !in all - todo
  {
  }

  lemma KeysKept(outbox: map<nat, seq<string>>, id: nat, frames: seq<string>)
    requires id in outbox
    ensures outbox[id := frames].Keys == outbox.Keys
  {
  }

  lemma NothingMatched(pred: (nat, Conn) -> bool, conns: map<nat, Conn>, closed: set<nat>,
                       outbox: map<nat, seq<string>>, frame: string)
    ensures Matching(pred, conns, {}) - closed == {} && Matching(pred, conns, {}) * closed == {}
    ensures Sent(outbox, Matching(pred, conns, {}) - closed, frame) == outbox
  {
    assert Matching(pred, conns, {}) - closed == {};
  }

  lemma OneMoreMatched(pred: (nat, Conn) -> bool, conns: map<nat, Conn>, done: set<nat>, id: nat, closed: set<nat>)
    requires id in conns && id !in done
    ensures var a, b := Matching(pred, conns, done), Matching(pred, conns, done + {id});
            && (!pred(id, conns[id]) ==> b == a)
            && (pred(id, conns[id]) && id in closed ==> b - closed == a - closed && |b * closed| == |a * closed| + 1)
            && (pred(id, conns[id]) && id !in closed ==>
                  && b - closed == a - closed + {id} && id !in a
                  && |b - closed| == |a - closed| + 1 && b * closed == a * closed)
  {
    var a, b := Matching(pred, conns, done), Matching(pred, conns, done + {id});
    if pred(id, conns[id]) {
      assert b == a + {id} && id !in a;
      hide Matching;
      if id in closed {
        assert b * closed == a * closed + {id} && b - closed == a - closed;
      } else {
        assert b - closed == a - closed + {id} && b * closed == a * closed;
      }
    } else {
      assert b == a;
    }
  }

  lemma SentOneMore(outbox: map<nat, seq<string>>, receivers: set<nat>, id: nat, frame: string)
    requires id in outbox && id !in receivers
    ensures Sent(outbox, receivers + {id}, frame)
         == Sent(outbox, receivers, frame)[id := Sent(outbox, receivers, frame)[id] + [frame]]
  {
  }

  // ------------------------------------------------------------------ every interleaving

  // A removal request that has passed its check and not yet removed anything.
  datatype Removal = Removal(id: nat, caller: string, admin: bool)

  datatype System = System(r: Registry, nextId: nat, removals: set<Removal>, announced: seq<Transition>)

  datatype Action =
    | Register(c: Conn)
    | Unregister(id: nat)
    | CheckRemoval(id: nat, caller: string, admin: bool)
    | FinishRemoval(removal: Removal)
    | Subscribe(user: string, conversation: string)
    | Unsubscribe(user: string, conversation: string)
    | Heartbeat(user: string)
    | Note(user: string)
    | Restore(user: string, subscriptions: set<string>)

  function Extended(announced: seq<Transition>, t: Option<Transition>): seq<Transition> {
    if t.Some? then announced + [t.value] else announced
  }

  function Announce(s: System, next: (Registry, Option<Transition>)): System {
    s.(r := next.0, announced := Extended(s.announced, next.1))
  }

  function WithUser(s: System, user: string, u: UserState): System {
    s.(r := s.r.(users := s.r.users[user := u]))
  }

  function Apply(s: System, a: Action): System {
    match a
    case Register(c) =>
      if Refused(s.r.conns, c).Some? then s
      else Announce(s, Registered(s.r, s.nextId, c)).(nextId := s.nextId + 1)
    case Unregister(id) => Announce(s, Unregistered(s.r, id))
    case CheckRemoval(id, caller, admin) =>
      if MayRemove(s.r.conns, id, caller, admin) then s.(removals := s.removals + {Removal(id, caller, admin)}) else s
    case FinishRemoval(k) =>
      if k in s.removals then Announce(s, Unregistered(s.r, k.id)).(removals := s.removals - {k}) else s
    case Subscribe(user, conversation) =>
      var subs, flag := Subscriptions(s.r.users, user), OnlineFlag(s.r.users, user);
      if conversation !in subs && |subs| >= MAX_SUBSCRIPTIONS_PER_USER then WithUser(s, user, UserState(flag, subs))
      else WithUser(s, user, UserState(flag, subs + {conversation}))
    case Unsubscribe(user, conversation) =>
      WithUser(s, user, UserState(OnlineFlag(s.r.users, user), Subscriptions(s.r.users, user) - {conversation}))
    case Heartbeat(user) => s.(r := s.r.(users := Entered(s.r.users, user)))
    case Note(user) =>
      WithUser(s, user, UserState(OnlineFlag(s.r.users, user), Subscriptions(s.r.users, user)))
    case Restore(user, subscriptions) =>
      if user in s.r.users then s else WithUser(s, user, UserState(false, subscriptions))
  }

  function RunFrom(s: System, acts: seq<Action>): System {
    if acts == [] then s else Apply(RunFrom(s, acts[..|acts| - 1]), acts[|acts| - 1])
  }

  const INITIAL := System(Registry(map[], map[]), 0, {}, [])

  function Run(acts: seq<Action>): System {
    RunFrom(INITIAL, acts)
  }

  // ------------------------------------------------------------------ the registry under one change

  lemma AddedConn(conns: map<nat, Conn>, id: nat, c: Conn, user: string)
    requires id !in conns
    ensures id !in OfUser(conns, user)
    ensures OfUser(conns[id := c], user) == if user == c.user then OfUser(conns, user) + {id} else OfUser(conns, user)
  {
  }

  lemma OneMoreConn(conns: map<nat, Conn>, id: nat, c: Conn)
    requires id !in conns
    ensures |conns[id := c]| == |conns| + 1
  {
    assert conns[id := c].Keys == conns.Keys + {id};
    assert |conns[id := c].Keys| == |conns.Keys| + 1;
  }

  lemma AddedInRoom(conns: map<nat, Conn>, id: nat, c: Conn, room: string)
    requires id !in conns
    ensures id !in InRoom(conns, room)
    ensures InRoom(conns[id := c], room) == InRoom(conns, room) + if c.room == Some(room) then {id} else {}
  {
  }

  lemma DroppedConn(conns: map<nat, Conn>, id: nat)
    requires id in conns
    ensures |conns - {id}| < |conns|
    ensures forall u :: OfUser(conns - {id}, u) == OfUser(conns, u) - {id}
    ensures forall m :: InRoom(conns - {id}, m) == InRoom(conns, m) - {id}
  {
    assert (conns - {id}).Keys == conns.Keys - {id};
    assert |(conns - {id}).Keys| == |conns.Keys| - 1;
  }

  // ------------------------------------------------------------------ ceilings

  ghost predicate WithinCeilings(conns: map<nat, Conn>) {
    && |conns| <= MAX_CONNECTIONS_GLOBAL
    && (forall u :: |OfUser(conns, u)| <= MAX_CONNECTIONS_PER_USER)
    && (forall m :: |InRoom(conns, m)| <= ROOM_CAPACITY)
  }

  // Ids are issued once, and a waiting removal either names a connection its caller may remove or one that is gone.
  ghost predicate Issued(s: System) {
    && (forall id | id in s.r.conns :: id < s.nextId)
    && (forall k | k in s.removals :: k.id < s.nextId)
    && (forall k | k in s.removals && k.id in s.r.conns :: k.admin || s.r.conns[k.id].user == k.caller)
  }

  lemma RegisterKeepsCeilings(conns: map<nat, Conn>, id: nat, c: Conn)
    requires WithinCeilings(conns) && id !in conns && Refused(conns, c) == None
    ensures WithinCeilings(conns[id := c])
  {
    var next := conns[id := c];
    forall u ensures |OfUser(next, u)| <= MAX_CONNECTIONS_PER_USER {
      AddedConn(conns, id, c, u);
    }
    forall m ensures |InRoom(next, m)| <= ROOM_CAPACITY {
      AddedInRoom(conns, id, c, m);
    }
    OneMoreConn(conns, id, c);
  }

  lemma UnregisterKeepsCeilings(conns: map<nat, Conn>, id: nat)
    requires WithinCeilings(conns) && id in conns
    ensures WithinCeilings(conns - {id})
  {
    DroppedConn(conns, id);
    var next := conns - {id};
    forall u ensures |OfUser(next, u)| <= MAX_CONNECTIONS_PER_USER {
      SmallerSet(OfUser(next, u), OfUser(conns, u));
    }
    forall m ensures |InRoom(next, m)| <= ROOM_CAPACITY {
      SmallerSet(InRoom(next, m), InRoom(conns, m));
    }
  }

  // What an action can do to the connections: at most one comes or goes, and none changes.
  lemma ConnectionsAfter(s: System, a: Action)
    ensures var s' := Apply(s, a);
            || s'.r.conns == s.r.conns
            || (a.Register? && Refused(s.r.conns, a.c) == None && s'.r.conns == s.r.conns[s.nextId := a.c])
            || (a.Unregister? && a.id in s.r.conns && s'.r.conns == s.r.conns - {a.id})
            || (a.FinishRemoval? && a.removal in s.removals && a.removal.id in s.r.conns
                && s'.r.conns == s.r.conns - {a.removal.id})
    ensures a.Register? || Apply(s, a).nextId == s.nextId
    ensures a.CheckRemoval? || Apply(s, a).removals <= s.removals
  {
    hide Refused;
    hide MayRemove;
    hide OfUser;
  }

  lemma {:induction false} RunIsWithinCeilings(acts: seq<Action>)
    ensures WithinCeilings(Run(acts).r.conns) && Issued(Run(acts))
  {
    if acts == [] {
      assert forall u :: OfUser(map[], u) == {};
      assert forall m :: InRoom(map[], m) == {};
    } else {
      RunIsWithinCeilings(acts[..|acts| - 1]);
      StepKeepsCeilings(Run(acts[..|acts| - 1]), acts[|acts| - 1]);
    }
  }

  lemma StepKeepsCeilings(s: System, a: Action)
    requires WithinCeilings(s.r.conns) && Issued(s)
    ensures WithinCeilings(Apply(s, a).r.conns) && Issued(Apply(s, a))
  {
    StepKeepsIssued(s, a);
    ConnectionsAfter(s, a);
    hide *;
    IssuedIsFresh(s);
    var conns := Apply(s, a).r.conns;
    if conns != s.r.conns {
      if a.Register? {
        RegisterKeepsCeilings(s.r.conns, s.nextId, a.c);
      } else if a.Unregister? {
        UnregisterKeepsCeilings(s.r.conns, a.id);
      } else {
        UnregisterKeepsCeilings(s.r.conns, a.removal.id);
      }
    }
  }

  lemma IssuedIsFresh(s: System)
    requires Issued(s)
    ensures s.nextId !in s.r.conns
  {
  }

  lemma StepKeepsIssued(s: System, a: Action)
    requires Issued(s)
    ensures Issued(Apply(s, a))
  {
    hide Refused;
    hide OfUser;
    hide Entered;
  }

  lemma RemovalTakesOne(s: System, k: Removal)
    requires k in s.removals
    ensures Apply(s, FinishRemoval(k)).r.conns == s.r.conns - {k.id}
  {
    hide OfUser;
    if k.id !in s.r.conns {
      assert s.r.conns - {k.id} == s.r.conns;
    }
  }

  // A removal that goes through takes away exactly one connection, and one its caller may remove:
  // whatever ran between the check and the removal.
  lemma RemovalsAreAuthorised(acts: seq<Action>, k: Removal)
    requires k in Run(acts).removals
    ensures var s, s' := Run(acts), Apply(Run(acts), FinishRemoval(k));
            && s'.r.conns == s.r.conns - {k.id}
            && (k.id in s.r.conns ==> k.admin || s.r.conns[k.id].user == k.caller)
  {
    RunIsWithinCeilings(acts);
    hide Run;
    hide WithinCeilings;
    RemovalTakesOne(Run(acts), k);
  }

  // What leaving, by itself or by a removal, does in a run; and that looking after a user's state creates it.
  lemma StepsInRun(acts: seq<Action>, id: nat, k: Removal, user: string, conversation: string)
    ensures Run([]) == INITIAL
    ensures var s, s' := Run(acts), Run(acts + [Unregister(id)]);
            s' == s.(r := Unregistered(s.r, id).0, announced := Extended(s.announced, Unregistered(s.r, id).1))
    ensures var s, s' := Run(acts), Run(acts + [FinishRemoval(k)]);
            && s'.removals == s.removals - {k}
            && (k in s.removals ==> s'.r == Unregistered(s.r, k.id).0)
            && (k !in s.removals ==> s'.r == s.r)
    ensures var steps := [Heartbeat(user), Note(user), Subscribe(user, conversation), Unsubscribe(user, conversation)];
            forall a | a in steps ::
              Apply(Run(acts), a).r.users.Keys == Run(acts).r.users.Keys + {user}
  {
    assert (acts + [Unregister(id)])[..|acts|] == acts && (acts + [FinishRemoval(k)])[..|acts|] == acts;
    RunSnoc(acts + [Unregister(id)]);
    RunSnoc(acts + [FinishRemoval(k)]);
    hide OfUser;
    hide Run;
    var s := Run(acts);
    assert k !in s.removals ==> s.removals - {k} == s.removals;
  }

  // An authorised removal goes through, and no other: an owner or an administrator gets rid of the connection, anybody
  // else leaves all connections alone.
  lemma RemovalIsGrantedIff(s: System, id: nat, caller: string, admin: bool)
    requires Removal(id, caller, admin) !in s.removals
    ensures var s' := Apply(Apply(s, CheckRemoval(id, caller, admin)), FinishRemoval(Removal(id, caller, admin)));
            s'.r.conns == if id in s.r.conns && (admin || s.r.conns[id].user == caller) then s.r.conns - {id}
                          else s.r.conns
  {
    hide OfUser;
  }

  // ------------------------------------------------------------------ the ceilings are reached

  function Name(i: nat): string {
    seq(i, _ => 'u')
  }

  function Newcomer(n: nat, different: bool, room: Option<string>): Conn {
    Conn(Name(if different then n else 0), false, room)
  }

  // `n` different users, or one user `n` times.
  function Crowd(n: nat, different: bool, room: Option<string>): seq<Action> {
    if n == 0 then [] else Crowd(n - 1, different, room) + [Register(Newcomer(n, different, room))]
  }

  ghost predicate Crowded(s: System, n: nat, different: bool, room: Option<string>) {
    && s.nextId == n
    && (forall id: nat :: id in s.r.conns <==> id < n)
    && (forall id: nat | id < n :: s.r.conns[id] == Newcomer(id + 1, different, room))
  }

  lemma {:induction false} FirstNumbers(n: nat, ids: set<nat>)
    requires forall id: nat :: id in ids <==> id < n
    ensures |ids| == n
  {
    if n == 0 {
      assert ids == {};
    } else {
      FirstNumbers(n - 1, ids - {n - 1});
      assert ids == ids - {n - 1} + {n - 1};
    }
  }

  lemma CrowdCounts(s: System, n: nat, different: bool, room: Option<string>)
    requires Crowded(s, n, different, room)
    ensures |s.r.conns| == n
    ensures room.Some? ==> |InRoom(s.r.conns, room.value)| == n
    ensures !different ==> |OfUser(s.r.conns, Name(0))| == n
    ensures different ==> OfUser(s.r.conns, Name(n + 1)) == {}
  {
    FirstNumbers(n, s.r.conns.Keys);
    if room.Some? {
      FirstNumbers(n, InRoom(s.r.conns, room.value));
    }
    if different {
      forall id: nat | id < n ensures s.r.conns[id].user != Name(n + 1) {
        assert |Name(id + 1)| != |Name(n + 1)|;
      }
    } else {
      FirstNumbers(n, OfUser(s.r.conns, Name(0)));
    }
  }

  lemma {:induction false} CrowdGathers(n: nat, different: bool, room: Option<string>)
    requires n <= MAX_CONNECTIONS_GLOBAL
    requires room.Some? ==> n <= ROOM_CAPACITY
    requires !different ==> n <= MAX_CONNECTIONS_PER_USER
    ensures Crowded(Run(Crowd(n, different, room)), n, different, room)
  {
    hide Crowded;
    hide Crowd;
    hide Run;
    if n == 0 {
      EmptyCrowd(different, room);
    } else {
      CrowdGathers(n - 1, different, room);
      CrowdStep(n - 1, different, room);
    }
  }

  lemma CrowdStep(n: nat, different: bool, room: Option<string>)
    requires Crowded(Run(Crowd(n, different, room)), n, different, room) && n < MAX_CONNECTIONS_GLOBAL
    requires room.Some? ==> n < ROOM_CAPACITY
    requires !different ==> n < MAX_CONNECTIONS_PER_USER
    ensures Crowded(Run(Crowd(n + 1, different, room)), n + 1, different, room)
  {
    CrowdGrows(Run(Crowd(n, different, room)), n, different, room);
    hide *;
    CrowdUnfold(n, different, room);
    RunOneMore(Crowd(n, different, room), Register(Newcomer(n + 1, different, room)));
  }

  lemma CrowdUnfold(n: nat, different: bool, room: Option<string>)
    ensures Crowd(n + 1, different, room) == Crowd(n, different, room) + [Register(Newcomer(n + 1, different, room))]
  {
  }

  lemma EmptyCrowd(different: bool, room: Option<string>)
    ensures Crowded(Run(Crowd(0, different, room)), 0, different, room)
  {
    assert Run([]) == INITIAL;
    hide Run;
  }

  lemma RunOneMore(acts: seq<Action>, a: Action)
    ensures Run(acts + [a]) == Apply(Run(acts), a)
  {
    assert (acts + [a])[..|acts|] == acts;
    RunSnoc(acts + [a]);
    hide Run;
  }

  lemma CrowdGrows(s: System, n: nat, different: bool, room: Option<string>)
    requires Crowded(s, n, different, room) && n < MAX_CONNECTIONS_GLOBAL
    requires room.Some? ==> n < ROOM_CAPACITY
    requires !different ==> n < MAX_CONNECTIONS_PER_USER
    ensures Crowded(Apply(s, Register(Newcomer(n + 1, different, room))), n + 1, different, room)
  {
    CrowdCounts(s, n, different, room);
    var c := Newcomer(n + 1, different, room);
    hide OfUser;
    hide InRoom;
    hide Name;
    assert Refused(s.r.conns, c) == None;
    hide Refused;
    assert Apply(s, Register(c)).r.conns == s.r.conns[n := c];
  }

  // No smaller ceilings hold.
  lemma CeilingsAreReached(room: string)
    ensures |OfUser(Run(Crowd(MAX_CONNECTIONS_PER_USER, false, None)).r.conns, Name(0))| == MAX_CONNECTIONS_PER_USER
    ensures |Run(Crowd(MAX_CONNECTIONS_GLOBAL, true, None)).r.conns| == MAX_CONNECTIONS_GLOBAL
    ensures |InRoom(Run(Crowd(ROOM_CAPACITY, true, Some(room))).r.conns, room)| == ROOM_CAPACITY
  {
    CrowdGathers(MAX_CONNECTIONS_PER_USER, false, None);
    CrowdGathers(MAX_CONNECTIONS_GLOBAL, true, None);
    CrowdGathers(ROOM_CAPACITY, true, Some(room));
    hide *;
    CrowdCounts(Run(Crowd(MAX_CONNECTIONS_PER_USER, false, None)), MAX_CONNECTIONS_PER_USER, false, None);
    CrowdCounts(Run(Crowd(MAX_CONNECTIONS_GLOBAL, true, None)), MAX_CONNECTIONS_GLOBAL, true, None);
    CrowdCounts(Run(Crowd(ROOM_CAPACITY, true, Some(room))), ROOM_CAPACITY, true, Some(room));
  }

  // ------------------------------------------------------------------ presence

  function Of(announced: seq<Transition>, user: string): seq<bool> {
    if announced == [] then []
    else
      var last := announced[|announced| - 1];
      Of(announced[..|announced| - 1], user) + if last.user == user then [last.online] else []
  }

  // Online, offline, online, ...
  ghost predicate Alternates(flags: seq<bool>) {
    forall i | 0 <= i < |flags| :: flags[i] == (i % 2 == 0)
  }

  ghost predicate Consistent(connected: bool, flagged: bool, flags: seq<bool>) {
    && Alternates(flags)
    && (connected <==> |flags| % 2 == 1)
    && (connected ==> flagged)
  }

  ghost predicate PresentAs(r: Registry, announced: seq<Transition>, user: string) {
    Consistent(OfUser(r.conns, user) != {}, OnlineFlag(r.users, user), Of(announced, user))
  }

  lemma ConsistentSwitch(connected: bool, flagged: bool, flags: seq<bool>)
    requires Consistent(connected, flagged, flags)
    ensures Consistent(!connected, true, flags + [!connected])
  {
  }

  lemma AnnouncedOne(announced: seq<Transition>, t: Transition, user: string)
    ensures Of(announced + [t], user) == Of(announced, user) + if t.user == user then [t.online] else []
  {
    assert (announced + [t])[..|announced|] == announced;
  }

  lemma RegisterKeepsPresence(r: Registry, announced: seq<Transition>, id: nat, c: Conn, user: string)
    requires PresentAs(r, announced, user) && id !in r.conns
    ensures var next := Registered(r, id, c);
            PresentAs(next.0, Extended(announced, next.1), user)
  {
    hide OfUser;
    hide Of;
    hide Consistent;
    AddedConn(r.conns, id, c, user);
    if c.user != user {
      AnnouncedOne(announced, Transition(c.user, true), user);
      assert Of(announced, user) + [] == Of(announced, user);
    } else if OfUser(r.conns, user) == {} {
      AnnouncedOne(announced, Transition(user, true), user);
      ConsistentSwitch(false, OnlineFlag(r.users, user), Of(announced, user));
    } else {
      ConsistentFlag(OnlineFlag(r.users, user), Of(announced, user));
    }
  }

  lemma ConsistentFlag(flagged: bool, flags: seq<bool>)
    requires Consistent(true, flagged, flags)
    ensures flagged && Consistent(true, true, flags)
  {
  }

  lemma UnregisterKeepsPresence(r: Registry, announced: seq<Transition>, id: nat, user: string)
    requires PresentAs(r, announced, user) && (id in r.conns ==> PresentAs(r, announced, r.conns[id].user))
    ensures var next := Unregistered(r, id);
            PresentAs(next.0, Extended(announced, next.1), user)
  {
    if id in r.conns {
      var left := r.conns[id].user;
      DroppedConn(r.conns, id);
      assert id in OfUser(r.conns, left);
      hide OfUser;
      hide Of;
      AnnouncedOne(announced, Transition(left, false), user);
      assert Of(announced, user) + [] == Of(announced, user);
      ConsistentFlag(OnlineFlag(r.users, left), Of(announced, left));
      hide Consistent;
      if left == user {
        ConsistentSwitch(true, true, Of(announced, user));
        ConsistentOffline(Of(announced, user) + [false]);
      }
    }
  }

  lemma ConsistentOffline(flags: seq<bool>)
    requires Consistent(false, true, flags)
    ensures Consistent(false, false, flags)
  {
  }

  // Actions on user state alone never take an entry away or switch its flag off.
  lemma OthersKeepPresence(s: System, a: Action, user: string)
    requires PresentAs(s.r, s.announced, user)
    requires !a.Register? && !a.Unregister? && !a.FinishRemoval?
    ensures PresentAs(Apply(s, a).r, Apply(s, a).announced, user)
  {
    hide OfUser;
    hide Of;
    hide MayRemove;
  }

  lemma StepKeepsPresence(s: System, a: Action, user: string)
    requires Issued(s) && forall u :: PresentAs(s.r, s.announced, u)
    ensures PresentAs(Apply(s, a).r, Apply(s, a).announced, user)
  {
    hide PresentAs;
    hide Registered;
    hide Unregistered;
    hide Refused;
    assert PresentAs(s.r, s.announced, user);
    if a.Register? {
      IssuedIsFresh(s);
      RegisterKeepsPresence(s.r, s.announced, s.nextId, a.c, user);
    } else if a.Unregister? {
      UnregisterKeepsPresence(s.r, s.announced, a.id, user);
    } else if a.FinishRemoval? {
      UnregisterKeepsPresence(s.r, s.announced, a.removal.id, user);
    } else {
      OthersKeepPresence(s, a, user);
    }
  }

  lemma {:induction false} RunKeepsPresence(acts: seq<Action>)
    ensures forall u :: PresentAs(Run(acts).r, Run(acts).announced, u)
  {
    if acts == [] {
      forall u ensures PresentAs(INITIAL.r, INITIAL.announced, u) {
        assert OfUser(map[], u) == {};
      }
    } else {
      var before := acts[..|acts| - 1];
      RunKeepsPresence(before);
      RunIsWithinCeilings(before);
      RunSnoc(acts);
      hide *;
      forall u ensures PresentAs(Run(acts).r, Run(acts).announced, u) {
        StepKeepsPresence(Run(before), acts[|acts| - 1], u);
      }
    }
  }

  lemma RunSnoc(acts: seq<Action>)
    requires acts != []
    ensures Run(acts) == Apply(Run(acts[..|acts| - 1]), acts[|acts| - 1])
  {
  }

  // The transitions announced for a user alternate, start with online, and end with online exactly
  // while the user has a live connection.
  lemma PresenceAlternates(acts: seq<Action>, user: string)
    ensures var s, flags := Run(acts), Of(Run(acts).announced, user);
            && (forall i | 0 <= i < |flags| :: flags[i] == (i % 2 == 0))
            && (OfUser(s.r.conns, user) != {} <==> flags != [] && flags[|flags| - 1])
  {
    hide *;
    RunKeepsPresence(acts);
    Announcements(Run(acts).r, Run(acts).announced, user);
  }

  lemma Announcements(r: Registry, announced: seq<Transition>, user: string)
    requires PresentAs(r, announced, user)
    ensures var flags := Of(announced, user);
            && (forall i | 0 <= i < |flags| :: flags[i] == (i % 2 == 0))
            && (OfUser(r.conns, user) != {} <==> flags != [] && flags[|flags| - 1])
  {
    hide Of;
    hide OfUser;
  }

  // A connected user always has user state, flagged online; so the last snapshot is never missing.
  lemma ConnectedUsersAreOnline(acts: seq<Action>, id: nat)
    requires id in Run(acts).r.conns
    ensures OnlineFlag(Run(acts).r.users, Run(acts).r.conns[id].user)
  {
    RunKeepsPresence(acts);
    var s := Run(acts);
    assert PresentAs(s.r, s.announced, s.r.conns[id].user) && id in OfUser(s.r.conns, s.r.conns[id].user);
  }

  // A heartbeat came while the user had no connection, and no connection of the user was accepted since.
  ghost predicate HeartbeatSince(acts: seq<Action>, user: string) {
    acts != [] &&
    var before, last := Run(acts[..|acts| - 1]), acts[|acts| - 1];
    if last == Heartbeat(user) && OfUser(before.r.conns, user) == {} then true
    else if last.Register? && last.c.user == user && Refused(before.r.conns, last.c) == None then false
    else HeartbeatSince(acts[..|acts| - 1], user)
  }

  ghost predicate FlagExplained(r: Registry, user: string, marked: bool) {
    && (OnlineFlag(r.users, user) <==> OfUser(r.conns, user) != {} || marked)
    && !(OfUser(r.conns, user) != {} && marked)
  }

  lemma RegisterExplains(r: Registry, id: nat, c: Conn, user: string, marked: bool)
    requires FlagExplained(r, user, marked) && id !in r.conns
    ensures FlagExplained(Registered(r, id, c).0, user, marked && c.user != user)
  {
    hide OfUser;
    AddedConn(r.conns, id, c, user);
  }

  lemma UnregisterExplains(r: Registry, id: nat, user: string, marked: bool)
    requires FlagExplained(r, user, marked)
    ensures FlagExplained(Unregistered(r, id).0, user, marked)
  {
    if id in r.conns {
      DroppedConn(r.conns, id);
      assert id in OfUser(r.conns, r.conns[id].user);
      hide OfUser;
    }
  }

  lemma OthersExplain(s: System, a: Action, user: string, marked: bool)
    requires FlagExplained(s.r, user, marked) && !a.Register? && !a.Unregister? && !a.FinishRemoval?
    ensures FlagExplained(Apply(s, a).r, user, marked || (a == Heartbeat(user) && OfUser(s.r.conns, user) == {}))
  {
    hide OfUser;
    hide MayRemove;
  }

  lemma StepExplains(s: System, a: Action, user: string, marked: bool)
    requires Issued(s) && FlagExplained(s.r, user, marked)
    ensures FlagExplained(Apply(s, a).r, user,
              if a == Heartbeat(user) && OfUser(s.r.conns, user) == {} then true
              else if a.Register? && a.c.user == user && Refused(s.r.conns, a.c) == None then false
              else marked)
  {
    hide FlagExplained;
    hide Registered;
    hide Unregistered;
    hide Refused;
    hide OfUser;
    if a.Register? {
      IssuedIsFresh(s);
      RegisterExplains(s.r, s.nextId, a.c, user, marked);
    } else if a.Unregister? {
      UnregisterExplains(s.r, a.id, user, marked);
    } else if a.FinishRemoval? {
      UnregisterExplains(s.r, a.removal.id, user, marked);
    } else {
      OthersExplain(s, a, user, marked);
    }
  }

  lemma {:induction false} RunExplains(acts: seq<Action>, user: string)
    ensures FlagExplained(Run(acts).r, user, HeartbeatSince(acts, user))
  {
    if acts == [] {
      assert OfUser(map[], user) == {};
    } else {
      var before := acts[..|acts| - 1];
      RunExplains(before, user);
      RunIsWithinCeilings(before);
      RunSnoc(acts);
      hide Run;
      hide Apply;
      hide Issued;
      hide FlagExplained;
      StepExplains(Run(before), acts[|acts| - 1], user, HeartbeatSince(before, user));
    }
  }

  // The flag is set without a connection exactly if a heartbeat came while there was none, and none was accepted since.
  lemma FlaggedWithoutConnectionIff(acts: seq<Action>, user: string)
    ensures var s := Run(acts);
            OnlineFlag(s.r.users, user) && OfUser(s.r.conns, user) == {} <==> HeartbeatSince(acts, user)
  {
    RunExplains(acts, user);
    hide Run;
    hide HeartbeatSince;
    hide OfUser;
  }

  // It happens: a heartbeat sets the flag for anybody.
  lemma HeartbeatWithoutConnection(user: string)
    ensures var s := Run([Heartbeat(user)]);
            OnlineFlag(s.r.users, user) && OfUser(s.r.conns, user) == {} && s.announced == []
  {
    var acts := [Heartbeat(user)];
    assert acts[..0] == [];
    RunSnoc(acts);
    assert Run([]) == INITIAL;
  }

  // ------------------------------------------------------------------ subscriptions

  // Restoring a snapshot does not look at the ceiling: a step keeps to it, or to the size of the snapshot.
  lemma StepKeepsSubscriptions(s: System, a: Action, cap: nat, user: string)
    requires cap >= MAX_SUBSCRIPTIONS_PER_USER && (a.Restore? ==> |a.subscriptions| <= cap)
    requires |Subscriptions(s.r.users, user)| <= cap
    ensures |Subscriptions(Apply(s, a).r.users, user)| <= cap
  {
    hide OfUser;
    hide InRoom;
    hide MayRemove;
    if a.Unsubscribe? {
      SmallerSet(Subscriptions(s.r.users, a.user) - {a.conversation}, Subscriptions(s.r.users, a.user));
    }
    if a.Subscribe? && a.conversation in Subscriptions(s.r.users, a.user) {
      assert Subscriptions(s.r.users, a.user) + {a.conversation} == Subscriptions(s.r.users, a.user);
    }
  }

  // The connection an action removes, if any.
  function Removing(s: System, a: Action): Option<nat> {
    if a.Unregister? && a.id in s.r.conns then Some(a.id)
    else if a.FinishRemoval? && a.removal in s.removals && a.removal.id in s.r.conns then Some(a.removal.id)
    else None
  }

  // With the last connection of a user goes the user's state.
  predicate Forgets(s: System, a: Action, user: string) {
    var gone := Removing(s, a);
    gone.Some? && s.r.conns[gone.value].user == user && OfUser(s.r.conns, user) == {gone.value}
  }

  // Whether the user follows the conversation: subscribed while there was room, or restored, and since then neither
  // unsubscribed nor forgotten.
  ghost predicate Follows(acts: seq<Action>, user: string, conversation: string) {
    acts != [] &&
    var before, a := acts[..|acts| - 1], acts[|acts| - 1];
    var s := Run(before);
    if a == Unsubscribe(user, conversation) || Forgets(s, a, user) then false
    else if a == Subscribe(user, conversation) then
      Follows(before, user, conversation) || |Subscriptions(s.r.users, user)| < MAX_SUBSCRIPTIONS_PER_USER
    else if a.Restore? && a.user == user && user !in s.r.users then conversation in a.subscriptions
    else Follows(before, user, conversation)
  }

  lemma UserStateAfterRemoval(s: System, a: Action, user: string)
    requires a.Unregister? || a.FinishRemoval?
    ensures Subscriptions(Apply(s, a).r.users, user)
         == if Forgets(s, a, user) then {} else Subscriptions(s.r.users, user)
  {
    hide Forgets;
    var gone := Removing(s, a);
    if gone.Some? {
      var leaver := s.r.conns[gone.value].user;
      LastOneLeaves(s.r.conns, gone.value);
      hide OfUser;
      assert Forgets(s, a, user) <==> user == leaver && OfUser(s.r.conns, leaver) == {gone.value} by {
        ForgetsWhom(s, a, user);
      }
    } else {
      ForgetsWhom(s, a, user);
    }
  }

  lemma ForgetsWhom(s: System, a: Action, user: string)
    ensures Removing(s, a) == None ==> !Forgets(s, a, user)
    ensures Removing(s, a).Some? ==>
              var id := Removing(s, a).value;
              Forgets(s, a, user) <==> user == s.r.conns[id].user && OfUser(s.r.conns, s.r.conns[id].user) == {id}
  {
    hide OfUser;
  }

  lemma LastOneLeaves(conns: map<nat, Conn>, id: nat)
    requires id in conns
    ensures OfUser(conns - {id}, conns[id].user) == {} <==> OfUser(conns, conns[id].user) == {id}
  {
    var user := conns[id].user;
    assert OfUser(conns - {id}, user) == OfUser(conns, user) - {id};
    assert id in OfUser(conns, user);
    hide OfUser;
  }

  lemma UserStateAfter(s: System, a: Action, user: string, conversation: string)
    requires !a.Unregister? && !a.FinishRemoval?
    ensures conversation in Subscriptions(Apply(s, a).r.users, user) <==>
              if a == Unsubscribe(user, conversation) then false
              else if a == Subscribe(user, conversation) then
                || conversation in Subscriptions(s.r.users, user)
                || |Subscriptions(s.r.users, user)| < MAX_SUBSCRIPTIONS_PER_USER
              else if a.Restore? && a.user == user && user !in s.r.users then conversation in a.subscriptions
              else conversation in Subscriptions(s.r.users, user)
  {
    hide OfUser;
    hide InRoom;
    hide MayRemove;
  }

  // In every run a user's subscriptions are exactly the conversations the user follows.
  lemma {:induction false} SubscriptionsAreExact(acts: seq<Action>, user: string, conversation: string)
    ensures conversation in Subscriptions(Run(acts).r.users, user) <==> Follows(acts, user, conversation)
  {
    if acts != [] {
      var before, a := acts[..|acts| - 1], acts[|acts| - 1];
      SubscriptionsAreExact(before, user, conversation);
      RunSnoc(acts);
      if a.Unregister? || a.FinishRemoval? {
        UserStateAfterRemoval(Run(before), a, user);
      } else {
        UserStateAfter(Run(before), a, user, conversation);
        ForgetsWhom(Run(before), a, user);
      }
      hide Apply;
      hide Forgets;
      hide Subscriptions;
      hide OfUser;
    }
  }
}
