/**
 The customer side's channels: the live connections of each conversation, the notices that somebody
 came or left, and the pruning of connections that no longer take a frame.
 */
module CustomerChannels {
  import opened Wrappers

  // The connections of a channel, by id, each with its user.
  type Channel = map<nat, string>
  type Channels = map<string, Channel>

  // A notice that a user came (or left), as sent to the channel's connections.
  datatype Notice = Notice(conversation: string, user: string, came: bool)

  function ChannelOf(chans: Channels, conversation: string): Channel {
    if conversation in chans then chans[conversation] else map[]
  }

  predicate Present(channel: Channel, user: string) {
    exists id | id in channel :: channel[id] == user
  }

  function Connected(chans: Channels, conversation: string, id: nat, user: string): Channels {
    chans[conversation := ChannelOf(chans, conversation)[id := user]]
  }

  // A connection that is no longer registered is not looked for any further.
  function Disconnected(chans: Channels, conversation: string, id: nat): Channels {
    if conversation !in chans || id !in chans[conversation] then chans
    else
      var rest := chans[conversation] - {id};
      if rest == map[] then chans - {conversation} else chans[conversation := rest]
  }

  predicate AnnouncesLeave(chans: Channels, conversation: string, id: nat) {
    var channel := ChannelOf(chans, conversation);
    id in channel && !Present(channel - {id}, channel[id])
  }

  function Pruned(chans: Channels, conversation: string, dead: set<nat>): Channels {
    if conversation in chans then chans[conversation := chans[conversation] - dead] else chans
  }

  // A disconnect takes out that connection and nothing else, and the channel with its last one; the others learn that
  // the user has left exactly if none of them is the same user's.
  lemma DisconnectIsExact(chans: Channels, conversation: string, id: nat)
    ensures var after := Disconnected(chans, conversation, id);
            && (forall c :: c in after <==>
                  c in chans && !(c == conversation && id in chans[c] && forall i | i in chans[c] :: i == id))
            && (forall c | c in after :: after[c] == if c == conversation then chans[c] - {id} else chans[c])
    ensures AnnouncesLeave(chans, conversation, id) <==>
              && conversation in chans && id in chans[conversation]
              && forall i | i in chans[conversation] && i != id ::
                   chans[conversation][i] != chans[conversation][id]
  {
    if conversation in chans {
      var channel := chans[conversation];
      if channel - {id} == map[] {
        assert forall i | i in channel && i != id :: i in channel - {id};
      } else {
        assert (channel - {id}).Keys != {};
        var i :| i in channel - {id};
        assert i in channel && i != id;
      }
      assert id !in channel ==> channel - {id} == channel;
      assert forall i | i in channel && i != id :: (channel - {id})[i] == channel[i];
    }
  }

  // ------------------------------------------------------------------ the registry object

  class ChannelRegistry {
    var inner: Channels

    constructor ()
      ensures inner == map[]
    {
      inner := map[];
    }

    // `told` are the connections that learn of the newcomer.
    method Connect(conversation: string, id: nat, user: string) returns (told: set<nat>)
      requires id !in ChannelOf(inner, conversation)
      modifies this
      ensures inner == Connected(old(inner), conversation, id, user)
      ensures inner.Keys == old(inner).Keys + {conversation}
      ensures forall c | c in inner && c != conversation :: inner[c] == old(inner)[c]
      ensures conversation in old(inner) ==> inner[conversation] == old(inner)[conversation][id := user]
      ensures conversation !in old(inner) ==> inner[conversation] == map[id := user]
      ensures told == ChannelOf(old(inner), conversation).Keys
    {
      var channel: Channel := if conversation in inner then inner[conversation] else map[];
      told := channel.Keys;
      channel := channel[id := user];
      inner := inner[conversation := channel];
    }

    method Disconnect(conversation: string, id: nat) returns (left: Option<string>, told: set<nat>)
      modifies this
      ensures inner == Disconnected(old(inner), conversation, id)
      ensures left.Some? <==> AnnouncesLeave(old(inner), conversation, id)
      ensures left.Some? ==> left.value == old(inner)[conversation][id] && told == old(inner)[conversation].Keys - {id}
      ensures left.None? ==> told == {}
    {
      left, told := None, {};
      if conversation !in inner {
        return;
      }
      var channel: Channel := inner[conversation];
      if id !in channel {
        return;
      }
      var user := channel[id];
      channel := channel - {id};
      if !exists c | c in channel :: channel[c] == user {
        left, told := Some(user), channel.Keys;
      }
      inner := if channel == map[] then inner - {conversation} else inner[conversation := channel];
    }

    // `dead` are the connections whose receiver is gone.
    method Broadcast(conversation: string, dead: set<nat>) returns (delivered: nat)
      modifies this
      ensures inner == Pruned(old(inner), conversation, dead)
      ensures inner.Keys == old(inner).Keys
      ensures forall c | c in inner ::
                inner[c] == if c == conversation then old(inner)[c] - dead else old(inner)[c]
      ensures delivered == |ChannelOf(old(inner), conversation).Keys - dead|
    {
      if conversation !in inner {
        return 0;
      }
      var channel: Channel := inner[conversation];
      var gone: set<nat>;
      delivered, gone := SendToAll(channel.Keys, dead);
      DeadOnly(channel, dead);
      inner := inner[conversation := channel - gone];
    }
  }

  // One frame to every connection of a channel; the dead ones are collected.
  method SendToAll(all: set<nat>, dead: set<nat>) returns (delivered: nat, gone: set<nat>)
    ensures delivered == |all - dead| && gone == all * dead
  {
    delivered, gone := 0, {};
    var todo := all;
    ghost var done: set<nat> := {};
    while todo != {}
      invariant todo <= all && done == all - todo
      invariant gone == done * dead && delivered == |done - dead|
      decreases todo
    {
      var id :| id in todo;
      OneMore(all, todo, id, dead);
      if id !in dead {
        delivered := delivered + 1;
      } else {
        gone := gone + {id};
      }
      todo, done := todo - {id}, done + {id};
    }
    assert done == all;
  }

  lemma DeadOnly(channel: Channel, dead: set<nat>)
    ensures channel - channel.Keys * dead == channel - dead
  {
  }

  lemma OneMore(all: set<nat>, todo: set<nat>, id: nat, dead: set<nat>)
    requires id in todo && todo <= all
    ensures var done := all - todo;
            && done + {id} == all - (todo - {id})
            && (id in dead ==> (done + {id}) * dead == done * dead + {id} && (done + {id}) - dead == done - dead)
            && (id !in dead ==> (done + {id}) * dead == done * dead && |(done + {id}) - dead| == |done - dead| + 1)
  {
    var done := all - todo;
    if id !in dead {
      assert (done + {id}) - dead == (done - dead) + {id} && id !in done - dead;
    }
  }

  // ------------------------------------------------------------------ every run

  datatype Action =
    | Connect(conversation: string, user: string)
    | Disconnect(conversation: string, id: nat)
    | Broadcast(conversation: string, dead: set<nat>)

  // `vanished` are the users whose last connection to a conversation was pruned, not disconnected.
  datatype System = System(chans: Channels, nextId: nat, notices: seq<Notice>, vanished: set<(string, string)>)

  function Lost(channel: Channel, dead: set<nat>): set<string> {
    set id | id in channel && !Present(channel - dead, channel[id]) :: channel[id]
  }

  function Apply(s: System, a: Action): System {
    match a
    case Connect(conversation, user) =>
      System(Connected(s.chans, conversation, s.nextId, user), s.nextId + 1,
             s.notices + [Notice(conversation, user, true)], s.vanished - {(conversation, user)})
    case Disconnect(conversation, id) =>
      s.(chans := Disconnected(s.chans, conversation, id),
         notices := if AnnouncesLeave(s.chans, conversation, id)
                    then s.notices + [Notice(conversation, s.chans[conversation][id], false)] else s.notices)
    case Broadcast(conversation, dead) =>
      s.(chans := Pruned(s.chans, conversation, dead),
         vanished := s.vanished + set u | u in Lost(ChannelOf(s.chans, conversation), dead) :: (conversation, u))
  }

  function Run(acts: seq<Action>): System {
    if acts == [] then System(map[], 0, [], {}) else Apply(Run(acts[..|acts| - 1]), acts[|acts| - 1])
  }

  // What the channel was last told about a user.
  function LastNotice(notices: seq<Notice>, conversation: string, user: string): Option<bool> {
    if notices == [] then None
    else
      var last := notices[|notices| - 1];
      if last.conversation == conversation && last.user == user then Some(last.came)
      else LastNotice(notices[..|notices| - 1], conversation, user)
  }

  lemma LastNoticeOf(notices: seq<Notice>, n: Notice, conversation: string, user: string)
    ensures LastNotice(notices + [n], conversation, user)
         == if n.conversation == conversation && n.user == user then Some(n.came)
            else LastNotice(notices, conversation, user)
  {
    assert (notices + [n])[..|notices|] == notices;
  }

  // The notices say that a user is there exactly if a connection is, or the last one was pruned.
  ghost predicate Told(s: System, conversation: string, user: string) {
    && (LastNotice(s.notices, conversation, user) == Some(true)
        <==> Present(ChannelOf(s.chans, conversation), user) || (conversation, user) in s.vanished)
    && !(Present(ChannelOf(s.chans, conversation), user) && (conversation, user) in s.vanished)
  }

  ghost predicate FreshIds(s: System) {
    forall c, id | c in s.chans && id in s.chans[c] :: id < s.nextId
  }

  lemma ConnectTells(s: System, a: Action, conversation: string, user: string)
    requires a.Connect? && FreshIds(s) && Told(s, conversation, user)
    ensures Told(Apply(s, a), conversation, user)
  {
    LastNoticeOf(s.notices, Notice(a.conversation, a.user, true), conversation, user);
    hide LastNotice;
    var s' := Apply(s, a);
    var before, after := ChannelOf(s.chans, conversation), ChannelOf(s'.chans, conversation);
    if a.conversation == conversation {
      assert after == before[s.nextId := a.user] && s.nextId !in before;
      PresentAfterAdding(before, s.nextId, a.user, user);
    } else {
      assert after == before;
    }
    hide Present;
  }

  lemma PresentAfterAdding(channel: Channel, id: nat, newcomer: string, user: string)
    requires id !in channel
    ensures Present(channel[id := newcomer], user) <==> Present(channel, user) || user == newcomer
  {
    var after := channel[id := newcomer];
    if Present(channel, user) {
      var i :| i in channel && channel[i] == user;
      assert after[i] == user;
    }
    if user == newcomer {
      assert after[id] == user;
    }
  }

  lemma PresentAfterRemoving(channel: Channel, gone: set<nat>, user: string)
    ensures Present(channel - gone, user) ==> Present(channel, user)
    ensures forall id | gone == {id} && id in channel && channel[id] != user ::
              Present(channel, user) ==> Present(channel - gone, user)
  {
    var after := channel - gone;
    if i :| i in after && after[i] == user {
      assert channel[i] == user;
    }
    if i :| i in channel && channel[i] == user && i !in gone {
      assert after[i] == user;
    }
  }

  lemma DisconnectTells(s: System, a: Action, conversation: string, user: string)
    requires a.Disconnect? && Told(s, conversation, user)
    ensures Told(Apply(s, a), conversation, user)
  {
    var s' := Apply(s, a);
    var before, after := ChannelOf(s.chans, conversation), ChannelOf(s'.chans, conversation);
    if a.conversation == conversation && a.id in before {
      var leaving := before[a.id];
      assert after == before - {a.id};
      PresentAfterRemoving(before, {a.id}, user);
      LastNoticeOf(s.notices, Notice(conversation, leaving, false), conversation, user);
      assert Present(before, leaving);
    } else {
      assert after == before;
      var channel := ChannelOf(s.chans, a.conversation);
      var leaving := if a.id in channel then channel[a.id] else "";
      LastNoticeOf(s.notices, Notice(a.conversation, leaving, false), conversation, user);
    }
    hide Present;
    hide LastNotice;
  }

  lemma BroadcastTells(s: System, a: Action, conversation: string, user: string)
    requires a.Broadcast? && Told(s, conversation, user)
    ensures Told(Apply(s, a), conversation, user)
  {
    var s' := Apply(s, a);
    var before, after := ChannelOf(s.chans, conversation), ChannelOf(s'.chans, conversation);
    if a.conversation == conversation {
      assert after == before - a.dead;
      PresentAfterRemoving(before, a.dead, user);
      LostIffGone(before, a.dead, user);
      hide Lost;
    } else {
      assert after == before;
      assert (conversation, user) in s'.vanished <==> (conversation, user) in s.vanished;
    }
    hide Present;
    hide LastNotice;
  }

  lemma LostIffGone(channel: Channel, dead: set<nat>, user: string)
    ensures user in Lost(channel, dead) <==> Present(channel, user) && !Present(channel - dead, user)
  {
    if Present(channel, user) && !Present(channel - dead, user) {
      var id :| id in channel && channel[id] == user;
      assert channel[id] in Lost(channel, dead);
    }
  }

  lemma StepKeepsIdsFresh(s: System, a: Action)
    requires FreshIds(s)
    ensures FreshIds(Apply(s, a))
  {
    hide Present;
  }

  lemma {:induction false} RunTells(acts: seq<Action>, conversation: string, user: string)
    ensures Told(Run(acts), conversation, user) && FreshIds(Run(acts))
  {
    if acts != [] {
      var s, a := Run(acts[..|acts| - 1]), acts[|acts| - 1];
      RunTells(acts[..|acts| - 1], conversation, user);
      StepKeepsIdsFresh(s, a);
      match a
      case Connect(_, _) => ConnectTells(s, a, conversation, user);
      case Disconnect(_, _) => DisconnectTells(s, a, conversation, user);
      case Broadcast(_, _) => BroadcastTells(s, a, conversation, user);
      hide Told;
      hide FreshIds;
      hide Apply;
    }
  }

  // The channel takes a user for present, though no connection is left, exactly if the last one was pruned.
  lemma StalePresenceIff(acts: seq<Action>, conversation: string, user: string)
    ensures var s := Run(acts);
            (LastNotice(s.notices, conversation, user) == Some(true) && !Present(ChannelOf(s.chans, conversation), user)
             <==> (conversation, user) in s.vanished)
  {
    RunTells(acts, conversation, user);
    hide Run;
    hide LastNotice;
    hide Present;
  }

  // ------------------------------------------------------------------ channels without connections

  ghost predicate Deserted(chans: Channels, conversation: string) {
    conversation in chans && chans[conversation] == map[]
  }

  // Only a broadcast that finds every connection dead leaves an empty channel behind.
  lemma ChannelIsDesertedIff(s: System, a: Action, conversation: string)
    requires !Deserted(s.chans, conversation)
    ensures Deserted(Apply(s, a).chans, conversation)
       <==> && a.Broadcast? && a.conversation == conversation
            && conversation in s.chans && s.chans[conversation].Keys <= a.dead
  {
    hide Present;
    if a.Connect? && a.conversation == conversation {
      assert s.nextId in Apply(s, a).chans[conversation];
    }
    if a.Broadcast? && a.conversation == conversation && conversation in s.chans {
      EmptyAfter(s.chans[conversation], a.dead);
    }
  }

  lemma EmptyAfter(channel: Channel, dead: set<nat>)
    ensures channel - dead == map[] <==> channel.Keys <= dead
  {
    forall id | id in channel && id !in dead ensures channel - dead != map[] {
      assert id in channel - dead;
    }
  }

  // An empty channel stays in the table until somebody connects to it again.
  lemma {:induction false} DesertedChannelStays(acts: seq<Action>, more: seq<Action>, conversation: string)
    requires Deserted(Run(acts).chans, conversation)
    requires forall i | 0 <= i < |more| :: more[i].Connect? ==> more[i].conversation != conversation
    ensures Deserted(Run(acts + more).chans, conversation)
  {
    if more == [] {
      assert acts + more == acts;
    } else {
      var earlier, a := more[..|more| - 1], more[|more| - 1];
      DesertedChannelStays(acts, earlier, conversation);
      assert (acts + more)[..|acts + more| - 1] == acts + earlier;
      DesertedStep(Run(acts + earlier), a, conversation);
      hide Apply;
      hide Deserted;
    }
  }

  lemma DesertedStep(s: System, a: Action, conversation: string)
    requires Deserted(s.chans, conversation) && (a.Connect? ==> a.conversation != conversation)
    ensures Deserted(Apply(s, a).chans, conversation)
  {
    hide Present;
  }

  // ------------------------------------------------------------------ while every receiver lives

  // A socket keeps its receiver until it has disconnected, so a send fails only if the socket's work was cut short.
  ghost predicate AllAlive(acts: seq<Action>) {
    forall k | 0 <= k < |acts| :: acts[k].Broadcast? ==> acts[k].dead == {}
  }

  lemma NobodyLost(channel: Channel)
    ensures Lost(channel, {}) == {}
  {
    assert channel - {} == channel;
  }

  lemma {:induction false} NobodyVanishes(acts: seq<Action>, conversation: string)
    requires AllAlive(acts)
    ensures Run(acts).vanished == {} && !Deserted(Run(acts).chans, conversation)
  {
    if acts != [] {
      var before, a := acts[..|acts| - 1], acts[|acts| - 1];
      assert forall k | 0 <= k < |before| :: before[k] == acts[k];
      NobodyVanishes(before, conversation);
      var s := Run(before);
      ChannelIsDesertedIff(s, a, conversation);
      if a.Broadcast? {
        NobodyLost(ChannelOf(s.chans, a.conversation));
      }
      hide Lost;
      hide Connected;
      hide Disconnected;
      hide Pruned;
      hide AnnouncesLeave;
    }
  }

  // As long as no receiver is lost, the notices are true: a user was last announced as present exactly while a
  // connection is open, and no channel without connections is kept.
  lemma PresenceIsTrue(acts: seq<Action>, conversation: string, user: string)
    requires AllAlive(acts)
    ensures var s := Run(acts);
            && (LastNotice(s.notices, conversation, user) == Some(true)
                <==> Present(ChannelOf(s.chans, conversation), user))
            && (conversation in s.chans ==> s.chans[conversation] != map[])
  {
    NobodyVanishes(acts, conversation);
    RunTells(acts, conversation, user);
    hide Run;
    hide LastNotice;
    hide Present;
    hide AllAlive;
  }

  lemma RunSnoc(acts: seq<Action>, a: Action)
    ensures Run(acts + [a]) == Apply(Run(acts), a)
  {
    assert (acts + [a])[..|acts|] == acts;
  }

  // A lost receiver leaves both traces: the only connection is pruned, its user still counts as present, and the
  // channel stays behind without connections even after the disconnect.
  lemma LostReceiverLeavesTraces(conversation: string, user: string)
    ensures var s := Run([] + [Connect(conversation, user)] + [Broadcast(conversation, {0})]
                         + [Disconnect(conversation, 0)]);
            && (conversation, user) in s.vanished && Deserted(s.chans, conversation)
            && LastNotice(s.notices, conversation, user) == Some(true)
  {
    var acts := [] + [Connect(conversation, user)] + [Broadcast(conversation, {0})];
    assert Run([]) == System(map[], 0, [], {});
    RunSnoc([], Connect(conversation, user));
    RunSnoc([] + [Connect(conversation, user)], Broadcast(conversation, {0}));
    RunSnoc(acts, Disconnect(conversation, 0));
    hide Run;
    var one := Run([] + [Connect(conversation, user)]);
    assert one.chans == map[conversation := map[0 := user]] && one.notices == [Notice(conversation, user, true)];
    var two := Run(acts);
    var none: Channel := map[];
    assert map[0 := user] - {0} == none;
    assert two.chans == map[conversation := none] && two.notices == one.notices;
    LostOnly(user);
    assert user in Lost(one.chans[conversation], {0});
    assert (conversation, user) in two.vanished;
    LastNoticeOf([], Notice(conversation, user, true), conversation, user);
    assert [] + [Notice(conversation, user, true)] == [Notice(conversation, user, true)];
  }

  lemma LostOnly(user: string)
    ensures user in Lost(map[0 := user], {0})
  {
    var channel: Channel := map[0 := user];
    assert channel[0] == user;
    LostIffGone(channel, {0}, user);
  }
}
