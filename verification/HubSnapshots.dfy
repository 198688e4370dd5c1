/**
 Hubs of several processes and the user states they persist: a hub restores only what some hub saved
 before, so the subscription ceiling survives snapshots, restarts and any order of saving.
 */
module HubSnapshots {
  import opened Hub
  import opened Wrappers

  // `saved` holds every snapshot of a user's subscriptions that was ever taken for saving.
  datatype Cluster = Cluster(hubs: map<nat, System>, saved: set<(string, set<string>)>)

  // `Save` takes a snapshot, when asked for or with a user's last connection; it may reach the table at any time.
  datatype Event = Act(hub: nat, a: Action) | Save(hub: nat, user: string) | Restart(hub: nat)

  function HubOf(c: Cluster, hub: nat): System {
    if hub in c.hubs then c.hubs[hub] else INITIAL
  }

  // A row that cannot be read restores no subscriptions.
  predicate Restorable(c: Cluster, a: Action)
    requires a.Restore?
  {
    a.subscriptions == {} || (a.user, a.subscriptions) in c.saved
  }

  function After(c: Cluster, e: Event): Cluster {
    match e
    case Act(hub, a) =>
      if a.Restore? && !Restorable(c, a) then c else c.(hubs := c.hubs[hub := Apply(HubOf(c, hub), a)])
    case Save(hub, user) =>
      c.(saved := c.saved + {(user, Subscriptions(HubOf(c, hub).r.users, user))})
    case Restart(hub) => c.(hubs := c.hubs[hub := INITIAL])
  }

  function History(events: seq<Event>): Cluster {
    if events == [] then Cluster(map[], {}) else After(History(events[..|events| - 1]), events[|events| - 1])
  }

  ghost predicate WithinCeiling(c: Cluster) {
    && (forall hub, user :: |Subscriptions(HubOf(c, hub).r.users, user)| <= MAX_SUBSCRIPTIONS_PER_USER)
    && (forall row | row in c.saved :: |row.1| <= MAX_SUBSCRIPTIONS_PER_USER)
  }

  lemma EventKeepsCeiling(c: Cluster, e: Event)
    requires WithinCeiling(c)
    ensures WithinCeiling(After(c, e))
  {
    hide Apply;
    match e
    case Act(hub, a) =>
      if !(a.Restore? && !Restorable(c, a)) {
        forall user ensures |Subscriptions(Apply(HubOf(c, hub), a).r.users, user)| <= MAX_SUBSCRIPTIONS_PER_USER {
          StepKeepsSubscriptions(HubOf(c, hub), a, MAX_SUBSCRIPTIONS_PER_USER, user);
        }
        hide Subscriptions;
        assert forall other | other != hub :: HubOf(After(c, e), other) == HubOf(c, other);
      }
    case Save(hub, user) =>
      hide Subscriptions;
      assert forall other :: HubOf(After(c, e), other) == HubOf(c, other);
    case Restart(hub) =>
      assert forall other | other != hub :: HubOf(After(c, e), other) == HubOf(c, other);
  }

  lemma {:induction false} HistoryKeepsCeiling(events: seq<Event>)
    ensures WithinCeiling(History(events))
  {
    if events != [] {
      HistoryKeepsCeiling(events[..|events| - 1]);
      EventKeepsCeiling(History(events[..|events| - 1]), events[|events| - 1]);
      hide WithinCeiling;
    }
  }

  // In every history no user has more subscriptions than the ceiling, in any hub and in any saved state.
  lemma SubscriptionsStayWithinCeiling(events: seq<Event>, hub: nat, user: string)
    ensures |Subscriptions(HubOf(History(events), hub).r.users, user)| <= MAX_SUBSCRIPTIONS_PER_USER
    ensures forall row | row in History(events).saved :: |row.1| <= MAX_SUBSCRIPTIONS_PER_USER
  {
    HistoryKeepsCeiling(events);
    hide History;
  }
}
