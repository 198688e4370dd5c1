/**
 Keyed leases: exclusivity over a named resource for a bounded time. A lapsed lease can be taken
 over; the guard of the lapsed lease may still be around and must not release its successor.
 */
module LeaseLock {

  datatype Lease = Lease(token: nat, expiry: nat)

  type Holders = map<string, Lease>

  predicate Free(holders: Holders, key: string, now: nat) {
    key !in holders || holders[key].expiry <= now
  }

  // Dropping a guard removes the entry only if it is still the guard's own.
  function Released(holders: Holders, key: string, token: nat): Holders {
    if key in holders && holders[key].token == token then holders - {key} else holders
  }

  class KeyedLeaseLock {
    var holders: Holders
    var counter: nat

    constructor ()
      ensures holders == map[] && counter == 0
    {
      holders, counter := map[], 0;
    }

    // The section under the lock of one poll.
    method TryAcquire(key: string, lease: nat, now: nat) returns (ok: bool, token: nat)
      modifies this
      ensures ok <==> Free(old(holders), key, now)
      ensures ok <==> key !in old(holders) || old(holders)[key].expiry <= now
      ensures ok ==> token == old(counter) && counter == token + 1
                     && holders == old(holders)[key := Lease(token, now + lease)]
      ensures !ok ==> holders == old(holders) && counter == old(counter)
    {
      var free := true;
      if key in holders {
        free := holders[key].expiry <= now;
      }
      if !free {
        return false, 0;
      }
      token := counter;
      counter := counter + 1;
      holders := holders[key := Lease(token, now + lease)];
      ok := true;
    }

    // The polling loop. `others[i]` is the table, with its counter, as everybody else has left it when poll `i` gets
    // the lock. `times[0]` is read first; poll `i` reads `times[2 * i + 1]` under the lock and `times[2 * i + 2]`
    // before it sleeps. The lists go on until the deadline has passed.
    method Acquire(key: string, lease: nat, maxWait: nat, times: seq<nat>, others: seq<(Holders, nat)>)
      returns (ok: bool, token: nat, polls: nat)
      requires others != [] && |times| == 2 * |others| + 1
      requires times[2 * |others|] >= times[0] + maxWait
      modifies this
      ensures polls < |others|
      ensures forall i | 0 <= i < polls ::
                !Free(others[i].0, key, times[2 * i + 1]) && times[2 * i + 2] < times[0] + maxWait
      ensures ok <==> Free(others[polls].0, key, times[2 * polls + 1])
      ensures ok ==> token == others[polls].1 && counter == token + 1
                     && holders == others[polls].0[key := Lease(token, times[2 * polls + 1] + lease)]
      ensures !ok ==> (holders, counter) == others[polls] && times[2 * polls + 2] >= times[0] + maxWait
    {
      hide Free;
      var deadline := times[0] + maxWait;
      polls := 0;
      while true
        invariant polls < |others|
        invariant forall i | 0 <= i < polls :: !Free(others[i].0, key, times[2 * i + 1]) && times[2 * i + 2] < deadline
        decreases |others| - polls
      {
        holders, counter := others[polls].0, others[polls].1;
        ok, token := TryAcquire(key, lease, times[2 * polls + 1]);
        if ok {
          return;
        }
        if times[2 * polls + 2] >= deadline {
          return;
        }
        polls := polls + 1;
      }
    }

    method Drop(key: string, token: nat)
      modifies this`holders
      ensures holders == Released(old(holders), key, token)
      ensures holders == if key in old(holders) && old(holders)[key].token == token then old(holders) - {key}
                         else old(holders)
    {
      if key in holders && holders[key].token == token {
        holders := holders - {key};
      }
    }
  }

  // ------------------------------------------------------------------ all holders and contenders together

  // A guard that has not been dropped; the expiry is the one its lease was given.
  datatype Guard = Guard(key: string, token: nat, expiry: nat)

  datatype System = System(holders: Holders, counter: nat, guards: set<Guard>, clock: nat)

  datatype Action = Poll(key: string, lease: nat, now: nat) | Drop(guard: Guard)

  const INITIAL := System(map[], 0, {}, 0)

  // The clock is read under the lock, so it does not run backwards.
  predicate Enabled(s: System, a: Action) {
    match a
    case Poll(_, _, now) => s.clock <= now
    case Drop(g) => g in s.guards
  }

  function Effect(s: System, a: Action): System {
    match a
    case Poll(key, lease, now) =>
      if Free(s.holders, key, now) then
        System(s.holders[key := Lease(s.counter, now + lease)], s.counter + 1,
               s.guards + {Guard(key, s.counter, now + lease)}, now)
      else s.(clock := now)
    case Drop(g) =>
      s.(holders := Released(s.holders, g.key, g.token), guards := s.guards - {g})
  }

  function Run(acts: seq<Action>): System {
    if acts == [] then INITIAL
    else
      var s := Run(acts[..|acts| - 1]);
      if Enabled(s, acts[|acts| - 1]) then Effect(s, acts[|acts| - 1]) else s
  }

  // What a poll and a drop do in a run.
  lemma PollInRun(acts: seq<Action>, key: string, lease: nat, now: nat)
    requires Run(acts).clock <= now
    ensures Run([]) == INITIAL
    ensures var s, s' := Run(acts), Run(acts + [Poll(key, lease, now)]);
            && s'.clock == now
            && (key !in s.holders || s.holders[key].expiry <= now ==>
                  && s'.holders == s.holders[key := Lease(s.counter, now + lease)] && s'.counter == s.counter + 1
                  && s'.guards == s.guards + {Guard(key, s.counter, now + lease)})
            && (key in s.holders && s.holders[key].expiry > now ==>
                  s'.holders == s.holders && s'.counter == s.counter && s'.guards == s.guards)
  {
    assert (acts + [Poll(key, lease, now)])[..|acts|] == acts;
  }

  lemma DropInRun(acts: seq<Action>, g: Guard)
    requires g in Run(acts).guards
    ensures var s, s' := Run(acts), Run(acts + [Drop(g)]);
            && s'.holders == (if g.key in s.holders && s.holders[g.key].token == g.token then s.holders - {g.key}
                              else s.holders)
            && s'.guards == s.guards - {g} && s'.counter == s.counter && s'.clock == s.clock
  {
    assert (acts + [Drop(g)])[..|acts|] == acts;
  }

  predicate Unexpired(g: Guard, key: string, now: nat) {
    g.key == key && g.expiry > now
  }

  // Every guard has a token of its own.
  ghost predicate OwnTokens(s: System) {
    && (forall g | g in s.guards :: g.token < s.counter)
    && (forall g, h | g in s.guards && h in s.guards && g.token == h.token :: g == h)
  }

  // An entry of the table belongs to a guard, and an unexpired guard has its entry.
  ghost predicate Listed(s: System) {
    && (forall key | key in s.holders :: Guard(key, s.holders[key].token, s.holders[key].expiry) in s.guards)
    && (forall g | g in s.guards && g.expiry > s.clock ::
          g.key in s.holders && s.holders[g.key] == Lease(g.token, g.expiry))
  }

  ghost predicate Sound(s: System) {
    OwnTokens(s) && Listed(s)
  }

  lemma PollKeepsListed(s: System, a: Action)
    requires Listed(s) && a.Poll? && Enabled(s, a)
    ensures Listed(Effect(s, a))
  {
  }

  lemma PollIsSound(s: System, a: Action)
    requires Sound(s) && a.Poll? && Enabled(s, a)
    ensures Sound(Effect(s, a))
  {
    PollKeepsListed(s, a);
    hide Listed;
  }

  lemma DropIsSound(s: System, a: Action)
    requires Sound(s) && a.Drop? && Enabled(s, a)
    ensures Sound(Effect(s, a))
  {
  }

  lemma {:induction false} RunIsSound(acts: seq<Action>)
    ensures Sound(Run(acts))
  {
    if acts != [] {
      var s, a := Run(acts[..|acts| - 1]), acts[|acts| - 1];
      RunIsSound(acts[..|acts| - 1]);
      if Enabled(s, a) {
        if a.Poll? {
          PollIsSound(s, a);
        } else {
          DropIsSound(s, a);
        }
      }
      hide Sound;
      hide Effect;
    }
  }

  // At any moment at most one undropped guard per key is unexpired, and no two guards share a token.
  lemma LeasesAreExclusive(acts: seq<Action>, g: Guard, h: Guard, key: string, now: nat)
    requires g in Run(acts).guards && h in Run(acts).guards && Run(acts).clock <= now
    ensures Unexpired(g, key, now) && Unexpired(h, key, now) ==> g == h
    ensures g.token == h.token ==> g == h
  {
    RunIsSound(acts);
  }

  // A poll succeeds exactly when no undropped guard of the key is unexpired: the table of tokens
  // and expiries behaves like the set of live leases, and a lapsed lease never blocks anybody.
  lemma PollSucceedsIffNoLiveLease(acts: seq<Action>, key: string, now: nat)
    requires Run(acts).clock <= now
    ensures Free(Run(acts).holders, key, now) <==> !exists g :: g in Run(acts).guards && Unexpired(g, key, now)
  {
    RunIsSound(acts);
    var s := Run(acts);
    if key in s.holders && s.holders[key].expiry > now {
      assert Unexpired(Guard(key, s.holders[key].token, s.holders[key].expiry), key, now);
    }
  }

  // Dropping a guard frees its key unless another lease has been granted since: whoever holds an
  // unexpired lease besides the dropped guard keeps it.
  lemma DropReleasesOnlyItself(acts: seq<Action>, g: Guard, key: string, now: nat)
    requires g in Run(acts).guards && Run(acts).clock <= now
    ensures var s' := Effect(Run(acts), Drop(g));
            Free(s'.holders, key, now) <==> !exists h :: h in Run(acts).guards && h != g && Unexpired(h, key, now)
    ensures forall h | h in Run(acts).guards && h != g && h.expiry > now ::
              var s' := Effect(Run(acts), Drop(g));
              h.key in s'.holders && s'.holders[h.key] == Lease(h.token, h.expiry)
  {
    var more := acts + [Drop(g)];
    assert more[..|acts|] == acts;
    assert Run(more) == Effect(Run(acts), Drop(g));
    RunIsSound(acts);
    RunIsSound(more);
    PollSucceedsIffNoLiveLease(more, key, now);
    assert forall h :: h in Run(more).guards <==> h in Run(acts).guards && h != g;
  }

  // A poll for the guard's key that got the lease.
  predicate Regrants(s: System, a: Action, g: Guard) {
    a.Poll? && a.key == g.key && Enabled(s, a) && Free(s.holders, a.key, a.now)
  }

  // The entry of the key, if there is one, belongs to a later guard.
  predicate Superseded(s: System, g: Guard) {
    g.token < s.counter && (g.key in s.holders ==> s.holders[g.key].token != g.token)
  }

  lemma StaysSuperseded(s: System, a: Action, g: Guard)
    requires Enabled(s, a) && g.token < s.counter && (Superseded(s, g) || Regrants(s, a, g))
    ensures Superseded(Effect(s, a), g)
  {
  }

  lemma {:induction false} RegrantedIsSuperseded(acts: seq<Action>, more: seq<Action>, k: nat, g: Guard)
    requires g in Run(acts).guards
    requires k < |more| && Regrants(Run(acts + more[..k]), more[k], g)
    ensures Superseded(Run(acts + more), g)
  {
    var before, a := more[..|more| - 1], more[|more| - 1];
    assert (acts + more)[..|acts + more| - 1] == acts + before;
    CounterGrows(acts, before, g);
    if k < |before| {
      assert before[..k] == more[..k];
      RegrantedIsSuperseded(acts, before, k, g);
    } else {
      assert more[..k] == before;
    }
    if Enabled(Run(acts + before), a) {
      StaysSuperseded(Run(acts + before), a, g);
    }
    hide Superseded;
    hide Regrants;
    hide Effect;
  }

  lemma {:induction false} CounterGrows(acts: seq<Action>, more: seq<Action>, g: Guard)
    requires g in Run(acts).guards
    ensures g.token < Run(acts + more).counter
  {
    if more == [] {
      assert acts + more == acts;
      RunIsSound(acts);
    } else {
      CounterGrows(acts, more[..|more| - 1], g);
      assert (acts + more)[..|acts + more| - 1] == acts + more[..|more| - 1];
    }
  }

  // A guard whose key was granted again since drops without any effect on the table, whatever became of the new guard.
  lemma StaleDropIsHarmless(acts: seq<Action>, more: seq<Action>, k: nat, g: Guard)
    requires g in Run(acts).guards
    requires k < |more| && Regrants(Run(acts + more[..k]), more[k], g)
    ensures Effect(Run(acts + more), Drop(g)).holders == Run(acts + more).holders
  {
    RegrantedIsSuperseded(acts, more, k, g);
    hide Run;
  }

  // The entry of a key never belongs to a guard that has a newer one beside it.
  lemma {:induction false} NewestTokenHolds(acts: seq<Action>, g: Guard, h: Guard)
    requires g in Run(acts).guards && h in Run(acts).guards
    requires g.key == h.key && g.token < h.token
    ensures g.key in Run(acts).holders ==> Run(acts).holders[g.key].token != g.token
  {
    if acts != [] {
      var before, a := acts[..|acts| - 1], acts[|acts| - 1];
      RunIsSound(before);
      if g in Run(before).guards && h in Run(before).guards {
        NewestTokenHolds(before, g, h);
      }
      if Enabled(Run(before), a) {
        NewestTokenStep(Run(before), a, g, h);
      }
      hide Sound;
      hide Effect;
    }
  }

  lemma NewestTokenStep(s: System, a: Action, g: Guard, h: Guard)
    requires Sound(s) && Enabled(s, a) && g in Effect(s, a).guards && h in Effect(s, a).guards
    requires g.key == h.key && g.token < h.token
    requires g in s.guards && h in s.guards && g.key in s.holders ==> s.holders[g.key].token != g.token
    ensures g.key in Effect(s, a).holders ==> Effect(s, a).holders[g.key].token != g.token
  {
  }
}
