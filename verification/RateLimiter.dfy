/**
 The sliding-window request limiter. It forgets a caller's old hits whenever it looks at them, and
 forgets whole callers when pruned; every decision is nevertheless the one of a limiter that
 remembers every admitted request.
 */
module RateLimiter {
  import opened SlidingWindow

  const NANOS_PER_SEC: nat := 1_000_000_000

  datatype Policy = Policy(scope: string, maxRequests: nat, window: nat)

  datatype Decision = Decision(allowed: bool, limit: nat, remaining: nat, resetSecs: nat)

  type Key = (string, string)
  type Buckets = map<Key, seq<nat>>

  function Hits(b: Buckets, key: Key): seq<nat> {
    if key in b then b[key] else []
  }

  // Whole seconds until the oldest live hit leaves the window, rounded up past it.
  function ResetSecs(live: seq<nat>, now: nat, window: nat): nat {
    if live == [] then window / NANOS_PER_SEC
    else (if Elapsed(now, live[0]) <= window then window - Elapsed(now, live[0]) else 0) / NANOS_PER_SEC + 1
  }

  function Checked(b: Buckets, p: Policy, caller: string, now: nat): (Buckets, Decision) {
    var key := (p.scope, caller);
    var live := Live(Hits(b, key), now, p.window);
    var reset := ResetSecs(live, now, p.window);
    if |live| >= p.maxRequests then (b[key := live], Decision(false, p.maxRequests, 0, reset))
    else (b[key := live + [now]], Decision(true, p.maxRequests, p.maxRequests - |live| - 1, reset))
  }

  function Pruned(b: Buckets, maxWindow: nat, now: nat): Buckets {
    map key | key in b && Live(b[key], now, maxWindow) != [] :: Live(b[key], now, maxWindow)
  }

  // ------------------------------------------------------------------ the limiter object

  method Retain(hits: seq<nat>, now: nat, window: nat) returns (live: seq<nat>)
    ensures live == Live(hits, now, window)
  {
    live := [];
    for i := 0 to |hits|
      invariant live == Live(hits[..i], now, window)
    {
      assert hits[..i + 1][..i] == hits[..i];
      if Elapsed(now, hits[i]) < window {
        live := live + [hits[i]];
      }
    }
    assert hits[..|hits|] == hits;
  }

  class Limiter {
    var buckets: Buckets
    var totalChecks: nat
    var totalBlocked: nat
    // A panic while the lock was held.
    var poisoned: bool

    constructor ()
      ensures buckets == map[] && totalChecks == totalBlocked == 0 && !poisoned
    {
      buckets, totalChecks, totalBlocked, poisoned := map[], 0, 0, false;
    }

    method Check(policy: Policy, caller: string, now: nat) returns (d: Decision)
      modifies this`buckets, this`totalChecks, this`totalBlocked
      ensures totalChecks == old(totalChecks) + 1
      ensures totalBlocked == old(totalBlocked) + if d.allowed then 0 else 1
      ensures !poisoned ==> (buckets, d) == Checked(old(buckets), policy, caller, now)
      ensures d.limit == policy.maxRequests
      ensures !poisoned ==>
                var key := (policy.scope, caller);
                var live := Live(if key in old(buckets) then old(buckets)[key] else [], now, policy.window);
                && (d.allowed <==> |live| < policy.maxRequests)
                && buckets == old(buckets)[key := if d.allowed then live + [now] else live]
                && d.remaining == (if d.allowed then policy.maxRequests - |live| - 1 else 0)
                && (live == [] ==> d.resetSecs == policy.window / NANOS_PER_SEC)
                && (live != [] && live[0] <= now <= live[0] + policy.window ==>
                      d.resetSecs == (live[0] + policy.window - now) / NANOS_PER_SEC + 1)
      // Login and auth fail closed, everything else fails open.
      ensures poisoned ==> buckets == old(buckets) && (d.allowed <==> policy.scope !in {"auth", "login"})
      ensures poisoned ==> d.remaining == (if d.allowed then policy.maxRequests else 0)
      ensures poisoned ==> d.resetSecs == policy.window / NANOS_PER_SEC
    {
      totalChecks := totalChecks + 1;
      if poisoned {
        var failClosed := policy.scope == "auth" || policy.scope == "login";
        if failClosed {
          totalBlocked := totalBlocked + 1;
        }
        return Decision(!failClosed, policy.maxRequests, if failClosed then 0 else policy.maxRequests,
                        policy.window / NANOS_PER_SEC);
      }
      var key := (policy.scope, caller);
      var hits := Retain(if key in buckets then buckets[key] else [], now, policy.window);
      var reset := policy.window / NANOS_PER_SEC;
      if hits != [] {
        var age := Elapsed(now, hits[0]);
        reset := (if age <= policy.window then policy.window - age else 0) / NANOS_PER_SEC + 1;
      }
      if |hits| >= policy.maxRequests {
        buckets := buckets[key := hits];
        totalBlocked := totalBlocked + 1;
        return Decision(false, policy.maxRequests, 0, reset);
      }
      hits := hits + [now];
      buckets := buckets[key := hits];
      d := Decision(true, policy.maxRequests, policy.maxRequests - |hits|, reset);
    }

    method Prune(maxWindow: nat, now: nat)
      modifies this`buckets
      ensures buckets == if poisoned then old(buckets) else Pruned(old(buckets), maxWindow, now)
      ensures !poisoned ==>
                && (forall key :: key in buckets <==>
                      key in old(buckets) && Live(old(buckets)[key], now, maxWindow) != [])
                && (forall key | key in buckets :: buckets[key] == Live(old(buckets)[key], now, maxWindow))
    {
      if poisoned {
        return;
      }
      var keys, kept := buckets.Keys, map[];
      while keys != {}
        invariant keys <= buckets.Keys && buckets == old(buckets)
        invariant kept == map key | key in buckets && key !in keys && Live(buckets[key], now, maxWindow) != [] ::
                            Live(buckets[key], now, maxWindow)
      {
        var key :| key in keys;
        var hits := Retain(buckets[key], now, maxWindow);
        if hits != [] {
          kept := kept[key := hits];
        }
        keys := keys - {key};
      }
      buckets := kept;
    }
  }

  // ------------------------------------------------------------------ runs, with everything remembered

  datatype Action = Check(scope: string, caller: string, now: nat) | Prune(maxWindow: nat, now: nat)

  // `history` holds the times of all admitted requests of a caller.
  datatype State = State(buckets: Buckets, history: map<Key, seq<nat>>, clock: nat)

  const INITIAL := State(map[], map[], 0)

  // Times do not run backwards, every scope has one policy, and pruning respects the windows.
  ghost predicate Enabled(policies: map<string, Policy>, s: State, a: Action) {
    && s.clock <= a.now
    && match a
       case Check(scope, _, _) => Known(policies, scope)
       case Prune(maxWindow, _) => forall scope | scope in policies :: policies[scope].window <= maxWindow
  }

  function AfterCheck(s: State, p: Policy, caller: string, now: nat): State {
    var (buckets, d) := Checked(s.buckets, p, caller, now);
    var key := (p.scope, caller);
    State(buckets, if d.allowed then s.history[key := Hits(s.history, key) + [now]] else s.history, now)
  }

  function Effect(policies: map<string, Policy>, s: State, a: Action): State
    requires a.Check? ==> a.scope in policies
  {
    match a
    case Check(scope, caller, now) => AfterCheck(s, policies[scope], caller, now)
    case Prune(maxWindow, now) =>
      State(Pruned(s.buckets, maxWindow, now), s.history, now)
  }

  ghost function RunFrom(policies: map<string, Policy>, s: State, acts: seq<Action>): State {
    if acts == [] then s
    else
      var before := RunFrom(policies, s, acts[..|acts| - 1]);
      var a := acts[|acts| - 1];
      if Enabled(policies, before, a) then Effect(policies, before, a) else before
  }

  // For every later moment, the bucket and the full history agree on what is live.
  ghost predicate Agrees(hits: seq<nat>, history: seq<nat>, clock: nat, window: nat) {
    forall now | clock <= now :: Live(hits, now, window) == Live(history, now, window)
  }

  ghost predicate SoundFor(hits: seq<nat>, history: seq<nat>, clock: nat, p: Policy) {
    && Agrees(hits, history, clock, p.window)
    && WellAdmitted(history, p.maxRequests, p.window)
    && (forall now | clock <= now :: |Live(history, now, p.window)| <= p.maxRequests)
    && (forall t | t in history :: t <= clock)
  }

  // The scopes that have a policy.
  ghost predicate Known(policies: map<string, Policy>, scope: string) {
    scope in policies && policies[scope].scope == scope
  }

  ghost predicate Sound(policies: map<string, Policy>, s: State) {
    forall scope, caller | Known(policies, scope) ::
      SoundFor(Hits(s.buckets, (scope, caller)), Hits(s.history, (scope, caller)), s.clock, policies[scope])
  }

  // Forgetting what is dead keeps the agreement.
  lemma ForgettingIsSound(hits: seq<nat>, history: seq<nat>, clock: nat, p: Policy, wider: nat, now: nat)
    requires SoundFor(hits, history, clock, p) && clock <= now && p.window <= wider
    ensures SoundFor(Live(hits, now, wider), history, now, p)
  {
    forall later | now <= later
      ensures Live(Live(hits, now, wider), later, p.window) == Live(history, later, p.window)
    {
      LiveOfLive(hits, now, wider, later, p.window);
    }
  }

  // So does remembering a newly admitted request on both sides.
  lemma AdmittingIsSound(hits: seq<nat>, history: seq<nat>, p: Policy, now: nat)
    requires SoundFor(hits, history, now, p) && |Live(history, now, p.window)| < p.maxRequests
    ensures SoundFor(hits + [now], history + [now], now, p)
  {
    AdmitKeepsWellAdmitted(history, now, p.maxRequests, p.window);
    forall later | now <= later
      ensures Live(hits + [now], later, p.window) == Live(history + [now], later, p.window)
      ensures |Live(history + [now], later, p.window)| <= p.maxRequests
    {
      LiveSnoc(hits, now, later, p.window);
      LiveSnoc(history, now, later, p.window);
      LiveOfLive(history, now, p.window, later, p.window);
      LiveIsShorter(Live(history, now, p.window), later, p.window);
    }
  }

  // What a check and a clean-up do to one caller's bucket and history.
  lemma HitsAfterCheck(s: State, p: Policy, caller: string, now: nat, key: Key)
    ensures var live, s' := Live(Hits(s.buckets, key), now, p.window), AfterCheck(s, p, caller, now);
            && s'.clock == now
            && Hits(s'.buckets, key) == (if key != (p.scope, caller) then Hits(s.buckets, key)
                                         else if |live| >= p.maxRequests then live else live + [now])
            && Hits(s'.history, key) == (if key == (p.scope, caller) && |live| < p.maxRequests
                                         then Hits(s.history, key) + [now] else Hits(s.history, key))
  {
    hide Live;
  }

  lemma HitsAfterPrune(b: Buckets, maxWindow: nat, now: nat, key: Key)
    ensures Hits(Pruned(b, maxWindow, now), key) == Live(Hits(b, key), now, maxWindow)
  {
    assert Live([], now, maxWindow) == [];
    hide Live;
  }

  lemma StepIsSound(policies: map<string, Policy>, s: State, a: Action)
    requires Sound(policies, s) && Enabled(policies, s, a)
    ensures Sound(policies, Effect(policies, s, a))
  {
    forall scope, caller | Known(policies, scope)
      ensures var s' := Effect(policies, s, a);
              SoundFor(Hits(s'.buckets, (scope, caller)), Hits(s'.history, (scope, caller)), s'.clock, policies[scope])
    {
      var p, key := policies[scope], (scope, caller);
      var hits, history := Hits(s.buckets, key), Hits(s.history, key);
      assert SoundFor(hits, history, s.clock, p);
      match a
      case Check(asked, caller', now) =>
        HitsAfterCheck(s, policies[asked], caller', now, key);
        ForgettingIsSound(hits, history, s.clock, p, p.window, now);
        StaysSoundLater(hits, history, s.clock, p, now);
        assert |Live(Live(hits, now, p.window), now, p.window)| == |Live(history, now, p.window)|;
        LiveOfLive(hits, now, p.window, now, p.window);
        hide SoundFor;
        hide Live;
        hide AfterCheck;
        if |Live(hits, now, p.window)| < p.maxRequests {
          AdmittingIsSound(Live(hits, now, p.window), history, p, now);
        }
      case Prune(maxWindow, now) =>
        HitsAfterPrune(s.buckets, maxWindow, now, key);
        ForgettingIsSound(hits, history, s.clock, p, maxWindow, now);
        hide SoundFor;
        hide Live;
    }
  }

  lemma StaysSoundLater(hits: seq<nat>, history: seq<nat>, clock: nat, p: Policy, now: nat)
    requires SoundFor(hits, history, clock, p) && clock <= now
    ensures SoundFor(hits, history, now, p)
  {
  }

  lemma {:induction false} RunKeepsSound(policies: map<string, Policy>, s: State, acts: seq<Action>)
    requires Sound(policies, s)
    ensures Sound(policies, RunFrom(policies, s, acts))
  {
    if acts != [] {
      var a := acts[|acts| - 1];
      RunKeepsSound(policies, s, acts[..|acts| - 1]);
      var before := RunFrom(policies, s, acts[..|acts| - 1]);
      if Enabled(policies, before, a) {
        StepIsSound(policies, before, a);
      }
      hide Sound;
      hide Enabled;
      hide Effect;
    }
  }

  lemma InitIsSound(policies: map<string, Policy>)
    ensures Sound(policies, INITIAL)
  {
  }

  // ------------------------------------------------------------------ the main results

  // The history of a caller grows by exactly the requests the limiter lets through, and by nothing else.
  lemma HistoryIsAdmissions(policies: map<string, Policy>, acts: seq<Action>, a: Action, scope: string, caller: string)
    requires Known(policies, scope) && Enabled(policies, RunFrom(policies, INITIAL, acts), a)
    ensures var s, s' := RunFrom(policies, INITIAL, acts), RunFrom(policies, INITIAL, acts + [a]);
            && s'.clock == a.now
            && (a.Check? ==> s'.buckets == Checked(s.buckets, policies[a.scope], a.caller, a.now).0)
            && (a.Prune? ==> s'.buckets == Pruned(s.buckets, a.maxWindow, a.now))
            && var admitted := && a == Check(scope, caller, a.now)
                               && Checked(s.buckets, policies[scope], caller, a.now).1.allowed;
               Hits(s'.history, (scope, caller)) == Hits(s.history, (scope, caller)) + if admitted then [a.now] else []
  {
    assert (acts + [a])[..|acts|] == acts;
    var history := Hits(RunFrom(policies, INITIAL, acts).history, (scope, caller));
    assert history + [] == history;
    hide Live;
  }

  // In every run, a request is allowed exactly when fewer than the maximum of all requests admitted
  // so far to this scope and caller lie within the last window. Pruning never shows.
  lemma DecidesLikeFullHistory(policies: map<string, Policy>, acts: seq<Action>, scope: string, caller: string,
          now: nat)
    requires Known(policies, scope) && RunFrom(policies, INITIAL, acts).clock <= now
    ensures var s, p := RunFrom(policies, INITIAL, acts), policies[scope];
            var recent := Live(Hits(s.history, (scope, caller)), now, p.window);
            var d := Checked(s.buckets, p, caller, now).1;
            && (d.allowed <==> |recent| < p.maxRequests)
            && d.resetSecs == ResetSecs(recent, now, p.window)
            && d.remaining == if d.allowed then p.maxRequests - |recent| - 1 else 0
  {
    InitIsSound(policies);
    RunKeepsSound(policies, INITIAL, acts);
    var s := RunFrom(policies, INITIAL, acts);
    assert SoundFor(Hits(s.buckets, (scope, caller)), Hits(s.history, (scope, caller)), s.clock, policies[scope]);
  }

  // No interval of one window ever holds more than the maximum of admitted requests.
  lemma AdmissionRateIsBounded(policies: map<string, Policy>, acts: seq<Action>, scope: string, caller: string, lo: nat)
    requires Known(policies, scope)
    ensures var p := policies[scope];
            var history := Hits(RunFrom(policies, INITIAL, acts).history, (scope, caller));
            InInterval(history, lo, lo + p.window) <= p.maxRequests
  {
    InitIsSound(policies);
    RunKeepsSound(policies, INITIAL, acts);
    var s, p := RunFrom(policies, INITIAL, acts), policies[scope];
    assert SoundFor(Hits(s.buckets, (scope, caller)), Hits(s.history, (scope, caller)), s.clock, p);
    WindowIsNeverOverfull(Hits(s.history, (scope, caller)), p.maxRequests, p.window, lo);
  }

  // The hint after a block: it overshoots the moment the oldest live hit leaves by at most a second.
  lemma ResetHintIsTight(live: seq<nat>, now: nat, window: nat)
    requires live != [] && Elapsed(now, live[0]) < window
    ensures var left, hint := window - Elapsed(now, live[0]), ResetSecs(live, now, window) * NANOS_PER_SEC;
            left < hint <= left + NANOS_PER_SEC
  {
    var left := window - Elapsed(now, live[0]);
    assert left == left / NANOS_PER_SEC * NANOS_PER_SEC + left % NANOS_PER_SEC;
  }

  // What is left of a full window at a later moment.
  lemma FullWindowLater(history: seq<nat>, now: nat, retry: nat, p: Policy)
    requires now <= retry && |Live(history, now, p.window)| == p.maxRequests
    requires forall t | t in history :: t <= now
    ensures var recent, later := Live(history, now, p.window), Live(history, retry, p.window);
            && |later| <= |recent|
            && (retry >= now + ResetSecs(recent, now, p.window) * NANOS_PER_SEC && p.maxRequests > 0 ==>
                 |later| < |recent|)
            && ((forall i | 0 <= i < |recent| :: Elapsed(retry, recent[i]) < p.window) ==> |later| == |recent|)
  {
    var recent := Live(history, now, p.window);
    LiveOfLive(history, now, p.window, retry, p.window);
    LiveMembers(history, now, p.window);
    hide Live;
    LiveIsShorter(recent, retry, p.window);
    if p.maxRequests > 0 {
      assert recent[0] in recent;
      ResetHintIsTight(recent, now, p.window);
      if retry >= now + ResetSecs(recent, now, p.window) * NANOS_PER_SEC {
        DeadFirstIsGone(recent, retry, p.window);
      }
    }
    if forall i | 0 <= i < |recent| :: Elapsed(retry, recent[i]) < p.window {
      AllLive(recent, retry, p.window);
    }
  }

  // A caller that was blocked and waits for the hint, with no request of its own admitted meanwhile,
  // is allowed exactly if the policy admits anything at all; before the oldest live hit leaves, it stays blocked.
  lemma RetryHintIsSufficient(policies: map<string, Policy>, acts: seq<Action>, more: seq<Action>,
                              scope: string, caller: string, now: nat, retry: nat)
    requires Known(policies, scope) && RunFrom(policies, INITIAL, acts).clock <= now <= retry
    requires !Checked(RunFrom(policies, INITIAL, acts).buckets, policies[scope], caller, now).1.allowed
    requires RunFrom(policies, INITIAL, acts + more).clock <= retry
    requires Hits(RunFrom(policies, INITIAL, acts + more).history, (scope, caller)) ==
             Hits(RunFrom(policies, INITIAL, acts).history, (scope, caller))
    ensures var p := policies[scope];
            var blocked := Checked(RunFrom(policies, INITIAL, acts).buckets, p, caller, now).1;
            var again := Checked(RunFrom(policies, INITIAL, acts + more).buckets, p, caller, retry).1;
            var recent := Live(Hits(RunFrom(policies, INITIAL, acts).history, (scope, caller)), now, p.window);
            && (retry >= now + blocked.resetSecs * NANOS_PER_SEC ==> (again.allowed <==> p.maxRequests > 0))
            && ((forall i | 0 <= i < |recent| :: Elapsed(retry, recent[i]) < p.window) ==> !again.allowed)
  {
    var p := policies[scope];
    DecidesLikeFullHistory(policies, acts, scope, caller, now);
    DecidesLikeFullHistory(policies, acts + more, scope, caller, retry);
    InitIsSound(policies);
    RunKeepsSound(policies, INITIAL, acts);
    var s := RunFrom(policies, INITIAL, acts);
    var history := Hits(s.history, (scope, caller));
    assert |Live(history, now, p.window)| == p.maxRequests && forall t | t in history :: t <= now by {
      assert SoundFor(Hits(s.buckets, (scope, caller)), history, s.clock, p);
    }
    hide Sound;
    hide Live;
    hide RunFrom;
    hide Checked;
    FullWindowLater(history, now, retry, p);
  }

  // ------------------------------------------------------------------ the remaining count

  function Repeated(b: Buckets, p: Policy, caller: string, now: nat, n: nat): Buckets {
    if n == 0 then b else Checked(Repeated(b, p, caller, now, n - 1), p, caller, now).0
  }

  function Min(a: nat, b: nat): nat {
    if a < b then a else b
  }

  function LiveCount(b: Buckets, p: Policy, caller: string, now: nat): nat {
    |Live(Hits(b, (p.scope, caller)), now, p.window)|
  }

  lemma CheckFillsOne(b: Buckets, p: Policy, caller: string, now: nat)
    requires p.window > 0 && LiveCount(b, p, caller, now) <= p.maxRequests
    ensures LiveCount(Checked(b, p, caller, now).0, p, caller, now) ==
              Min(LiveCount(b, p, caller, now) + 1, p.maxRequests)
    ensures Checked(b, p, caller, now).1.allowed <==> LiveCount(b, p, caller, now) < p.maxRequests
    ensures Checked(b, p, caller, now).1.remaining ==
              p.maxRequests - Min(LiveCount(b, p, caller, now) + 1, p.maxRequests)
  {
    var hits := Hits(b, (p.scope, caller));
    var live := Live(hits, now, p.window);
    LiveOfLive(hits, now, p.window, now, p.window);
    LiveSnoc(live, now, now, p.window);
    hide Live;
    assert Hits(Checked(b, p, caller, now).0, (p.scope, caller)) ==
         if |live| >= p.maxRequests then live else live + [now];
  }

  lemma RepeatedOnce(b: Buckets, p: Policy, caller: string, now: nat, n: nat)
    ensures Repeated(b, p, caller, now, 0) == b
    ensures Repeated(b, p, caller, now, n + 1) == Checked(Repeated(b, p, caller, now, n), p, caller, now).0
  {
  }

  lemma {:induction false} WindowFillsUp(b: Buckets, p: Policy, caller: string, now: nat, n: nat)
    requires p.window > 0 && LiveCount(b, p, caller, now) <= p.maxRequests
    ensures LiveCount(Repeated(b, p, caller, now, n), p, caller, now) ==
              Min(LiveCount(b, p, caller, now) + n, p.maxRequests)
  {
    hide LiveCount;
    hide Checked;
    hide Repeated;
    if n == 0 {
      RepeatedOnce(b, p, caller, now, 0);
    } else {
      WindowFillsUp(b, p, caller, now, n - 1);
      RepeatedOnce(b, p, caller, now, n - 1);
      CheckFillsOne(Repeated(b, p, caller, now, n - 1), p, caller, now);
    }
  }

  // In a run the window of a caller is never overfull.
  lemma WindowHasRoom(policies: map<string, Policy>, acts: seq<Action>, scope: string, caller: string, now: nat)
    requires Known(policies, scope) && RunFrom(policies, INITIAL, acts).clock <= now
    ensures LiveCount(RunFrom(policies, INITIAL, acts).buckets, policies[scope], caller, now)
         <= policies[scope].maxRequests
  {
    InitIsSound(policies);
    RunKeepsSound(policies, INITIAL, acts);
    var s := RunFrom(policies, INITIAL, acts);
    assert SoundFor(Hits(s.buckets, (scope, caller)), Hits(s.history, (scope, caller)), s.clock, policies[scope]);
    hide RunFrom;
  }

  // The count a decision reports as remaining is exactly the number of further requests that would be
  // allowed at the same moment.
  lemma RemainingIsExact(policies: map<string, Policy>, acts: seq<Action>, scope: string, caller: string, now: nat,
          n: nat)
    requires Known(policies, scope) && policies[scope].window > 0
    requires RunFrom(policies, INITIAL, acts).clock <= now
    ensures var p := policies[scope];
            var (after, d) := Checked(RunFrom(policies, INITIAL, acts).buckets, p, caller, now);
            Checked(Repeated(after, p, caller, now, n), p, caller, now).1.allowed <==> n < d.remaining
  {
    var p, b := policies[scope], RunFrom(policies, INITIAL, acts).buckets;
    WindowHasRoom(policies, acts, scope, caller, now);
    hide LiveCount;
    hide Checked;
    hide Repeated;
    hide RunFrom;
    CheckFillsOne(b, p, caller, now);
    var after := Checked(b, p, caller, now).0;
    WindowFillsUp(after, p, caller, now, n);
    CheckFillsOne(Repeated(after, p, caller, now, n), p, caller, now);
  }
}
