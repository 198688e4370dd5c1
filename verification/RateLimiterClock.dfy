/**
 The rate limiter when clock readings get out of order: a check reads the clock before it takes the
 lock, so a later reading may be served first. What the limiter then decides, for any readings at all.
 */
module RateLimiterClock {
  import opened RateLimiter
  import opened SlidingWindow

  datatype Call = Call(scope: string, caller: string, now: nat)

  // Checks in the order in which they get the lock.
  ghost function Served(policies: map<string, Policy>, calls: seq<Call>): Buckets {
    if calls == [] then map[]
    else
      var b, c := Served(policies, calls[..|calls| - 1]), calls[|calls| - 1];
      if Known(policies, c.scope) then Checked(b, policies[c.scope], c.caller, c.now).0 else b
  }

  // The clock readings of one caller's checks.
  function ReadingsOf(calls: seq<Call>, scope: string, caller: string): seq<nat> {
    if calls == [] then []
    else
      var c := calls[|calls| - 1];
      ReadingsOf(calls[..|calls| - 1], scope, caller) + if c.scope == scope && c.caller == caller then [c.now] else []
  }

  // One caller's bucket, with everything admitted, and for each admitted request the highest reading since.
  datatype Log = Log(hits: seq<nat>, history: seq<nat>, peaks: seq<nat>)

  function Max(a: nat, b: nat): nat {
    if a < b then b else a
  }

  function Raised(peaks: seq<nat>, now: nat): seq<nat> {
    seq(|peaks|, i requires 0 <= i < |peaks| => Max(peaks[i], now))
  }

  function Logged(p: Policy, readings: seq<nat>): (l: Log)
    ensures |l.history| == |l.peaks|
  {
    if readings == [] then Log([], [], [])
    else
      var l, now := Logged(p, readings[..|readings| - 1]), readings[|readings| - 1];
      var live, peaks := Live(l.hits, now, p.window), Raised(l.peaks, now);
      if |live| >= p.maxRequests then Log(live, l.history, peaks)
      else Log(live + [now], l.history + [now], peaks + [now])
  }

  lemma LoggedSnoc(p: Policy, readings: seq<nat>, now: nat)
    ensures var l := Logged(p, readings);
            var live, next := Live(l.hits, now, p.window), Logged(p, readings + [now]);
            && next.hits == (if |live| >= p.maxRequests then live else live + [now])
            && next.history == (if |live| >= p.maxRequests then l.history else l.history + [now])
            && next.peaks == Raised(l.peaks, now) + (if |live| >= p.maxRequests then [] else [now])
  {
    assert (readings + [now])[..|readings|] == readings;
    hide Live;
  }

  // What a check does to the buckets.
  lemma CheckedHits(b: Buckets, p: Policy, caller: string, now: nat, key: Key)
    ensures var live := Live(Hits(b, key), now, p.window);
            Hits(Checked(b, p, caller, now).0, key) ==
            if key != (p.scope, caller) then Hits(b, key) else if |live| >= p.maxRequests then live else live + [now]
  {
    hide Live;
  }

  lemma ReadingsSnoc(calls: seq<Call>, c: Call, scope: string, caller: string)
    ensures ReadingsOf(calls + [c], scope, caller)
         == ReadingsOf(calls, scope, caller) + if c.scope == scope && c.caller == caller then [c.now] else []
  {
    assert (calls + [c])[..|calls|] == calls;
  }

  lemma ServedSnoc(policies: map<string, Policy>, calls: seq<Call>, c: Call)
    ensures Served(policies, calls + [c]) ==
            if Known(policies, c.scope) then Checked(Served(policies, calls), policies[c.scope], c.caller, c.now).0
            else Served(policies, calls)
  {
    assert (calls + [c])[..|calls|] == calls;
  }

  lemma {:induction false} ServedIsLogged(policies: map<string, Policy>, calls: seq<Call>, scope: string,
          caller: string)
    requires Known(policies, scope)
    ensures Hits(Served(policies, calls), (scope, caller)) ==
              Logged(policies[scope], ReadingsOf(calls, scope, caller)).hits
  {
    if calls == [] {
      assert Hits(map[], (scope, caller)) == [];
    } else {
      var before, c := calls[..|calls| - 1], calls[|calls| - 1];
      ServedIsLogged(policies, before, scope, caller);
      assert calls == before + [c];
      hide Served;
      hide Logged;
      hide ReadingsOf;
      hide Checked;
      hide Hits;
      hide Live;
      ServedSnoc(policies, before, c);
      ReadingsSnoc(before, c, scope, caller);
      var readings := ReadingsOf(before, scope, caller);
      LoggedSnoc(policies[scope], readings, c.now);
      assert readings + [] == readings;
      if Known(policies, c.scope) {
        CheckedHits(Served(policies, before), policies[c.scope], c.caller, c.now, (scope, caller));
      }
    }
  }

  // ------------------------------------------------------------------ what the bucket still holds

  // The admitted requests that no reading since has found too old.
  function Kept(history: seq<nat>, peaks: seq<nat>, window: nat): seq<nat>
    requires |history| == |peaks|
  {
    if history == [] then []
    else
      var k := |history| - 1;
      Kept(history[..k], peaks[..k], window) + if Elapsed(peaks[k], history[k]) < window then [history[k]] else []
  }

  lemma KeptUnfold(history: seq<nat>, peaks: seq<nat>, window: nat)
    requires |history| == |peaks| > 0
    ensures var k := |history| - 1;
            Kept(history, peaks, window) ==
            Kept(history[..k], peaks[..k], window) + if Elapsed(peaks[k], history[k]) < window then [history[k]] else []
  {
  }

  lemma RaisedSplit(peaks: seq<nat>, now: nat)
    requires peaks != []
    ensures var k := |peaks| - 1;
            && |Raised(peaks, now)| == |peaks| && Raised(peaks, now)[..k] == Raised(peaks[..k], now)
            && Raised(peaks, now)[k] == Max(peaks[k], now)
  {
  }

  lemma ElapsedOfMax(a: nat, b: nat, t: nat, window: nat)
    ensures Elapsed(Max(a, b), t) < window <==> Elapsed(a, t) < window && Elapsed(b, t) < window
  {
  }

  lemma {:induction false} LiveOfKept(history: seq<nat>, peaks: seq<nat>, now: nat, window: nat)
    requires |history| == |peaks|
    ensures |Raised(peaks, now)| == |history|
    ensures Live(Kept(history, peaks, window), now, window) == Kept(history, Raised(peaks, now), window)
  {
    if history != [] {
      hide *;
      var k := |history| - 1;
      LiveOfKept(history[..k], peaks[..k], now, window);
      RaisedSplit(peaks, now);
      KeptUnfold(history, peaks, window);
      KeptUnfold(history, Raised(peaks, now), window);
      ElapsedOfMax(peaks[k], now, history[k], window);
      var kept := Kept(history[..k], peaks[..k], window);
      LiveSnoc(kept, history[k], now, window);
      assert kept + [] == kept && Live(kept, now, window) + [] == Live(kept, now, window);
    }
  }

  lemma KeptSnoc(history: seq<nat>, peaks: seq<nat>, t: nat, window: nat)
    requires |history| == |peaks| && window > 0
    ensures Kept(history + [t], peaks + [t], window) == Kept(history, peaks, window) + [t]
  {
    assert (history + [t])[..|history|] == history && (peaks + [t])[..|peaks|] == peaks;
  }

  // The bucket holds what of the history is kept; with a window of zero it never matters what it holds.
  ghost predicate HoldsKept(l: Log, window: nat) {
    |l.history| == |l.peaks| && (window > 0 ==> l.hits == Kept(l.history, l.peaks, window))
  }

  lemma {:induction false} BucketIsKept(p: Policy, readings: seq<nat>)
    ensures HoldsKept(Logged(p, readings), p.window)
  {
    if readings != [] {
      var before, now := readings[..|readings| - 1], readings[|readings| - 1];
      var l := Logged(p, before);
      BucketIsKept(p, before);
      LiveOfKept(l.history, l.peaks, now, p.window);
      if p.window > 0 {
        KeptSnoc(l.history, Raised(l.peaks, now), now, p.window);
      }
      hide Live;
      hide Kept;
    }
  }

  // An admitted request that counts at `now`, although some reading since its admission was a window or more later.
  predicate Overlooked(t: nat, peak: nat, now: nat, window: nat) {
    Elapsed(now, t) < window <= Elapsed(peak, t)
  }

  function Forgotten(history: seq<nat>, peaks: seq<nat>, now: nat, window: nat): nat
    requires |history| == |peaks|
  {
    if history == [] then 0
    else
      var k := |history| - 1;
      Forgotten(history[..k], peaks[..k], now, window) + if Overlooked(history[k], peaks[k], now, window) then 1 else 0
  }

  lemma {:induction false} LiveCountsKept(history: seq<nat>, peaks: seq<nat>, now: nat, window: nat)
    requires |history| == |peaks|
    ensures var live, all := Live(Kept(history, peaks, window), now, window), Live(history, now, window);
            && |live| + Forgotten(history, peaks, now, window) == |all|
            && (Forgotten(history, peaks, now, window) == 0 ==> live == all)
  {
    if history != [] {
      var k := |history| - 1;
      LiveCountsKept(history[..k], peaks[..k], now, window);
      var kept := Kept(history[..k], peaks[..k], window);
      LiveSnoc(kept, history[k], now, window);
      assert Elapsed(peaks[k], history[k]) >= window ==> Kept(history, peaks, window) == kept;
      assert Live(history, now, window)
          == Live(history[..k], now, window) + if Elapsed(now, history[k]) < window then [history[k]] else [];
    }
  }

  lemma {:induction false} NoneForgotten(history: seq<nat>, peaks: seq<nat>, now: nat, window: nat)
    requires |history| == |peaks|
    ensures Forgotten(history, peaks, now, window) == 0 <==>
            forall i | 0 <= i < |history| :: !Overlooked(history[i], peaks[i], now, window)
  {
    if history != [] {
      var k := |history| - 1;
      NoneForgotten(history[..k], peaks[..k], now, window);
      assert forall i | 0 <= i < k :: history[..k][i] == history[i] && peaks[..k][i] == peaks[i];
      hide Overlooked;
    }
  }

  lemma {:induction false} NothingInZeroWindow(hits: seq<nat>, now: nat)
    ensures Live(hits, now, 0) == []
  {
    if hits != [] {
      NothingInZeroWindow(hits[..|hits| - 1], now);
    }
  }

  lemma {:induction false} NothingForgottenInZeroWindow(history: seq<nat>, peaks: seq<nat>, now: nat)
    requires |history| == |peaks|
    ensures Forgotten(history, peaks, now, 0) == 0
  {
    if history != [] {
      NothingForgottenInZeroWindow(history[..|history| - 1], peaks[..|history| - 1], now);
    }
  }

  lemma BucketFallsShort(l: Log, now: nat, window: nat)
    requires HoldsKept(l, window)
    ensures |Live(l.hits, now, window)| + Forgotten(l.history, l.peaks, now, window) == |Live(l.history, now, window)|
    ensures Forgotten(l.history, l.peaks, now, window) == 0 <==>
            Live(l.hits, now, window) == Live(l.history, now, window)
  {
    hide Live;
    hide Kept;
    hide Forgotten;
    if window > 0 {
      LiveCountsKept(l.history, l.peaks, now, window);
    } else {
      NothingInZeroWindow(l.hits, now);
      NothingInZeroWindow(l.history, now);
      NothingForgottenInZeroWindow(l.history, l.peaks, now);
    }
  }

  lemma AllowedWhen(b: Buckets, p: Policy, scope: string, caller: string, now: nat)
    requires p.scope == scope
    ensures Checked(b, p, caller, now).1.allowed <==> |Live(Hits(b, (scope, caller)), now, p.window)| < p.maxRequests
  {
    hide Live;
  }

  // ------------------------------------------------------------------ the main results

  // For any readings in any order: the bucket falls short of the full history by exactly the overlooked requests, so
  // the limiter allows a request exactly if the recent ones without these are fewer than the maximum.
  lemma DecidesLessForgotten(policies: map<string, Policy>, calls: seq<Call>, scope: string, caller: string, now: nat)
    requires Known(policies, scope)
    ensures var p := policies[scope];
            var l := Logged(p, ReadingsOf(calls, scope, caller));
            var bucket := Live(Hits(Served(policies, calls), (scope, caller)), now, p.window);
            var recent := Live(l.history, now, p.window);
            && |l.history| == |l.peaks|
            && |bucket| + Forgotten(l.history, l.peaks, now, p.window) == |recent|
            && (Checked(Served(policies, calls), p, caller, now).1.allowed <==>
                |recent| - Forgotten(l.history, l.peaks, now, p.window) < p.maxRequests)
            && (bucket == recent <==>
                forall i | 0 <= i < |l.history| :: !Overlooked(l.history[i], l.peaks[i], now, p.window))
  {
    var p, readings := policies[scope], ReadingsOf(calls, scope, caller);
    assert p.scope == scope;
    hide *;
    ServedIsLogged(policies, calls, scope, caller);
    AllowedWhen(Served(policies, calls), p, scope, caller, now);
    BucketIsKept(p, readings);
    BucketFallsShort(Logged(p, readings), now, p.window);
    NoneForgotten(Logged(p, readings).history, Logged(p, readings).peaks, now, p.window);
  }

  function Latest(readings: seq<nat>): nat {
    if readings == [] then 0 else Max(Latest(readings[..|readings| - 1]), readings[|readings| - 1])
  }

  // No reading is a window or more behind an earlier one.
  ghost predicate SkewBelow(readings: seq<nat>, window: nat) {
    forall i, j | 0 <= i < j < |readings| :: readings[i] < readings[j] + window
  }

  lemma {:induction false} LatestIsReached(readings: seq<nat>)
    requires readings != []
    ensures exists i :: 0 <= i < |readings| && readings[i] == Latest(readings)
  {
    var k := |readings| - 1;
    if k == 0 || Latest(readings[..k]) <= readings[k] {
      assert readings[..0] == [];
      assert readings[k] == Latest(readings);
    } else {
      LatestIsReached(readings[..k]);
      var i :| 0 <= i < k && readings[..k][i] == Latest(readings[..k]);
      assert readings[i] == Latest(readings);
    }
  }

  // The highest reading since an admission is the latest of all, or the latest of all is too early to matter.
  ghost predicate Peaked(l: Log, latest: nat, window: nat) {
    && |l.history| == |l.peaks|
    && forall i | 0 <= i < |l.history| ::
         l.history[i] <= l.peaks[i] <= latest && (l.peaks[i] == latest || latest < l.history[i] + window)
  }

  lemma PeaksRise(l: Log, next: Log, latest: nat, now: nat, window: nat)
    requires Peaked(l, latest, window) && (latest <= now || latest < now + window)
    requires || (next.history == l.history && next.peaks == Raised(l.peaks, now))
             || (next.history == l.history + [now] && next.peaks == Raised(l.peaks, now) + [now])
    ensures Peaked(next, Max(latest, now), window)
  {
  }

  lemma {:induction false} PeaksAreLatest(p: Policy, readings: seq<nat>)
    requires SkewBelow(readings, p.window)
    ensures Peaked(Logged(p, readings), Latest(readings), p.window)
  {
    if readings != [] {
      var k := |readings| - 1;
      var before, now := readings[..k], readings[k];
      assert forall i | 0 <= i < k :: before[i] == readings[i];
      PeaksAreLatest(p, before);
      if k > 0 {
        LatestIsReached(before);
        var i :| 0 <= i < k && before[i] == Latest(before);
        assert readings[i] < now + p.window;
      }
      assert readings == before + [now];
      LoggedSnoc(p, before, now);
      hide Logged;
      hide Live;
      hide Peaked;
      hide Raised;
      hide SkewBelow;
      var l := Logged(p, before);
      assert Raised(l.peaks, now) + [] == Raised(l.peaks, now);
      PeaksRise(l, Logged(p, readings), Latest(before), now, p.window);
    }
  }

  // With readings less than a window out of order, the limiter agrees with the full history at `now` exactly if no
  // admitted request that still counts lies a window or more before the caller's latest reading.
  lemma AgreesIffLatestReading(policies: map<string, Policy>, calls: seq<Call>, scope: string, caller: string, now: nat)
    requires Known(policies, scope) && SkewBelow(ReadingsOf(calls, scope, caller), policies[scope].window)
    ensures var p, readings := policies[scope], ReadingsOf(calls, scope, caller);
            var history := Logged(p, readings).history;
            Live(Hits(Served(policies, calls), (scope, caller)), now, p.window) == Live(history, now, p.window)
            <==> forall t | t in history :: !(Elapsed(now, t) < p.window && t + p.window <= Latest(readings))
  {
    var p, readings := policies[scope], ReadingsOf(calls, scope, caller);
    var l := Logged(p, readings);
    DecidesLessForgotten(policies, calls, scope, caller, now);
    PeaksAreLatest(p, readings);
    hide Logged;
    hide Served;
    hide Live;
    hide Latest;
    hide SkewBelow;
    forall i | 0 <= i < |l.history|
      ensures Overlooked(l.history[i], l.peaks[i], now, p.window) <==>
              Elapsed(now, l.history[i]) < p.window && l.history[i] + p.window <= Latest(readings)
    {
    }
    hide Overlooked;
    hide Peaked;
    assert forall t :: t in l.history <==> exists i :: 0 <= i < |l.history| && l.history[i] == t;
  }

  ghost predicate AtMost(peaks: seq<nat>, latest: nat) {
    forall i | 0 <= i < |peaks| :: peaks[i] <= latest
  }

  lemma RaisedAtMost(peaks: seq<nat>, latest: nat, now: nat)
    requires AtMost(peaks, latest)
    ensures AtMost(Raised(peaks, now), Max(latest, now)) && AtMost(Raised(peaks, now) + [now], Max(latest, now))
  {
  }

  lemma {:induction false} PeaksAtMostLatest(p: Policy, readings: seq<nat>)
    ensures AtMost(Logged(p, readings).peaks, Latest(readings))
  {
    if readings != [] {
      var before, now := readings[..|readings| - 1], readings[|readings| - 1];
      assert readings == before + [now] && Latest(readings) == Max(Latest(before), now);
      hide *;
      PeaksAtMostLatest(p, before);
      LoggedSnoc(p, before, now);
      var peaks := Logged(p, before).peaks;
      RaisedAtMost(peaks, Latest(before), now);
      assert Raised(peaks, now) + [] == Raised(peaks, now);
    }
  }

  // In particular, whatever the earlier disorder, it agrees at every reading that is not behind the caller's latest.
  lemma LateReadingsAgree(policies: map<string, Policy>, calls: seq<Call>, scope: string, caller: string, now: nat)
    requires Known(policies, scope) && Latest(ReadingsOf(calls, scope, caller)) <= now
    ensures Live(Hits(Served(policies, calls), (scope, caller)), now, policies[scope].window)
         == Live(Logged(policies[scope], ReadingsOf(calls, scope, caller)).history, now, policies[scope].window)
  {
    DecidesLessForgotten(policies, calls, scope, caller, now);
    PeaksAtMostLatest(policies[scope], ReadingsOf(calls, scope, caller));
    hide Logged;
    hide Served;
    hide Live;
    hide Latest;
    hide Forgotten;
  }

  // ------------------------------------------------------------------ what remains of the rate bound

  // No reading is more than `d` behind an earlier one.
  ghost predicate SkewAtMost(readings: seq<nat>, d: nat) {
    forall i, j | 0 <= i < j < |readings| :: readings[i] <= readings[j] + d
  }

  lemma LatestWithinSkew(readings: seq<nat>, now: nat, d: nat)
    requires SkewAtMost(readings + [now], d)
    ensures SkewAtMost(readings, d) && Latest(readings) <= now + d
  {
    var all := readings + [now];
    assert forall i | 0 <= i < |readings| :: all[i] == readings[i];
    assert all[|readings|] == now;
    if readings != [] {
      LatestIsReached(readings);
    }
    hide Latest;
  }

  lemma IntervalSnoc(hits: seq<nat>, t: nat, lo: nat, hi: nat)
    ensures InInterval(hits + [t], lo, hi) == InInterval(hits, lo, hi) + if lo <= t < hi then 1 else 0
  {
    assert (hits + [t])[..|hits|] == hits;
  }

  // Whatever lies in an interval that no reading has passed by a window is still in the bucket.
  lemma {:induction false} IntervalIsKept(history: seq<nat>, peaks: seq<nat>, latest: nat, lo: nat, hi: nat,
          window: nat)
    requires |history| == |peaks| && AtMost(peaks, latest) && latest < lo + window && 0 < window
    ensures InInterval(history, lo, hi) <= |Kept(history, peaks, window)|
  {
    if history != [] {
      var k := |history| - 1;
      assert peaks[k] <= latest;
      IntervalIsKept(history[..k], peaks[..k], latest, lo, hi, window);
    }
  }

  lemma MaxBelow(a: nat, b: nat, bound: nat)
    requires a < bound && b < bound
    ensures Max(a, b) < bound
  {
  }

  lemma BucketStays(l: Log, now: nat, window: nat)
    requires HoldsKept(l, window) && window > 0
    ensures |Raised(l.peaks, now)| == |l.history|
    ensures Live(l.hits, now, window) == Kept(l.history, Raised(l.peaks, now), window)
  {
    LiveOfKept(l.history, l.peaks, now, window);
  }

  lemma AdmissionFits(p: Policy, readings: seq<nat>, now: nat, d: nat, lo: nat, length: nat)
    requires SkewAtMost(readings + [now], d) && length + d <= p.window && lo <= now < lo + length
    ensures InInterval(Logged(p, readings).history, lo, lo + length) <= |Live(Logged(p, readings).hits, now, p.window)|
  {
    hide *;
    var l := Logged(p, readings);
    LatestWithinSkew(readings, now, d);
    PeaksAtMostLatest(p, readings);
    RaisedAtMost(l.peaks, Latest(readings), now);
    MaxBelow(Latest(readings), now, lo + p.window);
    BucketIsKept(p, readings);
    BucketStays(l, now, p.window);
    IntervalIsKept(l.history, Raised(l.peaks, now), Max(Latest(readings), now), lo, lo + length, p.window);
  }

  // With readings at most `d` out of order, an interval that is shorter than the window by `d` never holds more than
  // the maximum.
  lemma {:induction false} RateIsBoundedUpToSkew(p: Policy, readings: seq<nat>, d: nat, lo: nat, length: nat)
    requires SkewAtMost(readings, d) && length + d <= p.window
    ensures InInterval(Logged(p, readings).history, lo, lo + length) <= p.maxRequests
  {
    if readings == [] {
      assert Logged(p, readings).history == [];
    } else {
      var before, now := readings[..|readings| - 1], readings[|readings| - 1];
      assert readings == before + [now];
      hide *;
      LatestWithinSkew(before, now, d);
      RateIsBoundedUpToSkew(p, before, d, lo, length);
      LoggedSnoc(p, before, now);
      IntervalSnoc(Logged(p, before).history, now, lo, lo + length);
      if lo <= now < lo + length {
        AdmissionFits(p, before, now, d, lo, length);
      }
    }
  }

  // A request at `now` is refused, or overlooks at most `f` recent ones.
  ghost predicate ForgetsHere(p: Policy, readings: seq<nat>, now: nat, f: nat) {
    var l := Logged(p, readings);
    |Live(l.hits, now, p.window)| < p.maxRequests ==> Forgotten(l.history, l.peaks, now, p.window) <= f
  }

  ghost predicate ForgetsAtMost(p: Policy, readings: seq<nat>, f: nat) {
    forall n | 0 <= n < |readings| :: ForgetsHere(p, readings[..n], readings[n], f)
  }

  lemma ForgetsAtMostSplit(p: Policy, readings: seq<nat>, now: nat, f: nat)
    requires ForgetsAtMost(p, readings + [now], f)
    ensures ForgetsAtMost(p, readings, f) && ForgetsHere(p, readings, now, f)
  {
    hide ForgetsHere;
    var all := readings + [now];
    assert all[..|readings|] == readings && all[|readings|] == now;
    forall n | 0 <= n < |readings| ensures ForgetsHere(p, readings[..n], readings[n], f) {
      assert all[..n] == readings[..n] && all[n] == readings[n];
    }
  }

  lemma AdmissionOverlooks(p: Policy, readings: seq<nat>, now: nat, f: nat)
    requires ForgetsHere(p, readings, now, f) && |Live(Logged(p, readings).hits, now, p.window)| < p.maxRequests
    ensures |Live(Logged(p, readings).history, now, p.window)| < p.maxRequests + f
  {
    hide Logged;
    hide Live;
    hide Forgotten;
    BucketIsKept(p, readings);
    BucketFallsShort(Logged(p, readings), now, p.window);
  }

  lemma NothingAdmitted(p: Policy, f: nat)
    ensures WellAdmitted(Logged(p, []).history, p.maxRequests + f, p.window)
  {
  }

  lemma {:induction false} AdmittedDespiteForgotten(p: Policy, readings: seq<nat>, f: nat)
    requires ForgetsAtMost(p, readings, f)
    ensures WellAdmitted(Logged(p, readings).history, p.maxRequests + f, p.window)
  {
    hide *;
    if readings == [] {
      NothingAdmitted(p, f);
    } else {
      var before, now := readings[..|readings| - 1], readings[|readings| - 1];
      assert readings == before + [now];
      ForgetsAtMostSplit(p, before, now, f);
      AdmittedDespiteForgotten(p, before, f);
      LoggedSnoc(p, before, now);
      var l := Logged(p, before);
      if |Live(l.hits, now, p.window)| < p.maxRequests {
        AdmissionOverlooks(p, before, now, f);
        AdmitKeepsWellAdmitted(l.history, now, p.maxRequests + f, p.window);
      }
    }
  }

  // If no admission overlooks more than `f` recent requests, no window holds more than the maximum and `f` more; with
  // nothing overlooked the full bound stands.
  lemma RateExceedsByForgotten(p: Policy, readings: seq<nat>, f: nat, lo: nat)
    requires ForgetsAtMost(p, readings, f)
    ensures InInterval(Logged(p, readings).history, lo, lo + p.window) <= p.maxRequests + f
  {
    hide *;
    AdmittedDespiteForgotten(p, readings, f);
    WindowIsNeverOverfull(Logged(p, readings).history, p.maxRequests + f, p.window, lo);
  }

  // ------------------------------------------------------------------ a run that goes wrong

  lemma NothingLogged(p: Policy, now: nat)
    ensures Logged(p, []) == Log([], [], []) && Live([], now, p.window) == []
  {
  }

  // Two requests at 0 and one at 10.
  function Three(): seq<nat> {
    [] + [0] + [0] + [10]
  }

  lemma OneLive()
    ensures Live([] + [0], 0, 10) == [] + [0] && Live([] + [10], 9, 10) == [] + [10]
  {
    NothingLive(0);
    NothingLive(9);
    hide Live;
    LiveSnoc([], 0, 0, 10);
    LiveSnoc([], 10, 9, 10);
  }

  lemma NothingLive(now: nat)
    ensures Live([], now, 10) == []
  {
  }

  lemma TwoDead()
    ensures Live([] + [0] + [0], 10, 10) == []
  {
    NothingLive(10);
    hide Live;
    LiveSnoc([], 0, 10, 10);
    LiveSnoc([] + [0], 0, 10, 10);
  }

  lemma ThreeLive()
    ensures |Live(Three(), 9, 10)| == 3
  {
    NothingLive(9);
    hide Live;
    LiveSnoc([], 0, 9, 10);
    LiveSnoc([] + [0], 0, 9, 10);
    LiveSnoc([] + [0] + [0], 10, 9, 10);
  }

  lemma ThreeInterval()
    ensures InInterval(Three() + [9], 0, 10) == 3
  {
    assert InInterval([], 0, 10) == 0;
    hide InInterval;
    IntervalSnoc([], 0, 0, 10);
    IntervalSnoc([] + [0], 0, 0, 10);
    IntervalSnoc([] + [0] + [0], 10, 0, 10);
    IntervalSnoc(Three(), 9, 0, 10);
  }

  lemma ThreeSkew()
    ensures SkewAtMost(Three() + [9], 1)
  {
  }

  lemma ThreeLogged(p: Policy)
    requires p.maxRequests == 2 && p.window == 10
    ensures Logged(p, Three()).hits == [] + [10] && Logged(p, Three()).history == Three()
  {
    hide Logged;
    hide Live;
    OneLive();
    TwoDead();
    NothingLogged(p, 0);
    LoggedSnoc(p, [], 0);
    LoggedSnoc(p, [] + [0], 0);
    LoggedSnoc(p, [] + [0] + [0], 10);
  }

  // With a maximum of two in a window of ten, requests read at 0, 0, 10 and then 9 are all allowed: the full history
  // refuses the last one, and three of them lie within one window, although no reading is more than one behind.
  lemma BackwardClockBreaksAgreement(policies: map<string, Policy>, scope: string, caller: string)
    requires Known(policies, scope) && policies[scope].maxRequests == 2 && policies[scope].window == 10
    ensures var p, calls := policies[scope], ThreeCalls(scope, caller);
            var history := Logged(p, ReadingsOf(calls, scope, caller)).history;
            && history == Three()
            && Checked(Served(policies, calls), p, caller, 9).1.allowed
            && |Live(history, 9, p.window)| == 3 > p.maxRequests
            && InInterval(history + [9], 0, p.window) == 3 > p.maxRequests
            && SkewAtMost(ReadingsOf(calls, scope, caller) + [9], 1)
  {
    var p, calls := policies[scope], ThreeCalls(scope, caller);
    assert p.scope == scope;
    hide *;
    ThreeReadings(scope, caller);
    ThreeLogged(p);
    OneLive();
    ThreeLive();
    ThreeInterval();
    ThreeSkew();
    ServedIsLogged(policies, calls, scope, caller);
    AllowedWhen(Served(policies, calls), p, scope, caller, 9);
  }

  function ThreeCalls(scope: string, caller: string): seq<Call> {
    [] + [Call(scope, caller, 0)] + [Call(scope, caller, 0)] + [Call(scope, caller, 10)]
  }

  lemma ThreeReadings(scope: string, caller: string)
    ensures ReadingsOf(ThreeCalls(scope, caller), scope, caller) == Three()
  {
    var c0, c10 := Call(scope, caller, 0), Call(scope, caller, 10);
    assert ReadingsOf([], scope, caller) == [];
    hide ReadingsOf;
    ReadingsSnoc([], c0, scope, caller);
    ReadingsSnoc([] + [c0], c0, scope, caller);
    ReadingsSnoc([] + [c0] + [c0], c10, scope, caller);
  }
}
