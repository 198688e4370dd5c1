/**
 Sliding windows over hit times, in nanoseconds. `Live` keeps the hits younger than the window;
 the lemmas say that forgetting dead hits early never shows later, and that admitting a hit only
 while fewer than `max` are live bounds every interval of one window.
 */
module SlidingWindow {

  // `Instant::duration_since`, which saturates at zero.
  function Elapsed(now: nat, t: nat): nat {
    if t <= now then now - t else 0
  }

  function Live(hits: seq<nat>, now: nat, window: nat): seq<nat> {
    if hits == [] then []
    else
      var k := |hits| - 1;
      Live(hits[..k], now, window) + if Elapsed(now, hits[k]) < window then [hits[k]] else []
  }

  lemma LiveSnoc(hits: seq<nat>, t: nat, now: nat, window: nat)
    ensures Live(hits + [t], now, window) == Live(hits, now, window) + if Elapsed(now, t) < window then [t] else []
  {
    assert (hits + [t])[..|hits|] == hits;
  }

  // Forgetting with an earlier clock and a larger window does not change what is live now.
  lemma {:induction false} LiveOfLive(hits: seq<nat>, past: nat, wider: nat, now: nat, window: nat)
    requires past <= now && window <= wider
    ensures Live(Live(hits, past, wider), now, window) == Live(hits, now, window)
  {
    if hits != [] {
      var k := |hits| - 1;
      LiveOfLive(hits[..k], past, wider, now, window);
      var kept := Live(hits[..k], past, wider);
      if Elapsed(past, hits[k]) < wider {
        LiveSnoc(kept, hits[k], now, window);
      } else {
        assert Live(hits, past, wider) == kept;
      }
    }
  }

  lemma {:induction false} LiveIsShorter(hits: seq<nat>, now: nat, window: nat)
    ensures |Live(hits, now, window)| <= |hits|
  {
    if hits != [] {
      LiveIsShorter(hits[..|hits| - 1], now, window);
    }
  }

  lemma {:induction false} AllLive(hits: seq<nat>, now: nat, window: nat)
    requires forall i | 0 <= i < |hits| :: Elapsed(now, hits[i]) < window
    ensures Live(hits, now, window) == hits
  {
    if hits != [] {
      AllLive(hits[..|hits| - 1], now, window);
    }
  }

  lemma {:induction false} LiveMembers(hits: seq<nat>, now: nat, window: nat)
    ensures forall t | t in Live(hits, now, window) :: t in hits && Elapsed(now, t) < window
  {
    if hits != [] {
      LiveMembers(hits[..|hits| - 1], now, window);
    }
  }

  // When the first hit is dead, something is gone.
  lemma {:induction false} DeadFirstIsGone(hits: seq<nat>, now: nat, window: nat)
    requires hits != [] && Elapsed(now, hits[0]) >= window
    ensures |Live(hits, now, window)| < |hits|
  {
    if |hits| > 1 {
      DeadFirstIsGone(hits[..|hits| - 1], now, window);
    } else {
      assert hits[..0] == [];
    }
  }

  // ------------------------------------------------------------------ hits per interval

  // The number of hits in [lo, hi).
  function InInterval(hits: seq<nat>, lo: nat, hi: nat): nat {
    if hits == [] then 0
    else
      var k := |hits| - 1;
      InInterval(hits[..k], lo, hi) + if lo <= hits[k] < hi then 1 else 0
  }

  // Hits in an interval of one window that contains `now` are live at `now`.
  lemma {:induction false} IntervalIsLive(hits: seq<nat>, lo: nat, now: nat, window: nat)
    requires lo <= now < lo + window
    ensures InInterval(hits, lo, lo + window) <= |Live(hits, now, window)|
  {
    if hits != [] {
      IntervalIsLive(hits[..|hits| - 1], lo, now, window);
    }
  }

  // Every hit was admitted while fewer than `max` earlier ones were live.
  ghost predicate WellAdmitted(history: seq<nat>, max: nat, window: nat) {
    forall k | 0 <= k < |history| :: |Live(history[..k], history[k], window)| < max
  }

  lemma AdmitKeepsWellAdmitted(history: seq<nat>, now: nat, max: nat, window: nat)
    requires WellAdmitted(history, max, window) && |Live(history, now, window)| < max
    ensures WellAdmitted(history + [now], max, window)
  {
    var longer := history + [now];
    forall k | 0 <= k < |longer| ensures |Live(longer[..k], longer[k], window)| < max {
      if k < |history| {
        assert longer[..k] == history[..k];
      } else {
        assert longer[..k] == history;
      }
    }
  }

  // No half-open interval of one window holds more than `max` admitted hits.
  lemma {:induction false} WindowIsNeverOverfull(history: seq<nat>, max: nat, window: nat, lo: nat)
    requires WellAdmitted(history, max, window)
    ensures InInterval(history, lo, lo + window) <= max
  {
    if history != [] {
      var k := |history| - 1;
      assert forall i | 0 <= i < k :: history[..k][..i] == history[..i];
      WindowIsNeverOverfull(history[..k], max, window, lo);
      if lo <= history[k] < lo + window {
        IntervalIsLive(history[..k], lo, history[k], window);
      }
    }
  }

  ghost predicate Sorted(hits: seq<nat>) {
    forall i, j | 0 <= i < j < |hits| :: hits[i] <= hits[j]
  }
}
