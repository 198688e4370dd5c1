/**
 The inbound frame limiter of one socket: a deque of the times of recently handled frames, popped
 from the front while older than a second. Times are in nanoseconds.
 */
module FrameLimiter {
  import opened SlidingWindow

  const INBOUND_FRAMES_PER_SEC: nat := 10
  const MAX_INBOUND_FRAME_BYTES: nat := 10_240
  const ONE_SEC: nat := 1_000_000_000

  // Entries are dropped when older than one second, so an entry of exactly one second still counts.
  const WINDOW: nat := ONE_SEC + 1

  datatype Frame = Frame(size: nat, at: nat)

  datatype Verdict = TooLarge | TooFast | Handled

  // What the pop loop leaves.
  function DropOld(recent: seq<nat>, now: nat): seq<nat> {
    if recent != [] && Elapsed(now, recent[0]) > ONE_SEC then DropOld(recent[1..], now) else recent
  }

  function After(recent: seq<nat>, f: Frame): (seq<nat>, Verdict) {
    if f.size > MAX_INBOUND_FRAME_BYTES then (recent, TooLarge)
    else
      var kept := DropOld(recent, f.at);
      if |kept| >= INBOUND_FRAMES_PER_SEC then (kept, TooFast) else (kept + [f.at], Handled)
  }

  class Limiter {
    var recent: seq<nat>

    constructor ()
      ensures recent == []
    {
      recent := [];
    }

    method OnText(f: Frame) returns (v: Verdict)
      modifies this
      ensures (recent, v) == After(old(recent), f)
      ensures v.TooLarge? <==> f.size > MAX_INBOUND_FRAME_BYTES
      ensures v.TooLarge? ==> recent == old(recent)
      ensures v.TooFast? ==> |recent| >= INBOUND_FRAMES_PER_SEC && recent == DropOld(old(recent), f.at)
      ensures v.Handled? ==> |recent| <= INBOUND_FRAMES_PER_SEC && recent == DropOld(old(recent), f.at) + [f.at]
    {
      if f.size > MAX_INBOUND_FRAME_BYTES {
        return TooLarge;
      }
      while recent != [] && Elapsed(f.at, recent[0]) > ONE_SEC
        invariant DropOld(recent, f.at) == DropOld(old(recent), f.at)
        decreases |recent|
      {
        recent := recent[1..];
      }
      if |recent| >= INBOUND_FRAMES_PER_SEC {
        return TooFast;
      }
      recent := recent + [f.at];
      v := Handled;
    }
  }

  // On sorted times, popping from the front is filtering by age.
  lemma {:induction false} DropOldIsLive(recent: seq<nat>, now: nat)
    requires Sorted(recent)
    ensures DropOld(recent, now) == Live(recent, now, WINDOW)
    decreases |recent|
  {
    if recent != [] && Elapsed(now, recent[0]) > ONE_SEC {
      DropOldIsLive(recent[1..], now);
      LiveWithoutDeadHead(recent, now);
    } else {
      forall i | 0 <= i < |recent| ensures Elapsed(now, recent[i]) < WINDOW {
        assert i > 0 ==> recent[0] <= recent[i];
      }
      AllLive(recent, now, WINDOW);
    }
  }

  lemma {:induction false} LiveWithoutDeadHead(hits: seq<nat>, now: nat)
    requires hits != [] && Elapsed(now, hits[0]) >= WINDOW
    ensures Live(hits, now, WINDOW) == Live(hits[1..], now, WINDOW)
  {
    var k := |hits| - 1;
    if k > 0 {
      LiveWithoutDeadHead(hits[..k], now);
      assert hits[1..][..k - 1] == hits[..k][1..];
    } else {
      assert hits[..0] == [] && hits[1..] == [];
    }
  }

  // ------------------------------------------------------------------ runs

  // The frames of a socket arrive one after the other.
  ghost predicate Ordered(frames: seq<Frame>) {
    forall i, j | 0 <= i < j < |frames| :: frames[i].at <= frames[j].at
  }

  // The deque and the times of all handled frames.
  function Run(frames: seq<Frame>): (seq<nat>, seq<nat>) {
    if frames == [] then ([], [])
    else
      var (recent, handled) := Run(frames[..|frames| - 1]);
      var f := frames[|frames| - 1];
      var (recent', v) := After(recent, f);
      (recent', if v.Handled? then handled + [f.at] else handled)
  }

  // The handled frames are those the limiter lets through, one verdict after the other.
  lemma RunGrows(frames: seq<Frame>, f: Frame)
    ensures Run([]) == ([], [])
    ensures var (recent', v) := After(Run(frames).0, f);
            && Run(frames + [f]).0 == recent'
            && Run(frames + [f]).1 == Run(frames).1 + if v.Handled? then [f.at] else []
  {
    assert (frames + [f])[..|frames|] == frames;
  }

  ghost predicate Sound(recent: seq<nat>, handled: seq<nat>, clock: nat) {
    && Sorted(recent)
    && (forall t | t in recent :: t <= clock)
    && (forall now | clock <= now :: Live(recent, now, WINDOW) == Live(handled, now, WINDOW))
    && WellAdmitted(handled, INBOUND_FRAMES_PER_SEC, WINDOW)
  }

  lemma DroppingIsSound(recent: seq<nat>, handled: seq<nat>, clock: nat, now: nat)
    requires Sound(recent, handled, clock) && clock <= now
    ensures Sound(DropOld(recent, now), handled, now)
  {
    DropOldIsLive(recent, now);
    DropOldKeepsSorted(recent, now);
    hide DropOld;
    LiveMembers(recent, now, WINDOW);
    hide Live;
    hide Sorted;
    forall later | now <= later
      ensures Live(Live(recent, now, WINDOW), later, WINDOW) == Live(handled, later, WINDOW)
    {
      LiveOfLive(recent, now, WINDOW, later, WINDOW);
    }
  }

  lemma SortedSnoc(s: seq<nat>, t: nat)
    requires Sorted(s) && forall x | x in s :: x <= t
    ensures Sorted(s + [t])
  {
    forall i, j | 0 <= i < j < |s + [t]| ensures (s + [t])[i] <= (s + [t])[j] {
      assert s[i] in s;
    }
  }

  lemma PushingIsSound(recent: seq<nat>, handled: seq<nat>, now: nat)
    requires Sound(recent, handled, now) && |recent| < INBOUND_FRAMES_PER_SEC
    requires Live(recent, now, WINDOW) == recent
    ensures Sound(recent + [now], handled + [now], now)
  {
    hide WellAdmitted;
    hide Live;
    AdmitKeepsWellAdmitted(handled, now, INBOUND_FRAMES_PER_SEC, WINDOW);
    SortedSnoc(recent, now);
    hide Sorted;
    forall later | now <= later ensures Live(recent + [now], later, WINDOW) == Live(handled + [now], later, WINDOW) {
      LiveSnoc(recent, now, later, WINDOW);
      LiveSnoc(handled, now, later, WINDOW);
    }
  }

  lemma HandlingIsSound(recent: seq<nat>, handled: seq<nat>, clock: nat, f: Frame)
    requires Sound(recent, handled, clock) && clock <= f.at
    ensures var (recent', v) := After(recent, f);
            Sound(recent', if v.Handled? then handled + [f.at] else handled, f.at)
  {
    if f.size <= MAX_INBOUND_FRAME_BYTES {
      var kept := DropOld(recent, f.at);
      DropOldIsLive(recent, f.at);
      DroppingIsSound(recent, handled, clock, f.at);
      LiveOfLive(recent, f.at, WINDOW, f.at, WINDOW);
      hide DropOld;
      hide Sound;
      if |kept| < INBOUND_FRAMES_PER_SEC {
        PushingIsSound(kept, handled, f.at);
      }
    }
  }

  lemma {:induction false} DropOldKeepsSorted(recent: seq<nat>, now: nat)
    requires Sorted(recent)
    ensures Sorted(DropOld(recent, now))
    decreases |recent|
  {
    if recent != [] && Elapsed(now, recent[0]) > ONE_SEC {
      DropOldKeepsSorted(recent[1..], now);
    }
  }

  lemma {:induction false} RunIsSound(frames: seq<Frame>)
    requires Ordered(frames)
    ensures Sound(Run(frames).0, Run(frames).1, if frames == [] then 0 else frames[|frames| - 1].at)
  {
    if frames != [] {
      var k := |frames| - 1;
      RunIsSound(frames[..k]);
      var (recent, handled) := Run(frames[..k]);
      hide Sound;
      HandlingIsSound(recent, handled, if k == 0 then 0 else frames[k - 1].at, frames[k]);
    }
  }

  // A frame of acceptable size is handled exactly when fewer than ten of all handled frames are at most a second old.
  lemma DecidesLikeFullHistory(frames: seq<Frame>, f: Frame)
    requires Ordered(frames + [f]) && f.size <= MAX_INBOUND_FRAME_BYTES
    ensures After(Run(frames).0, f).1.Handled? <==> |Live(Run(frames).1, f.at, WINDOW)| < INBOUND_FRAMES_PER_SEC
  {
    var all := frames + [f];
    assert forall i | 0 <= i < |frames| :: all[i] == frames[i];
    assert frames != [] ==> all[|frames| - 1].at <= all[|frames|].at;
    RunIsSound(frames);
    DropOldIsLive(Run(frames).0, f.at);
  }

  // No closed interval of one second holds more than ten handled frames.
  lemma FrameRateIsBounded(frames: seq<Frame>, lo: nat)
    requires Ordered(frames)
    ensures InInterval(Run(frames).1, lo, lo + ONE_SEC + 1) <= INBOUND_FRAMES_PER_SEC
  {
    RunIsSound(frames);
    WindowIsNeverOverfull(Run(frames).1, INBOUND_FRAMES_PER_SEC, WINDOW, lo);
  }
}
