/**
 The browser's memory of recently seen message ids: a bounded queue together with a set for look-ups.
 */
module MessageDedup {
  import opened Wrappers

  const RECENT_MESSAGE_ID_LIMIT: nat := 500

  function Elements(s: seq<string>): set<string> {
    set x | x in s
  }

  ghost predicate Distinct(s: seq<string>) {
    forall i, j | 0 <= i < j < |s| :: s[i] != s[j]
  }

  class RecentIds {
    var recent: seq<string>
    var seen: set<string>
    // Everything admitted since the last reset.
    ghost var admitted: seq<string>

    ghost predicate Valid()
      reads this
    {
      Remembers(recent, seen, admitted)
    }

    constructor ()
      ensures Valid() && admitted == []
    {
      recent, seen, admitted := [], {}, [];
    }

    method Remember(id: string) returns (isNew: bool)
      requires Valid()
      modifies this
      ensures Valid()
      ensures isNew <==> Admits(old(admitted), id)
      ensures admitted == old(admitted) + if isNew && id != "" then [id] else []
    {
      hide Remembers;
      hide Backed;
      hide Spaced;
      hide Admits;
      if id == "" {
        Looks(recent, seen, admitted, id);
        assert admitted == admitted + [];
        return true;
      }
      Looks(recent, seen, admitted, id);
      if id in seen {
        assert admitted == admitted + [];
        return false;
      }
      seen := seen + {id};
      recent := recent + [id];
      admitted := admitted + [id];
      Entered(old(recent), old(seen), old(admitted), id);
      while |recent| > RECENT_MESSAGE_ID_LIMIT
        invariant Backed(recent, seen, admitted) && |recent| <= |admitted|
        invariant |recent| >= RECENT_MESSAGE_ID_LIMIT || recent == admitted
        invariant Spaced(admitted)
        modifies this`recent, this`seen
      {
        var evicted := recent[0];
        Evict(recent, seen, admitted);
        recent := recent[1..];
        if evicted != "" {
          seen := seen - {evicted};
        }
      }
      Settled(recent, seen, admitted);
      isNew := true;
    }

    method Reset()
      modifies this
      ensures Valid() && admitted == []
    {
      recent := [];
      seen := {};
      admitted := [];
    }
  }

  // An id is admitted unless it is one of the last five hundred admitted; the empty id always is.
  predicate Admits(admitted: seq<string>, id: string) {
    id == "" || id !in Last(admitted, RECENT_MESSAGE_ID_LIMIT)
  }

  // Queue and set hold the same ids, which are the end of what was admitted.
  ghost predicate Backed(recent: seq<string>, seen: set<string>, admitted: seq<string>) {
    recent == Last(admitted, |recent|) && seen == Elements(recent) && Distinct(recent) && "" !in recent
  }

  // The same id is admitted again only after five hundred others.
  ghost predicate Spaced(admitted: seq<string>) {
    forall i, j | 0 <= i < j < |admitted| && admitted[i] == admitted[j] :: j - i > RECENT_MESSAGE_ID_LIMIT
  }

  ghost predicate Remembers(recent: seq<string>, seen: set<string>, admitted: seq<string>) {
    && Backed(recent, seen, admitted)
    && recent == Last(admitted, RECENT_MESSAGE_ID_LIMIT)
    && Spaced(admitted)
  }

  lemma Looks(recent: seq<string>, seen: set<string>, admitted: seq<string>, id: string)
    requires Remembers(recent, seen, admitted)
    ensures Admits(admitted, id) <==> id == "" || id !in seen
  {
  }

  lemma Entered(recent: seq<string>, seen: set<string>, admitted: seq<string>, id: string)
    requires Remembers(recent, seen, admitted) && id != "" && id !in seen
    ensures Backed(recent + [id], seen + {id}, admitted + [id]) && |recent + [id]| <= |admitted + [id]|
    ensures |recent + [id]| >= RECENT_MESSAGE_ID_LIMIT || recent + [id] == admitted + [id]
    ensures Spaced(admitted + [id])
  {
    assert Last(admitted + [id], |recent| + 1) == Last(admitted, |recent|) + [id];
    SpacedOnce(admitted, id);
  }

  lemma SpacedOnce(admitted: seq<string>, id: string)
    requires Spaced(admitted) && id !in Last(admitted, RECENT_MESSAGE_ID_LIMIT)
    ensures Spaced(admitted + [id])
  {
    var longer, last := admitted + [id], Last(admitted, RECENT_MESSAGE_ID_LIMIT);
    forall i | 0 <= i < |admitted| ensures admitted[i] == id ==> |admitted| - i > RECENT_MESSAGE_ID_LIMIT {
      var start := |admitted| - |last|;
      assert i >= start ==> last[i - start] == admitted[i];
    }
  }

  lemma Evict(recent: seq<string>, seen: set<string>, admitted: seq<string>)
    requires Backed(recent, seen, admitted) && 1 <= |recent| <= |admitted|
    ensures recent[0] != "" && Backed(recent[1..], seen - {recent[0]}, admitted)
  {
    var rest := recent[1..];
    assert Last(admitted, |rest|) == Last(admitted, |recent|)[1..];
    assert recent == [recent[0]] + rest;
    assert forall x :: x in rest ==> exists j | 0 < j < |recent| :: recent[j] == x;
  }

  lemma Settled(recent: seq<string>, seen: set<string>, admitted: seq<string>)
    requires Backed(recent, seen, admitted) && |recent| <= RECENT_MESSAGE_ID_LIMIT && Spaced(admitted)
    requires |recent| >= RECENT_MESSAGE_ID_LIMIT || recent == admitted
    ensures Remembers(recent, seen, admitted)
  {
  }

  // ------------------------------------------------------------------ every run

  datatype Action = Arrive(id: string) | Reset

  datatype State = State(recent: seq<string>, seen: set<string>)

  // One arrival: the answer, and the state after it.
  function Arrived(s: State, id: string): (State, bool) {
    if id == "" then (s, true)
    else if id in s.seen then (s, false)
    else
      var recent := s.recent + [id];
      if |recent| <= RECENT_MESSAGE_ID_LIMIT then (State(recent, s.seen + {id}), true)
      else (State(recent[1..], s.seen + {id} - {recent[0]}), true)
  }

  function Apply(s: State, a: Action): State {
    if a.Reset? then State([], {}) else Arrived(s, a.id).0
  }

  function Run(acts: seq<Action>): State {
    if acts == [] then State([], {}) else Apply(Run(acts[..|acts| - 1]), acts[|acts| - 1])
  }

  // What a client that never forgets would have let through since the last reset.
  function Admitted(acts: seq<Action>): seq<string> {
    if acts == [] then []
    else
      var before, a := Admitted(acts[..|acts| - 1]), acts[|acts| - 1];
      if a.Reset? then [] else if a.id != "" && Admits(before, a.id) then before + [a.id] else before
  }

  lemma ArrivalIsRemembered(s: State, admitted: seq<string>, id: string)
    requires Remembers(s.recent, s.seen, admitted)
    ensures Arrived(s, id).1 <==> Admits(admitted, id)
    ensures Remembers(Arrived(s, id).0.recent, Arrived(s, id).0.seen,
                      if id != "" && Admits(admitted, id) then admitted + [id] else admitted)
  {
    Looks(s.recent, s.seen, admitted, id);
    AtMostLimit(s.recent, s.seen, admitted);
    hide Remembers;
    hide Backed;
    hide Spaced;
    hide Admits;
    if id != "" && id !in s.seen {
      Entered(s.recent, s.seen, admitted, id);
      var recent := s.recent + [id];
      if |recent| > RECENT_MESSAGE_ID_LIMIT {
        Evict(recent, s.seen + {id}, admitted + [id]);
        Settled(recent[1..], s.seen + {id} - {recent[0]}, admitted + [id]);
      } else {
        Settled(recent, s.seen + {id}, admitted + [id]);
      }
    }
  }

  lemma AtMostLimit(recent: seq<string>, seen: set<string>, admitted: seq<string>)
    requires Remembers(recent, seen, admitted)
    ensures |recent| <= RECENT_MESSAGE_ID_LIMIT
  {
  }

  // Whatever arrives, queue and set remember exactly the last five hundred admitted ids.
  lemma {:induction false} RunRemembers(acts: seq<Action>)
    ensures Remembers(Run(acts).recent, Run(acts).seen, Admitted(acts))
  {
    if acts != [] {
      var before, a := acts[..|acts| - 1], acts[|acts| - 1];
      RunRemembers(before);
      if a.Arrive? {
        ArrivalIsRemembered(Run(before), Admitted(before), a.id);
        hide Remembers;
        hide Arrived;
        hide Admits;
      }
    }
  }

  // So the next id is let through exactly if it is empty or not among them, and between two admissions
  // of the same id lie five hundred admissions of others.
  lemma DedupIsExact(acts: seq<Action>, id: string)
    ensures Arrived(Run(acts), id).1 <==> id == "" || id !in Last(Admitted(acts), RECENT_MESSAGE_ID_LIMIT)
    ensures |Run(acts).recent| <= RECENT_MESSAGE_ID_LIMIT && Run(acts).seen == Elements(Run(acts).recent)
    ensures var all := Admitted(acts);
            forall i, j | 0 <= i < j < |all| && all[i] == all[j] :: j - i > RECENT_MESSAGE_ID_LIMIT
  {
    RunRemembers(acts);
    ArrivalIsRemembered(Run(acts), Admitted(acts), id);
    AtMostLimit(Run(acts).recent, Run(acts).seen, Admitted(acts));
    hide Run;
    hide Admitted;
    hide Arrived;
  }
}
