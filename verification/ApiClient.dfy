/**
 The browser's HTTP client: one call may be re-issued after server or network trouble, and once more
 after its credentials were renewed; renewals that overlap share one attempt.
 */
module ApiClient {
  import opened Wrappers

  const MAX_RETRIES: nat := 2

  // What comes back for one request: nothing, or a status with a body that may not parse.
  datatype Reply = Lost | Response(status: nat, body: Option<string>)

  datatype Options = Options(redirectOnUnauthorized: bool, isRetry: bool, attempt: nat)

  const DEFAULTS := Options(true, false, 0)

  datatype Envelope =
    | NoNetwork
    | Passed(content: string)
    | BadFormat(status: nat)
    | Rejected(status: nat, body: Option<string>)

  // The network as a call meets it: the reply to the i-th request, and the outcome of the i-th renewal.
  datatype World = World(replies: nat -> Reply, renewals: nat -> bool)

  // `requests` and `renewals` count what the call used up; `redirected` tells whether it asked for the login page.
  datatype Trace = Trace(requests: nat, renewals: nat, redirected: bool, envelope: Envelope)

  predicate IsOk(status: nat) {
    200 <= status < 300
  }

  predicate Unauthorized(r: Reply) {
    r.Response? && r.status == 401
  }

  predicate Troubled(r: Reply) {
    r.Lost? || r.status >= 500
  }

  function RetriesLeft(o: Options): nat {
    if o.attempt < MAX_RETRIES then MAX_RETRIES - o.attempt else 0
  }

  function RenewalsLeft(o: Options): nat {
    if o.redirectOnUnauthorized && !o.isRetry then 1 else 0
  }

  function Answered(r: Reply): Envelope {
    if r.Lost? then NoNetwork
    else if IsOk(r.status) then (if r.body.Some? then Passed(r.body.value) else BadFormat(r.status))
    else Rejected(r.status, r.body)
  }

  // What a call returns for the reply `r`: the body of a success, and otherwise what went wrong, each exactly when.
  ghost predicate Fits(envelope: Envelope, r: Reply) {
    && (envelope.NoNetwork? <==> r.Lost?)
    && (forall b :: envelope == Passed(b) <==> r.Response? && 200 <= r.status < 300 && r.body == Some(b))
    && (forall code :: envelope == BadFormat(code) <==>
          r.Response? && 200 <= r.status < 300 && r.body == None && r.status == code)
    && (forall code, body :: envelope == Rejected(code, body) <==>
          r == Response(code, body) && (code < 200 || code >= 300))
  }

  lemma AnsweredFits(r: Reply)
    ensures Fits(Answered(r), r)
  {
  }

  // A call that has used up `n` requests and `k` renewals.
  function Called(o: Options, w: World, n: nat, k: nat): Trace
    decreases RetriesLeft(o) + RenewalsLeft(o)
  {
    var r := w.replies(n);
    if Troubled(r) && o.attempt < MAX_RETRIES then Called(o.(attempt := o.attempt + 1), w, n + 1, k)
    else if r.Lost? || IsOk(r.status) || r.status != 401 then Trace(n + 1, k, false, Answered(r))
    else if !o.redirectOnUnauthorized then Trace(n + 1, k, false, Answered(r))
    else if o.isRetry then Trace(n + 1, k, true, Answered(r))
    else if w.renewals(k) then Called(o.(isRetry := true), w, n + 1, k + 1)
    else Trace(n + 1, k + 1, true, Answered(r))
  }

  lemma CalledUnfold(o: Options, w: World, n: nat, k: nat)
    ensures var r := w.replies(n);
            Called(o, w, n, k) ==
            if Troubled(r) && o.attempt < MAX_RETRIES then Called(o.(attempt := o.attempt + 1), w, n + 1, k)
            else if !Unauthorized(r) || !o.redirectOnUnauthorized then Trace(n + 1, k, false, Answered(r))
            else if o.isRetry then Trace(n + 1, k, true, Answered(r))
            else if w.renewals(k) then Called(o.(isRetry := true), w, n + 1, k + 1)
            else Trace(n + 1, k + 1, true, Answered(r))
  {
  }

  // The client of one page; the world is fixed, the counters tell how much of it has been seen.
  class Client {
    var redirecting: bool
    var redirects: nat
    var requests: nat
    var renewals: nat

    constructor ()
      ensures !redirecting && redirects == 0 && requests == 0 && renewals == 0
    {
      redirecting, redirects, requests, renewals := false, 0, 0, 0;
    }

    method RedirectToLoginOnce()
      modifies this`redirecting, this`redirects
      ensures redirecting && redirects == old(redirects) + if old(redirecting) then 0 else 1
    {
      if redirecting {
        return;
      }
      redirecting := true;
      redirects := redirects + 1;
    }

    method Api(w: World, o: Options) returns (envelope: Envelope)
      modifies this
      ensures var t := Called(o, w, old(requests), old(renewals));
              && envelope == t.envelope && requests == t.requests && renewals == t.renewals
              && redirecting == (old(redirecting) || t.redirected)
              && redirects == old(redirects) + if t.redirected && !old(redirecting) then 1 else 0
      ensures requests > old(requests) && Fits(envelope, w.replies(requests - 1))
      decreases RetriesLeft(o) + RenewalsLeft(o)
    {
      LastReplyDecides(o, w, requests, renewals);
      CalledUnfold(o, w, requests, renewals);
      hide Called;
      var r := w.replies(requests);
      requests := requests + 1;
      if r.Lost? {
        if o.attempt < MAX_RETRIES {
          envelope := Api(w, o.(attempt := o.attempt + 1));
          return;
        }
        return NoNetwork;
      }
      if IsOk(r.status) {
        return if r.body.Some? then Passed(r.body.value) else BadFormat(r.status);
      }
      if r.status == 401 {
        if o.redirectOnUnauthorized && !o.isRetry {
          var renewed := w.renewals(renewals);
          renewals := renewals + 1;
          if renewed {
            envelope := Api(w, o.(isRetry := true));
            return;
          }
        }
        if o.redirectOnUnauthorized {
          RedirectToLoginOnce();
        }
      }
      if r.status >= 500 && o.attempt < MAX_RETRIES {
        envelope := Api(w, o.(attempt := o.attempt + 1));
        return;
      }
      envelope := Rejected(r.status, r.body);
    }
  }

  // ------------------------------------------------------------------ what a call can do

  predicate Retries(o: Options, w: World, n: nat) {
    Troubled(w.replies(n)) && o.attempt < MAX_RETRIES
  }

  predicate Renews(o: Options, w: World, n: nat, k: nat) {
    Unauthorized(w.replies(n)) && o.redirectOnUnauthorized && !o.isRetry && w.renewals(k)
  }

  // The three ways to go on after a reply: ask again, renew and ask again, or answer.
  lemma Unfold(o: Options, w: World, n: nat, k: nat)
    ensures Retries(o, w, n) ==> Called(o, w, n, k) == Called(o.(attempt := o.attempt + 1), w, n + 1, k)
    ensures Renews(o, w, n, k) ==> Called(o, w, n, k) == Called(o.(isRetry := true), w, n + 1, k + 1)
    ensures !Retries(o, w, n) && !Renews(o, w, n, k) ==>
              var t := Called(o, w, n, k);
              && t.requests == n + 1 && k <= t.renewals <= k + RenewalsLeft(o)
              && (Unauthorized(w.replies(n)) ==> t.renewals == k + RenewalsLeft(o))
              && t.envelope == Answered(w.replies(n))
              && (t.redirected <==> o.redirectOnUnauthorized && Unauthorized(w.replies(n)))
  {
  }

  // A call uses at least one request and no more than its options leave it.
  lemma {:induction false} CallIsBounded(o: Options, w: World, n: nat, k: nat)
    ensures var t := Called(o, w, n, k);
            && n < t.requests <= n + 1 + RetriesLeft(o) + RenewalsLeft(o)
            && k <= t.renewals <= k + RenewalsLeft(o)
    decreases RetriesLeft(o) + RenewalsLeft(o)
  {
    Unfold(o, w, n, k);
    hide Called;
    hide Answered;
    if Retries(o, w, n) {
      CallIsBounded(o.(attempt := o.attempt + 1), w, n + 1, k);
    } else if Renews(o, w, n, k) {
      CallIsBounded(o.(isRetry := true), w, n + 1, k + 1);
    }
  }

  // How many of the `len` numbers from `from` on satisfy `p`.
  function Count(p: nat -> bool, from: nat, len: nat): nat
    decreases len
  {
    if len == 0 then 0 else (if p(from) then 1 else 0) + Count(p, from + 1, len - 1)
  }

  // Every reply but the last was trouble or a 401 answered by a renewal: so no other client error is ever
  // retried. The last reply alone decides the envelope, and the login page is asked for exactly if it is a 401.
  lemma {:induction false} LastReplyDecides(o: Options, w: World, n: nat, k: nat)
    ensures var t := Called(o, w, n, k);
            && t.requests > n
            && (forall i | n <= i < t.requests - 1 ::
                  w.replies(i).Lost? || w.replies(i).status >= 500 || w.replies(i).status == 401)
            && Fits(t.envelope, w.replies(t.requests - 1))
            && (t.redirected <==>
                && o.redirectOnUnauthorized
                && w.replies(t.requests - 1).Response? && w.replies(t.requests - 1).status == 401)
    decreases RetriesLeft(o) + RenewalsLeft(o)
  {
    Unfold(o, w, n, k);
    AnsweredFits(w.replies(n));
    hide Called;
    hide Answered;
    hide Fits;
    if Retries(o, w, n) {
      LastReplyDecides(o.(attempt := o.attempt + 1), w, n + 1, k);
    } else if Renews(o, w, n, k) {
      LastReplyDecides(o.(isRetry := true), w, n + 1, k + 1);
    }
  }

  // How the requests of one call divide up: one, one for every troubled reply that was retried, and one
  // for a successful renewal.
  lemma {:induction false} RequestsAddUp(o: Options, w: World, n: nat, k: nat)
    ensures var t := Called(o, w, n, k);
            && t.requests > n
            && t.requests == n + 1 + Count((i: nat) => Troubled(w.replies(i)), n, t.requests - 1 - n)
                                   + Count((i: nat) => Unauthorized(w.replies(i)), n, t.requests - 1 - n)
            && Count((i: nat) => Troubled(w.replies(i)), n, t.requests - 1 - n) <= RetriesLeft(o)
            && Count((i: nat) => Unauthorized(w.replies(i)), n, t.requests - 1 - n) <= RenewalsLeft(o)
            && Count((i: nat) => Unauthorized(w.replies(i)), n, t.requests - 1 - n) <= t.renewals - k
    decreases RetriesLeft(o) + RenewalsLeft(o)
  {
    Unfold(o, w, n, k);
    hide Called;
    hide Answered;
    if Retries(o, w, n) {
      RequestsAddUp(o.(attempt := o.attempt + 1), w, n + 1, k);
    } else if Renews(o, w, n, k) {
      RequestsAddUp(o.(isRetry := true), w, n + 1, k + 1);
    }
  }

  // A call ends on trouble only when all its retries are used up, and on a 401 only when its renewal is.
  lemma {:induction false} StopsOnlyWhenSpent(o: Options, w: World, n: nat, k: nat)
    ensures var t := Called(o, w, n, k);
            && t.requests > n
            && (w.replies(t.requests - 1).Lost? || w.replies(t.requests - 1).status >= 500 ==>
                  Count((i: nat) => Troubled(w.replies(i)), n, t.requests - 1 - n) == RetriesLeft(o))
            && (w.replies(t.requests - 1).Response? && w.replies(t.requests - 1).status == 401 ==>
                  t.renewals == k + if o.redirectOnUnauthorized && !o.isRetry then 1 else 0)
    decreases RetriesLeft(o) + RenewalsLeft(o)
  {
    Unfold(o, w, n, k);
    hide Called;
    hide Answered;
    if Retries(o, w, n) {
      StopsOnlyWhenSpent(o.(attempt := o.attempt + 1), w, n + 1, k);
    } else if Renews(o, w, n, k) {
      StopsOnlyWhenSpent(o.(isRetry := true), w, n + 1, k + 1);
    }
  }

  // A call with the default options makes at most four requests and one renewal.
  lemma DefaultCallIsBounded(w: World)
    ensures var t := Called(DEFAULTS, w, 0, 0); 1 <= t.requests <= 4 && t.renewals <= 1
  {
    CallIsBounded(DEFAULTS, w, 0, 0);
  }

  // Four requests are reached.
  lemma FourRequestsHappen(first: Reply, second: Reply, body: Option<string>, last: Reply)
    requires Troubled(first) && Troubled(second)
    ensures var replies := [first, second, Response(401, body), last];
            var w := World((i: nat) => if i < 4 then replies[i] else Lost, (k: nat) => true);
            Called(DEFAULTS, w, 0, 0).requests == 4 && Called(DEFAULTS, w, 0, 0).renewals == 1
  {
    var replies := [first, second, Response(401, body), last];
    var w := World((i: nat) => if i < 4 then replies[i] else Lost, (k: nat) => true);
    assert w.replies(0) == first && w.replies(1) == second && w.replies(3) == last;
    assert Called(DEFAULTS, w, 0, 0) == Called(Options(true, false, 1), w, 1, 0);
    assert Called(Options(true, false, 1), w, 1, 0) == Called(Options(true, false, 2), w, 2, 0);
    assert Called(Options(true, false, 2), w, 2, 0) == Called(Options(true, true, 2), w, 3, 1);
  }

  // ------------------------------------------------------------------ renewals of many calls

  // `flight` is the attempt under way. Callers wait for the attempt they joined.
  datatype Renewing = Renewing(flight: Option<nat>, started: nat, results: map<nat, bool>, joined: map<nat, nat>)

  datatype Action = Ask(caller: nat) | Settle(ok: bool)

  function Apply(s: Renewing, a: Action): Renewing {
    match a
    case Ask(caller) =>
      if caller in s.joined then s
      else
        var t := if s.flight.Some? then s else s.(flight := Some(s.started), started := s.started + 1);
        t.(joined := t.joined[caller := t.flight.value])
    case Settle(ok) =>
      if s.flight.None? then s else s.(flight := None, results := s.results[s.flight.value := ok])
  }

  function Run(acts: seq<Action>): Renewing {
    if acts == [] then Renewing(None, 0, map[], map[]) else Apply(Run(acts[..|acts| - 1]), acts[|acts| - 1])
  }

  ghost predicate OneFlight(s: Renewing) {
    && (s.flight.Some? ==> s.started == s.flight.value + 1)
    && (forall f: nat :: f in s.results <==> f < s.started && s.flight != Some(f))
    && (forall c | c in s.joined :: s.joined[c] < s.started)
  }

  lemma StepKeepsOneFlight(s: Renewing, a: Action)
    requires OneFlight(s)
    ensures OneFlight(Apply(s, a))
  {
    var t := Apply(s, a);
    forall f: nat ensures f in t.results <==> f < t.started && t.flight != Some(f) {
      assert f in s.results <==> f < s.started && s.flight != Some(f);
    }
  }

  lemma {:induction false} RunsHaveOneFlight(acts: seq<Action>)
    ensures OneFlight(Run(acts))
  {
    if acts != [] {
      RunsHaveOneFlight(acts[..|acts| - 1]);
      StepKeepsOneFlight(Run(acts[..|acts| - 1]), acts[|acts| - 1]);
    }
  }

  // All callers that still wait share one attempt, and attempts never overlap: all but one have ended.
  lemma WaitersShareOneAttempt(acts: seq<Action>, a: nat, b: nat)
    requires a in Run(acts).joined && b in Run(acts).joined
    ensures var s := Run(acts);
            && (s.joined[a] !in s.results && s.joined[b] !in s.results ==> s.joined[a] == s.joined[b])
            && (forall f: nat | f < s.started && f !in s.results :: s.flight == Some(f))
  {
    RunsHaveOneFlight(acts);
    hide Run;
  }

  // A caller that asks while another still waits joins that one's attempt and starts none.
  lemma AskingMeanwhileStartsNothing(acts: seq<Action>, waiting: nat, caller: nat)
    requires waiting in Run(acts).joined && Run(acts).joined[waiting] !in Run(acts).results
    requires caller !in Run(acts).joined
    ensures var s, s' := Run(acts), Apply(Run(acts), Ask(caller));
            s'.started == s.started && s'.joined[caller] == s.joined[waiting]
  {
    RunsHaveOneFlight(acts);
    hide Run;
  }

  // The end of an attempt answers every caller that waits, and nobody else: their answer is its outcome.
  lemma SettlingAnswersAllWaiters(acts: seq<Action>, ok: bool)
    requires Run(acts).flight.Some?
    ensures var s, s' := Run(acts), Run(acts + [Settle(ok)]);
            && s'.flight == None && s'.started == s.started && s'.joined == s.joined
            && s'.results.Keys == s.results.Keys + {s.flight.value}
            && (forall f | f in s.results :: s'.results[f] == s.results[f])
            && (forall c | c in s.joined && s.joined[c] !in s.results ::
                  s.joined[c] in s'.results && s'.results[s.joined[c]] == ok)
  {
    RunsHaveOneFlight(acts);
    assert (acts + [Settle(ok)])[..|acts|] == acts;
  }

  // A caller starts an attempt exactly if none is under way, and in any case waits for the one that then is.
  lemma AskingJoinsOrStarts(acts: seq<Action>, caller: nat)
    requires caller !in Run(acts).joined
    ensures Run([]).started == 0
    ensures var s, s' := Run(acts), Run(acts + [Ask(caller)]);
            && s'.started == s.started + (if s.flight.None? then 1 else 0)
            && s'.flight == (if s.flight.None? then Some(s.started) else s.flight)
            && s'.results == s.results && s'.joined == s.joined[caller := s'.flight.value]
  {
    assert (acts + [Ask(caller)])[..|acts|] == acts;
  }
}
