// What holds of every single chat request: which models it is sent to, what it reports to the
// breaker, what it counts and what it leaves alone.

module Pipeline {
  import opened Common
  import opened Auth
  import opened Telemetry
  import opened DataPlane
  import Circuit
  import Limiter
  import Policy
  import Quota
  import Routing
  import Text

  // The loop stops at the first accepted reply and nowhere else.
  lemma {:induction false} TriedStops(n: nat, replies: nat -> Reply, from: nat)
    requires from < n
    ensures var tried := Tried(n, replies, from);
            && from < tried
            && (forall i :: from <= i < tried - 1 ==> !Accepts(replies(i).outcome))
            && (tried < n ==> Accepts(replies(tried - 1).outcome))
    decreases n - from
  {
    if !Accepts(replies(from).outcome) && from + 1 < n {
      TriedStops(n, replies, from + 1);
    }
  }

  // The clock does not run backwards while one request queries the breaker.
  ghost predicate AsksOrdered(asks: Routing.Asks) {
    forall i: nat, j: nat :: i <= j ==> asks(i) <= asks(j)
  }

  // The targets a request queries.
  function QueriedTargets(w: World, req: Request): seq<string>
    requires req.body.Parsed?
  {
    Routing.Listed(w.aliases, req.body.model)
  }

  // Those of them that the breaker as it stood lets through.
  function LetThrough(s: Setup, w: World, req: Request, asks: Routing.Asks): seq<string>
    requires req.body.Parsed?
  {
    Routing.Filtered(s.cfg, w.table, QueriedTargets(w, req), asks)
  }

  lemma FilteredOne(cfg: Circuit.Config, t: Circuit.Table, x: string, asks: Routing.Asks)
    ensures Routing.Filtered(cfg, t, [x], asks) == if Circuit.Admits(cfg, t, x, asks(0)) then [x] else []
  {
    assert [x][..0] == [] && Routing.Filtered(cfg, t, [], asks) == [];
  }

  // A valid request's candidates are what it queries, filtered by the breaker as it stood, without
  // leading empty targets.
  lemma CandidatesAreHealthy(s: Setup, w: World, req: Request, env: Env)
    requires Rejection(s, req).None? && AsksOrdered(env.asks)
    ensures Candidates(s, w, req, env) == Routing.Usable(LetThrough(s, w, req, env.asks))
  {
    var key := Text.ToLower(req.body.model);
    if key in w.aliases {
      Routing.HealthyIsFiltered(s.cfg, w.table, w.aliases[key], env.asks);
    } else {
      FilteredOne(s.cfg, w.table, req.body.model, env.asks);
    }
  }

  // Attempts follow routing: the models a forwarded request is sent to are, in order, a prefix of
  // its candidates, ending at the first accepted reply or covering them all; the response is that
  // of the accepted attempt, or reports that there was none.
  lemma AttemptsFollowRouting(s: Setup, w: World, req: Request, env: Env)
    requires StageOf(s, w, req, env) == Forwarded
    ensures var candidates, sent := Candidates(s, w, req, env), Sent(s, w, req, env);
            && 0 < |sent| <= |candidates|
            && (forall i :: 0 <= i < |sent| ==> sent[i] == Attempt(candidates[i], env.replies(i)))
            && (forall i :: 0 <= i < |sent| - 1 ==> !Accepts(sent[i].reply.outcome))
            && (Accepted(sent) || |sent| == |candidates|)
            && (Answer(s, w, req, env).Relayed?
                <==> exists i :: 0 <= i < |candidates| && Accepts(env.replies(i).outcome))
  {
    hide StageOf, Candidates;
    var candidates := Candidates(s, w, req, env);
    SentNonEmpty(s, w, req, env);
    TriedStops(|candidates|, env.replies, 0);
    var sent := Sent(s, w, req, env);
    if i :| 0 <= i < |candidates| && Accepts(env.replies(i).outcome) {
      assert !Accepted(sent) ==> |sent| == |candidates|;
      assert Accepted(sent);
    }
    if Accepted(sent) {
      assert Accepts(env.replies(|sent| - 1).outcome);
    }
  }

  // Told by the numbers: no answer, 401, 429 and everything from 500 on fail an attempt.
  predicate Fails(o: Outcome) {
    o.TransportError? || o.status == 401 || o.status == 429 || 500 <= o.status
  }

  // After a failed attempt the next candidate is tried, if there is one, and the breaker is told of
  // a failure; at any other status the loop stops, relays exactly that status as that candidate's,
  // and tells of a success.
  lemma LoopByStatus(s: Setup, w: World, req: Request, env: Env, i: nat)
    requires i < |Sent(s, w, req, env)|
    ensures var candidates, sent, reply := Candidates(s, w, req, env), Sent(s, w, req, env), env.replies(i);
            && |sent| <= |candidates| && sent[i] == Attempt(candidates[i], reply)
            && (Fails(reply.outcome) && i + 1 < |candidates| ==> i + 1 < |sent|)
            && (Fails(reply.outcome) ==> Result(sent[i]) == Circuit.Op(candidates[i], Circuit.Failure(reply.finish)))
            && (!Fails(reply.outcome) ==>
                  && |sent| == i + 1 && Answer(s, w, req, env) == Relayed(reply.outcome.status, candidates[i])
                  && Result(sent[i]) == Circuit.Op(candidates[i], Circuit.Success))
  {
    hide StageOf, Candidates;
    SentNonEmpty(s, w, req, env);
    AttemptsFollowRouting(s, w, req, env);
  }

  // The attempts on one model.
  function On(attempts: seq<Attempt>, x: string): seq<Attempt> {
    if attempts == [] then []
    else
      var before, a := attempts[..|attempts| - 1], attempts[|attempts| - 1];
      if a.model == x then On(before, x) + [a] else On(before, x)
  }

  lemma {:induction false} OnElements(attempts: seq<Attempt>, x: string)
    ensures On(attempts, x) == [] <==> forall i :: 0 <= i < |attempts| ==> attempts[i].model != x
    ensures forall i :: 0 <= i < |On(attempts, x)| ==> On(attempts, x)[i] in attempts && On(attempts, x)[i].model == x
  {
    if attempts != [] {
      OnElements(attempts[..|attempts| - 1], x);
    }
  }

  function Models(attempts: seq<Attempt>): seq<string> {
    seq(|attempts|, i requires 0 <= i < |attempts| => attempts[i].model)
  }

  lemma {:induction false} OnCounts(attempts: seq<Attempt>, x: string)
    ensures |On(attempts, x)| == multiset(Models(attempts))[x]
  {
    if attempts != [] {
      var before, a := attempts[..|attempts| - 1], attempts[|attempts| - 1];
      OnCounts(before, x);
      assert Models(attempts) == Models(before) + [a.model];
    }
  }

  // No model is sent to more often than the request's alias lists it.
  lemma SentAtMostListed(s: Setup, w: World, req: Request, env: Env, x: string)
    requires req.body.Parsed?
    ensures |On(Sent(s, w, req, env), x)| <= multiset(QueriedTargets(w, req))[x]
  {
    hide StageOf, Routing.Candidates;
    var candidates, sent := Candidates(s, w, req, env), Sent(s, w, req, env);
    OnCounts(sent, x);
    SentNonEmpty(s, w, req, env);
    Routing.CandidatesAtMost(s.cfg, w.table, w.aliases, req.body.model, env.asks, x);
    assert Models(sent) == candidates[..|sent|];
    assert candidates == candidates[..|sent|] + candidates[|sent|..];
  }

  // Setting queries aside, what a request tells the breaker is one result per attempt: a success
  // if it was accepted, a failure at its finish otherwise.
  lemma ReportsAreResults(s: Setup, w: World, req: Request, env: Env)
    ensures Circuit.WithoutAsks(BreakerOps(s, w, req, env)) == Results(Sent(s, w, req, env))
  {
    if Rejection(s, req).None? {
      OnlyResultsRemain(QueriedTargets(w, req), env.asks, Sent(s, w, req, env));
    } else {
      RejectedEffects(s, w, req, env);
    }
  }

  // The results reported for one model.
  function Reports(ops: seq<Circuit.Op>, x: string): seq<Circuit.Op> {
    if ops == [] then []
    else
      var before, op := ops[..|ops| - 1], ops[|ops| - 1];
      if op.target == x && !op.event.Ask? then Reports(before, x) + [op] else Reports(before, x)
  }

  lemma {:induction false} ReportsIgnoreAsks(ops: seq<Circuit.Op>, x: string)
    ensures Reports(Circuit.WithoutAsks(ops), x) == Reports(ops, x)
  {
    if ops != [] {
      var before, op := ops[..|ops| - 1], ops[|ops| - 1];
      ReportsIgnoreAsks(before, x);
      if !op.event.Ask? {
        assert (Circuit.WithoutAsks(before) + [op])[..|Circuit.WithoutAsks(before)|] == Circuit.WithoutAsks(before);
      }
    }
  }

  lemma {:induction false} ReportsOfResults(attempts: seq<Attempt>, x: string)
    ensures Reports(Results(attempts), x) == Results(On(attempts, x))
  {
    if attempts != [] {
      var before, a := attempts[..|attempts| - 1], attempts[|attempts| - 1];
      ReportsOfResults(before, x);
      assert Results(attempts)[..|before|] == Results(before);
      assert Results(On(before, x) + [a]) == Results(On(before, x)) + [Result(a)];
    }
  }

  // A model is sent to at most as often as it is listed, once if the targets are distinct; exactly
  // the outcome of each time is reported to the breaker, in order, and for any other model nothing.
  lemma OneReportPerAttempt(s: Setup, w: World, req: Request, env: Env, x: string)
    ensures Reports(BreakerOps(s, w, req, env), x) == Results(On(Sent(s, w, req, env), x))
    ensures |On(Sent(s, w, req, env), x)|
         <= if req.body.Parsed? then multiset(QueriedTargets(w, req))[x] else 0
    ensures req.body.Parsed? && Routing.Distinct(QueriedTargets(w, req)) ==> |On(Sent(s, w, req, env), x)| <= 1
  {
    var sent := Sent(s, w, req, env);
    if req.body.Parsed? {
      SentAtMostListed(s, w, req, env, x);
      if Routing.Distinct(QueriedTargets(w, req)) {
        DistinctCount(QueriedTargets(w, req), x);
      }
    }
    ReportsAreResults(s, w, req, env);
    ReportsIgnoreAsks(BreakerOps(s, w, req, env), x);
    ReportsOfResults(sent, x);
  }

  lemma {:induction false} DistinctCount(targets: seq<string>, x: string)
    requires Routing.Distinct(targets)
    ensures multiset(targets)[x] <= 1
  {
    if targets != [] {
      var n := |targets| - 1;
      DistinctCount(targets[..n], x);
      assert targets == targets[..n] + [targets[n]];
      if targets[n] == x {
        assert x !in targets[..n];
      }
    }
  }

  lemma {:induction false} OnlyResultsRemain(targets: seq<string>, asks: Routing.Asks, sent: seq<Attempt>)
    ensures Circuit.WithoutAsks(Routing.AskAll(targets, asks) + Results(sent)) == Results(sent)
    decreases |targets| + |sent|
  {
    var ops := Routing.AskAll(targets, asks) + Results(sent);
    if sent != [] {
      var before := sent[..|sent| - 1];
      OnlyResultsRemain(targets, asks, before);
      assert ops[..|ops| - 1] == Routing.AskAll(targets, asks) + Results(before);
      assert Results(sent) == Results(before) + [Result(sent[|sent| - 1])];
    } else if targets != [] {
      var before := targets[..|targets| - 1];
      OnlyResultsRemain(before, asks, sent);
      assert ops[..|ops| - 1] == Routing.AskAll(before, asks) + Results(sent);
      assert Results(sent) == [];
    }
  }

  predicate NoRepeats(attempts: seq<Attempt>) {
    forall i, j :: 0 <= i < j < |attempts| ==> attempts[i].model != attempts[j].model
  }

  // An alias may list a target twice. A request that passes the gates never sends to one model
  // twice, whatever the upstream replies, exactly when its candidates are distinct: when no target
  // is listed twice and taken over from the list both times.
  lemma NoModelSentTwice(s: Setup, w: World, req: Request, env: Env)
    requires StageOf(s, w, req, env) == Forwarded
    ensures NeverRepeats(s, w, req, env) <==> Routing.Distinct(Candidates(s, w, req, env))
    ensures AsksOrdered(env.asks)
      ==> (NeverRepeats(s, w, req, env) <==> Routing.NoneTakenTwice(s.cfg, w.table, QueriedTargets(w, req), env.asks))
  {
    var candidates := Candidates(s, w, req, env);
    if Routing.Distinct(candidates) {
      forall replies: nat -> Reply
        ensures NoRepeats(Sent(s, w, req, env.(replies := replies)))
      {
        SameGates(s, w, req, env, replies);
        AttemptsFollowRouting(s, w, req, env.(replies := replies));
      }
    } else {
      var sent := AllAttempts(s, w, req, env, 0);
      var i, j :| 0 <= i < j < |candidates| && candidates[i] == candidates[j];
      assert sent[i].model == candidates[i] && sent[j].model == candidates[j];
      assert !NeverRepeats(s, w, req, env);
    }
    if AsksOrdered(env.asks) {
      CandidatesAreHealthy(s, w, req, env);
      Routing.DistinctWhenTakenOnce(s.cfg, w.table, QueriedTargets(w, req), env.asks);
    }
  }

  // Whatever the upstream replies, no model is sent to twice.
  ghost predicate NeverRepeats(s: Setup, w: World, req: Request, env: Env) {
    forall replies: nat -> Reply :: NoRepeats(Sent(s, w, req, env.(replies := replies)))
  }

  // An upstream that never answers, at whatever time it is asked.
  function Silence(at: int): nat -> Reply {
    n => Reply(at, at, TransportError)
  }

  // If the upstream never answers, every candidate is sent to.
  lemma AllAttempts(s: Setup, w: World, req: Request, env: Env, at: int) returns (sent: seq<Attempt>)
    requires StageOf(s, w, req, env) == Forwarded
    ensures sent == Sent(s, w, req, env.(replies := Silence(at)))
    ensures |sent| == |Candidates(s, w, req, env)|
    ensures forall i :: 0 <= i < |sent| ==>
              sent[i] == Attempt(Candidates(s, w, req, env)[i], Reply(at, at, TransportError))
  {
    SameGates(s, w, req, env, Silence(at));
    AttemptsFollowRouting(s, w, req, env.(replies := Silence(at)));
    sent := Sent(s, w, req, env.(replies := Silence(at)));
  }

  // The gates do not depend on what the upstream will reply.
  lemma SameGates(s: Setup, w: World, req: Request, env: Env, replies: nat -> Reply)
    ensures StageOf(s, w, req, env.(replies := replies)) == StageOf(s, w, req, env)
    ensures Candidates(s, w, req, env.(replies := replies)) == Candidates(s, w, req, env)
  {
  }

  // ---------------------------------------------------------------------------------------
  // Error accounting
  // ---------------------------------------------------------------------------------------

  // The attempts that came back with a failing status mapped to `code`.
  function FailuresWith(attempts: seq<Attempt>, code: string): set<nat> {
    set i | 0 <= i < |attempts| && attempts[i].reply.outcome.Responded?
            && FailureClass(attempts[i].reply.outcome.status)
            && UpstreamErrorCode(attempts[i].reply.outcome.status) == code
  }

  lemma {:induction false} StatusErrorsCount(attempts: seq<Attempt>, code: string)
    ensures StatusErrors(attempts)[code] == |FailuresWith(attempts, code)|
  {
    if attempts != [] {
      var n := |attempts| - 1;
      var before, o := attempts[..n], attempts[n].reply.outcome;
      StatusErrorsCount(before, code);
      FailuresGrow(attempts, code);
      assert StatusErrors(attempts) == StatusErrors(before) + StatusError(o);
    }
  }

  lemma FailuresGrow(attempts: seq<Attempt>, code: string)
    requires attempts != []
    ensures var n := |attempts| - 1;
            |FailuresWith(attempts, code)|
            == |FailuresWith(attempts[..n], code)| + StatusError(attempts[n].reply.outcome)[code]
  {
    var n := |attempts| - 1;
    var before := FailuresWith(attempts[..n], code);
    if n in FailuresWith(attempts, code) {
      assert FailuresWith(attempts, code) == before + {n};
    } else {
      assert FailuresWith(attempts, code) == before;
    }
  }

  function ReportedCode(last: Outcome): string {
    if last.TransportError? then UPSTREAM_UNREACHABLE else UpstreamErrorCode(last.status)
  }

  // A request adds one count per attempt with a failing status, under that status's code, and one
  // UNREACHABLE count exactly when every attempt failed and the last was a transport error. The
  // code it reports is the last attempt's.
  lemma ErrorAccounting(s: Setup, w: World, req: Request, env: Env, code: string)
    requires StageOf(s, w, req, env) == Forwarded
    ensures var sent := Sent(s, w, req, env);
            && sent != []
            && var last := sent[|sent| - 1].reply.outcome;
               var summary := code == UPSTREAM_UNREACHABLE && last.TransportError?;
            && UpstreamErrors(sent)[code] == |FailuresWith(sent, code)| + (if summary then 1 else 0)
            && (!Accepted(sent) ==> Answer(s, w, req, env) == Refused(502, ReportedCode(last)))
            && (last.TransportError? ==> forall i :: 0 <= i < |sent| ==> !Accepts(sent[i].reply.outcome))
  {
    AttemptsFollowRouting(s, w, req, env);
    StatusErrorsCount(Sent(s, w, req, env), code);
  }

  // The attempts that were answered with a status from `lo` to `hi`.
  function AnsweredWithin(attempts: seq<Attempt>, lo: int, hi: int): set<nat> {
    set i | 0 <= i < |attempts| && attempts[i].reply.outcome.Responded? && lo <= attempts[i].reply.outcome.status <= hi
  }

  // The same by the numbers: a 401, a 429 and a status from 500 on are counted each under its own
  // code, no answer at the end under a fourth, nothing under any other, and a failed request reports
  // the code of its last attempt. `most` is any number no status exceeds.
  lemma ErrorsByStatus(s: Setup, w: World, req: Request, env: Env, most: int)
    requires StageOf(s, w, req, env) == Forwarded && most >= 500
    requires forall i :: 0 <= i < |Sent(s, w, req, env)| && Sent(s, w, req, env)[i].reply.outcome.Responded?
               ==> Sent(s, w, req, env)[i].reply.outcome.status <= most
    ensures var sent, errors := Sent(s, w, req, env), UpstreamErrors(Sent(s, w, req, env));
            && sent != []
            && var last := sent[|sent| - 1].reply.outcome;
            && errors["UPSTREAM_AUTH_ERROR"] == |AnsweredWithin(sent, 401, 401)|
            && errors["UPSTREAM_RATE_LIMIT"] == |AnsweredWithin(sent, 429, 429)|
            && errors["UPSTREAM_UNAVAILABLE"] == |AnsweredWithin(sent, 500, most)|
            && errors["UPSTREAM_UNREACHABLE"] == (if last.TransportError? then 1 else 0)
            && (last.TransportError? ==> Answer(s, w, req, env) == Refused(502, "UPSTREAM_UNREACHABLE"))
            && (last == Responded(401) ==> Answer(s, w, req, env) == Refused(502, "UPSTREAM_AUTH_ERROR"))
            && (last == Responded(429) ==> Answer(s, w, req, env) == Refused(502, "UPSTREAM_RATE_LIMIT"))
            && (last.Responded? && last.status >= 500
                ==> Answer(s, w, req, env) == Refused(502, "UPSTREAM_UNAVAILABLE"))
  {
    hide StageOf, Candidates, Sent, Answer, UpstreamErrors, FailuresWith;
    var sent := Sent(s, w, req, env);
    ErrorAccounting(s, w, req, env, UPSTREAM_AUTH);
    ErrorAccounting(s, w, req, env, UPSTREAM_RATE_LIMIT);
    ErrorAccounting(s, w, req, env, UPSTREAM_UNAVAILABLE);
    ErrorAccounting(s, w, req, env, UPSTREAM_UNREACHABLE);
    FailuresByStatus(sent, most);
  }

  lemma FailuresByStatus(sent: seq<Attempt>, most: int)
    requires most >= 500 && forall i :: 0 <= i < |sent| && sent[i].reply.outcome.Responded?
                              ==> sent[i].reply.outcome.status <= most
    ensures FailuresWith(sent, "UPSTREAM_AUTH_ERROR") == AnsweredWithin(sent, 401, 401)
    ensures FailuresWith(sent, "UPSTREAM_RATE_LIMIT") == AnsweredWithin(sent, 429, 429)
    ensures FailuresWith(sent, "UPSTREAM_UNAVAILABLE") == AnsweredWithin(sent, 500, most)
    ensures FailuresWith(sent, "UPSTREAM_UNREACHABLE") == {}
  {
    CodesDiffer();
  }

  lemma CodesDiffer()
    ensures UPSTREAM_AUTH == "UPSTREAM_AUTH_ERROR" && UPSTREAM_RATE_LIMIT == "UPSTREAM_RATE_LIMIT"
    ensures UPSTREAM_UNAVAILABLE == "UPSTREAM_UNAVAILABLE" && UPSTREAM_UNREACHABLE == "UPSTREAM_UNREACHABLE"
    ensures |multiset{UPSTREAM_AUTH, UPSTREAM_RATE_LIMIT, UPSTREAM_UNAVAILABLE, UPSTREAM_UNREACHABLE}| == 4
    ensures UPSTREAM_AUTH != UPSTREAM_RATE_LIMIT && UPSTREAM_AUTH != UPSTREAM_UNAVAILABLE
    ensures UPSTREAM_AUTH != UPSTREAM_UNREACHABLE && UPSTREAM_RATE_LIMIT != UPSTREAM_UNAVAILABLE
    ensures UPSTREAM_RATE_LIMIT != UPSTREAM_UNREACHABLE && UPSTREAM_UNAVAILABLE != UPSTREAM_UNREACHABLE
  {
    assert UPSTREAM_AUTH[9] == 'A' && UPSTREAM_RATE_LIMIT[9] == 'R';
    assert UPSTREAM_UNAVAILABLE[11] == 'A' && UPSTREAM_UNREACHABLE[11] == 'R';
    assert UPSTREAM_UNAVAILABLE[9] == 'U' && UPSTREAM_UNREACHABLE[9] == 'U';
  }

  // ---------------------------------------------------------------------------------------
  // What the gates guarantee
  // ---------------------------------------------------------------------------------------

  // The gates by what they look at: a valid request without a candidate is 503; without a key it
  // goes through; with one it is 403, 429 with a wait, or 429 for its quota by the first of policy,
  // rate limit and quota that objects to its first candidate, and goes through if none does.
  lemma GatesInOrder(s: Setup, w: World, req: Request, env: Env)
    requires Rejection(s, req).None?
    ensures var candidates, answer := Candidates(s, w, req, env), Answer(s, w, req, env);
            && (candidates == [] <==> answer == Refused(503, "routing_failed"))
            && (candidates != [] && req.key.None? ==> StageOf(s, w, req, env) == Forwarded)
            && (candidates != [] && req.key.Some? ==>
                  var key := req.key.value;
                  var permitted := Permits(w.deny, key, candidates[0]);
                  var held := Held(w.windows, key, env.rateAt);
                  var over := Exceeds(w.book, key, Estimate(req));
                  && (answer == Refused(403, "model_not_allowed") <==> !permitted)
                  && (answer.Throttled? <==> permitted && held) && (answer.Throttled? ==> answer.status == 429)
                  && (answer == Refused(429, "quota_exceeded") <==> permitted && !held && over)
                  && (StageOf(s, w, req, env) == Forwarded <==> permitted && !held && !over))
  {
    hide Routing.Candidates, Limiter.Answer, Policy.Matches;
    if StageOf(s, w, req, env) == Forwarded {
      hide Candidates, Rejection;
      ForwardedAnswer(s, w, req, env);
    }
  }

  lemma ForwardedAnswer(s: Setup, w: World, req: Request, env: Env)
    requires StageOf(s, w, req, env) == Forwarded
    ensures var answer := Answer(s, w, req, env);
            answer.Relayed? || (answer.Refused? && answer.status == 502)
  {
    hide StageOf, Sent;
  }

  // No deny list names the model, and the key's allow list, if it has one, does.
  predicate Permits(deny: seq<string>, key: KeyInfo, model: string) {
    && !Policy.Matches(deny, model) && !Policy.Matches(key.deniedModels, model)
    && (key.allowedModels == [] || Policy.Matches(key.allowedModels, model))
  }

  // The key has a limit per minute and the limiter refuses it now.
  predicate Held(windows: Limiter.Store, key: KeyInfo, now: int) {
    key.rpmLimit > 0 && !Limiter.Answer(windows, Limiter.Call(Limiter.Rpm(key.id), key.rpmLimit, now)).allowed
  }

  // The tokens go beyond a quota the key has.
  predicate Exceeds(book: Quota.Book, key: KeyInfo, tokens: int) {
    || (key.dailyQuota > 0 && Quota.Used(book, key.id).daily + tokens > key.dailyQuota)
    || (key.monthlyQuota > 0 && Quota.Used(book, key.id).monthly + tokens > key.monthlyQuota)
  }

  // The token counter by the numbers: a relayed request adds the whole quarters of its messages'
  // bytes to the series of its key, or of "unknown", and its model; no other series changes.
  lemma TokensByNumbers(before: TokenCounts, after: TokenCounts, req: Request, response: Response,
                        series: (string, string, string))
    requires TokensCounted(before, after, req, response) && req.body.Parsed?
    ensures !response.Relayed? ==> after == before
    ensures response.Relayed? ==>
              var who := if req.key.Some? then req.key.value.id else "unknown";
              var added := after[series] - before[series];
              && (series != (who, response.model, "input") ==> added == 0)
              && (series == (who, response.model, "input") && req.body.messages > 0
                  ==> 4 * added <= req.body.bytes < 4 * added + 4)
  {
  }

  // A request that is not relayed charges nobody, and one refused before forwarding reports
  // nothing to the breaker; only an accepted one changes its key's usage, by its estimate.
  lemma OnlyAcceptedIsCharged(s: Setup, w: World, req: Request, env: Env, id: string)
    ensures var charged := if req.key.Some? && KeyId(req) == id && Answer(s, w, req, env).Relayed?
                           then Estimate(req) else 0;
            Quota.Used(After(s, w, req, env).book, id)
            == Quota.Usage(Quota.Used(w.book, id).daily + charged, Quota.Used(w.book, id).monthly + charged)
    ensures StageOf(s, w, req, env) != Forwarded ==> Sent(s, w, req, env) == []
    ensures StageOf(s, w, req, env) != Forwarded ==> Circuit.WithoutAsks(BreakerOps(s, w, req, env)) == []
  {
    hide KeyStage, Routing.Candidates, Circuit.Fold;
    ReportsAreResults(s, w, req, env);
    if Rejection(s, req).Some? {
      RejectedEffects(s, w, req, env);
    } else if StageOf(s, w, req, env) != Forwarded {
      RefusedEffects(s, w, req, env);
    } else {
      ForwardedEffects(s, w, req, env);
    }
  }

  lemma FirstIsPermitted(s: Setup, w: World, req: Request, env: Env)
    requires req.key.Some? && StageOf(s, w, req, env) == Forwarded
    ensures Candidates(s, w, req, env) != []
    ensures Policy.ModelPermitted(w.deny, req.key.value, Candidates(s, w, req, env)[0])
  {
  }

  // The first model a request is sent to was permitted when it was evaluated, but fallback targets
  // are not evaluated. For a request that passes the gates, every model it is sent to is permitted,
  // whatever the upstream replies, exactly when its whole fallback chain is: when every target taken
  // over from the alias is.
  lemma FallbackPolicy(s: Setup, w: World, req: Request, env: Env)
    requires req.key.Some? && StageOf(s, w, req, env) == Forwarded
    ensures Sent(s, w, req, env) != []
    ensures Policy.ModelPermitted(w.deny, req.key.value, Sent(s, w, req, env)[0].model)
    ensures OnlyPermitted(s, w, req, env) <==> ChainPermitted(w.deny, req.key.value, Candidates(s, w, req, env))
    ensures AsksOrdered(env.asks)
      ==> (OnlyPermitted(s, w, req, env) <==> TakenPermitted(s, w, req, env.asks))
  {
    hide Candidates, Sent, Policy.ModelPermitted;
    var candidates := Candidates(s, w, req, env);
    AttemptsFollowRouting(s, w, req, env);
    FirstIsPermitted(s, w, req, env);
    if ChainPermitted(w.deny, req.key.value, candidates) {
      forall replies: nat -> Reply
        ensures AllPermitted(w.deny, req.key.value, Sent(s, w, req, env.(replies := replies)))
      {
        SameGates(s, w, req, env, replies);
        AttemptsFollowRouting(s, w, req, env.(replies := replies));
      }
    } else {
      var sent := AllAttempts(s, w, req, env, 0);
      var i :| 1 <= i < |candidates| && !Policy.ModelPermitted(w.deny, req.key.value, candidates[i]);
      assert sent[i].model == candidates[i];
      assert !OnlyPermitted(s, w, req, env);
    }
    if AsksOrdered(env.asks) {
      ChainIsTaken(s, w, req, env);
    }
  }

  // Every target taken over from the alias, by the breaker as it stood, is permitted.
  predicate TakenPermitted(s: Setup, w: World, req: Request, asks: Routing.Asks)
    requires req.key.Some? && req.body.Parsed?
  {
    var targets := QueriedTargets(w, req);
    forall i :: 0 <= i < |targets| && Routing.Taken(s.cfg, w.table, targets, asks, i)
      ==> Policy.ModelPermitted(w.deny, req.key.value, targets[i])
  }

  lemma ChainIsTaken(s: Setup, w: World, req: Request, env: Env)
    requires req.key.Some? && StageOf(s, w, req, env) == Forwarded && AsksOrdered(env.asks)
    ensures ChainPermitted(w.deny, req.key.value, Candidates(s, w, req, env)) <==> TakenPermitted(s, w, req, env.asks)
  {
    hide Candidates, Policy.ModelPermitted, Routing.Taken, Routing.Usable, Routing.Filtered, Routing.Listed;
    var targets, candidates := QueriedTargets(w, req), Candidates(s, w, req, env);
    FirstIsPermitted(s, w, req, env);
    CandidatesAreHealthy(s, w, req, env);
    forall x
      ensures x in candidates
         <==> exists i :: 0 <= i < |targets| && targets[i] == x && Routing.Taken(s.cfg, w.table, targets, env.asks, i)
    {
      Routing.TakenElements(s.cfg, w.table, targets, env.asks, x);
    }
    if ChainPermitted(w.deny, req.key.value, candidates) {
      forall i | 0 <= i < |targets| && Routing.Taken(s.cfg, w.table, targets, env.asks, i)
        ensures Policy.ModelPermitted(w.deny, req.key.value, targets[i])
      {
        assert targets[i] in candidates;
      }
    } else {
      var n :| 1 <= n < |candidates| && !Policy.ModelPermitted(w.deny, req.key.value, candidates[n]);
      assert candidates[n] in candidates;
    }
  }

  // Whatever the upstream replies, every model sent to is permitted.
  ghost predicate OnlyPermitted(s: Setup, w: World, req: Request, env: Env)
    requires req.key.Some?
  {
    forall replies: nat -> Reply :: AllPermitted(w.deny, req.key.value, Sent(s, w, req, env.(replies := replies)))
  }

  predicate ChainPermitted(deny: seq<string>, key: KeyInfo, candidates: seq<string>) {
    forall i :: 1 <= i < |candidates| ==> Policy.ModelPermitted(deny, key, candidates[i])
  }

  predicate AllPermitted(deny: seq<string>, key: KeyInfo, attempts: seq<Attempt>) {
    forall i :: 0 <= i < |attempts| ==> Policy.ModelPermitted(deny, key, attempts[i].model)
  }

  // ---------------------------------------------------------------------------------------
  // Both conditions can fail
  // ---------------------------------------------------------------------------------------

  // A gateway that has served nothing yet, with one alias "a".
  function Fresh(targets: seq<string>): World {
    World(map[], map["a" := targets], map[], map[], [])
  }

  // A key without limits that may not use the model "y".
  const DENIED_Y: KeyInfo :=
    KeyInfo("k", "", "", "h", true, None, [], ["y"], [], [], 0, 0, 0, 0, 0, 0.0, 0, 0)

  // Its request for the alias, over an upstream that never answers.
  const ASKING: Request := Request("POST", Some(DENIED_Y), Parsed("a", 1, 0))

  function Unanswered(at: int): Env {
    Env(at, _ => at, at, Silence(at), at)
  }

  // An attempt that fails as soon as it is made.
  function Failed(model: string, at: int): Attempt {
    Attempt(model, Reply(at, at, TransportError))
  }

  lemma DeniesExactlyY()
    ensures Policy.ModelPermitted([], DENIED_Y, "x") && !Policy.ModelPermitted([], DENIED_Y, "y")
  {
    assert Text.ToLower("x")[0] == 'x' && Text.ToLower("y")[0] == 'y';
    assert Policy.Covers(DENIED_Y.deniedModels[0], "y");
  }

  // It passes the gates, and is sent to every target the alias lists.
  lemma AskingReachesAll(s: Setup, targets: seq<string>)
    requires targets != [] && targets[0] == "x"
    ensures StageOf(s, Fresh(targets), ASKING, Unanswered(0)) == Forwarded
    ensures Sent(s, Fresh(targets), ASKING, Unanswered(0)) == Attempts(targets, Silence(0))
  {
    hide Policy.ModelPermitted, Limiter.Answer, Tried, Sent, Candidates;
    var w := Fresh(targets);
    FreshCandidates(s, targets);
    DeniesExactlyY();
    var sent := AllAttempts(s, w, ASKING, Unanswered(0), 0);
    assert Unanswered(0).(replies := Silence(0)) == Unanswered(0);
    assert sent == Attempts(targets, Silence(0));
  }

  lemma FreshCandidates(s: Setup, targets: seq<string>)
    requires targets != [] && targets[0] == "x"
    ensures Rejection(s, ASKING).None? && Candidates(s, Fresh(targets), ASKING, Unanswered(0)) == targets
  {
    assert Text.ToLower("a") == "a";
    CandidatesAreHealthy(s, Fresh(targets), ASKING, Unanswered(0));
    Routing.AdmittedAllPass(s.cfg, map[], targets, Unanswered(0).asks);
  }

  // The primary target fails, and the request goes on to a model its key is denied.
  lemma FallbackReachesDenied(s: Setup)
    ensures var w := Fresh(["x", "y"]);
            && StageOf(s, w, ASKING, Unanswered(0)) == Forwarded
            && Sent(s, w, ASKING, Unanswered(0)) == [Failed("x", 0), Failed("y", 0)]
            && !AllPermitted(w.deny, DENIED_Y, Sent(s, w, ASKING, Unanswered(0)))
  {
    AskingReachesAll(s, ["x", "y"]);
    DeniesExactlyY();
    assert Sent(s, Fresh(["x", "y"]), ASKING, Unanswered(0))[1].model == "y";
  }

  // A target listed twice is sent to twice.
  lemma RepeatedTargetSentTwice(s: Setup)
    ensures var w := Fresh(["x", "x"]);
            && StageOf(s, w, ASKING, Unanswered(0)) == Forwarded
            && Sent(s, w, ASKING, Unanswered(0)) == [Failed("x", 0), Failed("x", 0)]
            && !NoRepeats(Sent(s, w, ASKING, Unanswered(0)))
  {
    AskingReachesAll(s, ["x", "x"]);
    var sent := Sent(s, Fresh(["x", "x"]), ASKING, Unanswered(0));
    assert sent[0].model == sent[1].model;
  }

  // The upstream fails the first attempt with a status, and does not answer the second.
  function FailsThenSilent(n: nat): Reply {
    Reply(0, 0, if n == 0 then Responded(500) else TransportError)
  }

  // The summary counts although an attempt before the last got a status.
  lemma SummaryCountsBesideStatus(s: Setup)
    ensures var w, env := Fresh(["x", "z"]), Unanswered(0).(replies := FailsThenSilent);
            && StageOf(s, w, ASKING, env) == Forwarded
            && UpstreamErrors(Sent(s, w, ASKING, env)) == multiset{UPSTREAM_UNAVAILABLE, UPSTREAM_UNREACHABLE}
  {
    var w, env := Fresh(["x", "z"]), Unanswered(0).(replies := FailsThenSilent);
    AskingReachesAll(s, ["x", "z"]);
    SameGates(s, w, ASKING, Unanswered(0), FailsThenSilent);
    FreshCandidates(s, ["x", "z"]);
    hide StageOf, Candidates, UpstreamErrors, Results;
    AttemptsFollowRouting(s, w, ASKING, env);
    var sent := Sent(s, w, ASKING, env);
    var first, second := Attempt("x", FailsThenSilent(0)), Attempt("z", FailsThenSilent(1));
    assert sent == [first] + [second];
    assert sent[..1] == [first] && [first][..0] == [];
    assert StatusErrors([first]) == multiset{UPSTREAM_UNAVAILABLE};
  }

  // The upstream throttles the first attempt and accepts the second.
  function ThrottlesOnce(n: nat): Reply {
    Reply(0, 0, Responded(if n == 0 then 429 else 200))
  }

  // A 429 is not relayed: the fallback is tried, and its 200 is.
  lemma ThrottledThenAccepted(s: Setup)
    ensures var w, env := Fresh(["x", "z"]), Unanswered(0).(replies := ThrottlesOnce);
            && Sent(s, w, ASKING, env) == [Attempt("x", ThrottlesOnce(0)), Attempt("z", ThrottlesOnce(1))]
            && Answer(s, w, ASKING, env) == Relayed(200, "z")
            && Results(Sent(s, w, ASKING, env))
               == [Circuit.Op("x", Circuit.Failure(0)), Circuit.Op("z", Circuit.Success)]
            && UpstreamErrors(Sent(s, w, ASKING, env)) == multiset{"UPSTREAM_RATE_LIMIT"}
  {
    var w, env := Fresh(["x", "z"]), Unanswered(0).(replies := ThrottlesOnce);
    AskingReachesAll(s, ["x", "z"]);
    SameGates(s, w, ASKING, Unanswered(0), ThrottlesOnce);
    FreshCandidates(s, ["x", "z"]);
    hide StageOf, Candidates, UpstreamErrors, Results;
    AttemptsFollowRouting(s, w, ASKING, env);
    var sent := Sent(s, w, ASKING, env);
    var first, second := Attempt("x", ThrottlesOnce(0)), Attempt("z", ThrottlesOnce(1));
    assert sent == [first, second];
    TwoAttempts(first, second);
  }

  lemma TwoAttempts(first: Attempt, second: Attempt)
    ensures UpstreamErrors([first, second])
         == StatusError(first.reply.outcome) + StatusError(second.reply.outcome)
            + if second.reply.outcome.TransportError? then multiset{UPSTREAM_UNREACHABLE} else multiset{}
    ensures Results([first, second]) == [Result(first), Result(second)]
  {
    hide StatusError, Result;
    var sent := [first, second];
    assert sent[..1] == [first] && [first][..0] == [] && StatusErrors([]) == multiset{};
    assert StatusErrors([first]) == StatusError(first.reply.outcome);
  }
}
