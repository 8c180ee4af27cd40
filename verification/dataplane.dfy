// The chat completions pipeline of internal/api/dataplane.go: validate, resolve, policy, rate
// limit, quota, forward with fallback, record.

module DataPlane {
  import opened Common
  import opened Auth
  import opened Telemetry
  import Circuit
  import Limiter
  import Policy
  import Quota
  import Routing

  const UPSTREAM_AUTH: string := "UPSTREAM_AUTH_ERROR"
  const UPSTREAM_RATE_LIMIT: string := "UPSTREAM_RATE_LIMIT"
  const UPSTREAM_UNAVAILABLE: string := "UPSTREAM_UNAVAILABLE"
  const UPSTREAM_UNREACHABLE: string := "UPSTREAM_UNREACHABLE"

  // A request body as far as decoding it goes: `bytes` is the length of the re-encoded messages.
  datatype Body = Unreadable | Empty | Malformed | Parsed(model: string, messages: nat, bytes: nat)

  datatype Request = Request(verb: string, key: Option<KeyInfo>, body: Body)

  // A model as the upstream describes it, and as it is listed.
  datatype Model = Model(id: string, ownedBy: string)

  datatype ListedModel = ListedModel(model: Model, created: int)

  datatype Outcome = TransportError | Responded(status: int)

  datatype Reply = Reply(start: int, finish: int, outcome: Outcome)

  // What surrounds one request: the times at which it reads the clock, and what the upstream
  // answers to its i-th attempt. The whole request lies between `begin` and `end`.
  datatype Env = Env(begin: int, asks: Routing.Asks, rateAt: int, replies: nat -> Reply, end: int)

  datatype Attempt = Attempt(model: string, reply: Reply)

  datatype Response =
    | Refused(status: int, code: string)
    | Throttled(status: int, retryAfter: int)
    | Relayed(status: int, model: string)

  function EstimateTokens(messages: nat, bytes: nat): nat {
    if messages == 0 then 0 else bytes / 4
  }

  function UpstreamErrorCode(status: int): string {
    if status == 401 then UPSTREAM_AUTH
    else if status == 429 then UPSTREAM_RATE_LIMIT
    else UPSTREAM_UNAVAILABLE
  }

  // The Retry-After header: whole seconds, rounded up past the wait.
  function RetryAfterHeader(retryAfter: int): int {
    retryAfter / SECOND + 1
  }

  predicate Accepts(o: Outcome) {
    o.Responded? && !FailureClass(o.status)
  }

  // Who a request is metered and charged as.
  function KeyId(req: Request): string {
    if req.key.Some? then req.key.value.id else "unknown"
  }

  // ---------------------------------------------------------------------------------------
  // The upstream
  // ---------------------------------------------------------------------------------------

  class Adapter {
    var sent: seq<Attempt>

    constructor ()
      ensures sent == []
    {
      sent := [];
    }

    method ForwardChatCompletion(model: string, reply: Reply) returns (outcome: Outcome)
      modifies this
      ensures sent == old(sent) + [Attempt(model, reply)] && outcome == reply.outcome
    {
      sent := sent + [Attempt(model, reply)];
      outcome := reply.outcome;
    }
  }

  // ---------------------------------------------------------------------------------------
  // What one request does
  // ---------------------------------------------------------------------------------------

  // The state all gates read and write.
  datatype World = World(table: Circuit.Table, aliases: Routing.Aliases, windows: Limiter.Store,
                         book: Quota.Book, deny: seq<string>)

  // What does not change: the breaker's configuration, and whether keys are required.
  datatype Setup = Setup(cfg: Circuit.Config, requiresKey: bool)

  // The gate a request gets stuck at, if any.
  datatype Stage = Invalid | NoRoute | Denied | RateLimited | OverQuota | Forwarded

  function Rejection(s: Setup, req: Request): (r: Option<Response>)
    ensures r.Some? ==> r.value.Refused?
    ensures r.None? ==> req.body.Parsed?
  {
    if req.verb != "POST" then Some(Refused(405, "method_not_allowed"))
    else if s.requiresKey && req.key.None? then Some(Refused(401, "unauthorized"))
    else match req.body
      case Unreadable => Some(Refused(400, "bad_request"))
      case Empty => Some(Refused(400, "empty_body"))
      case Malformed => Some(Refused(400, "invalid_json"))
      case Parsed(model, messages, _) =>
        if model == "" then Some(Refused(400, "missing_model"))
        else if messages == 0 then Some(Refused(400, "missing_messages"))
        else None
  }

  function Candidates(s: Setup, w: World, req: Request, env: Env): seq<string> {
    if req.body.Parsed? then Routing.Candidates(s.cfg, w.table, w.aliases, req.body.model, env.asks) else []
  }

  predicate Metered(req: Request) {
    req.key.Some? && req.key.value.rpmLimit > 0
  }

  function KeyCall(key: KeyInfo, now: int): Limiter.Call {
    Limiter.Call(Limiter.Rpm(key.id), key.rpmLimit, now)
  }

  function Estimate(req: Request): nat {
    if req.body.Parsed? then EstimateTokens(req.body.messages, req.body.bytes) else 0
  }

  // The gates an authenticated request passes through once `first` is its primary target.
  function KeyStage(deny: seq<string>, windows: Limiter.Store, book: Quota.Book,
                    key: KeyInfo, first: string, now: int, tokens: nat): (stage: Stage)
    ensures stage != Invalid && stage != NoRoute
  {
    if !Policy.ModelPermitted(deny, key, first) then Denied
    else if key.rpmLimit > 0 && !Limiter.Answer(windows, KeyCall(key, now)).allowed then RateLimited
    else if !Quota.Fits(book, key.id, key.dailyQuota, key.monthlyQuota, tokens) then OverQuota
    else Forwarded
  }

  function StageOf(s: Setup, w: World, req: Request, env: Env): Stage {
    var candidates := Candidates(s, w, req, env);
    if Rejection(s, req).Some? then Invalid
    else if candidates == [] then NoRoute
    else if req.key.Some? then
      KeyStage(w.deny, w.windows, w.book, req.key.value, candidates[0], env.rateAt, Estimate(req))
    else Forwarded
  }

  // How many of the first `n` attempts are made: up to the first that is accepted.
  function Tried(n: nat, replies: nat -> Reply, from: nat): nat
    requires from <= n
    ensures from <= Tried(n, replies, from) <= n
    decreases n - from
  {
    if from == n then n
    else if Accepts(replies(from).outcome) then from + 1
    else Tried(n, replies, from + 1)
  }

  function Attempts(targets: seq<string>, replies: nat -> Reply): seq<Attempt> {
    seq(|targets|, i requires 0 <= i < |targets| => Attempt(targets[i], replies(i)))
  }

  // The attempts one request makes.
  function Sent(s: Setup, w: World, req: Request, env: Env): seq<Attempt> {
    if StageOf(s, w, req, env) == Forwarded then
      var targets := Candidates(s, w, req, env);
      Attempts(targets[..Tried(|targets|, env.replies, 0)], env.replies)
    else []
  }

  predicate Accepted(attempts: seq<Attempt>) {
    attempts != [] && Accepts(attempts[|attempts| - 1].reply.outcome)
  }

  // The result an attempt reports to the breaker.
  function Result(a: Attempt): Circuit.Op {
    Circuit.Op(a.model, if Accepts(a.reply.outcome) then Circuit.Success else Circuit.Failure(a.reply.finish))
  }

  function Results(attempts: seq<Attempt>): seq<Circuit.Op> {
    seq(|attempts|, i requires 0 <= i < |attempts| => Result(attempts[i]))
  }

  function BreakerOps(s: Setup, w: World, req: Request, env: Env): seq<Circuit.Op> {
    if Rejection(s, req).Some? then []
    else Routing.Queries(w.aliases, req.body.model, env.asks) + Results(Sent(s, w, req, env))
  }

  function RateCalls(s: Setup, w: World, req: Request, env: Env): seq<Limiter.Call> {
    if Metered(req) && PassedPolicy(StageOf(s, w, req, env)) then [KeyCall(req.key.value, env.rateAt)] else []
  }

  predicate PassedPolicy(stage: Stage) {
    stage == RateLimited || stage == OverQuota || stage == Forwarded
  }

  predicate PassedRate(stage: Stage) {
    stage == OverQuota || stage == Forwarded
  }

  function WindowsAfter(w: World, req: Request, env: Env, stage: Stage): Limiter.Store {
    if Metered(req) && PassedPolicy(stage)
    then Limiter.Step(w.windows, KeyCall(req.key.value, env.rateAt))
    else w.windows
  }

  // The quota book after the check, and after the charge.
  function BookChecked(w: World, req: Request, stage: Stage): Quota.Book {
    if req.key.Some? && PassedRate(stage) then Quota.Touched(w.book, KeyId(req)) else w.book
  }

  function BookAfter(s: Setup, w: World, req: Request, env: Env): Quota.Book {
    var checked := BookChecked(w, req, StageOf(s, w, req, env));
    if req.key.Some? && Accepted(Sent(s, w, req, env))
    then Quota.Charged(checked, KeyId(req), Estimate(req)) else checked
  }

  function After(s: Setup, w: World, req: Request, env: Env): World {
    World(Circuit.Fold(s.cfg, w.table, BreakerOps(s, w, req, env)),
          w.aliases,
          WindowsAfter(w, req, env, StageOf(s, w, req, env)),
          BookAfter(s, w, req, env),
          w.deny)
  }

  // One count per attempt that came back with a failing status.
  function StatusError(o: Outcome): multiset<string> {
    if o.Responded? && !Accepts(o) then multiset{UpstreamErrorCode(o.status)} else multiset{}
  }

  function StatusErrors(attempts: seq<Attempt>): multiset<string> {
    if attempts == [] then multiset{}
    else StatusErrors(attempts[..|attempts| - 1]) + StatusError(attempts[|attempts| - 1].reply.outcome)
  }

  // The status the loop remembers of an attempt; 0 for a transport error.
  function StatusOf(o: Outcome): int {
    if o.Responded? then o.status else 0
  }

  // One more when all attempts failed and the last got no answer at all.
  function UpstreamErrors(attempts: seq<Attempt>): multiset<string> {
    StatusErrors(attempts) +
    if attempts != [] && attempts[|attempts| - 1].reply.outcome.TransportError?
    then multiset{UPSTREAM_UNREACHABLE} else multiset{}
  }

  // The response after forwarding is read off the last attempt alone.
  function Delivered(attempts: seq<Attempt>): (r: Response)
    requires attempts != []
    ensures r.Relayed? ==> !FailureClass(r.status)
  {
    var last := attempts[|attempts| - 1];
    match last.reply.outcome
    case TransportError => Refused(502, UPSTREAM_UNREACHABLE)
    case Responded(status) =>
      if FailureClass(status) then Refused(502, UpstreamErrorCode(status)) else Relayed(status, last.model)
  }

  // The response of a gate that objects.
  function Refusal(stage: Stage, retryAfter: int): (r: Response)
    ensures !r.Relayed?
  {
    match stage
    case NoRoute => Refused(503, "routing_failed")
    case Denied => Refused(403, "model_not_allowed")
    case RateLimited => Throttled(429, RetryAfterHeader(retryAfter))
    case _ => Refused(429, "quota_exceeded")
  }

  // The wait the limiter announces to a metered request.
  function Wait(w: World, req: Request, env: Env): int {
    if Metered(req) then Limiter.Answer(w.windows, KeyCall(req.key.value, env.rateAt)).retryAfter else 0
  }

  // A relayed status is never in the failure class, whatever the upstream replies.
  function Answer(s: Setup, w: World, req: Request, env: Env): (r: Response)
    ensures r.Relayed? ==> !FailureClass(r.status)
  {
    var stage := StageOf(s, w, req, env);
    if stage == Invalid then Rejection(s, req).value
    else if stage == Forwarded then
      SentNonEmpty(s, w, req, env);
      Delivered(Sent(s, w, req, env))
    else Refusal(stage, Wait(w, req, env))
  }

  // The breaker after this request's queries.
  function Queried(s: Setup, w: World, req: Request, env: Env): Circuit.Table
    requires req.body.Parsed?
  {
    Circuit.Fold(s.cfg, w.table, Routing.Queries(w.aliases, req.body.model, env.asks))
  }

  lemma SentNonEmpty(s: Setup, w: World, req: Request, env: Env)
    ensures Sent(s, w, req, env) != [] <==> StageOf(s, w, req, env) == Forwarded
    ensures |Sent(s, w, req, env)| <= |Candidates(s, w, req, env)|
  {
  }

  // ---------------------------------------------------------------------------------------
  // The handler
  // ---------------------------------------------------------------------------------------

  class DataPlaneHandler {
    const adapter: Adapter
    const requiresKey: bool
    const policy: Policy.Engine
    const limiter: Limiter.MemoryLimiter
    const routing: Routing.Engine
    const quota: Quota.MemoryQuota
    const metrics: Metrics

    constructor (adapter: Adapter, requiresKey: bool, policy: Policy.Engine, limiter: Limiter.MemoryLimiter,
                 routing: Routing.Engine, quota: Quota.MemoryQuota, metrics: Metrics)
      requires limiter.Valid() && routing.Valid() && quota.Valid()
      ensures this.adapter == adapter && this.requiresKey == requiresKey && this.policy == policy
      ensures this.limiter == limiter && this.routing == routing && this.quota == quota && this.metrics == metrics
      ensures Valid()
    {
      this.adapter, this.requiresKey, this.policy := adapter, requiresKey, policy;
      this.limiter, this.routing, this.quota, this.metrics := limiter, routing, quota, metrics;
    }

    ghost predicate Valid()
      reads limiter, limiter.Entries, quota, quota.Cells
      reads routing, routing.circuitBreaker, routing.circuitBreaker.States
    {
      limiter.Valid() && routing.Valid() && quota.Valid()
    }

    ghost function Fixed(): Setup {
      Setup(routing.circuitBreaker.cfg, requiresKey)
    }

    ghost function State(): World
      reads policy, routing, routing.circuitBreaker, limiter, quota
    {
      World(routing.circuitBreaker.Contents, routing.aliases, limiter.Contents, quota.Contents, policy.denyModels)
    }

    // The checks before any gate. A request gets past them exactly when it is a POST with a key,
    // where keys are required, a model and at least one message; each code names the first check
    // that fails.
    method Validate(req: Request) returns (rejection: Option<Response>)
      ensures rejection == Rejection(Fixed(), req)
      ensures rejection.None? <==>
                && req.verb == "POST" && (requiresKey ==> req.key.Some?)
                && req.body.Parsed? && req.body.model != "" && req.body.messages > 0
      ensures rejection == Some(Refused(405, "method_not_allowed")) <==> req.verb != "POST"
      ensures rejection == Some(Refused(401, "unauthorized")) <==> req.verb == "POST" && requiresKey && req.key.None?
      ensures Readable(req) && req.body.Parsed? ==>
                && (rejection == Some(Refused(400, "missing_model")) <==> req.body.model == "")
                && (rejection == Some(Refused(400, "missing_messages"))
                    <==> req.body.model != "" && req.body.messages == 0)
      ensures Readable(req) ==>
                && (rejection == Some(Refused(400, "bad_request")) <==> req.body.Unreadable?)
                && (rejection == Some(Refused(400, "empty_body")) <==> req.body.Empty?)
                && (rejection == Some(Refused(400, "invalid_json")) <==> req.body.Malformed?)
      ensures !Readable(req) ==> rejection.Some? && rejection.value.status in {401, 405}
    {
      if req.verb != "POST" {
        return Some(Refused(405, "method_not_allowed"));
      }
      if requiresKey && req.key.None? {
        return Some(Refused(401, "unauthorized"));
      }
      if req.body.Unreadable? {
        return Some(Refused(400, "bad_request"));
      }
      if req.body.Empty? {
        return Some(Refused(400, "empty_body"));
      }
      if req.body.Malformed? {
        return Some(Refused(400, "invalid_json"));
      }
      if req.body.model == "" {
        return Some(Refused(400, "missing_model"));
      }
      if req.body.messages == 0 {
        return Some(Refused(400, "missing_messages"));
      }
      return None;
    }

    // A request whose body is looked at.
    predicate Readable(req: Request) {
      req.verb == "POST" && (requiresKey ==> req.key.Some?)
    }

    // The rate gate: keys with a positive limit only.
    method RateGate(key: KeyInfo, now: int) returns (allowed: bool, retryAfter: int)
      requires limiter.Valid()
      modifies limiter, limiter.Entries
      ensures limiter.Valid() && fresh(limiter.Entries - old(limiter.Entries))
      ensures allowed == (key.rpmLimit > 0 ==> Limiter.Answer(old(limiter.Contents), KeyCall(key, now)).allowed)
      ensures retryAfter
           == if key.rpmLimit > 0 then Limiter.Answer(old(limiter.Contents), KeyCall(key, now)).retryAfter else 0
      ensures limiter.Contents
           == if key.rpmLimit > 0 then Limiter.Step(old(limiter.Contents), KeyCall(key, now)) else old(limiter.Contents)
    {
      if key.rpmLimit <= 0 {
        return true, 0;
      }
      var remaining;
      allowed, remaining, retryAfter := limiter.Allow(key.id, key.rpmLimit, now);
    }

    // Policy, rate limit and quota of an authenticated request: the first to object ends it.
    method KeyGates(key: KeyInfo, first: string, now: int, tokens: nat) returns (stage: Stage, retryAfter: int)
      requires limiter.Valid() && quota.Valid()
      modifies limiter, limiter.Entries, quota
      ensures limiter.Valid() && fresh(limiter.Entries - old(limiter.Entries))
      ensures quota.Valid() && fresh(quota.Cells - old(quota.Cells))
      ensures stage == KeyStage(policy.denyModels, old(limiter.Contents), old(quota.Contents), key, first, now, tokens)
      ensures stage == RateLimited ==> key.rpmLimit > 0
      ensures stage == RateLimited ==> retryAfter == Limiter.Answer(old(limiter.Contents), KeyCall(key, now)).retryAfter
      ensures limiter.Contents
           == if key.rpmLimit > 0 && PassedPolicy(stage) then Limiter.Step(old(limiter.Contents), KeyCall(key, now))
              else old(limiter.Contents)
      ensures quota.Contents
           == if PassedRate(stage) then Quota.Touched(old(quota.Contents), key.id) else old(quota.Contents)
      ensures routing.circuitBreaker.Contents == old(routing.circuitBreaker.Contents)
    {
      hide Limiter.Answer, Limiter.Step, Limiter.MemoryLimiter.Valid;
      hide Quota.Fits, Quota.Touched, Quota.MemoryQuota.Valid;
      hide Policy.ModelPermitted;
      var decision := policy.EvaluateModel(Some(key), first);
      if !decision.allowed {
        return Denied, 0;
      }
      var allowed;
      allowed, retryAfter := RateGate(key, now);
      if !allowed {
        return RateLimited, retryAfter;
      }
      var fits, dailyRem, monthlyRem := quota.Allow(key.id, key.dailyQuota, key.monthlyQuota, tokens);
      return if fits then Forwarded else OverQuota, 0;
    }

    // Resolution first, then the gates of the key; `w` is the state before.
    method Gates(req: Request, env: Env, ghost w: World) returns (stage: Stage, targets: seq<string>, retryAfter: int)
      requires w == World(routing.circuitBreaker.Contents, routing.aliases,
                          limiter.Contents, quota.Contents, policy.denyModels)
      requires Valid() && req.body.Parsed? && Rejection(Fixed(), req).None?
      modifies routing.circuitBreaker`Contents, routing.circuitBreaker.States
      modifies limiter, limiter.Entries, quota
      ensures Valid()
      ensures fresh(limiter.Entries - old(limiter.Entries))
      ensures fresh(quota.Cells - old(quota.Cells))
      ensures stage == StageOf(Fixed(), w, req, env)
      ensures stage == Forwarded ==> targets == Candidates(Fixed(), w, req, env)
      ensures stage == RateLimited ==> retryAfter == Wait(w, req, env)
      ensures routing.circuitBreaker.Contents == Queried(Fixed(), w, req, env)
      ensures limiter.Contents == WindowsAfter(w, req, env, stage)
      ensures quota.Contents == BookChecked(w, req, stage)
    {
      hide Circuit.Fold, Circuit.CircuitBreaker.Valid, KeyStage;
      hide Limiter.Step, Limiter.MemoryLimiter.Valid;
      hide Quota.Touched, Quota.MemoryQuota.Valid;
      hide Routing.Candidates, Routing.Queries, Rejection, StageOf, Candidates;
      StageByCandidates(Fixed(), w, req, env);
      var decision := routing.Resolve(req.body.model, env.asks);
      if decision.None? {
        return NoRoute, [], 0;
      }
      stage, targets, retryAfter := Forwarded, decision.value.Targets(), 0;
      assert limiter.Contents == w.windows && quota.Contents == w.book;
      if req.key.Some? {
        var estimated := EstimateTokens(req.body.messages, req.body.bytes);
        stage, retryAfter := KeyGates(req.key.value, decision.value.target, env.rateAt, estimated);
      }
    }

    // One attempt: forward, report the outcome to the breaker, count a failing status.
    method TryTarget(t: string, reply: Reply) returns (forwarded: bool, statusCode: int, outcome: Outcome)
      requires routing.Valid()
      modifies adapter, metrics`upstreamErrors
      modifies routing.circuitBreaker, routing.circuitBreaker.States
      ensures routing.Valid()
      ensures fresh(routing.circuitBreaker.States - old(routing.circuitBreaker.States))
      ensures adapter.sent == old(adapter.sent) + [Attempt(t, reply)]
      ensures routing.circuitBreaker.Contents
           == Circuit.Step(Fixed().cfg, old(routing.circuitBreaker.Contents), Result(Attempt(t, reply)))
      ensures metrics.upstreamErrors == old(metrics.upstreamErrors) + StatusError(reply.outcome)
      ensures outcome == reply.outcome && forwarded == Accepts(outcome)
      ensures forwarded
         <==> outcome.Responded? && outcome.status < 500 && outcome.status != 401 && outcome.status != 429
      ensures !forwarded ==> statusCode == StatusOf(outcome)
    {
      hide Circuit.Step, Circuit.CircuitBreaker.Valid;
      outcome := adapter.ForwardChatCompletion(t, reply);
      if outcome.TransportError? {
        routing.circuitBreaker.RecordFailure(t, reply.finish);
        return false, 0, outcome;
      }
      if outcome.status >= 500 || outcome.status == 401 || outcome.status == 429 {
        metrics.upstreamErrors := metrics.upstreamErrors + multiset{UpstreamErrorCode(outcome.status)};
        routing.circuitBreaker.RecordFailure(t, reply.finish);
        return false, outcome.status, outcome;
      }
      routing.circuitBreaker.RecordSuccess(t);
      return true, 0, outcome;
    }

    // The fallback loop: each target in turn until the upstream accepts one.
    method ForwardInTurn(targets: seq<string>, replies: nat -> Reply)
      returns (lastResp: Option<Outcome>, lastErr: Option<Outcome>, lastStatusCode: int, successModel: string)
      requires routing.Valid() && targets != []
      modifies adapter, metrics`upstreamErrors
      modifies routing.circuitBreaker, routing.circuitBreaker.States
      ensures routing.Valid()
      ensures fresh(routing.circuitBreaker.States - old(routing.circuitBreaker.States))
      ensures var attempts := Attempts(targets[..Tried(|targets|, replies, 0)], replies);
              && adapter.sent == old(adapter.sent) + attempts
              && routing.circuitBreaker.Contents
                 == Circuit.Fold(Fixed().cfg, old(routing.circuitBreaker.Contents), Results(attempts))
              && metrics.upstreamErrors == old(metrics.upstreamErrors) + StatusErrors(attempts)
              && Summary(attempts, lastResp, lastErr, lastStatusCode, successModel)
    {
      hide Circuit.Fold, Circuit.Step, Circuit.CircuitBreaker.Valid;
      hide StatusErrors, StatusError, Tried, Result, Results, Attempts, Accepts;
      ghost var table := routing.circuitBreaker.Contents;
      lastResp, lastErr, lastStatusCode, successModel := None, None, 0, targets[0];
      EmptyAttempts(Fixed().cfg, table, targets, replies);
      var i := 0;
      while i < |targets| && lastResp.None?
        invariant i <= |targets| && routing.Valid()
        invariant fresh(routing.circuitBreaker.States - old(routing.circuitBreaker.States))
        invariant Tried(|targets|, replies, 0) == if lastResp.Some? then i else Tried(|targets|, replies, i)
        invariant adapter.sent == old(adapter.sent) + Attempts(targets[..i], replies)
        invariant routing.circuitBreaker.Contents
               == Circuit.Fold(Fixed().cfg, table, Results(Attempts(targets[..i], replies)))
        invariant metrics.upstreamErrors == old(metrics.upstreamErrors) + StatusErrors(Attempts(targets[..i], replies))
        invariant i > 0 ==> Summary(Attempts(targets[..i], replies), lastResp, lastErr, lastStatusCode, successModel)
        invariant i == 0 ==> lastResp.None?
        decreases |targets| - i
      {
        OneMoreAttempt(Fixed().cfg, table, targets, replies, i);
        var forwarded, statusCode, outcome := TryTarget(targets[i], replies(i));
        if forwarded {
          lastResp, successModel := Some(outcome), targets[i];
        } else {
          lastErr, lastStatusCode := Some(outcome), statusCode;
        }
        i := i + 1;
      }
      TriedAll(|targets|, replies);
    }

    // What a successful request leaves in the collectors and in the key's quota.
    method RecordUsage(req: Request, model: string)
      requires quota.Valid() && req.body.Parsed?
      modifies quota, quota.Cells, metrics`durations, metrics`tokens
      ensures quota.Valid() && fresh(quota.Cells - old(quota.Cells))
      ensures quota.Contents
           == if req.key.Some? then Quota.Charged(old(quota.Contents), KeyId(req), Estimate(req))
              else old(quota.Contents)
      ensures metrics.durations == old(metrics.durations) + multiset{(CHAT_PATH, model)}
      ensures metrics.tokens == Counted(old(metrics.tokens), (KeyId(req), model, "input"), Estimate(req))
    {
      hide Quota.MemoryQuota.Valid, Quota.Charged;
      var series := (if req.key.Some? then req.key.value.id else "unknown", model, "input");
      var estimated := EstimateTokens(req.body.messages, req.body.bytes);
      metrics.tokens := metrics.tokens[series := metrics.tokens[series] + estimated];
      metrics.durations := metrics.durations + multiset{(CHAT_PATH, model)};
      if req.key.Some? {
        quota.Record(req.key.value.id, estimated);
      }
    }

    // The summary after a loop that forwarded nothing: a transport error at the end is counted
    // here, statuses have been counted attempt by attempt.
    method ReportFailure(lastStatusCode: int) returns (response: Response)
      requires lastStatusCode >= 0
      modifies metrics`upstreamErrors
      ensures response == Refused(502, if lastStatusCode == 0 then "UPSTREAM_UNREACHABLE"
                                       else UpstreamErrorCode(lastStatusCode))
      ensures metrics.upstreamErrors
           == old(metrics.upstreamErrors) + if lastStatusCode == 0 then multiset{UPSTREAM_UNREACHABLE} else multiset{}
    {
      var code := UPSTREAM_UNREACHABLE;
      if lastStatusCode > 0 {
        code := UpstreamErrorCode(lastStatusCode);
      }
      if lastStatusCode == 0 {
        metrics.upstreamErrors := metrics.upstreamErrors + multiset{code};
      }
      return Refused(502, code);
    }

    // Forward, then report the failure or relay and record the success.
    method Deliver(req: Request, targets: seq<string>, replies: nat -> Reply) returns (response: Response)
      requires routing.Valid() && quota.Valid() && req.body.Parsed? && targets != []
      modifies adapter, metrics`upstreamErrors, metrics`durations, metrics`tokens
      modifies routing.circuitBreaker, routing.circuitBreaker.States, quota, quota.Cells
      ensures routing.Valid() && fresh(routing.circuitBreaker.States - old(routing.circuitBreaker.States))
      ensures quota.Valid() && fresh(quota.Cells - old(quota.Cells))
      ensures var attempts := Attempts(targets[..Tried(|targets|, replies, 0)], replies);
              && attempts != [] && response == Delivered(attempts)
              && adapter.sent == old(adapter.sent) + attempts
              && routing.circuitBreaker.Contents
                 == Circuit.Fold(Fixed().cfg, old(routing.circuitBreaker.Contents), Results(attempts))
              && quota.Contents == (if req.key.Some? && Accepted(attempts)
                                    then Quota.Charged(old(quota.Contents), KeyId(req), Estimate(req))
                                    else old(quota.Contents))
              && metrics.upstreamErrors == old(metrics.upstreamErrors) + UpstreamErrors(attempts)
      ensures Sampled(old(metrics.durations), metrics.durations, response)
      ensures TokensCounted(old(metrics.tokens), metrics.tokens, req, response)
    {
      hide Circuit.Fold, Circuit.CircuitBreaker.Valid, StatusErrors, Tried, Results;
      hide Quota.MemoryQuota.Valid, Quota.Charged;
      var lastResp, lastErr, lastStatusCode, successModel := ForwardInTurn(targets, replies);
      if lastResp.Some? {
        RecordUsage(req, successModel);
        response := Relayed(lastResp.value.status, successModel);
      } else {
        assert lastErr.Some?;
        response := ReportFailure(lastStatusCode);
      }
    }

    // A request that has passed the gates; `w` is the state before them.
    method ServeForwarded(req: Request, env: Env, targets: seq<string>, ghost w: World) returns (response: Response)
      requires Valid() && req.body.Parsed? && Rejection(Fixed(), req).None?
      requires StageOf(Fixed(), w, req, env) == Forwarded && targets == Candidates(Fixed(), w, req, env)
      requires routing.circuitBreaker.Contents == Queried(Fixed(), w, req, env)
      requires limiter.Contents == WindowsAfter(w, req, env, Forwarded)
      requires quota.Contents == BookChecked(w, req, Forwarded)
      modifies adapter, metrics`upstreamErrors, metrics`durations, metrics`tokens
      modifies routing.circuitBreaker, routing.circuitBreaker.States, quota, quota.Cells
      ensures Valid()
      ensures fresh(routing.circuitBreaker.States - old(routing.circuitBreaker.States))
      ensures fresh(quota.Cells - old(quota.Cells))
      ensures response == Answer(Fixed(), w, req, env)
      ensures routing.circuitBreaker.Contents == After(Fixed(), w, req, env).table
      ensures limiter.Contents == After(Fixed(), w, req, env).windows
      ensures quota.Contents == After(Fixed(), w, req, env).book
      ensures adapter.sent == old(adapter.sent) + Sent(Fixed(), w, req, env)
      ensures metrics.upstreamErrors == old(metrics.upstreamErrors) + UpstreamErrors(Sent(Fixed(), w, req, env))
      ensures Sampled(old(metrics.durations), metrics.durations, response)
      ensures TokensCounted(old(metrics.tokens), metrics.tokens, req, response)
    {
      hide Circuit.Fold, Circuit.CircuitBreaker.Valid, Limiter.MemoryLimiter.Valid, Quota.MemoryQuota.Valid;
      hide StageOf, Sent, After, Answer, Candidates, WindowsAfter, BookChecked, UpstreamErrors, Delivered, Rejection;
      hide Queried, Sampled, TokensCounted, Attempts, Tried, Accepted, Results, Quota.Charged;
      ForwardedEffects(Fixed(), w, req, env);
      response := Deliver(req, targets, env.replies);
    }

    // The answer of the gate a request is stuck at. Nothing is changed any more.
    method Refuse(req: Request, env: Env, stage: Stage, retryAfter: int, ghost w: World) returns (response: Response)
      requires req.body.Parsed? && Rejection(Fixed(), req).None?
      requires stage == StageOf(Fixed(), w, req, env) && stage != Forwarded
      requires stage == RateLimited ==> retryAfter == Wait(w, req, env)
      ensures response == Answer(Fixed(), w, req, env) && !response.Relayed?
      ensures After(Fixed(), w, req, env)
           == World(Queried(Fixed(), w, req, env), w.aliases, WindowsAfter(w, req, env, stage),
                    BookChecked(w, req, stage), w.deny)
      ensures Sent(Fixed(), w, req, env) == [] && UpstreamErrors(Sent(Fixed(), w, req, env)) == multiset{}
      ensures Sampled(metrics.durations, metrics.durations, response)
      ensures TokensCounted(metrics.tokens, metrics.tokens, req, response)
    {
      hide StageOf, Sent, After, Answer, UpstreamErrors, Rejection, Wait, WindowsAfter, BookChecked, Queried;
      RefusedEffects(Fixed(), w, req, env);
      response := match stage
        case NoRoute => Refused(503, "routing_failed")
        case Denied => Refused(403, "model_not_allowed")
        case RateLimited => Throttled(429, RetryAfterHeader(retryAfter))
        case _ => Refused(429, "quota_exceeded");
    }

    // A well-formed request: through the gates, then upstream; `w` is the state before.
    method ServeValid(req: Request, env: Env, ghost w: World) returns (response: Response)
      requires w == World(routing.circuitBreaker.Contents, routing.aliases,
                          limiter.Contents, quota.Contents, policy.denyModels)
      requires Valid() && req.body.Parsed? && Rejection(Fixed(), req).None?
      modifies adapter, metrics`upstreamErrors, metrics`durations, metrics`tokens
      modifies routing.circuitBreaker, routing.circuitBreaker.States
      modifies limiter, limiter.Entries, quota, quota.Cells
      ensures Valid()
      ensures fresh(routing.circuitBreaker.States - old(routing.circuitBreaker.States))
      ensures fresh(limiter.Entries - old(limiter.Entries))
      ensures fresh(quota.Cells - old(quota.Cells))
      ensures response == Answer(Fixed(), w, req, env)
      ensures routing.circuitBreaker.Contents == After(Fixed(), w, req, env).table
      ensures limiter.Contents == After(Fixed(), w, req, env).windows
      ensures quota.Contents == After(Fixed(), w, req, env).book
      ensures adapter.sent == old(adapter.sent) + Sent(Fixed(), w, req, env)
      ensures metrics.upstreamErrors == old(metrics.upstreamErrors) + UpstreamErrors(Sent(Fixed(), w, req, env))
      ensures Sampled(old(metrics.durations), metrics.durations, response)
      ensures TokensCounted(old(metrics.tokens), metrics.tokens, req, response)
    {
      hide Circuit.Fold, Circuit.CircuitBreaker.Valid, Limiter.MemoryLimiter.Valid, Quota.MemoryQuota.Valid;
      hide StageOf, Sent, After, Answer, Candidates, WindowsAfter, BookChecked, UpstreamErrors, Wait, Rejection;
      hide Queried, Sampled, TokensCounted;
      var stage, targets, retryAfter := Gates(req, env, w);
      if stage == Forwarded {
        response := ServeForwarded(req, env, targets, w);
      } else {
        response := Refuse(req, env, stage, retryAfter, w);
      }
    }

    method ChatCompletions(req: Request, env: Env) returns (response: Response)
      requires Valid()
      modifies adapter, metrics`upstreamErrors, metrics`durations, metrics`tokens
      modifies routing.circuitBreaker, routing.circuitBreaker.States
      modifies limiter, limiter.Entries, quota, quota.Cells
      ensures Valid()
      ensures fresh(routing.circuitBreaker.States - old(routing.circuitBreaker.States))
      ensures fresh(limiter.Entries - old(limiter.Entries))
      ensures fresh(quota.Cells - old(quota.Cells))
      ensures response == Answer(Fixed(), old(State()), req, env)
      ensures State() == After(Fixed(), old(State()), req, env)
      ensures adapter.sent == old(adapter.sent) + Sent(Fixed(), old(State()), req, env)
      ensures metrics.upstreamErrors
           == old(metrics.upstreamErrors) + UpstreamErrors(Sent(Fixed(), old(State()), req, env))
      ensures Sampled(old(metrics.durations), metrics.durations, response)
      ensures TokensCounted(old(metrics.tokens), metrics.tokens, req, response)
    {
      hide Circuit.Fold, Circuit.CircuitBreaker.Valid;
      hide Limiter.MemoryLimiter.Valid, Quota.MemoryQuota.Valid;
      hide StageOf, Sent, After, Answer, Candidates, WindowsAfter, BookChecked, UpstreamErrors, Delivered, Wait;
      hide Rejection, Readable, Sampled, TokensCounted, DataPlaneHandler.Valid;
      NothingElseChanges(Fixed(), State(), req, env);
      var rejection := Validate(req);
      if rejection.None? {
        response := ServeValid(req, env, State());
      } else {
        RejectedEffects(Fixed(), State(), req, env);
        response := rejection.value;
        NothingCounted(metrics.durations, metrics.tokens, req, response);
      }
    }

    // The listing: an authenticated caller sees the models policy permits, anybody else (where no
    // keys are required) all of them, in upstream order and as the upstream describes them, dated
    // now. `upstream` is None when it cannot be read; `kept` says which are listed.
    method ListModels(key: Option<KeyInfo>, upstream: Option<seq<Model>>, now: int)
      returns (status: int, listed: seq<ListedModel>, ghost kept: seq<nat>)
      ensures status == if requiresKey && key.None? then 401 else if upstream.None? then 502 else 200
      ensures status != 200 ==> listed == []
      ensures status == 200 ==>
                && |kept| == |listed|
                && (forall i, j :: 0 <= i < j < |kept| ==> kept[i] < kept[j])
                && (forall i :: 0 <= i < |kept| ==>
                      kept[i] < |upstream.value| && listed[i] == ListedModel(upstream.value[kept[i]], now))
                && forall m :: 0 <= m < |upstream.value| ==>
                     (m in kept
                      <==> key.None? || Policy.ModelPermitted(policy.denyModels, key.value, upstream.value[m].id))
    {
      listed, kept := [], [];
      if requiresKey && key.None? {
        return 401, [], [];
      }
      if upstream.None? {
        return 502, [], [];
      }
      var models := upstream.value;
      for n := 0 to |models|
        invariant |kept| == |listed|
        invariant forall i, j :: 0 <= i < j < |kept| ==> kept[i] < kept[j]
        invariant forall i :: 0 <= i < |kept| ==> kept[i] < n && listed[i] == ListedModel(models[kept[i]], now)
        invariant forall m :: 0 <= m < n ==>
                    (m in kept <==> key.None? || Policy.ModelPermitted(policy.denyModels, key.value, models[m].id))
      {
        if key.Some? {
          var decision := policy.EvaluateModel(key, models[n].id);
          if !decision.allowed {
            continue;
          }
        }
        listed, kept := listed + [ListedModel(models[n], now)], kept + [n];
      }
      return 200, listed, kept;
    }

    // The handler behind the telemetry middleware: a request leaves at most one duration sample,
    // one exactly when it was relayed or ended with a status of the failure class.
    method ServeChat(req: Request, env: Env) returns (response: Response)
      requires Valid()
      modifies adapter, metrics
      modifies routing.circuitBreaker, routing.circuitBreaker.States
      modifies limiter, limiter.Entries, quota, quota.Cells
      ensures Valid()
      ensures response == Answer(Fixed(), old(State()), req, env) && State() == After(Fixed(), old(State()), req, env)
      ensures response.Relayed? ==> response.status < 500 && response.status != 401 && response.status != 429
      ensures metrics.durations
           == old(metrics.durations)
              + if response.Relayed? then multiset{("/v1/chat/completions", response.model)}
                else if response.status == 401 || response.status == 429 || 500 <= response.status
                then multiset{("/v1/chat/completions", "")}
                else multiset{}
      ensures metrics.requests
           == old(metrics.requests) + multiset{(req.verb, "/v1/chat/completions", response.status)}
      ensures TokensCounted(old(metrics.tokens), metrics.tokens, req, response)
    {
      hide After, Answer, StageOf, Sent, Rejection;
      hide Circuit.CircuitBreaker.Valid, Limiter.MemoryLimiter.Valid, Quota.MemoryQuota.Valid;
      response := ChatCompletions(req, env);
      metrics.ObserveServed(req.verb, CHAT_PATH, response.status);
    }
  }

  // A token counter after `n` more on one series.
  function Counted(m: TokenCounts, series: (string, string, string), n: nat): TokenCounts {
    m[series := m[series] + n]
  }

  // The estimate of exactly the requests that are relayed is counted, for the model that took them.
  predicate TokensCounted(before: TokenCounts, after: TokenCounts, req: Request, response: Response) {
    after == if response.Relayed? then Counted(before, (KeyId(req), response.model, "input"), Estimate(req)) else before
  }

  // The handler samples the duration of exactly the requests it relays.
  predicate Sampled(before: multiset<(string, string)>, after: multiset<(string, string)>, response: Response) {
    after == before + if response.Relayed? then multiset{(CHAT_PATH, response.model)} else multiset{}
  }

  lemma NothingCounted(durations: multiset<(string, string)>, tokens: TokenCounts, req: Request, response: Response)
    requires !response.Relayed?
    ensures Sampled(durations, durations, response) && TokensCounted(tokens, tokens, req, response)
  {
  }

  // What a request does that is rejected before the gates ...
  lemma RejectedEffects(s: Setup, w: World, req: Request, env: Env)
    requires Rejection(s, req).Some?
    ensures Answer(s, w, req, env) == Rejection(s, req).value && Answer(s, w, req, env).Refused?
    ensures After(s, w, req, env) == w && Sent(s, w, req, env) == []
    ensures UpstreamErrors(Sent(s, w, req, env)) == multiset{}
  {
    NoOps(s.cfg, w.table);
  }

  // ... at a gate ...
  lemma RefusedEffects(s: Setup, w: World, req: Request, env: Env)
    requires req.body.Parsed? && Rejection(s, req).None? && StageOf(s, w, req, env) != Forwarded
    ensures var stage := StageOf(s, w, req, env);
            && Answer(s, w, req, env) == Refusal(stage, Wait(w, req, env))
            && After(s, w, req, env) == World(Queried(s, w, req, env), w.aliases, WindowsAfter(w, req, env, stage),
                                              BookChecked(w, req, stage), w.deny)
    ensures Sent(s, w, req, env) == [] && UpstreamErrors(Sent(s, w, req, env)) == multiset{}
  {
    hide Circuit.Fold, KeyStage, Routing.Queries, Routing.Candidates, Rejection;
    var queries := Routing.Queries(w.aliases, req.body.model, env.asks);
    assert Results([]) == [] && queries + [] == queries;
    EmptyErrors();
  }

  // ... and that passes them all.
  lemma ForwardedEffects(s: Setup, w: World, req: Request, env: Env)
    requires req.body.Parsed? && Rejection(s, req).None? && StageOf(s, w, req, env) == Forwarded
    ensures var targets := Candidates(s, w, req, env);
            var sent := Attempts(targets[..Tried(|targets|, env.replies, 0)], env.replies);
            var book := BookChecked(w, req, Forwarded);
            && targets != [] && sent != [] && Sent(s, w, req, env) == sent
            && Answer(s, w, req, env) == Delivered(sent)
            && After(s, w, req, env)
               == World(Circuit.Fold(s.cfg, Queried(s, w, req, env), Results(sent)), w.aliases,
                        WindowsAfter(w, req, env, Forwarded),
                        if req.key.Some? && Accepted(sent)
                        then Quota.Charged(book, KeyId(req), Estimate(req)) else book,
                        w.deny)
  {
    hide Circuit.Fold, KeyStage, Routing.Queries, Routing.Candidates, Rejection;
    var queries := Routing.Queries(w.aliases, req.body.model, env.asks);
    Circuit.FoldConcat(s.cfg, w.table, queries, Results(Sent(s, w, req, env)));
  }

  lemma EmptyErrors()
    ensures UpstreamErrors([]) == multiset{}
  {
  }

  lemma NothingElseChanges(s: Setup, w: World, req: Request, env: Env)
    ensures After(s, w, req, env).aliases == w.aliases && After(s, w, req, env).deny == w.deny
  {
  }

  lemma NoOps(cfg: Circuit.Config, t: Circuit.Table)
    ensures Circuit.Fold(cfg, t, []) == t
  {
  }

  lemma StageByCandidates(s: Setup, w: World, req: Request, env: Env)
    requires req.body.Parsed? && Rejection(s, req).None?
    ensures var candidates := Routing.Candidates(s.cfg, w.table, w.aliases, req.body.model, env.asks);
            && Candidates(s, w, req, env) == candidates
            && StageOf(s, w, req, env)
               == if candidates == [] then NoRoute
                  else if req.key.None? then Forwarded
                  else KeyStage(w.deny, w.windows, w.book, req.key.value, candidates[0], env.rateAt, Estimate(req))
  {
  }

  // The variables the loop leaves behind say how its last attempt ended.
  predicate Summary(attempts: seq<Attempt>, lastResp: Option<Outcome>, lastErr: Option<Outcome>,
                    lastStatusCode: int, successModel: string) {
    && attempts != []
    && var last := attempts[|attempts| - 1];
    if Accepted(attempts) then lastResp == Some(last.reply.outcome) && successModel == last.model
    else lastResp == None && lastErr == Some(last.reply.outcome) && lastStatusCode == StatusOf(last.reply.outcome)
  }

  lemma TriedAll(n: nat, replies: nat -> Reply)
    ensures Tried(n, replies, n) == n
  {
  }

  lemma EmptyAttempts(cfg: Circuit.Config, t: Circuit.Table, targets: seq<string>, replies: nat -> Reply)
    ensures Attempts(targets[..0], replies) == []
    ensures Circuit.Fold(cfg, t, Results(Attempts(targets[..0], replies))) == t
    ensures StatusErrors(Attempts(targets[..0], replies)) == multiset{}
  {
  }

  // One more attempt, in terms of those before it.
  lemma OneMoreAttempt(cfg: Circuit.Config, t: Circuit.Table, targets: seq<string>, replies: nat -> Reply, i: nat)
    requires i < |targets|
    ensures var before, a := Attempts(targets[..i], replies), Attempt(targets[i], replies(i));
            && Attempts(targets[..i + 1], replies) == before + [a]
            && Circuit.Fold(cfg, t, Results(before + [a]))
               == Circuit.Step(cfg, Circuit.Fold(cfg, t, Results(before)), Result(a))
            && StatusErrors(before + [a]) == StatusErrors(before) + StatusError(replies(i).outcome)
    ensures Tried(|targets|, replies, i)
         == if Accepts(replies(i).outcome) then i + 1 else Tried(|targets|, replies, i + 1)
  {
    var before, after := Attempts(targets[..i], replies), Attempts(targets[..i + 1], replies);
    assert after == before + [Attempt(targets[i], replies(i))];
    assert after[..i] == before;
    assert Results(after)[..i] == Results(before);
  }
}
