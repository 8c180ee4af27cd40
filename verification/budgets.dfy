// What a key can get through the gateway over a run: requests per minute, and tokens.

module Budgets {
  import opened Common
  import opened Auth
  import opened DataPlane
  import opened Pipeline
  import opened Gateway
  import Circuit
  import Limiter
  import Quota

  predicate IsFor(req: Request, id: string) {
    req.key.Some? && req.key.value.id == id
  }

  // When the metered requests of a key passed routing, policy and the rate test.
  function PassedAt(s: Setup, start: Trace, actions: seq<Action>, id: string): seq<int> {
    if actions == [] then []
    else
      var before, a := actions[..|actions| - 1], actions[|actions| - 1];
      var w := Run(s, start, before).world;
      if a.Chat? && IsFor(a.req, id) && Metered(a.req) && PassedRate(StageOf(s, w, a.req, a.env))
      then PassedAt(s, start, before, id) + [a.env.rateAt]
      else PassedAt(s, start, before, id)
  }

  // A limiter slot is used exactly by the metered requests that pass routing, policy and the rate
  // test, at the time of that test.
  lemma {:induction false} SlotsAreUsedByPassing(s: Setup, start: Trace, actions: seq<Action>, id: string)
    requires Explained(s, start) && start.calls == []
    ensures Limiter.Admitted(Run(s, start, actions).calls, Limiter.Rpm(id)) == PassedAt(s, start, actions, id)
  {
    if actions != [] {
      var before, a := actions[..|actions| - 1], actions[|actions| - 1];
      SlotsAreUsedByPassing(s, start, before, id);
      RunsAreExplained(s, start, before);
      if a.Chat? {
        ChatUsesSlot(s, Run(s, start, before), a.req, a.env, id);
      }
    }
  }

  lemma ChatUsesSlot(s: Setup, t: Trace, req: Request, env: Env, id: string)
    requires Explained(s, t)
    ensures Limiter.Admitted(Next(s, t, Chat(req, env)).calls, Limiter.Rpm(id))
         == if IsFor(req, id) && Metered(req) && PassedRate(StageOf(s, t.world, req, env))
            then Limiter.Admitted(t.calls, Limiter.Rpm(id)) + [env.rateAt]
            else Limiter.Admitted(t.calls, Limiter.Rpm(id))
  {
    hide Limiter.Admitted, Limiter.Run, Limiter.Answer, Candidates, Rejection, Sent, BreakerOps, After;
    var calls := RateCalls(s, t.world, req, env);
    if calls == [] {
      assert t.calls + calls == t.calls;
    } else {
      Limiter.RunAppend(t.calls, calls[0], Limiter.Rpm(id));
      assert calls[0] == KeyCall(req.key.value, env.rateAt);
    }
  }

  lemma {:induction false} CallsAreProper(s: Setup, start: Trace, actions: seq<Action>)
    requires OneAtATime(s, start, actions) && start.calls == []
    ensures var t := Run(s, start, actions);
            && Limiter.Monotone(t.calls)
            && forall i :: 0 <= i < |t.calls| ==> t.calls[i].meter.Rpm? && t.calls[i].now <= t.now
  {
    if actions != [] {
      var before, a := actions[..|actions| - 1], actions[|actions| - 1];
      CallsAreProper(s, start, before);
      if a.Chat? {
        var env := a.env;
        assert env.begin <= env.asks(0) <= env.rateAt <= env.replies(0).start <= env.replies(0).finish <= env.end;
      }
    }
  }

  // Every metered request of the key comes with a limit of at most `top`.
  predicate LimitsWithin(actions: seq<Action>, id: string, top: int) {
    forall i :: 0 <= i < |actions| && actions[i].Chat? && IsFor(actions[i].req, id)
      ==> actions[i].req.key.value.rpmLimit <= top
  }

  lemma {:induction false} CallsLimited(s: Setup, start: Trace, actions: seq<Action>, id: string, top: int)
    requires start.calls == [] && LimitsWithin(actions, id, top)
    ensures Limiter.LimitedBy(Run(s, start, actions).calls, Limiter.Rpm(id), top)
  {
    if actions != [] {
      CallsLimited(s, start, actions[..|actions| - 1], id, top);
    }
  }

  // In any run, no window of a minute sees more than `top` of a key's metered requests pass.
  lemma RequestsPerMinute(s: Setup, start: Trace, actions: seq<Action>, id: string, top: nat, t: int)
    requires start == Start(start.world.aliases, start.world.deny, start.now)
    requires OneAtATime(s, start, actions) && LimitsWithin(actions, id, top)
    ensures Limiter.CountWithin(PassedAt(s, start, actions, id), t - MINUTE, t) <= top
  {
    hide Run, PassedAt, Limiter.Run, Limiter.Admitted, Limiter.CountWithin;
    StartIsExplained(s, start);
    SlotsAreUsedByPassing(s, start, actions, id);
    CallsAreProper(s, start, actions);
    CallsLimited(s, start, actions, id, top);
    Limiter.WindowBound(Run(s, start, actions).calls, Limiter.Rpm(id), top, t);
  }

  // ---------------------------------------------------------------------------------------
  // Requests per second
  // ---------------------------------------------------------------------------------------

  // When the key's requests got past the rate test, metered or not.
  function PassedRateAt(s: Setup, start: Trace, actions: seq<Action>, id: string): seq<int> {
    if actions == [] then []
    else
      var before, a := actions[..|actions| - 1], actions[|actions| - 1];
      var w := Run(s, start, before).world;
      if a.Chat? && IsFor(a.req, id) && PassedRate(StageOf(s, w, a.req, a.env))
      then PassedRateAt(s, start, before, id) + [a.env.rateAt]
      else PassedRateAt(s, start, before, id)
  }

  lemma PassedRateAppend(s: Setup, start: Trace, actions: seq<Action>, a: Action, id: string)
    ensures PassedRateAt(s, start, actions + [a], id)
         == if a.Chat? && IsFor(a.req, id) && PassedRate(StageOf(s, Run(s, start, actions).world, a.req, a.env))
            then PassedRateAt(s, start, actions, id) + [a.env.rateAt] else PassedRateAt(s, start, actions, id)
  {
    assert (actions + [a])[..|actions|] == actions;
  }

  predicate HasLimits(a: Action, id: string, rpm: int, rps: int) {
    a.Chat? && IsFor(a.req, id) ==> a.req.key.value.rpmLimit == rpm && a.req.key.value.rpsLimit == rps
  }

  // All requests of the key carry these limits.
  predicate KeepsLimits(actions: seq<Action>, id: string, rpm: int, rps: int) {
    forall i :: 0 <= i < |actions| ==> HasLimits(actions[i], id, rpm, rps)
  }

  // A run from a fresh gateway in which the key has these limits.
  ghost predicate LimitedRun(s: Setup, start: Trace, actions: seq<Action>, id: string, rpm: int, rps: int) {
    && start == Start(start.world.aliases, start.world.deny, start.now)
    && OneAtATime(s, start, actions) && KeepsLimits(actions, id, rpm, rps)
  }

  // No more than `rps` of the key's requests get past the rate test in the second up to `t`.
  predicate SecondHolds(s: Setup, start: Trace, actions: seq<Action>, id: string, rps: int, t: int) {
    Limiter.CountWithin(PassedRateAt(s, start, actions, id), t - SECOND, t) <= rps
  }

  // The promise of a limit per second, over all runs. A limit that is not positive promises nothing.
  ghost predicate PerSecondKept(s: Setup, id: string, rpm: int, rps: int) {
    rps > 0 ==>
      forall start: Trace, actions: seq<Action>, t: int ::
        LimitedRun(s, start, actions, id, rpm, rps) ==> SecondHolds(s, start, actions, id, rps, t)
  }

  lemma {:induction false} AllMetered(s: Setup, start: Trace, actions: seq<Action>, id: string, rpm: int, rps: int)
    requires KeepsLimits(actions, id, rpm, rps) && rpm > 0
    ensures PassedRateAt(s, start, actions, id) == PassedAt(s, start, actions, id)
    ensures LimitsWithin(actions, id, rpm)
  {
    if actions != [] {
      var before := actions[..|actions| - 1];
      assert forall i :: 0 <= i < |before| ==> before[i] == actions[i];
      assert HasLimits(actions[|actions| - 1], id, rpm, rps);
      AllMetered(s, start, before, id, rpm, rps);
    }
  }

  // A minute's limit no higher than the second's keeps the promise.
  lemma SecondWithinMinute(s: Setup, start: Trace, actions: seq<Action>, id: string, rpm: int, rps: int, t: int)
    requires LimitedRun(s, start, actions, id, rpm, rps) && 0 < rpm <= rps
    ensures SecondHolds(s, start, actions, id, rps, t)
  {
    hide Limiter.CountWithin, PassedAt, PassedRateAt;
    AllMetered(s, start, actions, id, rpm, rps);
    RequestsPerMinute(s, start, actions, id, rpm, t);
    Limiter.CountSplits(PassedAt(s, start, actions, id), t - MINUTE, t - SECOND, t);
  }

  // A key with these limits and no others, asking for a model that the upstream always accepts.
  function BurstKey(id: string, rpm: int, rps: int): KeyInfo {
    KeyInfo(id, "", "", "", true, None, [], [], [], [], rpm, rps, 0, 0, 0, 0.0, 0, 0)
  }

  function BurstRequest(id: string, rpm: int, rps: int): Request {
    Request("POST", Some(BurstKey(id, rpm, rps)), Parsed("x", 1, 0))
  }

  const ACCEPTING: Env := Env(0, _ => 0, 0, _ => Reply(0, 0, Responded(200)), 0)

  function Burst(id: string, rpm: int, rps: int, n: nat): seq<Action> {
    Repeated(Chat(BurstRequest(id, rpm, rps), ACCEPTING), n)
  }

  const IDLE: Trace := Start(map[], [], 0)

  // One more request of the burst passes all gates and is accepted.
  lemma BurstPasses(s: Setup, w: World, id: string, rpm: int, rps: int)
    requires w.table == map[] && w.aliases == map[] && w.deny == [] && Quota.Used(w.book, id) == Quota.Usage(0, 0)
    requires rpm > 0 ==> Limiter.Answer(w.windows, KeyCall(BurstKey(id, rpm, rps), 0)).allowed
    ensures var req := BurstRequest(id, rpm, rps);
            && StageOf(s, w, req, ACCEPTING) == Forwarded && Answer(s, w, req, ACCEPTING).Relayed?
            && After(s, w, req, ACCEPTING).table == map[]
            && Quota.Used(After(s, w, req, ACCEPTING).book, id) == Quota.Usage(0, 0)
  {
    hide Limiter.Answer, Limiter.Step, Quota.Touched, Quota.Charged;
    var req := BurstRequest(id, rpm, rps);
    BurstCandidates(s, w, req);
    hide Candidates, BreakerOps, Circuit.Fold;
    assert StageOf(s, w, req, ACCEPTING) == Forwarded;
    AttemptsFollowRouting(s, w, req, ACCEPTING);
    BurstOps(s, w, req);
    OnlyAcceptedIsCharged(s, w, req, ACCEPTING, id);
  }

  lemma BurstCandidates(s: Setup, w: World, req: Request)
    requires w.table == map[] && w.aliases == map[] && req.body == Parsed("x", 1, 0)
    ensures Candidates(s, w, req, ACCEPTING) == ["x"]
  {
  }

  lemma BurstOps(s: Setup, w: World, req: Request)
    requires w.table == map[] && w.aliases == map[] && req.body == Parsed("x", 1, 0)
    requires StageOf(s, w, req, ACCEPTING) == Forwarded
    ensures Circuit.Fold(s.cfg, map[], BreakerOps(s, w, req, ACCEPTING)) == map[]
  {
    hide StageOf;
    BurstCandidates(s, w, req);
    AttemptsFollowRouting(s, w, req, ACCEPTING);
    SuccessesLeaveNothing(s.cfg, BreakerOps(s, w, req, ACCEPTING));
  }

  // Without a failure the breaker knows no target.
  lemma {:induction false} SuccessesLeaveNothing(cfg: Circuit.Config, ops: seq<Circuit.Op>)
    requires forall i :: 0 <= i < |ops| ==> !ops[i].event.Failure?
    ensures Circuit.Fold(cfg, map[], ops) == map[]
  {
    if ops != [] {
      SuccessesLeaveNothing(cfg, ops[..|ops| - 1]);
    }
  }

  // As long as the minute's limit, if there is one, allows, n requests pass at one moment.
  lemma {:induction false} BurstAddsUp(s: Setup, id: string, rpm: int, rps: int, n: nat)
    requires rpm > 0 ==> n <= rpm
    ensures var t := Run(s, IDLE, Burst(id, rpm, rps, n));
            && OneAtATime(s, IDLE, Burst(id, rpm, rps, n)) && t.now == 0
            && t.world.table == map[] && t.world.aliases == map[] && t.world.deny == []
            && Quota.Used(t.world.book, id) == Quota.Usage(0, 0)
            && PassedRateAt(s, IDLE, Burst(id, rpm, rps, n), id) == Repeated(0, n)
    ensures n > 0 ==>
              var w := Run(s, IDLE, Burst(id, rpm, rps, n - 1)).world;
              Answer(s, w, BurstRequest(id, rpm, rps), ACCEPTING).Relayed?
  {
    hide StageOf, After, Answer, BreakerOps, RateCalls, Sent, Limiter.Answer, Limiter.Run, Limiter.Admitted;
    if n == 0 {
      assert Burst(id, rpm, rps, 0) == [];
    } else {
      var req := BurstRequest(id, rpm, rps);
      var before := Burst(id, rpm, rps, n - 1);
      var t := Run(s, IDLE, before);
      BurstAddsUp(s, id, rpm, rps, n - 1);
      hide Run, OneAtATime, PassedRateAt;
      assert Burst(id, rpm, rps, n) == before + [Chat(req, ACCEPTING)];
      if rpm > 0 {
        LimitLeavesRoom(s, IDLE, before, BurstKey(id, rpm, rps), 0);
      }
      BurstPasses(s, t.world, id, rpm, rps);
      NothingElseChanges(s, t.world, req, ACCEPTING);
      OneMore(s, IDLE, before, Chat(req, ACCEPTING));
      PassedRateAppend(s, IDLE, before, Chat(req, ACCEPTING), id);
      assert Repeated(0, n - 1) + [0] == Repeated(0, n);
    }
  }

  // A limiter that has admitted fewer than the limit so far admits one more.
  lemma FewAdmissionsAllow(calls: seq<Limiter.Call>, c: Limiter.Call)
    requires Limiter.Monotone(calls + [c]) && Limiter.Separate(calls, c.meter)
    requires |Limiter.Admitted(calls, c.meter)| < c.limit
    ensures Limiter.Answer(Limiter.Run(calls), c).allowed
  {
    hide Limiter.Answer, Limiter.Run, Limiter.Admitted, Limiter.After;
    Limiter.AllowRefinesFullHistory(calls, c);
    Limiter.AfterAtMost(Limiter.Admitted(calls, c.meter), c.now - c.meter.Window());
  }

  // So a key of whose requests fewer than its limit have passed so far is not stopped by the limiter.
  lemma LimitLeavesRoom(s: Setup, start: Trace, actions: seq<Action>, key: KeyInfo, at: int)
    requires LimitedRun(s, start, actions, key.id, key.rpmLimit, key.rpsLimit)
    requires |PassedRateAt(s, start, actions, key.id)| < key.rpmLimit && Run(s, start, actions).now <= at
    ensures Limiter.Answer(Run(s, start, actions).world.windows, KeyCall(key, at)).allowed
  {
    hide Run, PassedRateAt, PassedAt, OneAtATime, Limiter.Answer, Limiter.Run, Limiter.Admitted;
    StartIsExplained(s, start);
    RunsAreExplained(s, start, actions);
    AllMetered(s, start, actions, key.id, key.rpmLimit, key.rpsLimit);
    SlotsAreUsedByPassing(s, start, actions, key.id);
    CallsAreProper(s, start, actions);
    FewAdmissionsAllow(Run(s, start, actions).calls, KeyCall(key, at));
  }

  lemma {:induction false} CountRepeated(n: nat)
    ensures Limiter.CountWithin(Repeated(0, n), -SECOND, 0) == n
  {
    if n > 0 {
      CountRepeated(n - 1);
      assert Repeated(0, n)[..n - 1] == Repeated(0, n - 1);
    }
  }

  // One request more than the limit per second gets past the rate test, and is accepted, at a
  // single moment, unless a limit per minute stops it.
  lemma BurstExceedsSecond(s: Setup, id: string, rpm: int, rps: nat)
    requires rpm <= 0 || rps < rpm
    ensures LimitedRun(s, IDLE, Burst(id, rpm, rps, rps + 1), id, rpm, rps)
    ensures Limiter.CountWithin(PassedRateAt(s, IDLE, Burst(id, rpm, rps, rps + 1), id), -SECOND, 0) == rps + 1
    ensures var w := Run(s, IDLE, Burst(id, rpm, rps, rps)).world;
            Answer(s, w, BurstRequest(id, rpm, rps), ACCEPTING).Relayed?
  {
    hide StageOf, Answer, Run, PassedRateAt, OneAtATime;
    BurstAddsUp(s, id, rpm, rps, rps + 1);
    CountRepeated(rps + 1);
  }

  // The chat handler never asks for the limit per second. A positive one is kept, in all runs of the
  // key, if and only if the limit per minute enforces it: if that is set and no higher.
  lemma PerSecondOnlyByMinute(s: Setup, id: string, rpm: int, rps: int)
    ensures PerSecondKept(s, id, rpm, rps) <==> rps <= 0 || 0 < rpm <= rps
  {
    hide LimitedRun, SecondHolds;
    if 0 < rpm <= rps {
      forall start: Trace, actions: seq<Action>, t: int | LimitedRun(s, start, actions, id, rpm, rps)
        ensures SecondHolds(s, start, actions, id, rps, t)
      {
        SecondWithinMinute(s, start, actions, id, rpm, rps, t);
      }
    } else if rps > 0 {
      BurstExceedsSecond(s, id, rpm, rps);
      BurstTooMany(s, id, rpm, rps);
    }
  }

  lemma BurstTooMany(s: Setup, id: string, rpm: int, rps: nat)
    requires rpm <= 0 || rps < rpm
    ensures !SecondHolds(s, IDLE, Burst(id, rpm, rps, rps + 1), id, rps, 0)
  {
    hide Limiter.CountWithin, PassedRateAt, LimitedRun, Run, Answer;
    BurstExceedsSecond(s, id, rpm, rps);
  }

  // The tokens of the key's requests that the upstream accepted.
  function AcceptedTokens(s: Setup, start: Trace, actions: seq<Action>, id: string): nat {
    if actions == [] then 0
    else
      var before, a := actions[..|actions| - 1], actions[|actions| - 1];
      var w := Run(s, start, before).world;
      if a.Chat? && IsFor(a.req, id) && Answer(s, w, a.req, a.env).Relayed?
      then AcceptedTokens(s, start, before, id) + Estimate(a.req)
      else AcceptedTokens(s, start, before, id)
  }

  // Conservation: a key's daily and monthly usage are equal, and are the estimates of exactly its
  // accepted requests.
  lemma {:induction false} UsageIsConserved(s: Setup, start: Trace, actions: seq<Action>, id: string)
    requires start.world.book == map[]
    ensures var n := AcceptedTokens(s, start, actions, id);
            Quota.Used(Run(s, start, actions).world.book, id) == Quota.Usage(n, n)
  {
    if actions != [] {
      var before, a := actions[..|actions| - 1], actions[|actions| - 1];
      UsageIsConserved(s, start, before, id);
      if a.Chat? {
        OnlyAcceptedIsCharged(s, Run(s, start, before).world, a.req, a.env, id);
      }
    }
  }

  // Every request of the key has the limit set on its daily or on its monthly quota.
  predicate QuotasWithin(actions: seq<Action>, id: string, limit: int) {
    forall i :: 0 <= i < |actions| && actions[i].Chat? && IsFor(actions[i].req, id) ==>
      var key := actions[i].req.key.value;
      0 < key.dailyQuota <= limit || 0 < key.monthlyQuota <= limit
  }

  // Requests one at a time never take a key past its quota.
  lemma {:induction false} QuotaNeverExceeded(s: Setup, start: Trace, actions: seq<Action>, id: string, limit: nat)
    requires start.world.book == map[] && QuotasWithin(actions, id, limit)
    ensures AcceptedTokens(s, start, actions, id) <= limit
  {
    hide Run, Answer, Sent, StageOf;
    if actions != [] {
      var before, a := actions[..|actions| - 1], actions[|actions| - 1];
      assert forall i :: 0 <= i < |before| ==> before[i] == actions[i];
      QuotaNeverExceeded(s, start, before, id, limit);
      UsageIsConserved(s, start, before, id);
      var w := Run(s, start, before).world;
      if a.Chat? && IsFor(a.req, id) && Answer(s, w, a.req, a.env).Relayed? {
        RelayedFits(s, w, a.req, a.env);
      }
    }
  }

  lemma RelayedFits(s: Setup, w: World, req: Request, env: Env)
    requires req.key.Some? && Answer(s, w, req, env).Relayed?
    ensures Quota.Fits(w.book, KeyId(req), req.key.value.dailyQuota, req.key.value.monthlyQuota, Estimate(req))
  {
    if Rejection(s, req).Some? {
      RejectedEffects(s, w, req, env);
    }
  }
}
