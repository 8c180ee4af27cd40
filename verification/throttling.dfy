// What a throttled client is told, over whole runs of the gateway: the Retry-After header of
// internal/api/dataplane.go on top of the limiter's wait.

module Throttling {
  import opened Common
  import opened DataPlane
  import opened Gateway
  import opened Budgets
  import Limiter
  import LimiterRetry

  // The header rounds up past the wait: never too short, and at most a second too long.
  lemma HeaderCoversWait(wait: int)
    requires 0 < wait <= MINUTE
    ensures wait < RetryAfterHeader(wait) * SECOND <= wait + SECOND
    ensures 1 <= RetryAfterHeader(wait) <= 61
  {
  }

  lemma {:induction false} OneAtATimeInitial(s: Setup, start: Trace, a: seq<Action>, b: seq<Action>)
    requires OneAtATime(s, start, a + b)
    ensures OneAtATime(s, start, a)
  {
    if b == [] {
      assert a + b == a;
    } else {
      assert a + b == a + b[..|b| - 1] + [b[|b| - 1]];
      OneMore(s, start, a + b[..|b| - 1], b[|b| - 1]);
      OneAtATimeInitial(s, start, a, b[..|b| - 1]);
    }
  }

  lemma RunIsProper(s: Setup, start: Trace, actions: seq<Action>, id: string)
    requires OneAtATime(s, start, actions) && start.calls == []
    ensures LimiterRetry.Proper(Run(s, start, actions).calls, Limiter.Rpm(id))
  {
    CallsAreProper(s, start, actions);
  }

  // The key's requests among run[lo..hi] come to the rate test before `until`, with a limit of at
  // most `top`.
  predicate Patient(run: seq<Action>, lo: nat, hi: nat, id: string, top: int, until: int)
    requires lo <= hi <= |run|
  {
    forall k :: lo <= k < hi && run[k].Chat? && IsFor(run[k].req, id)
      ==> run[k].env.rateAt < until && run[k].req.key.value.rpmLimit <= top
  }

  // The key's requests among run[..n] carry a limit of at most `top`.
  predicate NeverAbove(run: seq<Action>, n: nat, id: string, top: int)
    requires n <= |run|
  {
    forall k :: 0 <= k < n && run[k].Chat? && IsFor(run[k].req, id) ==> run[k].req.key.value.rpmLimit <= top
  }

  // What the limiter is asked during `later`, after `head`.
  lemma {:induction false} CallsMade(s: Setup, start: Trace, head: seq<Action>, later: seq<Action>,
                                     id: string, c: Limiter.Call, until: int)
    returns (made: seq<Limiter.Call>)
    requires c.meter == Limiter.Rpm(id) && Patient(later, 0, |later|, id, c.limit, until)
    ensures Run(s, start, head + later).calls == Run(s, start, head).calls + made
    ensures LimiterRetry.StillWaiting(made, c, until)
  {
    hide After, BreakerOps, Sent, StageOf;
    if later == [] {
      assert head + later == head;
      made := [];
    } else {
      var before, a := later[..|later| - 1], later[|later| - 1];
      made := CallsMade(s, start, head, before, id, c, until);
      assert head + later == head + before + [a];
      OneMore(s, start, head + before, a);
      if a.Chat? {
        made := made + RateCalls(s, Run(s, start, head + before).world, a.req, a.env);
      }
    }
  }

  // A request that reaches the rate test passes it exactly when the limiter says so.
  lemma RateTestDecides(s: Setup, t: Trace, req: Request, env: Env)
    requires Explained(s, t) && Metered(req) && PassedPolicy(StageOf(s, t.world, req, env))
    ensures RateCalls(s, t.world, req, env) == [KeyCall(req.key.value, env.rateAt)]
    ensures PassedRate(StageOf(s, t.world, req, env))
       <==> Limiter.Answer(Limiter.Run(t.calls), KeyCall(req.key.value, env.rateAt)).allowed
    ensures Wait(t.world, req, env)
         == Limiter.Answer(Limiter.Run(t.calls), KeyCall(req.key.value, env.rateAt)).retryAfter
  {
    hide Limiter.Answer, Limiter.Run, Candidates, Rejection;
  }

  lemma ThrottledWasMetered(s: Setup, w: World, req: Request, env: Env)
    requires StageOf(s, w, req, env) == RateLimited
    ensures Metered(req) && PassedPolicy(StageOf(s, w, req, env)) && !PassedRate(StageOf(s, w, req, env))
  {
  }

  // A 429 of the rate test, in any run: the wait is positive and at most a minute, and the header
  // names at least one second and never less than the wait.
  lemma ThrottledIsTold(s: Setup, start: Trace, actions: seq<Action>, req: Request, env: Env)
    requires start == Start(start.world.aliases, start.world.deny, start.now)
    requires OneAtATime(s, start, actions + [Chat(req, env)])
    requires StageOf(s, Run(s, start, actions).world, req, env) == RateLimited
    ensures var w := Run(s, start, actions).world;
            var wait := Wait(w, req, env);
            && Answer(s, w, req, env) == Throttled(429, RetryAfterHeader(wait))
            && 0 < wait <= MINUTE
            && wait < RetryAfterHeader(wait) * SECOND <= wait + SECOND
            && 1 <= RetryAfterHeader(wait) <= 61
  {
    hide Limiter.Answer, Limiter.Run, LimiterRetry.Proper, LimiterRetry.Live, After, BreakerOps, Sent;
    var t := Run(s, start, actions);
    OneMore(s, start, actions, Chat(req, env));
    StartIsExplained(s, start);
    RunsAreExplained(s, start, actions);
    RateTestDecides(s, t, req, env);
    RunIsProper(s, start, actions + [Chat(req, env)], KeyId(req));
    LimiterRetry.RejectionNamesOldestExpiry(t.calls, KeyCall(req.key.value, env.rateAt));
    HeaderCoversWait(Wait(t.world, req, env));
  }

  // ---------------------------------------------------------------------------------------
  // End to end
  // ---------------------------------------------------------------------------------------

  // When the slot of a throttled request will have room for another one under the same limit: once
  // so many of its entries have left that fewer than the limit remain.
  function FreeTime(w: World, req: Request, env: Env): int {
    if Metered(req) then
      var entries := Limiter.Purged(w.windows, KeyCall(req.key.value, env.rateAt));
      var limit := req.key.value.rpmLimit;
      if limit <= |entries| then entries[|entries| - limit] + MINUTE else env.rateAt
    else env.rateAt
  }

  // What became of an action: how far a request got, the wait the limiter would announce, and when
  // there would be room.
  datatype Passage = Passage(stage: Stage, wait: int, free: int)

  function PassageOf(s: Setup, w: World, a: Action): Passage {
    if a.Chat?
    then Passage(StageOf(s, w, a.req, a.env), Wait(w, a.req, a.env), FreeTime(w, a.req, a.env))
    else Passage(Invalid, 0, 0)
  }

  // What became of every action of a run.
  function Log(s: Setup, start: Trace, run: seq<Action>): (log: seq<Passage>)
    ensures |log| == |run|
  {
    if run == [] then []
    else
      var before, a := run[..|run| - 1], run[|run| - 1];
      Log(s, start, before) + [PassageOf(s, Run(s, start, before).world, a)]
  }

  lemma {:induction false} LogAt(s: Setup, start: Trace, run: seq<Action>, k: nat)
    requires k < |run|
    ensures Log(s, start, run)[k] == PassageOf(s, Run(s, start, run[..k]).world, run[k])
  {
    hide PassageOf, Run;
    var n := |run| - 1;
    if k < n {
      LogAt(s, start, run[..n], k);
      assert run[..n][..k] == run[..k];
    }
  }

  // What the limiter is asked between the i-th action of a run and the j-th.
  lemma CallsBetween(s: Setup, start: Trace, run: seq<Action>, i: nat, j: nat, id: string, c: Limiter.Call, until: int)
    returns (made: seq<Limiter.Call>)
    requires start.calls == [] && OneAtATime(s, start, run) && i < j < |run|
    requires c.meter == Limiter.Rpm(id) && Patient(run, i + 1, j, id, c.limit, until)
    ensures Run(s, start, run[..j]).calls == Run(s, start, run[..i + 1]).calls + made
    ensures LimiterRetry.StillWaiting(made, c, until)
    ensures LimiterRetry.Proper(Run(s, start, run[..i + 1]).calls, c.meter)
    ensures LimiterRetry.Proper(Run(s, start, run[..j + 1]).calls, c.meter)
  {
    hide LimiterRetry.Proper, LimiterRetry.StillWaiting, OneAtATime, Run;
    assert run[..i + 1] + run[i + 1..j] == run[..j];
    assert run[..i + 1] + run[i + 1..] == run && run[..j + 1] + run[j + 1..] == run;
    made := CallsMade(s, start, run[..i + 1], run[i + 1..j], id, c, until);
    OneAtATimeInitial(s, start, run[..i + 1], run[i + 1..]);
    OneAtATimeInitial(s, start, run[..j + 1], run[j + 1..]);
    RunIsProper(s, start, run[..i + 1], id);
    RunIsProper(s, start, run[..j + 1], id);
  }

  predicate ChatOf(a: Action, id: string, limit: int) {
    a.Chat? && IsFor(a.req, id) && a.req.key.value.rpmLimit == limit
  }

  // What a throttled request was refused by, in terms of the limiter's own history.
  lemma ThrottledFree(s: Setup, t: Trace, req: Request, env: Env)
    requires Explained(s, t) && StageOf(s, t.world, req, env) == RateLimited
    requires LimiterRetry.Proper(t.calls + [KeyCall(req.key.value, env.rateAt)], Limiter.Rpm(KeyId(req)))
    ensures var c := KeyCall(req.key.value, env.rateAt);
            && !Limiter.Answer(Limiter.Run(t.calls), c).allowed
            && 0 < c.limit <= |LimiterRetry.Live(t.calls, c)|
            && FreeTime(t.world, req, env) == LimiterRetry.FreeAt(t.calls, c)
            && env.rateAt + Wait(t.world, req, env) == LimiterRetry.AnnouncedAt(t.calls, c)
  {
    hide Limiter.Answer, Limiter.Run, LimiterRetry.Proper, LimiterRetry.Live, Limiter.Purged;
    var c := KeyCall(req.key.value, env.rateAt);
    ThrottledWasMetered(s, t.world, req, env);
    RateTestDecides(s, t, req, env);
    LimiterRetry.RejectionNamesOldestExpiry(t.calls, c);
    LimiterRetry.LiveIsTheSlot(t.calls, c);
  }

  // In any run: the i-th action, a request of a key, is throttled, and the j-th is that key coming
  // back under the same limit. If it reaches the rate test, it passes it if and only if the slot has
  // room by then. Whatever the key's limit was before; other requests of the key may come in
  // between, other keys' requests, alias changes and policy changes at any time.
  lemma RetryPassesWhenFree(s: Setup, start: Trace, run: seq<Action>, i: nat, j: nat, id: string, limit: int,
                            wait: int, free: int)
    requires start == Start(start.world.aliases, start.world.deny, start.now) && OneAtATime(s, start, run)
    requires i < j < |run| && ChatOf(run[i], id, limit) && ChatOf(run[j], id, limit)
    requires Log(s, start, run)[i] == Passage(RateLimited, wait, free)
    requires Patient(run, i + 1, j, id, limit, free)
    ensures run[i].env.rateAt + wait <= free
    ensures var stage := Log(s, start, run)[j].stage;
            PassedPolicy(stage) ==> (PassedRate(stage) <==> run[j].env.rateAt >= free)
  {
    hide Limiter.Answer, Limiter.Run, LimiterRetry.Proper, LimiterRetry.StillWaiting, LimiterRetry.Live;
    hide After, BreakerOps, Sent, StageOf, Wait, RateCalls, Explained, Run, Log, OneAtATime;
    hide FreeTime, LimiterRetry.FreeAt, LimiterRetry.AnnouncedAt;
    var t, first := Run(s, start, run[..i]), run[i];
    var t', retry := Run(s, start, run[..j]), run[j];
    LogAt(s, start, run, i);
    LogAt(s, start, run, j);
    ThrottledWasMetered(s, t.world, first.req, first.env);
    var c, d := KeyCall(first.req.key.value, first.env.rateAt), KeyCall(retry.req.key.value, retry.env.rateAt);
    StartIsExplained(s, start);
    RunsAreExplained(s, start, run[..i]);
    RunsAreExplained(s, start, run[..j]);
    RateTestDecides(s, t, first.req, first.env);
    assert run[..i + 1] == run[..i] + [first] && run[..j + 1] == run[..j] + [retry];
    OneMore(s, start, run[..i], first);
    OneMore(s, start, run[..j], retry);
    var made := CallsBetween(s, start, run, i, j, id, c, free);
    ThrottledFree(s, t, first.req, first.env);
    LimiterRetry.FreeNotBeforeAnnounced(t.calls, c);
    if PassedPolicy(Log(s, start, run)[j].stage) {
      RateTestDecides(s, t', retry.req, retry.env);
      LimiterRetry.RetryAdmittedFromFreeOn(t.calls, c, made, d);
    }
  }

  lemma FreeWhenAnnounced(s: Setup, start: Trace, run: seq<Action>, i: nat, id: string, limit: int,
                          wait: int, free: int)
    requires start == Start(start.world.aliases, start.world.deny, start.now) && OneAtATime(s, start, run)
    requires i < |run| && ChatOf(run[i], id, limit) && NeverAbove(run, i, id, limit)
    requires Log(s, start, run)[i] == Passage(RateLimited, wait, free)
    ensures free == run[i].env.rateAt + wait
  {
    hide Limiter.Answer, Limiter.Run, LimiterRetry.Proper, LimiterRetry.Live;
    hide After, BreakerOps, Sent, StageOf, Wait, RateCalls, Explained, Run, Log, OneAtATime, FreeTime;
    var t, first := Run(s, start, run[..i]), run[i];
    LogAt(s, start, run, i);
    ThrottledWasMetered(s, t.world, first.req, first.env);
    var c := KeyCall(first.req.key.value, first.env.rateAt);
    StartIsExplained(s, start);
    RunsAreExplained(s, start, run[..i]);
    RateTestDecides(s, t, first.req, first.env);
    assert run[..i + 1] == run[..i] + [first] && run[..i + 1] + run[i + 1..] == run;
    OneMore(s, start, run[..i], first);
    OneAtATimeInitial(s, start, run[..i + 1], run[i + 1..]);
    RunIsProper(s, start, run[..i + 1], id);
    ThrottledFree(s, t, first.req, first.env);
    CallsLimited(s, start, run[..i], id, c.limit);
    LimiterRetry.RejectionMeansExactlyFull(t.calls, c);
    LimiterRetry.RejectionNamesOldestExpiry(t.calls, c);
  }

  // If the key's limit had not been lowered, that is exactly when the announced wait is over.
  lemma WaitIsExact(s: Setup, start: Trace, run: seq<Action>, i: nat, j: nat, id: string, limit: int,
                    wait: int, free: int)
    requires start == Start(start.world.aliases, start.world.deny, start.now) && OneAtATime(s, start, run)
    requires i < j < |run| && ChatOf(run[i], id, limit) && ChatOf(run[j], id, limit)
    requires Log(s, start, run)[i] == Passage(RateLimited, wait, free)
    requires NeverAbove(run, i, id, limit) && Patient(run, i + 1, j, id, limit, run[i].env.rateAt + wait)
    ensures var stage := Log(s, start, run)[j].stage;
            PassedPolicy(stage) ==> (PassedRate(stage) <==> run[j].env.rateAt >= run[i].env.rateAt + wait)
  {
    hide Log, OneAtATime;
    FreeWhenAnnounced(s, start, run, i, id, limit, wait, free);
    RetryPassesWhenFree(s, start, run, i, j, id, limit, wait, free);
  }

  // A client whose limit had not been lowered and who waits as long as the header says is not
  // throttled again.
  lemma HeaderIsEnough(s: Setup, start: Trace, run: seq<Action>, i: nat, j: nat, id: string, limit: int,
                       wait: int, free: int)
    requires start == Start(start.world.aliases, start.world.deny, start.now) && OneAtATime(s, start, run)
    requires i < j < |run| && ChatOf(run[i], id, limit) && ChatOf(run[j], id, limit)
    requires Log(s, start, run)[i] == Passage(RateLimited, wait, free)
    requires NeverAbove(run, i, id, limit) && Patient(run, i + 1, j, id, limit, run[i].env.rateAt + wait)
    requires run[j].env.rateAt >= run[i].env.rateAt + RetryAfterHeader(wait) * SECOND
    ensures Log(s, start, run)[j].stage != RateLimited
  {
    hide After, BreakerOps, Sent, StageOf, Wait, RateCalls, Run, Log, OneAtATime;
    LogAt(s, start, run, i);
    assert run[..i + 1] == run[..i] + [run[i]] && run[..i + 1] + run[i + 1..] == run;
    OneAtATimeInitial(s, start, run[..i + 1], run[i + 1..]);
    ThrottledIsTold(s, start, run[..i], run[i].req, run[i].env);
    WaitIsExact(s, start, run, i, j, id, limit, wait, free);
  }
}
