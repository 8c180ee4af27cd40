// The quarantine bound: how often the gateway can still bother an upstream model that never
// succeeds, over any run of requests.

module Quarantine {
  import opened Common
  import opened DataPlane
  import opened Pipeline
  import opened Gateway
  import Circuit
  import Limiter
  import Policy
  import Routing
  import Spacing
  import Text

  predicate NeverAccepted(attempts: seq<Attempt>, x: string) {
    forall i :: 0 <= i < |attempts| && attempts[i].model == x ==> !Accepts(attempts[i].reply.outcome)
  }

  // No alias lists `x` more than `m` times.
  predicate ListsAtMost(aliases: Routing.Aliases, x: string, m: nat) {
    forall a :: a in aliases ==> multiset(aliases[a])[x] <= m
  }

  predicate KeepsListing(start: Trace, actions: seq<Action>, x: string, m: nat) {
    && ListsAtMost(start.world.aliases, x, m)
    && forall i :: 0 <= i < |actions| && actions[i].SetAlias? ==> multiset(actions[i].targets)[x] <= m
  }

  lemma {:induction false} ListingIsKept(s: Setup, start: Trace, actions: seq<Action>, x: string, m: nat)
    requires KeepsListing(start, actions, x, m)
    ensures ListsAtMost(Run(s, start, actions).world.aliases, x, m)
  {
    if actions != [] {
      var before, a := actions[..|actions| - 1], actions[|actions| - 1];
      ListingIsKept(s, start, before, x, m);
      if a.Chat? {
        NothingElseChanges(s, Run(s, start, before).world, a.req, a.env);
      }
    }
  }

  lemma {:induction false} OnConcat(a: seq<Attempt>, b: seq<Attempt>, x: string)
    ensures On(a + b, x) == On(a, x) + On(b, x)
  {
    if b == [] {
      assert a + b == a;
    } else {
      assert (a + b)[..|a + b| - 1] == a + b[..|b| - 1];
      OnConcat(a, b[..|b| - 1], x);
    }
  }

  lemma {:induction false} QueriesLeaveNoTrace(ops: seq<Circuit.Op>, targets: seq<string>, asks: Routing.Asks,
                                               x: string)
    ensures Circuit.Trailing(ops + Routing.AskAll(targets, asks), x) == Circuit.Trailing(ops, x)
    ensures Circuit.LastFailure(ops + Routing.AskAll(targets, asks), x) == Circuit.LastFailure(ops, x)
  {
    var all := ops + Routing.AskAll(targets, asks);
    if targets == [] {
      assert all == ops;
    } else {
      var n := |targets| - 1;
      assert all[..|all| - 1] == ops + Routing.AskAll(targets[..n], asks);
      QueriesLeaveNoTrace(ops, targets[..n], asks, x);
    }
  }

  function LastFinish(attempts: seq<Attempt>): Option<int> {
    if attempts == [] then None else Some(attempts[|attempts| - 1].reply.finish)
  }

  lemma {:induction false} FailuresLeaveTheirTrace(ops: seq<Circuit.Op>, attempts: seq<Attempt>, x: string)
    requires NeverAccepted(attempts, x)
    ensures Circuit.Trailing(ops + Results(attempts), x) == Circuit.Trailing(ops, x) + |On(attempts, x)|
    ensures Circuit.LastFailure(ops + Results(attempts), x)
         == if On(attempts, x) == [] then Circuit.LastFailure(ops, x) else LastFinish(On(attempts, x))
  {
    if attempts == [] {
      assert ops + Results(attempts) == ops;
    } else {
      hide Circuit.Trailing, Circuit.LastFailure, Accepts;
      var before, a := attempts[..|attempts| - 1], attempts[|attempts| - 1];
      FailuresLeaveTheirTrace(ops, before, x);
      assert ops + Results(attempts) == ops + Results(before) + [Result(a)];
      OneMoreResult(ops + Results(before), a, x);
    }
  }

  lemma OneMoreResult(ops: seq<Circuit.Op>, a: Attempt, x: string)
    requires a.model == x ==> !Accepts(a.reply.outcome)
    ensures Circuit.Trailing(ops + [Result(a)], x) == Circuit.Trailing(ops, x) + if a.model == x then 1 else 0
    ensures Circuit.LastFailure(ops + [Result(a)], x)
         == if a.model == x then Some(a.reply.finish) else Circuit.LastFailure(ops, x)
  {
    assert (ops + [Result(a)])[..|ops|] == ops;
  }

  // A model a request is sent to was let through by one of the request's own queries.
  lemma AttemptWasAdmitted(s: Setup, w: World, req: Request, env: Env, x: string) returns (i: nat)
    requires AsksOrdered(env.asks) && On(Sent(s, w, req, env), x) != []
    ensures Circuit.Admits(s.cfg, w.table, x, env.asks(i))
  {
    hide Circuit.Admits, Routing.Filtered, Routing.Usable;
    CandidateWasSent(s, w, req, env, x);
    CandidatesAreHealthy(s, w, req, env);
    var targets, let := QueriedTargets(w, req), LetThrough(s, w, req, env.asks);
    Routing.UsableSkipsOnlyEmpty(let);
    assert x in let;
    Routing.FilteredElements(s.cfg, w.table, targets, env.asks, x);
    i :| 0 <= i < |targets| && targets[i] == x && Circuit.Admits(s.cfg, w.table, x, env.asks(i));
  }

  lemma CandidateWasSent(s: Setup, w: World, req: Request, env: Env, x: string)
    requires On(Sent(s, w, req, env), x) != []
    ensures Rejection(s, req).None? && x in Candidates(s, w, req, env)
  {
    hide Candidates, On;
    var sent := Sent(s, w, req, env);
    OnElements(sent, x);
    SentNonEmpty(s, w, req, env);
    AttemptsFollowRouting(s, w, req, env);
    var k :| 0 <= k < |sent| && sent[k].model == x;
    assert Candidates(s, w, req, env)[k] == x;
  }

  // Attempts made in turn, up to `m` of them by one request. From the threshold on, each starts a
  // full cooldown after the one m before it has finished.
  predicate Spaced(attempts: seq<Attempt>, cfg: Circuit.Config, m: nat) {
    && InOrder(attempts)
    && forall i :: m <= i < |attempts| && i - m + 1 >= cfg.threshold
         ==> attempts[i - m].reply.finish + cfg.cooldown <= attempts[i].reply.start
  }

  predicate InOrder(attempts: seq<Attempt>) {
    && (forall i :: 0 <= i < |attempts| ==> attempts[i].reply.start <= attempts[i].reply.finish)
    && (forall i, j :: 0 <= i < j < |attempts| ==> attempts[i].reply.finish <= attempts[j].reply.start)
  }

  // What a run in which `x` never succeeds knows about it.
  ghost predicate Watched(s: Setup, t: Trace, x: string, m: nat) {
    var attempts := On(t.sent, x);
    && Circuit.Trailing(t.ops, x) == |attempts|
    && Circuit.LastFailure(t.ops, x) == LastFinish(attempts)
    && Spaced(attempts, s.cfg, m)
    && (attempts != [] ==> LastFinish(attempts).value <= t.now)
  }

  // The attempts of one more request, after the threshold only once the circuit has cooled down.
  lemma SpacedAppend(attempts: seq<Attempt>, made: seq<Attempt>, cfg: Circuit.Config, m: nat)
    requires cfg.Valid() && Spaced(attempts, cfg, m) && |made| <= m && InOrder(made)
    requires attempts != [] && made != [] ==>
               LastFinish(attempts).value + (if |attempts| >= cfg.threshold then cfg.cooldown else 0)
               <= made[0].reply.start
    ensures Spaced(attempts + made, cfg, m)
  {
    var all, n := attempts + made, |attempts|;
    forall i | 0 <= i < n
      ensures attempts[i].reply.finish <= LastFinish(attempts).value
    {
      assert attempts[i].reply.finish <= attempts[n - 1].reply.finish;
    }
    forall i | 0 <= i < |made|
      ensures made[0].reply.start <= made[i].reply.start
    {
    }
    assert forall i :: n <= i < |all| ==> all[i] == made[i - n];
  }

  lemma {:induction false} OnInOrder(attempts: seq<Attempt>, x: string)
    requires InOrder(attempts)
    ensures InOrder(On(attempts, x))
  {
    if attempts != [] {
      var before, a := attempts[..|attempts| - 1], attempts[|attempts| - 1];
      assert InOrder(before);
      OnInOrder(before, x);
      OnElements(before, x);
      OneMoreInOrder(attempts, On(before, x));
    }
  }

  lemma OneMoreInOrder(attempts: seq<Attempt>, some: seq<Attempt>)
    requires InOrder(attempts) && attempts != [] && InOrder(some)
    requires forall i :: 0 <= i < |some| ==> some[i] in attempts[..|attempts| - 1]
    ensures InOrder(some + [attempts[|attempts| - 1]])
  {
    var n := |attempts| - 1;
    forall i | 0 <= i < |some|
      ensures some[i].reply.finish <= attempts[n].reply.start
    {
      var j :| 0 <= j < n && attempts[..n][j] == some[i];
      assert attempts[j] == some[i];
    }
  }

  lemma ChatIsWatched(s: Setup, t: Trace, req: Request, env: Env, x: string, m: nat)
    requires s.cfg.Valid() && Explained(s, t) && Circuit.Timely(t.ops, t.now)
    requires WellTimed(env) && t.now <= env.begin && m >= 1 && ListsAtMost(t.world.aliases, x, m)
    requires Watched(s, t, x, m) && NeverAccepted(Sent(s, t.world, req, env), x)
    ensures Watched(s, Next(s, t, Chat(req, env)), x, m)
  {
    hide StageOf, Candidates, Tried, Sent, Circuit.Timely, Circuit.Fold, On, Circuit.Trailing, Circuit.LastFailure;
    var w, sent := t.world, Sent(s, t.world, req, env);
    var made := On(sent, x);
    OnConcat(t.sent, sent, x);
    ChatHistory(s, t, req, env, x);
    OnElements(sent, x);
    SentInTurn(s, w, req, env);
    OnInOrder(sent, x);
    assert env.begin <= env.asks(0) <= env.rateAt <= env.replies(0).start <= env.replies(0).finish <= env.end;
    if made != [] {
      FewAttempts(s, w, req, env, x, m);
      var i := AttemptWasAdmitted(s, w, req, env, x);
      TimelyLater(t.ops, t.now, env.asks(i));
      Circuit.AllowByHistory(s.cfg, t.ops, x, env.asks(i));
      assert env.asks(i) <= env.rateAt <= made[0].reply.start;
    }
    SpacedAppend(On(t.sent, x), made, s.cfg, m);
  }

  lemma FewAttempts(s: Setup, w: World, req: Request, env: Env, x: string, m: nat)
    requires m >= 1 && ListsAtMost(w.aliases, x, m)
    ensures |On(Sent(s, w, req, env), x)| <= m
  {
    if Rejection(s, req).Some? {
      RejectedEffects(s, w, req, env);
    } else {
      SentAtMostListed(s, w, req, env, x);
      var key := Text.ToLower(req.body.model);
      assert QueriedTargets(w, req) == if key in w.aliases then w.aliases[key] else [req.body.model];
    }
  }

  // The breaker's history of `x` after a request it failed in, or was left out of.
  lemma ChatHistory(s: Setup, t: Trace, req: Request, env: Env, x: string)
    requires NeverAccepted(Sent(s, t.world, req, env), x)
    ensures var ops', made := t.ops + BreakerOps(s, t.world, req, env), On(Sent(s, t.world, req, env), x);
            && Circuit.Trailing(ops', x) == Circuit.Trailing(t.ops, x) + |made|
            && Circuit.LastFailure(ops', x) == if made == [] then Circuit.LastFailure(t.ops, x) else LastFinish(made)
  {
    hide StageOf, Candidates, Tried, On, Circuit.Trailing, Circuit.LastFailure;
    var sent := Sent(s, t.world, req, env);
    if Rejection(s, req).Some? {
      RejectedEffects(s, t.world, req, env);
      OnElements(sent, x);
      assert t.ops + [] == t.ops;
    } else {
      var asked := t.ops + Routing.AskAll(QueriedTargets(t.world, req), env.asks);
      QueriesLeaveNoTrace(t.ops, QueriedTargets(t.world, req), env.asks, x);
      FailuresLeaveTheirTrace(asked, sent, x);
      assert t.ops + BreakerOps(s, t.world, req, env) == asked + Results(sent);
    }
  }

  lemma StartIsWatched(s: Setup, start: Trace, x: string, m: nat)
    requires start == Start(start.world.aliases, start.world.deny, start.now)
    ensures Watched(s, start, x, m)
  {
  }

  lemma {:induction false} RunsAreWatched(s: Setup, start: Trace, actions: seq<Action>, x: string, m: nat)
    requires s.cfg.Valid() && start == Start(start.world.aliases, start.world.deny, start.now)
    requires OneAtATime(s, start, actions) && m >= 1 && KeepsListing(start, actions, x, m)
    requires NeverAccepted(Run(s, start, actions).sent, x)
    ensures Watched(s, Run(s, start, actions), x, m)
  {
    hide Sent, After, BreakerOps, RateCalls, On, Circuit.Timely, Circuit.Trailing, Circuit.LastFailure, Spaced;
    if actions == [] {
      StartIsWatched(s, start, x, m);
    } else {
      var before, a := actions[..|actions| - 1], actions[|actions| - 1];
      var t := Run(s, start, before);
      assert NeverAccepted(t.sent, x) by {
        assert forall i :: 0 <= i < |t.sent| ==> t.sent[i] == Run(s, start, actions).sent[i];
      }
      RunsAreWatched(s, start, before, x, m);
      if a.Chat? {
        StartIsExplained(s, start);
        RunsAreExplained(s, start, before);
        RunsAreTimely(s, start, before);
        ListingIsKept(s, start, before, x, m);
        assert NeverAccepted(Sent(s, t.world, a.req, a.env), x) by {
          var sent := Sent(s, t.world, a.req, a.env);
          assert forall i :: 0 <= i < |sent| ==> sent[i] == Run(s, start, actions).sent[|t.sent| + i];
        }
        ChatIsWatched(s, t, a.req, a.env, x, m);
      }
    }
  }

  function Starts(attempts: seq<Attempt>): seq<int> {
    seq(|attempts|, i requires 0 <= i < |attempts| => attempts[i].reply.start)
  }

  lemma StartsAreSpaced(attempts: seq<Attempt>, cfg: Circuit.Config, m: nat)
    requires Spaced(attempts, cfg, m) && m >= 1
    ensures Spacing.Spaced(Starts(attempts), cfg.threshold, cfg.cooldown, m)
  {
  }

  // In any run in which a target never succeeds and requests come one at a time, if no alias lists
  // it more than m times, at most threshold - 1 + m * (1 + span / cooldown) attempts on it start
  // within any span.
  lemma QuarantineBound(s: Setup, start: Trace, actions: seq<Action>, x: string, m: nat, from: int, span: nat)
    requires s.cfg.Valid() && start == Start(start.world.aliases, start.world.deny, start.now)
    requires OneAtATime(s, start, actions) && m >= 1 && KeepsListing(start, actions, x, m)
    requires NeverAccepted(Run(s, start, actions).sent, x)
    ensures Spacing.CountIn(Starts(On(Run(s, start, actions).sent, x)), from, from + span)
         <= s.cfg.threshold - 1 + m * (1 + span / s.cfg.cooldown)
  {
    var attempts := On(Run(s, start, actions).sent, x);
    RunsAreWatched(s, start, actions, x, m);
    StartsAreSpaced(attempts, s.cfg, m);
    Spacing.SpacedBound(Starts(attempts), s.cfg.threshold, s.cfg.cooldown, m, from, span);
  }

  // ---------------------------------------------------------------------------------------
  // The bound is attained
  // ---------------------------------------------------------------------------------------

  // The same key asking for the model "x" itself.
  const ASKING_X: Request := Request("POST", Some(DENIED_Y), Parsed("x", 1, 0))

  // A gateway with an alias that lists "x" m times.
  function Beginning(m: nat): Trace {
    Start(map["a" := Repeated("x", m)], [], 0)
  }

  // A circuit that admits "x" lets a request through to every time it is listed.
  lemma AllListedTried(s: Setup, t: Trace, req: Request, at: int, q: nat)
    requires Explained(s, t) && Circuit.Admits(s.cfg, t.world.table, "x", at) && t.world.deny == []
    requires req == ASKING || req == ASKING_X
    requires q >= 1 && QueriedTargets(t.world, req) == Repeated("x", q)
    ensures Sent(s, t.world, req, Unanswered(at)) == Repeated(Failed("x", at), q)
  {
    hide Policy.ModelPermitted, Limiter.Answer, Tried, Circuit.Admits, Explained, Candidates, Sent;
    var w, env := t.world, Unanswered(at);
    AllListedAreCandidates(s, w, req, at, q);
    DeniesExactlyY();
    var sent := AllAttempts(s, w, req, env, at);
    assert env.(replies := Silence(at)) == env;
    assert forall i :: 0 <= i < |sent| ==> sent[i] == Failed("x", at);
  }

  lemma AllListedAreCandidates(s: Setup, w: World, req: Request, at: int, q: nat)
    requires req == ASKING || req == ASKING_X
    requires Circuit.Admits(s.cfg, w.table, "x", at) && q >= 1 && QueriedTargets(w, req) == Repeated("x", q)
    ensures Rejection(s, req).None? && Candidates(s, w, req, Unanswered(at)) == Repeated("x", q)
  {
    hide Circuit.Admits;
    CandidatesAreHealthy(s, w, req, Unanswered(at));
    Routing.AdmittedAllPass(s.cfg, w.table, Repeated("x", q), Unanswered(at).asks);
    Routing.UsableSkipsOnlyEmpty(Repeated("x", q));
  }

  lemma OneRepeated<T>(x: T)
    ensures Repeated(x, 1) == [x]
  {
  }

  lemma {:induction false} OnRepeated(a: Attempt, x: string, q: nat)
    requires a.model == x
    ensures On(Repeated(a, q), x) == Repeated(a, q)
  {
    if q > 0 {
      var before := Repeated(a, q - 1);
      OnRepeated(a, x, q - 1);
      assert Repeated(a, q)[..q - 1] == before;
      assert before + [a] == Repeated(a, q);
    }
  }

  // A run of failing requests for "x" alone: `made` attempts in all, between 0 and `at`, the last of
  // which failed at `at`.
  ghost predicate Knocked(s: Setup, m: nat, actions: seq<Action>, made: nat, at: int) {
    var t := Run(s, Beginning(m), actions);
    && OneAtATime(s, Beginning(m), actions) && KeepsListing(Beginning(m), actions, "x", m)
    && t.world.deny == [] && t.world.aliases == Beginning(m).world.aliases
    && NeverAccepted(t.sent, "x") && t.now <= at && 0 <= at
    && |On(t.sent, "x")| == made && Circuit.Trailing(t.ops, "x") == made
    && (forall i :: 0 <= i < made ==> 0 <= On(t.sent, "x")[i].reply.start <= at)
    && (made > 0 ==> Circuit.LastFailure(t.ops, "x") == Some(at))
  }

  // One more request, all of whose q attempts fail.
  lemma KnocksAgain(s: Setup, m: nat, before: seq<Action>, made: nat, last: int, req: Request, at: int, q: nat)
    returns (actions: seq<Action>)
    requires s.cfg.Valid() && m >= 1 && q >= 1 && Knocked(s, m, before, made, last) && last <= at
    requires made < s.cfg.threshold || at - last >= s.cfg.cooldown
    requires (req == ASKING && q == m) || (req == ASKING_X && q == 1)
    ensures Knocked(s, m, actions, made + q, at)
  {
    hide Sent, Next, Run, OneAtATime, WellTimed, NeverAccepted, Circuit.Trailing, Circuit.LastFailure, On;
    actions := before + [Chat(req, Unanswered(at))];
    OneMore(s, Beginning(m), before, Chat(req, Unanswered(at)));
    var t := Run(s, Beginning(m), before);
    KnockSends(s, m, before, made, last, req, at, q);
    KnockRecorded(s, t, req, at, q);
    UnansweredWellTimed(at);
  }

  lemma UnansweredWellTimed(at: int)
    ensures WellTimed(Unanswered(at)) && Unanswered(at).begin == at
  {
  }

  // What such a request leaves behind.
  lemma KnockRecorded(s: Setup, t: Trace, req: Request, at: int, q: nat)
    requires q >= 1 && Sent(s, t.world, req, Unanswered(at)) == Repeated(Failed("x", at), q)
    requires NeverAccepted(t.sent, "x")
    ensures var t' := Next(s, t, Chat(req, Unanswered(at)));
            && On(t'.sent, "x") == On(t.sent, "x") + Repeated(Failed("x", at), q) && NeverAccepted(t'.sent, "x")
            && Circuit.Trailing(t'.ops, "x") == Circuit.Trailing(t.ops, "x") + q
            && Circuit.LastFailure(t'.ops, "x") == Some(at) && t'.now == at
            && t'.world.deny == t.world.deny && t'.world.aliases == t.world.aliases
  {
    hide Sent, BreakerOps, After, RateCalls, Circuit.Trailing, Circuit.LastFailure, On;
    var sent := Repeated(Failed("x", at), q);
    OnRepeated(Failed("x", at), "x", q);
    OnConcat(t.sent, sent, "x");
    ChatHistory(s, t, req, Unanswered(at), "x");
    NothingElseChanges(s, t.world, req, Unanswered(at));
  }

  lemma KnockSends(s: Setup, m: nat, before: seq<Action>, made: nat, last: int, req: Request, at: int, q: nat)
    requires s.cfg.Valid() && m >= 1 && q >= 1 && Knocked(s, m, before, made, last) && last <= at
    requires made < s.cfg.threshold || at - last >= s.cfg.cooldown
    requires (req == ASKING && q == m) || (req == ASKING_X && q == 1)
    ensures var sent := Sent(s, Run(s, Beginning(m), before).world, req, Unanswered(at));
            sent == Repeated(Failed("x", at), q)
  {
    hide Sent, Circuit.Trailing, Circuit.LastFailure, On, QueriedTargets, Explained, Circuit.Admits, Run;
    var t := Run(s, Beginning(m), before);
    KnockAdmitted(s, m, before, made, last, at);
    StartIsExplained(s, Beginning(m));
    RunsAreExplained(s, Beginning(m), before);
    ListedForKnock(t.world, m, req, q);
    AllListedTried(s, t, req, at, q);
  }

  lemma KnockAdmitted(s: Setup, m: nat, before: seq<Action>, made: nat, last: int, at: int)
    requires s.cfg.Valid() && Knocked(s, m, before, made, last) && last <= at
    requires made < s.cfg.threshold || at - last >= s.cfg.cooldown
    ensures Circuit.Admits(s.cfg, Run(s, Beginning(m), before).world.table, "x", at)
  {
    hide Circuit.Admits, Circuit.Trailing, Circuit.LastFailure, Circuit.Timely, On, Run;
    var t := Run(s, Beginning(m), before);
    StartIsExplained(s, Beginning(m));
    RunsAreExplained(s, Beginning(m), before);
    RunsAreTimely(s, Beginning(m), before);
    TimelyLater(t.ops, t.now, at);
    Circuit.AllowByHistory(s.cfg, t.ops, "x", at);
  }

  lemma ListedForKnock(w: World, m: nat, req: Request, q: nat)
    requires w.aliases == Beginning(m).world.aliases
    requires (req == ASKING && q == m) || (req == ASKING_X && q == 1)
    ensures QueriedTargets(w, req) == Repeated("x", q)
  {
    assert Text.ToLower("x")[0] == 'x' && Text.ToLower("a") == "a";
    OneRepeated("x");
  }

  // Requests for "x" itself, until the circuit is about to open.
  lemma {:induction false} KnocksAddUp(s: Setup, m: nat, n: nat) returns (actions: seq<Action>)
    requires s.cfg.Valid() && m >= 1 && n < s.cfg.threshold
    ensures Knocked(s, m, actions, n, 0)
  {
    if n == 0 {
      actions := [];
      RepeatedCount(m);
    } else {
      hide Knocked;
      var before := KnocksAddUp(s, m, n - 1);
      actions := KnocksAgain(s, m, before, n - 1, 0, ASKING_X, 0, 1);
    }
  }

  // Then the alias, and again after every cooldown.
  lemma {:induction false} KnocksEveryCooldown(s: Setup, m: nat, j: nat) returns (actions: seq<Action>)
    requires s.cfg.Valid() && m >= 1
    ensures Knocked(s, m, actions, s.cfg.threshold - 1 + m * (1 + j), j * s.cfg.cooldown)
  {
    hide Knocked;
    OneRoundMore(m, j, s.cfg.cooldown);
    if j == 0 {
      var before := KnocksAddUp(s, m, s.cfg.threshold - 1);
      actions := KnocksAgain(s, m, before, s.cfg.threshold - 1, 0, ASKING, 0, m);
    } else {
      var before := KnocksEveryCooldown(s, m, j - 1);
      actions := KnocksAgain(s, m, before, s.cfg.threshold - 1 + m * j, (j - 1) * s.cfg.cooldown,
                             ASKING, j * s.cfg.cooldown, m);
    }
  }

  lemma OneRoundMore(m: nat, j: nat, cooldown: int)
    ensures m * j + m == m * (1 + j)
    ensures (j - 1) * cooldown + cooldown == j * cooldown
  {
  }

  // No smaller bound holds, for any threshold, cooldown, m and span.
  lemma QuarantineIsAttained(s: Setup, m: nat, span: nat) returns (actions: seq<Action>)
    requires s.cfg.Valid() && m >= 1
    ensures OneAtATime(s, Beginning(m), actions) && KeepsListing(Beginning(m), actions, "x", m)
    ensures NeverAccepted(Run(s, Beginning(m), actions).sent, "x")
    ensures Spacing.CountIn(Starts(On(Run(s, Beginning(m), actions).sent, "x")), 0, span)
         == s.cfg.threshold - 1 + m * (1 + span / s.cfg.cooldown)
  {
    hide Run, OneAtATime, On, KeepsListing, Circuit.Trailing, Circuit.LastFailure;
    var j := span / s.cfg.cooldown;
    actions := KnocksEveryCooldown(s, m, j);
    Spacing.WholeCooldowns(span, s.cfg.cooldown);
    Spacing.CountAll(Starts(On(Run(s, Beginning(m), actions).sent, "x")), 0, span);
  }

  lemma {:induction false} RepeatedCount(m: nat)
    ensures multiset(Repeated("x", m))["x"] == m
  {
    if m > 0 {
      RepeatedCount(m - 1);
      assert Repeated("x", m) == Repeated("x", m - 1) + ["x"];
    }
  }
}
