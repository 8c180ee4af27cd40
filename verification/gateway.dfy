// Whole runs of the gateway: chat requests one at a time, with alias and policy changes between
// them. Each component's run theorems are lifted to what reaches the upstream.

module Gateway {
  import opened DataPlane
  import opened Pipeline
  import Circuit
  import Limiter
  import Routing
  import Text

  datatype Action =
    | Chat(req: Request, env: Env)
    | SetAlias(alias: string, targets: seq<string>)
    | DeleteAlias(alias: string)
    | SetGlobalDeny(models: seq<string>)

  // A run so far: the state, and what happened to the breaker, the limiter and the upstream.
  datatype Trace = Trace(world: World, ops: seq<Circuit.Op>, calls: seq<Limiter.Call>, sent: seq<Attempt>, now: int)

  function Next(s: Setup, t: Trace, a: Action): Trace {
    var w := t.world;
    match a
    case Chat(req, env) =>
      Trace(After(s, w, req, env), t.ops + BreakerOps(s, w, req, env), t.calls + RateCalls(s, w, req, env),
            t.sent + Sent(s, w, req, env), env.end)
    case SetAlias(alias, targets) => t.(world := w.(aliases := w.aliases[Text.ToLower(alias) := targets]))
    case DeleteAlias(alias) => t.(world := w.(aliases := w.aliases - {Text.ToLower(alias)}))
    case SetGlobalDeny(models) => t.(world := w.(deny := models))
  }

  // A gateway starts with no history, whatever its aliases and deny list.
  function Start(aliases: Routing.Aliases, deny: seq<string>, now: int): Trace {
    Trace(World(map[], aliases, map[], map[], deny), [], [], [], now)
  }

  function Run(s: Setup, start: Trace, actions: seq<Action>): Trace {
    if actions == [] then start
    else Next(s, Run(s, start, actions[..|actions| - 1]), actions[|actions| - 1])
  }

  // Along one request the clock only moves forward: queries, the rate check, then each attempt
  // from its start to its finish, all between `begin` and `end`.
  ghost predicate WellTimed(env: Env) {
    && AsksOrdered(env.asks)
    && (forall i: nat :: env.begin <= env.asks(i) <= env.rateAt)
    && (forall i: nat :: env.rateAt <= env.replies(i).start <= env.replies(i).finish <= env.end)
    && (forall i: nat, j: nat :: i < j ==> env.replies(i).finish <= env.replies(j).start)
  }

  // One request at a time: each begins after the one before it has ended.
  ghost predicate OneAtATime(s: Setup, start: Trace, actions: seq<Action>) {
    actions != [] ==>
      var before, a := actions[..|actions| - 1], actions[|actions| - 1];
      && OneAtATime(s, start, before)
      && (a.Chat? ==> WellTimed(a.env) && Run(s, start, before).now <= a.env.begin)
  }

  lemma OneMore(s: Setup, start: Trace, actions: seq<Action>, a: Action)
    ensures Run(s, start, actions + [a]) == Next(s, Run(s, start, actions), a)
    ensures OneAtATime(s, start, actions + [a])
       <==> OneAtATime(s, start, actions)
            && (a.Chat? ==> WellTimed(a.env) && Run(s, start, actions).now <= a.env.begin)
  {
    assert (actions + [a])[..|actions|] == actions;
  }

  // A started gateway whose trace explains its state.
  ghost predicate Explained(s: Setup, t: Trace) {
    && t.world.table == Circuit.Run(s.cfg, t.ops)
    && t.world.windows == Limiter.Run(t.calls)
  }

  lemma StartIsExplained(s: Setup, start: Trace)
    requires start == Start(start.world.aliases, start.world.deny, start.now)
    ensures Explained(s, start) && Circuit.Timely(start.ops, start.now)
  {
  }

  lemma {:induction false} RunsAreExplained(s: Setup, start: Trace, actions: seq<Action>)
    requires Explained(s, start)
    ensures Explained(s, Run(s, start, actions))
  {
    if actions != [] {
      var before, a := actions[..|actions| - 1], actions[|actions| - 1];
      RunsAreExplained(s, start, before);
      if a.Chat? {
        ChatIsExplained(s, Run(s, start, before), a.req, a.env);
      }
    }
  }

  lemma ChatIsExplained(s: Setup, t: Trace, req: Request, env: Env)
    requires Explained(s, t)
    ensures Explained(s, Next(s, t, Chat(req, env)))
  {
    hide StageOf, Sent, BreakerOps, Circuit.Fold, Limiter.Step, Limiter.Admitted;
    Circuit.FoldConcat(s.cfg, map[], t.ops, BreakerOps(s, t.world, req, env));
    if RateCalls(s, t.world, req, env) == [] {
      assert t.calls + RateCalls(s, t.world, req, env) == t.calls;
    } else {
      Limiter.RunAppend(t.calls, RateCalls(s, t.world, req, env)[0], Limiter.Rpm(""));
    }
  }

  // ---------------------------------------------------------------------------------------
  // The clock
  // ---------------------------------------------------------------------------------------

  lemma {:induction false} TimelyLater(ops: seq<Circuit.Op>, now: int, later: int)
    requires Circuit.Timely(ops, now) && now <= later
    ensures Circuit.Timely(ops, later)
  {
    if ops != [] && ops[|ops| - 1].event.Success? {
      TimelyLater(ops[..|ops| - 1], now, later);
    }
  }

  lemma TimelyAppend(ops: seq<Circuit.Op>, op: Circuit.Op, now: int, at: int)
    requires Circuit.Timely(ops, now) && now <= at
    requires op.event.Success? || op.event.at == at
    ensures Circuit.Timely(ops + [op], at)
  {
    assert (ops + [op])[..|ops|] == ops;
    TimelyLater(ops, now, at);
  }

  lemma {:induction false} QueriesTimely(ops: seq<Circuit.Op>, targets: seq<string>, env: Env)
    requires WellTimed(env) && Circuit.Timely(ops, env.begin)
    ensures Circuit.Timely(ops + Routing.AskAll(targets, env.asks),
                           if targets == [] then env.begin else env.asks(|targets| - 1))
  {
    var all := ops + Routing.AskAll(targets, env.asks);
    if targets == [] {
      assert all == ops;
    } else {
      var n := |targets| - 1;
      var before := ops + Routing.AskAll(targets[..n], env.asks);
      QueriesTimely(ops, targets[..n], env);
      var op := Circuit.Op(targets[n], Circuit.Ask(env.asks(n)));
      assert all == before + [op];
      TimelyAppend(before, op, if n == 0 then env.begin else env.asks(n - 1), env.asks(n));
    }
  }

  // Attempts made one after the other from `from` on.
  ghost predicate InTurn(attempts: seq<Attempt>, from: int) {
    && (forall i :: 0 <= i < |attempts| ==> from <= attempts[i].reply.start <= attempts[i].reply.finish)
    && (forall i, j :: 0 <= i < j < |attempts| ==> attempts[i].reply.finish <= attempts[j].reply.start)
  }

  lemma ResultsAt(a: Attempt)
    ensures Result(a).event.Success? || Result(a).event == Circuit.Failure(a.reply.finish)
  {
  }

  lemma {:induction false} ResultsTimely(ops: seq<Circuit.Op>, attempts: seq<Attempt>, from: int)
    requires Circuit.Timely(ops, from) && InTurn(attempts, from)
    ensures Circuit.Timely(ops + Results(attempts),
                           if attempts == [] then from else attempts[|attempts| - 1].reply.finish)
  {
    hide Circuit.Timely, Result;
    var all := ops + Results(attempts);
    if attempts == [] {
      assert all == ops;
    } else {
      var n := |attempts| - 1;
      ResultsAt(attempts[n]);
      var a := attempts[n];
      var before := ops + Results(attempts[..n]);
      ResultsTimely(ops, attempts[..n], from);
      assert all == before + [Result(a)];
      TimelyAppend(before, Result(a), if n == 0 then from else attempts[n - 1].reply.finish, a.reply.finish);
    }
  }

  lemma SentInTurn(s: Setup, w: World, req: Request, env: Env)
    requires WellTimed(env)
    ensures InTurn(Sent(s, w, req, env), env.rateAt)
    ensures forall i :: 0 <= i < |Sent(s, w, req, env)| ==> Sent(s, w, req, env)[i].reply.finish <= env.end
  {
    hide StageOf, Candidates, Tried;
  }

  lemma ChatOpsTimely(s: Setup, t: Trace, req: Request, env: Env)
    requires WellTimed(env) && Circuit.Timely(t.ops, t.now) && t.now <= env.begin
    ensures Circuit.Timely(t.ops + BreakerOps(s, t.world, req, env), env.end)
  {
    hide Circuit.Timely, StageOf, Candidates, Tried, Sent;
    assert env.begin <= env.asks(0) <= env.rateAt <= env.replies(0).start <= env.replies(0).finish <= env.end;
    TimelyLater(t.ops, t.now, env.begin);
    if Rejection(s, req).Some? {
      assert t.ops + [] == t.ops;
      TimelyLater(t.ops, t.now, env.end);
    } else {
      var targets, sent := QueriedTargets(t.world, req), Sent(s, t.world, req, env);
      var asked := t.ops + Routing.AskAll(targets, env.asks);
      QueriesTimely(t.ops, targets, env);
      TimelyLater(asked, if targets == [] then env.begin else env.asks(|targets| - 1), env.rateAt);
      SentInTurn(s, t.world, req, env);
      ResultsTimely(asked, sent, env.rateAt);
      assert t.ops + BreakerOps(s, t.world, req, env) == asked + Results(sent);
      TimelyLater(asked + Results(sent), if sent == [] then env.rateAt else sent[|sent| - 1].reply.finish, env.end);
    }
  }

  lemma {:induction false} RunsAreTimely(s: Setup, start: Trace, actions: seq<Action>)
    requires OneAtATime(s, start, actions) && Circuit.Timely(start.ops, start.now)
    ensures Circuit.Timely(Run(s, start, actions).ops, Run(s, start, actions).now)
  {
    if actions != [] {
      var before, a := actions[..|actions| - 1], actions[|actions| - 1];
      RunsAreTimely(s, start, before);
      if a.Chat? {
        ChatOpsTimely(s, Run(s, start, before), a.req, a.env);
      }
    }
  }
}
