// The step models of overlapping requests are about the handler: what a request does concerning one
// model, and concerning quotas, is a path of them, and a run of requests one at a time is a run of
// them with one request on its way.

module Refinement {
  import opened DataPlane
  import opened Pipeline
  import opened Gateway
  import opened Quarantine
  import Budgets
  import Circuit
  import Quota
  import QuarantineRuns
  import QuotaRuns
  import Routing

  // A model is sent to at most as often as the request's queries of it were admitted.
  lemma SentAtMostAdmitted(s: Setup, w: World, req: Request, env: Env, x: string)
    requires Rejection(s, req).None?
    ensures |On(Sent(s, w, req, env), x)|
         <= multiset(Routing.Healthy(s.cfg, w.table, QueriedTargets(w, req), env.asks))[x]
  {
    hide StageOf, Routing.Candidates;
    var candidates, sent := Candidates(s, w, req, env), Sent(s, w, req, env);
    OnCounts(sent, x);
    SentNonEmpty(s, w, req, env);
    Routing.CandidatesAtMostHealthy(s.cfg, w.table, w.aliases, req.body.model, env.asks, x);
    assert Models(sent) == candidates[..|sent|];
    assert candidates == candidates[..|sent|] + candidates[|sent|..];
  }

  // ---------------------------------------------------------------------------------------
  // One model's quarantine
  // ---------------------------------------------------------------------------------------

  function AskEvent(target: string, at: int, x: string): QuarantineRuns.Event {
    if target == x then QuarantineRuns.Ask(0, at)
    else QuarantineRuns.Elsewhere(Circuit.Op(target, Circuit.Ask(at)))
  }

  function AskEvents(targets: seq<string>, asks: Routing.Asks, x: string): seq<QuarantineRuns.Event> {
    seq(|targets|, i requires 0 <= i < |targets| => AskEvent(targets[i], asks(i), x))
  }

  function AttemptEvents(a: Attempt, x: string): seq<QuarantineRuns.Event> {
    if a.model == x then [QuarantineRuns.Send(0, a.reply.start), QuarantineRuns.Fail(0, a.reply.finish)]
    else [QuarantineRuns.Elsewhere(Result(a))]
  }

  function SendEvents(attempts: seq<Attempt>, x: string): seq<QuarantineRuns.Event> {
    if attempts == [] then []
    else SendEvents(attempts[..|attempts| - 1], x) + AttemptEvents(attempts[|attempts| - 1], x)
  }

  // What one request does concerning x: it comes in, asks, sends and leaves.
  function RequestEvents(s: Setup, w: World, req: Request, env: Env, x: string): seq<QuarantineRuns.Event> {
    if Rejection(s, req).Some? then []
    else
      [QuarantineRuns.Enter] + AskEvents(QueriedTargets(w, req), env.asks, x)
      + SendEvents(Sent(s, w, req, env), x) + [QuarantineRuns.Leave(0)]
  }

  // What a run does concerning x.
  function EventsOf(s: Setup, start: Trace, actions: seq<Action>, x: string): seq<QuarantineRuns.Event> {
    if actions == [] then []
    else
      var before, a := actions[..|actions| - 1], actions[|actions| - 1];
      EventsOf(s, start, before, x)
      + if a.Chat? then RequestEvents(s, Run(s, start, before).world, a.req, a.env, x) else []
  }

  // The step model has come to `w` by a run that keeps its rules, with one request at a time.
  ghost predicate Reached(cfg: Circuit.Config, events: seq<QuarantineRuns.Event>, x: string, begin: int, m: nat,
                          w: QuarantineRuns.World) {
    QuarantineRuns.Obeys(cfg, events, x, begin, 1, m) && QuarantineRuns.Run(cfg, events, x, begin) == w
  }

  lemma Step(cfg: Circuit.Config, events: seq<QuarantineRuns.Event>, x: string, begin: int, m: nat,
             w: QuarantineRuns.World, e: QuarantineRuns.Event)
    requires Reached(cfg, events, x, begin, m, w) && QuarantineRuns.Possible(w, e, x, 1, m)
    ensures Reached(cfg, events + [e], x, begin, m, QuarantineRuns.Next(cfg, w, e, x))
  {
    QuarantineRuns.RunAppend(cfg, events, e, x, begin, 1, m);
  }

  // The step model while a request has queried `targets`: it holds exactly the admissions that
  // routing found.
  function Asking(cfg: Circuit.Config, w: QuarantineRuns.World, targets: seq<string>, asks: Routing.Asks, x: string,
                  now: int): QuarantineRuns.World {
    var admitted := multiset(Routing.Healthy(cfg, w.table, targets, asks))[x];
    QuarantineRuns.World(Circuit.Fold(cfg, w.table, Routing.AskAll(targets, asks)),
                         [QuarantineRuns.Flight(multiset(targets)[x], admitted, 0, false)], w.starts, now)
  }

  lemma {:induction false} AsksFollow(cfg: Circuit.Config, events: seq<QuarantineRuns.Event>, x: string, begin: int,
                                      m: nat, w: QuarantineRuns.World, targets: seq<string>, asks: Routing.Asks)
    returns (now: int)
    requires Reached(cfg, events, x, begin, m, w) && w.flights == [QuarantineRuns.Flight(0, 0, 0, false)]
    requires AsksOrdered(asks) && w.now <= asks(0) && multiset(targets)[x] <= m
    ensures now <= if targets == [] then w.now else asks(|targets| - 1)
    ensures Reached(cfg, events + AskEvents(targets, asks, x), x, begin, m, Asking(cfg, w, targets, asks, x, now))
  {
    if targets == [] {
      now := w.now;
      assert events + AskEvents(targets, asks, x) == events;
    } else {
      hide Reached, Asking, AskEvents;
      var n := |targets| - 1;
      var before, e := targets[..n], AskEvent(targets[n], asks(n), x);
      assert targets == before + [targets[n]];
      var passed := AsksFollow(cfg, events, x, begin, m, w, before, asks);
      now := if targets[n] == x then asks(n) else passed;
      assert asks(0) <= asks(n) && (n > 0 ==> asks(n - 1) <= asks(n));
      OneAskMore(cfg, w, targets, asks, x, passed, m);
      Step(cfg, events + AskEvents(before, asks, x), x, begin, m, Asking(cfg, w, before, asks, x, passed), e);
      MoreAskEvents(events, targets, asks, x);
    }
  }

  lemma MoreAskEvents(events: seq<QuarantineRuns.Event>, targets: seq<string>, asks: Routing.Asks, x: string)
    requires targets != []
    ensures var n := |targets| - 1;
            events + AskEvents(targets[..n], asks, x) + [AskEvent(targets[n], asks(n), x)]
            == events + AskEvents(targets, asks, x)
  {
  }

  lemma OneAskMore(cfg: Circuit.Config, w: QuarantineRuns.World, targets: seq<string>, asks: Routing.Asks, x: string,
                   now: int, m: nat)
    requires targets != [] && now <= asks(|targets| - 1) && multiset(targets)[x] <= m
    ensures var n := |targets| - 1;
            var e, w' := AskEvent(targets[n], asks(n), x), Asking(cfg, w, targets[..n], asks, x, now);
            && QuarantineRuns.Possible(w', e, x, 1, m)
            && QuarantineRuns.Next(cfg, w', e, x)
               == Asking(cfg, w, targets, asks, x, if targets[n] == x then asks(n) else now)
  {
    hide Circuit.Step, Circuit.Admits, Circuit.Fold, Routing.Healthy;
    var n := |targets| - 1;
    assert targets == targets[..n] + [targets[n]] && targets[..n + 1] == targets;
    Routing.AskOneMore(cfg, w.table, targets, asks, n);
  }

  // The step model after a request has made the attempts `sent`.
  function Sending(cfg: Circuit.Config, w: QuarantineRuns.World, f: QuarantineRuns.Flight,
                   sent: seq<Attempt>, x: string, now: int): QuarantineRuns.World
    requires |On(sent, x)| <= f.left
  {
    QuarantineRuns.World(Circuit.Fold(cfg, w.table, Results(sent)),
                         [f.(left := f.left - |On(sent, x)|, made := f.made + |On(sent, x)|)],
                         w.starts + Starts(On(sent, x)), now)
  }

  lemma MoreSendEvents(events: seq<QuarantineRuns.Event>, sent: seq<Attempt>, x: string)
    requires sent != []
    ensures var n := |sent| - 1;
            events + SendEvents(sent[..n], x) + AttemptEvents(sent[n], x) == events + SendEvents(sent, x)
  {
  }

  lemma NoSends(cfg: Circuit.Config, events: seq<QuarantineRuns.Event>, w: QuarantineRuns.World,
                f: QuarantineRuns.Flight, x: string)
    requires w.flights == [f]
    ensures events + SendEvents([], x) == events && Sending(cfg, w, f, [], x, w.now) == w
  {
    assert Starts(On([], x)) == [] && w.starts + [] == w.starts && Results([]) == [];
  }

  lemma EarlierSends(sent: seq<Attempt>, x: string, from: int)
    requires sent != [] && NeverAccepted(sent, x) && InTurn(sent, from)
    ensures NeverAccepted(sent[..|sent| - 1], x) && InTurn(sent[..|sent| - 1], from)
  {
  }

  lemma OneSendMore(cfg: Circuit.Config, w: QuarantineRuns.World, f: QuarantineRuns.Flight,
                    sent: seq<Attempt>, x: string)
    requires sent != []
    ensures var n := |sent| - 1;
            && Circuit.Fold(cfg, w.table, Results(sent))
               == Circuit.Step(cfg, Circuit.Fold(cfg, w.table, Results(sent[..n])), Result(sent[n]))
            && On(sent, x) == (if sent[n].model == x then On(sent[..n], x) + [sent[n]] else On(sent[..n], x))
            && |On(sent[..n], x)| <= |On(sent, x)|
  {
    var n := |sent| - 1;
    assert Results(sent)[..n] == Results(sent[..n]) && Results(sent)[n] == Result(sent[n]);
  }

  lemma SendFollows(cfg: Circuit.Config, events: seq<QuarantineRuns.Event>, x: string, begin: int, m: nat,
                    w: QuarantineRuns.World, f: QuarantineRuns.Flight, sent: seq<Attempt>, passed: int)
    returns (now: int)
    requires sent != [] && !f.busy && |On(sent[..|sent| - 1], x)| <= |On(sent, x)| <= f.left
    requires NeverAccepted(sent, x) && InTurn(sent, w.now)
    requires passed <= if |sent| == 1 then w.now else sent[|sent| - 2].reply.finish
    requires Reached(cfg, events, x, begin, m, Sending(cfg, w, f, sent[..|sent| - 1], x, passed))
    ensures now <= sent[|sent| - 1].reply.finish
    ensures Reached(cfg, events + AttemptEvents(sent[|sent| - 1], x), x, begin, m, Sending(cfg, w, f, sent, x, now))
  {
    hide Reached, Circuit.Step, Circuit.Fold, On;
    var n := |sent| - 1;
    var a, w' := sent[n], Sending(cfg, w, f, sent[..n], x, passed);
    OneSendMore(cfg, w, f, sent, x);
    assert w.now <= a.reply.start <= a.reply.finish && (n > 0 ==> sent[n - 1].reply.finish <= a.reply.start);
    if a.model == x {
      var send, fail := QuarantineRuns.Send(0, a.reply.start), QuarantineRuns.Fail(0, a.reply.finish);
      now := a.reply.finish;
      Step(cfg, events, x, begin, m, w', send);
      Step(cfg, events + [send], x, begin, m, QuarantineRuns.Next(cfg, w', send, x), fail);
      assert events + [send] + [fail] == events + AttemptEvents(a, x);
      assert Starts(On(sent, x)) == Starts(On(sent[..n], x)) + [a.reply.start];
      assert w'.starts + [a.reply.start] == w.starts + Starts(On(sent, x));
      assert Result(a) == Circuit.Op(x, Circuit.Failure(a.reply.finish));
      assert QuarantineRuns.Next(cfg, QuarantineRuns.Next(cfg, w', send, x), fail, x)
          == Sending(cfg, w, f, sent, x, now);
    } else {
      now := passed;
      Step(cfg, events, x, begin, m, w', QuarantineRuns.Elsewhere(Result(a)));
      assert QuarantineRuns.Next(cfg, w', QuarantineRuns.Elsewhere(Result(a)), x) == Sending(cfg, w, f, sent, x, now);
    }
  }

  // The attempts: each failure of x follows its own send, all others happen elsewhere.
  lemma {:induction false} SendsFollow(cfg: Circuit.Config, events: seq<QuarantineRuns.Event>, x: string, begin: int,
                                       m: nat, w: QuarantineRuns.World, f: QuarantineRuns.Flight, sent: seq<Attempt>)
    returns (now: int)
    requires Reached(cfg, events, x, begin, m, w) && w.flights == [f] && !f.busy
    requires |On(sent, x)| <= f.left && NeverAccepted(sent, x) && InTurn(sent, w.now)
    ensures now <= if sent == [] then w.now else sent[|sent| - 1].reply.finish
    ensures Reached(cfg, events + SendEvents(sent, x), x, begin, m, Sending(cfg, w, f, sent, x, now))
  {
    if sent == [] {
      now := w.now;
      NoSends(cfg, events, w, f, x);
    } else {
      hide Reached, Sending, SendEvents, AttemptEvents, On, NeverAccepted, InTurn, Accepts;
      hide Results, Starts, Circuit.Fold, Circuit.Step, Result;
      var n := |sent| - 1;
      var before, a := sent[..n], sent[n];
      OneSendMore(cfg, w, f, sent, x);
      EarlierSends(sent, x, w.now);
      var passed := SendsFollow(cfg, events, x, begin, m, w, f, before);
      now := SendFollows(cfg, events + SendEvents(before, x), x, begin, m, w, f, sent, passed);
      MoreSendEvents(events, sent, x);
    }
  }

  // The step model between two requests.
  ghost predicate Between(s: Setup, events: seq<QuarantineRuns.Event>, x: string, begin: int, m: nat, t: Trace) {
    exists now: int :: now <= t.now
      && Reached(s.cfg, events, x, begin, m, QuarantineRuns.World(t.world.table, [], Starts(On(t.sent, x)), now))
  }

  // One request of the handler is a path of the step model.
  lemma RequestFollows(s: Setup, events: seq<QuarantineRuns.Event>, x: string, begin: int, m: nat, t: Trace,
                       req: Request, env: Env)
    requires WellTimed(env) && t.now <= env.begin && m >= 1 && ListsAtMost(t.world.aliases, x, m)
    requires NeverAccepted(Sent(s, t.world, req, env), x) && Between(s, events, x, begin, m, t)
    ensures Between(s, events + RequestEvents(s, t.world, req, env, x), x, begin, m, Next(s, t, Chat(req, env)))
  {
    hide Reached, Sent, After, BreakerOps, RateCalls, On;
    var now: int :| now <= t.now
      && Reached(s.cfg, events, x, begin, m, QuarantineRuns.World(t.world.table, [], Starts(On(t.sent, x)), now));
    if Rejection(s, req).Some? {
      RejectedEffects(s, t.world, req, env);
      assert events + [] == events && t.sent + [] == t.sent;
      assert env.begin <= env.asks(0) <= env.rateAt <= env.replies(0).start <= env.replies(0).finish <= env.end;
    } else {
      var now' := ValidFollows(s, events, x, begin, m, t, req, env, now);
    }
  }

  lemma ValidFollows(s: Setup, events: seq<QuarantineRuns.Event>, x: string, begin: int, m: nat, t: Trace,
                     req: Request, env: Env, now: int) returns (now': int)
    requires WellTimed(env) && now <= t.now <= env.begin && m >= 1 && ListsAtMost(t.world.aliases, x, m)
    requires Rejection(s, req).None? && NeverAccepted(Sent(s, t.world, req, env), x)
    requires Reached(s.cfg, events, x, begin, m, QuarantineRuns.World(t.world.table, [], Starts(On(t.sent, x)), now))
    ensures now' <= env.end
    ensures var t' := Next(s, t, Chat(req, env));
            Reached(s.cfg, events + RequestEvents(s, t.world, req, env, x), x, begin, m,
                    QuarantineRuns.World(t'.world.table, [], Starts(On(t'.sent, x)), now'))
  {
    hide Reached, Sent, After, BreakerOps, RateCalls, On, Circuit.Fold, Routing.Healthy, QueriedTargets;
    hide AskEvents, SendEvents, Circuit.Step;
    var cfg, sent, targets := s.cfg, Sent(s, t.world, req, env), QueriedTargets(t.world, req);
    var w0 := QuarantineRuns.World(t.world.table, [], Starts(On(t.sent, x)), now);
    assert env.begin <= env.asks(0) <= env.rateAt <= env.replies(0).start <= env.replies(0).finish <= env.end;
    Step(cfg, events, x, begin, m, w0, QuarantineRuns.Enter);
    var w1 := QuarantineRuns.Next(cfg, w0, QuarantineRuns.Enter, x);
    assert w1.flights == [QuarantineRuns.Flight(0, 0, 0, false)];
    FewListed(t.world, req, x, m);
    var asked := events + [QuarantineRuns.Enter] + AskEvents(targets, env.asks, x);
    var now1 := AsksFollow(cfg, events + [QuarantineRuns.Enter], x, begin, m, w1, targets, env.asks);
    var w2 := Asking(cfg, w1, targets, env.asks, x, now1);
    SentAtMostAdmitted(s, t.world, req, env, x);
    SentInTurn(s, t.world, req, env);
    assert targets != [] ==> env.asks(|targets| - 1) <= env.rateAt;
    assert InTurn(sent, w2.now);
    now' := SendsFollow(cfg, asked, x, begin, m, w2, w2.flights[0], sent);
    var w3 := Sending(cfg, w2, w2.flights[0], sent, x, now');
    Step(cfg, asked + SendEvents(sent, x), x, begin, m, w3, QuarantineRuns.Leave(0));
    RequestTable(s, t.world, req, env);
    StartsOfMore(t.sent, sent, x);
    assert asked + SendEvents(sent, x) + [QuarantineRuns.Leave(0)]
        == events + RequestEvents(s, t.world, req, env, x);
    assert w3.flights[..0] + w3.flights[1..] == [];
  }

  lemma FewListed(w: World, req: Request, x: string, m: nat)
    requires req.body.Parsed? && m >= 1 && ListsAtMost(w.aliases, x, m)
    ensures multiset(QueriedTargets(w, req))[x] <= m
  {
  }

  lemma RequestTable(s: Setup, w: World, req: Request, env: Env)
    requires Rejection(s, req).None?
    ensures After(s, w, req, env).table
         == Circuit.Fold(s.cfg, Circuit.Fold(s.cfg, w.table, Routing.AskAll(QueriedTargets(w, req), env.asks)),
                         Results(Sent(s, w, req, env)))
  {
    hide Circuit.Fold, Sent, StageOf;
    Circuit.FoldConcat(s.cfg, w.table, Routing.Queries(w.aliases, req.body.model, env.asks),
                       Results(Sent(s, w, req, env)));
  }

  lemma StartsOfMore(sent: seq<Attempt>, more: seq<Attempt>, x: string)
    ensures Starts(On(sent + more, x)) == Starts(On(sent, x)) + Starts(On(more, x))
  {
    OnConcat(sent, more, x);
  }

  // A run of requests one at a time in which x never succeeds is a run of the step model with one
  // request on its way, and makes the same attempts on x. So the sequential bound is a case of the
  // overlapping one.
  lemma {:induction false} SequentialIsOneAtATime(s: Setup, start: Trace, actions: seq<Action>, x: string, m: nat)
    requires start == Start(start.world.aliases, start.world.deny, start.now)
    requires OneAtATime(s, start, actions) && m >= 1 && KeepsListing(start, actions, x, m)
    requires NeverAccepted(Run(s, start, actions).sent, x)
    ensures Between(s, EventsOf(s, start, actions, x), x, start.now, m, Run(s, start, actions))
    ensures QuarantineRuns.Obeys(s.cfg, EventsOf(s, start, actions, x), x, start.now, 1, m)
    ensures QuarantineRuns.Run(s.cfg, EventsOf(s, start, actions, x), x, start.now).starts
         == Starts(On(Run(s, start, actions).sent, x))
  {
    if actions == [] {
      assert Starts(On([], x)) == [];
      assert Reached(s.cfg, [], x, start.now, m, QuarantineRuns.World(map[], [], [], start.now));
    } else {
      hide Sent, After, BreakerOps, RateCalls, On, RequestEvents, QuarantineRuns.Run, QuarantineRuns.Obeys;
      var before, a := actions[..|actions| - 1], actions[|actions| - 1];
      var t := Run(s, start, before);
      assert NeverAccepted(t.sent, x) by {
        assert forall i :: 0 <= i < |t.sent| ==> t.sent[i] == Run(s, start, actions).sent[i];
      }
      SequentialIsOneAtATime(s, start, before, x, m);
      if a.Chat? {
        ListingIsKept(s, start, before, x, m);
        assert NeverAccepted(Sent(s, t.world, a.req, a.env), x) by {
          var sent := Sent(s, t.world, a.req, a.env);
          assert forall i :: 0 <= i < |sent| ==> sent[i] == Run(s, start, actions).sent[|t.sent| + i];
        }
        RequestFollows(s, EventsOf(s, start, before, x), x, start.now, m, t, a.req, a.env);
      } else {
        assert EventsOf(s, start, before, x) + [] == EventsOf(s, start, before, x);
      }
    }
  }

  // ---------------------------------------------------------------------------------------
  // Quotas
  // ---------------------------------------------------------------------------------------

  // What one request does to the quota book: it is checked once it has passed the rate test, and
  // once all gates are passed it ends accepted or not.
  function QuotaEvents(s: Setup, w: World, req: Request, env: Env): seq<QuotaRuns.Event> {
    var stage := StageOf(s, w, req, env);
    if req.key.Some? && PassedRate(stage) then
      [ArrivalOf(req)] + if stage == Forwarded then [QuotaRuns.Finish(0, Accepted(Sent(s, w, req, env)))] else []
    else []
  }

  function ArrivalOf(req: Request): QuotaRuns.Event
    requires req.key.Some?
  {
    QuotaRuns.Arrive(KeyId(req), req.key.value.dailyQuota, req.key.value.monthlyQuota, Estimate(req))
  }

  function QuotaEventsOf(s: Setup, start: Trace, actions: seq<Action>): seq<QuotaRuns.Event> {
    if actions == [] then []
    else
      var before, a := actions[..|actions| - 1], actions[|actions| - 1];
      QuotaEventsOf(s, start, before)
      + if a.Chat? then QuotaEvents(s, Run(s, start, before).world, a.req, a.env) else []
  }

  // No request of the key estimates more than `most`.
  predicate EstimatesWithin(actions: seq<Action>, id: string, most: nat) {
    forall i :: 0 <= i < |actions| && actions[i].Chat? && Budgets.IsFor(actions[i].req, id)
      ==> Estimate(actions[i].req) <= most
  }

  predicate Charging(req: Request, id: string, limit: int, most: nat) {
    Budgets.IsFor(req, id) ==>
      var key := req.key.value;
      Estimate(req) <= most && (0 < key.dailyQuota <= limit || 0 < key.monthlyQuota <= limit)
  }

  // One request is a path of the quota's step model, which ends with nothing in flight.
  lemma QuotaFollows(s: Setup, events: seq<QuotaRuns.Event>, w: World, req: Request, env: Env,
                     id: string, limit: int, most: nat)
    requires QuotaRuns.Run(events) == QuotaRuns.World(w.book, []) && Charging(req, id, limit, most)
    requires QuotaRuns.Obeys(events, id, limit, 1, most)
    ensures QuotaRuns.Run(events + QuotaEvents(s, w, req, env))
         == QuotaRuns.World(After(s, w, req, env).book, [])
    ensures QuotaRuns.Obeys(events + QuotaEvents(s, w, req, env), id, limit, 1, most)
  {
    hide QuotaRuns.Run, QuotaRuns.Obeys, BreakerOps, Sent, Quota.Charged, Quota.Touched, Quota.Fits;
    var stage := StageOf(s, w, req, env);
    hide StageOf;
    if req.key.Some? && PassedRate(stage) {
      StageFits(s, w, req, env);
      var arrive := ArrivalOf(req);
      var flight := QuotaRuns.Flight(KeyId(req), Estimate(req));
      QuotaRuns.FlightsOne(flight, id);
      assert [] + [flight] == [flight];
      QuotaRuns.ObeysAppend(events, arrive, id, limit, 1, most);
      if stage == Forwarded {
        var finish := QuotaRuns.Finish(0, Accepted(Sent(s, w, req, env)));
        assert QuotaRuns.Without([flight], 0) == [];
        QuotaRuns.ObeysAppend(events + [arrive], finish, id, limit, 1, most);
        assert events + [arrive] + [finish] == events + QuotaEvents(s, w, req, env);
      } else {
        SentNonEmpty(s, w, req, env);
        assert events + [arrive] == events + QuotaEvents(s, w, req, env);
      }
    } else {
      assert events + [] == events;
      SentNonEmpty(s, w, req, env);
    }
  }

  lemma StageFits(s: Setup, w: World, req: Request, env: Env)
    requires req.key.Some? && PassedRate(StageOf(s, w, req, env))
    ensures StageOf(s, w, req, env) == Forwarded
       <==> Quota.Fits(w.book, KeyId(req), req.key.value.dailyQuota, req.key.value.monthlyQuota, Estimate(req))
  {
  }

  // A run of requests one at a time is a run of the quota's step model with one in flight.
  lemma {:induction false} QuotasAreOneAtATime(s: Setup, start: Trace, actions: seq<Action>, id: string,
                                               limit: int, most: nat)
    requires start.world.book == map[]
    requires Budgets.QuotasWithin(actions, id, limit) && EstimatesWithin(actions, id, most)
    ensures QuotaRuns.Run(QuotaEventsOf(s, start, actions)) == QuotaRuns.World(Run(s, start, actions).world.book, [])
    ensures QuotaRuns.Obeys(QuotaEventsOf(s, start, actions), id, limit, 1, most)
  {
    if actions != [] {
      hide QuotaEvents, QuotaRuns.Run, QuotaRuns.Obeys, BreakerOps, Sent, After, RateCalls, Charging;
      hide EstimatesWithin, Budgets.QuotasWithin;
      var before, a := actions[..|actions| - 1], actions[|actions| - 1];
      EarlierCharging(actions, id, limit, most);
      QuotasAreOneAtATime(s, start, before, id, limit, most);
      if a.Chat? {
        QuotaFollows(s, QuotaEventsOf(s, start, before), Run(s, start, before).world, a.req, a.env, id, limit, most);
      } else {
        assert QuotaEventsOf(s, start, before) + [] == QuotaEventsOf(s, start, before);
      }
    }
  }

  lemma EarlierCharging(actions: seq<Action>, id: string, limit: int, most: nat)
    requires actions != [] && Budgets.QuotasWithin(actions, id, limit) && EstimatesWithin(actions, id, most)
    ensures var before, a := actions[..|actions| - 1], actions[|actions| - 1];
            && Budgets.QuotasWithin(before, id, limit) && EstimatesWithin(before, id, most)
            && (a.Chat? ==> Charging(a.req, id, limit, most))
  {
    var before := actions[..|actions| - 1];
    assert forall i :: 0 <= i < |before| ==> before[i] == actions[i];
  }
}
