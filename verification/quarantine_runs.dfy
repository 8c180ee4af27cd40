// The quarantine of a model while requests overlap: a step model of everything that concerns one
// model `x` that never succeeds, and the bound on how often it is still sent to.

module QuarantineRuns {
  import opened Common
  import Circuit
  import Spacing

  // A request on its way: how often it has asked the breaker for x, how many of the admissions it
  // got are still to be used, how many it has used, and whether it is waiting for a reply from x.
  datatype Flight = Flight(asked: nat, left: nat, made: nat, busy: bool)

  datatype World = World(table: Circuit.Table, flights: seq<Flight>, starts: seq<int>, now: int)

  datatype Event =
    | Enter
    | Ask(flight: nat, at: int)
    | Send(flight: nat, at: int)
    | Fail(flight: nat, at: int)
    | Leave(flight: nat)
    | Elsewhere(op: Circuit.Op)

  // What a request can do next, and when: it asks before it sends, sends only what was admitted and
  // one attempt after the other, and leaves at any time between attempts. At most k are on their
  // way, none asks for x more than m times, and the clock does not run backwards.
  predicate Possible(w: World, e: Event, x: string, k: nat, m: nat) {
    match e
    case Enter => |w.flights| < k
    case Ask(i, at) => i < |w.flights| && w.now <= at && w.flights[i].made == 0 && w.flights[i].asked < m
    case Send(i, at) => i < |w.flights| && w.now <= at && !w.flights[i].busy && w.flights[i].left > 0
    case Fail(i, at) => i < |w.flights| && w.now <= at && w.flights[i].busy
    case Leave(i) => i < |w.flights| && !w.flights[i].busy
    case Elsewhere(op) => op.target != x
  }

  function Next(cfg: Circuit.Config, w: World, e: Event, x: string): World {
    match e
    case Enter => w.(flights := w.flights + [Flight(0, 0, 0, false)])
    case Ask(i, at) =>
      if i >= |w.flights| then w
      else
        var f := w.flights[i];
        var left := if Circuit.Admits(cfg, w.table, x, at) then f.left + 1 else f.left;
        World(Circuit.Step(cfg, w.table, Circuit.Op(x, Circuit.Ask(at))),
              w.flights[i := f.(asked := f.asked + 1, left := left)], w.starts, at)
    case Send(i, at) =>
      if i >= |w.flights| || w.flights[i].left == 0 then w
      else
        var f := w.flights[i];
        World(w.table, w.flights[i := f.(left := f.left - 1, made := f.made + 1, busy := true)], w.starts + [at], at)
    case Fail(i, at) =>
      if i >= |w.flights| then w
      else
        World(Circuit.Step(cfg, w.table, Circuit.Op(x, Circuit.Failure(at))),
              w.flights[i := w.flights[i].(busy := false)], w.starts, at)
    case Leave(i) =>
      if i >= |w.flights| then w else w.(flights := w.flights[..i] + w.flights[i + 1..])
    case Elsewhere(op) => w.(table := Circuit.Step(cfg, w.table, op))
  }

  function Run(cfg: Circuit.Config, events: seq<Event>, x: string, begin: int): World {
    if events == [] then World(map[], [], [], begin)
    else Next(cfg, Run(cfg, events[..|events| - 1], x, begin), events[|events| - 1], x)
  }

  predicate Obeys(cfg: Circuit.Config, events: seq<Event>, x: string, begin: int, k: nat, m: nat) {
    events != [] ==>
      var before, e := events[..|events| - 1], events[|events| - 1];
      Obeys(cfg, before, x, begin, k, m) && Possible(Run(cfg, before, x, begin), e, x, k, m)
  }

  // ---------------------------------------------------------------------------------------
  // Totals over the requests on their way
  // ---------------------------------------------------------------------------------------

  function Sum(flights: seq<Flight>, f: Flight -> nat): nat {
    if flights == [] then 0 else Sum(flights[..|flights| - 1], f) + f(flights[|flights| - 1])
  }

  function Busy(f: Flight): nat {
    if f.busy then 1 else 0
  }

  function Left(f: Flight): nat {
    f.left
  }

  lemma {:induction false} SumConcat(a: seq<Flight>, b: seq<Flight>, f: Flight -> nat)
    ensures Sum(a + b, f) == Sum(a, f) + Sum(b, f)
  {
    if b == [] {
      assert a + b == a;
    } else {
      assert (a + b)[..|a + b| - 1] == a + b[..|b| - 1];
      SumConcat(a, b[..|b| - 1], f);
    }
  }

  lemma SumOne(x: Flight, f: Flight -> nat)
    ensures Sum([x], f) == f(x)
  {
    assert [x][..0] == [];
  }

  lemma SumWithout(flights: seq<Flight>, i: nat, f: Flight -> nat)
    requires i < |flights|
    ensures Sum(flights, f) == Sum(flights[..i] + flights[i + 1..], f) + f(flights[i])
  {
    hide Sum;
    SumConcat(flights[..i], flights[i + 1..], f);
    SumConcat(flights[..i], [flights[i]], f);
    SumConcat(flights[..i] + [flights[i]], flights[i + 1..], f);
    SumOne(flights[i], f);
    assert flights == flights[..i] + [flights[i]] + flights[i + 1..];
  }

  lemma SumUpdate(flights: seq<Flight>, i: nat, g: Flight, f: Flight -> nat)
    requires i < |flights|
    ensures Sum(flights[i := g], f) == Sum(flights, f) - f(flights[i]) + f(g)
  {
    SumWithout(flights, i, f);
    SumWithout(flights[i := g], i, f);
    assert flights[i := g][..i] + flights[i := g][i + 1..] == flights[..i] + flights[i + 1..];
  }

  // No request has more admissions than it asked for, and one that waits has used one.
  predicate Fair(f: Flight, m: nat) {
    f.left + f.made <= f.asked <= m && (f.busy ==> f.made >= 1)
  }

  predicate AllFair(flights: seq<Flight>, m: nat) {
    forall i :: 0 <= i < |flights| ==> Fair(flights[i], m)
  }

  // What is waiting and what may still be sent is at most m per request.
  lemma {:induction false} BusyAndLeft(flights: seq<Flight>, m: nat)
    requires AllFair(flights, m)
    ensures Sum(flights, Busy) + Sum(flights, Left) <= |flights| * m
    ensures Sum(flights, Busy) <= |flights|
  {
    if flights != [] {
      var n := |flights| - 1;
      BusyAndLeft(flights[..n], m);
      assert Fair(flights[n], m);
      assert |flights| * m == n * m + m;
    }
  }

  lemma AtMostTimes(a: nat, b: nat, c: nat)
    requires a <= b
    ensures a * c <= b * c
  {
  }

  lemma FewWaitOrRemain(flights: seq<Flight>, k: nat, m: nat)
    requires AllFair(flights, m) && |flights| <= k
    ensures Sum(flights, Busy) + Sum(flights, Left) <= k * m
  {
    hide AllFair, Sum;
    BusyAndLeft(flights, m);
    AtMostTimes(|flights|, k, m);
  }

  // ---------------------------------------------------------------------------------------
  // The invariant
  // ---------------------------------------------------------------------------------------

  function Failures(t: Circuit.Table, x: string): int {
    if x in t then t[x].failures else 0
  }

  // The circuit of a target that never succeeds: CLOSED exactly below the threshold, HALF_OPEN only
  // after a cooldown.
  predicate EntryHolds(cfg: Circuit.Config, w: World, x: string) {
    x in w.table ==>
      var e := w.table[x];
      && e.failures >= 1 && e.last <= w.now
      && (e.state == Circuit.Closed <==> e.failures < cfg.threshold)
      && (e.state == Circuit.HalfOpen ==> w.now - e.last >= cfg.cooldown)
  }

  // Every attempt so far has failed or is waiting; `atLast` of them had started when the last
  // failure was reported, so all later ones are waiting.
  ghost predicate Accounted(w: World, x: string, atLast: nat) {
    && |w.starts| == Failures(w.table, x) + Sum(w.flights, Busy)
    && (w.starts != [] ==> w.starts[|w.starts| - 1] <= w.now)
    && (x in w.table ==>
          && Failures(w.table, x) <= atLast <= |w.starts| <= atLast + Sum(w.flights, Busy)
          && (atLast > 0 ==> w.starts[atLast - 1] <= w.table[x].last))
  }

  // Once tripped: the attempts before `base` are a cooldown old, or the first few of the run; those
  // since then and all that may still follow before the next admission are at most k * m.
  ghost predicate Quarantined(cfg: Circuit.Config, w: World, x: string, k: nat, m: nat, base: nat) {
    x in w.table && w.table[x].failures >= cfg.threshold ==>
      && cfg.threshold - 1 <= base <= |w.starts|
      && (base >= cfg.threshold && base > 0 ==> w.starts[base - 1] + cfg.cooldown <= w.now)
      && (w.now - w.table[x].last >= cfg.cooldown || |w.starts| - base + Sum(w.flights, Left) <= k * m)
  }

  ghost predicate Inv(cfg: Circuit.Config, w: World, x: string, k: nat, m: nat, atLast: nat, base: nat) {
    && |w.flights| <= k && AllFair(w.flights, m)
    && EntryHolds(cfg, w, x) && Accounted(w, x, atLast) && Quarantined(cfg, w, x, k, m, base)
    && Spacing.Spaced(w.starts, cfg.threshold, cfg.cooldown, k * m)
  }

  lemma AskKeeps(cfg: Circuit.Config, w: World, x: string, k: nat, m: nat, atLast: nat, base: nat, i: nat, at: int)
    requires cfg.Valid() && Inv(cfg, w, x, k, m, atLast, base) && Possible(w, Ask(i, at), x, k, m)
    ensures Inv(cfg, Next(cfg, w, Ask(i, at), x), x, k, m, atLast, base)
  {
    hide Sum, Spacing.Spaced;
    var w' := Next(cfg, w, Ask(i, at), x);
    SumUpdate(w.flights, i, w'.flights[i], Busy);
    SumUpdate(w.flights, i, w'.flights[i], Left);
    assert Fair(w.flights[i], m);
  }

  lemma SendKeeps(cfg: Circuit.Config, w: World, x: string, k: nat, m: nat, atLast: nat, base: nat, i: nat, at: int)
    requires cfg.Valid() && Inv(cfg, w, x, k, m, atLast, base) && Possible(w, Send(i, at), x, k, m)
    ensures Inv(cfg, Next(cfg, w, Send(i, at), x), x, k, m, atLast, base)
  {
    hide Sum, Spacing.Spaced;
    var w' := Next(cfg, w, Send(i, at), x);
    SumUpdate(w.flights, i, w'.flights[i], Busy);
    SumUpdate(w.flights, i, w'.flights[i], Left);
    assert Fair(w.flights[i], m) && m >= 1;
    SumWithout(w.flights, i, Left);
    BusyAndLeft(w'.flights, m);
    AtMostTimes(1, m, k);
    SendKeepsDistance(cfg, w, x, k, m, atLast, base, at);
  }

  // A new attempt starts a cooldown after the one k * m before it, once tripped.
  lemma SendKeepsDistance(cfg: Circuit.Config, w: World, x: string, k: nat, m: nat, atLast: nat, base: nat, at: int)
    requires cfg.Valid() && Inv(cfg, w, x, k, m, atLast, base) && w.now <= at && k <= k * m && k >= 1
    requires Sum(w.flights, Busy) < k && Sum(w.flights, Left) >= 1
    ensures Spacing.Spaced(w.starts + [at], cfg.threshold, cfg.cooldown, k * m)
  {
    hide Sum;
    var n, batch := |w.starts|, k * m;
    if n >= batch && n - batch + 1 >= cfg.threshold {
      assert Failures(w.table, x) >= cfg.threshold;
      if w.now - w.table[x].last >= cfg.cooldown {
        assert n - batch <= atLast - 1 && w.starts[n - batch] <= w.starts[atLast - 1];
      } else {
        assert n - batch <= base - 1 && w.starts[n - batch] <= w.starts[base - 1];
      }
    }
    Spacing.SpacedAppend(w.starts, at, cfg.threshold, cfg.cooldown, batch);
  }

  // A reported failure: those waiting before it are all that started since the one before. If that
  // one was a cooldown ago, or this one trips the circuit, the count starts anew.
  lemma FailKeeps(cfg: Circuit.Config, w: World, x: string, k: nat, m: nat, atLast: nat, base: nat, i: nat, at: int)
    returns (base': nat)
    requires cfg.Valid() && Inv(cfg, w, x, k, m, atLast, base) && Possible(w, Fail(i, at), x, k, m)
    ensures Inv(cfg, Next(cfg, w, Fail(i, at), x), x, k, m, |w.starts|, base')
  {
    hide Sum, Spacing.Spaced;
    var w' := Next(cfg, w, Fail(i, at), x);
    SumUpdate(w.flights, i, w'.flights[i], Busy);
    SumUpdate(w.flights, i, w'.flights[i], Left);
    assert Fair(w.flights[i], m);
    FewWaitOrRemain(w.flights, k, m);
    var n := Failures(w.table, x);
    base' := if n + 1 == cfg.threshold then n
             else if n >= cfg.threshold && at - w.table[x].last >= cfg.cooldown then atLast else base;
  }

  lemma LeaveKeeps(cfg: Circuit.Config, w: World, x: string, k: nat, m: nat, atLast: nat, base: nat, i: nat)
    requires cfg.Valid() && Inv(cfg, w, x, k, m, atLast, base) && Possible(w, Leave(i), x, k, m)
    ensures Inv(cfg, Next(cfg, w, Leave(i), x), x, k, m, atLast, base)
  {
    hide Sum, Spacing.Spaced;
    SumWithout(w.flights, i, Busy);
    SumWithout(w.flights, i, Left);
  }

  lemma EnterKeeps(cfg: Circuit.Config, w: World, x: string, k: nat, m: nat, atLast: nat, base: nat)
    requires cfg.Valid() && Inv(cfg, w, x, k, m, atLast, base) && Possible(w, Enter, x, k, m)
    ensures Inv(cfg, Next(cfg, w, Enter, x), x, k, m, atLast, base)
  {
    hide Sum, Spacing.Spaced;
    var f := Flight(0, 0, 0, false);
    SumConcat(w.flights, [f], Busy);
    SumConcat(w.flights, [f], Left);
    SumOne(f, Busy);
    SumOne(f, Left);
  }

  // Every run keeps the invariant.
  lemma {:induction false} RunsKeep(cfg: Circuit.Config, events: seq<Event>, x: string, begin: int, k: nat, m: nat)
    returns (atLast: nat, base: nat)
    requires cfg.Valid() && Obeys(cfg, events, x, begin, k, m)
    ensures Inv(cfg, Run(cfg, events, x, begin), x, k, m, atLast, base)
  {
    if events == [] {
      atLast, base := 0, 0;
    } else {
      hide Inv, Possible;
      var before, e := events[..|events| - 1], events[|events| - 1];
      atLast, base := RunsKeep(cfg, before, x, begin, k, m);
      var w := Run(cfg, before, x, begin);
      match e
      case Enter => EnterKeeps(cfg, w, x, k, m, atLast, base);
      case Ask(i, at) => AskKeeps(cfg, w, x, k, m, atLast, base, i, at);
      case Send(i, at) => SendKeeps(cfg, w, x, k, m, atLast, base, i, at);
      case Fail(i, at) =>
        base := FailKeeps(cfg, w, x, k, m, atLast, base, i, at);
        atLast := |w.starts|;
      case Leave(i) => LeaveKeeps(cfg, w, x, k, m, atLast, base, i);
      case Elsewhere(op) => ElsewhereKeeps(cfg, w, x, k, m, atLast, base, op);
    }
  }

  lemma ElsewhereKeeps(cfg: Circuit.Config, w: World, x: string, k: nat, m: nat, atLast: nat, base: nat, op: Circuit.Op)
    requires cfg.Valid() && Inv(cfg, w, x, k, m, atLast, base) && Possible(w, Elsewhere(op), x, k, m)
    ensures Inv(cfg, Next(cfg, w, Elsewhere(op), x), x, k, m, atLast, base)
  {
    hide Sum, Spacing.Spaced;
    assert var t := Circuit.Step(cfg, w.table, op); (x in t <==> x in w.table) && (x in t ==> t[x] == w.table[x]);
  }

  // However requests overlap: with at most k of them on their way, each asking for a model that
  // never succeeds at most m times, at most threshold - 1 + k * m * (1 + span / cooldown) attempts
  // on it start within any span.
  lemma OverlapBound(cfg: Circuit.Config, events: seq<Event>, x: string, begin: int, k: nat, m: nat,
                     from: int, span: nat)
    requires cfg.Valid() && k >= 1 && m >= 1 && Obeys(cfg, events, x, begin, k, m)
    ensures Spacing.CountIn(Run(cfg, events, x, begin).starts, from, from + span)
         <= cfg.threshold - 1 + k * m * (1 + span / cfg.cooldown)
  {
    hide Run, Obeys, Spacing.Spaced, Spacing.CountIn;
    var _, _ := RunsKeep(cfg, events, x, begin, k, m);
    AtMostTimes(1, m, k);
    var batch := k * m;
    Spacing.SpacedBound(Run(cfg, events, x, begin).starts, cfg.threshold, cfg.cooldown, batch, from, span);
  }

  // ---------------------------------------------------------------------------------------
  // The bound is attained
  // ---------------------------------------------------------------------------------------

  // A run in which every attempt so far has failed at once, by `at`.
  ghost predicate Stands(cfg: Circuit.Config, events: seq<Event>, x: string, k: nat, m: nat,
                         flights: seq<Flight>, made: nat, at: int) {
    var w := Run(cfg, events, x, 0);
    && Obeys(cfg, events, x, 0, k, m)
    && w.flights == flights && |w.starts| == made && Failures(w.table, x) == made && 0 <= at && w.now <= at
    && (forall i :: 0 <= i < made ==> 0 <= w.starts[i] <= at)
    && EntryHolds(cfg, w, x)
  }

  ghost predicate Open(cfg: Circuit.Config, events: seq<Event>, x: string, at: int) {
    Circuit.Admits(cfg, Run(cfg, events, x, 0).table, x, at)
  }

  ghost predicate LastFailed(cfg: Circuit.Config, events: seq<Event>, x: string, at: int) {
    var t := Run(cfg, events, x, 0).table;
    x in t && t[x].last == at
  }

  lemma RunAppend(cfg: Circuit.Config, events: seq<Event>, e: Event, x: string, begin: int, k: nat, m: nat)
    ensures Run(cfg, events + [e], x, begin) == Next(cfg, Run(cfg, events, x, begin), e, x)
    ensures Obeys(cfg, events, x, begin, k, m) && Possible(Run(cfg, events, x, begin), e, x, k, m)
      ==> Obeys(cfg, events + [e], x, begin, k, m)
  {
    assert (events + [e])[..|events|] == events;
  }

  function Waiting(q: nat): Flight {
    Flight(q, q, 0, false)
  }

  // One more request comes in and gets q admissions.
  lemma {:induction false} RequestAdmitted(cfg: Circuit.Config, start: seq<Event>, x: string, k: nat, m: nat,
                                           flights: seq<Flight>, made: nat, at: int, q: nat)
    returns (events: seq<Event>)
    requires cfg.Valid() && Stands(cfg, start, x, k, m, flights, made, at) && Open(cfg, start, x, at)
    requires |flights| < k && q <= m
    ensures Stands(cfg, events, x, k, m, flights + [Waiting(q)], made, at) && Open(cfg, events, x, at)
  {
    hide Run, Obeys;
    if q == 0 {
      RunAppend(cfg, start, Enter, x, 0, k, m);
      events := start + [Enter];
    } else {
      var before := RequestAdmitted(cfg, start, x, k, m, flights, made, at, q - 1);
      RunAppend(cfg, before, Ask(|flights|, at), x, 0, k, m);
      events := before + [Ask(|flights|, at)];
      assert (flights + [Waiting(q - 1)])[|flights| := Waiting(q)] == flights + [Waiting(q)];
    }
  }

  lemma {:induction false} RequestsAdmitted(cfg: Circuit.Config, start: seq<Event>, x: string, k: nat, m: nat,
                                            made: nat, at: int, n: nat, q: nat)
    returns (events: seq<Event>)
    requires cfg.Valid() && Stands(cfg, start, x, k, m, [], made, at) && Open(cfg, start, x, at)
    requires n <= k && q <= m
    ensures Stands(cfg, events, x, k, m, Repeated(Waiting(q), n), made, at) && Open(cfg, events, x, at)
  {
    hide Stands, Open;
    if n == 0 {
      events := start;
      assert Repeated(Waiting(q), 0) == [];
    } else {
      var before := RequestsAdmitted(cfg, start, x, k, m, made, at, n - 1, q);
      events := RequestAdmitted(cfg, before, x, k, m, Repeated(Waiting(q), n - 1), made, at, q);
      assert Repeated(Waiting(q), n - 1) + [Waiting(q)] == Repeated(Waiting(q), n);
    }
  }

  // The last request uses its admissions, one failure after the other, and leaves.
  lemma {:induction false} RequestFails(cfg: Circuit.Config, start: seq<Event>, x: string, k: nat, m: nat,
                                        flights: seq<Flight>, f: Flight, made: nat, at: int)
    returns (events: seq<Event>)
    requires cfg.Valid() && Stands(cfg, start, x, k, m, flights + [f], made, at) && !f.busy
    requires f.left == 0 ==> LastFailed(cfg, start, x, at)
    ensures Stands(cfg, events, x, k, m, flights, made + f.left, at) && LastFailed(cfg, events, x, at)
    decreases f.left
  {
    hide Run, Obeys;
    var i := |flights|;
    if f.left == 0 {
      RunAppend(cfg, start, Leave(i), x, 0, k, m);
      events := start + [Leave(i)];
      assert (flights + [f])[..i] + (flights + [f])[i + 1..] == flights;
    } else {
      var failed := f.(left := f.left - 1, made := f.made + 1);
      var sent := failed.(busy := true);
      var sending := start + [Send(i, at)];
      RunAppend(cfg, start, Send(i, at), x, 0, k, m);
      assert (flights + [f])[i := sent] == flights + [sent];
      RunAppend(cfg, sending, Fail(i, at), x, 0, k, m);
      assert (flights + [sent])[i := failed] == flights + [failed];
      events := RequestFails(cfg, sending + [Fail(i, at)], x, k, m, flights, failed, made + 1, at);
    }
  }

  lemma {:induction false} RequestsFail(cfg: Circuit.Config, start: seq<Event>, x: string, k: nat, m: nat,
                                        made: nat, at: int, n: nat, q: nat)
    returns (events: seq<Event>)
    requires cfg.Valid() && q >= 1 && Stands(cfg, start, x, k, m, Repeated(Waiting(q), n), made, at)
    requires n == 0 ==> LastFailed(cfg, start, x, at)
    ensures Stands(cfg, events, x, k, m, [], made + n * q, at) && LastFailed(cfg, events, x, at)
    decreases n
  {
    hide Stands, LastFailed;
    if n == 0 {
      events := start;
      assert Repeated(Waiting(q), 0) == [];
    } else {
      assert Repeated(Waiting(q), n) == Repeated(Waiting(q), n - 1) + [Waiting(q)];
      var rest := RequestFails(cfg, start, x, k, m, Repeated(Waiting(q), n - 1), Waiting(q), made, at);
      events := RequestsFail(cfg, rest, x, k, m, made + q, at, n - 1, q);
      assert made + q + (n - 1) * q == made + n * q;
    }
  }

  // n requests get q admissions each before the first of them fails.
  lemma Round(cfg: Circuit.Config, start: seq<Event>, x: string, k: nat, m: nat, made: nat, at: int, n: nat, q: nat)
    returns (events: seq<Event>)
    requires cfg.Valid() && Stands(cfg, start, x, k, m, [], made, at) && Open(cfg, start, x, at)
    requires 1 <= n <= k && 1 <= q <= m
    ensures Stands(cfg, events, x, k, m, [], made + n * q, at) && LastFailed(cfg, events, x, at)
  {
    hide Stands, Open, LastFailed;
    var waiting := RequestsAdmitted(cfg, start, x, k, m, made, at, n, q);
    events := RequestsFail(cfg, waiting, x, k, m, made, at, n, q);
  }

  // Below the threshold, one at a time.
  lemma {:induction false} Singles(cfg: Circuit.Config, x: string, k: nat, m: nat, n: nat)
    returns (events: seq<Event>)
    requires cfg.Valid() && k >= 1 && m >= 1 && n < cfg.threshold
    ensures Stands(cfg, events, x, k, m, [], n, 0) && Open(cfg, events, x, 0)
  {
    if n == 0 {
      events := [];
    } else {
      var before := Singles(cfg, x, k, m, n - 1);
      events := Round(cfg, before, x, k, m, n - 1, 0, 1, 1);
    }
  }

  // Then k requests with m admissions each, again after every cooldown.
  lemma {:induction false} Rounds(cfg: Circuit.Config, x: string, k: nat, m: nat, j: nat)
    returns (events: seq<Event>)
    requires cfg.Valid() && k >= 1 && m >= 1
    ensures Stands(cfg, events, x, k, m, [], cfg.threshold - 1 + k * m * (1 + j), j * cfg.cooldown)
    ensures LastFailed(cfg, events, x, j * cfg.cooldown)
  {
    hide Stands, LastFailed, Open;
    OneRoundMore(k, m, j, cfg.cooldown);
    if j == 0 {
      var singles := Singles(cfg, x, k, m, cfg.threshold - 1);
      events := Round(cfg, singles, x, k, m, cfg.threshold - 1, 0, k, m);
    } else {
      var before := Rounds(cfg, x, k, m, j - 1);
      LaterOpens(cfg, before, x, k, m, cfg.threshold - 1 + k * m * j, (j - 1) * cfg.cooldown);
      events := Round(cfg, before, x, k, m, cfg.threshold - 1 + k * m * j, j * cfg.cooldown, k, m);
    }
  }

  lemma OneRoundMore(k: nat, m: nat, j: nat, cooldown: int)
    ensures k * m * j + k * m == k * m * (1 + j)
    ensures (j - 1) * cooldown + cooldown == j * cooldown
  {
  }

  lemma LaterOpens(cfg: Circuit.Config, events: seq<Event>, x: string, k: nat, m: nat, made: nat, at: int)
    requires cfg.Valid() && Stands(cfg, events, x, k, m, [], made, at) && LastFailed(cfg, events, x, at)
    ensures Stands(cfg, events, x, k, m, [], made, at + cfg.cooldown) && Open(cfg, events, x, at + cfg.cooldown)
  {
  }

  // No smaller bound holds, for any threshold, cooldown, k, m and span.
  lemma OverlapIsAttained(cfg: Circuit.Config, x: string, k: nat, m: nat, span: nat) returns (events: seq<Event>)
    requires cfg.Valid() && k >= 1 && m >= 1
    ensures Obeys(cfg, events, x, 0, k, m)
    ensures Spacing.CountIn(Run(cfg, events, x, 0).starts, 0, span)
         == cfg.threshold - 1 + k * m * (1 + span / cfg.cooldown)
  {
    hide Run, Obeys;
    var j := span / cfg.cooldown;
    events := Rounds(cfg, x, k, m, j);
    Spacing.WholeCooldowns(span, cfg.cooldown);
    Spacing.CountAll(Run(cfg, events, x, 0).starts, 0, span);
  }
}
