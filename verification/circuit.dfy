// The per-target circuit breaker of internal/routing/circuit.go.

module Circuit {
  import opened Common

  const DEFAULT_THRESHOLD: int := 5
  const DEFAULT_COOLDOWN: int := 30 * SECOND

  datatype State = Closed | Open | HalfOpen

  datatype Config = Config(threshold: int, cooldown: int)
  {
    predicate Valid() {
      threshold > 0 && cooldown > 0
    }
  }

  // A target's entry: failures counts those since the last success.
  datatype Entry = Entry(failures: int, last: int, state: State)

  type Table = map<string, Entry>

  // One locked section of the breaker: Allow, RecordSuccess or RecordFailure on a target.
  datatype Event = Ask(at: int) | Success | Failure(at: int)

  datatype Op = Op(target: string, event: Event)

  function Normalize(cfg: Config): Config {
    Config(if cfg.threshold <= 0 then DEFAULT_THRESHOLD else cfg.threshold,
           if cfg.cooldown <= 0 then DEFAULT_COOLDOWN else cfg.cooldown)
  }

  predicate Admits(cfg: Config, t: Table, target: string, now: int) {
    target in t && t[target].state == Open ==> now - t[target].last >= cfg.cooldown
  }

  function Reported(cfg: Config, t: Table, target: string, now: int): State {
    if target !in t then Closed
    else if t[target].state == Open && now - t[target].last >= cfg.cooldown then HalfOpen
    else t[target].state
  }

  function Asked(cfg: Config, e: Entry, now: int): Entry {
    if e.state == Open && now - e.last >= cfg.cooldown then e.(state := HalfOpen) else e
  }

  function Failed(cfg: Config, e: Entry, now: int): Entry {
    Entry(e.failures + 1, now, if e.failures + 1 >= cfg.threshold then Open else e.state)
  }

  function Step(cfg: Config, t: Table, op: Op): Table {
    match op.event
    case Ask(now) => if op.target in t then t[op.target := Asked(cfg, t[op.target], now)] else t
    case Success =>
      if op.target in t then t[op.target := t[op.target].(failures := 0, state := Closed)] else t
    case Failure(now) =>
      var e := if op.target in t then t[op.target] else Entry(0, 0, Closed);
      t[op.target := Failed(cfg, e, now)]
  }

  function Fold(cfg: Config, t: Table, ops: seq<Op>): Table {
    if ops == [] then t else Step(cfg, Fold(cfg, t, ops[..|ops| - 1]), ops[|ops| - 1])
  }

  lemma {:induction false} FoldConcat(cfg: Config, t: Table, a: seq<Op>, b: seq<Op>)
    ensures Fold(cfg, t, a + b) == Fold(cfg, Fold(cfg, t, a), b)
  {
    if b == [] {
      assert a + b == a;
    } else {
      assert (a + b)[..|a + b| - 1] == a + b[..|b| - 1];
      FoldConcat(cfg, t, a, b[..|b| - 1]);
    }
  }

  // ---------------------------------------------------------------------------------------
  // The breaker object
  // ---------------------------------------------------------------------------------------

  class TargetState {
    var failures: int
    var lastFailureTime: int
    var state: State

    constructor ()
      ensures failures == 0 && lastFailureTime == 0 && state == Closed
    {
      failures, lastFailureTime, state := 0, 0, Closed;
    }

    function Value(): Entry
      reads this
    {
      Entry(failures, lastFailureTime, state)
    }

    method Fail(cfg: Config, now: int)
      modifies this
      ensures Value() == Failed(cfg, old(Value()), now)
    {
      failures := failures + 1;
      lastFailureTime := now;
      if failures >= cfg.threshold {
        state := Open;
      }
    }
  }

  class CircuitBreaker {
    const cfg: Config
    var targets: map<string, TargetState>

    ghost var Contents: Table
    ghost var States: set<TargetState>

    // Contents is what the states hold; no two targets share a state.
    ghost predicate Valid()
      reads this, States
    {
      && Contents.Keys == targets.Keys
      && (forall k :: k in targets ==> targets[k] in States && Contents[k] == targets[k].Value())
      && (forall a, b :: a in targets && b in targets && targets[a] == targets[b] ==> a == b)
    }

    constructor (cfg: Config)
      ensures Valid() && this.cfg == Normalize(cfg) && this.cfg.Valid()
      ensures this.cfg.threshold == if cfg.threshold > 0 then cfg.threshold else 5
      ensures this.cfg.cooldown == if cfg.cooldown > 0 then cfg.cooldown else 30_000_000_000
      ensures Contents == map[] && States == {}
    {
      this.cfg := Normalize(cfg);
      targets, Contents, States := map[], map[], {};
    }

    method Allow(target: string, now: int) returns (allowed: bool)
      requires Valid()
      modifies this`Contents, States
      ensures Valid()
      ensures allowed == Admits(cfg, old(Contents), target, now)
      ensures Contents == Step(cfg, old(Contents), Op(target, Ask(now)))
    {
      if target !in targets {
        return true;
      }
      var ts := targets[target];
      if ts.state == Open {
        if now - ts.lastFailureTime >= cfg.cooldown {
          ts.state := HalfOpen;
          Contents := Contents[target := ts.Value()];
          return true;
        }
        return false;
      }
      return true;
    }

    method RecordSuccess(target: string)
      requires Valid()
      modifies this`Contents, States
      ensures Valid() && Contents == Step(cfg, old(Contents), Op(target, Success))
    {
      if target in targets {
        var ts := targets[target];
        ts.failures := 0;
        ts.state := Closed;
        Contents := Contents[target := ts.Value()];
      }
    }

    // The state of a target, created CLOSED on its first failure.
    method StateOf(target: string) returns (ts: TargetState)
      requires Valid()
      modifies this
      ensures Valid() && fresh(States - old(States))
      ensures ts in States && target in targets && targets[target] == ts
      ensures ts.Value() == if target in old(Contents) then old(Contents)[target] else Entry(0, 0, Closed)
      ensures Contents == old(Contents)[target := ts.Value()]
    {
      if target in targets {
        ts := targets[target];
      } else {
        ts := new TargetState();
        targets, Contents, States := targets[target := ts], Contents[target := ts.Value()], States + {ts};
      }
    }

    // Failing a state changes that target's entry and no other.
    method FailState(target: string, ts: TargetState, now: int)
      requires Valid() && target in targets && targets[target] == ts
      modifies ts, this`Contents
      ensures Valid() && Contents == old(Contents)[target := Failed(cfg, old(ts.Value()), now)]
    {
      ts.Fail(cfg, now);
      Contents := Contents[target := ts.Value()];
    }

    method RecordFailure(target: string, now: int)
      requires Valid()
      modifies this, States
      ensures Valid() && fresh(States - old(States))
      ensures Contents == Step(cfg, old(Contents), Op(target, Failure(now)))
    {
      hide Valid;
      var ts := StateOf(target);
      FailState(target, ts, now);
    }

    method GetState(target: string, now: int) returns (s: State)
      requires Valid()
      ensures s == Reported(cfg, Contents, target, now)
    {
      if target !in targets {
        return Closed;
      }
      var ts := targets[target];
      if ts.state == Open && now - ts.lastFailureTime >= cfg.cooldown {
        return HalfOpen;
      }
      return ts.state;
    }
  }

  // ---------------------------------------------------------------------------------------
  // Runs: the table is a cached function of the success/failure history and the clock
  // ---------------------------------------------------------------------------------------

  function Run(cfg: Config, ops: seq<Op>): Table {
    Fold(cfg, map[], ops)
  }

  // The clock never runs backwards along `ops`, and has not passed `now` at their end.
  predicate Timely(ops: seq<Op>, now: int) {
    ops != [] ==>
      var op := ops[|ops| - 1];
      match op.event
      case Success => Timely(ops[..|ops| - 1], now)
      case Ask(at) => at <= now && Timely(ops[..|ops| - 1], at)
      case Failure(at) => at <= now && Timely(ops[..|ops| - 1], at)
  }

  // How many failures of `x` follow its last success.
  function Trailing(ops: seq<Op>, x: string): nat {
    if ops == [] then 0
    else
      var before, op := ops[..|ops| - 1], ops[|ops| - 1];
      if op.target != x then Trailing(before, x)
      else match op.event
        case Ask(_) => Trailing(before, x)
        case Success => 0
        case Failure(_) => Trailing(before, x) + 1
  }

  // When `x` last failed.
  function LastFailure(ops: seq<Op>, x: string): Option<int> {
    if ops == [] then None
    else
      var before, op := ops[..|ops| - 1], ops[|ops| - 1];
      if op.target == x && op.event.Failure? then Some(op.event.at) else LastFailure(before, x)
  }

  // The circuit of `x`, told by its history alone.
  predicate Tripped(cfg: Config, ops: seq<Op>, x: string) {
    Trailing(ops, x) >= cfg.threshold
  }

  predicate Cooling(cfg: Config, ops: seq<Op>, x: string, now: int) {
    LastFailure(ops, x).Some? && now - LastFailure(ops, x).value < cfg.cooldown
  }

  // What every reachable entry satisfies: the counter is the trailing run of failures, it is
  // CLOSED exactly below the threshold, and HALF_OPEN only once a full cooldown has passed.
  ghost predicate Faithful(cfg: Config, t: Table, ops: seq<Op>, x: string, now: int) {
    && (x !in t ==> Trailing(ops, x) == 0 && LastFailure(ops, x).None?)
    && (x in t ==>
          && LastFailure(ops, x) == Some(t[x].last) && t[x].last <= now
          && t[x].failures == Trailing(ops, x)
          && (t[x].state == Closed <==> t[x].failures < cfg.threshold)
          && (t[x].state == HalfOpen ==> now - t[x].last >= cfg.cooldown))
  }

  lemma {:induction false} TableIsFaithful(cfg: Config, ops: seq<Op>, x: string, now: int)
    requires cfg.Valid() && Timely(ops, now)
    ensures Faithful(cfg, Run(cfg, ops), ops, x, now)
  {
    if ops != [] {
      var before, op := ops[..|ops| - 1], ops[|ops| - 1];
      var at := if op.event.Success? then now else op.event.at;
      TableIsFaithful(cfg, before, x, at);
    }
  }

  // Allow refuses a target exactly when the failures since its last success reach the threshold
  // and the last of them is less than a cooldown old. The stored state adds nothing.
  lemma AllowByHistory(cfg: Config, ops: seq<Op>, x: string, now: int)
    requires cfg.Valid() && Timely(ops, now)
    ensures Admits(cfg, Run(cfg, ops), x, now) <==> !(Tripped(cfg, ops, x) && Cooling(cfg, ops, x, now))
  {
    TableIsFaithful(cfg, ops, x, now);
  }

  // No single probe: once a cooldown is over, and no earlier, two callers at one moment are both
  // admitted, the second of them from HALF_OPEN.
  lemma HalfOpenAdmitsMore(x: string)
    ensures var cfg, failed := Config(1, 10), [Op(x, Failure(0))];
            var asked := failed + [Op(x, Ask(10))];
            && Run(cfg, failed)[x].state == Open
            && !Admits(cfg, Run(cfg, failed), x, 9) && Admits(cfg, Run(cfg, failed), x, 10)
            && Run(cfg, asked)[x].state == HalfOpen && Admits(cfg, Run(cfg, asked), x, 10)
  {
    var cfg, failed := Config(1, 10), [Op(x, Failure(0))];
    assert failed[..0] == [] && Fold(cfg, map[], failed[..0]) == map[];
    assert Run(cfg, failed) == map[x := Entry(1, 0, Open)];
    assert (failed + [Op(x, Ask(10))])[..1] == failed;
  }

  lemma StateByHistory(cfg: Config, ops: seq<Op>, x: string, now: int)
    requires cfg.Valid() && Timely(ops, now)
    ensures Reported(cfg, Run(cfg, ops), x, now)
         == if !Tripped(cfg, ops, x) then Closed else if Cooling(cfg, ops, x, now) then Open else HalfOpen
    ensures Reported(cfg, Run(cfg, ops), x, now) == Open <==> !Admits(cfg, Run(cfg, ops), x, now)
  {
    TableIsFaithful(cfg, ops, x, now);
  }

  function WithoutAsks(ops: seq<Op>): seq<Op> {
    if ops == [] then []
    else
      var before, op := ops[..|ops| - 1], ops[|ops| - 1];
      if op.event.Ask? then WithoutAsks(before) else WithoutAsks(before) + [op]
  }

  lemma {:induction false} HistoryIgnoresAsks(ops: seq<Op>, x: string)
    ensures Trailing(WithoutAsks(ops), x) == Trailing(ops, x)
    ensures LastFailure(WithoutAsks(ops), x) == LastFailure(ops, x)
  {
    if ops != [] {
      var before, op := ops[..|ops| - 1], ops[|ops| - 1];
      HistoryIgnoresAsks(before, x);
      if !op.event.Ask? {
        assert (WithoutAsks(before) + [op])[..|WithoutAsks(before)|] == WithoutAsks(before);
      }
    }
  }

  // Allow's OPEN to HALF_OPEN write is unobservable: two runs that differ only in where Allow was
  // called answer every later Allow and GetState alike.
  lemma AsksAreUnobservable(cfg: Config, a: seq<Op>, b: seq<Op>, x: string, now: int)
    requires cfg.Valid() && Timely(a, now) && Timely(b, now)
    requires WithoutAsks(a) == WithoutAsks(b)
    ensures Admits(cfg, Run(cfg, a), x, now) == Admits(cfg, Run(cfg, b), x, now)
    ensures Reported(cfg, Run(cfg, a), x, now) == Reported(cfg, Run(cfg, b), x, now)
  {
    HistoryIgnoresAsks(a, x);
    HistoryIgnoresAsks(b, x);
    StateByHistory(cfg, a, x, now);
    StateByHistory(cfg, b, x, now);
  }

  // HALF_OPEN is entered only from OPEN, by an Allow after a full cooldown; it is left by one
  // failure, which reopens, or by a success, which closes from any state. Nothing else moves it.
  lemma HalfOpenTransitions(cfg: Config, ops: seq<Op>, op: Op, x: string, now: int)
    requires cfg.Valid() && Timely(ops + [op], now)
    requires x in Run(cfg, ops)
    ensures x in Run(cfg, ops + [op])
    ensures var e, e' := Run(cfg, ops)[x], Run(cfg, ops + [op])[x];
            && (e'.state == HalfOpen && e.state != HalfOpen
                ==> e.state == Open && op.target == x && op.event.Ask? && op.event.at - e.last >= cfg.cooldown)
            && (e.state == HalfOpen && op.target == x && op.event.Failure? ==> e'.state == Open)
            && (op.target == x && op.event.Success? ==> e'.state == Closed)
            && (e.state == HalfOpen && (op.target != x || op.event.Ask?) ==> e' == e)
  {
    assert (ops + [op])[..|ops|] == ops;
    var at := if op.event.Success? then now else op.event.at;
    TableIsFaithful(cfg, ops, x, at);
  }

  // A target with no new failures is admitted again once the cooldown is over.
  lemma AdmittedAfterCooldown(cfg: Config, ops: seq<Op>, more: seq<Op>, x: string, now: int)
    requires cfg.Valid() && Timely(ops + more, now)
    requires LastFailure(ops + more, x) == LastFailure(ops, x)
    requires LastFailure(ops, x).Some? ==> now - LastFailure(ops, x).value >= cfg.cooldown
    ensures Admits(cfg, Run(cfg, ops + more), x, now)
  {
    AllowByHistory(cfg, ops + more, x, now);
  }
}
