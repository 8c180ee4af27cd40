// Alias resolution over the circuit breaker, internal/routing/engine.go.

module Routing {
  import opened Common
  import Text
  import Circuit

  type Aliases = map<string, seq<string>>

  datatype Decision = Decision(target: string, fallback: seq<string>, isAlias: bool, reason: string)
  {
    // The models a request is sent to, in order.
    function Targets(): seq<string> {
      [target] + fallback
    }
  }

  // The time of the i-th breaker query of a resolution.
  type Asks = nat -> int

  // What asking about each of `targets` in turn does to the breaker, and which are let through.
  function AskAll(targets: seq<string>, asks: Asks): seq<Circuit.Op> {
    seq(|targets|, i requires 0 <= i < |targets| => Circuit.Op(targets[i], Circuit.Ask(asks(i))))
  }

  function Healthy(cfg: Circuit.Config, t: Circuit.Table, targets: seq<string>, asks: Asks): seq<string> {
    if targets == [] then []
    else
      var before, x := targets[..|targets| - 1], targets[|targets| - 1];
      var t' := Circuit.Fold(cfg, t, AskAll(before, asks));
      if Circuit.Admits(cfg, t', x, asks(|before|))
      then Healthy(cfg, t, before, asks) + [x]
      else Healthy(cfg, t, before, asks)
  }

  // The empty string doubles as "not chosen yet", so an empty target can only be a fallback.
  function Usable(healthy: seq<string>): seq<string> {
    if healthy != [] && healthy[0] == "" then Usable(healthy[1..]) else healthy
  }

  function Candidates(cfg: Circuit.Config, t: Circuit.Table, aliases: Aliases, model: string, asks: Asks): seq<string> {
    var key := Text.ToLower(model);
    if key in aliases then Usable(Healthy(cfg, t, aliases[key], asks))
    else if Circuit.Admits(cfg, t, model, asks(0)) then [model] else []
  }

  // The targets one resolution queries: the alias's, or the model itself.
  function Listed(aliases: Aliases, model: string): seq<string> {
    var key := Text.ToLower(model);
    if key in aliases then aliases[key] else [model]
  }

  // The breaker queries it makes.
  function Queries(aliases: Aliases, model: string, asks: Asks): seq<Circuit.Op> {
    AskAll(Listed(aliases, model), asks)
  }

  // Why a model was resolved as it was: only the name matters, not its case or the breaker.
  function ReasonFor(aliases: Aliases, model: string): string {
    if Text.ToLower(model) in aliases then "RESOLVED_ALIAS_" + Text.ToUpper(model) else "DIRECT_MODEL"
  }

  class Engine {
    const circuitBreaker: Circuit.CircuitBreaker
    var aliases: Aliases

    ghost predicate Valid()
      reads this, circuitBreaker, circuitBreaker.States
    {
      circuitBreaker.Valid()
    }

    // A fresh engine with the built-in aliases, over the given breaker or a new one with defaults.
    constructor (cb: Circuit.CircuitBreaker?)
      requires cb != null ==> cb.Valid()
      ensures Valid() && (cb != null ==> circuitBreaker == cb)
      ensures cb == null ==>
                && fresh(circuitBreaker) && circuitBreaker.Contents == map[]
                && circuitBreaker.cfg == Circuit.Config(Circuit.DEFAULT_THRESHOLD, Circuit.DEFAULT_COOLDOWN)
      ensures aliases == map["coding" := ["cc-sonnet", "cc-haiku"], "fast" := ["cc-haiku", "gemini-flash"],
                             "reasoning" := ["cc-opus", "cc-sonnet"], "cheap" := ["cc-haiku"], "free" := ["cc-haiku"]]
    {
      var breaker := cb;
      if breaker == null {
        breaker := new Circuit.CircuitBreaker(Circuit.Config(0, 0));
      }
      circuitBreaker := breaker;
      aliases := map["coding" := ["cc-sonnet", "cc-haiku"], "fast" := ["cc-haiku", "gemini-flash"],
                     "reasoning" := ["cc-opus", "cc-sonnet"], "cheap" := ["cc-haiku"], "free" := ["cc-haiku"]];
    }

    method SetAlias(alias: string, targets: seq<string>)
      modifies this
      ensures aliases == old(aliases)[Text.ToLower(alias) := targets]
      ensures forall spelled :: Text.SameButCase(spelled, alias) ==> Listed(aliases, spelled) == targets
    {
      forall spelled | Text.SameButCase(spelled, alias)
        ensures Text.ToLower(spelled) == Text.ToLower(alias)
      {
        Text.FoldIgnoresExactlyCase(spelled, alias);
      }
      aliases := aliases[Text.ToLower(alias) := targets];
    }

    method DeleteAlias(name: string) returns (ok: bool)
      modifies this
      ensures ok == (Text.ToLower(name) in old(aliases))
      ensures aliases == old(aliases) - {Text.ToLower(name)}
      ensures forall spelled :: Text.SameButCase(spelled, name) ==> Listed(aliases, spelled) == [spelled]
    {
      forall spelled | Text.SameButCase(spelled, name)
        ensures Text.ToLower(spelled) == Text.ToLower(name)
      {
        Text.FoldIgnoresExactlyCase(spelled, name);
      }
      var key := Text.ToLower(name);
      if key !in aliases {
        return false;
      }
      aliases := aliases - {key};
      return true;
    }

    method Resolve(model: string, asks: Asks) returns (decision: Option<Decision>)
      requires Valid()
      modifies circuitBreaker`Contents, circuitBreaker.States
      ensures Valid()
      ensures circuitBreaker.Contents
           == Circuit.Fold(circuitBreaker.cfg, old(circuitBreaker.Contents), Queries(aliases, model, asks))
      ensures var candidates := Candidates(circuitBreaker.cfg, old(circuitBreaker.Contents), aliases, model, asks);
              && (decision.None? <==> candidates == [])
              && (decision.Some? ==> decision.value.Targets() == candidates)
      ensures decision.Some? ==> decision.value.isAlias == (Text.ToLower(model) in aliases)
      ensures decision.Some? ==> decision.value.reason == ReasonFor(aliases, model)
    {
      var aliasKey := Text.ToLower(model);
      if aliasKey !in aliases {
        var allowed := circuitBreaker.Allow(model, asks(0));
        FoldOne(circuitBreaker.cfg, old(circuitBreaker.Contents), model, asks);
        return if allowed then Some(Decision(model, [], false, "DIRECT_MODEL")) else None;
      }
      var chosenTarget, fallbackChain := ScanTargets(aliases[aliasKey], asks);
      if chosenTarget == "" {
        return None;
      }
      return Some(Decision(chosenTarget, fallbackChain, true, "RESOLVED_ALIAS_" + Text.ToUpper(aliasKey)));
    }

    // The loop of Resolve: pick the first healthy target and collect the others.
    method ScanTargets(targets: seq<string>, asks: Asks) returns (chosen: string, fallback: seq<string>)
      requires Valid()
      modifies circuitBreaker`Contents, circuitBreaker.States
      ensures Valid()
      ensures circuitBreaker.Contents
           == Circuit.Fold(circuitBreaker.cfg, old(circuitBreaker.Contents), AskAll(targets, asks))
      ensures Split(chosen, fallback, Healthy(circuitBreaker.cfg, old(circuitBreaker.Contents), targets, asks))
    {
      hide Circuit.Fold, Circuit.Step, Circuit.Admits, Healthy, Usable;
      EmptyScan(circuitBreaker.cfg, circuitBreaker.Contents, targets, asks);
      chosen, fallback := "", [];
      ghost var cfg, before := circuitBreaker.cfg, circuitBreaker.Contents;
      for i := 0 to |targets|
        invariant Valid() && circuitBreaker.targets == old(circuitBreaker.targets)
        invariant circuitBreaker.Contents == Circuit.Fold(cfg, before, AskAll(targets[..i], asks))
        invariant Split(chosen, fallback, Healthy(cfg, before, targets[..i], asks))
      {
        AskOneMore(cfg, before, targets, asks, i);
        var allowed := circuitBreaker.Allow(targets[i], asks(i));
        if allowed {
          UsableAppend(Healthy(cfg, before, targets[..i], asks), targets[i]);
          if chosen == "" {
            chosen := targets[i];
          } else {
            fallback := fallback + [targets[i]];
          }
        }
      }
      assert targets[..|targets|] == targets;
    }
  }

  // `chosen` and `fallback` are what is usable among the healthy targets, head and tail.
  predicate Split(chosen: string, fallback: seq<string>, healthy: seq<string>) {
    if chosen == "" then Usable(healthy) == [] && fallback == []
    else Usable(healthy) == [chosen] + fallback
  }

  lemma EmptyScan(cfg: Circuit.Config, t: Circuit.Table, targets: seq<string>, asks: Asks)
    ensures Circuit.Fold(cfg, t, AskAll(targets[..0], asks)) == t
    ensures Split("", [], Healthy(cfg, t, targets[..0], asks))
  {
  }

  lemma FoldOne(cfg: Circuit.Config, t: Circuit.Table, x: string, asks: Asks)
    ensures Circuit.Fold(cfg, t, AskAll([x], asks)) == Circuit.Step(cfg, t, Circuit.Op(x, Circuit.Ask(asks(0))))
  {
    assert AskAll([x], asks) == [Circuit.Op(x, Circuit.Ask(asks(0)))];
    assert AskAll([x], asks)[..0] == [];
  }

  lemma AskOneMore(cfg: Circuit.Config, t: Circuit.Table, targets: seq<string>, asks: Asks, i: nat)
    requires i < |targets|
    ensures Circuit.Fold(cfg, t, AskAll(targets[..i + 1], asks))
         == Circuit.Step(cfg, Circuit.Fold(cfg, t, AskAll(targets[..i], asks)),
                         Circuit.Op(targets[i], Circuit.Ask(asks(i))))
    ensures Healthy(cfg, t, targets[..i + 1], asks)
         == if Circuit.Admits(cfg, Circuit.Fold(cfg, t, AskAll(targets[..i], asks)), targets[i], asks(i))
            then Healthy(cfg, t, targets[..i], asks) + [targets[i]] else Healthy(cfg, t, targets[..i], asks)
  {
    assert targets[..i + 1][..i] == targets[..i];
    var ops := AskAll(targets[..i + 1], asks);
    assert ops[..i] == AskAll(targets[..i], asks);
  }

  lemma {:induction false} UsableAppend(healthy: seq<string>, x: string)
    ensures Usable(healthy + [x])
         == if Usable(healthy) == [] && x == "" then [] else Usable(healthy) + [x]
  {
    if healthy != [] && healthy[0] == "" {
      assert (healthy + [x])[1..] == healthy[1..] + [x];
      UsableAppend(healthy[1..], x);
    } else if healthy == [] {
      assert healthy + [x] == [x] && [x][1..] == [];
    }
  }

  // ---------------------------------------------------------------------------------------
  // What resolution means
  // ---------------------------------------------------------------------------------------

  // Spelling an alias in another case asks for the same targets and gets the same candidates.
  lemma CaseOfAliasIsIrrelevant(cfg: Circuit.Config, t: Circuit.Table, aliases: Aliases, a: string, b: string,
                                asks: Asks)
    requires Text.SameButCase(a, b) && Text.ToLower(a) in aliases
    ensures Candidates(cfg, t, aliases, a, asks) == Candidates(cfg, t, aliases, b, asks)
    ensures Listed(aliases, a) == Listed(aliases, b) == aliases[Text.ToLower(a)]
  {
    Text.FoldIgnoresExactlyCase(a, b);
  }

  // The built-in alias in capitals, over a breaker that knows nothing ...
  lemma CodingInCapitals(cfg: Circuit.Config, asks: Asks)
    ensures var aliases := map["coding" := ["cc-sonnet", "cc-haiku"]];
            && Candidates(cfg, map[], aliases, "CODING", asks) == ["cc-sonnet", "cc-haiku"]
            && Candidates(cfg, map[], aliases, "Coding", asks) == ["cc-sonnet", "cc-haiku"]
            && ReasonFor(aliases, "Coding") == "RESOLVED_ALIAS_CODING"
  {
    var aliases, targets := map["coding" := ["cc-sonnet", "cc-haiku"]], ["cc-sonnet", "cc-haiku"];
    assert Text.ToLower("CODING") == "coding" && Text.ToLower("Coding") == "coding";
    assert Text.ToUpper("Coding") == "CODING";
    UnknownHealthy(cfg, targets, asks);
  }

  // ... and a model that is no alias, which keeps its spelling.
  lemma DirectModelKeepsItsCase(cfg: Circuit.Config, asks: Asks)
    ensures Candidates(cfg, map[], map["coding" := ["cc-sonnet"]], "GPT-4", asks) == ["GPT-4"]
    ensures Queries(map["coding" := ["cc-sonnet"]], "GPT-4", asks) == [Circuit.Op("GPT-4", Circuit.Ask(asks(0)))]
    ensures ReasonFor(map["coding" := ["cc-sonnet"]], "GPT-4") == "DIRECT_MODEL"
  {
    assert |Text.ToLower("GPT-4")| == 5;
  }

  lemma {:induction false} UnknownHealthy(cfg: Circuit.Config, targets: seq<string>, asks: Asks)
    ensures Circuit.Fold(cfg, map[], AskAll(targets, asks)) == map[]
    ensures Healthy(cfg, map[], targets, asks) == targets
  {
    if targets != [] {
      var n := |targets| - 1;
      UnknownHealthy(cfg, targets[..n], asks);
      assert AskAll(targets, asks)[..n] == AskAll(targets[..n], asks);
    }
  }

  // The targets the breaker, as it stood before the request, lets through at their query times.
  function Filtered(cfg: Circuit.Config, t: Circuit.Table, targets: seq<string>, asks: Asks): seq<string> {
    if targets == [] then []
    else
      var before, x := targets[..|targets| - 1], targets[|targets| - 1];
      if Circuit.Admits(cfg, t, x, asks(|before|))
      then Filtered(cfg, t, before, asks) + [x]
      else Filtered(cfg, t, before, asks)
  }

  // Queries only ever turn OPEN into HALF_OPEN, and only for targets that pass from then on.
  lemma {:induction false} AsksKeepAnswers(cfg: Circuit.Config, t: Circuit.Table, targets: seq<string>,
                                           asks: Asks, x: string, now: int)
    requires forall i, j :: 0 <= i <= j < |targets| ==> asks(i) <= asks(j)
    requires forall i :: 0 <= i < |targets| ==> asks(i) <= now
    ensures var t' := Circuit.Fold(cfg, t, AskAll(targets, asks));
            && (x in t' <==> x in t)
            && (x in t ==> t'[x] == t[x] || (t'[x] == t[x].(state := Circuit.HalfOpen)
                                             && t[x].state == Circuit.Open && now - t[x].last >= cfg.cooldown))
    ensures Circuit.Admits(cfg, Circuit.Fold(cfg, t, AskAll(targets, asks)), x, now) == Circuit.Admits(cfg, t, x, now)
  {
    if targets != [] {
      var n := |targets| - 1;
      assert AskAll(targets, asks)[..n] == AskAll(targets[..n], asks);
      AsksKeepAnswers(cfg, t, targets[..n], asks, x, asks(n));
    }
  }

  // Resolve filters the alias's targets through the breaker while its own queries change that
  // breaker; the outcome is as if every target had been looked up in the breaker it started from.
  lemma {:induction false} HealthyIsFiltered(cfg: Circuit.Config, t: Circuit.Table, targets: seq<string>, asks: Asks)
    requires forall i, j :: 0 <= i <= j < |targets| ==> asks(i) <= asks(j)
    ensures Healthy(cfg, t, targets, asks) == Filtered(cfg, t, targets, asks)
  {
    if targets != [] {
      var n := |targets| - 1;
      HealthyIsFiltered(cfg, t, targets[..n], asks);
      AsksKeepAnswers(cfg, t, targets[..n], asks, targets[n], asks(n));
    }
  }

  lemma {:induction false} UsableSkipsOnlyEmpty(healthy: seq<string>)
    ensures Usable(healthy) == [] <==> forall i :: 0 <= i < |healthy| ==> healthy[i] == ""
    ensures (forall i :: 0 <= i < |healthy| ==> healthy[i] != "") ==> Usable(healthy) == healthy
    ensures |Usable(healthy)| <= |healthy| && Usable(healthy) == healthy[|healthy| - |Usable(healthy)|..]
    ensures Usable(healthy) != [] ==> Usable(healthy)[0] != ""
  {
    if healthy != [] && healthy[0] == "" {
      UsableSkipsOnlyEmpty(healthy[1..]);
    }
  }

  // The filtered list holds exactly the admitted occurrences, in order.
  lemma {:induction false} FilteredElements(cfg: Circuit.Config, t: Circuit.Table, targets: seq<string>,
                                            asks: Asks, x: string)
    ensures x in Filtered(cfg, t, targets, asks)
       <==> exists i :: 0 <= i < |targets| && targets[i] == x && Circuit.Admits(cfg, t, x, asks(i))
  {
    if targets != [] {
      var n := |targets| - 1;
      FilteredElements(cfg, t, targets[..n], asks, x);
      if targets[n] == x && Circuit.Admits(cfg, t, x, asks(n)) {
      } else if i :| 0 <= i < |targets| && targets[i] == x && Circuit.Admits(cfg, t, x, asks(i)) {
        assert targets[..n][i] == x;
      }
    }
  }

  lemma {:induction false} AdmittedAllPass(cfg: Circuit.Config, t: Circuit.Table, targets: seq<string>, asks: Asks)
    requires forall i :: 0 <= i < |targets| ==> Circuit.Admits(cfg, t, targets[i], asks(i))
    ensures Filtered(cfg, t, targets, asks) == targets
  {
    if targets != [] {
      AdmittedAllPass(cfg, t, targets[..|targets| - 1], asks);
    }
  }

  // The loop takes over the i-th target, as the primary or a fallback: the breaker admits it, and
  // if it is empty another one has been chosen before.
  predicate Taken(cfg: Circuit.Config, t: Circuit.Table, targets: seq<string>, asks: Asks, i: nat)
    requires i < |targets|
  {
    && Circuit.Admits(cfg, t, targets[i], asks(i))
    && (targets[i] != "" || exists k :: 0 <= k < i && targets[k] != "" && Circuit.Admits(cfg, t, targets[k], asks(k)))
  }

  lemma TakenInPrefix(cfg: Circuit.Config, t: Circuit.Table, targets: seq<string>, asks: Asks, n: nat, i: nat)
    requires i < n <= |targets|
    ensures Taken(cfg, t, targets[..n], asks, i) == Taken(cfg, t, targets, asks, i)
  {
    assert forall k :: 0 <= k < n ==> targets[..n][k] == targets[k];
  }

  // What is resolved to holds exactly the targets taken over.
  lemma {:induction false} TakenElements(cfg: Circuit.Config, t: Circuit.Table, targets: seq<string>,
                                         asks: Asks, x: string)
    ensures x in Usable(Filtered(cfg, t, targets, asks))
       <==> exists i :: 0 <= i < |targets| && targets[i] == x && Taken(cfg, t, targets, asks, i)
  {
    if targets != [] {
      var n := |targets| - 1;
      var before := Filtered(cfg, t, targets[..n], asks);
      TakenElements(cfg, t, targets[..n], asks, x);
      forall i: nat | i < n
        ensures Taken(cfg, t, targets[..n], asks, i) == Taken(cfg, t, targets, asks, i)
      {
        TakenInPrefix(cfg, t, targets, asks, n, i);
      }
      LastIsTaken(cfg, t, targets, asks);
      if i :| 0 <= i < n && targets[i] == x && Taken(cfg, t, targets, asks, i) {
        assert targets[..n][i] == x;
      }
    }
  }

  // The last target of a list is taken over exactly when it extends what is resolved to.
  lemma LastIsTaken(cfg: Circuit.Config, t: Circuit.Table, targets: seq<string>, asks: Asks)
    requires targets != []
    ensures var n := |targets| - 1;
            var before := Usable(Filtered(cfg, t, targets[..n], asks));
            Usable(Filtered(cfg, t, targets, asks))
            == if Taken(cfg, t, targets, asks, n) then before + [targets[n]] else before
  {
    hide Circuit.Admits, Usable;
    var n := |targets| - 1;
    var before := Filtered(cfg, t, targets[..n], asks);
    UsableAppend(before, targets[n]);
    SomeChosen(cfg, t, targets[..n], asks);
    assert forall k :: 0 <= k < n ==> targets[..n][k] == targets[k];
    if k :| 0 <= k < n && targets[k] != "" && Circuit.Admits(cfg, t, targets[k], asks(k)) {
      assert targets[..n][k] == targets[k];
      assert Usable(before) != [];
    }
  }

  lemma SomeChosen(cfg: Circuit.Config, t: Circuit.Table, targets: seq<string>, asks: Asks)
    ensures Usable(Filtered(cfg, t, targets, asks)) != []
       <==> exists k :: 0 <= k < |targets| && targets[k] != "" && Circuit.Admits(cfg, t, targets[k], asks(k))
  {
    var filtered := Filtered(cfg, t, targets, asks);
    UsableSkipsOnlyEmpty(filtered);
    if Usable(filtered) != [] {
      var x := Usable(filtered)[0];
      assert x in filtered;
      FilteredElements(cfg, t, targets, asks, x);
    }
    if k :| 0 <= k < |targets| && targets[k] != "" && Circuit.Admits(cfg, t, targets[k], asks(k)) {
      FilteredElements(cfg, t, targets, asks, targets[k]);
      assert targets[k] in filtered;
    }
  }

  predicate Distinct(targets: seq<string>) {
    forall i, j :: 0 <= i < j < |targets| ==> targets[i] != targets[j]
  }

  // No target is listed twice and taken over both times.
  predicate NoneTakenTwice(cfg: Circuit.Config, t: Circuit.Table, targets: seq<string>, asks: Asks) {
    forall i, j :: 0 <= i < j < |targets| && Taken(cfg, t, targets, asks, i) && Taken(cfg, t, targets, asks, j)
      ==> targets[i] != targets[j]
  }

  lemma {:induction false} DistinctWhenTakenOnce(cfg: Circuit.Config, t: Circuit.Table, targets: seq<string>,
                                                 asks: Asks)
    ensures Distinct(Usable(Filtered(cfg, t, targets, asks))) <==> NoneTakenTwice(cfg, t, targets, asks)
  {
    if targets != [] {
      hide Usable, Filtered;
      var n := |targets| - 1;
      var before, all := Usable(Filtered(cfg, t, targets[..n], asks)), Usable(Filtered(cfg, t, targets, asks));
      DistinctWhenTakenOnce(cfg, t, targets[..n], asks);
      TakenElements(cfg, t, targets[..n], asks, targets[n]);
      LastIsTaken(cfg, t, targets, asks);
      forall i: nat | i < n
        ensures Taken(cfg, t, targets[..n], asks, i) == Taken(cfg, t, targets, asks, i)
      {
        TakenInPrefix(cfg, t, targets, asks, n, i);
      }
      LongerTakenOnce(cfg, t, targets, asks);
      DistinctAppend(before, targets[n]);
    } else {
      assert Usable(Filtered(cfg, t, targets, asks)) == [];
    }
  }

  lemma DistinctAppend(s: seq<string>, x: string)
    ensures Distinct(s + [x]) <==> Distinct(s) && x !in s
  {
    assert forall i :: 0 <= i < |s| ==> (s + [x])[i] == s[i];
    if x in s {
      var i :| 0 <= i < |s| && s[i] == x;
      assert (s + [x])[i] == (s + [x])[|s|];
    }
  }

  lemma LongerTakenOnce(cfg: Circuit.Config, t: Circuit.Table, targets: seq<string>, asks: Asks)
    requires targets != []
    ensures var n := |targets| - 1;
            NoneTakenTwice(cfg, t, targets, asks) <==>
              && NoneTakenTwice(cfg, t, targets[..n], asks)
              && (Taken(cfg, t, targets, asks, n)
                  ==> forall i :: 0 <= i < n && Taken(cfg, t, targets, asks, i) ==> targets[i] != targets[n])
  {
    hide Taken;
    var n := |targets| - 1;
    forall i: nat | i < n
      ensures Taken(cfg, t, targets[..n], asks, i) == Taken(cfg, t, targets, asks, i) && targets[..n][i] == targets[i]
    {
      TakenInPrefix(cfg, t, targets, asks, n, i);
    }
    if NoneTakenTwice(cfg, t, targets, asks) {
      forall i, j | 0 <= i < j < n && Taken(cfg, t, targets[..n], asks, i) && Taken(cfg, t, targets[..n], asks, j)
        ensures targets[..n][i] != targets[..n][j]
      {
        assert Taken(cfg, t, targets, asks, i) && Taken(cfg, t, targets, asks, j);
      }
    }
  }

  lemma {:induction false} HealthyAtMost(cfg: Circuit.Config, t: Circuit.Table, targets: seq<string>,
                                         asks: Asks, x: string)
    ensures multiset(Healthy(cfg, t, targets, asks))[x] <= multiset(targets)[x]
  {
    if targets != [] {
      var n := |targets| - 1;
      HealthyAtMost(cfg, t, targets[..n], asks, x);
      assert targets == targets[..n] + [targets[n]];
    }
  }

  // Nothing is a candidate more often than it is admitted, let alone listed.
  lemma CandidatesAtMostHealthy(cfg: Circuit.Config, t: Circuit.Table, aliases: Aliases, model: string, asks: Asks,
                                x: string)
    ensures multiset(Candidates(cfg, t, aliases, model, asks))[x]
         <= multiset(Healthy(cfg, t, Listed(aliases, model), asks))[x]
  {
    hide Healthy, Usable, Circuit.Admits;
    var key := Text.ToLower(model);
    if key in aliases {
      UsableAtMost(Healthy(cfg, t, aliases[key], asks), x);
    } else {
      HealthyOne(cfg, t, model, asks);
    }
  }

  lemma UsableAtMost(healthy: seq<string>, x: string)
    ensures multiset(Usable(healthy))[x] <= multiset(healthy)[x]
  {
    UsableSkipsOnlyEmpty(healthy);
    assert healthy == healthy[..|healthy| - |Usable(healthy)|] + Usable(healthy);
  }

  lemma HealthyOne(cfg: Circuit.Config, t: Circuit.Table, x: string, asks: Asks)
    ensures Healthy(cfg, t, [x], asks) == if Circuit.Admits(cfg, t, x, asks(0)) then [x] else []
  {
    assert [x][..0] == [] && AskAll([], asks) == [] && Healthy(cfg, t, [], asks) == [];
  }

  lemma CandidatesAtMost(cfg: Circuit.Config, t: Circuit.Table, aliases: Aliases, model: string, asks: Asks, x: string)
    ensures multiset(Candidates(cfg, t, aliases, model, asks))[x] <= multiset(Listed(aliases, model))[x]
  {
    CandidatesAtMostHealthy(cfg, t, aliases, model, asks, x);
    HealthyAtMost(cfg, t, Listed(aliases, model), asks, x);
  }

  predicate AllRefused(cfg: Circuit.Config, t: Circuit.Table, targets: seq<string>, asks: Asks) {
    forall i :: 0 <= i < |targets| && targets[i] != "" ==> !Circuit.Admits(cfg, t, targets[i], asks(i))
  }

  // Resolving an alias fails exactly when every target the breaker admits is the empty string;
  // when no target is empty, exactly when the breaker refuses them all.
  lemma AliasResolutionFails(cfg: Circuit.Config, t: Circuit.Table, aliases: Aliases, model: string, asks: Asks)
    requires Text.ToLower(model) in aliases
    requires forall i, j :: 0 <= i <= j < |aliases[Text.ToLower(model)]| ==> asks(i) <= asks(j)
    ensures Candidates(cfg, t, aliases, model, asks) == [] <==> AllRefused(cfg, t, aliases[Text.ToLower(model)], asks)
  {
    var targets := aliases[Text.ToLower(model)];
    HealthyIsFiltered(cfg, t, targets, asks);
    SomeChosen(cfg, t, targets, asks);
  }
}
