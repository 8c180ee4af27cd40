// Token quotas, internal/quota/quota.go. Check and charge are separate locked sections, so
// requests overlap between them; QuotaRuns states what that costs.

module Quota {
  datatype Usage = Usage(daily: int, monthly: int)

  type Book = map<string, Usage>

  function Used(b: Book, key: string): Usage {
    if key in b then b[key] else Usage(0, 0)
  }

  // The estimate fits every limit that is set.
  predicate Fits(b: Book, key: string, daily: int, monthly: int, estimated: int) {
    && (daily > 0 ==> Used(b, key).daily + estimated <= daily)
    && (monthly > 0 ==> Used(b, key).monthly + estimated <= monthly)
  }

  // Any operation creates the key's entry.
  function Touched(b: Book, key: string): Book {
    b[key := Used(b, key)]
  }

  function Charged(b: Book, key: string, tokens: int): Book {
    b[key := Usage(Used(b, key).daily + tokens, Used(b, key).monthly + tokens)]
  }

  class UsageCell {
    var daily: int
    var monthly: int

    constructor ()
      ensures Value() == Usage(0, 0)
    {
      daily, monthly := 0, 0;
    }

    function Value(): Usage
      reads this
    {
      Usage(daily, monthly)
    }
  }

  class MemoryQuota {
    var usage: map<string, UsageCell>

    ghost var Contents: Book
    ghost var Cells: set<UsageCell>

    // Contents is what the cells hold; no two keys share a cell.
    ghost predicate Valid()
      reads this, Cells
    {
      && Contents.Keys == usage.Keys
      && (forall k :: k in usage ==> usage[k] in Cells && Contents[k] == usage[k].Value())
      && (forall a, b :: a in usage && b in usage && usage[a] == usage[b] ==> a == b)
    }

    constructor ()
      ensures Valid() && Contents == map[] && Cells == {}
    {
      usage, Contents, Cells := map[], map[], {};
    }

    method CellOf(keyID: string) returns (u: UsageCell)
      requires Valid()
      modifies this
      ensures Valid() && fresh(Cells - old(Cells))
      ensures u in Cells && keyID in usage && usage[keyID] == u && u.Value() == Used(old(Contents), keyID)
      ensures Contents == Touched(old(Contents), keyID)
    {
      if keyID in usage {
        u := usage[keyID];
      } else {
        u := new UsageCell();
        usage, Contents, Cells := usage[keyID := u], Contents[keyID := u.Value()], Cells + {u};
      }
    }

    // On success the remainders are after this request's estimate, although nothing is reserved.
    method Allow(keyID: string, dailyLimit: int, monthlyLimit: int, estimated: int)
      returns (allowed: bool, dailyRem: int, monthlyRem: int)
      requires Valid()
      modifies this
      ensures Valid() && fresh(Cells - old(Cells))
      ensures allowed == Fits(old(Contents), keyID, dailyLimit, monthlyLimit, estimated)
      ensures allowed <==>
                && (dailyLimit <= 0 || Used(old(Contents), keyID).daily + estimated <= dailyLimit)
                && (monthlyLimit <= 0 || Used(old(Contents), keyID).monthly + estimated <= monthlyLimit)
      ensures var taken := if allowed then estimated else 0;
              && dailyRem + Used(old(Contents), keyID).daily + taken == dailyLimit
              && monthlyRem + Used(old(Contents), keyID).monthly + taken == monthlyLimit
      ensures Contents == Touched(old(Contents), keyID)
    {
      var u := CellOf(keyID);
      dailyRem := dailyLimit - u.daily;
      monthlyRem := monthlyLimit - u.monthly;
      if dailyLimit > 0 && dailyRem < estimated {
        return false, dailyRem, monthlyRem;
      }
      if monthlyLimit > 0 && monthlyRem < estimated {
        return false, dailyRem, monthlyRem;
      }
      return true, dailyRem - estimated, monthlyRem - estimated;
    }

    // Charging a cell changes that key's usage and no other.
    method ChargeCell(keyID: string, u: UsageCell, tokens: int)
      requires Valid() && keyID in usage && usage[keyID] == u
      modifies u, this`Contents
      ensures Valid() && Contents == Charged(old(Contents), keyID, tokens)
    {
      u.daily := u.daily + tokens;
      u.monthly := u.monthly + tokens;
      Contents := Contents[keyID := u.Value()];
    }

    method Record(keyID: string, tokens: int)
      requires Valid()
      modifies this, Cells
      ensures Valid() && fresh(Cells - old(Cells))
      ensures Contents == Charged(old(Contents), keyID, tokens)
    {
      hide Valid;
      var u := CellOf(keyID);
      ChargeCell(keyID, u, tokens);
    }
  }
}

// Requests of many keys overlapping between the quota check and the charge.
module QuotaRuns {
  import opened Common
  import opened Quota

  // A request that passed its check and has not been charged or given up yet.
  datatype Flight = Flight(key: string, tokens: nat)

  datatype World = World(book: Book, flights: seq<Flight>)

  datatype Event =
    | Arrive(key: string, daily: int, monthly: int, tokens: nat)
    | Finish(flight: nat, accepted: bool)

  function Without(flights: seq<Flight>, i: nat): seq<Flight>
    requires i < |flights|
  {
    flights[..i] + flights[i + 1..]
  }

  function Next(w: World, e: Event): World {
    match e
    case Arrive(key, daily, monthly, tokens) =>
      World(Touched(w.book, key),
            if Fits(w.book, key, daily, monthly, tokens) then w.flights + [Flight(key, tokens)] else w.flights)
    case Finish(i, accepted) =>
      if i >= |w.flights| then w
      else World(if accepted then Charged(w.book, w.flights[i].key, w.flights[i].tokens) else w.book,
                 Without(w.flights, i))
  }

  function Run(events: seq<Event>): World {
    if events == [] then World(map[], [])
    else Next(Run(events[..|events| - 1]), events[|events| - 1])
  }

  // How many requests of the key are in flight, and what they would charge together.
  function InFlight(flights: seq<Flight>, key: string): nat {
    if flights == [] then 0
    else InFlight(flights[..|flights| - 1], key) + if flights[|flights| - 1].key == key then 1 else 0
  }

  function Pending(flights: seq<Flight>, key: string): nat {
    if flights == [] then 0
    else
      var f := flights[|flights| - 1];
      Pending(flights[..|flights| - 1], key) + if f.key == key then f.tokens else 0
  }

  // The tokens of all requests of the key that were accepted in the run.
  function AcceptedTokens(events: seq<Event>, key: string): nat {
    if events == [] then 0
    else
      var before, e := events[..|events| - 1], events[|events| - 1];
      var flights := Run(before).flights;
      if e.Finish? && e.accepted && e.flight < |flights| && flights[e.flight].key == key
      then AcceptedTokens(before, key) + flights[e.flight].tokens
      else AcceptedTokens(before, key)
  }

  // Every request of the key estimates at most `most` and has the limit set on the daily or on
  // the monthly quota; at no time are more than `k` of them in flight.
  predicate Obeys(events: seq<Event>, key: string, limit: int, k: nat, most: nat) {
    events != [] ==>
      var before, e := events[..|events| - 1], events[|events| - 1];
      && Obeys(before, key, limit, k, most)
      && (e.Arrive? && e.key == key ==>
            e.tokens <= most && (0 < e.daily <= limit || 0 < e.monthly <= limit))
      && InFlight(Run(events).flights, key) <= k
  }

  lemma {:induction false} FlightsConcat(a: seq<Flight>, b: seq<Flight>, key: string)
    ensures InFlight(a + b, key) == InFlight(a, key) + InFlight(b, key)
    ensures Pending(a + b, key) == Pending(a, key) + Pending(b, key)
  {
    if b == [] {
      assert a + b == a;
    } else {
      assert (a + b)[..|a + b| - 1] == a + b[..|b| - 1];
      FlightsConcat(a, b[..|b| - 1], key);
    }
  }

  lemma FlightsOne(f: Flight, key: string)
    ensures InFlight([f], key) == (if f.key == key then 1 else 0)
    ensures Pending([f], key) == (if f.key == key then f.tokens else 0)
  {
    assert [f][..0] == [];
  }

  lemma FlightsWithout(flights: seq<Flight>, i: nat, key: string)
    requires i < |flights|
    ensures Pending(flights, key) == Pending(Without(flights, i), key) + Pending([flights[i]], key)
    ensures InFlight(flights, key) == InFlight(Without(flights, i), key) + InFlight([flights[i]], key)
  {
    FlightsConcat(flights[..i], flights[i + 1..], key);
    FlightsConcat(flights[..i], [flights[i]], key);
    FlightsConcat(flights[..i] + [flights[i]], flights[i + 1..], key);
    assert flights == flights[..i] + [flights[i]] + flights[i + 1..];
  }

  predicate SmallFlights(flights: seq<Flight>, key: string, most: nat) {
    forall i :: 0 <= i < |flights| && flights[i].key == key ==> flights[i].tokens <= most
  }

  lemma {:induction false} PendingAtMost(flights: seq<Flight>, key: string, most: nat)
    requires SmallFlights(flights, key, most)
    ensures Pending(flights, key) <= InFlight(flights, key) * most
  {
    if flights != [] {
      PendingAtMost(flights[..|flights| - 1], key, most);
      OneMoreTime(InFlight(flights[..|flights| - 1], key), most);
    }
  }

  // Whatever overlaps, a key's daily and monthly usage are equal, and are the tokens of its
  // accepted requests.
  lemma {:induction false} UsageIsWhatWasAccepted(events: seq<Event>, key: string)
    ensures Used(Run(events).book, key) == Usage(AcceptedTokens(events, key), AcceptedTokens(events, key))
  {
    if events != [] {
      UsageIsWhatWasAccepted(events[..|events| - 1], key);
    }
  }

  // An estimate above the limit never passes, so no flight is larger than either.
  function Largest(limit: nat, most: nat): nat {
    if most <= limit then most else limit
  }

  lemma {:induction false} FlightsStaySmall(events: seq<Event>, key: string, limit: nat, k: nat, most: nat)
    requires Obeys(events, key, limit, k, most)
    ensures SmallFlights(Run(events).flights, key, Largest(limit, most))
  {
    if events != [] {
      FlightsStaySmall(events[..|events| - 1], key, limit, k, most);
      UsageIsWhatWasAccepted(events[..|events| - 1], key);
    }
  }

  // The overshoot bound: usage and everything in flight together never exceed the limit by more
  // than k - 1 of the largest flights.
  lemma {:induction false} OvershootBound(events: seq<Event>, key: string, limit: nat, k: nat, most: nat)
    requires k >= 1 && Obeys(events, key, limit, k, most)
    ensures AcceptedTokens(events, key) + Pending(Run(events).flights, key)
         <= limit + (k - 1) * Largest(limit, most)
  {
    if events == [] {
      assert (k - 1) * Largest(limit, most) >= 0;
    } else {
      var before, e := events[..|events| - 1], events[|events| - 1];
      OvershootBound(before, key, limit, k, most);
      if e.Arrive? {
        UsageIsWhatWasAccepted(before, key);
        FlightsStaySmall(before, key, limit, k, most);
        ArriveWithinBound(Run(before), e, key, limit, k, Largest(limit, most), AcceptedTokens(before, key));
      } else {
        OvershootFinish(before, e, key);
        assert before + [e] == events;
      }
    }
  }

  lemma ArriveWithinBound(w: World, e: Event, key: string, limit: nat, k: nat, most: nat, used: nat)
    requires k >= 1 && e.Arrive? && SmallFlights(w.flights, key, most) && Used(w.book, key) == Usage(used, used)
    requires e.key == key ==> 0 < e.daily <= limit || 0 < e.monthly <= limit
    requires InFlight(Next(w, e).flights, key) <= k
    requires used + Pending(w.flights, key) <= limit + (k - 1) * most
    ensures used + Pending(Next(w, e).flights, key) <= limit + (k - 1) * most
  {
    hide InFlight, Pending;
    if Fits(w.book, e.key, e.daily, e.monthly, e.tokens) {
      var f := Flight(e.key, e.tokens);
      FlightsConcat(w.flights, [f], key);
      FlightsOne(f, key);
      if e.key == key {
        PendingAtMost(w.flights, key, most);
        AtMostTimes(InFlight(w.flights, key), k - 1, most);
      }
    }
  }

  lemma OneMoreTime(n: int, c: int)
    ensures (n + 1) * c == n * c + c
  {
  }

  lemma AtMostTimes(a: nat, b: nat, c: nat)
    requires a <= b
    ensures a * c <= b * c
  {
  }

  lemma OvershootFinish(before: seq<Event>, e: Event, key: string)
    requires e.Finish?
    ensures AcceptedTokens(before + [e], key) + Pending(Run(before + [e]).flights, key)
         <= AcceptedTokens(before, key) + Pending(Run(before).flights, key)
  {
    assert (before + [e])[..|before|] == before;
    var flights := Run(before).flights;
    if e.flight < |flights| {
      FlightsWithout(flights, e.flight, key);
      FlightsOne(flights[e.flight], key);
    }
  }

  // With one request of the key at a time, the limit itself is never exceeded.
  lemma SequentialNeverExceeds(events: seq<Event>, key: string, limit: nat, most: nat)
    requires Obeys(events, key, limit, 1, most)
    ensures Used(Run(events).book, key).daily <= limit && Used(Run(events).book, key).monthly <= limit
  {
    OvershootBound(events, key, limit, 1, most);
    UsageIsWhatWasAccepted(events, key);
  }

  // ---------------------------------------------------------------------------------------
  // The bound is attained
  // ---------------------------------------------------------------------------------------

  // Use up `n` tokens one request after the other.
  function Fill(key: string, limit: int, most: nat, n: nat): seq<Event>
    requires most > 0
  {
    if n == 0 then []
    else
      var t := if n < most then n else most;
      Fill(key, limit, most, n - t) + [Arrive(key, limit, 0, t)] + [Finish(0, true)]
  }

  lemma ObeysAppend(events: seq<Event>, e: Event, key: string, limit: int, k: nat, most: nat)
    requires Obeys(events, key, limit, k, most)
    requires e.Arrive? && e.key == key ==> e.tokens <= most && (0 < e.daily <= limit || 0 < e.monthly <= limit)
    requires InFlight(Next(Run(events), e).flights, key) <= k
    ensures Run(events + [e]) == Next(Run(events), e)
    ensures Obeys(events + [e], key, limit, k, most)
  {
    assert (events + [e])[..|events|] == events;
  }

  lemma {:induction false} FillReaches(key: string, limit: nat, k: nat, most: nat, n: nat)
    requires most > 0 && k >= 1 && n <= limit
    ensures Obeys(Fill(key, limit, most, n), key, limit, k, most)
    ensures Run(Fill(key, limit, most, n)).flights == []
    ensures Used(Run(Fill(key, limit, most, n)).book, key) == Usage(n, n)
  {
    if n > 0 {
      var t := if n < most then n else most;
      var f := Flight(key, t);
      var start := Fill(key, limit, most, n - t);
      FillReaches(key, limit, k, most, n - t);
      assert [] + [f] == [f];
      FlightsOne(f, key);
      ObeysAppend(start, Arrive(key, limit, 0, t), key, limit, k, most);
      assert Without([f], 0) == [];
      ObeysAppend(start + [Arrive(key, limit, 0, t)], Finish(0, true), key, limit, k, most);
    }
  }

  lemma {:induction false} RepeatedFlights(f: Flight, n: nat)
    ensures InFlight(Repeated(f, n), f.key) == n
  {
    if n > 0 {
      RepeatedFlights(f, n - 1);
      assert Repeated(f, n)[..n - 1] == Repeated(f, n - 1);
    }
  }

  // `n` requests of the largest estimate pass their checks before any of them is charged.
  lemma {:induction false} BurstPasses(start: seq<Event>, key: string, limit: nat, k: nat, most: nat, n: nat)
    requires 0 < most <= limit && n <= k && Obeys(start, key, limit, k, most)
    requires Run(start).flights == [] && Used(Run(start).book, key) == Usage(limit - most, limit - most)
    ensures var events := start + Repeated(Arrive(key, limit, 0, most), n);
            && Obeys(events, key, limit, k, most)
            && Run(events).flights == Repeated(Flight(key, most), n)
            && Used(Run(events).book, key) == Usage(limit - most, limit - most)
  {
    hide Run, Obeys, InFlight;
    var e := Arrive(key, limit, 0, most);
    if n == 0 {
      assert start + Repeated(e, 0) == start;
    } else {
      BurstPasses(start, key, limit, k, most, n - 1);
      var events := start + Repeated(e, n - 1);
      assert events + [e] == start + Repeated(e, n);
      RepeatedFlights(Flight(key, most), n);
      assert Next(Run(events), e).flights == Repeated(Flight(key, most), n);
      ObeysAppend(events, e, key, limit, k, most);
    }
  }

  // All of them are then accepted and charged.
  lemma {:induction false} BurstCharged(start: seq<Event>, key: string, limit: nat, k: nat, most: nat,
                                        n: nat, used: int)
    requires n <= k && Obeys(start, key, limit, k, most)
    requires Run(start).flights == Repeated(Flight(key, most), n)
    requires Used(Run(start).book, key) == Usage(used, used)
    ensures var events := start + Repeated(Finish(0, true), n);
            && Obeys(events, key, limit, k, most)
            && Used(Run(events).book, key) == Usage(used + n * most, used + n * most)
    decreases n
  {
    hide Run, Obeys, InFlight;
    var e := Finish(0, true);
    if n == 0 {
      assert start + Repeated(e, 0) == start;
    } else {
      RepeatedFlights(Flight(key, most), n - 1);
      assert Next(Run(start), e).flights == Repeated(Flight(key, most), n - 1);
      ObeysAppend(start, e, key, limit, k, most);
      BurstCharged(start + [e], key, limit, k, most, n - 1, used + most);
      assert start + [e] + Repeated(e, n - 1) == start + Repeated(e, n);
      assert used + most + (n - 1) * most == used + n * most;
    }
  }

  // Allowing larger estimates forbids nothing.
  lemma {:induction false} ObeysMore(events: seq<Event>, key: string, limit: int, k: nat, most: nat, more: nat)
    requires Obeys(events, key, limit, k, most) && most <= more
    ensures Obeys(events, key, limit, k, more)
  {
    if events != [] {
      ObeysMore(events[..|events| - 1], key, limit, k, most, more);
    }
  }

  // No smaller bound holds, whatever the limit and the estimates: some run that obeys the rules
  // ends exactly at it.
  lemma OvershootIsAttained(key: string, limit: nat, k: nat, most: nat) returns (events: seq<Event>)
    requires k >= 1 && limit >= 1 && most >= 1
    ensures Obeys(events, key, limit, k, most)
    ensures Used(Run(events).book, key).daily == limit + (k - 1) * Largest(limit, most)
  {
    hide Run, Obeys, Fill;
    var size := Largest(limit, most);
    var start := Fill(key, limit, size, limit - size);
    FillReaches(key, limit, k, size, limit - size);
    BurstPasses(start, key, limit, k, size, k);
    var burst := start + Repeated(Arrive(key, limit, 0, size), k);
    BurstCharged(burst, key, limit, k, size, k, limit - size);
    events := burst + Repeated(Finish(0, true), k);
    ObeysMore(events, key, limit, k, size, most);
    OneMoreTime(k - 1, size);
  }
}
