// The sliding-window rate limiter of internal/limiter/limiter.go.

module Limiter {
  import opened Common

  const NO_LIMIT_REMAINING: int := 999999

  // What a caller is metered by. Both kinds live in one map, under different slots.
  datatype Meter = Rpm(id: string) | Rps(id: string)
  {
    function Slot(): string {
      if Rpm? then id else id + ":rps"
    }

    function Window(): int {
      if Rpm? then MINUTE else SECOND
    }
  }

  datatype Call = Call(meter: Meter, limit: int, now: int)

  datatype Verdict = Verdict(allowed: bool, remaining: int, retryAfter: int)

  type Store = map<string, seq<int>>

  // The entries strictly later than `cut`, in order.
  function After(ts: seq<int>, cut: int): seq<int> {
    if ts == [] then []
    else Keep(After(ts[..|ts| - 1], cut), ts[|ts| - 1], cut)
  }

  function Keep(ts: seq<int>, x: int, cut: int): seq<int> {
    if x > cut then ts + [x] else ts
  }

  function Stored(m: Store, slot: string): seq<int> {
    if slot in m then m[slot] else []
  }

  function Purged(m: Store, c: Call): seq<int> {
    After(Stored(m, c.meter.Slot()), c.now - c.meter.Window())
  }

  function Answer(m: Store, c: Call): Verdict {
    if c.limit <= 0 then Verdict(true, NO_LIMIT_REMAINING, 0)
    else
      var valid := Purged(m, c);
      if |valid| >= c.limit then
        var wait := valid[0] + c.meter.Window() - c.now;
        Verdict(false, 0, if wait < 0 then SECOND else wait)
      else
        Verdict(true, c.limit - |valid| - 1, 0)
  }

  function Step(m: Store, c: Call): Store {
    if c.limit <= 0 then m
    else
      var valid := Purged(m, c);
      m[c.meter.Slot() := if |valid| >= c.limit then valid else valid + [c.now]]
  }

  // The store after a run of calls from an empty limiter.
  function Run(calls: seq<Call>): Store {
    if calls == [] then map[] else Step(Run(calls[..|calls| - 1]), calls[|calls| - 1])
  }

  // Every admission ever recorded for a meter: the full history the store only keeps a part of.
  function Admitted(calls: seq<Call>, m: Meter): seq<int> {
    if calls == [] then []
    else
      var before, c := calls[..|calls| - 1], calls[|calls| - 1];
      if c.meter == m && c.limit > 0 && Answer(Run(before), c).allowed
      then Admitted(before, m) + [c.now]
      else Admitted(before, m)
  }

  // ---------------------------------------------------------------------------------------
  // The limiter object
  // ---------------------------------------------------------------------------------------

  class WindowEntry {
    var timestamps: seq<int>

    constructor ()
      ensures timestamps == []
    {
      timestamps := [];
    }
  }

  class MemoryLimiter {
    var windows: map<string, WindowEntry>
    ghost var Contents: Store
    ghost var Entries: set<WindowEntry>

    // Contents is what the entries hold; no two slots share an entry.
    ghost predicate Valid()
      reads this, Entries
    {
      && Contents.Keys == windows.Keys
      && (forall k :: k in windows ==> windows[k] in Entries && Contents[k] == windows[k].timestamps)
      && (forall a, b :: a in windows && b in windows && windows[a] == windows[b] ==> a == b)
    }

    constructor ()
      ensures Valid() && Contents == Run([]) && Entries == {}
    {
      windows, Contents, Entries := map[], map[], {};
    }

    method Allow(keyID: string, limitRPM: int, now: int)
      returns (allowed: bool, remaining: int, retryAfter: int)
      requires Valid()
      modifies this, Entries
      ensures Valid() && fresh(Entries - old(Entries))
      ensures Verdict(allowed, remaining, retryAfter) == Answer(old(Contents), Call(Rpm(keyID), limitRPM, now))
      ensures Contents == Step(old(Contents), Call(Rpm(keyID), limitRPM, now))
      ensures limitRPM <= 0 ==> allowed && remaining == 999999 && retryAfter == 0 && Contents == old(Contents)
    {
      if limitRPM <= 0 {
        return true, NO_LIMIT_REMAINING, 0;
      }
      allowed, remaining, retryAfter := Slide(Rpm(keyID), limitRPM, now);
    }

    method AllowRPS(keyID: string, limitRPS: int, now: int)
      returns (allowed: bool, remaining: int, retryAfter: int)
      requires Valid()
      modifies this, Entries
      ensures Valid() && fresh(Entries - old(Entries))
      ensures Verdict(allowed, remaining, retryAfter) == Answer(old(Contents), Call(Rps(keyID), limitRPS, now))
      ensures Contents == Step(old(Contents), Call(Rps(keyID), limitRPS, now))
      ensures limitRPS <= 0 ==> allowed && remaining == 999999 && retryAfter == 0 && Contents == old(Contents)
    {
      if limitRPS <= 0 {
        return true, NO_LIMIT_REMAINING, 0;
      }
      allowed, remaining, retryAfter := Slide(Rps(keyID), limitRPS, now);
    }

    // The entry of a slot, created empty on first use.
    method EntryOf(slot: string) returns (entry: WindowEntry)
      requires Valid()
      modifies this
      ensures Valid() && fresh(Entries - old(Entries))
      ensures entry in Entries && slot in windows && windows[slot] == entry
      ensures entry.timestamps == Stored(old(Contents), slot)
      ensures Contents == old(Contents)[slot := entry.timestamps]
    {
      if slot in windows {
        entry := windows[slot];
      } else {
        entry := new WindowEntry();
        windows, Contents, Entries := windows[slot := entry], Contents[slot := []], Entries + {entry};
      }
    }

    // Assigning an entry's timestamps changes that slot and no other.
    method Write(slot: string, entry: WindowEntry, timestamps: seq<int>)
      requires Valid() && slot in windows && windows[slot] == entry
      modifies entry, this`Contents
      ensures Valid() && entry.timestamps == timestamps && Contents == old(Contents)[slot := timestamps]
    {
      entry.timestamps := timestamps;
      Contents := Contents[slot := timestamps];
    }

    // The purge loop: keep the timestamps later than `cut`.
    static method Purge(timestamps: seq<int>, cut: int) returns (valid: seq<int>)
      ensures valid == After(timestamps, cut)
    {
      valid := [];
      for i := 0 to |timestamps|
        invariant valid == After(timestamps[..i], cut)
      {
        assert timestamps[..i + 1][..i] == timestamps[..i];
        if timestamps[i] > cut {
          valid := valid + [timestamps[i]];
        }
      }
      assert timestamps[..|timestamps|] == timestamps;
    }

    // The critical section that Allow and AllowRPS share: purge, count, admit or refuse.
    method Slide(meter: Meter, limit: int, now: int)
      returns (allowed: bool, remaining: int, retryAfter: int)
      requires Valid() && limit > 0
      modifies this, Entries
      ensures Valid() && fresh(Entries - old(Entries))
      ensures Verdict(allowed, remaining, retryAfter) == Answer(old(Contents), Call(meter, limit, now))
      ensures Contents == Step(old(Contents), Call(meter, limit, now))
    {
      hide After, Valid;
      var entry := EntryOf(meter.Slot());
      var windowStart := now - meter.Window();
      var valid := Purge(entry.timestamps, windowStart);
      Write(meter.Slot(), entry, valid);

      var currentCount := |entry.timestamps|;
      if currentCount >= limit {
        var oldest := entry.timestamps[0];
        retryAfter := oldest + meter.Window() - now;
        if retryAfter < 0 {
          retryAfter := SECOND;
        }
        allowed, remaining := false, 0;
      } else {
        Write(meter.Slot(), entry, entry.timestamps + [now]);
        remaining := limit - |entry.timestamps|;
        allowed, retryAfter := true, 0;
      }
    }
  }

  // ---------------------------------------------------------------------------------------
  // Runs of calls
  // ---------------------------------------------------------------------------------------

  // The clock is read inside the lock, so it never runs backwards along a run.
  predicate Monotone(calls: seq<Call>) {
    forall i, j :: 0 <= i <= j < |calls| ==> calls[i].now <= calls[j].now
  }

  // No other meter of the run keeps its admissions in the slot of `m`.
  predicate Separate(calls: seq<Call>, m: Meter) {
    forall i :: 0 <= i < |calls| && calls[i].meter != m ==> calls[i].meter.Slot() != m.Slot()
  }

  lemma AfterAppend(ts: seq<int>, x: int, cut: int)
    ensures After(ts + [x], cut) == Keep(After(ts, cut), x, cut)
  {
    assert (ts + [x])[..|ts|] == ts;
  }

  lemma {:induction false} AfterTwice(ts: seq<int>, a: int, b: int)
    requires a <= b
    ensures After(After(ts, a), b) == After(ts, b)
  {
    if ts != [] {
      var n := |ts| - 1;
      AfterTwice(ts[..n], a, b);
      if ts[n] > a {
        AfterAppend(After(ts[..n], a), ts[n], b);
      }
    }
  }

  lemma AfterAll(ts: seq<int>, cut: int)
    requires forall i :: 0 <= i < |ts| ==> ts[i] > cut
    ensures After(ts, cut) == ts
  {
    if ts != [] {
      AfterAll(ts[..|ts| - 1], cut);
    }
  }

  lemma AfterNone(ts: seq<int>, cut: int)
    requires forall i :: 0 <= i < |ts| ==> ts[i] <= cut
    ensures After(ts, cut) == []
  {
    if ts != [] {
      AfterNone(ts[..|ts| - 1], cut);
    }
  }

  lemma AfterAtMost(ts: seq<int>, cut: int)
    ensures |After(ts, cut)| <= |ts|
  {
  }

  // One call keeps the agreement between what is stored and what was ever admitted.
  lemma StepKeepsAgreement(store: Store, history: seq<int>, c: Call, cut: int)
    requires c.limit > 0 && c.now <= cut + c.meter.Window()
    requires After(Stored(store, c.meter.Slot()), cut) == After(history, cut)
    ensures After(Stored(Step(store, c), c.meter.Slot()), cut)
         == After(if Answer(store, c).allowed then history + [c.now] else history, cut)
  {
    AfterTwice(Stored(store, c.meter.Slot()), c.now - c.meter.Window(), cut);
    if Answer(store, c).allowed {
      AfterAppend(Purged(store, c), c.now, cut);
      AfterAppend(history, c.now, cut);
    }
  }

  // What the purge throws away can never be looked at again: from the last call on, the store
  // and the full history agree on everything inside any later window.
  lemma {:induction false} PurgeKeepsEveryLiveAdmission(calls: seq<Call>, m: Meter, cut: int)
    requires Monotone(calls) && Separate(calls, m)
    requires calls != [] ==> calls[|calls| - 1].now <= cut + m.Window()
    ensures After(Stored(Run(calls), m.Slot()), cut) == After(Admitted(calls, m), cut)
  {
    if calls != [] {
      var before, c := calls[..|calls| - 1], calls[|calls| - 1];
      if before != [] {
        assert before[|before| - 1].now <= c.now;
      }
      PurgeKeepsEveryLiveAdmission(before, m, cut);
      if c.meter == m && c.limit > 0 {
        StepKeepsAgreement(Run(before), Admitted(before, m), c, cut);
      }
    }
  }

  // Allow decides as if it had the whole history: it admits exactly when fewer than `limit` of
  // all admissions ever made lie strictly after now - window. Limits may change between calls and
  // calls on other meters may come anywhere.
  lemma AllowRefinesFullHistory(calls: seq<Call>, c: Call)
    requires Monotone(calls + [c]) && Separate(calls, c.meter) && c.limit > 0
    ensures Purged(Run(calls), c) == After(Admitted(calls, c.meter), c.now - c.meter.Window())
    ensures Answer(Run(calls), c).allowed
       <==> |After(Admitted(calls, c.meter), c.now - c.meter.Window())| < c.limit
  {
    assert Monotone(calls) by {
      assert forall i :: 0 <= i < |calls| ==> (calls + [c])[i] == calls[i];
    }
    if calls != [] {
      assert (calls + [c])[|calls| - 1].now <= (calls + [c])[|calls|].now;
    }
    PurgeKeepsEveryLiveAdmission(calls, c.meter, c.now - c.meter.Window());
  }

  // The remainder told to an admitted caller is what its limit leaves of the window, this call
  // included, counted over the full history; a refused caller is told none.
  lemma RemainingByHistory(calls: seq<Call>, c: Call)
    requires Monotone(calls + [c]) && Separate(calls, c.meter) && c.limit > 0
    ensures var answer := Answer(Run(calls), c);
            var live := After(Admitted(calls + [c], c.meter), c.now - c.meter.Window());
            && (answer.allowed ==> answer.remaining == c.limit - |live| >= 0 && answer.retryAfter == 0)
            && (!answer.allowed ==> answer.remaining == 0 && |live| >= c.limit)
  {
    hide Run, Admitted, After;
    AllowRefinesFullHistory(calls, c);
    RunAppend(calls, c, c.meter);
    AfterAppend(Admitted(calls, c.meter), c.now, c.now - c.meter.Window());
  }

  // One admission fills a limit of one for exactly a minute, or a second, of nanoseconds.
  lemma WindowLengths(id: string, at: int)
    requires at >= 0
    ensures Answer(Run([Call(Rpm(id), 1, 0)]), Call(Rpm(id), 1, at)).allowed <==> at >= 60_000_000_000
    ensures Answer(Run([Call(Rps(id), 1, 0)]), Call(Rps(id), 1, at)).allowed <==> at >= 1_000_000_000
  {
    OneAdmission(Rpm(id));
    OneAdmission(Rps(id));
    AfterOne(0, at - MINUTE);
    AfterOne(0, at - SECOND);
  }

  lemma OneAdmission(m: Meter)
    ensures Run([Call(m, 1, 0)]) == map[m.Slot() := [0]]
  {
    RunAppend([], Call(m, 1, 0), m);
    assert [] + [Call(m, 1, 0)] == [Call(m, 1, 0)] && [] + [0] == [0];
    assert Purged(map[], Call(m, 1, 0)) == [];
  }

  lemma AfterOne(x: int, cut: int)
    ensures After([x], cut) == if x > cut then [x] else []
  {
    AfterAppend([], x, cut);
    assert [] + [x] == [x];
  }

  // ---------------------------------------------------------------------------------------
  // The rate bound
  // ---------------------------------------------------------------------------------------

  // How many of `ts` lie in (lo, hi].
  function CountWithin(ts: seq<int>, lo: int, hi: int): nat {
    if ts == [] then 0
    else CountWithin(ts[..|ts| - 1], lo, hi) + if lo < ts[|ts| - 1] <= hi then 1 else 0
  }

  // The load of a meter: its admissions in the window (t - window, t].
  function Load(calls: seq<Call>, m: Meter, t: int): nat {
    CountWithin(Admitted(calls, m), t - m.Window(), t)
  }

  // Every metered call of `m` carries a limit of at most `top`.
  predicate LimitedBy(calls: seq<Call>, m: Meter, top: int) {
    forall i :: 0 <= i < |calls| && calls[i].meter == m ==> calls[i].limit <= top
  }

  lemma {:induction false} CountBelowAfter(ts: seq<int>, lo: int, hi: int, cut: int)
    requires cut <= lo
    ensures CountWithin(ts, lo, hi) <= |After(ts, cut)|
  {
    if ts != [] {
      CountBelowAfter(ts[..|ts| - 1], lo, hi, cut);
    }
  }

  lemma {:induction false} CountSplits(ts: seq<int>, lo: int, mid: int, hi: int)
    requires lo <= mid <= hi
    ensures CountWithin(ts, lo, hi) == CountWithin(ts, lo, mid) + CountWithin(ts, mid, hi)
  {
    if ts != [] {
      CountSplits(ts[..|ts| - 1], lo, mid, hi);
    }
  }

  lemma EmptyLoad(m: Meter, t: int)
    ensures Load([], m, t) == 0
  {
  }

  lemma CountAppend(ts: seq<int>, x: int, lo: int, hi: int)
    ensures CountWithin(ts + [x], lo, hi) == CountWithin(ts, lo, hi) + if lo < x <= hi then 1 else 0
  {
    assert (ts + [x])[..|ts|] == ts;
  }

  // Where no live admission of `m` can be lost: in a slot of its own, or in the one-second window,
  // which nobody who shares the slot ever purges further than itself.
  predicate Safe(calls: seq<Call>, m: Meter) {
    m.Rps? || Separate(calls, m)
  }

  lemma {:induction false} LiveAtMostStored(calls: seq<Call>, m: Meter, cut: int)
    requires Monotone(calls) && Safe(calls, m)
    requires calls != [] ==> calls[|calls| - 1].now <= cut + m.Window()
    ensures |After(Admitted(calls, m), cut)| <= |After(Stored(Run(calls), m.Slot()), cut)|
  {
    if Separate(calls, m) {
      PurgeKeepsEveryLiveAdmission(calls, m, cut);
    } else if calls != [] {
      var before, c := calls[..|calls| - 1], calls[|calls| - 1];
      if before != [] {
        assert before[|before| - 1].now <= c.now;
      }
      LiveAtMostStored(before, m, cut);
      StepLosesNothingLive(Run(before), Admitted(before, m), m, c, cut);
    }
  }

  lemma StepLosesNothingLive(store: Store, history: seq<int>, m: Meter, c: Call, cut: int)
    requires m.Rps? && c.now <= cut + m.Window()
    requires |After(history, cut)| <= |After(Stored(store, m.Slot()), cut)|
    ensures var history' := if c.meter == m && c.limit > 0 && Answer(store, c).allowed
                            then history + [c.now] else history;
            |After(history', cut)| <= |After(Stored(Step(store, c), m.Slot()), cut)|
  {
    hide After;
    var stored, valid := Stored(store, m.Slot()), Purged(store, c);
    AfterAppend(history, c.now, cut);
    if c.meter.Slot() == m.Slot() && c.limit > 0 {
      assert After(valid, cut) == After(stored, cut) by {
        AfterTwice(stored, c.now - c.meter.Window(), cut);
      }
      AfterAppend(valid, c.now, cut);
      assert Answer(store, c).allowed ==> Stored(Step(store, c), m.Slot()) == valid + [c.now];
      assert !Answer(store, c).allowed ==> Stored(Step(store, c), m.Slot()) == valid;
    } else {
      assert Stored(Step(store, c), m.Slot()) == stored;
    }
  }

  // In any run, whatever other meters do and however the limit moves below `top`, no window
  // (t - window, t] ever holds more than `top` admissions of a meter whose admissions are safe.
  lemma {:induction false} WindowBound(calls: seq<Call>, m: Meter, top: nat, t: int)
    requires Monotone(calls) && Safe(calls, m) && LimitedBy(calls, m, top)
    ensures Load(calls, m, t) <= top
  {
    hide Answer, Run, After, CountWithin, Admitted;
    if calls == [] {
      EmptyLoad(m, t);
    } else {
      var before, c := calls[..|calls| - 1], calls[|calls| - 1];
      assert before + [c] == calls;
      WindowBound(before, m, top, t);
      RunAppend(before, c, m);
      if c.meter == m && c.limit > 0 && Answer(Run(before), c).allowed {
        CountAppend(Admitted(before, m), c.now, t - m.Window(), t);
        if t - m.Window() < c.now <= t {
          AdmittedBelowLimit(before, c);
          CountBelowAfter(Admitted(before, m), t - m.Window(), t, c.now - m.Window());
        }
      }
    }
  }

  // An admitted call saw less than its limit, also of the whole history.
  lemma AdmittedBelowLimit(calls: seq<Call>, c: Call)
    requires Monotone(calls + [c]) && Safe(calls, c.meter) && c.limit > 0 && Answer(Run(calls), c).allowed
    ensures |After(Admitted(calls, c.meter), c.now - c.meter.Window())| < c.limit
  {
    hide Run, Admitted, After;
    assert forall i :: 0 <= i < |calls| ==> (calls + [c])[i] == calls[i];
    if calls != [] {
      assert (calls + [c])[|calls| - 1].now <= (calls + [c])[|calls|].now;
    }
    LiveAtMostStored(calls, c.meter, c.now - c.meter.Window());
  }

  lemma {:induction false} WindowsBound(calls: seq<Call>, m: Meter, top: nat, hi: int, n: nat)
    requires Monotone(calls) && Safe(calls, m) && LimitedBy(calls, m, top)
    ensures CountWithin(Admitted(calls, m), hi - n * m.Window(), hi) <= n * top
    decreases n
  {
    if n == 0 {
      CountEmptyRange(Admitted(calls, m), hi);
    } else {
      var w := m.Window();
      WindowBound(calls, m, top, hi);
      WindowsBound(calls, m, top, hi - w, n - 1);
      assert hi - w - (n - 1) * w == hi - n * w;
      CountSplits(Admitted(calls, m), hi - n * w, hi - w, hi);
      assert (n - 1) * top + top == n * top;
    }
  }

  lemma CountEmptyRange(ts: seq<int>, t: int)
    ensures CountWithin(ts, t, t) == 0
  {
  }

  // Hence any closed span [from, from + length] holds at most top * (length / window + 1) of them.
  lemma SpanBound(calls: seq<Call>, m: Meter, top: nat, from: int, length: nat)
    requires Monotone(calls) && Safe(calls, m) && LimitedBy(calls, m, top)
    ensures CountWithin(Admitted(calls, m), from - 1, from + length) <= top * (length / m.Window() + 1)
  {
    var w := m.Window();
    var n := length / w + 1;
    WindowsBound(calls, m, top, from + length, n);
    assert n * w > length;
    CountSplits(Admitted(calls, m), from + length - n * w, from - 1, from + length);
  }

  // IDs that do not end in ":rps" never share a slot with another meter of such IDs.
  predicate PlainId(id: string) {
    |id| < 4 || id[|id| - 4..] != ":rps"
  }

  lemma PlainIdsAreSeparate(calls: seq<Call>, m: Meter)
    requires PlainId(m.id) && forall i :: 0 <= i < |calls| ==> PlainId(calls[i].meter.id)
    ensures Separate(calls, m)
  {
    forall i | 0 <= i < |calls| && calls[i].meter != m
      ensures calls[i].meter.Slot() != m.Slot()
    {
      SlotTail(calls[i].meter);
      SlotTail(m);
    }
  }

  lemma SlotTail(m: Meter)
    ensures m.Rps? ==> |m.Slot()| >= 4 && m.Slot()[|m.Slot()| - 4..] == ":rps"
    ensures m.Rps? ==> m.Slot()[..|m.Slot()| - 4] == m.id
  {
  }

  // The run uses only the requests-per-minute meter of `a` and the requests-per-second one of `b`.
  predicate UsesOnly(calls: seq<Call>, a: string, b: string) {
    forall i :: 0 <= i < |calls| ==> calls[i].meter == Rpm(a) || calls[i].meter == Rps(b)
  }

  // The bound of WindowBound for the minute meter of `a`, in every such run.
  ghost predicate MinuteBoundHolds(a: string, b: string) {
    forall calls: seq<Call>, top: nat, t: int ::
      Monotone(calls) && UsesOnly(calls, a, b) && LimitedBy(calls, Rpm(a), top)
      ==> Load(calls, Rpm(a), t) <= top
  }

  // The bound of WindowBound for the second meter of `b`, in every run of whatever meters.
  ghost predicate SecondBoundHolds(b: string) {
    forall calls: seq<Call>, top: nat, t: int ::
      Monotone(calls) && LimitedBy(calls, Rps(b), top) ==> Load(calls, Rps(b), t) <= top
  }

  // Sharing one map between both kinds of window is safe for exactly the IDs whose slots differ:
  // an RPS call on "x" purges the minute window of an ID spelled "x:rps". The other way round
  // nothing is lost: the bound of the one-second meter holds in every run.
  lemma MinuteBoundNeedsDistinctSlots(a: string, b: string)
    ensures MinuteBoundHolds(a, b) <==> a != b + ":rps"
    ensures SecondBoundHolds(b)
  {
    forall calls: seq<Call>, top: nat, t: int | Monotone(calls) && LimitedBy(calls, Rps(b), top)
      ensures Load(calls, Rps(b), t) <= top
    {
      WindowBound(calls, Rps(b), top, t);
    }
    if a != b + ":rps" {
      forall calls: seq<Call>, top: nat, t: int |
        Monotone(calls) && UsesOnly(calls, a, b) && LimitedBy(calls, Rpm(a), top)
        ensures Load(calls, Rpm(a), t) <= top
      {
        WindowBound(calls, Rpm(a), top, t);
      }
    } else {
      CollidingRunBreaksBound(a, b);
    }
  }

  // Two minute-metered admissions fill the slot ...
  lemma CollidingRunFills(a: string)
    ensures var c0 := Call(Rpm(a), 2, 0);
            Run([c0, c0]) == map[a := [0, 0]] && Admitted([c0, c0], Rpm(a)) == [0, 0]
  {
    var c0 := Call(Rpm(a), 2, 0);
    RunAppend([], c0, Rpm(a));
    assert [] + [c0] == [c0] && [c0] + [c0] == [c0, c0];
    assert Purged(map[], c0) == [] && [] + [0] == [0];
    assert Run([c0]) == map[a := [0]];
    RunAppend([c0], c0, Rpm(a));
    AfterAll([0], -MINUTE);
    assert Purged(Run([c0]), c0) == [0] && [0] + [0] == [0, 0];
  }

  // ... an RPS call on the same slot two seconds later forgets them ...
  lemma CollidingRunForgets(a: string, b: string)
    requires a == b + ":rps"
    ensures var c0, c2 := Call(Rpm(a), 2, 0), Call(Rps(b), 1, 2 * SECOND);
            Run([c0, c0, c2]) == map[a := [2 * SECOND]] && Admitted([c0, c0, c2], Rpm(a)) == [0, 0]
  {
    hide Run, Admitted;
    var c0, c2 := Call(Rpm(a), 2, 0), Call(Rps(b), 1, 2 * SECOND);
    CollidingRunFills(a);
    RunAppend([c0, c0], c2, Rpm(a));
    assert [c0, c0] + [c2] == [c0, c0, c2];
    AfterNone([0, 0], SECOND);
    assert c2.meter.Slot() == a && Purged(Run([c0, c0]), c2) == [];
    assert [] + [2 * SECOND] == [2 * SECOND];
  }

  // ... and a third minute-metered call is admitted against a limit of two.
  lemma CollidingRunOverfills(a: string, b: string)
    requires a == b + ":rps"
    ensures var c0, c2, c3 := Call(Rpm(a), 2, 0), Call(Rps(b), 1, 2 * SECOND), Call(Rpm(a), 2, 3 * SECOND);
            Admitted([c0, c0, c2] + [c3], Rpm(a)) == [0, 0] + [3 * SECOND]
  {
    var c0, c2, c3 := Call(Rpm(a), 2, 0), Call(Rps(b), 1, 2 * SECOND), Call(Rpm(a), 2, 3 * SECOND);
    CollidingRunForgets(a, b);
    RunAppend([c0, c0, c2], c3, Rpm(a));
    AfterAll([2 * SECOND], 3 * SECOND - MINUTE);
  }

  lemma CollidingRunBreaksBound(a: string, b: string)
    requires a == b + ":rps"
    ensures !MinuteBoundHolds(a, b)
  {
    hide Answer, Run, After, CountWithin, Admitted;
    var c0, c2, c3 := Call(Rpm(a), 2, 0), Call(Rps(b), 1, 2 * SECOND), Call(Rpm(a), 2, 3 * SECOND);
    var calls := [c0, c0, c2] + [c3];
    CollidingRunOverfills(a, b);
    CountThree(3 * SECOND - MINUTE, 3 * SECOND);
    assert Load(calls, Rpm(a), 3 * SECOND) == 3;
    assert LimitedBy(calls, Rpm(a), 2) && Monotone(calls) && UsesOnly(calls, a, b);
  }

  lemma CountThree(lo: int, hi: int)
    requires lo < 0 < hi
    ensures CountWithin([0, 0] + [hi], lo, hi) == 3
  {
    CountAppend([], 0, lo, hi);
    CountAppend([0], 0, lo, hi);
    CountAppend([0, 0], hi, lo, hi);
    assert [] + [0] == [0] && [0] + [0] == [0, 0];
  }

  lemma RunAppend(calls: seq<Call>, c: Call, m: Meter)
    ensures Run(calls + [c]) == Step(Run(calls), c)
    ensures Admitted(calls + [c], m)
         == if c.meter == m && c.limit > 0 && Answer(Run(calls), c).allowed
            then Admitted(calls, m) + [c.now] else Admitted(calls, m)
  {
    assert (calls + [c])[..|calls|] == calls;
  }
}
