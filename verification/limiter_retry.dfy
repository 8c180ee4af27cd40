// What a rejected caller is told: the retry-after of internal/limiter/limiter.go.

module LimiterRetry {
  import opened Common
  import opened Limiter

  predicate Sorted(ts: seq<int>) {
    forall i, j :: 0 <= i <= j < |ts| ==> ts[i] <= ts[j]
  }

  lemma {:induction false} AfterElements(ts: seq<int>, cut: int, hi: int)
    requires Sorted(ts) && forall i :: 0 <= i < |ts| ==> ts[i] <= hi
    ensures Sorted(After(ts, cut))
    ensures forall i :: 0 <= i < |After(ts, cut)| ==> cut < After(ts, cut)[i] <= hi
  {
    if ts != [] {
      var x := ts[|ts| - 1];
      var before := ts[..|ts| - 1];
      assert forall i :: 0 <= i < |before| ==> before[i] <= x;
      AfterElements(before, cut, x);
    }
  }

  lemma {:induction false} AdmittedSorted(calls: seq<Call>, m: Meter, hi: int)
    requires Monotone(calls) && (calls != [] ==> calls[|calls| - 1].now <= hi)
    ensures Sorted(Admitted(calls, m))
    ensures forall i :: 0 <= i < |Admitted(calls, m)| ==> Admitted(calls, m)[i] <= hi
  {
    if calls != [] {
      AdmittedSorted(calls[..|calls| - 1], m, calls[|calls| - 1].now);
    }
  }

  lemma {:induction false} CountIsAfter(ts: seq<int>, lo: int, hi: int)
    requires forall i :: 0 <= i < |ts| ==> ts[i] <= hi
    ensures CountWithin(ts, lo, hi) == |After(ts, lo)|
  {
    if ts != [] {
      CountIsAfter(ts[..|ts| - 1], lo, hi);
    }
  }

  // The admissions still inside the window of `c`.
  function Live(calls: seq<Call>, c: Call): seq<int> {
    After(Admitted(calls, c.meter), c.now - c.meter.Window())
  }

  // A run on which the limiter's clock never ran backwards and `m` shares its slot with nobody.
  predicate Proper(run: seq<Call>, m: Meter) {
    Monotone(run) && Separate(run, m)
  }

  lemma ProperPrefix(run: seq<Call>, c: Call, m: Meter)
    requires Proper(run + [c], m)
    ensures Proper(run, m)
    ensures forall i :: 0 <= i < |run| ==> run[i].now <= c.now
  {
    assert (run + [c])[|run|] == c;
    assert forall i :: 0 <= i < |run| ==> (run + [c])[i] == run[i];
  }

  // At least `n` of a sorted list lie after `cut` exactly when its n-th last does.
  lemma {:induction false} AtLeastAfter(ts: seq<int>, cut: int, n: nat)
    requires Sorted(ts) && 0 < n <= |ts|
    ensures |After(ts, cut)| >= n <==> cut < ts[|ts| - n]
  {
    var before := ts[..|ts| - 1];
    if n > 1 {
      AtLeastAfter(before, cut, n - 1);
    }
    if cut >= ts[|ts| - n] {
      assert ts == before + [ts[|ts| - 1]];
      if n == 1 {
        AfterNone(ts, cut);
      }
    }
  }

  lemma LiveElements(calls: seq<Call>, c: Call)
    requires Proper(calls + [c], c.meter)
    ensures Sorted(Live(calls, c))
    ensures forall i :: 0 <= i < |Live(calls, c)| ==> c.now - c.meter.Window() < Live(calls, c)[i] <= c.now
    ensures |Live(calls, c)| == Load(calls, c.meter, c.now)
  {
    ProperPrefix(calls, c, c.meter);
    AdmittedSorted(calls, c.meter, c.now);
    AfterElements(Admitted(calls, c.meter), c.now - c.meter.Window(), c.now);
    CountIsAfter(Admitted(calls, c.meter), c.now - c.meter.Window(), c.now);
  }

  // The admission rule, read off the history alone.
  lemma AnswerByHistory(run: seq<Call>, d: Call, history: seq<int>)
    requires Proper(run + [d], d.meter) && d.limit > 0 && history == Admitted(run, d.meter)
    ensures Answer(Run(run), d).allowed <==> |After(history, d.now - d.meter.Window())| < d.limit
  {
    ProperPrefix(run, d, d.meter);
    AllowRefinesFullHistory(run, d);
  }

  // In every run a rejection names the exact moment the oldest live admission leaves the window:
  // a positive wait of at most one window, so the branch for a negative wait is dead.
  lemma RejectionNamesOldestExpiry(calls: seq<Call>, c: Call)
    requires Proper(calls + [c], c.meter) && !Answer(Run(calls), c).allowed
    ensures c.limit > 0 && |Live(calls, c)| >= c.limit
    ensures Answer(Run(calls), c).retryAfter == Live(calls, c)[0] + c.meter.Window() - c.now
    ensures 0 < Answer(Run(calls), c).retryAfter <= c.meter.Window()
  {
    hide Run, Admitted, After;
    ProperPrefix(calls, c, c.meter);
    AllowRefinesFullHistory(calls, c);
    LiveElements(calls, c);
  }

  // Nothing was ever admitted under a higher limit: then exactly `limit` admissions are live.
  lemma RejectionMeansExactlyFull(calls: seq<Call>, c: Call)
    requires Proper(calls + [c], c.meter) && LimitedBy(calls, c.meter, c.limit)
    requires !Answer(Run(calls), c).allowed
    ensures |Live(calls, c)| == c.limit
  {
    RejectionNamesOldestExpiry(calls, c);
    ProperPrefix(calls, c, c.meter);
    LiveElements(calls, c);
    WindowBound(calls, c.meter, c.limit, c.now);
  }

  // When a rejected call would find room: its limit's worth of the live admissions must have left,
  // down to the n-th last, n being the limit. It is never before the announced moment.
  function FreeAt(calls: seq<Call>, c: Call): int
    requires 0 < c.limit <= |Live(calls, c)|
  {
    Live(calls, c)[|Live(calls, c)| - c.limit] + c.meter.Window()
  }

  function AnnouncedAt(calls: seq<Call>, c: Call): int {
    c.now + Answer(Run(calls), c).retryAfter
  }

  lemma FreeNotBeforeAnnounced(calls: seq<Call>, c: Call)
    requires Proper(calls + [c], c.meter) && !Answer(Run(calls), c).allowed
    ensures 0 < c.limit <= |Live(calls, c)| && c.now < AnnouncedAt(calls, c) <= FreeAt(calls, c)
  {
    hide Run, Admitted, After, Live, Answer;
    RejectionNamesOldestExpiry(calls, c);
    ProperPrefix(calls, c, c.meter);
    LiveElements(calls, c);
  }

  // Calls after the rejection `c`: those on its meter come before `until` and carry a limit of at
  // most the one `c` was rejected under.
  predicate StillWaiting(later: seq<Call>, c: Call, until: int) {
    forall i :: 0 <= i < |later| && later[i].meter == c.meter
      ==> later[i].now < until && 0 < later[i].limit <= c.limit
  }

  // While nothing new has been admitted, a call is admitted exactly from that moment on.
  lemma AdmittedFromFreeOn(calls: seq<Call>, c: Call, run: seq<Call>, d: Call)
    requires Proper(calls + [c], c.meter) && !Answer(Run(calls), c).allowed
    requires Proper(run + [d], c.meter) && Admitted(run, c.meter) == Admitted(calls, c.meter)
    requires d.meter == c.meter && c.now <= d.now && 0 < d.limit <= c.limit
    ensures 0 < c.limit <= |Live(calls, c)|
    ensures d.now < FreeAt(calls, c) ==> !Answer(Run(run), d).allowed
    ensures d.now >= FreeAt(calls, c) && d.limit == c.limit ==> Answer(Run(run), d).allowed
  {
    hide Answer, Run, Admitted, After;
    var history, w := Admitted(calls, c.meter), c.meter.Window();
    FreeNotBeforeAnnounced(calls, c);
    assert |After(history, d.now - w)| >= c.limit <==> d.now < FreeAt(calls, c) by {
      LiveElements(calls, c);
      AfterTwice(history, c.now - w, d.now - w);
      AtLeastAfter(Live(calls, c), d.now - w, c.limit);
    }
    AnswerByHistory(run, d, history);
  }

  // Until then no call on that meter under a limit no higher is admitted, whatever limits were in
  // force before and whatever other meters do meanwhile.
  lemma {:induction false} NobodyAdmittedWhileWaiting(calls: seq<Call>, c: Call, later: seq<Call>)
    requires Proper(calls + [c] + later, c.meter) && Proper(calls + [c], c.meter)
    requires !Answer(Run(calls), c).allowed
    requires 0 < c.limit <= |Live(calls, c)| && StillWaiting(later, c, FreeAt(calls, c))
    ensures Admitted(calls + [c] + later, c.meter) == Admitted(calls, c.meter)
  {
    hide Run, FreeAt;
    if later == [] {
      assert calls + [c] + later == calls + [c];
      RunAppend(calls, c, c.meter);
    } else {
      var before, d := later[..|later| - 1], later[|later| - 1];
      var run := calls + [c] + before;
      assert run + [d] == calls + [c] + later;
      ProperPrefix(run, d, c.meter);
      NobodyAdmittedWhileWaiting(calls, c, before);
      RunAppend(run, d, c.meter);
      if d.meter == c.meter {
        assert run[|calls|] == c;
        AdmittedFromFreeOn(calls, c, run, d);
      }
    }
  }

  // The exact time of a retry, whatever limits were in force before the rejection: a later call
  // under the same limit is admitted if and only if it comes at or after FreeAt.
  lemma RetryAdmittedFromFreeOn(calls: seq<Call>, c: Call, later: seq<Call>, d: Call)
    requires Proper(calls + [c] + later + [d], c.meter) && Proper(calls + [c], c.meter)
    requires !Answer(Run(calls), c).allowed && d.meter == c.meter && d.limit == c.limit
    requires 0 < c.limit <= |Live(calls, c)| && StillWaiting(later, c, FreeAt(calls, c))
    ensures Answer(Run(calls + [c] + later), d).allowed <==> d.now >= FreeAt(calls, c)
  {
    hide Answer, Run, Admitted, Live, FreeAt;
    var run := calls + [c] + later;
    assert run[|calls|] == c;
    ProperPrefix(run, d, c.meter);
    NobodyAdmittedWhileWaiting(calls, c, later);
    AdmittedFromFreeOn(calls, c, run, d);
  }

  // Retry-after is exact when the limit is not lower than it has been: a later call under the same
  // limit is admitted if and only if the announced wait is over.
  lemma RetryAfterIsExact(calls: seq<Call>, c: Call, later: seq<Call>, d: Call)
    requires Proper(calls + [c] + later + [d], c.meter) && Proper(calls + [c], c.meter)
    requires LimitedBy(calls, c.meter, c.limit) && !Answer(Run(calls), c).allowed
    requires StillWaiting(later, c, AnnouncedAt(calls, c)) && d.meter == c.meter && d.limit == c.limit
    ensures Answer(Run(calls + [c] + later), d).allowed <==> d.now >= AnnouncedAt(calls, c)
  {
    hide Answer, Run, Admitted, Live;
    RejectionNamesOldestExpiry(calls, c);
    RejectionMeansExactlyFull(calls, c);
    RetryAdmittedFromFreeOn(calls, c, later, d);
  }

  // Every retry under the same limit succeeds exactly when the announced wait is over.
  ghost predicate AnnouncesExactly(calls: seq<Call>, c: Call) {
    forall later: seq<Call>, d: Call ::
      && Proper(calls + [c] + later + [d], c.meter) && StillWaiting(later, c, AnnouncedAt(calls, c))
      && d.meter == c.meter && d.limit == c.limit
      ==> (Answer(Run(calls + [c] + later), d).allowed <==> d.now >= AnnouncedAt(calls, c))
  }

  lemma FreesAsAnnounced(calls: seq<Call>, c: Call)
    requires Proper(calls + [c], c.meter) && !Answer(Run(calls), c).allowed
    requires 0 < c.limit <= |Live(calls, c)| && FreeAt(calls, c) == AnnouncedAt(calls, c)
    ensures AnnouncesExactly(calls, c)
  {
    hide Answer, Run, Live, Proper, StillWaiting, FreeAt, AnnouncedAt;
    forall later: seq<Call>, d: Call |
      && Proper(calls + [c] + later + [d], c.meter) && StillWaiting(later, c, AnnouncedAt(calls, c))
      && d.meter == c.meter && d.limit == c.limit
      ensures Answer(Run(calls + [c] + later), d).allowed <==> d.now >= AnnouncedAt(calls, c)
    {
      RetryAdmittedFromFreeOn(calls, c, later, d);
    }
  }

  // A retry at the announced moment, with nothing in between, then comes too early.
  lemma FreesLater(calls: seq<Call>, c: Call)
    requires Proper(calls + [c], c.meter) && !Answer(Run(calls), c).allowed
    requires 0 < c.limit <= |Live(calls, c)| && FreeAt(calls, c) != AnnouncedAt(calls, c)
    ensures !AnnouncesExactly(calls, c)
  {
    hide Answer, Run, Live, FreeAt, AnnouncedAt;
    var d := Call(c.meter, c.limit, AnnouncedAt(calls, c));
    assert calls + [c] + [] == calls + [c];
    FreeNotBeforeAnnounced(calls, c);
    ProperPrefix(calls, c, c.meter);
    assert Proper(calls + [c] + [] + [d], c.meter);
    RetryAdmittedFromFreeOn(calls, c, [], d);
  }

  lemma LiveIsTheSlot(calls: seq<Call>, c: Call)
    requires Proper(calls + [c], c.meter) && c.limit > 0
    ensures Live(calls, c) == Purged(Run(calls), c)
  {
    ProperPrefix(calls, c, c.meter);
    AllowRefinesFullHistory(calls, c);
  }

  // After limits may have been lowered, the announced wait is exact if and only if the admission
  // that has to leave is as old as the oldest. That can be read off the slot at the rejection; in
  // particular it holds when the slot holds no more than the limit.
  lemma ExactlyWhenOldestFrees(calls: seq<Call>, c: Call)
    requires Proper(calls + [c], c.meter) && !Answer(Run(calls), c).allowed
    ensures 0 < c.limit <= |Live(calls, c)| && Live(calls, c) == Purged(Run(calls), c)
    ensures AnnouncesExactly(calls, c) <==> Live(calls, c)[|Live(calls, c)| - c.limit] == Live(calls, c)[0]
  {
    hide Answer, Run, Admitted, After, Proper, AnnouncesExactly;
    RejectionNamesOldestExpiry(calls, c);
    LiveIsTheSlot(calls, c);
    if FreeAt(calls, c) == AnnouncedAt(calls, c) {
      FreesAsAnnounced(calls, c);
    } else {
      FreesLater(calls, c);
    }
  }

  // A slot fuller than the limit does not by itself make the announced wait too short: two
  // admissions of the same moment leave together.
  lemma TiedAdmissionsLeaveTogether(id: string)
    ensures var calls := [Call(Rpm(id), 2, 0), Call(Rpm(id), 2, 0)];
            var c := Call(Rpm(id), 1, SECOND);
            !Answer(Run(calls), c).allowed && |Live(calls, c)| > c.limit && AnnouncesExactly(calls, c)
  {
    hide AnnouncesExactly;
    var c0, c := Call(Rpm(id), 2, 0), Call(Rpm(id), 1, SECOND);
    CollidingRunFills(id);
    AfterAll([0, 0], SECOND - MINUTE);
    assert Purged(Run([c0, c0]), c) == [0, 0];
    assert Proper([c0, c0] + [c], Rpm(id));
    ExactlyWhenOldestFrees([c0, c0], c);
  }

  lemma TwoAdmissions(id: string)
    ensures Run([Call(Rpm(id), 2, 0), Call(Rpm(id), 2, SECOND)]) == map[id := [0, SECOND]]
  {
    var c0, c1 := Call(Rpm(id), 2, 0), Call(Rpm(id), 2, SECOND);
    RunAppend([], c0, Rpm(id));
    assert [] + [c0] == [c0] && [c0] + [c1] == [c0, c1];
    assert Purged(map[], c0) == [] && [] + [0] == [0];
    assert Run([c0]) == map[id := [0]];
    RunAppend([c0], c1, Rpm(id));
    AfterAll([0], SECOND - MINUTE);
    assert Purged(Run([c0]), c1) == [0] && [0] + [SECOND] == [0, SECOND];
  }

  // Two admissions under a limit of 2, then the limit becomes 1: the rejection announces the
  // expiry of the first, but the second still fills the lowered limit at that moment.
  lemma LoweredLimitBreaksRetryAfter(id: string)
    ensures var calls := [Call(Rpm(id), 2, 0), Call(Rpm(id), 2, SECOND)];
            var c := Call(Rpm(id), 1, 2 * SECOND);
            var answer := Answer(Run(calls), c);
            !answer.allowed
            && !Answer(Run(calls + [c]), Call(Rpm(id), 1, c.now + answer.retryAfter)).allowed
  {
    hide Run, Admitted, After;
    var calls, c := [Call(Rpm(id), 2, 0), Call(Rpm(id), 2, SECOND)], Call(Rpm(id), 1, 2 * SECOND);
    TwoAdmissions(id);
    AfterAll([0, SECOND], 2 * SECOND - MINUTE);
    assert Purged(Run(calls), c) == [0, SECOND];
    LiveIsTheSlot(calls, c);
    var d := Call(Rpm(id), 1, c.now + Answer(Run(calls), c).retryAfter);
    assert calls + [c] + [] == calls + [c] && Proper(calls + [c] + [d], Rpm(id));
    RetryAdmittedFromFreeOn(calls, c, [], d);
  }
}
