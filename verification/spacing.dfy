// Counting moments that keep a distance: after the first few, any `m` + 1 successive ones take at
// least a cooldown.

module Spacing {
  import Limiter

  // How many of the moments lie in [from, to].
  function CountIn(times: seq<int>, from: int, to: int): nat {
    Limiter.CountWithin(times, from - 1, to)
  }

  predicate Ascending(times: seq<int>) {
    forall i, j :: 0 <= i < j < |times| ==> times[i] <= times[j]
  }

  predicate Spaced(times: seq<int>, threshold: int, cooldown: int, m: nat) {
    && Ascending(times)
    && forall i :: m <= i < |times| && i - m + 1 >= threshold ==> times[i - m] + cooldown <= times[i]
  }

  // One more moment, which keeps the distance.
  lemma SpacedAppend(times: seq<int>, at: int, threshold: int, cooldown: int, m: nat)
    requires Spaced(times, threshold, cooldown, m)
    requires m >= 1 && (times != [] ==> times[|times| - 1] <= at)
    requires |times| - m + 1 >= threshold && m <= |times| ==> times[|times| - m] + cooldown <= at
    ensures Spaced(times + [at], threshold, cooldown, m)
  {
    forall i | 0 <= i < |times|
      ensures times[i] <= at
    {
      assert times[i] <= times[|times| - 1];
    }
  }

  lemma SpacedInitial(times: seq<int>, threshold: int, cooldown: int, m: nat, n: nat)
    requires Spaced(times, threshold, cooldown, m) && n <= |times|
    ensures Spaced(times[..n], threshold, cooldown, m)
  {
  }

  lemma {:induction false} CountAtMost(times: seq<int>, from: int, to: int)
    ensures CountIn(times, from, to) <= |times|
    ensures to < from ==> CountIn(times, from, to) == 0
  {
    if times != [] {
      CountAtMost(times[..|times| - 1], from, to);
    }
  }

  lemma {:induction false} CountAll(times: seq<int>, from: int, to: int)
    requires forall i :: 0 <= i < |times| ==> from <= times[i] <= to
    ensures CountIn(times, from, to) == |times|
  {
    if times != [] {
      CountAll(times[..|times| - 1], from, to);
    }
  }

  // Moving the end of the interval past no moment changes nothing.
  lemma {:induction false} CountUntil(times: seq<int>, from: int, to: int, to': int)
    requires to' <= to && forall i :: 0 <= i < |times| ==> times[i] <= to'
    ensures CountIn(times, from, to) == CountIn(times, from, to')
  {
    if times != [] {
      CountUntil(times[..|times| - 1], from, to, to');
    }
  }

  lemma {:induction false} CountSplit(times: seq<int>, n: nat, from: int, to: int)
    requires n <= |times|
    ensures CountIn(times, from, to) == CountIn(times[..n], from, to) + CountIn(times[n..], from, to)
    decreases |times|
  {
    var last := |times| - 1;
    if n == |times| {
      assert times[..n] == times && times[n..] == [];
    } else {
      CountSplit(times[..last], n, from, to);
      assert times[..last][..n] == times[..n] && times[..last][n..] == times[n..][..last - n];
    }
  }

  lemma CountLast(times: seq<int>, from: int, to: int)
    requires times != []
    ensures var at := times[|times| - 1];
            CountIn(times, from, to) == CountIn(times[..|times| - 1], from, to) + if from <= at <= to then 1 else 0
  {
  }

  // A span shorter than k + 1 cooldowns.
  lemma {:induction false} SpacedCount(times: seq<int>, threshold: int, cooldown: int, m: nat,
                                       from: int, span: int, k: nat)
    requires threshold >= 1 && cooldown >= 1 && m >= 1 && Spaced(times, threshold, cooldown, m)
    requires 0 <= span < (k + 1) * cooldown
    ensures CountIn(times, from, from + span) <= threshold - 1 + m * (k + 1)
    decreases |times|
  {
    hide CountIn, Spaced;
    var n := |times|;
    AtLeastOneBatch(m, k);
    if n - m < threshold {
      CountAtMost(times, from, from + span);
    } else if from <= times[n - 1] <= from + span {
      LastBatchApart(times, threshold, cooldown, m, from, span);
      if span >= cooldown {
        OneCooldownLess(span, cooldown, k);
        SpacedCount(times[..n - m], threshold, cooldown, m, from, span - cooldown, k - 1);
        OneBatchLess(m, k);
      } else {
        CountAtMost(times[..n - m], from, from + span - cooldown);
      }
    } else {
      CountLast(times, from, from + span);
      SpacedInitial(times, threshold, cooldown, m, n - 1);
      SpacedCount(times[..n - 1], threshold, cooldown, m, from, span, k);
    }
  }

  // All but the last m lie a cooldown before the last.
  lemma LastBatchApart(times: seq<int>, threshold: int, cooldown: int, m: nat, from: int, span: int)
    requires threshold >= 1 && cooldown >= 1 && m >= 1 && Spaced(times, threshold, cooldown, m)
    requires |times| - m >= threshold
    requires times[|times| - 1] <= from + span
    ensures var earlier := times[..|times| - m];
            && Spaced(earlier, threshold, cooldown, m)
            && CountIn(times, from, from + span) <= m + CountIn(earlier, from, from + span - cooldown)
  {
    hide CountIn;
    var n := |times| - m;
    assert times[n - 1] + cooldown <= times[|times| - 1];
    SpacedInitial(times, threshold, cooldown, m, n);
    assert forall i :: 0 <= i < n ==> times[i] <= times[n - 1];
    CountSplit(times, n, from, from + span);
    CountAtMost(times[n..], from, from + span);
    CountUntil(times[..n], from, from + span, from + span - cooldown);
  }

  lemma AtLeastOneBatch(m: nat, k: nat)
    ensures m <= m * (k + 1)
  {
  }

  lemma OneBatchLess(m: nat, k: nat)
    requires k > 0
    ensures m + m * (k - 1 + 1) == m * (k + 1)
  {
  }

  lemma OneCooldownLess(span: int, cooldown: int, k: nat)
    requires 0 < cooldown <= span < (k + 1) * cooldown
    ensures k > 0 && span - cooldown < k * cooldown
  {
  }

  lemma WholeCooldowns(span: nat, cooldown: int)
    requires cooldown > 0
    ensures span / cooldown >= 0 && span / cooldown * cooldown <= span < (span / cooldown + 1) * cooldown
  {
    assert span == span / cooldown * cooldown + span % cooldown;
  }

  // Any span holds at most threshold - 1 + m * (1 + span / cooldown) of the moments.
  lemma SpacedBound(times: seq<int>, threshold: int, cooldown: int, m: nat, from: int, span: nat)
    requires threshold >= 1 && cooldown >= 1 && m >= 1 && Spaced(times, threshold, cooldown, m)
    ensures CountIn(times, from, from + span) <= threshold - 1 + m * (1 + span / cooldown)
  {
    WholeCooldowns(span, cooldown);
    SpacedCount(times, threshold, cooldown, m, from, span, span / cooldown);
  }
}
