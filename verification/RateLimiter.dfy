/** The sliding-window limiter every outbound client awaits before a call. */
module RateLimiter {

  ghost predicate Sorted(s: seq<int>) {
    forall i, j :: 0 <= i <= j < |s| ==> s[i] <= s[j]
  }

  /** _recent.filter(t => now - t < windowMs) */
  function Prune(recent: seq<int>, now: int, windowMs: int): seq<int> {
    if recent == [] then []
    else (if now - recent[0] < windowMs then [recent[0]] else []) + Prune(recent[1..], now, windowMs)
  }

  /** On a sorted list pruning is dropping a prefix: the stamps that have left the window. */
  lemma {:induction false} PruneDropsPrefix(recent: seq<int>, now: int, windowMs: int) returns (n: nat)
    requires Sorted(recent)
    ensures n <= |recent| && Prune(recent, now, windowMs) == recent[n..] && Split(recent, n, now, windowMs)
  {
    if recent == [] {
      n := 0;
    } else if now - recent[0] < windowMs {
      PruneKeepsAll(recent, now, windowMs);
      n := 0;
    } else {
      var m := PruneDropsPrefix(recent[1..], now, windowMs);
      n := m + 1;
      forall i | 0 <= i < |recent| ensures now - recent[i] < windowMs <==> i >= n {
        if i > 0 { assert recent[1..][i - 1] == recent[i]; }
      }
    }
  }

  ghost predicate Split(recent: seq<int>, n: nat, now: int, windowMs: int) {
    forall i :: 0 <= i < |recent| ==> (now - recent[i] < windowMs <==> i >= n)
  }

  lemma {:induction false} PruneKeepsAll(recent: seq<int>, now: int, windowMs: int)
    requires forall i :: 0 <= i < |recent| ==> now - recent[i] < windowMs
    ensures Prune(recent, now, windowMs) == recent
  {
    if recent != [] {
      assert forall i :: 0 <= i < |recent[1..]| ==> recent[1..][i] == recent[i + 1];
      PruneKeepsAll(recent[1..], now, windowMs);
      assert [recent[0]] + recent[1..] == recent;
    }
  }

  /** `rate` acquisitions apart, or more, means a full window apart. */
  ghost predicate Spaced(history: seq<int>, rate: nat, windowMs: int) {
    forall i, j :: 0 <= i < j < |history| && j - i >= rate ==> history[j] - history[i] >= windowMs
  }

  /** How many of the first `n` acquisitions fall into [from, from + windowMs). */
  function CountIn(history: seq<int>, n: nat, from: int, windowMs: int): nat
    requires n <= |history|
  {
    if n == 0 then 0
    else CountIn(history, n - 1, from, windowMs) + (if from <= history[n - 1] < from + windowMs then 1 else 0)
  }

  /** At most the acquisitions from index `first` on are in the window, if the earlier ones are not. */
  lemma {:induction false} CountFromIndex(history: seq<int>, n: nat, from: int, windowMs: int, first: nat)
    requires first <= n <= |history|
    requires forall i :: 0 <= i < first ==> !(from <= history[i] < from + windowMs)
    ensures CountIn(history, n, from, windowMs) <= n - first
    ensures (forall i :: first <= i < n ==> from <= history[i] < from + windowMs) ==>
              CountIn(history, n, from, windowMs) == n - first
  {
    if n > first {
      CountFromIndex(history, n - 1, from, windowMs, first);
    } else if n > 0 {
      CountFromIndex(history, n - 1, from, windowMs, n - 1);
    }
  }

  /** No window of length windowMs, wherever it starts, holds more than `rate` acquisitions. */
  lemma {:induction false} WindowBound(history: seq<int>, n: nat, rate: nat, windowMs: int, from: int)
    requires n <= |history| && rate >= 1 && Spaced(history, rate, windowMs) && Sorted(history)
    ensures CountIn(history, n, from, windowMs) <= rate
  {
    if n > 0 {
      if from <= history[n - 1] < from + windowMs {
        forall i | 0 <= i < n - rate ensures !(from <= history[i] < from + windowMs) {
          if i < n - 1 { assert history[n - 1] - history[i] >= windowMs; }
        }
        CountFromIndex(history, n, from, windowMs, if n < rate then 0 else n - rate);
      } else {
        WindowBound(history, n - 1, rate, windowMs, from);
      }
    }
  }

  /** The pruned list is a suffix of the whole history, and what was pruned is out of the window for
      good. */
  ghost predicate Sound(history: seq<int>, recent: seq<int>, lastLook: int, rate: nat, windowMs: int) {
    && Sorted(history) && Spaced(history, rate, windowMs)
    && |recent| <= |history| && recent == history[|history| - |recent|..]
    && |recent| <= rate
    && (forall i :: 0 <= i < |history| ==> history[i] <= lastLook)
    && (forall i :: 0 <= i < |history| - |recent| ==> lastLook - history[i] >= windowMs)
  }

  /** Looking at the clock and pruning forgets only stamps that no later window reaches back to. */
  lemma SoundPrune(history: seq<int>, recent: seq<int>, lastLook: int, rate: nat, windowMs: int, now: int)
    requires Sound(history, recent, lastLook, rate, windowMs) && (history == [] || now >= lastLook)
    ensures Sound(history, Prune(recent, now, windowMs), now, rate, windowMs)
    ensures AllWithin(Prune(recent, now, windowMs), now, windowMs)
  {
    SuffixSorted(history, recent);
    var n := PruneDropsPrefix(recent, now, windowMs);
    SuffixOfSuffix(history, recent, n, lastLook, now, windowMs);
  }

  ghost predicate AllWithin(recent: seq<int>, now: int, windowMs: int) {
    forall i :: 0 <= i < |recent| ==> now - recent[i] < windowMs
  }

  lemma SuffixSorted(history: seq<int>, recent: seq<int>)
    requires Sorted(history) && |recent| <= |history| && recent == history[|history| - |recent|..]
    ensures Sorted(recent)
  {
    var gone := |history| - |recent|;
    assert forall i :: 0 <= i < |recent| ==> recent[i] == history[gone + i];
  }

  lemma SuffixOfSuffix(history: seq<int>, recent: seq<int>, n: nat, lastLook: int, now: int, windowMs: int)
    requires |recent| <= |history| && recent == history[|history| - |recent|..] && n <= |recent|
    requires forall i :: 0 <= i < |history| - |recent| ==> lastLook - history[i] >= windowMs
    requires Split(recent, n, now, windowMs) && (history == [] || now >= lastLook)
    ensures recent[n..] == history[|history| - |recent[n..]|..]
    ensures forall i :: 0 <= i < |history| - |recent[n..]| ==> now - history[i] >= windowMs
    ensures AllWithin(recent[n..], now, windowMs)
  {
    var gone := |history| - |recent|;
    forall i | gone <= i < |history| ensures now - history[i] < windowMs <==> i >= gone + n {
      assert recent[i - gone] == history[i];
    }
  }

  /** Admitting with fewer than `rate` stamps left keeps any `rate` acquisitions a window apart: the
      one `rate` back was pruned. */
  lemma SoundAdmit(history: seq<int>, recent: seq<int>, now: int, rate: nat, windowMs: int)
    requires Sound(history, recent, now, rate, windowMs) && |recent| < rate
    ensures Sound(history + [now], recent + [now], now, rate, windowMs)
  {
    var h, r := history + [now], recent + [now];
    assert h[|h| - |r|..] == r;
    forall i, j | 0 <= i < j < |h| && j - i >= rate ensures h[j] - h[i] >= windowMs {
      if j == |history| {
        assert i < |history| - |recent|;
      } else {
        assert history[j] - history[i] >= windowMs;
      }
    }
  }

  /** The acquisitions of the windowMs milliseconds that end at `now`. */
  ghost function LastWindow(history: seq<int>, now: int, windowMs: int): nat {
    CountIn(history, |history|, now - windowMs + 1, windowMs)
  }

  lemma RecentIsTheWindow(history: seq<int>, recent: seq<int>, now: int, rate: nat, windowMs: int)
    requires Sound(history, recent, now, rate, windowMs) && windowMs > 0 && AllWithin(recent, now, windowMs)
    ensures LastWindow(history, now, windowMs) == |recent| <= rate
  {
    var gone := |history| - |recent|;
    forall i | 0 <= i < |history| ensures now - history[i] < windowMs <==> i >= gone {
      if i >= gone { assert recent[i - gone] == history[i]; }
    }
    CountFromIndex(history, |history|, now - windowMs + 1, windowMs, gone);
  }

  class RateLimiter {
    const rate: nat
    const windowMs: int
    var recent: seq<int>
    /** Every acquisition ever made, and the latest time anybody looked at the clock. */
    ghost var history: seq<int>
    ghost var lastLook: int

    ghost predicate Valid()
      reads this
    {
      rate >= 1 && Sound(history, recent, lastLook, rate, windowMs)
    }

    /** The clock does not run backwards. */
    ghost predicate NotBefore(now: int)
      reads this
    {
      history == [] || now >= lastLook
    }

    constructor (rate: nat, windowMs: int)
      requires rate >= 1
      ensures Valid() && this.rate == rate && this.windowMs == windowMs
      ensures recent == [] && history == []
    {
      this.rate, this.windowMs := rate, windowMs;
      recent, history, lastLook := [], [], 0;
    }

    /** One pass of the waiting loop, atomic between two awaits: admitted if fewer than `rate` stamps
        are left in the window, otherwise told how long the oldest one still stays. */
    method Attempt(now: int) returns (admitted: bool, waitMs: int)
      requires Valid() && NotBefore(now)
      modifies this`recent, this`lastLook, this`history
      ensures Valid() && lastLook == now
      ensures admitted <==> |Prune(old(recent), now, windowMs)| < rate
      ensures admitted ==> history == old(history) + [now] && recent == Prune(old(recent), now, windowMs) + [now]
      ensures !admitted ==> history == old(history) && recent == Prune(old(recent), now, windowMs)
      ensures !admitted ==> recent != [] && waitMs == windowMs - (now - recent[0]) > 0
    {
      SoundPrune(history, recent, lastLook, rate, windowMs, now);
      recent := Prune(recent, now, windowMs);
      lastLook := now;
      if |recent| < rate {
        SoundAdmit(history, recent, now, rate, windowMs);
        recent := recent + [now];
        history := history + [now];
        return true, 0;
      }
      return false, windowMs - (now - recent[0]);
    }

    /** The number of acquisitions in the window that ends now, and so never more than `rate`. */
    method CurrentCount(now: int) returns (count: nat)
      requires Valid() && NotBefore(now) && windowMs > 0
      modifies this`recent, this`lastLook
      ensures Valid() && lastLook == now
      ensures recent == Prune(old(recent), now, windowMs)
      ensures count == LastWindow(history, now, windowMs) <= rate
    {
      SoundPrune(history, recent, lastLook, rate, windowMs, now);
      recent := Prune(recent, now, windowMs);
      lastLook := now;
      RecentIsTheWindow(history, recent, now, rate, windowMs);
      return |recent|;
    }

    /** Whoever the awaiters were and however their passes interleaved. */
    lemma RateBound(from: int)
      requires Valid()
      ensures CountIn(history, |history|, from, windowMs) <= rate
    {
      WindowBound(history, |history|, rate, windowMs, from);
    }

    /** A caller nobody competes with: `lateness` is how much longer than asked its timer takes. It
        sleeps only if the window was full, and is in after one sleep. */
    method AcquireAlone(start: int, lateness: nat) returns (at: int, sleeps: nat)
      requires Valid() && NotBefore(start)
      modifies this`recent, this`lastLook, this`history
      ensures Valid() && history == old(history) + [at]
      ensures sleeps == if |Prune(old(recent), start, windowMs)| < rate then 0 else 1
      ensures sleeps == 0 ==> at == start
      ensures sleeps == 1 ==> at == Prune(old(recent), start, windowMs)[0] + windowMs + 10 + lateness
    {
      at, sleeps := start, 0;
      ghost var left := Prune(recent, start, windowMs);
      var admitted, waitMs := Attempt(at);
      while !admitted
        invariant Valid() && lastLook == at
        invariant admitted ==> history == old(history) + [at]
        invariant sleeps == 0 ==> at == start && (admitted <==> |left| < rate)
        invariant !admitted ==> sleeps == 0 && history == old(history) && recent == left
        invariant !admitted ==> recent != [] && waitMs == windowMs - (at - recent[0]) > 0
        invariant sleeps > 0 ==> sleeps == 1 && |left| >= rate && left != [] && at == left[0] + windowMs + 10 + lateness
        decreases !admitted
      {
        at := at + waitMs + 10 + lateness;
        OldestLeaves(recent, at, windowMs);
        admitted, waitMs := Attempt(at);
        sleeps := sleeps + 1;
      }
    }
  }

  lemma {:induction false} PruneShrinks(recent: seq<int>, now: int, windowMs: int)
    ensures |Prune(recent, now, windowMs)| <= |recent|
  {
    if recent != [] { PruneShrinks(recent[1..], now, windowMs); }
  }

  lemma OldestLeaves(recent: seq<int>, now: int, windowMs: int)
    requires recent != [] && now - recent[0] >= windowMs
    ensures |Prune(recent, now, windowMs)| < |recent|
  {
    PruneShrinks(recent[1..], now, windowMs);
  }
}
