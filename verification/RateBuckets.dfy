/** Fixed-window admission (infinitemarkets/services/email.py, infinitemarkets/services/inbox.py). */
module RateBuckets {

  /** now - now % w, with Python's floored remainder. */
  function WindowOf(now: int, width: nat): int
    requires width > 0
  {
    now - now % width
  }

  /** The window of a moment starts at the last multiple of the width. */
  lemma WindowHolds(now: int, width: nat)
    requires width > 0
    ensures WindowOf(now, width) <= now < WindowOf(now, width) + width
    ensures exists k: int :: WindowOf(now, width) == k * width
  {
    assert WindowOf(now, width) == now / width * width;
  }

  /** A counter per window start. */
  type Buckets = map<int, nat>

  function CountOf(b: Buckets, window: int): nat {
    if window in b then b[window] else 0
  }

  /** INSERT the first request, or count one more WHERE count < cap. */
  function Request(b: Buckets, window: int, cap: nat): (Buckets, bool) {
    if window !in b then (b[window := 1], true)
    else if b[window] < cap then (b[window := b[window] + 1], true)
    else (b, false)
  }

  /** The buckets after a stream of request times. */
  function After(times: seq<int>, width: nat, cap: nat): Buckets
    requires width > 0
  {
    if times == [] then map[]
    else Request(After(times[..|times| - 1], width, cap), WindowOf(times[|times| - 1], width), cap).0
  }

  function Admitted(times: seq<int>, width: nat, cap: nat, k: nat): bool
    requires width > 0 && k < |times|
  {
    Request(After(times[..k], width, cap), WindowOf(times[k], width), cap).1
  }

  /** Requests of the stream that fall in a window. */
  function Requests(times: seq<int>, width: nat, window: int): nat
    requires width > 0
  {
    if times == [] then 0
    else Requests(times[..|times| - 1], width, window) + if WindowOf(times[|times| - 1], width) == window then 1 else 0
  }

  /** Admitted requests of the stream that fall in a window. */
  function AdmittedIn(times: seq<int>, width: nat, cap: nat, window: int): nat
    requires width > 0
  {
    if times == [] then 0
    else
      AdmittedIn(times[..|times| - 1], width, cap, window) +
      if WindowOf(times[|times| - 1], width) == window && Admitted(times, width, cap, |times| - 1) then 1 else 0
  }

  /** Admitted requests whose time lies in [from, to). */
  function AdmittedBetween(times: seq<int>, width: nat, cap: nat, from: int, to: int): nat
    requires width > 0
  {
    if times == [] then 0
    else
      AdmittedBetween(times[..|times| - 1], width, cap, from, to) +
      if from <= times[|times| - 1] < to && Admitted(times, width, cap, |times| - 1) then 1 else 0
  }

  function Min(a: nat, b: nat): nat {
    if a <= b then a else b
  }

  /** Each window admits exactly the smaller of its requests and the cap, in any order of arrival. */
  lemma {:induction false} WindowAdmitsExactly(times: seq<int>, width: nat, cap: nat, window: int)
    requires width > 0 && cap >= 1
    ensures AdmittedIn(times, width, cap, window) == Min(Requests(times, width, window), cap)
    ensures CountOf(After(times, width, cap), window) == AdmittedIn(times, width, cap, window)
    ensures window in After(times, width, cap) <==> Requests(times, width, window) > 0
  {
    if times != [] {
      WindowAdmitsExactly(times[..|times| - 1], width, cap, window);
    }
  }

  /** Without a cap of at least one the first request still passes: the insert checks nothing. */
  lemma ZeroCapAdmitsOne(time: int, width: nat)
    requires width > 0
    ensures Admitted([time], width, 0, 0)
  {
  }

  lemma FactorsKeepOrder(w: int, x: int, y: int)
    requires w > 0 && w * x < w * y
    ensures x < y
  {
  }

  /** An interval no longer than a window touches at most two windows. */
  lemma TwoWindows(t: int, from: int, to: int, width: nat)
    requires width > 0 && from <= t < to && to - from <= width
    ensures WindowOf(t, width) == WindowOf(from, width) || WindowOf(t, width) == WindowOf(from, width) + width
  {
    var a, b := from / width, t / width;
    assert WindowOf(from, width) == width * a && WindowOf(t, width) == width * b;
    assert width * (a + 2) == width * a + width + width && width * (b + 1) == width * b + width;
    FactorsKeepOrder(width, b, a + 2);
    FactorsKeepOrder(width, a, b + 1);
    assert width * (a + 1) == width * a + width;
  }

  lemma {:induction false} BetweenIsInTwo(times: seq<int>, width: nat, cap: nat, from: int, to: int)
    requires width > 0 && to - from <= width
    ensures
      AdmittedBetween(times, width, cap, from, to) <=
      AdmittedIn(times, width, cap, WindowOf(from, width)) + AdmittedIn(times, width, cap, WindowOf(from, width) + width)
  {
    if times != [] {
      BetweenIsInTwo(times[..|times| - 1], width, cap, from, to);
      var t := times[|times| - 1];
      if from <= t < to {
        TwoWindows(t, from, to, width);
      }
    }
  }

  /** Any interval no longer than one window admits at most twice the cap. */
  lemma {:induction false} AnyIntervalAdmitsAtMostTwiceTheCap(times: seq<int>, width: nat, cap: nat, from: int, to: int)
    requires width > 0 && cap >= 1 && to - from <= width
    ensures AdmittedBetween(times, width, cap, from, to) <= 2 * cap
  {
    BetweenIsInTwo(times, width, cap, from, to);
    WindowAdmitsExactly(times, width, cap, WindowOf(from, width));
    WindowAdmitsExactly(times, width, cap, WindowOf(from, width) + width);
  }

  class RateLimiter {
    const width: nat
    const cap: nat
    var buckets: Buckets
    ghost var times: seq<int>

    ghost predicate Valid()
      reads this
    {
      width > 0 && buckets == After(times, width, cap)
    }

    constructor (width: nat, cap: nat)
      requires width > 0
      ensures Valid() && times == [] && this.width == width && this.cap == cap
    {
      this.width, this.cap, buckets, times := width, cap, map[], [];
    }

    /** Admitted exactly while fewer than `cap` requests were made in the window, or on its first. */
    method Ask(now: int) returns (ok: bool)
      requires Valid()
      modifies this
      ensures Valid() && times == old(times) + [now]
      ensures cap >= 1 ==> (ok <==> Requests(old(times), width, WindowOf(now, width)) < cap)
    {
      if cap >= 1 {
        WindowAdmitsExactly(times, width, cap, WindowOf(now, width));
      }
      var window := now - now % width;
      assert (times + [now])[..|times|] == times;
      times := times + [now];
      if window !in buckets {
        buckets, ok := buckets[window := 1], true;
      } else if buckets[window] < cap {
        buckets, ok := buckets[window := buckets[window] + 1], true;
      } else {
        ok := false;
      }
    }
  }
}
