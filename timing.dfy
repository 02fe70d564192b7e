/**
 * Time-windowed queues: the frame-rate counter (a bounded queue of gaps between
 * calls) and the value history (an append-only queue of timestamped values with
 * a 70-second retention and a staleness query). Time is seconds as a real; each
 * operation receives the current time as `now` instead of reading the clock.
 */
module Timing {
  import opened Wrappers

  /** A value with the time it was recorded at. */
  datatype Stamped<T> = Stamped(t: real, val: T)

  /** Timestamps in insertion order never go backwards. */
  predicate Sorted<T>(s: seq<Stamped<T>>) {
    forall i, j :: 0 <= i < j < |s| ==> s[i].t <= s[j].t
  }

  /** Every entry was recorded at or after `cutoff`. */
  predicate NotBefore<T>(s: seq<Stamped<T>>, cutoff: real) {
    forall i :: 0 <= i < |s| ==> cutoff <= s[i].t
  }

  /** Every entry was recorded at or before `now`. */
  predicate NotAfter<T>(s: seq<Stamped<T>>, now: real) {
    forall i :: 0 <= i < |s| ==> s[i].t <= now
  }

  /** Removes entries from the front while the oldest one is older than `cutoff`:
      the result is the longest suffix that starts with an entry not older than
      `cutoff`, and everything removed was older. */
  function DropStale<T>(s: seq<Stamped<T>>, cutoff: real): (r: seq<Stamped<T>>)
    ensures |r| <= |s| && r == s[|s| - |r|..]
    ensures r == [] || cutoff <= r[0].t
    decreases |s|
  {
    if s != [] && s[0].t < cutoff then DropStale(s[1..], cutoff) else s
  }

  /** Everything `DropStale` removes is older than `cutoff`. */
  lemma {:induction false} DropStaleOnlyStale<T>(s: seq<Stamped<T>>, cutoff: real, i: nat)
    requires i < |s| - |DropStale(s, cutoff)|
    ensures s[i].t < cutoff
    decreases |s|
  {
    if i > 0 {
      DropStaleOnlyStale(s[1..], cutoff, i - 1);
    }
  }

  /** Removing stale entries stops at the first entry that is not older than `cutoff`. */
  lemma {:induction false} DropStaleAt<T>(s: seq<Stamped<T>>, k: nat, cutoff: real)
    requires k <= |s|
    requires forall i :: 0 <= i < k ==> s[i].t < cutoff
    requires k == |s| || cutoff <= s[k].t
    ensures DropStale(s, cutoff) == s[k..]
    decreases k
  {
    if k > 0 {
      DropStaleAt(s[1..], k - 1, cutoff);
      assert s[1..][k - 1..] == s[k..];
    }
  }

  /** On a queue in time order, nothing older than `cutoff` survives, and what remains
      is still in order. */
  lemma DropStaleSorted<T>(s: seq<Stamped<T>>, cutoff: real)
    requires Sorted(s)
    ensures Sorted(DropStale(s, cutoff)) && NotBefore(DropStale(s, cutoff), cutoff)
  {
    var r := DropStale(s, cutoff);
    SuffixSorted(s, |s| - |r|);
    forall i | 0 <= i < |r|
      ensures cutoff <= r[i].t
    {
      assert r[0].t <= r[i].t;
    }
  }

  /** Every suffix of a queue in time order is in time order. */
  lemma SuffixSorted<T>(s: seq<Stamped<T>>, k: nat)
    requires Sorted(s) && k <= |s|
    ensures Sorted(s[k..])
  {
    var r := s[k..];
    forall i, j | 0 <= i < j < |r|
      ensures r[i].t <= r[j].t
    {
      assert r[i] == s[k + i] && r[j] == s[k + j];
    }
  }

  /** Removing entries keeps every remaining one at or before `now`. */
  lemma DropStaleNotAfter<T>(s: seq<Stamped<T>>, cutoff: real, now: real)
    requires NotAfter(s, now)
    ensures NotAfter(DropStale(s, cutoff), now)
  {
    var r := DropStale(s, cutoff);
    var off := |s| - |r|;
    forall i | 0 <= i < |r|
      ensures r[i].t <= now
    {
      assert r[i] == s[off + i];
    }
  }

  /** Appending an entry not older than any queued one keeps the queue in order, and
      every entry is then at or before the new one. */
  lemma SortedAppend<T>(s: seq<Stamped<T>>, e: Stamped<T>)
    requires Sorted(s) && NotAfter(s, e.t)
    ensures Sorted(s + [e]) && NotAfter(s + [e], e.t)
  {
    var full := s + [e];
    forall i | 0 <= i < |s|
      ensures full[i] == s[i]
    {
    }
    forall i, j | 0 <= i < j < |full|
      ensures full[i].t <= full[j].t
    {
      assert full[i] == s[i];
    }
    forall i | 0 <= i < |full|
      ensures full[i].t <= e.t
    {
    }
  }

  /** Appending an entry not before `lo` to a queue not before `lo`. */
  lemma AppendNotBefore<T>(s: seq<Stamped<T>>, e: Stamped<T>, lo: real)
    requires NotBefore(s, lo) && lo <= e.t
    ensures NotBefore(s + [e], lo)
  {
    var full := s + [e];
    forall i | 0 <= i < |full|
      ensures lo <= full[i].t
    {
      if i < |s| {
        assert full[i] == s[i];
      }
    }
  }

  // ---------------------------------------------------------------- History

  /** Seconds an entry of a `History` is kept. */
  const Retention: real := 70.0

  /** The queue after `AddValue(val)` at time `now`: append, then drop what is older than 70 s. */
  function Added(s: seq<Stamped<real>>, now: real, val: real): seq<Stamped<real>> {
    DropStale(s + [Stamped(now, val)], now - Retention)
  }

  /** The entry just added always survives, is the last one, and the survivors are the
      newest entries of the old queue in their old order. */
  lemma AddedKeepsNewEntry(s: seq<Stamped<real>>, now: real, val: real)
    ensures var r := Added(s, now, val);
      r != [] && r[|r| - 1] == Stamped(now, val) && r[..|r| - 1] == s[|s| - (|r| - 1)..]
  {
    var full := s + [Stamped(now, val)];
    var r := Added(s, now, val);
    assert r != [] by {
      if r == [] {
        DropStaleOnlyStale(full, now - Retention, |full| - 1);
      }
    }
    assert r == full[|full| - |r|..];
  }

  /** With nondecreasing timestamps, no entry older than 70 s remains after an insert,
      and the queue stays in time order. */
  lemma AddedRetainsWindow(s: seq<Stamped<real>>, now: real, val: real)
    requires Sorted(s) && NotAfter(s, now)
    ensures Sorted(Added(s, now, val)) && NotBefore(Added(s, now, val), now - Retention)
    ensures NotAfter(Added(s, now, val), now)
  {
    var e := Stamped(now, val);
    SortedAppend(s, e);
    DropStaleSorted(s + [e], now - Retention);
    DropStaleNotAfter(s + [e], now - Retention, now);
  }

  /** `Last(limit)` at time `now`: nothing when the queue is empty or its last entry
      is older than `limit` seconds; otherwise the last value. An age of exactly
      `limit` still counts as fresh. */
  function Latest(s: seq<Stamped<real>>, now: real, limit: real): (r: Option<real>)
    ensures r == None <==> s == [] || s[|s| - 1].t < now - limit
    ensures r != None ==> r.value == s[|s| - 1].val
  {
    if |s| == 0 then None
    else
      var last := s[|s| - 1];
      if last.t < now - limit then None else Some(last.val)
  }

  /** Right after `AddValue(val)` at `now`, a query at `later` with age limit `limit`
      reports `val` exactly while `later - limit <= now`. */
  lemma LatestAfterAdd(s: seq<Stamped<real>>, now: real, val: real, later: real, limit: real)
    ensures Latest(Added(s, now, val), later, limit) == if later - limit <= now then Some(val) else None
  {
    AddedKeepsNewEntry(s, now, val);
  }

  /** An append-only queue of timestamped values with eager 70-second eviction. */
  class History {
    var entries: seq<Stamped<real>>

    constructor ()
      ensures entries == []
    {
      entries := [];
    }

    /** Enqueues `(now, val)`, then dequeues from the front while the oldest entry is
        older than 70 s. The front is never empty inside the loop: the new entry is
        not older than the cutoff and stops it. */
    method AddValue(now: real, val: real)
      modifies this
      ensures entries == Added(old(entries), now, val)
      ensures entries != [] && entries[|entries| - 1] == Stamped(now, val)
    {
      ghost var full := entries + [Stamped(now, val)];
      ghost var k := 0;
      entries := entries + [Stamped(now, val)];
      while entries[0].t < now - Retention
        invariant 0 <= k < |full| && entries == full[k..]
        invariant forall i :: 0 <= i < k ==> full[i].t < now - Retention
        decreases |entries|
      {
        entries := entries[1..];
        k := k + 1;
      }
      DropStaleAt(full, k, now - Retention);
    }

    /** The last value if it is at most `limit` seconds old at time `now`. */
    function Last(now: real, limit: real): (r: Option<real>)
      reads this
      ensures r == None <==> entries == [] || entries[|entries| - 1].t < now - limit
      ensures r != None ==> r.value == entries[|entries| - 1].val
    {
      Latest(entries, now, limit)
    }
  }

  // ---------------------------------------------------------------- FpsCounter

  /** Most gaps a counter keeps. */
  const MaxGaps: nat := 100

  /** Fewest gaps for which a rate is reported. */
  const MinGapsForRate: nat := 5

  /** The last `cap` elements of `s` (all of them if there are fewer), in order. */
  function Newest(s: seq<real>, cap: nat): seq<real> {
    if |s| <= cap then s else s[|s| - cap..]
  }

  /** Keeping the newest `cap` before appending and after appending agree. */
  lemma NewestAppend(s: seq<real>, d: real, cap: nat)
    ensures Newest(Newest(s, cap) + [d], cap) == Newest(s + [d], cap)
  {
    var n := Newest(s, cap);
    if |s| > cap {
      assert s[|s| - cap..] + [d] == (s + [d])[|s| - cap..];
      if cap > 0 {
        assert (n + [d])[1..] == (s + [d])[|s| + 1 - cap..];
      }
    }
  }

  /** The gaps between consecutive timestamps. */
  function Gaps(ts: seq<real>): (g: seq<real>)
    ensures |g| == if ts == [] then 0 else |ts| - 1
  {
    if |ts| <= 1 then [] else seq(|ts| - 1, i requires 0 <= i < |ts| - 1 => ts[i + 1] - ts[i])
  }

  lemma GapAt(ts: seq<real>, i: nat)
    requires i + 1 < |ts|
    ensures Gaps(ts)[i] == ts[i + 1] - ts[i]
  {
  }

  lemma GapsAppend(ts: seq<real>, t: real)
    requires ts != []
    ensures Gaps(ts + [t]) == Gaps(ts) + [t - ts[|ts| - 1]]
  {
    var full := ts + [t];
    var a, b := Gaps(full), Gaps(ts) + [t - ts[|ts| - 1]];
    assert |a| == |b|;
    forall i | 0 <= i < |a|
      ensures a[i] == b[i]
    {
      GapAt(full, i);
      assert full[i] == ts[i];
      if i + 1 < |ts| {
        GapAt(ts, i);
        assert full[i + 1] == ts[i + 1];
      }
    }
  }

  function Sum(s: seq<real>): real
    decreases |s|
  {
    if s == [] then 0.0 else Sum(s[..|s| - 1]) + s[|s| - 1]
  }

  /** The gaps between consecutive timestamps add up to the time from the first to the last. */
  lemma {:induction false} GapsTelescope(ts: seq<real>)
    requires ts != []
    ensures Sum(Gaps(ts)) == ts[|ts| - 1] - ts[0]
    decreases |ts|
  {
    if |ts| > 1 {
      var init := ts[..|ts| - 1];
      GapsTelescope(init);
      assert ts == init + [ts[|ts| - 1]];
      GapsAppend(init, ts[|ts| - 1]);
      assert Gaps(ts)[..|Gaps(ts)| - 1] == Gaps(init);
    }
  }

  /** The newest `k` gaps are the gaps of the newest `k + 1` timestamps. */
  lemma NewestGaps(ts: seq<real>, k: nat)
    requires k < |ts|
    ensures Newest(Gaps(ts), k) == Gaps(ts[|ts| - 1 - k..])
  {
    var g := Gaps(ts);
    var tail := ts[|ts| - 1 - k..];
    var ng := Newest(g, k);
    var gt := Gaps(tail);
    assert |ng| == k;
    assert |gt| == k;
    forall i | 0 <= i < k
      ensures ng[i] == gt[i]
    {
      var j := |ts| - 1 - k + i;
      assert ng[i] == g[j];
      GapAt(ts, j);
      GapAt(tail, i);
      assert tail[i] == ts[j];
      assert tail[i + 1] == ts[j + 1];
    }
    assert ng == gt;
  }

  /** A reported rate: a number of frames per second, or IEEE infinity when the mean gap is 0. */
  datatype Rate = Hz(value: real) | Infinite

  /** The counter's fields as they are after calls at `stamps`: the last call time, and
      the gaps between consecutive calls, newest 100 only. */
  ghost predicate Tracks(stamps: seq<real>, last: Option<real>, times: seq<real>) {
    (stamps == [] <==> last == None) &&
    (stamps != [] ==> last == Some(stamps[|stamps| - 1])) &&
    times == Newest(Gaps(stamps), MaxGaps)
  }

  /** One more call at `now` moves the fields from `last` and `times` to `Some(now)` and
      the newest 100 of `times` followed, unless `last` is `None`, by the new gap. */
  lemma TracksAfterFrame(stamps: seq<real>, last: Option<real>, times: seq<real>, now: real)
    requires Tracks(stamps, last, times)
    ensures last == None ==> times == [] && Tracks(stamps + [now], Some(now), [])
    ensures last != None ==> Tracks(stamps + [now], Some(now), Newest(times + [now - last.value], MaxGaps))
  {
    var next := stamps + [now];
    assert next[|next| - 1] == now;
    if stamps == [] {
      assert Gaps(next) == [];
    } else {
      var gap := now - stamps[|stamps| - 1];
      GapsAppend(stamps, now);
      NewestAppend(Gaps(stamps), gap, MaxGaps);
      assert Newest(Gaps(next), MaxGaps) == Newest(times + [gap], MaxGaps);
    }
  }

  /** Counts calls and the gaps between them, keeping at most the newest 100 gaps. */
  class FpsCounter {
    var times: seq<real>
    var last: Option<real>
    /** Every time `CountFrame` was called at, oldest first. */
    ghost var stamps: seq<real>

    ghost predicate Valid()
      reads this
    {
      Tracks(stamps, last, times)
    }

    constructor ()
      ensures Valid() && stamps == [] && times == [] && last == None
    {
      times, last := [], None;
      stamps := [];
    }

    /** Dequeues the oldest gaps until at most 100 remain. */
    method Evict()
      modifies this`times
      ensures times == Newest(old(times), MaxGaps)
    {
      ghost var full := times;
      while |times| > MaxGaps
        invariant |full| > MaxGaps ==> |times| >= MaxGaps
        invariant |full| <= MaxGaps ==> times == full
        invariant |times| <= |full| && times == full[|full| - |times|..]
        decreases |times|
      {
        times := times[1..];
      }
    }

    /** Returns the time since the previous call (0 on the first call, when nothing is
        enqueued), enqueues that gap, evicts the oldest gaps beyond 100 and records `now`. */
    method CountFrame(now: real) returns (dt: real)
      requires Valid()
      modifies this
      ensures Valid() && stamps == old(stamps) + [now]
      ensures last == Some(now)
      ensures old(last) == None ==> dt == 0.0 && times == [] == old(times)
      ensures old(last) != None ==> dt == now - old(last).value && times == Newest(old(times) + [dt], MaxGaps)
      ensures |times| <= MaxGaps
    {
      TracksAfterFrame(stamps, last, times, now);
      dt := 0.0;
      if last != None {
        dt := now - last.value;
        times := times + [dt];
      }
      Evict();
      last := Some(now);
      stamps := stamps + [now];
    }

    /** 0 while fewer than 5 gaps are stored (and only then); otherwise the number of
        gaps per second of the time they span. */
    function AvgFps(): (r: Rate)
      reads this
      ensures r == Hz(0.0) <==> |times| < MinGapsForRate
      ensures |times| >= MinGapsForRate && Sum(times) != 0.0 ==> r == Hz(|times| as real / Sum(times))
      ensures |times| >= MinGapsForRate && Sum(times) == 0.0 ==> r == Infinite
    {
      if |times| < MinGapsForRate then Hz(0.0)
      else if Sum(times) == 0.0 then Infinite
      else
        var n := |times| as real;
        assert 1.0 / (Sum(times) / n) == n / Sum(times);
        Hz(1.0 / (Sum(times) / n))
    }
  }

  /** Once at least 5 gaps are stored, the reported rate is the number n of stored gaps
      over the time between the newest call and the call n calls before it. */
  lemma AvgFpsIsWindowRate(c: FpsCounter)
    requires c.Valid() && |c.times| >= MinGapsForRate
    ensures var s, n := c.stamps, |c.times|;
      n < |s| &&
      (s[|s| - 1] == s[|s| - 1 - n] ==> c.AvgFps() == Infinite) &&
      (s[|s| - 1] != s[|s| - 1 - n] ==> c.AvgFps() == Hz(n as real / (s[|s| - 1] - s[|s| - 1 - n])))
  {
    var s, n := c.stamps, |c.times|;
    var g := Gaps(s);
    assert n <= |g| && Newest(g, MaxGaps) == Newest(g, n);
    NewestGaps(s, n);
    var tail := s[|s| - 1 - n..];
    GapsTelescope(tail);
    assert tail[|tail| - 1] == s[|s| - 1] && tail[0] == s[|s| - 1 - n];
    assert Sum(c.times) == s[|s| - 1] - s[|s| - 1 - n];
  }
}
