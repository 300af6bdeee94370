/** The part of a list of timestamps that a sliding window keeps. */
module SlidingWindow {

  /** The elements of `ts` less than `window` before `now`. */
  function Recent(ts: seq<int>, now: int, window: int): seq<int> {
    if ts == [] then []
    else
      var t := ts[|ts| - 1];
      Recent(ts[..|ts| - 1], now, window) + (if now - t < window then [t] else [])
  }

  /** A list trimmed earlier and trimmed again now is the full list trimmed now. */
  lemma {:induction false} TrimTwice(ts: seq<int>, earlier: int, now: int, window: int)
    requires earlier <= now
    ensures Recent(Recent(ts, earlier, window), now, window) == Recent(ts, now, window)
  {
    if ts != [] {
      var front, t := ts[..|ts| - 1], ts[|ts| - 1];
      TrimTwice(front, earlier, now, window);
      var r := Recent(front, earlier, window);
      assert (r + [t])[..|r|] == r && r + [] == r;
    }
  }

  /** The window keeps as many as there are positions less than `window` before `now`. */
  lemma {:induction false} RecentCounts(ts: seq<int>, now: int, window: int)
    ensures |Recent(ts, now, window)| == |set i | 0 <= i < |ts| && now - ts[i] < window|
  {
    if ts != [] {
      var n := |ts| - 1;
      RecentCounts(ts[..n], now, window);
      var before := set i | 0 <= i < n && now - ts[..n][i] < window;
      assert (set i | 0 <= i < |ts| && now - ts[i] < window) == if now - ts[n] < window then before + {n} else before;
    }
  }

  /** Everything the window keeps comes from the list and is less than `window` old, and everything such is kept. */
  lemma {:induction false} RecentKeeps(ts: seq<int>, now: int, window: int, t: int)
    ensures t in Recent(ts, now, window) <==> t in ts && now - t < window
  {
    if ts != [] {
      var front := ts[..|ts| - 1];
      RecentKeeps(front, now, window, t);
      assert ts == front + [ts[|ts| - 1]];
    }
  }

  predicate Sorted(ts: seq<int>) { forall i, j :: 0 <= i <= j < |ts| ==> ts[i] <= ts[j] }

  lemma {:induction false} NoneRecent(ts: seq<int>, now: int, window: int)
    requires forall i :: 0 <= i < |ts| ==> now - ts[i] >= window
    ensures Recent(ts, now, window) == []
  {
    if ts != [] {
      NoneRecent(ts[..|ts| - 1], now, window);
    }
  }

  /** If `k` timestamps are within the window, the last `k` are. */
  lemma {:induction false} LastAreRecent(ts: seq<int>, now: int, window: int, k: nat)
    requires Sorted(ts) && 1 <= k <= |Recent(ts, now, window)|
    ensures k <= |ts| && now - ts[|ts| - k] < window
  {
    var front, t := ts[..|ts| - 1], ts[|ts| - 1];
    if now - t >= window {
      NoneRecent(ts, now, window);
      assert false;
    } else if k > 1 {
      LastAreRecent(front, now, window, k - 1);
    }
  }
}
