/**
 The two TTL caches that suppress repeats, each against the full history of
 accepted keys that it abbreviates: cross-bridge messages
 (shared/bridge_orchestrator.py) and admin commands (modules/admin_commands).
 */
module CrossBridgeDedup {
  import opened Prelude

  const DEDUP_TTL_S: int := 120
  const SWEEP_ABOVE: int := 5000
  const BUCKET_S: int := 300

  /** The digest's input fields; the digest is taken as injective. */
  datatype Key = Key(sender: string, content: string, bucket: int)

  function DedupKey(sender: string, content: string, ts: int): Key {
    Key(sender, if |content| <= 200 then content else content[..200], ts / BUCKET_S * BUCKET_S)
  }

  /** key -> expiry. */
  type Cache = map<Key, int>

  function Sweep(c: Cache, now: int): Cache { map k | k in c && c[k] > now :: c[k] }

  predicate Cached(c: Cache, k: Key, now: int) { k in c && c[k] > now }

  /** The cache after registering `k`, and whether the message is to be skipped. */
  function Register(c: Cache, k: Key, now: int): (Cache, bool) {
    var swept := if |c| > SWEEP_ABOVE then Sweep(c, now) else c;
    if Cached(swept, k, now) then (swept, true) else (swept[k := now + DEDUP_TTL_S], false)
  }

  // ---- Against the full history ----

  type History = seq<(Key, int)>

  ghost predicate AcceptedWithinTtl(h: History, k: Key, now: int) {
    exists i :: 0 <= i < |h| && h[i].0 == k && now - h[i].1 < 120
  }

  datatype Event = Message(key: Key, at: int) | ExtraSweep(at: int)

  /** The answers of the cache, with sweeps wherever they happen. */
  function Answers(c: Cache, es: seq<Event>): seq<bool>
    decreases |es|
  {
    if es == [] then []
    else match es[0]
      case ExtraSweep(at) => Answers(Sweep(c, at), es[1..])
      case Message(k, at) => [Register(c, k, at).1] + Answers(Register(c, k, at).0, es[1..])
  }

  /** The answers of a checker that never forgets. */
  ghost function FullAnswers(h: History, es: seq<Event>): seq<bool>
    decreases |es|
  {
    if es == [] then []
    else match es[0]
      case ExtraSweep(_) => FullAnswers(h, es[1..])
      case Message(k, at) =>
        if AcceptedWithinTtl(h, k, at) then [true] + FullAnswers(h, es[1..])
        else [false] + FullAnswers(h + [(k, at)], es[1..])
  }

  predicate Ordered(clock: int, es: seq<Event>)
    decreases |es|
  {
    es == [] || (clock <= es[0].at && Ordered(es[0].at, es[1..]))
  }

  ghost predicate InHistory(h: History, k: Key, t: int) { exists i :: 0 <= i < |h| && h[i] == (k, t) }

  /** Unexpired acceptances are cached; cached expiries come from acceptances. */
  ghost predicate Faithful(c: Cache, h: History, clock: int) {
    && (forall i :: 0 <= i < |h| && clock < h[i].1 + DEDUP_TTL_S ==> h[i].0 in c && c[h[i].0] >= h[i].1 + DEDUP_TTL_S)
    && (forall k :: k in c ==> InHistory(h, k, c[k] - DEDUP_TTL_S))
  }

  lemma CacheAnswersRight(c: Cache, h: History, clock: int, k: Key, now: int)
    requires Faithful(c, h, clock) && clock <= now
    ensures Cached(c, k, now) <==> AcceptedWithinTtl(h, k, now)
  {
    if Cached(c, k, now) {
      assert InHistory(h, k, c[k] - DEDUP_TTL_S);
    }
  }

  /** A sweep drops exactly the keys whose time is up. */
  lemma SweepDropsExpired(c: Cache, now: int, k: Key)
    ensures k in Sweep(c, now) <==> k in c && now < c[k]
    ensures k in Sweep(c, now) ==> Sweep(c, now)[k] == c[k]
  {}

  lemma SweepKeepsFaith(c: Cache, h: History, clock: int, now: int)
    requires Faithful(c, h, clock) && clock <= now
    ensures Faithful(Sweep(c, now), h, now)
  {}

  lemma MarkKeepsFaith(c: Cache, h: History, k: Key, now: int)
    requires Faithful(c, h, now) && !Cached(c, k, now)
    ensures Faithful(c[k := now + DEDUP_TTL_S], h + [(k, now)], now)
  {
    var h', c' := h + [(k, now)], c[k := now + DEDUP_TTL_S];
    forall q | q in c' ensures InHistory(h', q, c'[q] - DEDUP_TTL_S) {
      if q == k {
        assert h'[|h|] == (k, now);
      } else {
        assert InHistory(h, q, c[q] - DEDUP_TTL_S);
        var i :| 0 <= i < |h| && h[i] == (q, c[q] - DEDUP_TTL_S);
        assert h'[i] == h[i];
      }
    }
  }

  lemma RegisterKeepsFaith(c: Cache, h: History, clock: int, k: Key, now: int)
    requires Faithful(c, h, clock) && clock <= now
    ensures Register(c, k, now).1 <==> AcceptedWithinTtl(h, k, now)
    ensures Faithful(Register(c, k, now).0, if Register(c, k, now).1 then h else h + [(k, now)], now)
  {
    var swept := if |c| > SWEEP_ABOVE then Sweep(c, now) else c;
    assert Faithful(swept, h, now) by {
      SweepKeepsFaith(c, h, clock, now);
    }
    CacheAnswersRight(swept, h, now, k, now);
    if !Cached(swept, k, now) {
      MarkKeepsFaith(swept, h, k, now);
    }
  }

  /** register_message says duplicate exactly when the key was accepted less than the TTL ago, whatever sweeps ran. */
  lemma {:induction false} CacheEqualsHistory(c: Cache, h: History, clock: int, es: seq<Event>)
    requires Faithful(c, h, clock) && Ordered(clock, es)
    ensures Answers(c, es) == FullAnswers(h, es)
    decreases |es|
  {
    if es != [] {
      match es[0]
      case ExtraSweep(at) =>
        SweepKeepsFaith(c, h, clock, at);
        CacheEqualsHistory(Sweep(c, at), h, at, es[1..]);
      case Message(k, at) =>
        RegisterKeepsFaith(c, h, clock, k, at);
        var (c', dup) := Register(c, k, at);
        CacheEqualsHistory(c', if dup then h else h + [(k, at)], at, es[1..]);
    }
  }

  /** A repeat within the TTL is skipped exactly when its five-minute bucket, sender and first 200 characters are the same. */
  lemma RepeatIsSkippedIff(c: Cache, sender: string, content: string, ts: int, sender': string, content': string, ts': int,
                           now: int, later: int)
    requires now <= later < now + DEDUP_TTL_S
    requires !Cached(c, DedupKey(sender, content, ts), now) && !Cached(c, DedupKey(sender', content', ts'), later)
    ensures Register(Register(c, DedupKey(sender, content, ts), now).0, DedupKey(sender', content', ts'), later).1
       <==> (sender == sender' && ts / BUCKET_S == ts' / BUCKET_S
             && content[..Min(200, |content|)] == content'[..Min(200, |content'|)])
  {
    var k, k' := DedupKey(sender, content, ts), DedupKey(sender', content', ts');
    assert content[..Min(200, |content|)] == k.content && content'[..Min(200, |content'|)] == k'.content;
    assert Cached(Register(c, k, now).0, k', later) <==> k == k';
  }

  /** The five-minute bucket has edges: one message seen a second apart across an edge is not a duplicate. */
  lemma BucketEdgeSplitsAMessage(sender: string, content: string, now: int)
    ensures DedupKey(sender, content, 299) != DedupKey(sender, content, 300)
    ensures !Register(Register(map[], DedupKey(sender, content, 299), now).0, DedupKey(sender, content, 300), now).1
  {}

  class Registry {
    var cache: Cache

    constructor ()
      ensures cache == map[]
    {
      cache := map[];
    }

    method DedupSweep(now: int)
      modifies this
      ensures cache == Sweep(old(cache), now)
    {
      var expired := set k | k in cache && cache[k] <= now;
      ghost var c0 := cache;
      ghost var gone := {};
      while expired != {}
        invariant gone + expired == set k | k in c0 && c0[k] <= now
        invariant cache == c0 - gone
        decreases |expired|
      {
        var k :| k in expired;
        cache := cache - {k};
        expired, gone := expired - {k}, gone + {k};
      }
    }

    method RegisterMessage(sender: string, content: string, ts: int, now: int) returns (duplicate: bool)
      modifies this
      ensures (cache, duplicate) == Register(old(cache), DedupKey(sender, content, ts), now)
    {
      if |cache| > SWEEP_ABOVE {
        DedupSweep(now);
      }
      var k := DedupKey(sender, content, ts);
      if k in cache && cache[k] > now {
        return true;
      }
      cache := cache[k := now + DEDUP_TTL_S];
      duplicate := false;
    }
  }
}

module CommandDedup {
  const DEDUP_TTL_S: int := 30
  const DEDUP_MAX: nat := 256

  datatype Key = Key(admin: string, text: string)

  datatype Entry = Entry(key: Key, at: int)

  /** The OrderedDict, oldest entry first. */
  type Cache = seq<Entry>

  function Evict(c: Cache, now: int): Cache {
    if c != [] && now - c[0].at > DEDUP_TTL_S then Evict(c[1..], now) else c
  }

  predicate Holds(c: Cache, k: Key) { exists i :: 0 <= i < |c| && c[i].key == k }

  function Check(c0: Cache, k: Key, now: int): (Cache, bool) {
    var c := Evict(c0, now);
    if Holds(c, k) then (c, true)
    else
      var c' := c + [Entry(k, now)];
      (if |c'| > DEDUP_MAX then c'[1..] else c', false)
  }

  // ---- Against the full history of accepted commands ----

  /** Accepted within the TTL and still among the last DEDUP_MAX accepted. */
  ghost predicate SeenInHistory(h: seq<Entry>, k: Key, now: int) {
    exists i :: 0 <= i < |h| && |h| - 256 <= i && h[i].key == k && now - h[i].at <= 30
  }

  /** The cache is the tail of the history, in time order; whatever it dropped has expired or is too far back. */
  ghost predicate Tail(c: Cache, h: seq<Entry>, clock: int) {
    && |c| <= |h| && |c| <= DEDUP_MAX && c == h[|h| - |c|..]
    && (forall i, j :: 0 <= i <= j < |h| ==> h[i].at <= h[j].at <= clock)
    && (forall i :: 0 <= i < |h| - |c| ==> i < |h| - DEDUP_MAX || clock - h[i].at > DEDUP_TTL_S)
  }

  lemma {:induction false} EvictKeepsTail(c: Cache, h: seq<Entry>, clock: int, now: int)
    requires Tail(c, h, clock) && clock <= now
    ensures Tail(Evict(c, now), h, now)
    ensures forall i :: 0 <= i < |Evict(c, now)| ==> now - Evict(c, now)[i].at <= DEDUP_TTL_S
  {
    if c != [] && now - c[0].at > DEDUP_TTL_S {
      assert c[1..] == h[|h| - |c| + 1..];
      assert Tail(c[1..], h, now) by {
        assert h[|h| - |c|] == c[0];
      }
      EvictKeepsTail(c[1..], h, now, now);
    } else {
      forall i | 0 <= i < |c| ensures now - c[i].at <= DEDUP_TTL_S {
        assert c[0] == h[|h| - |c|] && c[i] == h[|h| - |c| + i];
      }
    }
  }

  /** A tail free of expired entries holds a key exactly when the history has it. */
  lemma TailHolds(e: Cache, h: seq<Entry>, k: Key, now: int)
    requires Tail(e, h, now) && forall i :: 0 <= i < |e| ==> now - e[i].at <= DEDUP_TTL_S
    ensures Holds(e, k) <==> SeenInHistory(h, k, now)
  {
    if Holds(e, k) {
      var i :| 0 <= i < |e| && e[i].key == k;
      assert h[|h| - |e| + i] == e[i];
    }
    if SeenInHistory(h, k, now) {
      var i :| 0 <= i < |h| && |h| - DEDUP_MAX <= i && h[i].key == k && now - h[i].at <= DEDUP_TTL_S;
      assert e[i - (|h| - |e|)] == h[i];
    }
  }

  lemma TailSnoc(e: Cache, h: seq<Entry>, x: Entry)
    requires Tail(e, h, x.at)
    ensures Tail(if |e| + 1 > DEDUP_MAX then (e + [x])[1..] else e + [x], h + [x], x.at)
  {
    var h' := h + [x];
    assert e + [x] == h'[|h| - |e|..];
    assert (e + [x])[1..] == h'[|h| - |e| + 1..];
    forall i, j | 0 <= i <= j < |h'| ensures h'[i].at <= h'[j].at <= x.at {
      assert i < |h| ==> h'[i] == h[i];
      assert j < |h| ==> h'[j] == h[j];
    }
  }

  lemma CheckAgainstHistory(c: Cache, h: seq<Entry>, clock: int, k: Key, now: int)
    requires Tail(c, h, clock) && clock <= now
    ensures Check(c, k, now).1 <==> SeenInHistory(h, k, now)
    ensures Tail(Check(c, k, now).0, if Check(c, k, now).1 then h else h + [Entry(k, now)], now)
  {
    EvictKeepsTail(c, h, clock, now);
    TailHolds(Evict(c, now), h, k, now);
    TailSnoc(Evict(c, now), h, Entry(k, now));
  }

  datatype Event = Command(key: Key, at: int)

  function Answers(c: Cache, es: seq<Event>): seq<bool>
    decreases |es|
  {
    if es == [] then [] else [Check(c, es[0].key, es[0].at).1] + Answers(Check(c, es[0].key, es[0].at).0, es[1..])
  }

  ghost function FullAnswers(h: seq<Entry>, es: seq<Event>): seq<bool>
    decreases |es|
  {
    if es == [] then []
    else if SeenInHistory(h, es[0].key, es[0].at) then [true] + FullAnswers(h, es[1..])
    else [false] + FullAnswers(h + [Entry(es[0].key, es[0].at)], es[1..])
  }

  predicate Ordered(clock: int, es: seq<Event>)
    decreases |es|
  {
    es == [] || (clock <= es[0].at && Ordered(es[0].at, es[1..]))
  }

  /** _dedup_seen says seen exactly when the command was accepted within 30 s and is among the last 256 accepted. */
  lemma {:induction false} CacheEqualsHistory(c: Cache, h: seq<Entry>, clock: int, es: seq<Event>)
    requires Tail(c, h, clock) && Ordered(clock, es)
    ensures Answers(c, es) == FullAnswers(h, es)
    decreases |es|
  {
    if es != [] {
      var k, at := es[0].key, es[0].at;
      CheckAgainstHistory(c, h, clock, k, at);
      var (c', seen) := Check(c, k, at);
      CacheEqualsHistory(c', if seen then h else h + [Entry(k, at)], at, es[1..]);
    }
  }

  class Commands {
    var cache: Cache

    constructor ()
      ensures cache == []
    {
      cache := [];
    }

    method DedupSeen(k: Key, now: int) returns (seen: bool)
      modifies this
      ensures (cache, seen) == Check(old(cache), k, now)
    {
      while cache != [] && now - cache[0].at > DEDUP_TTL_S
        invariant Evict(cache, now) == Evict(old(cache), now)
        decreases |cache|
      {
        cache := cache[1..];
      }
      if exists i :: 0 <= i < |cache| && cache[i].key == k {
        return true;
      }
      cache := cache + [Entry(k, now)];
      if |cache| > DEDUP_MAX {
        cache := cache[1..];
      }
      seen := false;
    }
  }
}
