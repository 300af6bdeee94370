/**
 The per-bridge circuit breaker of app/bridge.py, against the full history that
 its trimmed failure list abbreviates.
 */
module CircuitBreaker {
  import opened Prelude
  import opened SlidingWindow

  datatype Config = Config(threshold: int, window: int, openFor: int)

  datatype Breaker = Breaker(failures: seq<int>, openedAt: Option<int>, probing: bool)

  const CLOSED: Breaker := Breaker([], None, false)

  datatype State = Closed | Open | HalfOpen

  function StateAt(c: Config, b: Breaker, now: int): State {
    if b.openedAt.None? then Closed else if now - b.openedAt.value >= c.openFor then HalfOpen else Open
  }

  function Allow(c: Config, b: Breaker, now: int): (Breaker, bool) {
    match StateAt(c, b, now)
    case Closed => (b, true)
    case Open => (b, false)
    case HalfOpen => if b.probing then (b, false) else (b.(probing := true), true)
  }

  function Fail(c: Config, b: Breaker, now: int): (Breaker, bool) {
    if b.openedAt.Some? then (b.(openedAt := Some(now), probing := false), false)
    else
      var failures := Recent(b.failures, now, c.window) + [now];
      if |failures| >= c.threshold then (b.(failures := failures, openedAt := Some(now)), true)
      else (b.(failures := failures), false)
  }

  datatype Event = Ask(at: int) | Succeed(at: int) | Failed(at: int)

  function Step(c: Config, b: Breaker, e: Event): Breaker {
    match e
    case Ask(at) => Allow(c, b, at).0
    case Succeed(_) => CLOSED
    case Failed(at) => Fail(c, b, at).0
  }

  function Run(c: Config, b: Breaker, es: seq<Event>): Breaker
    decreases |es|
  {
    if es == [] then b else Run(c, Step(c, b, es[0]), es[1..])
  }

  predicate Ordered(clock: int, es: seq<Event>)
    decreases |es|
  {
    es == [] || (clock <= es[0].at && Ordered(es[0].at, es[1..]))
  }

  // ---- The trimmed list against the whole history ----

  /** The failures of a history that count at its last one: that one and those within the window before it. */
  function InWindow(h: seq<int>, window: int): seq<int> {
    if h == [] then [] else Recent(h[..|h| - 1], h[|h| - 1], window) + [h[|h| - 1]]
  }

  /** The breaker's own record, untrimmed: failures recorded while closed since the last success. */
  datatype Full = Full(history: seq<int>, openedAt: Option<int>)

  /** The reference breaker: it opens when the untrimmed history holds enough failures within the window. */
  function FullStep(c: Config, f: Full, e: Event): Full {
    match e
    case Ask(_) => f
    case Succeed(_) => Full([], None)
    case Failed(at) =>
      if f.openedAt.Some? then f.(openedAt := Some(at))
      else
        var h := f.history + [at];
        Full(h, if |InWindow(h, c.window)| >= c.threshold then Some(at) else None)
  }

  function FullRun(c: Config, f: Full, es: seq<Event>): Full
    decreases |es|
  {
    if es == [] then f else FullRun(c, FullStep(c, f, es[0]), es[1..])
  }

  /** The list is the history filtered by the window at the last failure recorded, and both are open alike. */
  ghost predicate Abbreviates(c: Config, b: Breaker, f: Full, clock: int) {
    && b.openedAt == f.openedAt
    && (forall i :: 0 <= i < |f.history| ==> f.history[i] <= clock)
    && b.failures == InWindow(f.history, c.window)
  }

  lemma AbbreviatesStep(c: Config, b: Breaker, f: Full, clock: int, e: Event)
    requires Abbreviates(c, b, f, clock) && clock <= e.at
    ensures Abbreviates(c, Step(c, b, e), FullStep(c, f, e), e.at)
  {
    if e.Failed? && b.openedAt.None? {
      InWindowSnoc(f.history, e.at, c.window);
    }
  }

  /** Trimming the trimmed list at the next failure gives what trimming the whole history there gives. */
  lemma InWindowSnoc(h: seq<int>, at: int, window: int)
    requires forall i :: 0 <= i < |h| ==> h[i] <= at
    ensures InWindow(h + [at], window) == Recent(InWindow(h, window), at, window) + [at]
  {
    assert (h + [at])[..|h|] == h;
    if h != [] {
      RecentInWindow(h, at, window);
    }
  }

  lemma RecentInWindow(h: seq<int>, at: int, window: int)
    requires h != [] && h[|h| - 1] <= at
    ensures Recent(InWindow(h, window), at, window) == Recent(h, at, window)
  {
    var front, last := h[..|h| - 1], h[|h| - 1];
    TrimTwice(front, last, at, window);
    var r := Recent(front, last, window);
    assert (r + [last])[..|r|] == r;
  }

  /** The clock runs from `clock` over the steps and has not passed `end`. */
  predicate OrderedUntil(clock: int, es: seq<Event>, end: int) {
    Ordered(clock, es) && clock <= end && forall i :: 0 <= i < |es| ==> es[i].at <= end
  }

  /**
   In every run the trimmed list equals the full history of closed-state failures
   since the last success, filtered by the window at the last of them, and the
   breaker is open exactly when the reference breaker over that history is.
   */
  lemma {:induction false} TrimmedListIsEnough(c: Config, b: Breaker, f: Full, clock: int, es: seq<Event>, end: int)
    requires Abbreviates(c, b, f, clock) && OrderedUntil(clock, es, end)
    ensures Abbreviates(c, Run(c, b, es), FullRun(c, f, es), end)
    decreases |es|
  {
    if es != [] {
      AbbreviatesStep(c, b, f, clock, es[0]);
      TrimmedListIsEnough(c, Step(c, b, es[0]), FullStep(c, f, es[0]), es[0].at, es[1..], end);
    }
  }

  /** A failure while closed opens the breaker exactly when it is at least the threshold-th within the window. */
  lemma OpensAtThreshold(c: Config, es: seq<Event>, at: int)
    requires OrderedUntil(0, es, at) && Run(c, CLOSED, es).openedAt.None?
    ensures Fail(c, Run(c, CLOSED, es), at).1
       <==> |InWindow(FullRun(c, Full([], None), es).history + [at], c.window)| >= c.threshold
  {
    TrimmedListIsEnough(c, CLOSED, Full([], None), 0, es, at);
    AbbreviatesStep(c, Run(c, CLOSED, es), FullRun(c, Full([], None), es), at, Failed(at));
  }

  // ---- Probes ----

  /** A probe: a request let through while the breaker is half open. */
  predicate Probe(c: Config, b: Breaker, e: Event) {
    e.Ask? && b.openedAt.Some? && Allow(c, b, e.at).1
  }

  predicate NoSuccess(es: seq<Event>) { forall i :: 0 <= i < |es| ==> !es[i].Succeed? }

  /** Since a probe at `t` and with no success: still opened, and the probe is pending or a failure came after it. */
  predicate SinceProbe(b: Breaker, t: int) {
    b.openedAt.Some? && (b.probing || t <= b.openedAt.value)
  }

  lemma {:induction false} SinceProbeKept(c: Config, b: Breaker, t: int, clock: int, es: seq<Event>)
    requires SinceProbe(b, t) && t <= clock && Ordered(clock, es) && NoSuccess(es)
    ensures SinceProbe(Run(c, b, es), t)
    decreases |es|
  {
    if es != [] {
      SinceProbeKept(c, Step(c, b, es[0]), t, es[0].at, es[1..]);
    }
  }

  /** Two probes with no success between them are at least openFor apart. */
  lemma ProbesAreSpaced(c: Config, b: Breaker, first: Event, es: seq<Event>, second: Event)
    requires Probe(c, b, first) && Ordered(first.at, es) && NoSuccess(es)
    requires Probe(c, Run(c, Step(c, b, first), es), second)
    ensures second.at - first.at >= c.openFor
  {
    SinceProbeKept(c, Step(c, b, first), first.at, first.at, es);
  }

  /** Between reports at most one probe is granted: without a report every later request is refused, for ever. */
  lemma {:induction false} OneProbeBetweenReports(c: Config, b: Breaker, first: Event, es: seq<Event>, later: Event)
    requires Probe(c, b, first) && later.Ask? && forall i :: 0 <= i < |es| ==> es[i].Ask?
    ensures !Allow(c, Run(c, Step(c, b, first), es), later.at).1
  {
    AsksChangeNothing(c, Step(c, b, first), es);
  }

  lemma {:induction false} AsksChangeNothing(c: Config, b: Breaker, es: seq<Event>)
    requires b.openedAt.Some? && b.probing && forall i :: 0 <= i < |es| ==> es[i].Ask?
    ensures Run(c, b, es) == b
    decreases |es|
  {
    if es != [] {
      AsksChangeNothing(c, b, es[1..]);
    }
  }

  // ---- Who is let through ----

  /** Whether a probe has been granted and not reported on, told from the run alone. */
  function ProbePending(c: Config, f: Full, es: seq<Event>, pending: bool): bool
    decreases |es|
  {
    if es == [] then pending
    else ProbePending(c, FullStep(c, f, es[0]), es[1..],
                      match es[0]
                      case Ask(at) => pending || (f.openedAt.Some? && at - f.openedAt.value >= c.openFor)
                      case Succeed(_) => false
                      case Failed(_) => pending && f.openedAt.None?)
  }

  lemma {:induction false} ProbingIsPending(c: Config, b: Breaker, f: Full, clock: int, es: seq<Event>, end: int)
    requires Abbreviates(c, b, f, clock) && OrderedUntil(clock, es, end) && (b.openedAt.None? ==> !b.probing)
    ensures Run(c, b, es).probing == ProbePending(c, f, es, b.probing)
    decreases |es|
  {
    if es != [] {
      AbbreviatesStep(c, b, f, clock, es[0]);
      ProbingIsPending(c, Step(c, b, es[0]), FullStep(c, f, es[0]), es[0].at, es[1..], end);
    }
  }

  /**
   After every run a request is let through exactly when the breaker over the full
   history is closed, or was opened at least openFor ago and no probe is pending.
   */
  lemma AllowedIff(c: Config, es: seq<Event>, at: int)
    requires OrderedUntil(0, es, at)
    ensures var f := FullRun(c, Full([], None), es);
            Allow(c, Run(c, CLOSED, es), at).1 <==>
              f.openedAt.None? || (at - f.openedAt.value >= c.openFor && !ProbePending(c, Full([], None), es, false))
  {
    TrimmedListIsEnough(c, CLOSED, Full([], None), 0, es, at);
    ProbingIsPending(c, CLOSED, Full([], None), 0, es, at);
  }

  /** The threshold counts the failures themselves: those less than the window before this one, and this one. */
  lemma OpensAtCount(c: Config, es: seq<Event>, at: int)
    requires OrderedUntil(0, es, at) && Run(c, CLOSED, es).openedAt.None?
    ensures var h := FullRun(c, Full([], None), es).history;
            Fail(c, Run(c, CLOSED, es), at).1 <==> |set i | 0 <= i < |h| && at - h[i] < c.window| + 1 >= c.threshold
  {
    OpensAtThreshold(c, es, at);
    var h := FullRun(c, Full([], None), es).history;
    assert (h + [at])[..|h|] == h;
    RecentCounts(h, at, c.window);
  }

  /** A failure while opened, as of a probe, is no new opening: the breaker is open for another openFor from that moment, and may probe then. */
  lemma FailedProbeRearms(c: Config, b: Breaker, at: int, later: int)
    requires b.openedAt.Some?
    ensures var (b', justOpened) := Fail(c, b, at);
            !justOpened && b'.failures == b.failures && (Allow(c, b', later).1 <==> later - at >= c.openFor)
  {}

  // ---- The object ----

  class Circuit {
    const config: Config
    var failures: seq<int>
    var openedAt: Option<int>
    var probing: bool

    function Value(): Breaker
      reads this
    {
      Breaker(failures, openedAt, probing)
    }

    constructor (config: Config)
      ensures Value() == CLOSED && this.config == config
    {
      this.config := config;
      failures, openedAt, probing := [], None, false;
    }

    method AllowRequest(now: int) returns (ok: bool)
      modifies this
      ensures (Value(), ok) == Allow(config, old(Value()), now)
    {
      if openedAt.None? {
        return true;
      }
      if now - openedAt.value < config.openFor {
        return false;
      }
      if probing {
        return false;
      }
      probing := true;
      return true;
    }

    method RecordSuccess(now: int)
      modifies this
      ensures Value() == Step(config, old(Value()), Succeed(now))
    {
      failures, openedAt, probing := [], None, false;
    }

    method RecordFailure(now: int) returns (justOpened: bool)
      modifies this
      ensures (Value(), justOpened) == Fail(config, old(Value()), now)
    {
      if openedAt.Some? {
        openedAt, probing := Some(now), false;
        return false;
      }
      var kept: seq<int> := [];
      for i := 0 to |failures|
        invariant kept == Recent(failures[..i], now, config.window)
        invariant Value() == old(Value())
      {
        assert failures[..i + 1][..i] == failures[..i];
        if now - failures[i] < config.window {
          kept := kept + [failures[i]];
        }
      }
      assert failures[..|failures|] == failures;
      failures := kept + [now];
      if |failures| >= config.threshold {
        openedAt := Some(now);
        return true;
      }
      return false;
    }
  }
}
