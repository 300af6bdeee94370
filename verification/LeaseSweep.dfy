/**
 The recovery sweep of shared/queue_arbiter.py is invisible: dropping every sweep
 from a run changes no answer that any other step gives.
 */
module LeaseSweep {
  import opened Prelude
  import opened LeaseTable
  import opened LeaseRuns

  /** What the caller of a step is told; a report's answer is the status it leaves the pair in. */
  datatype Answer = Leasing(grant: Option<Grant>) | Outcome(status: Option<Status>) | Starving(messages: set<int>)

  function StatusOf(t: Table, p: Pair): Option<Status> {
    if p in t.rows then Some(t.rows[p].status) else None
  }

  function AnswerTo(w: World, e: Event): Answer {
    match e
    case Ask(p, worker, ttl, at) => Leasing(Acquire(w.t, p, worker, ttl, at).1)
    case Tell(g, _, _) => Outcome(if g < |w.grants| then StatusOf(Step(w, e).t, w.grants[g].pair) else None)
    case Starvation(pending, at) => Starving(Starved(w.t, pending, at))
    case Sweep(_, _) => Outcome(None)
  }

  /** The answers to all steps but the sweeps. */
  function Answers(w: World, es: seq<Event>): seq<Answer>
    decreases |es|
  {
    if es == [] then []
    else (if es[0].Sweep? then [] else [AnswerTo(w, es[0])]) + Answers(Step(w, es[0]), es[1..])
  }

  function WithoutSweeps(es: seq<Event>): seq<Event> {
    if es == [] then [] else (if es[0].Sweep? then [] else [es[0]]) + WithoutSweeps(es[1..])
  }

  /** The clock never goes backwards, and no sweep takes a lease whose time is not up. */
  predicate Ordered(clock: int, es: seq<Event>)
    decreases |es|
  {
    es == [] || (clock <= es[0].at && (es[0].Sweep? ==> es[0].staleAfter >= -1) && Ordered(es[0].at, es[1..]))
  }

  predicate SameButSwept(a: Lease, b: Lease, clock: int) {
    a == b || (a == b.(status := Failed) && (b.status == Leased || b.status == Processing) && b.expiresAt <= clock)
  }

  ghost predicate SimilarTables(a: Table, b: Table, clock: int) {
    && a.index == b.index && a.rows.Keys == b.rows.Keys
    && forall p :: p in a.rows ==> SameButSwept(a.rows[p], b.rows[p], clock)
  }

  /** `a` differs from `b` only in rows a sweep has turned from expired to failed. */
  ghost predicate Similar(a: World, b: World) {
    && a.grants == b.grants && a.open == b.open && a.completions == b.completions
    && SimilarTables(a.t, b.t, a.clock)
  }

  lemma SimilarAcquire(a: Table, b: Table, clock: int, e: Event)
    requires SimilarTables(a, b, clock) && e.Ask? && clock <= e.at
    ensures var (a', g) := Acquire(a, e.pair, e.worker, e.ttl, e.at);
            var (b', h) := Acquire(b, e.pair, e.worker, e.ttl, e.at);
            g == h && SimilarTables(a', b', e.at)
  {
    var (a', g) := Acquire(a, e.pair, e.worker, e.ttl, e.at);
    var (b', h) := Acquire(b, e.pair, e.worker, e.ttl, e.at);
    assert e.pair in a.rows ==> SameButSwept(a.rows[e.pair], b.rows[e.pair], clock);
    forall p | p in a'.rows ensures p in b'.rows && SameButSwept(a'.rows[p], b'.rows[p], e.at) {
      assert p in a.rows ==> SameButSwept(a.rows[p], b.rows[p], clock);
    }
  }

  lemma SimilarReport(a: Table, b: Table, clock: int, id: nat, r: Report, at: int)
    requires SimilarTables(a, b, clock) && clock <= at
    ensures SimilarTables(Accept(a, id, r, at), Accept(b, id, r, at), at)
    ensures id < |a.index| && a.index[id] in a.rows ==>
              Accept(a, id, r, at).rows[a.index[id]] == Accept(b, id, r, at).rows[a.index[id]]
  {}

  lemma SimilarStarvation(a: Table, b: Table, clock: int, pending: set<int>, at: int)
    requires SimilarTables(a, b, clock) && clock <= at
    ensures Starved(a, pending, at) == Starved(b, pending, at)
  {
    forall p | p in a.rows ensures Active(a.rows[p], at) <==> Active(b.rows[p], at) {
      assert SameButSwept(a.rows[p], b.rows[p], clock);
    }
  }

  lemma SimilarStep(a: World, b: World, e: Event)
    requires Counted(a) && Similar(a, b) && !e.Sweep? && a.clock <= e.at
    ensures Similar(Step(a, e), Step(b, e))
    ensures AnswerTo(a, e) == AnswerTo(b, e)
  {
    match e
    case Ask(_, _, _, _) => SimilarAcquire(a.t, b.t, a.clock, e);
    case Tell(g, r, at) =>
      if g < |a.grants| {
        assert a.grants[g] in a.grants;
        SimilarReport(a.t, b.t, a.clock, a.grants[g].leaseId, r, at);
      }
    case Starvation(pending, at) => SimilarStarvation(a.t, b.t, a.clock, pending, at);
  }

  /**
   Removing every sweep from a run changes no acquire answer, no outcome of a
   report, no starvation count and, at the end, no grant and no attempts field.
   */
  lemma {:induction false} SweepIsInvisible(a: World, b: World, es: seq<Event>)
    requires Counted(a) && Similar(a, b) && Ordered(a.clock, es)
    ensures Answers(a, es) == Answers(b, WithoutSweeps(es))
    ensures Similar(Run(a, es), Run(b, WithoutSweeps(es)))
    decreases |es|
  {
    if es != [] {
      CountedStep(a, es[0]);
      var rest := WithoutSweeps(es[1..]);
      if es[0].Sweep? {
        SweepIsInvisible(Step(a, es[0]), b, es[1..]);
        assert WithoutSweeps(es) == rest;
      } else {
        SimilarStep(a, b, es[0]);
        SweepIsInvisible(Step(a, es[0]), Step(b, es[0]), es[1..]);
        assert WithoutSweeps(es) == [es[0]] + rest && WithoutSweeps(es)[1..] == rest;
      }
    }
  }

  /** On a clock of whole seconds a sweep may take a lease still in force exactly when its threshold is below -1. */
  lemma SweepTakesLiveLeasesIff(staleAfter: int, now: int)
    ensures (exists l: Lease :: Active(l, now) && Stale(l, staleAfter, now)) <==> staleAfter < -1
  {
    var l := Lease(0, "", Leased, 1, now + 1, None);
    if staleAfter < -1 {
      assert Active(l, now) && Stale(l, staleAfter, now);
    }
  }

  /** The sweep takes a lease in force whose pair has attempts left. */
  ghost predicate TakesInForce(w: World, staleAfter: int, at: int) {
    exists p :: p in w.t.rows && Active(w.t.rows[p], at) && Stale(w.t.rows[p], staleAfter, at)
                && w.t.rows[p].attempts < MAX_ATTEMPTS
  }

  /** A sweep, whatever its threshold, changes what some worker asking at that moment is told exactly when it takes such a lease. */
  lemma SweepShowsIff(w: World, staleAfter: int, at: int)
    ensures (forall p, worker, ttl :: AnswerTo(Step(w, Sweep(staleAfter, at)), Ask(p, worker, ttl, at))
                                   == AnswerTo(w, Ask(p, worker, ttl, at)))
       <==> !TakesInForce(w, staleAfter, at)
  {
    var w' := Step(w, Sweep(staleAfter, at));
    if TakesInForce(w, staleAfter, at) {
      var p :| p in w.t.rows && Active(w.t.rows[p], at) && Stale(w.t.rows[p], staleAfter, at) && w.t.rows[p].attempts < MAX_ATTEMPTS;
      assert AnswerTo(w, Ask(p, "", 0, at)) == Leasing(None) && AnswerTo(w', Ask(p, "", 0, at)) != Leasing(None);
    } else {
      forall p, worker, ttl ensures AnswerTo(w', Ask(p, worker, ttl, at)) == AnswerTo(w, Ask(p, worker, ttl, at)) {
        if p in w.t.rows {
          assert !(Active(w.t.rows[p], at) && Stale(w.t.rows[p], staleAfter, at) && w.t.rows[p].attempts < MAX_ATTEMPTS);
        }
      }
    }
  }

  /** Beyond that edge a negative threshold makes the sweep seize leases still in force. */
  lemma EagerSweepIsVisible(p: Pair)
    ensures var w := Step(START, Ask(p, "a", 120, 0));
            AnswerTo(Step(w, Sweep(-121, 0)), Ask(p, "b", 120, 0)) != AnswerTo(w, Ask(p, "b", 120, 0))
  {}
}
