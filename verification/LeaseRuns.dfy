/**
 Every interleaving of any number of workers over the lease table, with acquire
 as one atomic step: exclusivity, at-most-once completion and the attempt count.
 */
module LeaseRuns {
  import opened Prelude
  import opened LeaseTable

  /** One step. A report names the grant the worker received, by its position in the history. */
  datatype Event =
    | Ask(pair: Pair, worker: string, ttl: int, at: int)
    | Tell(grant: nat, report: Report, at: int)
    | Sweep(staleAfter: int, at: int)
    | Starvation(pending: set<int>, at: int)

  /** The table, the clock, every grant ever made, those not yet reported, and every completion. */
  datatype World = World(t: Table, clock: int, grants: seq<Grant>, open: set<nat>, completions: multiset<Pair>)

  const START: World := World(EMPTY, 0, [], {}, multiset{})

  function Step(w: World, e: Event): World {
    match e
    case Ask(p, worker, ttl, at) =>
      var (t', g) := Acquire(w.t, p, worker, ttl, at);
      if g.None? then w.(t := t', clock := at)
      else w.(t := t', clock := at, grants := w.grants + [g.value], open := w.open + {|w.grants|})
    case Tell(g, r, at) =>
      if g >= |w.grants| then w.(clock := at)
      else w.(t := Accept(w.t, w.grants[g].leaseId, r, at), clock := at, open := w.open - {g},
              completions := if r.Done? then w.completions + multiset{w.grants[g].pair} else w.completions)
    case Sweep(staleAfter, at) => w.(t := Recover(w.t, staleAfter, at), clock := at)
    case Starvation(_, at) => w.(clock := at)
  }

  /** Every step, also one that changes nothing else, takes the clock to its time. */
  lemma ClockMoves(w: World, e: Event)
    ensures Step(w, e).clock == e.at
  {}

  function Run(w: World, es: seq<Event>): World
    decreases |es|
  {
    if es == [] then w else Run(Step(w, es[0]), es[1..])
  }

  /** A report is timely when the worker still owes it and its lease has not run out. */
  predicate Timely(w: World, e: Event) {
    w.clock <= e.at &&
    (e.Tell? ==> e.grant < |w.grants| && e.grant in w.open && e.at < w.grants[e.grant].expiresAt) &&
    (e.Sweep? ==> e.staleAfter >= -1)
  }

  predicate TimelyRun(w: World, es: seq<Event>)
    decreases |es|
  {
    es == [] || (Timely(w, es[0]) && TimelyRun(Step(w, es[0]), es[1..]))
  }

  // ---- Attempt counts: every run, timely or not ----

  function Granted(grants: seq<Grant>, p: Pair): nat {
    if grants == [] then 0
    else Granted(grants[..|grants| - 1], p) + (if grants[|grants| - 1].pair == p then 1 else 0)
  }

  function Attempts(t: Table, p: Pair): int { if p in t.rows then t.rows[p].attempts else 0 }

  /** A pair's attempts field counts its grants, and each grant carries its row's lease_id. */
  ghost predicate Counted(w: World) {
    && Indexed(w.t)
    && (forall p :: Attempts(w.t, p) == Granted(w.grants, p) <= MAX_ATTEMPTS)
    && (forall p :: p in w.t.rows ==> Attempts(w.t, p) >= 1)
    && (forall g :: g in w.grants ==> g.pair in w.t.rows && w.t.rows[g.pair].id == g.leaseId)
  }

  lemma GrantedSnoc(grants: seq<Grant>, g: Grant, p: Pair)
    ensures Granted(grants + [g], p) == Granted(grants, p) + (if g.pair == p then 1 else 0)
  {
    assert (grants + [g])[..|grants|] == grants;
  }

  lemma IndexedAcquire(t: Table, p: Pair, worker: string, ttl: int, now: int)
    requires Indexed(t)
    ensures Indexed(Acquire(t, p, worker, ttl, now).0)
  {
    var t' := Acquire(t, p, worker, ttl, now).0;
    if p !in t.rows {
      IndexedCreate(t, p, t'.rows[p]);
    } else {
      assert t'.index == t.index && t'.rows == t.rows[p := t'.rows[p]] && t'.rows[p].id == t.rows[p].id;
    }
  }

  lemma IndexedCreate(t: Table, p: Pair, l: Lease)
    requires Indexed(t) && p !in t.rows && l.id == |t.index|
    ensures Indexed(Table(t.rows[p := l], t.index + [p]))
  {
    var t' := Table(t.rows[p := l], t.index + [p]);
    forall i | 0 <= i < |t'.index| ensures t'.index[i] in t'.rows && t'.rows[t'.index[i]].id == i {
      assert i < |t.index| ==> t.index[i] in t.rows;
    }
  }

  /** What an acquire does to the row it concerns; the other rows stay. */
  lemma AcquireEffect(t: Table, p: Pair, worker: string, ttl: int, now: int)
    ensures var (t', g) := Acquire(t, p, worker, ttl, now);
            && (forall q :: q != p ==> (q in t'.rows <==> q in t.rows) && (q in t.rows ==> t'.rows[q] == t.rows[q]))
            && (p in t.rows ==> p in t'.rows && t'.rows[p].id == t.rows[p].id)
            && (p in t.rows && (Terminal(t.rows[p].status) || Active(t.rows[p], now)) ==> g.None? && t' == t)
            && (g.Some? ==> p in t'.rows && g.value == Grant(p, t'.rows[p].id, worker, Attempts(t, p) + 1, now + ttl)
                            && t'.rows[p].status == Leased && t'.rows[p].expiresAt == now + ttl
                            && Attempts(t', p) == Attempts(t, p) + 1 && (p in t.rows ==> Attempts(t', p) <= MAX_ATTEMPTS))
            && (g.None? ==> p in t.rows && Attempts(t', p) == Attempts(t, p))
  {}

  /**
   Who is granted: a pair never leased, or one that is neither finished nor in force
   and has attempts left. A pair without attempts left is dead-lettered instead, and
   nothing else happens on a refusal.
   */
  lemma GrantedIff(t: Table, p: Pair, worker: string, ttl: int, now: int)
    ensures var (t', g) := Acquire(t, p, worker, ttl, now);
            var free := p in t.rows && t.rows[p].status !in {Completed, DeadLetter}
                        && !(t.rows[p].status in {Leased, Processing} && now < t.rows[p].expiresAt);
            && (g.Some? <==> p !in t.rows || (free && t.rows[p].attempts < MAX_ATTEMPTS))
            && (g.Some? ==> t'.rows[p].worker == worker)
            && (g.None? && free ==> t'.rows[p].status == DeadLetter && t' == t.(rows := t.rows[p := t'.rows[p]])
                                    && t'.rows[p].(status := t.rows[p].status) == t.rows[p])
            && (g.None? && !free ==> t' == t)
  {}

  lemma CountedAsk(w: World, e: Event)
    requires Counted(w) && e.Ask?
    ensures Counted(Step(w, e))
  {
    var (t', g) := Acquire(w.t, e.pair, e.worker, e.ttl, e.at);
    var w' := Step(w, e);
    IndexedAcquire(w.t, e.pair, e.worker, e.ttl, e.at);
    AcquireEffect(w.t, e.pair, e.worker, e.ttl, e.at);
    forall p ensures Attempts(t', p) == Granted(w'.grants, p) <= MAX_ATTEMPTS {
      assert Attempts(w.t, p) == Granted(w.grants, p) <= MAX_ATTEMPTS;
      if g.Some? {
        GrantedSnoc(w.grants, g.value, p);
      }
    }
    forall p | p in t'.rows ensures Attempts(t', p) >= 1 {
      assert p in w.t.rows ==> Attempts(w.t, p) >= 1;
    }
    forall h | h in w'.grants ensures h.pair in t'.rows && t'.rows[h.pair].id == h.leaseId {
      assert h in w.grants || (g.Some? && h == g.value);
    }
  }

  lemma CountedStep(w: World, e: Event)
    requires Counted(w)
    ensures Counted(Step(w, e))
  {
    if e.Ask? {
      CountedAsk(w, e);
    } else {
      SameRows(w, e);
      var w' := Step(w, e);
      forall p ensures Attempts(w'.t, p) == Granted(w'.grants, p) <= MAX_ATTEMPTS {
        assert Attempts(w.t, p) == Granted(w.grants, p) <= MAX_ATTEMPTS;
      }
      forall p | p in w'.t.rows ensures Attempts(w'.t, p) >= 1 {
        assert Attempts(w.t, p) >= 1;
      }
    }
  }

  /** Reports and sweeps change only the status and the retry time of rows. */
  lemma SameRows(w: World, e: Event)
    requires !e.Ask?
    ensures var w' := Step(w, e);
            && w'.t.index == w.t.index && w'.grants == w.grants && w'.t.rows.Keys == w.t.rows.Keys
            && (forall p :: p in w.t.rows ==> w'.t.rows[p].id == w.t.rows[p].id && w'.t.rows[p].attempts == w.t.rows[p].attempts)
  {}

  /**
   In every run the number of leases ever granted for a pair equals its attempts
   field, and never exceeds MAX_ATTEMPTS.
   */
  lemma {:induction false} GrantsNeverExceedMaxAttempts(w: World, es: seq<Event>)
    requires Counted(w)
    ensures Counted(Run(w, es))
    decreases |es|
  {
    if es != [] {
      CountedStep(w, es[0]);
      GrantsNeverExceedMaxAttempts(Step(w, es[0]), es[1..]);
    }
  }

  // ---- Exclusivity: runs in which workers report in time ----

  /** Grant `i` is owed a report and its lease has not run out. */
  predicate Live(w: World, i: int) {
    0 <= i < |w.grants| && i in w.open && w.clock < w.grants[i].expiresAt
  }

  /** A live grant's row is leased until the grant's own deadline. */
  ghost predicate LiveRowsLeased(w: World) {
    forall i :: Live(w, i) ==>
      var p := w.grants[i].pair;
      p in w.t.rows && w.t.rows[p].status == Leased && w.t.rows[p].expiresAt == w.grants[i].expiresAt
  }

  ghost predicate OneLive(w: World) {
    forall i, j :: Live(w, i) && Live(w, j) && w.grants[i].pair == w.grants[j].pair ==> i == j
  }

  ghost predicate CompletedOnce(w: World) {
    forall p :: p in w.completions ==>
      w.completions[p] == 1 && p in w.t.rows && w.t.rows[p].status == Completed
  }

  ghost predicate Exclusive(w: World) {
    LiveRowsLeased(w) && OneLive(w) && CompletedOnce(w)
  }

  /** Terminal rows keep their status and their grants. */
  ghost predicate EndsKept(w: World, w': World) {
    forall p :: p in w.t.rows && Terminal(w.t.rows[p].status) ==>
      p in w'.t.rows && w'.t.rows[p].status == w.t.rows[p].status && Attempts(w'.t, p) == Attempts(w.t, p)
  }

  /** A grant still live after an ask was live before it, and its row is untouched. */
  lemma LiveThroughAsk(w: World, e: Event, i: nat)
    requires LiveRowsLeased(w) && e.Ask? && w.clock <= e.at
    requires i < |w.grants| && Live(Step(w, e), i)
    ensures Live(w, i) && Step(w, e).grants[i] == w.grants[i]
    ensures var p := w.grants[i].pair;
            p in w.t.rows && p in Step(w, e).t.rows && Step(w, e).t.rows[p] == w.t.rows[p]
    ensures Step(w, e).grants != w.grants ==> w.grants[i].pair != e.pair
  {
    AcquireEffect(w.t, e.pair, e.worker, e.ttl, e.at);
    assert Live(w, i);
  }

  lemma LeasedAfterAsk(w: World, e: Event)
    requires LiveRowsLeased(w) && w.clock <= e.at && e.Ask?
    ensures LiveRowsLeased(Step(w, e))
  {
    var w' := Step(w, e);
    AcquireEffect(w.t, e.pair, e.worker, e.ttl, e.at);
    forall i | Live(w', i)
      ensures var p := w'.grants[i].pair;
              p in w'.t.rows && w'.t.rows[p].status == Leased && w'.t.rows[p].expiresAt == w'.grants[i].expiresAt
    {
      if i < |w.grants| {
        LiveThroughAsk(w, e, i);
      }
    }
  }

  lemma OneLiveAfterAsk(w: World, e: Event)
    requires LiveRowsLeased(w) && OneLive(w) && w.clock <= e.at && e.Ask?
    ensures OneLive(Step(w, e))
  {
    var w' := Step(w, e);
    AcquireEffect(w.t, e.pair, e.worker, e.ttl, e.at);
    forall i, j | Live(w', i) && Live(w', j) && w'.grants[i].pair == w'.grants[j].pair ensures i == j {
      if i < |w.grants| { LiveThroughAsk(w, e, i); }
      if j < |w.grants| { LiveThroughAsk(w, e, j); }
    }
  }

  lemma ExclusiveAsk(w: World, e: Event)
    requires Exclusive(w) && w.clock <= e.at && e.Ask?
    ensures Exclusive(Step(w, e))
  {
    LeasedAfterAsk(w, e);
    OneLiveAfterAsk(w, e);
    AcquireEffect(w.t, e.pair, e.worker, e.ttl, e.at);
  }

  /** Grant `i` is owed a report and has not run out at `at`. */
  predicate Outstanding(w: World, i: int, at: int) {
    0 <= i < |w.grants| && i in w.open && at < w.grants[i].expiresAt
  }

  /**
   What keeps a step from breaking exclusivity. An acquire is always safe; a report
   if its pair is not completed and no other worker has an outstanding grant of it,
   however late the report is; a sweep if it takes no outstanding grant's lease.
   */
  ghost predicate Safe(w: World, e: Event) {
    match e
    case Ask(_, _, _, _) => true
    case Starvation(_, _) => true
    case Tell(g, _, at) =>
      g < |w.grants| ==>
        && w.grants[g].pair !in w.completions
        && forall i :: Outstanding(w, i, at) && w.grants[i].pair == w.grants[g].pair ==> i == g
    case Sweep(staleAfter, at) => forall i :: Outstanding(w, i, at) ==> w.grants[i].expiresAt >= at - staleAfter
  }

  /** The row of a reported grant, whichever worker asks. */
  lemma TellEffect(w: World, e: Event)
    requires Counted(w) && e.Tell? && e.grant < |w.grants|
    ensures var p, w' := w.grants[e.grant].pair, Step(w, e);
            && p in w.t.rows && w'.t.rows.Keys == w.t.rows.Keys
            && (forall q :: q in w.t.rows && q != p ==> w'.t.rows[q] == w.t.rows[q])
            && w'.t.rows[p].status != Leased && (w'.t.rows[p].status == Completed <==> e.report.Done?)
  {
    var g := w.grants[e.grant];
    assert g in w.grants && w.t.index[g.leaseId] == g.pair;
  }

  lemma SafeTell(w: World, e: Event)
    requires Counted(w) && Exclusive(w) && w.clock <= e.at && e.Tell? && e.grant < |w.grants| && Safe(w, e)
    ensures Exclusive(Step(w, e))
  {
    var p, w' := w.grants[e.grant].pair, Step(w, e);
    TellEffect(w, e);
    forall i | Live(w', i) ensures Live(w, i) && w.grants[i].pair != p {
      assert Outstanding(w, i, e.at) && Live(w, i);
    }
  }

  lemma UnsafeTell(w: World, e: Event)
    requires Counted(w) && Exclusive(w) && w.clock <= e.at && e.Tell? && e.grant < |w.grants| && !Safe(w, e)
    ensures !Exclusive(Step(w, e))
  {
    var p, w' := w.grants[e.grant].pair, Step(w, e);
    TellEffect(w, e);
    if p in w.completions {
      assert p in w'.completions && (w'.completions[p] == 2 || w'.t.rows[p].status != Completed);
    } else {
      var i :| Outstanding(w, i, e.at) && w.grants[i].pair == p && i != e.grant;
      assert Live(w', i) && w'.t.rows[p].status != Leased;
    }
  }

  lemma SweepKeepsIff(w: World, e: Event)
    requires Exclusive(w) && w.clock <= e.at && e.Sweep?
    ensures Exclusive(Step(w, e)) <==> Safe(w, e)
  {
    var w' := Step(w, e);
    forall i | Live(w', i) ensures Live(w, i) && Outstanding(w, i, e.at) {}
    if !Safe(w, e) {
      var i :| Outstanding(w, i, e.at) && w.grants[i].expiresAt < e.at - e.staleAfter;
      assert Live(w, i) && Live(w', i) && w'.t.rows[w.grants[i].pair].status == Failed;
    }
  }

  /** From a table in which leases are exclusive, a step keeps them so exactly when it is safe. */
  lemma StepKeepsExclusiveIff(w: World, e: Event)
    requires Counted(w) && Exclusive(w) && w.clock <= e.at
    ensures Exclusive(Step(w, e)) <==> Safe(w, e)
  {
    match e
    case Ask(_, _, _, _) => ExclusiveAsk(w, e);
    case Sweep(_, _) => SweepKeepsIff(w, e);
    case Starvation(_, _) => LaterOnly(w, e);
    case Tell(g, _, _) =>
      if g >= |w.grants| {
        LaterOnly(w, e);
      } else if Safe(w, e) {
        SafeTell(w, e);
      } else {
        UnsafeTell(w, e);
      }
  }

  /** What an unsafe success leads to, in any such table: the other worker's report, still in time, is a second completion. */
  lemma UnsafeSuccessCompletesTwice(w: World, g: nat, i: nat, at: int)
    requires Counted(w) && Exclusive(w) && w.clock <= at && g < |w.grants| && w.grants[g].pair !in w.completions
    requires Outstanding(w, i, at) && w.grants[i].pair == w.grants[g].pair && i != g
    ensures var w' := Step(w, Tell(g, Done, at));
            Timely(w', Tell(i, Done, at)) && Step(w', Tell(i, Done, at)).completions[w.grants[g].pair] == 2
  {}

  /** Time passes: grants may run out, nothing else changes. */
  lemma LaterOnly(w: World, e: Event)
    requires Exclusive(w) && w.clock <= e.at && (e.Starvation? || (e.Tell? && e.grant >= |w.grants|))
    ensures Exclusive(Step(w, e))
  {
    forall i | Live(Step(w, e), i) ensures Live(w, i) {}
  }

  predicate OrderedRun(w: World, es: seq<Event>)
    decreases |es|
  {
    es == [] || (w.clock <= es[0].at && OrderedRun(Step(w, es[0]), es[1..]))
  }

  ghost predicate SafeRun(w: World, es: seq<Event>)
    decreases |es|
  {
    es == [] || (Safe(w, es[0]) && SafeRun(Step(w, es[0]), es[1..]))
  }

  ghost predicate ExclusiveThroughout(w: World, es: seq<Event>)
    decreases |es|
  {
    Exclusive(w) && (es == [] || ExclusiveThroughout(Step(w, es[0]), es[1..]))
  }

  /**
   In every run, timely or not, a pair has at most one live lease with its row in
   force, and at most one completion, at every moment exactly when every step is safe.
   */
  lemma {:induction false} ExclusiveThroughoutIff(w: World, es: seq<Event>)
    requires Counted(w) && Exclusive(w) && OrderedRun(w, es)
    ensures ExclusiveThroughout(w, es) <==> SafeRun(w, es)
    decreases |es|
  {
    if es != [] {
      CountedStep(w, es[0]);
      StepKeepsExclusiveIff(w, es[0]);
      if Safe(w, es[0]) {
        ExclusiveThroughoutIff(Step(w, es[0]), es[1..]);
      }
    }
  }

  /** A worker that reports once, before its own lease runs out, is always safe. */
  lemma TimelyIsSafe(w: World, e: Event)
    requires Exclusive(w) && Timely(w, e)
    ensures Safe(w, e)
  {
    match e
    case Tell(g, _, at) =>
      assert Live(w, g);
      forall i | Outstanding(w, i, at) && w.grants[i].pair == w.grants[g].pair ensures i == g {
        assert Live(w, i);
      }
    case _ =>
  }

  lemma TimelyKeepsEnds(w: World, e: Event)
    requires Counted(w) && Exclusive(w) && Timely(w, e)
    ensures EndsKept(w, Step(w, e))
  {
    match e
    case Ask(_, _, _, _) => AcquireEffect(w.t, e.pair, e.worker, e.ttl, e.at);
    case Tell(g, _, _) =>
      TellEffect(w, e);
      SameRows(w, e);
      assert Live(w, g);
    case _ => SameRows(w, e);
  }

  lemma ExclusiveStep(w: World, e: Event)
    requires Counted(w) && Exclusive(w) && Timely(w, e)
    ensures Exclusive(Step(w, e)) && EndsKept(w, Step(w, e))
  {
    TimelyIsSafe(w, e);
    StepKeepsExclusiveIff(w, e);
    TimelyKeepsEnds(w, e);
  }

  /**
   If every worker reports before its lease expires then, in every interleaving,
   a pair has at most one live lease and is completed at most once.
   */
  lemma {:induction false} LeasesAreExclusive(w: World, es: seq<Event>)
    requires Counted(w) && Exclusive(w) && TimelyRun(w, es)
    ensures Exclusive(Run(w, es)) && Counted(Run(w, es)) && SafeRun(w, es)
    decreases |es|
  {
    if es != [] {
      CountedStep(w, es[0]);
      TimelyIsSafe(w, es[0]);
      ExclusiveStep(w, es[0]);
      LeasesAreExclusive(Step(w, es[0]), es[1..]);
    }
  }

  /** ... and once a pair is completed or dead-lettered it stays so and is never granted again. */
  lemma {:induction false} NoGrantAfterTheEnd(w: World, es: seq<Event>, p: Pair)
    requires Counted(w) && Exclusive(w) && TimelyRun(w, es)
    requires p in w.t.rows && Terminal(w.t.rows[p].status)
    ensures p in Run(w, es).t.rows && Run(w, es).t.rows[p].status == w.t.rows[p].status
    ensures Granted(Run(w, es).grants, p) == Granted(w.grants, p)
    decreases |es|
  {
    if es != [] {
      CountedStep(w, es[0]);
      ExclusiveStep(w, es[0]);
      var w' := Step(w, es[0]);
      NoGrantAfterTheEnd(w', es[1..], p);
      assert Attempts(w.t, p) == Granted(w.grants, p) && Attempts(w'.t, p) == Granted(w'.grants, p);
    }
  }

  /** The two results for a run that starts on an empty table, in plain terms. */
  lemma AtMostOneLeasePerPair(es: seq<Event>)
    requires TimelyRun(START, es)
    ensures var w := Run(START, es);
            && (forall i, j :: Live(w, i) && Live(w, j) && w.grants[i].pair == w.grants[j].pair ==> i == j)
            && (forall p :: w.completions[p] <= 1)
            && (forall p :: Granted(w.grants, p) <= MAX_ATTEMPTS)
  {
    assert Counted(START) && Exclusive(START);
    LeasesAreExclusive(START, es);
    var w := Run(START, es);
    forall p ensures w.completions[p] <= 1 {
      assert p in w.completions || w.completions[p] == 0;
    }
    forall p ensures Granted(w.grants, p) <= MAX_ATTEMPTS {
      assert Attempts(w.t, p) == Granted(w.grants, p);
    }
  }

  /**
   A timely failure report dead-letters its pair exactly when the pair has used all
   its grants, and otherwise schedules the retry 1, 2, 4 or 8 seconds out.
   */
  lemma FailureOutcome(w: World, e: Event)
    requires Counted(w) && Exclusive(w) && Timely(w, e) && e.Tell? && e.report.Failure?
    ensures var p := w.grants[e.grant].pair;
            var n := Granted(w.grants, p);
            var w' := Step(w, e);
            && p in w'.t.rows && 1 <= n <= MAX_ATTEMPTS
            && w'.t.rows[p].status == (if n == MAX_ATTEMPTS then DeadLetter else Failed)
            && w'.t.rows[p].retryAfter == Some(e.at + [1, 2, 4, 8, 16][n - 1])
  {
    var g := w.grants[e.grant];
    assert g in w.grants && w.t.index[g.leaseId] == g.pair;
    assert Attempts(w.t, g.pair) == Granted(w.grants, g.pair) <= MAX_ATTEMPTS && Attempts(w.t, g.pair) >= 1;
    assert Pow2(0) == 1 && Pow2(1) == 2 && Pow2(2) == 4 && Pow2(3) == 8 && Pow2(4) == 16;
  }

  /** The scheduled retry time is recorded but not enforced: acquire grants a failed pair at once. */
  lemma BackoffIsNotEnforced(t: Table, p: Pair, worker: string, ttl: int, now: int)
    requires p in t.rows && t.rows[p].status == Failed && t.rows[p].attempts < MAX_ATTEMPTS
    ensures Acquire(t, p, worker, ttl, now).1.Some?
  {}

  /**
   A report on a pair that is already completed or dead-lettered, which only a late
   one can be, reopens it exactly when it is a failure and the pair has grants left.
   */
  lemma LateReportReopensIff(w: World, e: Event)
    requires Counted(w) && e.Tell? && e.grant < |w.grants|
    requires w.grants[e.grant].pair in w.t.rows && Terminal(w.t.rows[w.grants[e.grant].pair].status)
    ensures var p := w.grants[e.grant].pair;
            && p in Step(w, e).t.rows
            && (!Terminal(Step(w, e).t.rows[p].status) <==> e.report.Failure? && Granted(w.grants, p) < MAX_ATTEMPTS)
  {
    var g := w.grants[e.grant];
    assert g in w.grants && w.t.index[g.leaseId] == g.pair;
    assert Attempts(w.t, g.pair) == Granted(w.grants, g.pair);
  }

  predicate Finished(w: World, p: Pair) { p in w.t.rows && Terminal(w.t.rows[p].status) }

  /** A failure report on the pair, which has grants left. */
  predicate Reopens(w: World, e: Event, p: Pair) {
    e.Tell? && e.grant < |w.grants| && w.grants[e.grant].pair == p && e.report.Failure? && Granted(w.grants, p) < MAX_ATTEMPTS
  }

  /** An acquire dead-letters its pair exactly when the pair is free to take and all its grants are used. */
  lemma BuriedIff(w: World, e: Event)
    requires Counted(w) && e.Ask? && e.pair in w.t.rows && !Terminal(w.t.rows[e.pair].status)
    ensures e.pair in Step(w, e).t.rows
    ensures Step(w, e).t.rows[e.pair].status == DeadLetter
       <==> !Active(w.t.rows[e.pair], e.at) && Granted(w.grants, e.pair) == MAX_ATTEMPTS
    ensures Step(w, e).t.rows[e.pair].status == DeadLetter ==> Step(w, e).grants == w.grants
  {
    assert Attempts(w.t, e.pair) == Granted(w.grants, e.pair) <= MAX_ATTEMPTS;
    GrantedIff(w.t, e.pair, e.worker, e.ttl, e.at);
    AcquireEffect(w.t, e.pair, e.worker, e.ttl, e.at);
  }

  /** Giving a pair up dead-letters it, whatever it was, and in every run that follows it is granted only after a step reopens it. */
  lemma GivenUpForGood(w: World, e: Event, es: seq<Event>)
    requires Counted(w) && e.Tell? && e.grant < |w.grants| && e.report.GiveUp?
    ensures var p, w' := w.grants[e.grant].pair, Step(w, e);
            && p in w'.t.rows && w'.t.rows[p].status == DeadLetter
            && (NeverReopens(w', es, p) ==> FinishedThroughout(w', es, p) && Granted(Run(w', es).grants, p) == Granted(w.grants, p))
  {
    var g := w.grants[e.grant];
    assert g in w.grants && w.t.index[g.leaseId] == g.pair;
    CountedStep(w, e);
    FinishedThroughoutIff(Step(w, e), es, g.pair);
  }

  /** A finished pair is refused to every asker, and a step leaves it finished exactly when it does not reopen it. */
  lemma FinishedStepIff(w: World, e: Event, p: Pair)
    requires Counted(w) && Finished(w, p)
    ensures Finished(Step(w, e), p) <==> !Reopens(w, e, p)
    ensures Granted(Step(w, e).grants, p) == Granted(w.grants, p)
  {
    match e
    case Ask(_, _, _, _) => FinishedAsk(w, e, p);
    case Tell(g, _, _) =>
      if g < |w.grants| {
        TellEffect(w, e);
        if w.grants[g].pair == p {
          LateReportReopensIff(w, e);
        }
      }
    case _ =>
  }

  lemma FinishedAsk(w: World, e: Event, p: Pair)
    requires e.Ask? && Finished(w, p)
    ensures Finished(Step(w, e), p) && Granted(Step(w, e).grants, p) == Granted(w.grants, p)
  {
    AcquireEffect(w.t, e.pair, e.worker, e.ttl, e.at);
    if Step(w, e).grants != w.grants {
      GrantedSnoc(w.grants, Step(w, e).grants[|w.grants|], p);
    }
  }

  ghost predicate FinishedThroughout(w: World, es: seq<Event>, p: Pair)
    decreases |es|
  {
    Finished(w, p) && (es == [] || FinishedThroughout(Step(w, es[0]), es[1..], p))
  }

  predicate NeverReopens(w: World, es: seq<Event>, p: Pair)
    decreases |es|
  {
    es == [] || (!Reopens(w, es[0], p) && NeverReopens(Step(w, es[0]), es[1..], p))
  }

  /** In every run, timely or not, a finished pair stays finished and ungranted exactly as long as no step reopens it. */
  lemma {:induction false} FinishedThroughoutIff(w: World, es: seq<Event>, p: Pair)
    requires Counted(w) && Finished(w, p)
    ensures FinishedThroughout(w, es, p) <==> NeverReopens(w, es, p)
    ensures NeverReopens(w, es, p) ==> Granted(Run(w, es).grants, p) == Granted(w.grants, p)
    decreases |es|
  {
    if es != [] {
      CountedStep(w, es[0]);
      FinishedStepIff(w, es[0], p);
      if !Reopens(w, es[0], p) {
        FinishedThroughoutIff(Step(w, es[0]), es[1..], p);
      }
    }
  }

  /** Two workers hold grants of one pair, the first one's run out and the second one's live until 240. */
  function Reclaimed(p: Pair): World { Step(Step(START, Ask(p, "a", 120, 0)), Ask(p, "b", 120, 120)) }

  lemma ReclaimedIs(p: Pair)
    ensures var w := Reclaimed(p);
            && w.grants == [Grant(p, 0, "a", 1, 120), Grant(p, 0, "b", 2, 240)] && w.open == {0, 1} && w.clock == 120
            && w.t == Table(map[p := Lease(0, "b", Leased, 2, 240, None)], [p]) && w.completions == multiset{}
  {
    var w1 := Step(START, Ask(p, "a", 120, 0));
    assert w1.grants == [Grant(p, 0, "a", 1, 120)] && w1.t == Table(map[p := Lease(0, "a", Leased, 1, 120, None)], [p]);
  }

  /**
   Reports are matched by lease_id, which a reclaim does not change. A late success
   beside a live grant, followed by that grant's timely one, completes the pair twice.
   */
  lemma LateSuccessCompletesTwice(p: Pair)
    ensures Step(Step(Reclaimed(p), Tell(0, Done, 130)), Tell(1, Done, 140)).completions[p] == 2
  {
    ReclaimedIs(p);
  }

  /** A late failure beside a live grant frees the row, and a third worker is granted it beside the second. */
  lemma LateFailureMakesTwoLive(p: Pair)
    ensures var w := Step(Step(Reclaimed(p), Tell(0, Failure, 130)), Ask(p, "c", 120, 131));
            Live(w, 1) && Live(w, 2) && w.grants[1].pair == w.grants[2].pair == p
  {
    ReclaimedIs(p);
    var w := Step(Reclaimed(p), Tell(0, Failure, 130));
    assert w.t.rows[p].status == Failed && w.t.rows[p].attempts == 2 && w.grants == Reclaimed(p).grants;
    BackoffIsNotEnforced(w.t, p, "c", 120, 131);
  }

  /** A late failure after the completion reopens the pair, and a third worker is granted it. */
  lemma LateReportReopens(p: Pair)
    ensures var w := Step(Reclaimed(p), Tell(1, Done, 130));
            var w' := Step(w, Tell(0, Failure, 140));
            p in w.completions && p in w.t.rows && w.t.rows[p].status == Completed && 0 in w.open
            && |Step(w', Ask(p, "c", 120, 150)).grants| == |w.grants| + 1
  {
    ReclaimedIs(p);
    var w := Step(Reclaimed(p), Tell(1, Done, 130));
    assert w.t == Table(map[p := Lease(0, "b", Completed, 2, 240, None)], [p]) && w.grants == Reclaimed(p).grants;
    var w' := Step(w, Tell(0, Failure, 140));
    assert w'.t.rows[p].status == Failed && w'.t.rows[p].attempts == 2 && w'.grants == w.grants;
    BackoffIsNotEnforced(w'.t, p, "c", 120, 150);
  }
}
