/**
 The same lease table when the SELECT and the write of acquire_lease and
 fail_lease are separate steps that other workers may come between. The attempt
 bounds, the single INSERT winner and the backoff hold of every interleaving;
 exclusivity holds where no write overtakes another worker's SELECT.
 */
module LeaseInterleaving {
  import opened Prelude
  import opened LeaseTable
  import LeaseRuns

  /** Where a worker stands between its SELECT and its write; `seen` is the row its SELECT returned. */
  datatype Progress =
    | Idle
    | Acquiring(pair: Pair, plan: Plan, seen: Option<Lease>)
    | Failing(grant: nat, attempts: int)

  /** A report names the grant the worker received, by its position in the history. */
  datatype Event =
    | SelectForAcquire(worker: string, pair: Pair, at: int)
    | WriteAcquire(worker: string, ttl: int, at: int)
    | SelectForFail(worker: string, grant: nat, at: int)
    | WriteFail(worker: string, at: int)
    | Finish(grant: nat, completes: bool, at: int)
    | Sweep(staleAfter: int, at: int)

  /** The table and clock, each worker's position, and what has happened: grants, those unreported, and the rest. */
  datatype World = World(t: Table, clock: int, progress: map<string, Progress>, grants: seq<Grant>, open: set<nat>,
                         completions: multiset<Pair>, inserted: multiset<Pair>, backoffs: seq<int>)

  const START: World := World(EMPTY, 0, map[], [], {}, multiset{}, multiset{}, [])

  function At(w: World, worker: string): Progress {
    if worker in w.progress then w.progress[worker] else Idle
  }

  function RowOf(t: Table, p: Pair): Option<Lease> { if p in t.rows then Some(t.rows[p]) else None }

  predicate Names(t: Table, id: nat) { id < |t.index| && t.index[id] in t.rows }

  /** UPDATE ... WHERE lease_id = id, with the attempts that an earlier SELECT returned. */
  function Write(t: Table, id: nat, r: Report, attempts: int, now: int): Table {
    if !Names(t, id) then t
    else t.(rows := t.rows[t.index[id] := Reported(t.rows[t.index[id]], r, attempts, now)])
  }

  /** Unlike the atomic arbiter, a write acts on whatever the table has become since the worker's SELECT. */
  function Step(w0: World, e: Event): World {
    var w := w0.(clock := e.at);
    match e
    case SelectForAcquire(worker, p, at) =>
      w.(progress := w.progress[worker := Acquiring(p, Decide(w.t, p, at), RowOf(w.t, p))])
    case WriteAcquire(worker, ttl, at) =>
      var s := At(w, worker);
      if !s.Acquiring? then w
      else
        var (t', g) := Execute(w.t, s.pair, s.plan, worker, ttl, at);
        w.(t := t', progress := w.progress[worker := Idle],
           grants := if g.Some? then w.grants + [g.value] else w.grants,
           open := if g.Some? then w.open + {|w.grants|} else w.open,
           inserted := if s.plan.Create? && s.pair !in w.t.rows then w.inserted + multiset{s.pair} else w.inserted)
    case SelectForFail(worker, g, _) =>
      if g < |w.grants| && Names(w.t, w.grants[g].leaseId) then
        w.(progress := w.progress[worker := Failing(g, w.t.rows[w.t.index[w.grants[g].leaseId]].attempts)])
      else w
    case WriteFail(worker, at) =>
      var s := At(w, worker);
      if !s.Failing? || s.grant >= |w.grants| then w
      else w.(t := Write(w.t, w.grants[s.grant].leaseId, Failure, s.attempts, at), open := w.open - {s.grant},
              progress := w.progress[worker := Idle], backoffs := w.backoffs + [Backoff(s.attempts)])
    case Finish(g, completes, at) =>
      if g >= |w.grants| then w
      else w.(t := Write(w.t, w.grants[g].leaseId, if completes then Done else GiveUp, 0, at), open := w.open - {g},
              completions := if completes then w.completions + multiset{w.grants[g].pair} else w.completions)
    case Sweep(staleAfter, at) => w.(t := Recover(w.t, staleAfter, at))
  }

  function Run(w: World, es: seq<Event>): World
    decreases |es|
  {
    if es == [] then w else Run(Step(w, es[0]), es[1..])
  }

  /** A SELECT and its write with nothing in between are the atomic acquire. */
  lemma AdjacentAcquireIsAtomic(w: World, worker: string, p: Pair, ttl: int, at: int)
    ensures var w' := Step(Step(w, SelectForAcquire(worker, p, at)), WriteAcquire(worker, ttl, at));
            var (t, g) := Acquire(w.t, p, worker, ttl, at);
            && w'.t == t && w'.grants == (if g.Some? then w.grants + [g.value] else w.grants)
            && w'.open == (if g.Some? then w.open + {|w.grants|} else w.open) && At(w', worker) == Idle
            && w'.clock == at
  {}

  /** The same for a failure report; the other reports are one statement. */
  lemma AdjacentFailIsAtomic(w: World, worker: string, g: nat, at: int)
    requires g < |w.grants| && Names(w.t, w.grants[g].leaseId)
    ensures var w' := Step(Step(w, SelectForFail(worker, g, at)), WriteFail(worker, at));
            && w'.t == Accept(w.t, w.grants[g].leaseId, Failure, at) && w'.grants == w.grants && w'.open == w.open - {g}
            && At(w', worker) == Idle
            && w'.backoffs == w.backoffs + [Backoff(w.t.rows[w.t.index[w.grants[g].leaseId]].attempts)]
    ensures var w' := Step(w, Finish(g, true, at));
            w'.t == Accept(w.t, w.grants[g].leaseId, Done, at) && w'.completions == w.completions + multiset{w.grants[g].pair}
    ensures Step(w, Finish(g, false, at)).t == Accept(w.t, w.grants[g].leaseId, GiveUp, at)
    ensures Step(w, Finish(g, false, at)).completions == w.completions
  {}

  // ---- Bounds: every interleaving ----

  predicate InBounds(attempts: int) { 1 <= attempts <= MAX_ATTEMPTS }

  predicate Sound(s: Progress) {
    match s
    case Idle => true
    case Acquiring(_, plan, _) => plan.Reclaim? ==> InBounds(plan.attempts)
    case Failing(_, attempts) => InBounds(attempts)
  }

  ghost predicate Bounded(w: World) {
    && (forall p :: p in w.t.rows ==> InBounds(w.t.rows[p].attempts))
    && (forall k :: k in w.progress ==> Sound(w.progress[k]))
    && (forall p :: w.inserted[p] == if p in w.t.rows then 1 else 0)
    && (forall i :: 0 <= i < |w.backoffs| ==> 1 <= w.backoffs[i] <= 16)
  }

  lemma BackoffBelowCap(attempts: int)
    requires InBounds(attempts)
    ensures 1 <= Backoff(attempts) == Pow2(attempts - 1) <= 16 < MAX_BACKOFF_S
  {
    assert Pow2(0) == 1 && Pow2(1) == 2 && Pow2(2) == 4 && Pow2(3) == 8 && Pow2(4) == 16;
  }

  /** What a write of plan `plan` leaves: only its own row may change, and it keeps its lease_id. */
  lemma ExecuteEffect(t: Table, p: Pair, plan: Plan, worker: string, ttl: int, now: int)
    ensures var (t', g) := Execute(t, p, plan, worker, ttl, now);
            && (forall q :: q != p ==> RowOf(t', q) == RowOf(t, q))
            && (p in t.rows ==> p in t'.rows && t'.rows[p].id == t.rows[p].id)
            && (g.Some? <==> (plan.Reclaim? && p in t.rows) || (plan.Create? && p !in t.rows))
            && (g.None? && !plan.Bury? ==> t' == t)
            && (g.None? && plan.Bury? ==> (p in t'.rows <==> p in t.rows))
            && (g.Some? ==> p in t'.rows && t'.rows[p].status == Leased && t'.rows[p].expiresAt == now + ttl
                            && g.value.pair == p && g.value.leaseId == t'.rows[p].id && g.value.expiresAt == now + ttl)
  {}

  lemma BoundedWriteAcquire(w: World, e: Event)
    requires Bounded(w) && e.WriteAcquire?
    ensures Bounded(Step(w, e))
  {
    var s := At(w, e.worker);
    if s.Acquiring? {
      assert Sound(s);
      assert s.pair in w.t.rows ==> InBounds(w.t.rows[s.pair].attempts);
    }
  }

  lemma BoundedWriteFail(w: World, e: Event)
    requires Bounded(w) && e.WriteFail?
    ensures Bounded(Step(w, e))
  {
    var s := At(w, e.worker);
    if s.Failing? {
      assert Sound(s);
      BackoffBelowCap(s.attempts);
    }
  }

  lemma BoundedSelect(w: World, e: Event)
    requires Bounded(w) && (e.SelectForAcquire? || e.SelectForFail?)
    ensures Bounded(Step(w, e))
  {
    if e.SelectForAcquire? {
      assert e.pair in w.t.rows ==> InBounds(w.t.rows[e.pair].attempts);
    }
  }

  lemma BoundedStep(w: World, e: Event)
    requires Bounded(w)
    ensures Bounded(Step(w, e))
  {
    match e
    case WriteAcquire(_, _, _) => BoundedWriteAcquire(w, e);
    case WriteFail(_, _) => BoundedWriteFail(w, e);
    case SelectForAcquire(_, _, _) => BoundedSelect(w, e);
    case SelectForFail(_, _, _) => BoundedSelect(w, e);
    case _ =>
  }

  /**
   However the statements interleave, attempts stay in 1..MAX_ATTEMPTS, exactly
   one worker ever wins a pair by INSERT, and no backoff reaches its cap.
   */
  lemma {:induction false} InterleavedBounds(w: World, es: seq<Event>)
    requires Bounded(w)
    ensures Bounded(Run(w, es))
    decreases |es|
  {
    if es != [] {
      BoundedStep(w, es[0]);
      InterleavedBounds(Step(w, es[0]), es[1..]);
    }
  }

  // ---- Exclusivity: when it fails, and when it holds ----

  /** Grant `i` is owed a report and its lease has not run out. */
  predicate Live(w: World, i: int) {
    0 <= i < |w.grants| && i in w.open && w.clock < w.grants[i].expiresAt
  }

  /** The write of an acquire finds the pair's lease in force and takes it all the same. */
  predicate Seizes(w: World, e: Event) {
    e.WriteAcquire? &&
    (var s := At(w, e.worker);
     s.Acquiring? && s.plan.Reclaim? && s.pair in w.t.rows && Active(w.t.rows[s.pair], e.at))
  }

  /** The write of an acquire overwrites a row that is in force or finished. */
  predicate Clobbers(w: World, e: Event) {
    e.WriteAcquire? &&
    (var s := At(w, e.worker);
     s.Acquiring? && (s.plan.Reclaim? || s.plan.Bury?) && s.pair in w.t.rows
     && (Active(w.t.rows[s.pair], e.at) || Terminal(w.t.rows[s.pair].status)))
  }

  /** Nobody has written the pair since the SELECT of the worker that now writes it: what a guarded UPDATE would ask. */
  predicate Undisturbed(w: World, e: Event) {
    e.WriteAcquire? && At(w, e.worker).Acquiring? ==> RowOf(w.t, At(w, e.worker).pair) == At(w, e.worker).seen
  }

  predicate Timely(w: World, e: Event) {
    && w.clock <= e.at
    && (e.Finish? && e.grant < |w.grants| ==> e.grant in w.open && e.at < w.grants[e.grant].expiresAt)
    && (e.WriteFail? && At(w, e.worker).Failing? && At(w, e.worker).grant < |w.grants| ==>
          At(w, e.worker).grant in w.open && e.at < w.grants[At(w, e.worker).grant].expiresAt)
    && (e.Sweep? ==> e.staleAfter >= -1)
  }

  /** An acquire that finds the pair's lease in force is granted it all the same exactly when its SELECT led it to reclaim. */
  lemma GrantedInForceIff(w: World, e: Event)
    requires e.WriteAcquire? && At(w, e.worker).Acquiring?
    requires At(w, e.worker).pair in w.t.rows && Active(w.t.rows[At(w, e.worker).pair], e.at)
    ensures |Step(w, e).grants| == |w.grants| + 1 <==> At(w, e.worker).plan.Reclaim?
  {}

  ghost predicate Linked(w: World) {
    Indexed(w.t) && forall i :: 0 <= i < |w.grants| ==> LinkedGrant(w.t, w.grants[i])
  }

  predicate LinkedGrant(t: Table, g: Grant) {
    g.pair in t.rows && t.rows[g.pair].id == g.leaseId && g.leaseId < |t.index| && t.index[g.leaseId] == g.pair
  }

  /** A live grant's row is leased until the grant's own deadline. */
  predicate Leasing(w: World, i: nat)
    requires i < |w.grants|
  {
    var p := w.grants[i].pair;
    p in w.t.rows && w.t.rows[p].status == Leased && w.t.rows[p].expiresAt == w.grants[i].expiresAt
  }

  ghost predicate LiveRowsLeased(w: World) { forall i :: Live(w, i) ==> Leasing(w, i) }

  ghost predicate OneLive(w: World) {
    forall i, j :: Live(w, i) && Live(w, j) && w.grants[i].pair == w.grants[j].pair ==> i == j
  }

  ghost predicate Held(w: World, p: Pair) { exists i :: Live(w, i) && w.grants[i].pair == p }

  /** A row is in force only while some grant of it is live. */
  ghost predicate ActiveHeld(w: World) {
    forall p :: p in w.t.rows && Active(w.t.rows[p], w.clock) ==> Held(w, p)
  }

  ghost predicate CompletedOnce(w: World) {
    forall p :: p in w.completions ==>
      w.completions[p] == 1 && p in w.t.rows && w.t.rows[p].status == Completed
  }

  /** What a worker means to overwrite was, at its SELECT, neither finished nor in force. */
  predicate Recalls(s: Progress, clock: int) {
    s.Acquiring? && (s.plan.Reclaim? || s.plan.Bury?) ==>
      s.seen.Some? && !Terminal(s.seen.value.status) && !Active(s.seen.value, clock)
  }

  ghost predicate Remembered(w: World) { forall k :: k in w.progress ==> Recalls(w.progress[k], w.clock) }

  ghost predicate Exclusive(w: World) {
    Linked(w) && LiveRowsLeased(w) && OneLive(w) && ActiveHeld(w) && CompletedOnce(w) && Remembered(w)
  }

  /** With exclusivity so far, a write makes a second live grant exactly when it seizes a lease in force, for a positive time. */
  lemma SecondLiveGrantIff(w: World, e: Event)
    requires Exclusive(w) && e.WriteAcquire? && w.clock <= e.at
    ensures OneLive(Step(w, e)) <==> !(Seizes(w, e) && e.ttl > 0)
  {
    var s, w' := At(w, e.worker), Step(w, e);
    if s.Acquiring? {
      ExecuteEffect(w.t, s.pair, s.plan, e.worker, e.ttl, e.at);
    }
    if Seizes(w, e) && e.ttl > 0 {
      assert Held(w, s.pair);
      var i :| Live(w, i) && w.grants[i].pair == s.pair;
      assert Leasing(w, i);
      assert Live(w', i) && Live(w', |w.grants|) && w'.grants[i].pair == w'.grants[|w.grants|].pair;
    } else {
      forall i, j | Live(w', i) && Live(w', j) && w'.grants[i].pair == w'.grants[j].pair ensures i == j {
        StillLive(w, e, i);
        StillLive(w, e, j);
      }
    }
  }

  /** A grant live after an acquire's write was live before it, or is the new one. */
  lemma StillLive(w: World, e: Event, i: int)
    requires LiveRowsLeased(w) && e.WriteAcquire? && w.clock <= e.at && Live(Step(w, e), i)
    ensures i < |w.grants| ==> Live(w, i) && Leasing(w, i) && Step(w, e).grants[i] == w.grants[i]
    ensures i < |w.grants| && Step(w, e).grants != w.grants && w.grants[i].pair == At(w, e.worker).pair ==> Seizes(w, e)
    ensures i >= |w.grants| ==> i == |w.grants| && Step(w, e).grants[i].pair == At(w, e.worker).pair && e.ttl > 0
                                && Step(w, e).grants != w.grants
  {
    if i < |w.grants| {
      assert Live(w, i);
    }
  }

  /** If nobody wrote the pair in between, an acquire's write overwrites nothing in force or finished. */
  lemma UndisturbedClobbersNothing(w: World, e: Event)
    requires Remembered(w) && w.clock <= e.at && Undisturbed(w, e)
    ensures !Clobbers(w, e)
  {
    if e.WriteAcquire? && e.worker in w.progress {
      assert Recalls(w.progress[e.worker], w.clock);
    }
  }

  // ---- The exact condition, statement by statement ----

  /** Grant `i` is owed a report and has not run out at `at`. */
  predicate Outstanding(w: World, i: int, at: int) {
    0 <= i < |w.grants| && i in w.open && at < w.grants[i].expiresAt
  }

  /** The write of an acquire overwrites a lease in force, or a completed pair. */
  predicate Overwrites(w: World, e: Event) {
    e.WriteAcquire? &&
    (var s := At(w, e.worker);
     s.Acquiring? && (s.plan.Reclaim? || s.plan.Bury?) && s.pair in w.t.rows
     && (Active(w.t.rows[s.pair], e.at) || s.pair in w.completions))
  }

  /** The pair of grant `g` is not completed, and nobody else has an outstanding grant of it. */
  ghost predicate SafeReport(w: World, g: nat, at: int)
    requires g < |w.grants|
  {
    && w.grants[g].pair !in w.completions
    && forall i :: Outstanding(w, i, at) && w.grants[i].pair == w.grants[g].pair ==> i == g
  }

  ghost predicate Safe(w: World, e: Event) {
    match e
    case SelectForAcquire(_, _, _) => true
    case SelectForFail(_, _, _) => true
    case WriteAcquire(_, _, _) => !Overwrites(w, e)
    case Finish(g, _, at) => g < |w.grants| ==> SafeReport(w, g, at)
    case WriteFail(worker, at) =>
      At(w, worker).Failing? && At(w, worker).grant < |w.grants| ==> SafeReport(w, At(w, worker).grant, at)
    case Sweep(staleAfter, at) => forall i :: Outstanding(w, i, at) ==> w.grants[i].expiresAt >= at - staleAfter
  }

  lemma LinkedTable(w: World, t': Table, grants: seq<Grant>)
    requires Linked(w) && grants == w.grants && t'.index == w.t.index && t'.rows.Keys == w.t.rows.Keys
    requires forall p :: p in w.t.rows ==> t'.rows[p].id == w.t.rows[p].id
    ensures Indexed(t') && forall i :: 0 <= i < |grants| ==> LinkedGrant(t', grants[i])
  {}

  lemma LinkedWriteAcquire(w: World, e: Event)
    requires Linked(w) && e.WriteAcquire?
    ensures Linked(Step(w, e))
  {
    var s, w' := At(w, e.worker), Step(w, e);
    if s.Acquiring? {
      if s.plan.Create? && s.pair !in w.t.rows {
        LeaseRuns.IndexedCreate(w.t, s.pair, w'.t.rows[s.pair]);
        forall i | 0 <= i < |w'.grants| ensures LinkedGrant(w'.t, w'.grants[i]) {
          assert i < |w.grants| ==> LinkedGrant(w.t, w.grants[i]);
        }
      } else {
        LinkedTable(w, w'.t, w.grants);
      }
    }
  }

  lemma ExclusiveGrant(w: World, e: Event)
    requires Exclusive(w) && w.clock <= e.at && e.WriteAcquire? && !Overwrites(w, e)
    ensures LiveRowsLeased(Step(w, e)) && ActiveHeld(Step(w, e))
  {
    var s, w' := At(w, e.worker), Step(w, e);
    if s.Acquiring? {
      ExecuteEffect(w.t, s.pair, s.plan, e.worker, e.ttl, e.at);
    }
    forall i | Live(w', i) ensures Leasing(w', i) {
      StillLive(w, e, i);
    }
    forall p | p in w'.t.rows && Active(w'.t.rows[p], e.at) ensures Held(w', p) {
      if RowOf(w'.t, p) == RowOf(w.t, p) {
        assert Held(w, p);
        var i :| Live(w, i) && w.grants[i].pair == p;
        assert Leasing(w, i);
        assert Live(w', i) && w'.grants[i].pair == p;
      } else {
        assert Live(w', |w.grants|) && w'.grants[|w.grants|].pair == p;
      }
    }
  }

  lemma RecordKept(w: World, e: Event)
    requires CompletedOnce(w) && Remembered(w) && w.clock <= e.at && e.WriteAcquire? && !Overwrites(w, e)
    ensures CompletedOnce(Step(w, e)) && Remembered(Step(w, e))
  {
    var s, w' := At(w, e.worker), Step(w, e);
    if s.Acquiring? {
      ExecuteEffect(w.t, s.pair, s.plan, e.worker, e.ttl, e.at);
    }
    forall p | p in w'.completions ensures w'.completions[p] == 1 && p in w'.t.rows && w'.t.rows[p].status == Completed {
      assert s.Acquiring? && p != s.pair ==> RowOf(w'.t, p) == RowOf(w.t, p);
    }
    forall k | k in w'.progress ensures Recalls(w'.progress[k], e.at) {
      assert k in w.progress ==> Recalls(w.progress[k], w.clock);
    }
  }

  /** An overwritten lease in force leaves its holder's grant live without its row, or beside a second live one. */
  lemma OverwriteBreaks(w: World, e: Event)
    requires Exclusive(w) && w.clock <= e.at && Overwrites(w, e)
    ensures !Exclusive(Step(w, e))
  {
    var s, w' := At(w, e.worker), Step(w, e);
    ExecuteEffect(w.t, s.pair, s.plan, e.worker, e.ttl, e.at);
    if Active(w.t.rows[s.pair], e.at) {
      assert Held(w, s.pair);
      var i :| Live(w, i) && w.grants[i].pair == s.pair;
      assert Leasing(w, i);
      assert Live(w', i);
      assert s.plan.Reclaim? && e.ttl > 0 ==> Live(w', |w.grants|) && w'.grants[|w.grants|].pair == w'.grants[i].pair;
      assert s.plan.Bury? || e.ttl <= 0 ==> !Leasing(w', i);
    } else {
      assert s.pair in w'.completions && w'.t.rows[s.pair].status != Completed;
    }
  }

  lemma WriteAcquireKeepsIff(w: World, e: Event)
    requires Exclusive(w) && w.clock <= e.at && e.WriteAcquire?
    ensures Exclusive(Step(w, e)) <==> !Overwrites(w, e)
  {
    if Overwrites(w, e) {
      OverwriteBreaks(w, e);
    } else {
      LinkedWriteAcquire(w, e);
      SecondLiveGrantIff(w, e);
      ExclusiveGrant(w, e);
      RecordKept(w, e);
    }
  }

  /** `t'` is `t` with the row of `p` taken out of force. */
  ghost predicate Closes(t: Table, t': Table, p: Pair) {
    && t'.index == t.index && t'.rows.Keys == t.rows.Keys && p in t.rows
    && (forall q :: q in t.rows && q != p ==> t'.rows[q] == t.rows[q])
    && t'.rows[p].id == t.rows[p].id && t'.rows[p].status != Leased && t'.rows[p].status != Processing
  }

  lemma WriteCloses(t: Table, g: Grant, r: Report, attempts: int, now: int)
    requires LinkedGrant(t, g)
    ensures Closes(t, Write(t, g.leaseId, r, attempts, now), g.pair)
    ensures r.Done? <==> Write(t, g.leaseId, r, attempts, now).rows[g.pair].status == Completed
  {}

  /** A report on grant `g`, of any kind: its row leaves force and the grant leaves `open`. */
  lemma ReportLeases(w: World, w': World, g: nat, at: int)
    requires Exclusive(w) && w.clock <= at && g < |w.grants| && SafeReport(w, g, at)
    requires Closes(w.t, w'.t, w.grants[g].pair) && w'.grants == w.grants && w'.open == w.open - {g} && w'.clock == at
    ensures Linked(w') && LiveRowsLeased(w') && OneLive(w') && ActiveHeld(w')
  {
    LinkedTable(w, w'.t, w.grants);
    forall i | Live(w', i) ensures Leasing(w', i) && Live(w, i) && w.grants[i].pair != w.grants[g].pair {
      assert Outstanding(w, i, at) && Live(w, i) && Leasing(w, i);
    }
    forall p | p in w'.t.rows && Active(w'.t.rows[p], at) ensures Held(w', p) {
      assert Held(w, p);
      var i :| Live(w, i) && w.grants[i].pair == p;
      assert Leasing(w, i) && Live(w', i);
    }
  }

  /** `w'` is `w` after a report on grant `g` at `at`. */
  ghost predicate Reports(w: World, w': World, g: nat, at: int, completes: bool)
    requires g < |w.grants|
  {
    var p := w.grants[g].pair;
    && Closes(w.t, w'.t, p) && (w'.t.rows[p].status == Completed <==> completes)
    && w'.grants == w.grants && w'.open == w.open - {g} && w'.clock == at
    && w'.completions == (if completes then w.completions + multiset{p} else w.completions)
    && forall k :: k in w'.progress ==> w'.progress[k].Idle? || (k in w.progress && w'.progress[k] == w.progress[k])
  }

  lemma UnsafeReportBreaks(w: World, w': World, g: nat, at: int, completes: bool)
    requires Exclusive(w) && w.clock <= at && g < |w.grants| && !SafeReport(w, g, at) && Reports(w, w', g, at, completes)
    ensures !Exclusive(w')
  {
    var p := w.grants[g].pair;
    if p in w.completions {
      assert p in w'.completions && (w'.completions[p] > 1 || w'.t.rows[p].status != Completed);
    } else {
      var i :| Outstanding(w, i, at) && w.grants[i].pair == p && i != g;
      assert Live(w', i) && !Leasing(w', i);
    }
  }

  lemma ReportRecord(w: World, w': World, g: nat, at: int, completes: bool)
    requires CompletedOnce(w) && Remembered(w) && w.clock <= at && g < |w.grants| && w.grants[g].pair !in w.completions
    requires Reports(w, w', g, at, completes)
    ensures CompletedOnce(w') && Remembered(w')
  {
    forall k | k in w'.progress ensures Recalls(w'.progress[k], at) {
      assert k in w.progress ==> Recalls(w.progress[k], w.clock);
    }
  }

  lemma ReportKeepsIff(w: World, w': World, g: nat, at: int, completes: bool)
    requires Exclusive(w) && w.clock <= at && g < |w.grants| && Reports(w, w', g, at, completes)
    ensures Exclusive(w') <==> SafeReport(w, g, at)
  {
    if SafeReport(w, g, at) {
      ReportLeases(w, w', g, at);
      ReportRecord(w, w', g, at, completes);
    } else {
      UnsafeReportBreaks(w, w', g, at, completes);
    }
  }

  lemma FinishKeepsIff(w: World, e: Event)
    requires Exclusive(w) && w.clock <= e.at && e.Finish?
    ensures Exclusive(Step(w, e)) <==> Safe(w, e)
  {
    if e.grant < |w.grants| {
      assert LinkedGrant(w.t, w.grants[e.grant]);
      WriteCloses(w.t, w.grants[e.grant], if e.completes then Done else GiveUp, 0, e.at);
      ReportKeepsIff(w, Step(w, e), e.grant, e.at, e.completes);
    } else {
      LaterKeeps(w, e.at);
    }
  }

  lemma WriteFailKeepsIff(w: World, e: Event)
    requires Exclusive(w) && w.clock <= e.at && e.WriteFail?
    ensures Exclusive(Step(w, e)) <==> Safe(w, e)
  {
    var s := At(w, e.worker);
    if s.Failing? && s.grant < |w.grants| {
      WriteFailReports(w, e);
      ReportKeepsIff(w, Step(w, e), s.grant, e.at, false);
    } else {
      LaterKeeps(w, e.at);
    }
  }

  lemma WriteFailReports(w: World, e: Event)
    requires Linked(w) && e.WriteFail? && At(w, e.worker).Failing? && At(w, e.worker).grant < |w.grants|
    ensures Reports(w, Step(w, e), At(w, e.worker).grant, e.at, false)
  {
    var s := At(w, e.worker);
    assert LinkedGrant(w.t, w.grants[s.grant]);
    WriteCloses(w.t, w.grants[s.grant], Failure, s.attempts, e.at);
  }

  /** Time passes: what was live or in force may lapse, nothing else changes. */
  lemma LaterOnly(w: World, w': World, at: int)
    requires Exclusive(w) && w.clock <= at && w'.clock == at && w'.t == w.t && w'.grants == w.grants && w'.open == w.open
    ensures Linked(w') && LiveRowsLeased(w') && OneLive(w') && ActiveHeld(w')
  {
    forall i | Live(w', i) ensures Live(w, i) && Leasing(w', i) {
      assert Live(w, i) && Leasing(w, i);
    }
    forall p | p in w'.t.rows && Active(w'.t.rows[p], at) ensures Held(w', p) {
      assert Held(w, p);
      var i :| Live(w, i) && w.grants[i].pair == p;
      assert Leasing(w, i) && Live(w', i);
    }
  }

  lemma LaterKeeps(w: World, at: int)
    requires Exclusive(w) && w.clock <= at
    ensures Exclusive(w.(clock := at))
  {
    LaterOnly(w, w.(clock := at), at);
    forall k | k in w.progress ensures Recalls(w.progress[k], at) {
      assert Recalls(w.progress[k], w.clock);
    }
  }

  lemma ExclusiveSelect(w: World, e: Event)
    requires Exclusive(w) && w.clock <= e.at && (e.SelectForAcquire? || e.SelectForFail?)
    ensures Exclusive(Step(w, e))
  {
    LaterOnly(w, Step(w, e), e.at);
  }

  lemma SweepKeepsIff(w: World, e: Event)
    requires Exclusive(w) && w.clock <= e.at && e.Sweep?
    ensures Exclusive(Step(w, e)) <==> Safe(w, e)
  {
    var later, w' := w.(clock := e.at), Step(w, e);
    if Safe(w, e) {
      LaterKeeps(w, e.at);
      SweptLeases(later, e);
    } else {
      var i :| Outstanding(w, i, e.at) && w.grants[i].expiresAt < e.at - e.staleAfter;
      assert Live(w, i) && Leasing(w, i);
      assert Live(w', i) && !Leasing(w', i);
    }
  }

  lemma SweptLeases(w: World, e: Event)
    requires Linked(w) && LiveRowsLeased(w) && OneLive(w) && ActiveHeld(w) && CompletedOnce(w)
    requires e.Sweep? && w.clock == e.at && Safe(w, e)
    ensures var w' := w.(t := Recover(w.t, e.staleAfter, e.at));
            Linked(w') && LiveRowsLeased(w') && OneLive(w') && ActiveHeld(w') && CompletedOnce(w')
  {
    var w' := w.(t := Recover(w.t, e.staleAfter, e.at));
    LinkedTable(w, w'.t, w.grants);
    forall i | Live(w', i) ensures Leasing(w', i) {
      assert Live(w, i) && Leasing(w, i) && Outstanding(w, i, e.at);
    }
    forall p | p in w'.t.rows && Active(w'.t.rows[p], e.at) ensures Held(w', p) {
      assert Held(w, p);
      var i :| Live(w, i) && w.grants[i].pair == p;
      assert Live(w', i);
    }
  }

  /** From a table in which grants are exclusive, a statement keeps them so exactly when it is safe. */
  lemma StepKeepsExclusiveIff(w: World, e: Event)
    requires Exclusive(w) && w.clock <= e.at
    ensures Exclusive(Step(w, e)) <==> Safe(w, e)
  {
    match e
    case WriteAcquire(_, _, _) => WriteAcquireKeepsIff(w, e);
    case WriteFail(_, _) => WriteFailKeepsIff(w, e);
    case Finish(_, _, _) => FinishKeepsIff(w, e);
    case Sweep(_, _) => SweepKeepsIff(w, e);
    case SelectForAcquire(_, _, _) => ExclusiveSelect(w, e);
    case SelectForFail(_, _, _) => ExclusiveSelect(w, e);
  }

  predicate OrderedRun(w: World, es: seq<Event>)
    decreases |es|
  {
    es == [] || (w.clock <= es[0].at && OrderedRun(Step(w, es[0]), es[1..]))
  }

  ghost predicate SafeRun(w: World, es: seq<Event>)
    decreases |es|
  {
    es == [] || (Safe(w, es[0]) && SafeRun(Step(w, es[0]), es[1..]))
  }

  ghost predicate ExclusiveThroughout(w: World, es: seq<Event>)
    decreases |es|
  {
    Exclusive(w) && (es == [] || ExclusiveThroughout(Step(w, es[0]), es[1..]))
  }

  /** Over every interleaving of the statements, grants are exclusive throughout exactly when every statement is safe. */
  lemma {:induction false} ExclusiveThroughoutIff(w: World, es: seq<Event>)
    requires Exclusive(w) && OrderedRun(w, es)
    ensures ExclusiveThroughout(w, es) <==> SafeRun(w, es)
    decreases |es|
  {
    if es != [] {
      StepKeepsExclusiveIff(w, es[0]);
      if Safe(w, es[0]) {
        ExclusiveThroughoutIff(Step(w, es[0]), es[1..]);
      }
    }
  }

  // ---- Undisturbed and timely statements are safe ----

  lemma TimelyReportIsSafe(w: World, g: nat, at: int)
    requires Exclusive(w) && w.clock <= at && Outstanding(w, g, at)
    ensures SafeReport(w, g, at)
  {
    assert Live(w, g) && Leasing(w, g);
    forall i | Outstanding(w, i, at) && w.grants[i].pair == w.grants[g].pair ensures i == g {
      assert Live(w, i);
    }
  }

  lemma UndisturbedIsSafe(w: World, e: Event)
    requires Exclusive(w) && Timely(w, e) && Undisturbed(w, e)
    ensures Safe(w, e)
  {
    match e
    case WriteAcquire(_, _, _) => UndisturbedClobbersNothing(w, e);
    case Finish(g, _, at) =>
      if g < |w.grants| {
        TimelyReportIsSafe(w, g, at);
      }
    case WriteFail(worker, at) =>
      if At(w, worker).Failing? && At(w, worker).grant < |w.grants| {
        TimelyReportIsSafe(w, At(w, worker).grant, at);
      }
    case _ =>
  }

  lemma ExclusiveStep(w: World, e: Event)
    requires Exclusive(w) && Timely(w, e) && Undisturbed(w, e)
    ensures Exclusive(Step(w, e))
  {
    UndisturbedIsSafe(w, e);
    StepKeepsExclusiveIff(w, e);
  }

  predicate UndisturbedRun(w: World, es: seq<Event>)
    decreases |es|
  {
    es == [] || (Timely(w, es[0]) && Undisturbed(w, es[0]) && UndisturbedRun(Step(w, es[0]), es[1..]))
  }

  /**
   If nobody writes a pair between another worker's SELECT and its write, and
   reports are timely, then in every interleaving of the statements a pair has at
   most one live grant, and it is completed at most once.
   */
  lemma {:induction false} UndisturbedRunsAreExclusive(w: World, es: seq<Event>)
    requires Exclusive(w) && UndisturbedRun(w, es)
    ensures Exclusive(Run(w, es))
    decreases |es|
  {
    if es != [] {
      ExclusiveStep(w, es[0]);
      UndisturbedRunsAreExclusive(Step(w, es[0]), es[1..]);
    }
  }

  /** The same from the empty table, in plain terms. */
  lemma OneLiveGrantPerPair(es: seq<Event>)
    requires UndisturbedRun(START, es)
    ensures var w := Run(START, es);
            && (forall i, j :: Live(w, i) && Live(w, j) && w.grants[i].pair == w.grants[j].pair ==> i == j)
            && (forall p :: w.completions[p] <= 1)
  {
    UndisturbedRunsAreExclusive(START, es);
    var w := Run(START, es);
    forall p ensures w.completions[p] <= 1 {
      assert p in w.completions || w.completions[p] == 0;
    }
  }

  /**
   The reclaim UPDATE is unguarded: two workers that both read an expired lease
   are both granted it, while its attempts field counts only one of them.
   */
  lemma BothReclaim(p: Pair)
    ensures var w := Step(Step(START, SelectForAcquire("a", p, 0)), WriteAcquire("a", 120, 0));
            var w2 := Step(Step(w, SelectForAcquire("b", p, 120)), SelectForAcquire("c", p, 120));
            var w3 := Step(Step(w2, WriteAcquire("b", 120, 121)), WriteAcquire("c", 120, 122));
            && Live(w3, 1) && Live(w3, 2) && w3.grants[1].pair == w3.grants[2].pair == p
            && p in w3.t.rows && w3.t.rows[p].attempts == 2
  {
    var w := Step(Step(START, SelectForAcquire("a", p, 0)), WriteAcquire("a", 120, 0));
    assert w.t.rows == map[p := Lease(0, "a", Leased, 1, 120, None)] && w.grants == [Grant(p, 0, "a", 1, 120)];
    var w2 := Step(Step(w, SelectForAcquire("b", p, 120)), SelectForAcquire("c", p, 120));
    assert At(w2, "b").plan == At(w2, "c").plan == Reclaim(2) && w2.t == w.t && w2.grants == w.grants;
    var w3 := Step(w2, WriteAcquire("b", 120, 121));
    assert w3.grants == w.grants + [Grant(p, 0, "b", 2, 241)] && At(w3, "c") == At(w2, "c");
  }
}
