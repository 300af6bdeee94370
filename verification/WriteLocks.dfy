/**
 The TTL lock of shared/locks.py and the routed write of shared/write_router.py.

 acquire_lock is two statements (DELETE the expired row, INSERT ... ON CONFLICT DO
 NOTHING), the writer reads and commits inside its transaction, and release_lock
 deletes the row without asking whose it is. Any number of workers interleave.
 */
module WriteLocks {
  type Key = string
  type Value = int

  /** lock_key -> expires_at. */
  type Locks = map<Key, int>

  function DeleteExpired(locks: Locks, k: Key, now: int): Locks {
    if k in locks && locks[k] < now then locks - {k} else locks
  }

  function Cleanup(locks: Locks, now: int): Locks {
    map k | k in locks && locks[k] >= now :: locks[k]
  }

  /** Where a routed write stands. `update` is what its writer does to the value it reads. */
  datatype Progress =
    | Idle
    | Inserting(key: Key, ttl: int, update: Value -> Value)
    | Holding(key: Key, expires: int, update: Value -> Value)
    | Writing(key: Key, expires: int, update: Value -> Value, read: Value)
    | Releasing(key: Key, expires: int, ok: bool)

  predicate Inside(p: Progress) { p.Holding? || p.Writing? || p.Releasing? }

  datatype Result = Contention | Finished(ok: bool)

  datatype Commit = Commit(worker: nat, key: Key, update: Value -> Value)

  /** The lock table, the resources, each worker's position, every commit in order, and every result. */
  datatype World = World(locks: Locks, store: map<Key, Value>, at: map<nat, Progress>, clock: int,
                         commits: seq<Commit>, results: seq<(nat, Result)>)

  datatype Event =
    | Begin(worker: nat, key: Key, ttl: int, update: Value -> Value, now: int)
    | Insert(worker: nat, now: int)
    | Read(worker: nat, now: int)
    | Settle(worker: nat, commits: bool, now: int)
    | Release(worker: nat, now: int)
    | Crash(worker: nat, now: int)
    | Sweep(now: int)

  function At(w: World, worker: nat): Progress { if worker in w.at then w.at[worker] else Idle }

  function Load(store: map<Key, Value>, k: Key): Value { if k in store then store[k] else 0 }

  function Step(w0: World, e: Event): World {
    var w := w0.(clock := e.now);
    match e
    case Begin(i, k, ttl, update, now) =>
      if At(w, i).Idle? then w.(locks := DeleteExpired(w.locks, k, now), at := w.at[i := Inserting(k, ttl, update)])
      else w
    case Insert(i, now) =>
      var p := At(w, i);
      if !p.Inserting? then w
      else if p.key in w.locks then w.(at := w.at[i := Idle], results := w.results + [(i, Contention)])
      else w.(locks := w.locks[p.key := now + p.ttl], at := w.at[i := Holding(p.key, now + p.ttl, p.update)])
    case Read(i, _) =>
      var p := At(w, i);
      if !p.Holding? then w else w.(at := w.at[i := Writing(p.key, p.expires, p.update, Load(w.store, p.key))])
    case Settle(i, commits, _) =>
      var p := At(w, i);
      if !p.Writing? then w
      else if commits then
        w.(store := w.store[p.key := p.update(p.read)], at := w.at[i := Releasing(p.key, p.expires, true)],
           commits := w.commits + [Commit(i, p.key, p.update)])
      else w.(at := w.at[i := Releasing(p.key, p.expires, false)])
    case Release(i, _) =>
      var p := At(w, i);
      if !p.Releasing? then w
      else w.(locks := w.locks - {p.key}, at := w.at[i := Idle], results := w.results + [(i, Finished(p.ok))])
    case Crash(i, _) => w.(at := w.at[i := Idle])
    case Sweep(now) => w.(locks := Cleanup(w.locks, now))
  }

  function Run(w: World, es: seq<Event>): World
    decreases |es|
  {
    if es == [] then w else Run(Step(w, es[0]), es[1..])
  }

  /** No worker is still inside when its TTL has run out. */
  ghost predicate InTime(w: World, now: int) {
    w.clock <= now && forall i :: i in w.at && Inside(w.at[i]) ==> now <= w.at[i].expires
  }

  ghost predicate TimelyRun(w: World, es: seq<Event>)
    decreases |es|
  {
    es == [] || (InTime(w, es[0].now) && TimelyRun(Step(w, es[0]), es[1..]))
  }

  /** Worker `i` is inside and its key's row is its own. */
  predicate Owns(w: World, i: nat) {
    Inside(At(w, i)) ==> At(w, i).key in w.locks && w.locks[At(w, i).key] == At(w, i).expires
  }

  /** At most one worker per key is inside, each owning the row; a pending read is current. */
  ghost predicate Guarded(w: World) {
    && (forall i: nat :: Owns(w, i))
    && (forall i: nat, j: nat :: Inside(At(w, i)) && Inside(At(w, j)) && At(w, i).key == At(w, j).key ==> i == j)
    && (forall i: nat :: At(w, i).Writing? ==> At(w, i).read == Load(w.store, At(w, i).key))
  }

  /** Worker `i` is still inside at a time past its TTL. */
  predicate Overstays(w: World, i: nat, now: int) { Inside(At(w, i)) && At(w, i).expires < now }

  /** The step deletes the row of a worker that is still inside: a newcomer to its key does, and the cleanup sweep. */
  ghost predicate Evicts(w: World, e: Event) {
    match e
    case Begin(j, k, _, _, now) => At(w, j).Idle? && exists i: nat :: Overstays(w, i, now) && At(w, i).key == k
    case Sweep(now) => exists i: nat :: Overstays(w, i, now)
    case _ => false
  }

  lemma GuardedBegin(w: World, e: Event)
    requires Guarded(w) && e.Begin?
    ensures Guarded(Step(w, e)) <==> !Evicts(w, e)
  {
    var w' := Step(w, e);
    if At(w, e.worker).Idle? {
      forall i: nat ensures Inside(At(w', i)) <==> Inside(At(w, i))
                    ensures Inside(At(w, i)) ==> At(w', i) == At(w, i) {}
      forall i: nat ensures Owns(w', i) <==> !(Overstays(w, i, e.now) && At(w, i).key == e.key) {
        assert Owns(w, i);
      }
    } else {
      assert w' == w.(clock := e.now);
      forall i: nat ensures At(w', i) == At(w, i) && Owns(w', i) { assert Owns(w, i); }
    }
  }

  lemma GuardedInsert(w: World, e: Event)
    requires Guarded(w) && e.Insert?
    ensures Guarded(Step(w, e))
  {
    var w' := Step(w, e);
    forall i: nat ensures i != e.worker ==> At(w', i) == At(w, i) {}
    forall i: nat ensures Owns(w', i) {
      assert Owns(w, i);
    }
    if Inside(At(w', e.worker)) && !Inside(At(w, e.worker)) {
      forall i: nat | i != e.worker && Inside(At(w, i)) ensures At(w, i).key != At(w', e.worker).key {
        assert Owns(w, i);
      }
    }
  }

  lemma GuardedWrite(w: World, e: Event)
    requires Guarded(w) && (e.Read? || e.Settle?)
    ensures Guarded(Step(w, e))
  {
    var w' := Step(w, e);
    forall i: nat ensures i != e.worker ==> At(w', i) == At(w, i) {}
    forall i: nat ensures Owns(w', i) {
      assert Owns(w, i) && Owns(w, e.worker);
    }
    forall i: nat ensures Inside(At(w', i)) == Inside(At(w, i)) && (Inside(At(w, i)) ==> At(w', i).key == At(w, i).key) {}
    forall i: nat | At(w', i).Writing? ensures At(w', i).read == Load(w'.store, At(w', i).key) {
      if i != e.worker && Inside(At(w, e.worker)) {
        assert At(w, i).key != At(w, e.worker).key;
      }
    }
  }

  lemma GuardedLeave(w: World, e: Event)
    requires Guarded(w) && (e.Release? || e.Crash?)
    ensures Guarded(Step(w, e))
  {
    var w' := Step(w, e);
    assert w'.store == w.store;
    forall i: nat ensures At(w', i) == At(w, i) || !Inside(At(w', i)) {}
    forall i: nat ensures Owns(w', i) {
      assert Owns(w, i);
      if e.Release? && At(w, e.worker).Releasing? && Inside(At(w, i)) && At(w, i).key == At(w, e.worker).key {
        assert i == e.worker;
      }
    }
  }

  lemma GuardedSweep(w: World, e: Event)
    requires Guarded(w) && e.Sweep?
    ensures Guarded(Step(w, e)) <==> !Evicts(w, e)
  {
    var w' := Step(w, e);
    forall i: nat ensures At(w', i) == At(w, i) {}
    forall i: nat ensures Owns(w', i) <==> !Overstays(w, i, e.now) {
      assert Owns(w, i);
    }
  }

  /** From one owner inside per key, a statement of any worker keeps it so exactly when it evicts nobody. */
  lemma StepKeepsGuardIff(w: World, e: Event)
    requires Guarded(w)
    ensures Guarded(Step(w, e)) <==> !Evicts(w, e)
  {
    match e
    case Begin(_, _, _, _, _) => GuardedBegin(w, e);
    case Insert(_, _) => GuardedInsert(w, e);
    case Read(_, _) => GuardedWrite(w, e);
    case Settle(_, _, _) => GuardedWrite(w, e);
    case Release(_, _) => GuardedLeave(w, e);
    case Crash(_, _) => GuardedLeave(w, e);
    case Sweep(_) => GuardedSweep(w, e);
  }

  ghost predicate NeverEvicts(w: World, es: seq<Event>)
    decreases |es|
  {
    es == [] || (!Evicts(w, es[0]) && NeverEvicts(Step(w, es[0]), es[1..]))
  }

  ghost predicate GuardedThroughout(w: World, es: seq<Event>)
    decreases |es|
  {
    Guarded(w) && (es == [] || GuardedThroughout(Step(w, es[0]), es[1..]))
  }

  /** Over every run, one owner is inside per key throughout exactly when no step evicts a worker still inside. */
  lemma {:induction false} GuardedThroughoutIff(w: World, es: seq<Event>)
    requires Guarded(w)
    ensures GuardedThroughout(w, es) <==> NeverEvicts(w, es)
    decreases |es|
  {
    if es != [] {
      StepKeepsGuardIff(w, es[0]);
      if !Evicts(w, es[0]) {
        GuardedThroughoutIff(Step(w, es[0]), es[1..]);
      }
    }
  }

  /** Nobody is evicted while every holder leaves within its TTL. */
  lemma InTimeEvictsNobody(w: World, e: Event)
    requires InTime(w, e.now)
    ensures !Evicts(w, e)
  {
    forall i: nat ensures !Overstays(w, i, e.now) {}
  }

  lemma {:induction false} TimelyRunEvictsNobody(w: World, es: seq<Event>)
    requires TimelyRun(w, es)
    ensures NeverEvicts(w, es)
    decreases |es|
  {
    if es != [] {
      InTimeEvictsNobody(w, es[0]);
      TimelyRunEvictsNobody(Step(w, es[0]), es[1..]);
    }
  }

  lemma GuardedStep(w: World, e: Event)
    requires Guarded(w) && InTime(w, e.now)
    ensures Guarded(Step(w, e))
  {
    InTimeEvictsNobody(w, e);
    StepKeepsGuardIff(w, e);
  }

  // ---- Serialisability and results ----

  /** The value of `k` after applying the commits on it one at a time. */
  function Replay(commits: seq<Commit>, k: Key, v: Value): Value {
    if commits == [] then v
    else
      var last := commits[|commits| - 1];
      var before := Replay(commits[..|commits| - 1], k, v);
      if last.key == k then last.update(before) else before
  }

  function Succeeded(results: seq<(nat, Result)>, i: nat): nat {
    if results == [] then 0
    else Succeeded(results[..|results| - 1], i) + (if results[|results| - 1] == (i, Finished(true)) then 1 else 0)
  }

  function Committed(commits: seq<Commit>, i: nat): nat {
    if commits == [] then 0
    else Committed(commits[..|commits| - 1], i) + (if commits[|commits| - 1].worker == i then 1 else 0)
  }

  ghost predicate Serial(w: World, origin: map<Key, Value>) {
    forall k :: Load(w.store, k) == Replay(w.commits, k, Load(origin, k))
  }

  lemma SerialStep(w: World, e: Event, origin: map<Key, Value>)
    requires Guarded(w) && Serial(w, origin)
    ensures Serial(Step(w, e), origin)
  {
    var w' := Step(w, e);
    if w'.commits != w.commits {
      assert w'.commits[..|w.commits|] == w.commits;
      var p := At(w, e.worker);
      assert p == At(w.(clock := e.now), e.worker) && p.read == Load(w.store, p.key);
      forall k ensures Load(w'.store, k) == Replay(w'.commits, k, Load(origin, k)) {
        assert Load(w.store, k) == Replay(w.commits, k, Load(origin, k));
      }
    } else {
      forall k ensures Load(w'.store, k) == Load(w.store, k) {}
    }
  }

  /**
   If no step evicts a worker still inside, as when every holder leaves before its
   TTL runs out, at most one worker per key is ever inside the writer, and each
   resource is what the committed writers give when run one after another in commit
   order.
   */
  lemma {:induction false} RoutedWritesAreSerial(w: World, es: seq<Event>, origin: map<Key, Value>)
    requires Guarded(w) && Serial(w, origin) && NeverEvicts(w, es)
    ensures Guarded(Run(w, es)) && Serial(Run(w, es), origin)
    decreases |es|
  {
    if es != [] {
      StepKeepsGuardIff(w, es[0]);
      SerialStep(w, es[0], origin);
      RoutedWritesAreSerial(Step(w, es[0]), es[1..], origin);
    }
  }

  /** Whether a worker has committed and not yet reported it. */
  function Owed(p: Progress): nat { if p.Releasing? && p.ok then 1 else 0 }

  /** Worker `i`'s commits that no ok result reports and none is owed for. */
  function Unreported(w: World, i: nat): int {
    Committed(w.commits, i) - Succeeded(w.results, i) - Owed(At(w, i))
  }

  lemma CommittedSnoc(commits: seq<Commit>, c: Commit, i: nat)
    ensures Committed(commits + [c], i) == Committed(commits, i) + (if c.worker == i then 1 else 0)
  {
    assert (commits + [c])[..|commits|] == commits;
  }

  lemma SucceededSnoc(results: seq<(nat, Result)>, r: (nat, Result), i: nat)
    ensures Succeeded(results + [r], i) == Succeeded(results, i) + (if r == (i, Finished(true)) then 1 else 0)
  {
    assert (results + [r])[..|results|] == results;
  }

  /** A crash loses the report it owes; nothing else separates results from commits. */
  lemma AccountedStep(w: World, e: Event, i: nat)
    ensures Unreported(Step(w, e), i) == Unreported(w, i) + (if e.Crash? && e.worker == i then Owed(At(w, i)) else 0)
  {
    if e.Settle? {
      AccountedSettle(w, e, i);
    } else {
      OtherSteps(w, e);
      if Outcome(w, e) != [] {
        SucceededSnoc(w.results, Outcome(w, e)[0], i);
      }
    }
  }

  lemma AccountedSettle(w: World, e: Event, i: nat)
    requires e.Settle?
    ensures Unreported(Step(w, e), i) == Unreported(w, i)
  {
    if At(w, e.worker).Writing? && e.commits {
      CommittedSnoc(w.commits, Commit(e.worker, At(w, e.worker).key, At(w, e.worker).update), i);
    }
  }

  /** The result a step hands back, if it ends a routed write. */
  function Outcome(w: World, e: Event): seq<(nat, Result)> {
    if e.Release? && At(w, e.worker).Releasing? then [(e.worker, Finished(At(w, e.worker).ok))]
    else if e.Insert? && At(w, e.worker).Inserting? && At(w, e.worker).key in w.locks then [(e.worker, Contention)]
    else []
  }

  lemma OtherSteps(w: World, e: Event)
    requires !e.Settle?
    ensures var w' := Step(w, e);
            && w'.commits == w.commits && w'.results == w.results + Outcome(w, e)
            && (forall i: nat :: e.Sweep? || i != e.worker ==> At(w', i) == At(w, i))
            && (!e.Sweep? ==> Owed(At(w', e.worker)) == if e.Release? || e.Crash? then 0 else Owed(At(w, e.worker)))
  {}

  /** How many of worker `i`'s crashes in the run came between its commit and its report. */
  function LostReports(w: World, es: seq<Event>, i: nat): nat
    decreases |es|
  {
    if es == [] then 0
    else (if es[0].Crash? && es[0].worker == i then Owed(At(w, i)) else 0) + LostReports(Step(w, es[0]), es[1..], i)
  }

  /**
   In every run, timely or not, a worker's commits are its ok results, plus the one
   it has yet to report, plus those a crash kept it from reporting: without such a
   crash a result is ok exactly when its transaction committed.
   */
  lemma {:induction false} OkMeansCommitted(w: World, es: seq<Event>, i: nat)
    ensures Unreported(Run(w, es), i) == Unreported(w, i) + LostReports(w, es, i)
    decreases |es|
  {
    if es != [] {
      AccountedStep(w, es[0], i);
      OkMeansCommitted(Step(w, es[0]), es[1..], i);
    }
  }

  const START: World := World(map[], map[], map[], 0, [], [])

  /** The three results for runs from an empty lock table. */
  lemma OneWriterPerKey(es: seq<Event>)
    requires TimelyRun(START, es)
    ensures var w := Run(START, es);
            && (forall i: nat, j: nat :: Inside(At(w, i)) && Inside(At(w, j)) && At(w, i).key == At(w, j).key ==> i == j)
            && (forall k :: Load(w.store, k) == Replay(w.commits, k, 0))
            && (forall i: nat :: Committed(w.commits, i) ==
                  Succeeded(w.results, i) + Owed(At(w, i)) + LostReports(START, es, i))
  {
    assert Guarded(START) && Serial(START, map[]);
    TimelyRunEvictsNobody(START, es);
    RoutedWritesAreSerial(START, es, map[]);
    var w := Run(START, es);
    forall k ensures Load(w.store, k) == Replay(w.commits, k, 0) {
      assert Load(w.store, k) == Replay(w.commits, k, Load(map[], k));
    }
    forall i: nat ensures Unreported(w, i) == LostReports(START, es, i) {
      OkMeansCommitted(START, es, i);
    }
  }

  /** What an eviction leads to: the newcomer's INSERT finds no row, and both are inside. */
  lemma EvictedKeyAdmitsTwo(w: World, e: Event, i: nat, now: int)
    requires Guarded(w) && e.Begin? && At(w, e.worker).Idle? && Overstays(w, i, e.now) && At(w, i).key == e.key
    ensures var w' := Step(Step(w, e), Insert(e.worker, now));
            i != e.worker && Inside(At(w', i)) && Inside(At(w', e.worker)) && At(w', i).key == At(w', e.worker).key
  {
    assert Owns(w, i);
  }

  /** After an eviction, when two may share a key: a release leaves every other insider its row exactly when none has that key. */
  lemma ReleaseSparesOthersIff(w: World, e: Event)
    requires e.Release? && At(w, e.worker).Releasing? && forall i: nat :: i != e.worker ==> Owns(w, i)
    ensures (forall i: nat :: Owns(Step(w, e), i))
       <==> (forall i: nat :: i != e.worker && Inside(At(w, i)) ==> At(w, i).key != At(w, e.worker).key)
  {
    var w', k := Step(w, e), At(w, e.worker).key;
    assert w'.locks == w.locks - {k};
    forall i: nat ensures Owns(w', i) <==> (i != e.worker && Inside(At(w, i)) ==> At(w, i).key != k) {
      assert i != e.worker ==> Owns(w, i) && At(w', i) == At(w, i);
    }
  }

  /**
   Past its TTL a holder is not alone: a second worker deletes the expired row and
   enters, the first one's release then deletes the second one's row, and a third
   enters beside the second.
   */
  lemma LateReleaseFreesAnothersLock(k: Key, f: Value -> Value)
    ensures var a := Step(Step(START, Begin(1, k, 30, f, 0)), Insert(1, 0));
            var b := Step(Step(a, Begin(2, k, 30, f, 31)), Insert(2, 31));
            var late := Step(Step(Step(b, Read(1, 32)), Settle(1, true, 32)), Release(1, 32));
            var c := Step(Step(late, Begin(3, k, 30, f, 33)), Insert(3, 33));
            && Inside(At(b, 1)) && Inside(At(b, 2)) && At(b, 1).key == At(b, 2).key
            && Inside(At(c, 2)) && Inside(At(c, 3)) && At(c, 2).key == At(c, 3).key && 33 <= At(c, 2).expires
  {
    var a := Step(Step(START, Begin(1, k, 30, f, 0)), Insert(1, 0));
    assert At(a, 1) == Holding(k, 30, f) && a.locks == map[k := 30];
    var b := Step(Step(a, Begin(2, k, 30, f, 31)), Insert(2, 31));
    assert At(b, 1) == Holding(k, 30, f) && At(b, 2) == Holding(k, 61, f) && b.locks == map[k := 61];
    var late := Step(Step(Step(b, Read(1, 32)), Settle(1, true, 32)), Release(1, 32));
    assert At(late, 2) == Holding(k, 61, f) && At(late, 1) == Idle && late.locks == map[];
  }

  // ---- What one routed write does ----

  /**
   A writer that finishes commits exactly once, on its key, what its update makes of
   the value it read, and its release then reports ok; one that does not commit
   changes neither store nor log and reports not ok.
   */
  lemma SettleOutcome(w: World, i: nat, commits: bool, now: int, later: int)
    requires At(w, i).Writing?
    ensures var p, w' := At(w, i), Step(w, Settle(i, commits, now));
            && (commits ==> w'.store == w.store[p.key := p.update(p.read)] && w'.commits == w.commits + [Commit(i, p.key, p.update)])
            && (!commits ==> w'.store == w.store && w'.commits == w.commits)
            && w'.results == w.results
            && Step(w', Release(i, later)).results == w.results + [(i, Finished(commits))]
            && Step(w', Release(i, later)).locks == w.locks - {p.key} && At(Step(w', Release(i, later)), i).Idle?
  {}

  /** The statements of a routed write that gets its lock, with nothing in between. */
  function Alone(i: nat, k: Key, ttl: int, update: Value -> Value, commits: bool, now: int): seq<Event> {
    [Begin(i, k, ttl, update, now), Insert(i, now), Read(i, now), Settle(i, commits, now), Release(i, now)]
  }

  lemma RunFive(w: World, es: seq<Event>)
    requires |es| == 5
    ensures Run(w, es) == Step(Step(Step(Step(Step(w, es[0]), es[1]), es[2]), es[3]), es[4])
  {
    assert es[1..][1..] == es[2..] && es[2..][1..] == es[3..] && es[3..][1..] == es[4..] && es[4..][1..] == [];
    assert es[1..][0] == es[1] && es[2..][0] == es[2] && es[3..][0] == es[3] && es[4..][0] == es[4];
    assert Run(w, es) == Run(Step(w, es[0]), es[1..]);
    assert Run(Step(w, es[0]), es[1..]) == Run(Step(Step(w, es[0]), es[1]), es[2..]);
    var w3 := Step(Step(Step(w, es[0]), es[1]), es[2]);
    assert Run(w3, es[3..]) == Run(Step(w3, es[3]), es[4..]) == Step(Step(w3, es[3]), es[4]);
  }

  /** An idle worker that finds the key free gets in: it holds the row and has read nothing yet. */
  lemma EntersFreeKey(w: World, i: nat, k: Key, ttl: int, update: Value -> Value, now: int)
    requires At(w, i).Idle? && (k !in w.locks || w.locks[k] < now)
    ensures var w' := Step(Step(w, Begin(i, k, ttl, update, now)), Insert(i, now));
            && At(w', i) == Holding(k, now + ttl, update) && w'.locks == (w.locks - {k})[k := now + ttl]
            && w'.store == w.store && w'.commits == w.commits && w'.results == w.results
            && Step(w', Read(i, now)) == w'.(at := w'.at[i := Writing(k, now + ttl, update, Load(w.store, k))])
  {}

  /** Alone, a routed write commits its update of the current value, reports what it did, and leaves no lock. */
  lemma AloneOutcome(w: World, i: nat, k: Key, ttl: int, update: Value -> Value, commits: bool, now: int)
    requires At(w, i).Idle? && (k !in w.locks || w.locks[k] < now)
    ensures var w' := Run(w, Alone(i, k, ttl, update, commits, now));
            && w'.store == (if commits then w.store[k := update(Load(w.store, k))] else w.store)
            && w'.commits == w.commits + (if commits then [Commit(i, k, update)] else [])
            && w'.results == w.results + [(i, Finished(commits))]
            && w'.locks == w.locks - {k} && At(w', i).Idle?
  {
    var es := Alone(i, k, ttl, update, commits, now);
    RunFive(w, es);
    EntersFreeKey(w, i, k, ttl, update, now);
    var w2 := Step(Step(w, es[0]), es[1]);
    SettleOutcome(Step(w2, es[2]), i, commits, now, now);
  }

  /** On a key whose row has not expired it gets nothing but the word that there is contention. */
  lemma HeldKeyIsContention(w: World, i: nat, k: Key, ttl: int, update: Value -> Value, now: int)
    requires At(w, i).Idle? && k in w.locks && now <= w.locks[k]
    ensures var w' := Step(Step(w, Begin(i, k, ttl, update, now)), Insert(i, now));
            && w'.results == w.results + [(i, Contention)] && At(w', i).Idle?
            && w'.locks == w.locks && w'.store == w.store && w'.commits == w.commits
  {}

  // ---- The lock table and the router as objects ----

  datatype WriteResult = WriteResult(ok: bool, error: string)

  class Router {
    var locks: Locks
    var store: map<Key, Value>

    constructor ()
      ensures locks == map[] && store == map[]
    {
      locks, store := map[], map[];
    }

    method AcquireLock(k: Key, ttl: int, now: int) returns (acquired: bool)
      modifies this`locks
      ensures acquired <==> k !in DeleteExpired(old(locks), k, now)
      ensures locks == if acquired then DeleteExpired(old(locks), k, now)[k := now + ttl] else old(locks)
    {
      locks := DeleteExpired(locks, k, now);
      if k in locks {
        return false;
      }
      locks := locks[k := now + ttl];
      acquired := true;
    }

    method ReleaseLock(k: Key)
      modifies this`locks
      ensures locks == old(locks) - {k}
    {
      locks := locks - {k};
    }

    method CleanupExpiredLocks(now: int) returns (deleted: nat)
      modifies this`locks
      ensures locks == Cleanup(old(locks), now)
      ensures deleted + |locks| == |old(locks)|
    {
      var expired := set k | k in locks && locks[k] < now;
      var kept := Cleanup(locks, now);
      assert locks.Keys == kept.Keys + expired && kept.Keys !! expired;
      deleted := |expired|;
      assert |locks.Keys| == |kept.Keys| + |expired|;
      locks := kept;
    }

    /**
     routed_write run without interference. `raises` says whether the writer raises;
     failures of the event emission and of the version bump are swallowed.
     */
    method RoutedWrite(k: Key, ttl: int, update: Value -> Value, raises: bool, now: int) returns (result: WriteResult)
      modifies this
      ensures result.ok <==> (k !in old(locks) || old(locks)[k] < now) && !raises
      ensures store == if result.ok then old(store)[k := update(Load(old(store), k))] else old(store)
      ensures locks == if k in old(locks) && now <= old(locks)[k] then old(locks) else old(locks) - {k}
      ensures k in old(locks) && now <= old(locks)[k] <==> result == WriteResult(false, "lock_contention")
      ensures k !in old(locks) || old(locks)[k] < now ==>
                var w := World(old(locks), old(store), map[], now, [], []);
                var w' := Run(w, Alone(0, k, ttl, update, !raises, now));
                store == w'.store && locks == w'.locks && w'.results == [(0, Finished(result.ok))]
    {
      ghost var w := World(locks, store, map[], now, [], []);
      var acquired := AcquireLock(k, ttl, now);
      if !acquired {
        return WriteResult(false, "lock_contention");
      }
      if raises {
        result := WriteResult(false, "writer raised");
      } else {
        store := store[k := update(Load(store, k))];
        result := WriteResult(true, "");
      }
      ReleaseLock(k);
      AloneOutcome(w, 0, k, ttl, update, !raises, now);
    }
  }
}
