/**
 The lease table behind shared/queue_arbiter.py: one row per (message, intent)
 pair, and the SQL statements that each lease operation issues against it.

 `Decide` is the SELECT and the branching of acquire_lease, `Execute` the single
 write statement that follows. `Acquire` runs the two back to back.
 */
module LeaseTable {
  import opened Prelude

  const LEASE_TTL_S: int := 120
  const MAX_ATTEMPTS: int := 5
  const MAX_BACKOFF_S: int := 3600

  datatype Status = Leased | Processing | Completed | Failed | DeadLetter

  datatype Pair = Pair(message: int, intent: string)

  datatype Lease = Lease(id: nat, worker: string, status: Status, attempts: int,
                         expiresAt: int, retryAfter: Option<int>)

  /** Rows under the unique (message, intent) key; `index[id]` is the key of the row with that lease_id. */
  datatype Table = Table(rows: map<Pair, Lease>, index: seq<Pair>)

  const EMPTY: Table := Table(map[], [])

  /** The primary key and the unique key agree, and rows are never removed. */
  ghost predicate Indexed(t: Table) {
    && (forall p :: p in t.rows ==> t.rows[p].id < |t.index| && t.index[t.rows[p].id] == p)
    && (forall i :: 0 <= i < |t.index| ==> t.index[i] in t.rows && t.rows[t.index[i]].id == i)
  }

  /** What acquire_lease hands to the worker it accepts. */
  datatype Grant = Grant(pair: Pair, leaseId: nat, worker: string, attempts: int, expiresAt: int)

  predicate Terminal(s: Status) { s == Completed || s == DeadLetter }

  predicate Active(l: Lease, now: int) {
    (l.status == Leased || l.status == Processing) && now < l.expiresAt
  }

  /** The write that acquire_lease settles on after its SELECT. */
  datatype Plan = Refuse | Bury | Reclaim(attempts: int) | Create

  function Decide(t: Table, p: Pair, now: int): Plan {
    if p !in t.rows then Create
    else if Terminal(t.rows[p].status) || Active(t.rows[p], now) then Refuse
    else if t.rows[p].attempts + 1 > MAX_ATTEMPTS then Bury
    else Reclaim(t.rows[p].attempts + 1)
  }

  /** The write itself, on the table as it is when the write runs. */
  function Execute(t: Table, p: Pair, plan: Plan, worker: string, ttl: int, now: int): (Table, Option<Grant>) {
    match plan
    case Refuse => (t, None)
    case Bury =>
      (if p in t.rows then t.(rows := t.rows[p := t.rows[p].(status := DeadLetter)]) else t, None)
    case Reclaim(attempts) =>
      if p !in t.rows then (t, None)
      else
        var l := t.rows[p].(worker := worker, status := Leased, attempts := attempts, expiresAt := now + ttl);
        (t.(rows := t.rows[p := l]), Some(Grant(p, l.id, worker, attempts, now + ttl)))
    case Create =>
      if p in t.rows then (t, None)
      else
        var l := Lease(|t.index|, worker, Leased, 1, now + ttl, None);
        (Table(t.rows[p := l], t.index + [p]), Some(Grant(p, l.id, worker, 1, now + ttl)))
  }

  function Acquire(t: Table, p: Pair, worker: string, ttl: int, now: int): (Table, Option<Grant>) {
    Execute(t, p, Decide(t, p, now), worker, ttl, now)
  }

  /** A worker's report on its lease: complete_lease, fail_lease or dead_letter_lease. */
  datatype Report = Done | Failure | GiveUp

  function Pow2(n: int): int
    decreases n
  {
    if n <= 0 then 1 else 2 * Pow2(n - 1)
  }

  function Backoff(attempts: int): int { Min(Pow2(attempts - 1), MAX_BACKOFF_S) }

  lemma {:induction false} Pow2Grows(n: int)
    requires n >= 12
    ensures Pow2(n) >= 4096
  {
    if n == 12 {
      assert Pow2(3) == 8 && Pow2(6) == 64 && Pow2(9) == 512;
    } else {
      Pow2Grows(n - 1);
    }
  }

  /** Left to itself the doubling would be stopped at an hour, from the thirteenth attempt on. */
  lemma BackoffIsCapped(attempts: int)
    requires attempts >= 13
    ensures Backoff(attempts) == 3600
  {
    Pow2Grows(attempts - 1);
  }

  function StatusAfterFailure(attempts: int): Status {
    if attempts >= MAX_ATTEMPTS then DeadLetter else Failed
  }

  /** The row a report leaves; `attempts` is what fail_lease's SELECT returned. */
  function Reported(l: Lease, r: Report, attempts: int, now: int): Lease {
    match r
    case Done => l.(status := Completed)
    case GiveUp => l.(status := DeadLetter)
    case Failure => l.(status := StatusAfterFailure(attempts), retryAfter := Some(now + Backoff(attempts)))
  }

  /** UPDATE ... WHERE lease_id = id. */
  function Accept(t: Table, id: nat, r: Report, now: int): Table {
    if id < |t.index| && t.index[id] in t.rows then
      var p := t.index[id];
      t.(rows := t.rows[p := Reported(t.rows[p], r, t.rows[p].attempts, now)])
    else t
  }

  predicate Stale(l: Lease, staleAfter: int, now: int) {
    (l.status == Leased || l.status == Processing) && l.expiresAt < now - staleAfter
  }

  function Recover(t: Table, staleAfter: int, now: int): Table {
    t.(rows := map p | p in t.rows ::
      if Stale(t.rows[p], staleAfter, now) then t.rows[p].(status := Failed) else t.rows[p])
  }

  /** After a sweep nothing stale is left in force; what was stale is failed and otherwise as it was, and the rest is untouched. */
  lemma RecoverEffect(t: Table, staleAfter: int, now: int, p: Pair)
    requires p in t.rows
    ensures var t' := Recover(t, staleAfter, now);
            && t'.index == t.index && t'.rows.Keys == t.rows.Keys
            && !((t'.rows[p].status == Leased || t'.rows[p].status == Processing) && t'.rows[p].expiresAt + staleAfter < now)
            && (t'.rows[p] == t.rows[p]
                || (t'.rows[p] == t.rows[p].(status := Failed) && t.rows[p].status in {Leased, Processing}
                    && t.rows[p].expiresAt + staleAfter < now))
  {}

  function StaleAmong(t: Table, ps: set<Pair>, staleAfter: int, now: int): set<Pair> {
    set p | p in ps && p in t.rows && Stale(t.rows[p], staleAfter, now)
  }

  /** The sweep restricted to the rows in `ps`. */
  function RecoverAmong(t: Table, ps: set<Pair>, staleAfter: int, now: int): Table {
    t.(rows := map p | p in t.rows ::
      if p in ps && Stale(t.rows[p], staleAfter, now) then t.rows[p].(status := Failed) else t.rows[p])
  }

  lemma RecoverOneMore(t: Table, done: set<Pair>, p: Pair, staleAfter: int, now: int)
    requires p in t.rows && p !in done
    ensures var t' := RecoverAmong(t, done, staleAfter, now);
            && t'.rows[p] == t.rows[p]
            && RecoverAmong(t, done + {p}, staleAfter, now) ==
               (if Stale(t.rows[p], staleAfter, now) then t'.(rows := t'.rows[p := t.rows[p].(status := Failed)]) else t')
            && |StaleAmong(t, done + {p}, staleAfter, now)| ==
               |StaleAmong(t, done, staleAfter, now)| + if Stale(t.rows[p], staleAfter, now) then 1 else 0
  {
    var before := StaleAmong(t, done, staleAfter, now);
    assert StaleAmong(t, done + {p}, staleAfter, now) == if Stale(t.rows[p], staleAfter, now) then before + {p} else before;
  }

  /** detect_starvation: those of the eligible pending messages that no worker holds. */
  function Starved(t: Table, pending: set<int>, now: int): set<int> {
    set m | m in pending && forall p :: p in t.rows && p.message == m ==> !Active(t.rows[p], now)
  }

  /** Some lease on the message is in force. */
  ghost predicate Worked(t: Table, m: int, now: int) {
    exists p :: p in t.rows && p.message == m && Active(t.rows[p], now)
  }

  lemma StarvedOneMore(t: Table, ms: set<int>, m: int, now: int)
    requires m !in ms
    ensures |Starved(t, ms + {m}, now)| == |Starved(t, ms, now)| + if Worked(t, m, now) then 0 else 1
  {
    var before := Starved(t, ms, now);
    assert Starved(t, ms + {m}, now) == if Worked(t, m, now) then before else before + {m};
  }

  /**
   The arbiter object: each method issues the statements of its namesake in
   shared/queue_arbiter.py and leaves the table its specification names.
   */
  class Arbiter {
    var table: Table

    constructor ()
      ensures table == EMPTY
    {
      table := EMPTY;
    }

    method AcquireLease(p: Pair, worker: string, ttl: int, now: int) returns (lease: Option<Grant>)
      modifies this
      ensures (table, lease) == Acquire(old(table), p, worker, ttl, now)
    {
      if p in table.rows {
        var existing := table.rows[p];
        if existing.status == Completed || existing.status == DeadLetter {
          return None;
        }
        if (existing.status == Leased || existing.status == Processing) && existing.expiresAt > now {
          return None;
        }
        var newAttempts := existing.attempts + 1;
        if newAttempts > MAX_ATTEMPTS {
          table := table.(rows := table.rows[p := existing.(status := DeadLetter)]);
          return None;
        }
        table := table.(rows := table.rows[p :=
          Lease(existing.id, worker, Leased, newAttempts, now + ttl, existing.retryAfter)]);
        return Some(Grant(p, existing.id, worker, newAttempts, now + ttl));
      }
      var id := |table.index|;
      table := Table(table.rows[p := Lease(id, worker, Leased, 1, now + ttl, None)], table.index + [p]);
      return Some(Grant(p, id, worker, 1, now + ttl));
    }

    method CompleteLease(id: nat, now: int)
      modifies this
      ensures table == Accept(old(table), id, Done, now)
    {
      if id < |table.index| && table.index[id] in table.rows {
        var p := table.index[id];
        table := table.(rows := table.rows[p := table.rows[p].(status := Completed)]);
      }
    }

    method FailLease(id: nat, now: int) returns (found: bool)
      modifies this
      ensures table == Accept(old(table), id, Failure, now)
      ensures found <==> id < |old(table).index| && old(table).index[id] in old(table).rows
    {
      if id >= |table.index| || table.index[id] !in table.rows {
        return false;
      }
      var p := table.index[id];
      var attempts := table.rows[p].attempts;
      var next := if attempts >= MAX_ATTEMPTS then DeadLetter else Failed;
      table := table.(rows := table.rows[p :=
        table.rows[p].(status := next, retryAfter := Some(now + Backoff(attempts)))]);
      found := true;
    }

    method DeadLetterLease(id: nat, now: int)
      modifies this
      ensures table == Accept(old(table), id, GiveUp, now)
    {
      if id < |table.index| && table.index[id] in table.rows {
        var p := table.index[id];
        table := table.(rows := table.rows[p := table.rows[p].(status := DeadLetter)]);
      }
    }

    method RecoverStaleLeases(staleAfter: int, now: int) returns (count: nat)
      modifies this
      ensures table == Recover(old(table), staleAfter, now)
      ensures count == |StaleAmong(old(table), old(table).rows.Keys, staleAfter, now)|
    {
      ghost var t := table;
      var left := table.rows.Keys;
      ghost var done: set<Pair> := {};
      count := 0;
      assert table == RecoverAmong(t, {}, staleAfter, now);
      while left != {}
        invariant done + left == t.rows.Keys && done !! left
        invariant table == RecoverAmong(t, done, staleAfter, now)
        invariant count == |StaleAmong(t, done, staleAfter, now)|
        decreases |left|
      {
        var p :| p in left;
        RecoverOneMore(t, done, p, staleAfter, now);
        if Stale(table.rows[p], staleAfter, now) {
          table := table.(rows := table.rows[p := table.rows[p].(status := Failed)]);
          count := count + 1;
        }
        left, done := left - {p}, done + {p};
      }
      assert done == t.rows.Keys;
    }

    /** The subquery of detect_starvation. */
    method IsWorked(m: int, now: int) returns (worked: bool)
      ensures worked <==> Worked(table, m, now)
    {
      var left := table.rows.Keys;
      while left != {}
        invariant left <= table.rows.Keys
        invariant forall p :: p in table.rows && p !in left && p.message == m ==> !Active(table.rows[p], now)
        decreases |left|
      {
        var p :| p in left;
        if p.message == m && Active(table.rows[p], now) {
          return true;
        }
        left := left - {p};
      }
      return false;
    }

    /** arbitrated_process: acquire at `now`, run the handler, and report at `later` whether it raised. */
    method ArbitratedProcess(p: Pair, worker: string, ttl: int, now: int, raises: bool, later: int) returns (handled: bool)
      modifies this
      ensures var (t, lease) := Acquire(old(table), p, worker, ttl, now);
              && table == (if lease.None? then t
                           else Accept(t, lease.value.leaseId, if raises then Failure else Done, later))
              && handled == (lease.Some? && !raises)
    {
      var lease := AcquireLease(p, worker, ttl, now);
      if lease.None? {
        return false;
      }
      if raises {
        var found := FailLease(lease.value.leaseId, later);
        return false;
      }
      CompleteLease(lease.value.leaseId, later);
      handled := true;
    }
  }
}
