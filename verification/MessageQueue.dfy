/**
 The message queue (shared/queue.py), the release of an offline node's rows
 (shared/runtime_gateway.py) and the arbitrated dequeue over both tables.

 Rows are kept in the order of enqueued_at, and a row's id is its position.
 */
module MessageQueue {
  import opened Prelude
  import LeaseTable

  const MAX_ATTEMPTS: int := 3
  const RELEASE_CAP: int := 2

  datatype Status = Pending | Processing | Done | Failed

  datatype Row = Row(key: string, status: Status, attempts: int, processor: Option<string>)

  type Queue = seq<Row>

  predicate Eligible(r: Row) { r.status == Pending && r.attempts < MAX_ATTEMPTS }

  function Claim(r: Row, processor: string): Row {
    r.(status := Processing, attempts := r.attempts + 1, processor := Some(processor))
  }

  /** INSERT ... ON CONFLICT (idempotency_key) DO NOTHING. */
  function Enqueue(q: Queue, key: string): Queue {
    if exists i :: 0 <= i < |q| && q[i].key == key then q else q + [Row(key, Pending, 0, None)]
  }

  /** The ids of the oldest `limit` eligible rows from position `i` on. */
  function Oldest(q: Queue, limit: nat, i: nat): (ids: seq<nat>)
    requires i <= |q|
    ensures |ids| <= limit
    ensures forall k :: 0 <= k < |ids| ==> i <= ids[k] < |q| && Eligible(q[ids[k]])
    ensures forall k, l :: 0 <= k < l < |ids| ==> ids[k] < ids[l]
    decreases |q| - i
  {
    if limit == 0 || i == |q| then []
    else if Eligible(q[i]) then [i] + Oldest(q, limit - 1, i + 1)
    else Oldest(q, limit, i + 1)
  }

  lemma OldestNext(q: Queue, limit: nat, i: nat, ids: seq<nat>)
    requires i < |q| && limit > 0
    ensures ids + Oldest(q, limit, i) ==
            if Eligible(q[i]) then (ids + [i]) + Oldest(q, limit - 1, i + 1) else ids + Oldest(q, limit, i + 1)
  {
    assert ids + ([i] + Oldest(q, limit - 1, i + 1)) == (ids + [i]) + Oldest(q, limit - 1, i + 1);
  }

  /** The SELECT of dequeue_batch: walks the rows by age until the limit. */
  method SelectOldest(q: Queue, limit: nat) returns (ids: seq<nat>)
    ensures ids == Oldest(q, limit, 0)
  {
    ids := [];
    var i, left := 0, limit;
    ghost var all := Oldest(q, limit, 0);
    ghost var rest := all;
    while i < |q| && left > 0
      invariant 0 <= i <= |q| && rest == Oldest(q, left, i) && ids + rest == all
    {
      OldestNext(q, left, i, ids);
      if Eligible(q[i]) {
        ids, left := ids + [i], left - 1;
      }
      i := i + 1;
      rest := Oldest(q, left, i);
    }
    assert rest == [];
  }

  function ClaimAll(q: Queue, ids: seq<nat>, processor: string): (q': Queue)
    requires forall k :: 0 <= k < |ids| ==> ids[k] < |q|
    ensures |q'| == |q|
  {
    seq(|q|, i requires 0 <= i < |q| => if i in ids then Claim(q[i], processor) else q[i])
  }

  function Dequeue(q: Queue, limit: nat, processor: string): Queue {
    ClaimAll(q, Oldest(q, limit, 0), processor)
  }

  /** ack_message, fail_message and dead_letter: an unconditional change of status. */
  function SetStatus(q: Queue, id: nat, s: Status): Queue {
    if id < |q| then q[id := q[id].(status := s)] else q
  }

  predicate HeldBy(r: Row, node: string) {
    r.processor == Some(node) && (r.status == Processing || r.status == Pending)
  }

  function Released(r: Row): Row {
    r.(status := Pending, processor := None, attempts := Min(r.attempts, RELEASE_CAP))
  }

  function Release(q: Queue, node: string): Queue {
    seq(|q|, i requires 0 <= i < |q| => if HeldBy(q[i], node) then Released(q[i]) else q[i])
  }

  // ---- Every run ----

  datatype Event =
    | Put(key: string)
    | Take(limit: nat, processor: string)
    | Ack(id: nat)
    | Fail(id: nat)
    | Park(id: nat)
    | NodeOffline(node: string)

  function Step(q: Queue, e: Event): Queue {
    match e
    case Put(key) => Enqueue(q, key)
    case Take(limit, processor) => Dequeue(q, limit, processor)
    case Ack(id) => SetStatus(q, id, Done)
    case Fail(id) => SetStatus(q, id, Pending)
    case Park(id) => SetStatus(q, id, Status.Failed)
    case NodeOffline(node) => Release(q, node)
  }

  function Run(q: Queue, es: seq<Event>): Queue
    decreases |es|
  {
    if es == [] then q else Run(Step(q, es[0]), es[1..])
  }

  ghost predicate Bounded(q: Queue) {
    && (forall i :: 0 <= i < |q| ==> 0 <= q[i].attempts <= MAX_ATTEMPTS)
    && (forall i, j :: 0 <= i < j < |q| ==> q[i].key != q[j].key)
  }

  lemma BoundedStep(q: Queue, e: Event)
    requires Bounded(q)
    ensures Bounded(Step(q, e)) && |q| <= |Step(q, e)|
  {
    var q' := Step(q, e);
    forall i | 0 <= i < |q| ensures q'[i].key == q[i].key {}
  }

  /** Attempts stay within 0..MAX_ATTEMPTS and each idempotency key is enqueued once. */
  lemma {:induction false} AttemptsStayBounded(q: Queue, es: seq<Event>)
    requires Bounded(q)
    ensures Bounded(Run(q, es)) && |q| <= |Run(q, es)|
    decreases |es|
  {
    if es != [] {
      BoundedStep(q, es[0]);
      AttemptsStayBounded(Step(q, es[0]), es[1..]);
    }
  }

  /** Whatever its history, a row that a node's release touches is eligible for the next dequeue. */
  lemma ReleasedRowIsEligible(q: Queue, es: seq<Event>, node: string, id: nat)
    requires Bounded(q) && id < |Run(q, es)| && HeldBy(Run(q, es)[id], node)
    ensures Eligible(Release(Run(q, es), node)[id])
  {
    AttemptsStayBounded(q, es);
  }

  /** A new key becomes a pending row at the end, never tried and nobody's; a known one changes nothing. */
  lemma EnqueueRecords(q: Queue, key: string)
    ensures var q' := Enqueue(q, key);
            if exists i :: 0 <= i < |q| && q[i].key == key then q' == q
            else |q'| == |q| + 1 && q'[..|q|] == q && q'[|q|].key == key && q'[|q|].status == Pending
                 && q'[|q|].attempts == 0 && q'[|q|].processor.None? && Eligible(q'[|q|])
  {}

  /** Nobody reports on row `id`. */
  predicate Unreported(es: seq<Event>, id: nat) {
    forall i :: 0 <= i < |es| ==> !((es[i].Ack? || es[i].Fail? || es[i].Park?) && es[i].id == id)
  }

  lemma ClosedRowStays(q: Queue, e: Event, id: nat)
    requires id < |q| && (q[id].status == Done || q[id].status == Failed)
    requires !((e.Ack? || e.Fail? || e.Park?) && e.id == id)
    ensures id < |Step(q, e)| && Step(q, e)[id] == q[id]
  {
    if e.Take? {
      assert !Eligible(q[id]);
      assert id !in Oldest(q, e.limit, 0);
    }
  }

  /**
   An acknowledged row is done and a dead-lettered one failed, otherwise as it was;
   through every run in which nobody reports on it again, enqueues, dequeues and
   releases leave it so, and it is never eligible.
   */
  lemma {:induction false} ClosedRowIsFinal(q: Queue, id: nat, acked: bool, es: seq<Event>)
    requires id < |q| && Unreported(es, id)
    ensures var row := Run(Step(q, if acked then Ack(id) else Park(id)), es);
            && id < |row| && row[id] == q[id].(status := if acked then Done else Failed) && !Eligible(row[id])
  {
    StaysClosed(Step(q, if acked then Ack(id) else Park(id)), es, id);
  }

  lemma {:induction false} StaysClosed(q: Queue, es: seq<Event>, id: nat)
    requires id < |q| && (q[id].status == Done || q[id].status == Failed) && Unreported(es, id)
    ensures id < |Run(q, es)| && Run(q, es)[id] == q[id]
    decreases |es|
  {
    if es != [] {
      ClosedRowStays(q, es[0], id);
      StaysClosed(Step(q, es[0]), es[1..], id);
    }
  }

  /** A failed message is pending again, still counted and still under its processor's name. */
  lemma FailedRowWaits(q: Queue, id: nat)
    requires id < |q|
    ensures var row := Step(q, Fail(id))[id];
            row.status == Pending && row.attempts == q[id].attempts && row.processor == q[id].processor && row.key == q[id].key
    ensures Eligible(Step(q, Fail(id))[id]) <==> q[id].attempts < 3
  {}

  /** A release forgets the processor and at most one attempt: only an exhausted row's count changes, from three to two. */
  lemma ReleaseForgets(q: Queue, node: string, id: nat)
    requires Bounded(q) && id < |q|
    ensures var row := Release(q, node)[id];
            if q[id].processor == Some(node) && (q[id].status == Processing || q[id].status == Pending)
            then row.status == Pending && row.processor.None? && row.key == q[id].key
                 && row.attempts == (if q[id].attempts == 3 then 2 else q[id].attempts)
            else row == q[id]
  {}

  /** A dequeue takes the oldest: it passes over no eligible row, and takes all of them if there is room. */
  lemma {:induction false} OldestFirst(q: Queue, limit: nat, i: nat, id: nat)
    requires i <= id < |q| && Eligible(q[id]) && id !in Oldest(q, limit, i)
    ensures |Oldest(q, limit, i)| == limit && forall k :: k in Oldest(q, limit, i) ==> k < id
    decreases |q| - i
  {
    if limit != 0 {
      if Eligible(q[i]) {
        OldestFirst(q, limit - 1, i + 1, id);
      } else {
        OldestFirst(q, limit, i + 1, id);
      }
    }
  }

  /** What a node claims is in its hands, and comes back eligible when the node goes offline. */
  lemma ClaimThenOffline(q: Queue, limit: nat, node: string, id: nat)
    requires Bounded(q) && id in Oldest(q, limit, 0)
    ensures id < |q| && HeldBy(Dequeue(q, limit, node)[id], node)
    ensures Dequeue(q, limit, node)[id].attempts == q[id].attempts + 1
    ensures Eligible(Release(Dequeue(q, limit, node), node)[id])
  {}

  /** A node-offline step of the run that finds row `id` in the node's hands. */
  predicate ReleasedIn(q: Queue, es: seq<Event>, id: nat)
    decreases |es|
  {
    es != [] &&
    ((es[0].NodeOffline? && id < |q| && HeldBy(q[id], es[0].node)) || ReleasedIn(Step(q, es[0]), es[1..], id))
  }

  /** How often the run's dequeues claim row `id`. */
  function Claims(q: Queue, es: seq<Event>, id: nat): nat
    decreases |es|
  {
    if es == [] then 0
    else (if es[0].Take? && id in Oldest(q, es[0].limit, 0) then 1 else 0) + Claims(Step(q, es[0]), es[1..], id)
  }

  lemma AttemptsStep(q: Queue, e: Event, id: nat)
    requires id < |q| && !(e.NodeOffline? && HeldBy(q[id], e.node))
    ensures id < |Step(q, e)|
    ensures Step(q, e)[id].attempts == q[id].attempts + (if e.Take? && id in Oldest(q, e.limit, 0) then 1 else 0)
  {}

  /** Without a release, the attempts field counts the claims exactly. */
  lemma {:induction false} AttemptsCountClaims(q: Queue, es: seq<Event>, id: nat)
    requires Bounded(q) && id < |q| && !ReleasedIn(q, es, id)
    ensures id < |Run(q, es)| && Run(q, es)[id].attempts == q[id].attempts + Claims(q, es, id) <= MAX_ATTEMPTS
    decreases |es|
  {
    if es != [] {
      BoundedStep(q, es[0]);
      AttemptsStep(q, es[0], id);
      AttemptsCountClaims(Step(q, es[0]), es[1..], id);
    }
  }

  /**
   A row claimed MAX_ATTEMPTS times is never eligible again, whatever acks, fails
   and dequeues follow, unless a node-offline release touches it.
   */
  lemma ExhaustedUntilReleased(q: Queue, es: seq<Event>, id: nat)
    requires Bounded(q) && id < |q| && q[id].attempts == MAX_ATTEMPTS
    requires id < |Run(q, es)| && Eligible(Run(q, es)[id])
    ensures ReleasedIn(q, es, id)
  {
    if !ReleasedIn(q, es, id) {
      AttemptsCountClaims(q, es, id);
    }
  }

  /**
   fail_message promises that an exhausted row is dead-lettered by the next
   dequeue; in fact no dequeue touches it and it stays pending.
   */
  lemma ExhaustedRowIsLeftPending(q: Queue, id: nat, limit: nat, processor: string)
    requires id < |q| && q[id].status == Pending && q[id].attempts >= MAX_ATTEMPTS
    ensures Dequeue(q, limit, processor)[id] == q[id]
  {
    var ids := Oldest(q, limit, 0);
    assert !Eligible(q[id]);
    assert id !in ids;
  }

  /** The pending rows detect_starvation looks at: its attempts bound is the arbiter's, not the queue's. */
  function Watched(q: Queue): set<int> {
    set i | 0 <= i < |q| && q[i].status == Pending && q[i].attempts < LeaseTable.MAX_ATTEMPTS :: i
  }

  /** On a queue within its own bound of three, the bound of five filters nothing: every pending row is watched. */
  lemma EveryPendingRowIsWatched(q: Queue, id: nat)
    requires Bounded(q)
    ensures id in Watched(q) <==> id < |q| && q[id].status == Pending
  {}

  lemma WatchedSnoc(q: Queue, i: nat)
    requires i < |q|
    ensures i !in Watched(q[..i])
    ensures var more := q[i].status == Pending && q[i].attempts < LeaseTable.MAX_ATTEMPTS;
            Watched(q[..i + 1]) == if more then Watched(q[..i]) + {i} else Watched(q[..i])
  {}

  /** No acknowledgement or dead-lettering of row `id`. */
  predicate LeftAlone(es: seq<Event>, id: nat) {
    forall i :: 0 <= i < |es| ==> !((es[i].Ack? || es[i].Park?) && es[i].id == id)
  }

  lemma ExhaustedRowStays(q: Queue, e: Event, id: nat)
    requires Bounded(q) && id < |q| && q[id].status == Pending && !Eligible(q[id])
    requires !((e.Ack? || e.Park?) && e.id == id) && !(e.NodeOffline? && HeldBy(q[id], e.node))
    ensures id < |Step(q, e)| && Step(q, e)[id] == q[id]
  {
    if e.Take? {
      assert id !in Oldest(q, e.limit, 0);
    }
  }

  /**
   So a row no dequeue will take stays as it is through every run in which nobody
   acknowledges, dead-letters or releases it, and whenever no lease on it is in
   force it is reported as starving.
   */
  lemma {:induction false} ExhaustedRowStarvesForever(q: Queue, es: seq<Event>, id: nat, t: LeaseTable.Table, now: int)
    requires Bounded(q) && id < |q| && q[id].status == Pending && !Eligible(q[id])
    requires LeftAlone(es, id) && !ReleasedIn(q, es, id)
    ensures id < |Run(q, es)| && Run(q, es)[id] == q[id]
    ensures id in LeaseTable.Starved(t, Watched(Run(q, es)), now) <==> !LeaseTable.Worked(t, id, now)
    decreases |es|
  {
    if es != [] {
      BoundedStep(q, es[0]);
      ExhaustedRowStays(q, es[0], id);
      ExhaustedRowStarvesForever(Step(q, es[0]), es[1..], id, t, now);
    }
  }

  // ---- The queue object and the arbitrated dequeue ----

  class Store {
    var rows: Queue
    const arbiter: LeaseTable.Arbiter

    constructor (arbiter: LeaseTable.Arbiter)
      ensures rows == [] && this.arbiter == arbiter
    {
      rows := [];
      this.arbiter := arbiter;
    }

    method EnqueueMessage(key: string) returns (id: Option<nat>)
      modifies this
      ensures rows == Enqueue(old(rows), key)
      ensures id == if |rows| == |old(rows)| then None else Some(|old(rows)|)
    {
      var i := 0;
      while i < |rows|
        invariant 0 <= i <= |rows| && rows == old(rows)
        invariant forall k :: 0 <= k < i ==> rows[k].key != key
      {
        if rows[i].key == key {
          return None;
        }
        i := i + 1;
      }
      rows := rows + [Row(key, Pending, 0, None)];
      return Some(|rows| - 1);
    }

    method DequeueBatch(limit: nat, processor: string) returns (ids: seq<nat>)
      modifies this
      ensures ids == Oldest(old(rows), limit, 0)
      ensures rows == Dequeue(old(rows), limit, processor)
    {
      ids := SelectOldest(rows, limit);
      ghost var q := rows;
      for k := 0 to |ids|
        invariant |rows| == |q|
        invariant forall i :: 0 <= i < |q| ==> rows[i] == if i in ids[..k] then Claim(q[i], processor) else q[i]
      {
        assert ids[k] !in ids[..k] && ids[..k + 1] == ids[..k] + [ids[k]];
        rows := rows[ids[k] := Claim(rows[ids[k]], processor)];
      }
      assert ids[..|ids|] == ids;
    }

    method FailMessage(id: nat)
      modifies this
      ensures rows == SetStatus(old(rows), id, Pending)
    {
      if id < |rows| {
        rows := rows[id := rows[id].(status := Pending)];
      }
    }

    method ReleaseClaimedItems(node: string)
      modifies this
      ensures rows == Release(old(rows), node)
    {
      var i := 0;
      var out: Queue := [];
      while i < |rows|
        invariant 0 <= i <= |rows| && |out| == i && rows == old(rows)
        invariant forall k :: 0 <= k < i ==> out[k] == if HeldBy(rows[k], node) then Released(rows[k]) else rows[k]
      {
        out := out + [if HeldBy(rows[i], node) then Released(rows[i]) else rows[i]];
        i := i + 1;
      }
      rows := out;
    }

    /** detect_starvation: counts the watched rows that no lease in force covers. */
    method DetectStarvation(now: int) returns (count: nat)
      ensures count == |LeaseTable.Starved(arbiter.table, Watched(rows), now)|
    {
      count := 0;
      for i := 0 to |rows|
        invariant count == |LeaseTable.Starved(arbiter.table, Watched(rows[..i]), now)|
      {
        WatchedSnoc(rows, i);
        if rows[i].status == Pending && rows[i].attempts < LeaseTable.MAX_ATTEMPTS {
          var worked := arbiter.IsWorked(i, now);
          LeaseTable.StarvedOneMore(arbiter.table, Watched(rows[..i]), i, now);
          if !worked {
            count := count + 1;
          }
        }
      }
      assert rows[..|rows|] == rows;
    }

    /** One candidate: ask the arbiter for its lease, and on a refusal put the row back. */
    method TryCandidate(ghost leased: seq<nat>, ghost refused: seq<nat>, id: nat, worker: string, intent: string, now: int)
      returns (ok: bool)
      modifies this, arbiter
      ensures Round(rows, arbiter.table, if ok then leased + [id] else leased, if ok then refused else refused + [id])
           == Try(Round(old(rows), old(arbiter.table), leased, refused), id, worker, intent, now)
    {
      var lease := arbiter.AcquireLease(LeaseTable.Pair(id, intent), worker, LeaseTable.LEASE_TTL_S, now);
      if lease.None? {
        FailMessage(id);
      }
      ok := lease.Some?;
    }

    /** The loop over claimed candidates: it keeps those it gets a lease for and stops at the limit. */
    method LeaseCandidates(ids: seq<nat>, limit: nat, worker: string, intent: string, now: int)
      returns (leased: seq<nat>, ghost refused: seq<nat>)
      modifies this, arbiter
      ensures Round(rows, arbiter.table, leased, refused)
           == Arbitrate(Round(old(rows), old(arbiter.table), [], []), ids, limit, worker, intent, now)
    {
      leased, refused := [], [];
      var i := 0;
      assert ids[0..] == ids;
      ghost var r := Round(rows, arbiter.table, leased, refused);
      ghost var end := Arbitrate(r, ids, limit, worker, intent, now);
      while i < |ids| && |leased| < limit
        invariant 0 <= i <= |ids|
        invariant r == Round(rows, arbiter.table, leased, refused)
        invariant Arbitrate(r, ids[i..], limit, worker, intent, now) == end
      {
        ArbitrateNext(r, ids, i, limit, worker, intent, now);
        var ok := TryCandidate(leased, refused, ids[i], worker, intent, now);
        r := Try(r, ids[i], worker, intent, now);
        if ok {
          leased := leased + [ids[i]];
        } else {
          refused := refused + [ids[i]];
        }
        i := i + 1;
      }
    }

    /** arbitrated_dequeue: claims up to 2 * limit candidates and leases up to `limit` of them. */
    method ArbitratedDequeue(limit: nat, worker: string, intent: string, now: int)
      returns (leased: seq<nat>, ghost refused: seq<nat>)
      modifies this, arbiter
      ensures Round(rows, arbiter.table, leased, refused)
           == ArbitratedBatch(old(rows), old(arbiter.table), limit, worker, intent, now)
    {
      var ids := DequeueBatch(2 * limit, worker);
      leased, refused := LeaseCandidates(ids, limit, worker, intent, now);
    }
  }

  /** The two tables during an arbitrated dequeue, and the candidates leased and refused so far. */
  datatype Round = Round(rows: Queue, leases: LeaseTable.Table, leased: seq<nat>, refused: seq<nat>)

  function Try(r: Round, id: nat, worker: string, intent: string, now: int): Round {
    var (t, g) := LeaseTable.Acquire(r.leases, LeaseTable.Pair(id, intent), worker, LeaseTable.LEASE_TTL_S, now);
    if g.None? then Round(SetStatus(r.rows, id, Pending), t, r.leased, r.refused + [id])
    else Round(r.rows, t, r.leased + [id], r.refused)
  }

  function Arbitrate(r: Round, ids: seq<nat>, limit: nat, worker: string, intent: string, now: int): Round
    decreases |ids|
  {
    if ids == [] || |r.leased| >= limit then r
    else Arbitrate(Try(r, ids[0], worker, intent, now), ids[1..], limit, worker, intent, now)
  }

  lemma ArbitrateNext(r: Round, ids: seq<nat>, i: nat, limit: nat, worker: string, intent: string, now: int)
    requires i < |ids| && |r.leased| < limit
    ensures Arbitrate(r, ids[i..], limit, worker, intent, now)
         == Arbitrate(Try(r, ids[i], worker, intent, now), ids[i + 1..], limit, worker, intent, now)
  {
    assert ids[i..][1..] == ids[i + 1..];
  }

  function ArbitratedBatch(q: Queue, t: LeaseTable.Table, limit: nat, worker: string, intent: string, now: int): Round {
    Arbitrate(Round(Dequeue(q, 2 * limit, worker), t, [], []), Oldest(q, 2 * limit, 0), limit, worker, intent, now)
  }

  /** `p` is leased to `worker` until the default TTL of two minutes from `now` has passed. */
  predicate HeldLease(t: LeaseTable.Table, p: LeaseTable.Pair, worker: string, now: int) {
    p in t.rows && t.rows[p].worker == worker && t.rows[p].status == LeaseTable.Leased
    && t.rows[p].expiresAt == now + 120
  }

  /** What holds of candidate `id` while the candidates `left` are still to be tried. */
  predicate Settled(r: Round, left: seq<nat>, id: nat, worker: string, intent: string, now: int) {
    id < |r.rows| && r.rows[id].processor == Some(worker) &&
    (if id in r.leased then
       r.rows[id].status == Processing && HeldLease(r.leases, LeaseTable.Pair(id, intent), worker, now)
     else if id in r.refused then r.rows[id].status == Pending
     else id in left && r.rows[id].status == Processing)
  }

  predicate Distinct(ids: seq<nat>) { forall k, l :: 0 <= k < l < |ids| ==> ids[k] != ids[l] }

  /** Lease rows of other messages and of other intents are as they were. */
  ghost predicate OthersKept(t: LeaseTable.Table, t': LeaseTable.Table, ids: seq<nat>, intent: string) {
    forall p: LeaseTable.Pair :: !Asked(p, ids, intent) ==>
      (p in t'.rows <==> p in t.rows) && (p in t.rows ==> t'.rows[p] == t.rows[p])
  }

  predicate Asked(p: LeaseTable.Pair, ids: seq<nat>, intent: string) {
    p.intent == intent && exists k :: 0 <= k < |ids| && ids[k] == p.message
  }

  lemma TryKeepsOthers(r: Round, ids: seq<nat>, k: nat, worker: string, intent: string, now: int)
    requires k < |ids|
    ensures OthersKept(r.leases, Try(r, ids[k], worker, intent, now).leases, ids, intent)
  {
    assert Asked(LeaseTable.Pair(ids[k], intent), ids, intent);
  }

  lemma {:induction false} ArbitrateKeepsOthers(r: Round, ids: seq<nat>, k: nat, limit: nat, worker: string, intent: string, now: int)
    requires k <= |ids|
    ensures OthersKept(r.leases, Arbitrate(r, ids[k..], limit, worker, intent, now).leases, ids, intent)
    decreases |ids| - k
  {
    if k < |ids| && |r.leased| < limit {
      TryKeepsOthers(r, ids, k, worker, intent, now);
      ArbitrateNext(r, ids, k, limit, worker, intent, now);
      ArbitrateKeepsOthers(Try(r, ids[k], worker, intent, now), ids, k + 1, limit, worker, intent, now);
    }
  }

  ghost predicate Sound(r: Round, left: seq<nat>, ids: seq<nat>, limit: nat, worker: string, intent: string, now: int) {
    && |r.leased| <= limit && Distinct(r.leased) && Distinct(left)
    && (forall id :: id in left ==> id !in r.leased && id !in r.refused)
    && (forall id :: id in r.leased + r.refused + left ==> id in ids)
    && (forall id :: id in ids ==> Settled(r, left, id, worker, intent, now))
  }

  lemma TryKeepsSound(r: Round, left: seq<nat>, ids: seq<nat>, limit: nat, worker: string, intent: string, now: int)
    requires Sound(r, left, ids, limit, worker, intent, now) && left != [] && |r.leased| < limit
    ensures Sound(Try(r, left[0], worker, intent, now), left[1..], ids, limit, worker, intent, now)
    ensures forall i :: 0 <= i < |r.rows| && i !in ids ==> Try(r, left[0], worker, intent, now).rows[i] == r.rows[i]
  {
    var id := left[0];
    var r' := Try(r, id, worker, intent, now);
    assert left == [id] + left[1..] && id in r.leased + r.refused + left;
    forall x | x in left[1..] ensures x != id && x in left {}
    forall x | x in ids ensures Settled(r', left[1..], x, worker, intent, now) {
      assert Settled(r, left, x, worker, intent, now);
    }
  }

  lemma {:induction false} ArbitrateKeepsSound(r: Round, left: seq<nat>, ids: seq<nat>, limit: nat, worker: string, intent: string, now: int)
    requires Sound(r, left, ids, limit, worker, intent, now)
    ensures var r' := Arbitrate(r, left, limit, worker, intent, now);
            && |r'.rows| == |r.rows|
            && (forall i :: 0 <= i < |r.rows| && i !in ids ==> r'.rows[i] == r.rows[i])
            && exists rest :: Sound(r', rest, ids, limit, worker, intent, now) && (rest != [] ==> |r'.leased| == limit)
    decreases |left|
  {
    if left != [] && |r.leased| < limit {
      TryKeepsSound(r, left, ids, limit, worker, intent, now);
      ArbitrateKeepsSound(Try(r, left[0], worker, intent, now), left[1..], ids, limit, worker, intent, now);
    }
  }

  /**
   arbitrated_dequeue returns at most `limit` distinct messages, all among the
   oldest eligible ones, claimed by and leased to the caller; it puts every refused
   candidate back to pending, still under the caller's name; candidates it never
   tried, which exist only when the limit was reached, stay claimed; other queue
   rows and other pairs' leases are as before.
   */
  lemma ArbitratedDequeueIsSound(q: Queue, t: LeaseTable.Table, limit: nat, worker: string, intent: string, now: int)
    ensures var ids := Oldest(q, 2 * limit, 0);
            var r := ArbitratedBatch(q, t, limit, worker, intent, now);
            && |r.leased| <= limit && Distinct(r.leased) && |r.rows| == |q| && OthersKept(t, r.leases, ids, intent)
            && (forall id :: id in r.leased + r.refused ==> id in ids)
            && (forall id :: id in ids ==> Settled(r, ids, id, worker, intent, now))
            && (|r.leased| < limit ==> forall id :: id in ids ==> id in r.leased + r.refused)
            && (forall i :: 0 <= i < |q| && i !in ids ==> r.rows[i] == q[i])
  {
    var ids := Oldest(q, 2 * limit, 0);
    var r0 := Round(Dequeue(q, 2 * limit, worker), t, [], []);
    ClaimedIsSound(q, t, limit, worker, intent, now);
    ArbitrateKeepsSound(r0, ids, ids, limit, worker, intent, now);
    assert ids[0..] == ids;
    ArbitrateKeepsOthers(r0, ids, 0, limit, worker, intent, now);
    var r := ArbitratedBatch(q, t, limit, worker, intent, now);
    var rest :| Sound(r, rest, ids, limit, worker, intent, now) && (rest != [] ==> |r.leased| == limit);
    SettledAtTheEnd(r, rest, ids, limit, worker, intent, now);
  }

  /** Right after the claim every candidate is claimed by the caller and none has been tried. */
  lemma ClaimedIsSound(q: Queue, t: LeaseTable.Table, limit: nat, worker: string, intent: string, now: int)
    ensures var ids := Oldest(q, 2 * limit, 0);
            Sound(Round(Dequeue(q, 2 * limit, worker), t, [], []), ids, ids, limit, worker, intent, now)
    ensures forall i :: 0 <= i < |q| && i !in Oldest(q, 2 * limit, 0) ==> Dequeue(q, 2 * limit, worker)[i] == q[i]
  {}

  lemma SettledAtTheEnd(r: Round, rest: seq<nat>, ids: seq<nat>, limit: nat, worker: string, intent: string, now: int)
    requires Sound(r, rest, ids, limit, worker, intent, now) && (rest != [] ==> |r.leased| == limit)
    ensures forall id :: id in r.leased + r.refused ==> id in ids
    ensures forall id :: id in ids ==> Settled(r, ids, id, worker, intent, now)
    ensures |r.leased| < limit ==> forall id :: id in ids ==> id in r.leased + r.refused
  {
    forall id | id in ids ensures Settled(r, ids, id, worker, intent, now) && (rest == [] ==> id in r.leased + r.refused) {
      assert Settled(r, rest, id, worker, intent, now);
    }
    assert forall id :: id in r.leased + r.refused ==> id in r.leased + r.refused + rest;
  }
}
