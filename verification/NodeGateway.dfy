/**
 Runtime nodes and their heartbeats (shared/runtime_gateway.py) over the message
 queue: when a node's claimed rows are taken from it, and when they are not.

 The sweep is one UPDATE that marks the stale nodes, and then one UPDATE per marked
 node that frees its rows. Any number of sweeps, nodes and workers come in between.
 */
module NodeGateway {
  import opened Prelude
  import MessageQueue

  const STALE_THRESHOLD_S: int := 90

  datatype Node = Node(online: bool, lastSeen: int)

  /** `due` holds the nodes that a sweep has marked and not yet released, once per such mark. */
  datatype World = World(nodes: map<string, Node>, rows: MessageQueue.Queue, due: multiset<string>)

  predicate StaleNode(nodes: map<string, Node>, id: string, now: int) {
    id in nodes && nodes[id].online && nodes[id].lastSeen < now - STALE_THRESHOLD_S
  }

  function MarkOffline(nodes: map<string, Node>, now: int): map<string, Node> {
    map id | id in nodes :: if StaleNode(nodes, id, now) then nodes[id].(online := false) else nodes[id]
  }

  function StaleNodes(nodes: map<string, Node>, now: int): set<string> {
    set id | id in nodes && StaleNode(nodes, id, now)
  }

  /** `Abandon` is a sweep that dies, or whose release fails, before it frees the node's rows. */
  datatype Event =
    | Register(node: string, at: int)
    | Heartbeat(node: string, at: int)
    | Deregister(node: string)
    | Mark(at: int)
    | ReleaseOf(node: string)
    | Abandon(node: string)
    | OnQueue(event: MessageQueue.Event)

  function Step(w: World, e: Event): World {
    match e
    case Register(n, at) => w.(nodes := w.nodes[n := Node(true, at)])
    case Heartbeat(n, at) => if n in w.nodes then w.(nodes := w.nodes[n := Node(true, at)]) else w
    case Deregister(n) => if n in w.nodes then w.(nodes := w.nodes[n := w.nodes[n].(online := false)]) else w
    case Mark(at) => w.(nodes := MarkOffline(w.nodes, at), due := w.due + multiset(StaleNodes(w.nodes, at)))
    case ReleaseOf(n) =>
      if n in w.due then w.(rows := MessageQueue.Release(w.rows, n), due := w.due - multiset{n}) else w
    case Abandon(n) => w.(due := w.due - multiset{n})
    case OnQueue(q) => if q.NodeOffline? then w else w.(rows := MessageQueue.Step(w.rows, q))
  }

  function Run(w: World, es: seq<Event>): World
    decreases |es|
  {
    if es == [] then w else Run(Step(w, es[0]), es[1..])
  }

  // ---- Who may lose a row, and when ----

  /** The claimer's own queue calls about row `id`. */
  predicate Concerns(e: Event, id: nat) {
    e.OnQueue? && (e.event.Ack? || e.event.Fail? || e.event.Park?) && e.event.id == id
  }

  predicate Unreported(es: seq<Event>, id: nat) { forall i :: 0 <= i < |es| ==> !Concerns(es[i], id) }

  /** Row `id` is being processed by `node`. */
  predicate Working(w: World, node: string, id: nat) {
    id < |w.rows| && w.rows[id].status == MessageQueue.Processing && w.rows[id].processor == Some(node)
  }

  /** Row `id` stays as `row` through every step of the run. */
  predicate Kept(w: World, es: seq<Event>, id: nat, row: MessageQueue.Row)
    decreases |es|
  {
    id < |w.rows| && w.rows[id] == row && (es == [] || Kept(Step(w, es[0]), es[1..], id, row))
  }

  /** Some step of the run carries out a release of `node` that was due. */
  predicate Pulled(w: World, es: seq<Event>, node: string)
    decreases |es|
  {
    es != [] && ((es[0] == ReleaseOf(node) && node in w.due) || Pulled(Step(w, es[0]), es[1..], node))
  }

  /** Some mark of the run finds the node stale. */
  predicate FoundStale(w: World, es: seq<Event>, node: string)
    decreases |es|
  {
    es != [] && ((es[0].Mark? && StaleNode(w.nodes, node, es[0].at)) || FoundStale(Step(w, es[0]), es[1..], node))
  }

  /** One step takes a row from its claimer exactly when it is a due release of the claimer. */
  lemma TakenIff(w: World, e: Event, node: string, id: nat)
    requires Working(w, node, id) && !Concerns(e, id)
    ensures id < |Step(w, e).rows|
    ensures Step(w, e).rows[id] != w.rows[id] <==> e == ReleaseOf(node) && node in w.due
  {
    if e.OnQueue? && e.event.Take? {
      assert !MessageQueue.Eligible(w.rows[id]);
      assert id !in MessageQueue.Oldest(w.rows, e.event.limit, 0);
    }
  }

  /** Over every run, a claimed row that nobody reports on is lost exactly when a due release of its claimer is carried out. */
  lemma {:induction false} KeptUnlessPulled(w: World, es: seq<Event>, node: string, id: nat)
    requires Working(w, node, id) && Unreported(es, id)
    ensures Kept(w, es, id, w.rows[id]) <==> !Pulled(w, es, node)
    decreases |es|
  {
    if es != [] {
      TakenIff(w, es[0], node, id);
      if !(es[0] == ReleaseOf(node) && node in w.due) {
        KeptUnlessPulled(Step(w, es[0]), es[1..], node, id);
      }
    }
  }

  lemma DueStep(w: World, e: Event, node: string)
    ensures Step(w, e).due[node] == w.due[node] + (if e.Mark? && StaleNode(w.nodes, node, e.at) then 1 else 0)
              - (if (e == ReleaseOf(node) || e == Abandon(node)) && node in w.due then 1 else 0)
  {}

  /** While the node is not found stale again, nothing becomes due that was not. */
  lemma {:induction false} PulledWasDue(w: World, es: seq<Event>, node: string)
    requires !FoundStale(w, es, node) && Pulled(w, es, node)
    ensures node in w.due && ReleaseOf(node) in es
    decreases |es|
  {
    DueStep(w, es[0], node);
    if !(es[0] == ReleaseOf(node) && node in w.due) {
      PulledWasDue(Step(w, es[0]), es[1..], node);
      assert ReleaseOf(node) in es[1..];
    }
  }

  lemma {:induction false} DueIsPulled(w: World, es: seq<Event>, node: string)
    requires node in w.due && ReleaseOf(node) in es && Abandon(node) !in es
    ensures Pulled(w, es, node)
    decreases |es|
  {
    if es[0] != ReleaseOf(node) {
      assert es == [es[0]] + es[1..];
      DueStep(w, es[0], node);
      DueIsPulled(Step(w, es[0]), es[1..], node);
    }
  }

  /**
   A claimer that is not found stale after its claim loses the row exactly when the
   claim fell between an earlier mark of the claimer and the release due to it:
   `w` is the world of the claim, and `due` what was marked before it and not yet
   released. A sweep that dies in between frees nothing.
   */
  lemma LostIffClaimedBetween(w: World, es: seq<Event>, node: string, id: nat)
    requires Working(w, node, id) && Unreported(es, id) && !FoundStale(w, es, node) && Abandon(node) !in es
    ensures !Kept(w, es, id, w.rows[id]) <==> node in w.due && ReleaseOf(node) in es
  {
    KeptUnlessPulled(w, es, node, id);
    if Pulled(w, es, node) {
      PulledWasDue(w, es, node);
    } else if node in w.due && ReleaseOf(node) in es {
      DueIsPulled(w, es, node);
    }
  }

  /** A row claimed while no release of its claimer is due stays its claimer's until reported on, or the claimer is found stale. */
  lemma ClaimIsExclusive(w: World, es: seq<Event>, node: string, id: nat)
    requires Working(w, node, id) && node !in w.due && Unreported(es, id) && !FoundStale(w, es, node)
    ensures Kept(w, es, id, w.rows[id])
  {
    KeptUnlessPulled(w, es, node, id);
    if Pulled(w, es, node) {
      PulledWasDue(w, es, node);
    }
  }

  /**
   The release does not ask whether its node is still offline: a node marked at 100
   comes back at 101 and claims a row, which the release then makes eligible for
   others while the node, online and fresh, is working on it.
   */
  lemma LateReleaseTakesAFreshClaim(r: MessageQueue.Row)
    requires MessageQueue.Eligible(r) && r.attempts >= 0
    ensures var marked := Step(World(map["n" := Node(true, 0)], [r], multiset{}), Mark(100));
            var claimed := Step(Step(marked, Heartbeat("n", 101)), OnQueue(MessageQueue.Take(1, "n")));
            var after := Step(claimed, ReleaseOf("n"));
            && Working(claimed, "n", 0) && !StaleNode(claimed.nodes, "n", 101)
            && after.nodes == map["n" := Node(true, 101)] && |after.rows| == 1 && MessageQueue.Eligible(after.rows[0])
  {
    var w := World(map["n" := Node(true, 0)], [r], multiset{});
    assert StaleNode(w.nodes, "n", 100) && "n" in StaleNodes(w.nodes, 100);
    var back := Step(Step(w, Mark(100)), Heartbeat("n", 101));
    assert back.nodes == map["n" := Node(true, 101)] && "n" in back.due && back.rows == [r];
    assert MessageQueue.Oldest([r], 1, 0) == [0];
  }

  /** From its last sign of life at `last`, no mark comes more than the threshold after the node's latest heartbeat. */
  predicate BeatsInTime(es: seq<Event>, node: string, last: int)
    decreases |es|
  {
    es == [] ||
    match es[0]
    case Register(n, at) => BeatsInTime(es[1..], node, if n == node then at else last)
    case Heartbeat(n, at) => BeatsInTime(es[1..], node, if n == node then at else last)
    case Mark(at) => at <= last + 90 && BeatsInTime(es[1..], node, last)
    case _ => BeatsInTime(es[1..], node, last)
  }

  lemma {:induction false} BeatingNodeIsNotFoundStale(w: World, es: seq<Event>, node: string)
    requires node in w.nodes && BeatsInTime(es, node, w.nodes[node].lastSeen)
    ensures !FoundStale(w, es, node)
    decreases |es|
  {
    if es != [] {
      BeatingNodeIsNotFoundStale(Step(w, es[0]), es[1..], node);
    }
  }

  /** A registered node whose heartbeats are never more than 90 s behind a mark keeps what it claims, through every run. */
  lemma BeatingNodeKeepsItsRows(w: World, at: int, es: seq<Event>, node: string, id: nat)
    requires Working(w, node, id) && node !in w.due && Unreported(es, id) && BeatsInTime(es, node, at)
    ensures Kept(Step(w, Register(node, at)), es, id, w.rows[id])
    ensures node in w.nodes ==> Kept(Step(w, Heartbeat(node, at)), es, id, w.rows[id])
  {
    BeatingNodeIsNotFoundStale(Step(w, Register(node, at)), es, node);
    ClaimIsExclusive(Step(w, Register(node, at)), es, node, id);
  }

  /** A node that has been silent for more than 90 s is found stale by the next mark, if it is online. */
  lemma SilentNodeIsFoundStale(w: World, node: string, at: int)
    requires node in w.nodes && w.nodes[node].online
    ensures FoundStale(w, [Mark(at)], node) <==> at > w.nodes[node].lastSeen + 90
    ensures at > w.nodes[node].lastSeen + 90 ==>
              var w' := Step(w, Mark(at));
              !w'.nodes[node].online && w'.due[node] == w.due[node] + 1
  {}

  // ---- What a sweep achieves ----

  /**
   A mark takes every stale node offline and makes its release due. Whatever comes
   in between, once that release is carried out the node holds no row, what it still
   held is eligible, and no other row has changed.
   */
  lemma SweepReleasesExactlyTheStale(w: World, at: int, es: seq<Event>, n: string, id: nat)
    requires MessageQueue.Bounded(w.rows)
    ensures var marked := Step(w, Mark(at));
            && (forall m :: m in marked.nodes && marked.nodes[m].online ==> !StaleNode(marked.nodes, m, at))
            && (forall m :: marked.due[m] == w.due[m] + if m in StaleNodes(w.nodes, at) then 1 else 0)
            && marked.rows == w.rows
    ensures var before := Run(Step(w, Mark(at)), es);
            var after := Step(before, ReleaseOf(n));
            n in before.due && id < |before.rows| ==>
            && |after.rows| == |before.rows| && !MessageQueue.HeldBy(after.rows[id], n)
            && (if MessageQueue.HeldBy(before.rows[id], n) then MessageQueue.Eligible(after.rows[id])
                else after.rows[id] == before.rows[id])
  {
    RowsStayBounded(Step(w, Mark(at)), es);
  }

  lemma BoundedStep(w: World, e: Event)
    requires MessageQueue.Bounded(w.rows)
    ensures MessageQueue.Bounded(Step(w, e).rows)
  {
    if e.OnQueue? {
      MessageQueue.BoundedStep(w.rows, e.event);
    } else if e.ReleaseOf? {
      MessageQueue.BoundedStep(w.rows, MessageQueue.NodeOffline(e.node));
    }
  }

  /** Over every run attempts stay in bounds, so every due release makes its rows eligible. */
  lemma {:induction false} RowsStayBounded(w: World, es: seq<Event>)
    requires MessageQueue.Bounded(w.rows)
    ensures MessageQueue.Bounded(Run(w, es).rows)
    decreases |es|
  {
    if es != [] {
      BoundedStep(w, es[0]);
      RowsStayBounded(Step(w, es[0]), es[1..]);
    }
  }

  // ---- Rows nobody will free ----

  predicate Gone(w: World, node: string) { node !in w.nodes || !w.nodes[node].online }

  /** The node never comes back. */
  predicate StaysAway(es: seq<Event>, node: string) {
    forall i :: 0 <= i < |es| ==> !((es[i].Register? || es[i].Heartbeat?) && es[i].node == node)
  }

  lemma {:induction false} GoneIsNotFoundStale(w: World, es: seq<Event>, node: string)
    requires Gone(w, node) && StaysAway(es, node)
    ensures !FoundStale(w, es, node)
    decreases |es|
  {
    if es != [] {
      GoneIsNotFoundStale(Step(w, es[0]), es[1..], node);
    }
  }

  /** What a node that is offline for good was processing is freed exactly when a release was already due and is carried out. */
  lemma OfflineNodeFreesIff(w: World, es: seq<Event>, node: string, id: nat)
    requires Working(w, node, id) && Gone(w, node) && StaysAway(es, node) && Unreported(es, id) && Abandon(node) !in es
    ensures !Kept(w, es, id, w.rows[id]) <==> node in w.due && ReleaseOf(node) in es
  {
    GoneIsNotFoundStale(w, es, node);
    LostIffClaimedBetween(w, es, node, id);
  }

  /**
   A clean shutdown strands what the node was processing: deregistering releases
   nothing, and marks look only at online nodes. Only a release already due from an
   earlier mark can still free the row.
   */
  lemma CleanShutdownStrandsRows(w: World, es: seq<Event>, node: string, id: nat)
    requires Working(w, node, id) && StaysAway(es, node) && Unreported(es, id)
    ensures var w' := Step(w, Deregister(node));
            (node !in w.due ==> Kept(w', es, id, w.rows[id]))
            && (Abandon(node) !in es ==> (!Kept(w', es, id, w.rows[id]) <==> node in w.due && ReleaseOf(node) in es))
  {
    var w' := Step(w, Deregister(node));
    GoneIsNotFoundStale(w', es, node);
    if node !in w.due {
      ClaimIsExclusive(w', es, node, id);
    }
    if Abandon(node) !in es {
      OfflineNodeFreesIff(w', es, node, id);
    }
  }

  /** So does a sweep that dies between its mark and the release: no later sweep looks at the node again. */
  lemma AbandonedSweepStrandsRows(w: World, at: int, es: seq<Event>, node: string, id: nat)
    requires Working(w, node, id) && StaleNode(w.nodes, node, at) && node !in w.due
    requires StaysAway(es, node) && Unreported(es, id)
    ensures Kept(Step(Step(w, Mark(at)), Abandon(node)), es, id, w.rows[id])
  {
    var w' := Step(Step(w, Mark(at)), Abandon(node));
    GoneIsNotFoundStale(w', es, node);
    ClaimIsExclusive(w', es, node, id);
  }

  // ---- A sweep that nothing comes between ----

  predicate HeldByAny(r: MessageQueue.Row, ids: set<string>) {
    r.processor.Some? && r.processor.value in ids && MessageQueue.HeldBy(r, r.processor.value)
  }

  /** Releasing the rows of every node in `ids`. */
  function ReleaseAll(q: MessageQueue.Queue, ids: set<string>): MessageQueue.Queue {
    seq(|q|, i requires 0 <= i < |q| => if HeldByAny(q[i], ids) then MessageQueue.Released(q[i]) else q[i])
  }

  function Releases(order: seq<string>): seq<Event> {
    if order == [] then [] else [ReleaseOf(order[0])] + Releases(order[1..])
  }

  lemma RunHead(w: World, e: Event, es: seq<Event>)
    ensures Run(w, [e] + es) == Run(Step(w, e), es)
  {
    assert ([e] + es)[1..] == es;
  }

  lemma ReleaseOneMore(q: MessageQueue.Queue, done: set<string>, n: string)
    ensures MessageQueue.Release(ReleaseAll(q, done), n) == ReleaseAll(q, done + {n})
  {}

  function Visited(order: seq<string>): set<string> { if order == [] then {} else {order[0]} + Visited(order[1..]) }

  lemma {:induction false} VisitedIs(order: seq<string>, n: string)
    ensures n in Visited(order) <==> n in order
  {
    if order != [] {
      VisitedIs(order[1..], n);
    }
  }

  function FreeInTurn(q: MessageQueue.Queue, order: seq<string>): MessageQueue.Queue
    decreases |order|
  {
    if order == [] then q else FreeInTurn(MessageQueue.Release(q, order[0]), order[1..])
  }

  lemma {:induction false} FreeInTurnIs(q: MessageQueue.Queue, done: set<string>, order: seq<string>)
    ensures FreeInTurn(ReleaseAll(q, done), order) == ReleaseAll(q, done + Visited(order))
    decreases |order|
  {
    if order == [] {
      assert done + Visited(order) == done;
    } else {
      ReleaseOneMore(q, done, order[0]);
      FreeInTurnIs(q, done + {order[0]}, order[1..]);
      assert done + {order[0]} + Visited(order[1..]) == done + Visited(order);
    }
  }

  predicate Distinct(order: seq<string>) { forall i, j :: 0 <= i < j < |order| ==> order[i] != order[j] }

  lemma {:induction false} RunReleases(w: World, order: seq<string>)
    requires Distinct(order) && forall n :: n in order ==> n in w.due
    ensures var w' := Run(w, Releases(order));
            && w'.nodes == w.nodes && w'.rows == FreeInTurn(w.rows, order)
            && forall n :: w'.due[n] == w.due[n] - if n in order then 1 else 0
    decreases |order|
  {
    if order != [] {
      RunHead(w, ReleaseOf(order[0]), Releases(order[1..]));
      ReleaseDue(w, order);
      RunReleases(Step(w, ReleaseOf(order[0])), order[1..]);
    }
  }

  lemma ReleaseDue(w: World, order: seq<string>)
    requires order != [] && Distinct(order) && forall n :: n in order ==> n in w.due
    ensures var w' := Step(w, ReleaseOf(order[0]));
            && w'.nodes == w.nodes && w'.rows == MessageQueue.Release(w.rows, order[0])
            && (forall n :: n in order[1..] ==> n in w'.due)
            && (forall n :: w'.due[n] == w.due[n] - if n == order[0] then 1 else 0)
            && order[0] !in order[1..]
  {}

  /** Run without interference, in whatever order it visits the marked nodes, a sweep frees exactly the rows the stale ones hold. */
  lemma SweepAlone(w: World, at: int, order: seq<string>)
    requires Distinct(order) && forall n :: n in order <==> n in StaleNodes(w.nodes, at)
    ensures var w' := Run(w, [Mark(at)] + Releases(order));
            && w'.nodes == MarkOffline(w.nodes, at)
            && w'.rows == ReleaseAll(w.rows, StaleNodes(w.nodes, at))
            && forall n :: w'.due[n] == w.due[n]
  {
    RunHead(w, Mark(at), Releases(order));
    RunReleases(Step(w, Mark(at)), order);
    FreeStale(w.rows, order, StaleNodes(w.nodes, at));
  }

  lemma FreeStale(q: MessageQueue.Queue, order: seq<string>, ids: set<string>)
    requires forall n :: n in order <==> n in ids
    ensures FreeInTurn(q, order) == ReleaseAll(q, ids)
  {
    assert ReleaseAll(q, {}) == q;
    FreeInTurnIs(q, {}, order);
    forall n ensures n in Visited(order) <==> n in ids {
      VisitedIs(order, n);
    }
    assert {} + Visited(order) == ids;
  }

  class Gateway {
    var nodes: map<string, Node>
    const store: MessageQueue.Store

    constructor (store: MessageQueue.Store)
      ensures nodes == map[] && this.store == store
    {
      nodes := map[];
      this.store := store;
    }

    method Touch(node: string, now: int) returns (found: bool)
      modifies this
      ensures nodes == Step(World(old(nodes), [], multiset{}), Heartbeat(node, now)).nodes
      ensures found <==> node in old(nodes)
    {
      found := node in nodes;
      if found {
        nodes := nodes[node := Node(true, now)];
      }
    }

    /** mark_stale_nodes run without interference: the marking UPDATE, then one release per node it returned. */
    method MarkStaleNodes(now: int) returns (stale: set<string>)
      modifies this, store
      ensures stale == StaleNodes(old(nodes), now)
      ensures nodes == MarkOffline(old(nodes), now) && store.rows == ReleaseAll(old(store.rows), stale)
    {
      stale := StaleNodes(nodes, now);
      nodes := MarkOffline(nodes, now);
      var left := stale;
      ghost var done: set<string> := {};
      while left != {}
        invariant done + left == stale && done !! left
        invariant store.rows == ReleaseAll(old(store.rows), done)
        invariant nodes == MarkOffline(old(nodes), now)
        decreases |left|
      {
        var n :| n in left;
        ReleaseOneMore(old(store.rows), done, n);
        store.ReleaseClaimedItems(n);
        left, done := left - {n}, done + {n};
      }
    }
  }
}
