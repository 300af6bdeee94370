/**
 Failover and retry of outbound messages (shared/bridge_orchestrator.py), one
 loop pass or drain at a time: where every message ends up.
 */
module RetryQueue {
  import opened Prelude

  const RETRY_MAX_ATTEMPTS: int := 5
  const RETRY_BACKOFF_S: seq<int> := [5, 10, 30, 60, 120]

  datatype Bridge = Bridge1 | Bridge2

  datatype Item = Item(msg: nat, bridge: Bridge, attempt: int, nextRetryAt: int, createdAt: int)

  /** Whether a send of message `msg` over a bridge goes through. */
  type Network = (nat, Bridge) -> bool

  /** BRIDGE_PRIORITY without the excluded bridges, preferred one first. */
  function Route(preferred: Bridge, exclude: set<Bridge>): seq<Bridge> {
    var other := if preferred.Bridge1? then Bridge2 else Bridge1;
    (if preferred in exclude then [] else [preferred]) + (if other in exclude then [] else [other])
  }

  /** The bridge that takes the message, if any: the first on the route that is not in outage and does not fail. */
  function FirstToTake(route: seq<Bridge>, outage: set<Bridge>, msg: nat, net: Network): Option<Bridge> {
    if route == [] then None
    else if route[0] !in outage && net(msg, route[0]) then Some(route[0])
    else FirstToTake(route[1..], outage, msg, net)
  }

  function Delay(attempt: int): int {
    if 0 <= attempt - 1 < |RETRY_BACKOFF_S| then RETRY_BACKOFF_S[attempt - 1] else RETRY_BACKOFF_S[|RETRY_BACKOFF_S| - 1]
  }

  /** The fate of one queued item in a pass. */
  datatype Fate = Stay(item: Item) | Delivered | Dropped(drop: Drop)

  /** After how many failed retries, and how long after it was queued, an item was given up. */
  datatype Drop = Drop(attempts: int, waited: int)

  function LoopFate(i: Item, now: int, net: Network): Fate {
    if i.nextRetryAt > now then Stay(i)
    else if i.attempt >= RETRY_MAX_ATTEMPTS then Dropped(Drop(i.attempt, now - i.createdAt))
    else if net(i.msg, i.bridge) then Delivered
    else Stay(i.(attempt := i.attempt + 1, nextRetryAt := now + Delay(i.attempt + 1)))
  }

  function DrainFate(i: Item, bridge: Bridge, now: int, net: Network): Fate {
    if i.bridge != bridge then Stay(i)
    else if net(i.msg, bridge) then Delivered
    else if i.attempt + 1 >= RETRY_MAX_ATTEMPTS then Dropped(Drop(i.attempt + 1, now - i.createdAt))
    else Stay(i.(attempt := i.attempt + 1))
  }

  /** A pass over the whole queue: the retry loop's, or the drain of one bridge that came back. */
  datatype Pass = Loop(now: int) | Drain(bridge: Bridge, now: int)

  function FateOf(i: Item, pass: Pass, net: Network): Fate {
    match pass
    case Loop(now) => LoopFate(i, now, net)
    case Drain(bridge, now) => DrainFate(i, bridge, now, net)
  }

  /** The queue, what has been delivered, and what was dropped after how many failed retries. */
  datatype Outbox = Outbox(queue: seq<Item>, delivered: multiset<nat>, dropped: multiset<nat>, drops: seq<Drop>)

  const EMPTY: Outbox := Outbox([], multiset{}, multiset{}, [])

  function Settle(o: Outbox, msg: nat, f: Fate): Outbox {
    match f
    case Stay(item) => o.(queue := o.queue + [item])
    case Delivered => o.(delivered := o.delivered + multiset{msg})
    case Dropped(d) => o.(dropped := o.dropped + multiset{msg}, drops := o.drops + [d])
  }

  /** Settles `items` in queue order on top of `o`. */
  function Process(o: Outbox, items: seq<Item>, pass: Pass, net: Network): Outbox
    decreases |items|
  {
    if items == [] then o
    else Process(Settle(o, items[0].msg, FateOf(items[0], pass, net)), items[1..], pass, net)
  }

  function RunPass(o: Outbox, pass: Pass, net: Network): Outbox {
    Process(o.(queue := []), o.queue, pass, net)
  }

  function Send(o: Outbox, msg: nat, preferred: Bridge, exclude: set<Bridge>, outage: set<Bridge>, net: Network, now: int): Outbox {
    if FirstToTake(Route(preferred, exclude), outage, msg, net).Some? then o.(delivered := o.delivered + multiset{msg})
    else o.(queue := o.queue + [Item(msg, preferred, 0, now + RETRY_BACKOFF_S[0], now)])
  }

  // ---- Conservation over every run ----

  datatype Event =
    | Submit(preferred: Bridge, exclude: set<Bridge>, outage: set<Bridge>, net: Network, now: int)
    | Retry(pass: Pass, network: Network)

  /** Messages are numbered in the order they are given to send_with_failover. */
  datatype World = World(o: Outbox, sent: nat)

  function Step(w: World, e: Event): World {
    match e
    case Submit(preferred, exclude, outage, net, now) =>
      World(Send(w.o, w.sent, preferred, exclude, outage, net, now), w.sent + 1)
    case Retry(pass, net) => w.(o := RunPass(w.o, pass, net))
  }

  function Run(w: World, es: seq<Event>): World
    decreases |es|
  {
    if es == [] then w else Run(Step(w, es[0]), es[1..])
  }

  function Msgs(q: seq<Item>): seq<nat> { seq(|q|, i requires 0 <= i < |q| => q[i].msg) }

  function Ids(q: seq<Item>): multiset<nat> { multiset(Msgs(q)) }

  /** How often a message appears: queued, delivered or dropped. */
  function Places(o: Outbox): multiset<nat> { Ids(o.queue) + o.delivered + o.dropped }

  predicate Waiting(i: Item) { 0 <= i.attempt <= RETRY_MAX_ATTEMPTS }

  ghost predicate Fair(o: Outbox) {
    && (forall k :: 0 <= k < |o.queue| ==> Waiting(o.queue[k]))
    && (forall k :: 0 <= k < |o.drops| ==> RETRY_MAX_ATTEMPTS <= o.drops[k].attempts <= RETRY_MAX_ATTEMPTS + 1)
    && |o.drops| == |o.dropped|
  }

  lemma IdsSnoc(q: seq<Item>, i: Item)
    ensures Ids(q + [i]) == Ids(q) + multiset{i.msg}
  {
    assert Msgs(q + [i]) == Msgs(q) + [i.msg];
  }

  lemma SettleConserves(o: Outbox, i: Item, pass: Pass, net: Network)
    requires Fair(o) && Waiting(i)
    ensures Fair(Settle(o, i.msg, FateOf(i, pass, net)))
    ensures Places(Settle(o, i.msg, FateOf(i, pass, net))) == Places(o) + multiset{i.msg}
  {
    FateBounds(i, pass, net);
    SettlePlaces(o, i, FateOf(i, pass, net));
  }

  /** A kept item is the same message within the bounds; a dropped one has failed 5 or 6 retries. */
  lemma FateBounds(i: Item, pass: Pass, net: Network)
    requires Waiting(i)
    ensures var f := FateOf(i, pass, net);
            && (f.Stay? ==> f.item.msg == i.msg && Waiting(f.item))
            && (f.Dropped? ==> RETRY_MAX_ATTEMPTS <= f.drop.attempts <= RETRY_MAX_ATTEMPTS + 1)
  {}

  lemma SettlePlaces(o: Outbox, i: Item, f: Fate)
    requires f.Stay? ==> f.item.msg == i.msg
    ensures Places(Settle(o, i.msg, f)) == Places(o) + multiset{i.msg}
  {
    if f.Stay? {
      IdsSnoc(o.queue, f.item);
    }
  }

  lemma IdsHead(q: seq<Item>)
    requires q != []
    ensures Ids(q) == multiset{q[0].msg} + Ids(q[1..])
  {
    assert Msgs(q) == [q[0].msg] + Msgs(q[1..]);
  }

  lemma {:induction false} ProcessConserves(o: Outbox, items: seq<Item>, pass: Pass, net: Network)
    requires Fair(o) && forall k :: 0 <= k < |items| ==> Waiting(items[k])
    ensures Fair(Process(o, items, pass, net))
    ensures Places(Process(o, items, pass, net)) == Places(o) + Ids(items)
    decreases |items|
  {
    if items != [] {
      IdsHead(items);
      SettleConserves(o, items[0], pass, net);
      ProcessConserves(Settle(o, items[0].msg, FateOf(items[0], pass, net)), items[1..], pass, net);
    }
  }

  ghost predicate Conserved(w: World) {
    Fair(w.o) && forall m: nat :: Places(w.o)[m] == if m < w.sent then 1 else 0
  }

  lemma SubmitConserves(w: World, e: Event)
    requires e.Submit?
    ensures Places(Step(w, e).o) == Places(w.o) + multiset{w.sent}
    ensures Fair(w.o) ==> Fair(Step(w, e).o)
  {
    IdsSnoc(w.o.queue, Item(w.sent, e.preferred, 0, e.now + RETRY_BACKOFF_S[0], e.now));
  }

  lemma ConservedStep(w: World, e: Event)
    requires Conserved(w)
    ensures Conserved(Step(w, e))
  {
    if e.Submit? {
      SubmitConserves(w, e);
    } else {
      RetryConserves(w, e);
    }
  }

  lemma RetryConserves(w: World, e: Event)
    requires e.Retry? && Fair(w.o)
    ensures Fair(Step(w, e).o) && Places(Step(w, e).o) == Places(w.o)
  {
    var o := w.o.(queue := []);
    ProcessConserves(o, w.o.queue, e.pass, e.network);
    assert Ids(o.queue) == multiset{};
  }

  /**
   In every run each message given to send_with_failover is in exactly one place:
   delivered once, queued once, or dropped once, after RETRY_MAX_ATTEMPTS or one
   more failed retries; queued items never exceed RETRY_MAX_ATTEMPTS.
   */
  lemma {:induction false} EveryMessageInOnePlace(w: World, es: seq<Event>)
    requires Conserved(w)
    ensures Conserved(Run(w, es))
    decreases |es|
  {
    if es != [] {
      ConservedStep(w, es[0]);
      EveryMessageInOnePlace(Step(w, es[0]), es[1..]);
    }
  }

  /** The same for a fresh orchestrator, in plain terms. */
  lemma DeliveredQueuedOrDropped(es: seq<Event>, m: nat)
    ensures var w := Run(World(EMPTY, 0), es);
            && (m < w.sent ==> Ids(w.o.queue)[m] + w.o.delivered[m] + w.o.dropped[m] == 1)
            && (m >= w.sent ==> Ids(w.o.queue)[m] + w.o.delivered[m] + w.o.dropped[m] == 0)
  {
    assert Conserved(World(EMPTY, 0));
    EveryMessageInOnePlace(World(EMPTY, 0), es);
    var w := Run(World(EMPTY, 0), es);
    assert Places(w.o)[m] == if m < w.sent then 1 else 0;
  }

  /** The waits after the first to the fifth failure, and after any later one. */
  lemma DelayIs(attempt: int)
    requires attempt >= 1
    ensures Delay(attempt) == if attempt <= 5 then [5, 10, 30, 60, 120][attempt - 1] else 120
  {}

  // ---- What a pass does to each message ----

  /** Where an item with fate `f` is found afterwards. */
  predicate Fares(o: Outbox, msg: nat, f: Fate) {
    match f
    case Stay(item) => item in o.queue
    case Delivered => msg in o.delivered
    case Dropped(d) => msg in o.dropped && d in o.drops
  }

  lemma FaresOn(o: Outbox, o': Outbox, msg: nat, f: Fate)
    requires Fares(o, msg, f) && o.queue <= o'.queue && o.delivered <= o'.delivered && o.dropped <= o'.dropped && o.drops <= o'.drops
    ensures Fares(o', msg, f)
  {}

  lemma {:induction false} ProcessGrows(o: Outbox, items: seq<Item>, pass: Pass, net: Network)
    ensures var o' := Process(o, items, pass, net);
            o.queue <= o'.queue && o.delivered <= o'.delivered && o.dropped <= o'.dropped && o.drops <= o'.drops
    decreases |items|
  {
    if items != [] {
      ProcessGrows(Settle(o, items[0].msg, FateOf(items[0], pass, net)), items[1..], pass, net);
    }
  }

  lemma {:induction false} EachFares(o: Outbox, items: seq<Item>, pass: Pass, net: Network, k: nat)
    requires k < |items|
    ensures Fares(Process(o, items, pass, net), items[k].msg, FateOf(items[k], pass, net))
    decreases |items|
  {
    var o1 := Settle(o, items[0].msg, FateOf(items[0], pass, net));
    if k == 0 {
      ProcessGrows(o1, items[1..], pass, net);
      FaresOn(o1, Process(o, items, pass, net), items[0].msg, FateOf(items[0], pass, net));
    } else {
      EachFares(o1, items[1..], pass, net, k - 1);
    }
  }

  /** In a world where each message is in one place, where it is after a pass is told by its fate. */
  lemma OnePlaceAfter(w: World, e: Event, k: nat)
    requires Conserved(w) && e.Retry? && k < |w.o.queue|
    ensures var i, o' := w.o.queue[k], Step(w, e).o;
            var f := FateOf(i, e.pass, e.network);
            && Fares(o', i.msg, f)
            && (o'.delivered[i.msg] == 1 <==> f.Delivered?) && (o'.dropped[i.msg] == 1 <==> f.Dropped?)
            && (Ids(o'.queue)[i.msg] == 1 <==> f.Stay?)
  {
    var i, o' := w.o.queue[k], Step(w, e).o;
    var f := FateOf(i, e.pass, e.network);
    ConservedStep(w, e);
    EachFares(w.o.(queue := []), w.o.queue, e.pass, e.network, k);
    InIds(w.o.queue, k);
    assert Places(w.o)[i.msg] > 0 && Places(o')[i.msg] == 1;
    if f.Stay? {
      assert Waiting(i);
      FateBounds(i, e.pass, e.network);
      var j :| 0 <= j < |o'.queue| && o'.queue[j] == f.item;
      InIds(o'.queue, j);
    }
  }

  lemma InIds(q: seq<Item>, k: nat)
    requires k < |q|
    ensures Ids(q)[q[k].msg] > 0
  {
    assert Msgs(q)[k] == q[k].msg;
  }

  /**
   A loop pass delivers a queued message exactly when it is due, has retries left and
   its bridge takes it. A failed one waits 5, 10, 30, 60 or 120 seconds more, one not
   due is left as it is, and one without retries left is dropped.
   */
  lemma LoopPassOutcome(w: World, now: int, net: Network, k: nat)
    requires Conserved(w) && k < |w.o.queue|
    ensures var i, o' := w.o.queue[k], Step(w, Retry(Loop(now), net)).o;
            && (o'.delivered[i.msg] == 1 <==> i.nextRetryAt <= now && i.attempt < 5 && net(i.msg, i.bridge))
            && (o'.dropped[i.msg] == 1 <==> i.nextRetryAt <= now && i.attempt >= 5)
            && (i.nextRetryAt > now ==> i in o'.queue)
            && (i.nextRetryAt <= now && i.attempt < 5 && !net(i.msg, i.bridge) ==>
                  0 <= i.attempt && Item(i.msg, i.bridge, i.attempt + 1, now + [5, 10, 30, 60, 120][i.attempt], i.createdAt) in o'.queue)
  {
    assert Waiting(w.o.queue[k]);
    OnePlaceAfter(w, Retry(Loop(now), net), k);
  }

  /**
   A drain delivers exactly the messages of its bridge that the bridge takes, due or
   not. A failed one has one attempt more at the same time, or is dropped at the fifth.
   */
  lemma DrainOutcome(w: World, bridge: Bridge, now: int, net: Network, k: nat)
    requires Conserved(w) && k < |w.o.queue|
    ensures var i, o' := w.o.queue[k], Step(w, Retry(Drain(bridge, now), net)).o;
            && (o'.delivered[i.msg] == 1 <==> i.bridge == bridge && net(i.msg, bridge))
            && (o'.dropped[i.msg] == 1 <==> i.bridge == bridge && !net(i.msg, bridge) && i.attempt >= 4)
            && (i.bridge != bridge ==> i in o'.queue)
            && (i.bridge == bridge && !net(i.msg, bridge) && i.attempt < 4 ==>
                  Item(i.msg, bridge, i.attempt + 1, i.nextRetryAt, i.createdAt) in o'.queue)
  {
    OnePlaceAfter(w, Retry(Drain(bridge, now), net), k);
  }

  /** A message is delivered at once exactly when some bridge is usable, and otherwise queued for its preferred one, due in 5 seconds. */
  lemma SubmitOutcome(w: World, preferred: Bridge, exclude: set<Bridge>, outage: set<Bridge>, net: Network, now: int)
    ensures var o' := Step(w, Submit(preferred, exclude, outage, net, now)).o;
            if exists b :: Usable(b, exclude, outage, w.sent, net)
            then o' == w.o.(delivered := w.o.delivered + multiset{w.sent})
            else o' == w.o.(queue := w.o.queue + [Item(w.sent, preferred, 0, now + 5, now)])
  {
    PreferredBridgeFirst(preferred, exclude, outage, w.sent, net);
    if b :| Usable(b, exclude, outage, w.sent, net) {
      assert b == Bridge1 || b == Bridge2;
    }
  }

  // ---- Nothing counts as delivered that no bridge took ----

  function NetworkOf(e: Event): Network { if e.Submit? then e.net else e.network }

  /** Some bridge takes message `m` at the step. */
  predicate Taken(e: Event, m: nat) { NetworkOf(e)(m, Bridge1) || NetworkOf(e)(m, Bridge2) }

  lemma {:induction false} ProcessDelivers(o: Outbox, items: seq<Item>, pass: Pass, net: Network, m: nat)
    requires Process(o, items, pass, net).delivered[m] > o.delivered[m]
    ensures net(m, Bridge1) || net(m, Bridge2)
    decreases |items|
  {
    var o1 := Settle(o, items[0].msg, FateOf(items[0], pass, net));
    if o1.delivered[m] == o.delivered[m] {
      ProcessDelivers(o1, items[1..], pass, net, m);
    } else {
      assert FateOf(items[0], pass, net).Delivered? && items[0].msg == m;
      assert items[0].bridge == Bridge1 || items[0].bridge == Bridge2;
    }
  }

  lemma StepDelivers(w: World, e: Event, m: nat)
    requires Step(w, e).o.delivered[m] > w.o.delivered[m]
    ensures Taken(e, m)
  {
    match e
    case Submit(preferred, exclude, outage, net, now) => PreferredBridgeFirst(preferred, exclude, outage, w.sent, net);
    case Retry(pass, net) => ProcessDelivers(w.o.(queue := []), w.o.queue, pass, net, m);
  }

  /** Over every run, a message delivered in it was taken by a bridge at some step. */
  lemma {:induction false} EveryDeliveryWasTaken(w: World, es: seq<Event>, m: nat)
    requires Run(w, es).o.delivered[m] > w.o.delivered[m]
    ensures exists k :: 0 <= k < |es| && Taken(es[k], m)
    decreases |es|
  {
    if Step(w, es[0]).o.delivered[m] > w.o.delivered[m] {
      StepDelivers(w, es[0], m);
    } else {
      EveryDeliveryWasTaken(Step(w, es[0]), es[1..], m);
      var k :| 0 <= k < |es[1..]| && Taken(es[1..][k], m);
      assert Taken(es[k + 1], m);
    }
  }

  // ---- How long a message is kept ----

  /** The earliest moment, counted from queueing, at which an item with this many failed retries is looked at again. */
  function Patience(attempt: int): int {
    if attempt <= 0 then RETRY_BACKOFF_S[0] else Patience(attempt - 1) + Delay(attempt)
  }

  ghost predicate Patient(o: Outbox) {
    && (forall k :: 0 <= k < |o.queue| ==> PatientItem(o.queue[k]))
    && (forall k :: 0 <= k < |o.drops| ==> o.drops[k].waited >= 230)
  }

  predicate PatientItem(i: Item) { Waiting(i) && i.nextRetryAt >= i.createdAt + Patience(i.attempt) }

  lemma SettlePatiently(o: Outbox, i: Item, now: int, net: Network)
    requires Patient(o) && PatientItem(i)
    ensures Patient(Settle(o, i.msg, LoopFate(i, now, net)))
  {
    assert Patience(1) == 10 && Patience(2) == 20 && Patience(3) == 50;
    assert Patience(4) == Patience(3) + Delay(4) == 110 && Patience(5) == Patience(4) + Delay(5) == 230;
  }

  lemma {:induction false} ProcessPatiently(o: Outbox, items: seq<Item>, now: int, net: Network)
    requires Patient(o) && forall k :: 0 <= k < |items| ==> PatientItem(items[k])
    ensures Patient(Process(o, items, Loop(now), net))
    decreases |items|
  {
    if items != [] {
      SettlePatiently(o, items[0], now, net);
      ProcessPatiently(Settle(o, items[0].msg, LoopFate(items[0], now, net)), items[1..], now, net);
    }
  }

  /** While no bridge is drained, no message is dropped sooner than 230 seconds after it was queued. */
  lemma {:induction false} KeptAtLeast230Seconds(w: World, es: seq<Event>)
    requires Patient(w.o) && forall i :: 0 <= i < |es| && es[i].Retry? ==> es[i].pass.Loop?
    ensures Patient(Run(w, es).o)
    decreases |es|
  {
    if es != [] {
      if es[0].Retry? {
        ProcessPatiently(w.o.(queue := []), w.o.queue, es[0].pass.now, es[0].network);
      }
      KeptAtLeast230Seconds(Step(w, es[0]), es[1..]);
    }
  }

  lemma OneItemPass(o: Outbox, i: Item, pass: Pass, net: Network)
    requires o.queue == [i]
    ensures RunPass(o, pass, net) == Settle(o.(queue := []), i.msg, FateOf(i, pass, net))
  {
    var o' := Settle(o.(queue := []), i.msg, FateOf(i, pass, net));
    assert o.queue[1..] == [] && o.queue[0] == i;
    assert Process(o', o.queue[1..], pass, net) == o';
  }

  /** The outbox with just `i` queued. */
  function Just(i: Item): Outbox { EMPTY.(queue := [i]) }

  /** `k` drains in the same second. */
  function Drained(o: Outbox, bridge: Bridge, now: int, net: Network, k: nat): Outbox {
    if k == 0 then o else RunPass(Drained(o, bridge, now, net, k - 1), Drain(bridge, now), net)
  }

  lemma {:induction false} FailedDrains(i: Item, now: int, net: Network, k: nat)
    requires i.attempt == 0 && k <= 4 && !net(i.msg, i.bridge)
    ensures Drained(Just(i), i.bridge, now, net, k) == Just(i.(attempt := k))
  {
    if k > 0 {
      FailedDrains(i, now, net, k - 1);
      OneItemPass(Just(i.(attempt := k - 1)), i.(attempt := k - 1), Drain(i.bridge, now), net);
    }
  }

  /** Drains count attempts without waiting: five that fail in the second a message is queued drop it at once. */
  lemma DrainsDropAtOnce(i: Item, net: Network)
    requires i.attempt == 0 && !net(i.msg, i.bridge)
    ensures Drained(Just(i), i.bridge, i.createdAt, net, 5).drops == [Drop(5, 0)]
  {
    FailedDrains(i, i.createdAt, net, 4);
    OneItemPass(Just(i.(attempt := 4)), i.(attempt := 4), Drain(i.bridge, i.createdAt), net);
  }

  predicate Usable(b: Bridge, exclude: set<Bridge>, outage: set<Bridge>, msg: nat, net: Network) {
    b !in exclude && b !in outage && net(msg, b)
  }

  /** A direct delivery takes the preferred bridge if it is usable, else the other; a message is queued only if neither is. */
  lemma PreferredBridgeFirst(preferred: Bridge, exclude: set<Bridge>, outage: set<Bridge>, msg: nat, net: Network)
    ensures var other := if preferred.Bridge1? then Bridge2 else Bridge1;
            FirstToTake(Route(preferred, exclude), outage, msg, net) ==
              if Usable(preferred, exclude, outage, msg, net) then Some(preferred)
              else if Usable(other, exclude, outage, msg, net) then Some(other) else None
  {
    var other := if preferred.Bridge1? then Bridge2 else Bridge1;
    assert [preferred, other][1..] == [other] && [other][1..] == [] && [preferred][1..] == [];
    assert FirstToTake([other], outage, msg, net) == if other !in outage && net(msg, other) then Some(other) else None;
    assert Route(preferred, exclude) == (if preferred in exclude && other in exclude then []
      else if preferred in exclude then [other] else if other in exclude then [preferred] else [preferred, other]);
  }

  // ---- The object ----

  class Orchestrator {
    var queue: seq<Item>
    var delivered: multiset<nat>
    var dropped: multiset<nat>
    var drops: seq<Drop>

    function Value(): Outbox
      reads this
    {
      Outbox(queue, delivered, dropped, drops)
    }

    constructor ()
      ensures Value() == EMPTY
    {
      queue, delivered, dropped, drops := [], multiset{}, multiset{}, [];
    }

    method SendWithFailover(msg: nat, preferred: Bridge, exclude: set<Bridge>, outage: set<Bridge>, net: Network, now: int)
      returns (used: Option<Bridge>)
      modifies this
      ensures used == FirstToTake(Route(preferred, exclude), outage, msg, net)
      ensures Value() == Send(old(Value()), msg, preferred, exclude, outage, net, now)
    {
      var ordered := Route(preferred, exclude);
      var i := 0;
      assert ordered[0..] == ordered;
      while i < |ordered|
        invariant 0 <= i <= |ordered| && Value() == old(Value())
        invariant FirstToTake(ordered[i..], outage, msg, net) == FirstToTake(ordered, outage, msg, net)
      {
        assert ordered[i..][1..] == ordered[i + 1..];
        if ordered[i] !in outage && net(msg, ordered[i]) {
          delivered := delivered + multiset{msg};
          return Some(ordered[i]);
        }
        i := i + 1;
      }
      queue := queue + [Item(msg, preferred, 0, now + RETRY_BACKOFF_S[0], now)];
      used := None;
    }

    /** Carries out the fate of the item at `pos`; `next` is where the following item then sits. */
    method SettleAt(pos: nat, f: Fate) returns (next: nat)
      requires pos < |queue|
      modifies this
      ensures next <= |queue| && queue[next..] == old(queue)[pos + 1..]
      ensures Value().(queue := queue[..next])
           == Settle(old(Value()).(queue := old(queue)[..pos]), old(queue)[pos].msg, f)
    {
      var item := queue[pos];
      match f
      case Stay(item') =>
        queue := queue[pos := item'];
        next := pos + 1;
        assert queue[..next] == old(queue)[..pos] + [item'];
      case Delivered =>
        delivered := delivered + multiset{item.msg};
        queue := queue[..pos] + queue[pos + 1..];
        next := pos;
      case Dropped(d) =>
        dropped, drops := dropped + multiset{item.msg}, drops + [d];
        queue := queue[..pos] + queue[pos + 1..];
        next := pos;
    }

    /** One pass of _retry_loop, or one _drain_retry_for_bridge; `pos` is where the current item sits in the queue. */
    method RetryPass(pass: Pass, net: Network)
      modifies this
      ensures Value() == RunPass(old(Value()), pass, net)
    {
      var snapshot := queue;
      var pos := 0;
      ghost var end := RunPass(Value(), pass, net);
      for i := 0 to |snapshot|
        invariant 0 <= pos <= |queue| && queue[pos..] == snapshot[i..]
        invariant Process(Value().(queue := queue[..pos]), snapshot[i..], pass, net) == end
      {
        assert queue[pos] == queue[pos..][0] == snapshot[i];
        assert snapshot[i..][1..] == snapshot[i + 1..] == queue[pos + 1..];
        pos := SettleAt(pos, FateOf(snapshot[i], pass, net));
      }
      assert queue[..pos] == queue;
    }
  }
}
