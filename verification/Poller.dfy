/**
 The bridge poller's cursor and dedup set (modules/bridge_poller): which stored
 rows are processed, and how often.

 Timestamps are whole seconds, as the SQLite comparison takes them.
 */
module Poller {
  import opened Prelude

  const BATCH: int := 50

  /** The columns of a stored inbound row that decide what the poller makes of it. */
  datatype Row = Row(id: nat, sec: int, content: string, processedText: string, mediaType: string, hasFile: bool)

  /** The text a fetched row is given: content, else recognised text, else a media placeholder; None drops the row. */
  function TextOf(r: Row): Option<string> {
    var text := Strip(if r.content != "" then r.content else r.processedText);
    if text != "" then Some(text)
    else if Strip(r.mediaType) != "" && r.hasFile then Some("[media:" + Strip(r.mediaType) + "]")
    else None
  }

  /** The text taken: content before recognised text, without blanks at the ends, and only if that is blank a media placeholder. */
  lemma TextTaken(r: Row)
    ensures r.content != "" && Strip(r.content) != "" ==> TextOf(r) == Some(Strip(r.content))
    ensures r.content == "" && Strip(r.processedText) != "" ==> TextOf(r) == Some(Strip(r.processedText))
    ensures Strip(if r.content != "" then r.content else r.processedText) == "" ==>
              TextOf(r) == if r.hasFile && Strip(r.mediaType) != "" then Some("[media:" + Strip(r.mediaType) + "]") else None
  {}

  predicate Carries(r: Row) { TextOf(r).Some? }

  /** What the SELECT of _fetch_new_messages may return: the positions of a sorted, bounded, earliest-first batch. */
  ghost predicate IsBatch(store: seq<Row>, cursor: int, batch: seq<nat>) {
    && |batch| <= BATCH
    && (forall k :: 0 <= k < |batch| ==> batch[k] < |store| && cursor < store[batch[k]].sec)
    && (forall k, l :: 0 <= k < l < |batch| ==> batch[k] != batch[l] && store[batch[k]].sec <= store[batch[l]].sec)
    && (forall i: nat :: i < |store| && cursor < store[i].sec && i !in batch ==>
          |batch| == BATCH && store[i].sec >= store[batch[|batch| - 1]].sec)
  }

  /** The rows of a batch that carry a message, in order. */
  function Messages(store: seq<Row>, batch: seq<nat>): seq<Row>
    requires forall k :: 0 <= k < |batch| ==> batch[k] < |store|
  {
    if batch == [] then []
    else
      var r := store[batch[|batch| - 1]];
      Messages(store, batch[..|batch| - 1]) + (if Carries(r) then [r] else [])
  }

  function Latest(msgs: seq<Row>, since: int): int {
    if msgs == [] then since
    else
      var before := Latest(msgs[..|msgs| - 1], since);
      if msgs[|msgs| - 1].sec > before then msgs[|msgs| - 1].sec else before
  }

  /** The append-only store, the cursor, the processed ids, and every id handed on to routing. */
  datatype World = World(store: seq<Row>, cursor: int, processed: set<nat>, routed: multiset<nat>)

  function Handle(w: World, r: Row): World {
    if r.id in w.processed then w else w.(processed := w.processed + {r.id}, routed := w.routed + multiset{r.id})
  }

  function HandleAll(w: World, msgs: seq<Row>): World {
    if msgs == [] then w else Handle(HandleAll(w, msgs[..|msgs| - 1]), msgs[|msgs| - 1])
  }

  datatype Event =
    | Arrive(row: Row)
    | Poll(batch: seq<nat>)
    | CutShort(batch: seq<nat>, handled: nat)

  /** A complete poll moves the cursor; one cut short by an exception leaves it, and the rows are fetched again. */
  function Step(w: World, e: Event): World
    requires Possible(w, e)
  {
    match e
    case Arrive(r) => w.(store := w.store + [r])
    case Poll(batch) =>
      var msgs := Messages(w.store, batch);
      HandleAll(w, msgs).(cursor := Latest(msgs, w.cursor))
    case CutShort(batch, handled) =>
      var msgs := Messages(w.store, batch);
      HandleAll(w, msgs[..Min(handled, |msgs|)])
  }

  /** What an iteration over `n` messages comes to when the one at `failAt` raises, before or after being marked. */
  function Polled(batch: seq<nat>, n: nat, failAt: Option<nat>, marked: bool): Event {
    if failAt.Some? && failAt.value < n then CutShort(batch, if marked then failAt.value + 1 else failAt.value) else Poll(batch)
  }

  ghost predicate Possible(w: World, e: Event) {
    match e
    case Arrive(_) => true
    case Poll(batch) => IsBatch(w.store, w.cursor, batch)
    case CutShort(batch, _) => IsBatch(w.store, w.cursor, batch)
  }

  /** Row `i` falls in the second the cursor is about to move to, but outside the batch. */
  predicate SplitOff(w: World, batch: seq<nat>, i: nat)
    requires forall k :: 0 <= k < |batch| ==> batch[k] < |w.store|
  {
    i < |w.store| && i !in batch && Carries(w.store[i])
    && w.cursor < w.store[i].sec == Latest(Messages(w.store, batch), w.cursor)
  }

  predicate HasId(msgs: seq<Row>, id: nat) { exists k :: 0 <= k < |msgs| && msgs[k].id == id }

  /** The batch splits no second, or only off rows whose id an earlier poll, or the batch itself, has. */
  ghost predicate Whole(w: World, batch: seq<nat>)
    requires IsBatch(w.store, w.cursor, batch)
  {
    forall i: nat :: SplitOff(w, batch, i) ==>
      w.store[i].id in w.processed || HasId(Messages(w.store, batch), w.store[i].id)
  }

  /**
   Rows arrive later than the cursor, unless they carry nothing or their id has been
   processed, and no batch splits a second.
   */
  ghost predicate Orderly(w: World, e: Event)
    requires Possible(w, e)
  {
    && (e.Arrive? ==> w.cursor < e.row.sec || !Carries(e.row) || e.row.id in w.processed)
    && (e.Poll? ==> Whole(w, e.batch))
  }

  /** The store answers every poll with a batch that its query may return. */
  ghost predicate PossibleRun(w: World, es: seq<Event>)
    decreases |es|
  {
    es == [] || (Possible(w, es[0]) && PossibleRun(Step(w, es[0]), es[1..]))
  }

  function Run(w: World, es: seq<Event>): World
    requires PossibleRun(w, es)
    decreases |es|
  {
    if es == [] then w else Run(Step(w, es[0]), es[1..])
  }

  ghost predicate OrderlyRun(w: World, es: seq<Event>)
    requires PossibleRun(w, es)
    decreases |es|
  {
    es == [] || (Orderly(w, es[0]) && OrderlyRun(Step(w, es[0]), es[1..]))
  }

  /** Every row that carries a message and is not later than the cursor has been processed. */
  ghost predicate Covered(w: World) {
    forall i :: 0 <= i < |w.store| && w.store[i].sec <= w.cursor && Carries(w.store[i]) ==> w.store[i].id in w.processed
  }

  /** Each id was routed exactly once if it is processed, and never otherwise. */
  ghost predicate RoutedOnce(w: World) {
    forall id: nat :: w.routed[id] == if id in w.processed then 1 else 0
  }

  lemma {:induction false} HandleAllEffect(w: World, msgs: seq<Row>)
    requires RoutedOnce(w)
    ensures var w' := HandleAll(w, msgs);
            && RoutedOnce(w') && w'.store == w.store && w'.cursor == w.cursor && w.processed <= w'.processed
            && (forall id :: id in w'.processed <==> id in w.processed || HasId(msgs, id))
  {
    if msgs != [] {
      var front := msgs[..|msgs| - 1];
      HandleAllEffect(w, front);
      forall id ensures HasId(msgs, id) <==> HasId(front, id) || id == msgs[|msgs| - 1].id {
        if HasId(front, id) {
          var k :| 0 <= k < |front| && front[k].id == id;
          assert msgs[k].id == id;
        }
      }
    }
  }

  lemma {:induction false} MessagesHold(store: seq<Row>, batch: seq<nat>, k: nat)
    requires forall k :: 0 <= k < |batch| ==> batch[k] < |store|
    requires k < |batch| && Carries(store[batch[k]])
    ensures store[batch[k]] in Messages(store, batch)
  {
    if k < |batch| - 1 {
      MessagesHold(store, batch[..|batch| - 1], k);
    }
  }

  lemma {:induction false} LatestBound(store: seq<Row>, batch: seq<nat>, since: int)
    requires IsBatch(store, since, batch)
    ensures var next := Latest(Messages(store, batch), since);
            since <= next && (batch == [] ==> next == since) && (batch != [] ==> next <= store[batch[|batch| - 1]].sec)
  {
    if batch != [] {
      LatestUpTo(store, batch, since, store[batch[|batch| - 1]].sec);
    }
  }

  lemma {:induction false} LatestUpTo(store: seq<Row>, batch: seq<nat>, since: int, bound: int)
    requires forall k :: 0 <= k < |batch| ==> batch[k] < |store| && store[batch[k]].sec <= bound
    requires since <= bound
    ensures since <= Latest(Messages(store, batch), since) <= bound
  {
    if batch != [] {
      var front := batch[..|batch| - 1];
      LatestUpTo(store, front, since, bound);
      var msgs := Messages(store, front);
      var r := store[batch[|batch| - 1]];
      assert (msgs + [r])[..|msgs|] == msgs && msgs + [] == msgs;
    }
  }

  lemma PollCovers(w: World, e: Event)
    requires Covered(w) && RoutedOnce(w) && e.Poll? && Possible(w, e)
    ensures RoutedOnce(Step(w, e))
    ensures Covered(Step(w, e)) <==> Whole(w, e.batch)
  {
    var msgs := Messages(w.store, e.batch);
    var w' := Step(w, e);
    HandleAllEffect(w, msgs);
    LatestBound(w.store, e.batch, w.cursor);
    if Whole(w, e.batch) {
      forall i: nat | i < |w.store| && w.store[i].sec <= w'.cursor && Carries(w.store[i])
        ensures w.store[i].id in w'.processed
      {
        if i in e.batch {
          var k :| 0 <= k < |e.batch| && e.batch[k] == i;
          MessagesHold(w.store, e.batch, k);
        } else if w.cursor < w.store[i].sec {
          assert w.store[i].sec == w'.cursor;
        }
      }
    }
  }

  /** Every possible step routes no id twice and forgets none; it keeps coverage exactly when it is orderly. */
  lemma CoveredStep(w: World, e: Event)
    requires RoutedOnce(w) && Possible(w, e)
    ensures RoutedOnce(Step(w, e)) && w.processed <= Step(w, e).processed
    ensures Covered(w) ==> (Covered(Step(w, e)) <==> Orderly(w, e))
  {
    match e
    case Arrive(r) =>
      if Covered(w) && !Orderly(w, e) {
        assert Step(w, e).store[|w.store|] == r;
      }
    case Poll(batch) =>
      HandleAllEffect(w, Messages(w.store, batch));
      if Covered(w) {
        PollCovers(w, e);
      }
    case CutShort(batch, handled) =>
      var msgs := Messages(w.store, batch);
      HandleAllEffect(w, msgs[..Min(handled, |msgs|)]);
  }

  /** In every possible run, orderly or not, each id is routed at most once, and what is processed stays so. */
  lemma {:induction false} NothingTwice(w: World, es: seq<Event>)
    requires RoutedOnce(w) && PossibleRun(w, es)
    ensures RoutedOnce(Run(w, es)) && w.processed <= Run(w, es).processed
    decreases |es|
  {
    if es != [] {
      CoveredStep(w, es[0]);
      NothingTwice(Step(w, es[0]), es[1..]);
    }
  }

  ghost predicate CoveredThroughout(w: World, es: seq<Event>)
    requires PossibleRun(w, es)
    decreases |es|
  {
    Covered(w) && (es == [] || CoveredThroughout(Step(w, es[0]), es[1..]))
  }

  /** Every row up to the cursor is processed at every moment of a run exactly when each of its steps is orderly. */
  lemma {:induction false} NothingLostIff(w: World, es: seq<Event>)
    requires Covered(w) && RoutedOnce(w) && PossibleRun(w, es)
    ensures CoveredThroughout(w, es) <==> OrderlyRun(w, es)
    decreases |es|
  {
    if es != [] {
      CoveredStep(w, es[0]);
      if Orderly(w, es[0]) {
        NothingLostIff(Step(w, es[0]), es[1..]);
      }
    }
  }

  /**
   If rows arrive with seconds later than the cursor and no batch splits a second,
   then in every run, however often batches are cut short and refetched, every row
   with text or a media reference at or before the cursor is processed, and each
   id is routed at most once.
   */
  lemma {:induction false} NothingLostNothingTwice(w: World, es: seq<Event>)
    requires Covered(w) && RoutedOnce(w) && PossibleRun(w, es) && OrderlyRun(w, es)
    ensures Covered(Run(w, es)) && RoutedOnce(Run(w, es))
    decreases |es|
  {
    if es != [] {
      CoveredStep(w, es[0]);
      NothingLostNothingTwice(Step(w, es[0]), es[1..]);
    }
  }

  /**
   A message whose handling raises after it was marked is not tried again: over
   every run that follows it stays processed, and the attempt that raised is its only one.
   */
  lemma RaisedMessageIsNotRetried(w: World, batch: seq<nat>, k: nat, es: seq<Event>)
    requires RoutedOnce(w) && IsBatch(w.store, w.cursor, batch) && k < |Messages(w.store, batch)|
    requires PossibleRun(Step(w, Polled(batch, |Messages(w.store, batch)|, Some(k), true)), es)
    ensures var id := Messages(w.store, batch)[k].id;
            var w' := Run(Step(w, Polled(batch, |Messages(w.store, batch)|, Some(k), true)), es);
            id in w'.processed && w'.routed[id] == 1
  {
    var msgs := Messages(w.store, batch);
    var e := Polled(batch, |msgs|, Some(k), true);
    HandleAllEffect(w, msgs[..k + 1]);
    assert msgs[..k + 1][k].id == msgs[k].id && HasId(msgs[..k + 1], msgs[k].id);
    CoveredStep(w, e);
    NothingTwice(Step(w, e), es);
  }

  /** An iteration in which nothing raises moves the cursor to the latest second of its messages, never back. */
  lemma QuietPollMovesCursor(w: World, batch: seq<nat>, failAt: Option<nat>, marked: bool)
    requires IsBatch(w.store, w.cursor, batch) && (failAt.None? || failAt.value >= |Messages(w.store, batch)|)
    ensures var msgs := Messages(w.store, batch);
            var w' := Step(w, Polled(batch, |msgs|, failAt, marked));
            w.cursor <= w'.cursor && (forall k :: 0 <= k < |msgs| ==> msgs[k].sec <= w'.cursor)
            && (w'.cursor == w.cursor || exists k :: 0 <= k < |msgs| && msgs[k].sec == w'.cursor)
  {
    var msgs := Messages(w.store, batch);
    LatestBound(w.store, batch, w.cursor);
    LatestIs(msgs, w.cursor);
    forall k | 0 <= k < |msgs| ensures msgs[k].sec <= Latest(msgs, w.cursor) {
      LatestCovers(msgs, w.cursor, msgs[k]);
    }
  }

  lemma {:induction false} LatestIs(msgs: seq<Row>, since: int)
    ensures Latest(msgs, since) == since || exists k :: 0 <= k < |msgs| && msgs[k].sec == Latest(msgs, since)
  {
    if msgs != [] {
      var front := msgs[..|msgs| - 1];
      LatestIs(front, since);
      if exists k :: 0 <= k < |front| && front[k].sec == Latest(front, since) {
        var k :| 0 <= k < |front| && front[k].sec == Latest(front, since);
        assert msgs[k].sec == Latest(front, since);
      }
    }
  }

  // ---- There is always a batch ----

  /** The rows a poll may take that `batch` does not have. */
  ghost function Left(store: seq<Row>, cursor: int, batch: seq<nat>): set<nat> {
    set i: nat | i < |store| && cursor < store[i].sec && i !in batch
  }

  /** A batch so far: sorted, and everything left is no earlier than its last row. */
  ghost predicate Earliest(store: seq<Row>, cursor: int, batch: seq<nat>) {
    && (forall k :: 0 <= k < |batch| ==> batch[k] < |store| && cursor < store[batch[k]].sec)
    && (forall k, l :: 0 <= k < l < |batch| ==> batch[k] != batch[l] && store[batch[k]].sec <= store[batch[l]].sec)
    && (forall i :: i in Left(store, cursor, batch) && batch != [] ==> store[batch[|batch| - 1]].sec <= store[i].sec)
  }

  lemma {:induction false} EarliestOf(store: seq<Row>, ids: set<nat>) returns (m: nat)
    requires ids != {} && forall i :: i in ids ==> i < |store|
    ensures m in ids && forall i :: i in ids ==> store[m].sec <= store[i].sec
    decreases |ids|
  {
    m :| m in ids;
    if ids != {m} {
      var rest := ids - {m};
      assert rest != {};
      var n := EarliestOf(store, rest);
      forall i | i in ids ensures store[if store[n].sec < store[m].sec then n else m].sec <= store[i].sec {
        assert i == m || i in rest;
      }
      m := if store[n].sec < store[m].sec then n else m;
    }
  }

  lemma ExtendEarliest(store: seq<Row>, cursor: int, batch: seq<nat>, m: nat)
    requires Earliest(store, cursor, batch) && m in Left(store, cursor, batch)
    requires forall i :: i in Left(store, cursor, batch) ==> store[m].sec <= store[i].sec
    ensures Earliest(store, cursor, batch + [m])
  {
    var b := batch + [m];
    forall k, l | 0 <= k < l < |b| ensures b[k] != b[l] && store[b[k]].sec <= store[b[l]].sec {
      assert b[k] == batch[k];
      if l == |batch| {
        assert store[batch[|batch| - 1]].sec <= store[m].sec;
      }
    }
    forall i | i in Left(store, cursor, b) ensures store[b[|b| - 1]].sec <= store[i].sec {
      assert i in Left(store, cursor, batch);
    }
  }

  lemma {:induction false} BatchUpTo(store: seq<Row>, cursor: int, n: nat) returns (batch: seq<nat>)
    ensures Earliest(store, cursor, batch) && |batch| <= n && (|batch| < n ==> Left(store, cursor, batch) == {})
  {
    if n == 0 {
      batch := [];
    } else {
      batch := BatchUpTo(store, cursor, n - 1);
      if Left(store, cursor, batch) != {} {
        var m := EarliestOf(store, Left(store, cursor, batch));
        ExtendEarliest(store, cursor, batch, m);
        batch := batch + [m];
      }
    }
  }

  /** Whatever the store and the cursor, the query has an answer: every world can be polled. */
  lemma EveryWorldCanBePolled(w: World)
    ensures exists batch :: Possible(w, Poll(batch))
  {
    var batch := BatchUpTo(w.store, w.cursor, 50);
    forall i: nat | i < |w.store| && w.cursor < w.store[i].sec && i !in batch
      ensures |batch| == 50 && w.store[i].sec >= w.store[batch[|batch| - 1]].sec
    {
      assert i in Left(w.store, w.cursor, batch);
    }
    assert Possible(w, Poll(batch));
  }

  // ---- What can go wrong without the assumptions ----

  /** A batch of fewer than BATCH rows never splits a second. */
  lemma ShortBatchIsWhole(w: World, batch: seq<nat>)
    requires IsBatch(w.store, w.cursor, batch) && |batch| < BATCH
    ensures Whole(w, batch)
  {}

  /** Row `i` is behind the cursor, its id is unprocessed, and no other row has that id. */
  ghost predicate Missed(w: World, i: nat) {
    && i < |w.store| && w.store[i].sec <= w.cursor && w.store[i].id !in w.processed
    && forall j :: 0 <= j < |w.store| && w.store[j].id == w.store[i].id ==> j == i
  }

  lemma {:induction false} MessagesAreStored(store: seq<Row>, batch: seq<nat>, r: Row)
    requires forall k :: 0 <= k < |batch| ==> batch[k] < |store|
    requires r in Messages(store, batch)
    ensures exists k :: 0 <= k < |batch| && store[batch[k]] == r
  {
    var front := batch[..|batch| - 1];
    if r in Messages(store, front) {
      MessagesAreStored(store, front, r);
      var k :| 0 <= k < |front| && store[front[k]] == r;
      assert store[batch[k]] == r;
    } else {
      assert store[batch[|batch| - 1]] == r;
    }
  }

  lemma MissedBatch(w: World, i: nat, batch: seq<nat>, n: nat)
    requires Missed(w, i) && RoutedOnce(w) && IsBatch(w.store, w.cursor, batch) && n <= |Messages(w.store, batch)|
    ensures w.store[i].id !in HandleAll(w, Messages(w.store, batch)[..n]).processed
  {
    var msgs := Messages(w.store, batch);
    HandleAllEffect(w, msgs[..n]);
    forall k | 0 <= k < n ensures msgs[k].id != w.store[i].id {
      MessagesAreStored(w.store, batch, msgs[k]);
      var b :| 0 <= b < |batch| && w.store[batch[b]] == msgs[k];
      assert batch[b] != i;
    }
  }

  lemma MissedStep(w: World, i: nat, e: Event)
    requires Missed(w, i) && RoutedOnce(w) && Possible(w, e) && (e.Arrive? ==> e.row.id != w.store[i].id)
    ensures Missed(Step(w, e), i)
  {
    match e
    case Arrive(_) =>
    case Poll(batch) =>
      var msgs := Messages(w.store, batch);
      assert msgs[..|msgs|] == msgs;
      MissedBatch(w, i, batch, |msgs|);
      HandleAllEffect(w, msgs);
      LatestBound(w.store, batch, w.cursor);
    case CutShort(batch, handled) =>
      var n := Min(handled, |Messages(w.store, batch)|);
      MissedBatch(w, i, batch, n);
      HandleAllEffect(w, Messages(w.store, batch)[..n]);
  }

  /** A row the cursor has passed unprocessed stays so in every later run that brings no other row with its id. */
  lemma {:induction false} MissedForGood(w: World, i: nat, es: seq<Event>)
    requires Missed(w, i) && RoutedOnce(w) && PossibleRun(w, es)
    requires forall k :: 0 <= k < |es| && es[k].Arrive? ==> es[k].row.id != w.store[i].id
    ensures Missed(Run(w, es), i) && Run(w, es).store[i] == w.store[i] && Run(w, es).routed[w.store[i].id] == 0
    decreases |es|
  {
    if es != [] {
      CoveredStep(w, es[0]);
      MissedStep(w, i, es[0]);
      SameRow(w, i, es[0]);
      MissedForGood(Step(w, es[0]), i, es[1..]);
    }
  }

  lemma SameRow(w: World, i: nat, e: Event)
    requires i < |w.store| && RoutedOnce(w) && Possible(w, e)
    ensures i < |Step(w, e).store| && Step(w, e).store[i] == w.store[i]
  {
    if e.Poll? {
      HandleAllEffect(w, Messages(w.store, e.batch));
    } else if e.CutShort? {
      HandleAllEffect(w, Messages(w.store, e.batch)[..Min(e.handled, |Messages(w.store, e.batch)|)]);
    }
  }

  /**
   The query's LIMIT can split a second: of 51 rows of one second, with distinct ids
   and something to say, a poll takes 50 and moves the cursor past the last one,
   which no later run processes.
   */
  lemma SplitSecondLosesARow(store: seq<Row>, sec: int, cursor: int)
    requires |store| == 51 && cursor < sec
    requires forall i :: 0 <= i < 51 ==> store[i].sec == sec && Carries(store[i])
    requires forall i, j :: 0 <= i < j < 51 ==> store[i].id != store[j].id
    ensures var w := World(store, cursor, {}, multiset{});
            var batch := seq(50, i => i);
            Possible(w, Poll(batch)) && !Covered(Step(w, Poll(batch))) && Missed(Step(w, Poll(batch)), 50)
  {
    var w := World(store, cursor, {}, multiset{});
    var batch: seq<nat> := seq(50, i => i);
    var msgs := Messages(store, batch);
    HandleAllEffect(w, msgs);
    MessagesHold(store, batch, 0);
    LatestCovers(msgs, cursor, store[0]);
    LatestUpTo(store, batch, cursor, sec);
    NotAmongFirstFifty(store, batch);
    assert store[50].id !in Step(w, Poll(batch)).processed;
  }

  lemma NotAmongFirstFifty(store: seq<Row>, batch: seq<nat>)
    requires |store| == 51 && |batch| == 50 && forall k :: 0 <= k < 50 ==> batch[k] == k
    requires forall i, j :: 0 <= i < j < 51 ==> store[i].id != store[j].id
    ensures !HasId(Messages(store, batch), store[50].id)
  {
    var msgs := Messages(store, batch);
    forall k | 0 <= k < |msgs| ensures msgs[k].id != store[50].id {
      MessagesAreStored(store, batch, msgs[k]);
      var b :| 0 <= b < |batch| && store[batch[b]] == msgs[k];
    }
  }

  /** A row the cursor has reached, whether it arrived late or was split off its second, is never fetched. */
  lemma PassedRowIsNeverFetched(store: seq<Row>, cursor: int, i: nat, batch: seq<nat>)
    requires i < |store| && store[i].sec <= cursor && IsBatch(store, cursor, batch)
    ensures i !in batch
  {}

  lemma {:induction false} NoMessages(store: seq<Row>, batch: seq<nat>)
    requires forall k :: 0 <= k < |batch| ==> batch[k] < |store| && !Carries(store[batch[k]])
    ensures Messages(store, batch) == []
  {
    if batch != [] {
      NoMessages(store, batch[..|batch| - 1]);
    }
  }

  lemma {:induction false} LatestCovers(msgs: seq<Row>, since: int, r: Row)
    requires r in msgs
    ensures r.sec <= Latest(msgs, since)
  {
    var front := msgs[..|msgs| - 1];
    if r != msgs[|msgs| - 1] {
      assert r in front;
      LatestCovers(front, since, r);
    }
  }

  /**
   A poll moves the cursor exactly when its batch holds a row that carries a message:
   behind fifty blank rows the poller makes no progress.
   */
  lemma BlankBatchStalls(store: seq<Row>, batch: seq<nat>, since: int)
    requires forall k :: 0 <= k < |batch| ==> batch[k] < |store| && since < store[batch[k]].sec
    ensures Latest(Messages(store, batch), since) == since <==> forall k :: 0 <= k < |batch| ==> !Carries(store[batch[k]])
  {
    if k :| 0 <= k < |batch| && Carries(store[batch[k]]) {
      MessagesHold(store, batch, k);
      LatestCovers(Messages(store, batch), since, store[batch[k]]);
    } else {
      NoMessages(store, batch);
    }
  }

  // ---- The media branches ----

  /** Every message handed to the loop has text, so the branches guarded by `not text` cannot be taken. */
  lemma {:induction false} TextIsNeverEmpty(store: seq<Row>, batch: seq<nat>, k: nat)
    requires forall k :: 0 <= k < |batch| ==> batch[k] < |store|
    requires k < |Messages(store, batch)|
    ensures Carries(Messages(store, batch)[k]) && TextOf(Messages(store, batch)[k]).value != ""
  {
    var front := Messages(store, batch[..|batch| - 1]);
    if k < |front| {
      TextIsNeverEmpty(store, batch[..|batch| - 1], k);
    }
  }

  // ---- The loop over a fetched batch, as an object ----

  class Loop {
    var cursor: int
    var processed: set<nat>
    var routed: multiset<nat>

    constructor (cursor: int)
      ensures this.cursor == cursor && processed == {} && routed == multiset{}
    {
      this.cursor, processed, routed := cursor, {}, multiset{};
    }

    ghost function Value(store: seq<Row>): World
      reads this
    {
      World(store, cursor, processed, routed)
    }

    /** _fetch_new_messages after its query: drop the rows without text and find the new cursor. */
    method Fetch(store: seq<Row>, batch: seq<nat>) returns (msgs: seq<Row>, maxTs: int)
      requires forall k :: 0 <= k < |batch| ==> batch[k] < |store|
      ensures msgs == Messages(store, batch) && maxTs == Latest(msgs, cursor)
    {
      msgs, maxTs := [], cursor;
      for k := 0 to |batch|
        invariant msgs == Messages(store, batch[..k]) && maxTs == Latest(msgs, cursor)
      {
        assert batch[..k + 1][..k] == batch[..k];
        var row := store[batch[k]];
        if Carries(row) {
          if row.sec > maxTs {
            maxTs := row.sec;
          }
          assert (msgs + [row])[..|msgs|] == msgs;
          msgs := msgs + [row];
        }
      }
      assert batch[..|batch|] == batch;
    }

    /** The loop over the messages, up to position `n`: at the end of the batch, or where handling raises. */
    method HandleMessages(store: seq<Row>, msgs: seq<Row>, n: nat)
      requires n <= |msgs|
      modifies this`processed, this`routed
      ensures Value(store) == HandleAll(old(Value(store)), msgs[..n])
    {
      for k := 0 to n
        invariant Value(store) == HandleAll(old(Value(store)), msgs[..k])
      {
        assert msgs[..k + 1][..k] == msgs[..k];
        if msgs[k].id !in processed {
          processed := processed + {msgs[k].id};
          routed := routed + multiset{msgs[k].id};
        }
      }
    }

    /**
     One iteration of _poll_bridge; `failAt` is the position at which handling raises,
     if it does. A message is marked before it is routed: `marked` says whether the
     exception came after that, or out of the dedup statements themselves.
     */
    method PollOnce(store: seq<Row>, batch: seq<nat>, failAt: Option<nat>, marked: bool)
      requires IsBatch(store, cursor, batch)
      modifies this
      ensures Value(store) == Step(old(Value(store)), Polled(batch, |Messages(store, batch)|, failAt, marked))
    {
      var msgs, newCursor := Fetch(store, batch);
      LatestBound(store, batch, cursor);
      if failAt.Some? && failAt.value < |msgs| {
        HandleMessages(store, msgs, if marked then failAt.value + 1 else failAt.value);
        return;
      }
      HandleMessages(store, msgs, |msgs|);
      assert msgs[..|msgs|] == msgs;
      if newCursor > cursor {
        cursor := newCursor;
      }
    }
  }
}
