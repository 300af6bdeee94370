/**
 The poller's reply cooldown and loop detection (modules/bridge_poller) for one
 phone and one poller: how the 60 s cooldown bounds the 120 s loop window.
 */
module ReplyCooldown {
  import opened Prelude
  import opened SlidingWindow

  const REPLY_COOLDOWN: int := 60
  const LOOP_MAX_REPLIES: int := 3
  const LOOP_WINDOW_SECS: int := 120
  const LOOP_PAUSE_SECS: int := 600

  /** The three dictionaries at one phone: _last_reply, _reply_ts_window and _loop_paused_until, with their defaults. */
  datatype Phone = Phone(lastReply: int, window: seq<int>, pausedUntil: int)

  const FRESH: Phone := Phone(0, [], 0)

  predicate CanReply(p: Phone, now: int) { now - p.lastReply >= REPLY_COOLDOWN }

  function Record(p: Phone, now: int): Phone { p.(lastReply := now, window := p.window + [now]) }

  /** _check_loop_detect: the state it leaves and whether autoreply is paused. */
  function LoopCheck(p: Phone, now: int): (Phone, bool) {
    if p.pausedUntil > now then (p, true)
    else
      var recent := Recent(p.window, now, LOOP_WINDOW_SECS);
      if |recent| >= LOOP_MAX_REPLIES then (p.(window := recent, pausedUntil := now + LOOP_PAUSE_SECS), true)
      else (p.(window := recent), false)
  }

  /**
   A document acknowledgement, recorded without asking the cooldown; or an inbound
   message, asked at `at`, whose reply reaches the loop check at `loopAt` and is
   sent at `sentAt` unless a filter or the send stops it.
   */
  datatype Event =
    | Acknowledge(at: int)
    | Message(at: int, loopAt: Option<int>, sentAt: Option<int>)

  datatype Reply = Reply(at: int, ordinary: bool)

  datatype World = World(phone: Phone, clock: int, replies: seq<Reply>)

  const START: World := World(FRESH, 0, [])

  /** The moment the event is over. */
  function End(e: Event): int {
    if e.Message? && e.sentAt.Some? then e.sentAt.value else if e.Message? && e.loopAt.Some? then e.loopAt.value else e.at
  }

  /** The clock runs through the event's own moments in order; nothing is sent without the loop check. */
  predicate InOrder(clock: int, e: Event) {
    clock <= e.at &&
    (e.Message? ==>
       && (e.loopAt.Some? ==> e.at <= e.loopAt.value)
       && (e.sentAt.Some? ==> e.loopAt.Some? && e.loopAt.value <= e.sentAt.value))
  }

  function Step(w: World, e: Event): World {
    match e
    case Acknowledge(at) => World(Record(w.phone, at), at, w.replies + [Reply(at, false)])
    case Message(at, loopAt, sentAt) =>
      if !CanReply(w.phone, at) || loopAt.None? then w.(clock := End(e))
      else
        var (p, paused) := LoopCheck(w.phone, loopAt.value);
        if paused || sentAt.None? then w.(phone := p, clock := End(e))
        else World(Record(p, sentAt.value), sentAt.value, w.replies + [Reply(sentAt.value, true)])
  }

  function Run(w: World, es: seq<Event>): World
    decreases |es|
  {
    if es == [] then w else Run(Step(w, es[0]), es[1..])
  }

  predicate OrderedRun(clock: int, es: seq<Event>)
    decreases |es|
  {
    es == [] || (InOrder(clock, es[0]) && OrderedRun(End(es[0]), es[1..]))
  }

  function Times(rs: seq<Reply>): seq<int> { seq(|rs|, i requires 0 <= i < |rs| => rs[i].at) }

  /** An ordinary reply comes at least the cooldown after every earlier recorded reply. */
  ghost predicate Spaced(rs: seq<Reply>) {
    forall i, j :: 0 <= i < j < |rs| && rs[j].ordinary ==> rs[j].at - rs[i].at >= REPLY_COOLDOWN
  }

  /** From the clock on, the trimmed window answers as the full list of replies would. */
  ghost predicate WindowFaithful(w: World) {
    forall t :: w.clock <= t ==> Recent(w.phone.window, t, LOOP_WINDOW_SECS) == Recent(Times(w.replies), t, LOOP_WINDOW_SECS)
  }

  ghost predicate Consistent(w: World) {
    && Spaced(w.replies) && Sorted(Times(w.replies)) && WindowFaithful(w)
    && (forall i :: 0 <= i < |w.replies| ==> w.replies[i].at <= w.phone.lastReply <= w.clock)
    && w.phone.lastReply == LastReply(w.replies)
  }

  /** When the phone was last replied to; 0, long ago, if it never was. */
  function LastReply(rs: seq<Reply>): int { if rs == [] then 0 else rs[|rs| - 1].at }

  lemma RecordKeepsWindow(w: World, r: Reply)
    requires WindowFaithful(w) && w.clock <= r.at
    ensures WindowFaithful(World(Record(w.phone, r.at), r.at, w.replies + [r]))
  {
    var win, ts := w.phone.window, Times(w.replies);
    assert Times(w.replies + [r]) == ts + [r.at];
    forall t | r.at <= t
      ensures Recent(win + [r.at], t, LOOP_WINDOW_SECS) == Recent(ts + [r.at], t, LOOP_WINDOW_SECS)
    {
      assert (win + [r.at])[..|win|] == win && (ts + [r.at])[..|ts|] == ts;
    }
  }

  lemma SortedSnoc(rs: seq<Reply>, r: Reply)
    requires Sorted(Times(rs)) && forall i :: 0 <= i < |rs| ==> rs[i].at <= r.at
    ensures Sorted(Times(rs + [r]))
  {
    var ts := Times(rs);
    assert Times(rs + [r]) == ts + [r.at];
    assert forall i :: 0 <= i < |ts| ==> ts[i] == rs[i].at;
  }

  lemma LoopCheckKeepsWindow(w: World, now: int)
    requires WindowFaithful(w) && w.clock <= now
    ensures WindowFaithful(w.(phone := LoopCheck(w.phone, now).0, clock := now))
  {
    forall t | now <= t
      ensures Recent(LoopCheck(w.phone, now).0.window, t, LOOP_WINDOW_SECS) == Recent(Times(w.replies), t, LOOP_WINDOW_SECS)
    {
      TrimTwice(w.phone.window, now, t, LOOP_WINDOW_SECS);
    }
  }

  lemma ConsistentStep(w: World, e: Event)
    requires Consistent(w) && InOrder(w.clock, e)
    ensures Consistent(Step(w, e)) && Step(w, e).clock == End(e)
  {
    match e
    case Acknowledge(at) =>
      RecordKeepsWindow(w, Reply(at, false));
      SortedSnoc(w.replies, Reply(at, false));
    case Message(at, loopAt, sentAt) =>
      if CanReply(w.phone, at) && loopAt.Some? {
        LoopCheckKeepsWindow(w, loopAt.value);
        var w1 := w.(phone := LoopCheck(w.phone, loopAt.value).0, clock := loopAt.value);
        if sentAt.Some? {
          RecordKeepsWindow(w1, Reply(sentAt.value, true));
          SortedSnoc(w.replies, Reply(sentAt.value, true));
        }
      }
  }

  /** In every run, ordinary replies are at least the cooldown after any earlier recorded reply. */
  lemma {:induction false} OrdinaryRepliesAreSpaced(w: World, es: seq<Event>)
    requires Consistent(w) && OrderedRun(w.clock, es)
    ensures Consistent(Run(w, es)) && Spaced(Run(w, es).replies)
    decreases |es|
  {
    if es != [] {
      ConsistentStep(w, es[0]);
      OrdinaryRepliesAreSpaced(Step(w, es[0]), es[1..]);
    }
  }

  /** Reply `i` falls in the loop window at `t`. */
  predicate InWindow(rs: seq<Reply>, i: int, t: int) {
    0 <= i < |rs| && t - rs[i].at < LOOP_WINDOW_SECS
  }

  lemma WindowCounts(w: World, t: int)
    requires Consistent(w) && w.clock <= t
    ensures |Recent(w.phone.window, t, LOOP_WINDOW_SECS)| == |set i | 0 <= i < |w.replies| && InWindow(w.replies, i, t)|
  {
    var ts := Times(w.replies);
    RecentCounts(ts, t, LOOP_WINDOW_SECS);
    assert (set i | 0 <= i < |ts| && t - ts[i] < LOOP_WINDOW_SECS) == set i | 0 <= i < |w.replies| && InWindow(w.replies, i, t);
  }

  /**
   Told from the replies alone: a message that the other filters let through and whose
   send succeeds is replied to exactly when the last reply is 60 s back, no pause is
   on, and fewer than three replies fall in the last 120 s; with three or more of them
   a pause of 600 s begins.
   */
  lemma RepliedIff(w: World, at: int, loopAt: int, sentAt: int)
    requires Consistent(w) && w.clock <= at <= loopAt <= sentAt
    ensures var w' := Step(w, Message(at, Some(loopAt), Some(sentAt)));
            var asked := at - LastReply(w.replies) >= 60 && w.phone.pausedUntil <= loopAt;
            var n := |set i | 0 <= i < |w.replies| && InWindow(w.replies, i, loopAt)|;
            && w'.replies == (if asked && n < 3 then w.replies + [Reply(sentAt, true)] else w.replies)
            && w'.phone.pausedUntil == (if asked && n >= 3 then loopAt + 600 else w.phone.pausedUntil)
  {
    WindowCounts(w, loopAt);
  }

  /** A loop check that finds no pause on leaves in the window exactly the replies of the last 120 s. */
  lemma LoopCheckTrims(p: Phone, now: int, t: int)
    requires p.pausedUntil <= now
    ensures t in LoopCheck(p, now).0.window <==> t in p.window && now - t < 120
  {
    RecentKeeps(p.window, now, LOOP_WINDOW_SECS, t);
  }

  /** An acknowledgement is recorded whatever the cooldown and the pause; a message stopped before its send is not. */
  lemma RecordedIff(w: World, e: Event)
    requires e.Acknowledge? || e.loopAt.None? || e.sentAt.None?
    ensures Step(w, e).replies == if e.Acknowledge? then w.replies + [Reply(e.at, false)] else w.replies
  {}

  /**
   A message that passes the cooldown at `at` and then, at `loopAt`, starts a fresh
   pause finds two document acknowledgements in the window, and at most one
   ordinary reply there if there are no acknowledgements.
   */
  lemma FreshPauseNeedsTwoAcknowledgements(w: World, at: int, loopAt: int)
    requires Consistent(w) && w.clock <= at <= loopAt && CanReply(w.phone, at)
    ensures w.phone.pausedUntil <= loopAt && LoopCheck(w.phone, loopAt).1 ==>
              exists i, j :: i < j && InWindow(w.replies, i, loopAt) && InWindow(w.replies, j, loopAt)
                             && !w.replies[i].ordinary && !w.replies[j].ordinary
    ensures (forall i :: 0 <= i < |w.replies| ==> w.replies[i].ordinary) ==>
              |Recent(w.phone.window, loopAt, LOOP_WINDOW_SECS)| <= 1
  {
    var ts := Times(w.replies);
    var n := |w.replies|;
    var recent := Recent(ts, loopAt, LOOP_WINDOW_SECS);
    assert Recent(w.phone.window, loopAt, LOOP_WINDOW_SECS) == recent;
    if |recent| >= 3 {
      LastAreRecent(ts, loopAt, LOOP_WINDOW_SECS, 3);
      assert w.replies[n - 1].at <= w.phone.lastReply && ts[n - 3] == w.replies[n - 3].at;
      assert ts[n - 3] <= ts[n - 2] <= ts[n - 1];
      assert InWindow(w.replies, n - 2, loopAt) && InWindow(w.replies, n - 1, loopAt);
    }
    if |recent| >= 2 {
      LastAreRecent(ts, loopAt, LOOP_WINDOW_SECS, 2);
      assert ts[n - 2] == w.replies[n - 2].at;
      assert w.replies[n - 1].at <= w.phone.lastReply;
    }
  }

  /** With no acknowledgements, as when every fetched message has text, loop detection never pauses a phone. */
  lemma {:induction false} NoAcknowledgementNoPause(w: World, es: seq<Event>)
    requires Consistent(w) && OrderedRun(w.clock, es)
    requires w.phone.pausedUntil <= w.clock && (forall i :: 0 <= i < |w.replies| ==> w.replies[i].ordinary)
    requires forall i :: 0 <= i < |es| ==> es[i].Message?
    ensures Run(w, es).phone.pausedUntil == w.phone.pausedUntil
    decreases |es|
  {
    if es != [] {
      var e := es[0];
      ConsistentStep(w, e);
      if CanReply(w.phone, e.at) && e.loopAt.Some? {
        FreshPauseNeedsTwoAcknowledgements(w, e.at, e.loopAt.value);
      }
      NoAcknowledgementNoPause(Step(w, e), es[1..]);
    }
  }

  /** Three acknowledgements in a burst do pause the phone. */
  lemma AcknowledgementsCanPause()
    ensures var w := Step(Step(Step(START, Acknowledge(1000)), Acknowledge(1001)), Acknowledge(1002));
            CanReply(w.phone, 1062) && LoopCheck(w.phone, 1062) == (w.phone.(pausedUntil := 1662), true)
  {
    var w := Step(Step(Step(START, Acknowledge(1000)), Acknowledge(1001)), Acknowledge(1002));
    var win := w.phone.window;
    assert win == [1000, 1001, 1002];
    assert win[..2] == [1000, 1001] && win[..2][..1] == [1000] && win[..1][..0] == [];
    assert Recent([1000], 1062, 120) == [1000] by { assert [1000][..0] == []; }
    assert Recent([1000, 1001], 1062, 120) == [1000, 1001] by { assert [1000, 1001][..1] == [1000]; }
    assert Recent(win, 1062, 120) == win;
  }

  /** The dictionaries, keyed by phone. */
  class Poller {
    var lastReply: map<string, int>
    var window: map<string, seq<int>>
    var pausedUntil: map<string, int>

    constructor ()
      ensures lastReply == map[] && window == map[] && pausedUntil == map[]
    {
      lastReply, window, pausedUntil := map[], map[], map[];
    }

    function At(phone: string): Phone
      reads this
    {
      Phone(if phone in lastReply then lastReply[phone] else 0, if phone in window then window[phone] else [],
            if phone in pausedUntil then pausedUntil[phone] else 0)
    }

    method RecordReply(phone: string, now: int)
      modifies this
      ensures At(phone) == Record(old(At(phone)), now)
      ensures forall other :: other != phone ==> At(other) == old(At(other))
    {
      var ts := if phone in window then window[phone] else [];
      lastReply, window := lastReply[phone := now], window[phone := ts + [now]];
    }

    method CheckLoopDetect(phone: string, now: int) returns (paused: bool)
      modifies this
      ensures (At(phone), paused) == LoopCheck(old(At(phone)), now)
      ensures forall other :: other != phone ==> At(other) == old(At(other))
    {
      var until := if phone in pausedUntil then pausedUntil[phone] else 0;
      if until > now {
        return true;
      }
      var ts := if phone in window then window[phone] else [];
      var recent: seq<int> := [];
      for i := 0 to |ts|
        invariant recent == Recent(ts[..i], now, LOOP_WINDOW_SECS)
        invariant lastReply == old(lastReply) && window == old(window) && pausedUntil == old(pausedUntil)
      {
        assert ts[..i + 1][..i] == ts[..i];
        if now - ts[i] < LOOP_WINDOW_SECS {
          recent := recent + [ts[i]];
        }
      }
      assert ts[..|ts|] == ts;
      window := window[phone := recent];
      if |recent| >= LOOP_MAX_REPLIES {
        pausedUntil := pausedUntil[phone := now + LOOP_PAUSE_SECS];
        return true;
      }
      return false;
    }
  }
}
