/**
 The employee verification session (modules/employee_verification) that gates
 payment drafts behind a selfie, a slip and a payment method.

 Sessions are rows of the draft table, so the admin commands of
 modules/admin_commands reach them by id: EDIT, APPROVE and REJECT are steps here.
 */
module Verification {
  import opened Prelude

  /** The row's status: a step of the session, or what an admin command has made of it. */
  datatype StepName = Selfie | Slip | Method | Verified | Rejected | Edited | Approved | Sent

  datatype Kind = AdvanceRequest | ReleaseSlip

  /** An inbound message as the session sees it: whether it is an image, and whether it names a payment method. */
  datatype Message = Message(image: bool, paysBy: bool)

  /** A session row, and the messages the employee sent that it took. */
  datatype Session = Session(phone: string, kind: Kind, employee: Option<nat>, step: StepName, heard: seq<Message>)

  datatype World = World(sessions: seq<Session>, drafts: seq<nat>)

  /** get_verification_session's test: any status but these two, also one an admin command has set. */
  predicate Open(s: Session) { s.step != Verified && s.step != Rejected }

  /** The session still waits for something. */
  predicate Waiting(s: Session) { s.step == Selfie || s.step == Slip || s.step == Method }

  /**
   A request that starts a session, any other message, or an admin command on the
   row. `closed` is false when the cleanup UPDATE failed.
   */
  datatype Event =
    | StartAdvance(phone: string, employee: Option<nat>, closed: bool)
    | StartSlip(phone: string, employee: Option<nat>, message: Message, closed: bool)
    | Say(phone: string, message: Message, draftOk: bool)
    | Edit(id: nat)
    | Approve(id: nat, sent: bool)
    | Reject(id: nat)

  /** The newest open session of a phone among the first `n`. */
  function Current(ss: seq<Session>, phone: string, n: nat): (r: Option<nat>)
    requires n <= |ss|
    ensures r.Some? ==> r.value < n && ss[r.value].phone == phone && Open(ss[r.value])
    ensures forall i :: (if r.Some? then r.value else -1) < i < n ==> !(ss[i].phone == phone && Open(ss[i]))
  {
    if n == 0 then None
    else if ss[n - 1].phone == phone && Open(ss[n - 1]) then Some(n - 1) else Current(ss, phone, n - 1)
  }

  function CloseAll(ss: seq<Session>, phone: string): seq<Session> {
    seq(|ss|, i requires 0 <= i < |ss| => if ss[i].phone == phone && Open(ss[i]) then ss[i].(step := Rejected) else ss[i])
  }

  function Create(ss: seq<Session>, s: Session, closed: bool): seq<Session> {
    (if closed then CloseAll(ss, s.phone) else ss) + [s]
  }

  function Advanced(s: Session, m: Message): Session {
    var heard := s.heard + [m];
    match s.step
    case Selfie => s.(heard := heard, step := if m.image then Slip else Selfie)
    case Slip => s.(heard := heard, step := if m.image then Method else Slip)
    case Method => s.(heard := heard, step := if m.paysBy then Verified else Method)
    case _ => s
  }

  function Step(w: World, e: Event): World {
    match e
    case StartAdvance(phone, employee, closed) =>
      w.(sessions := Create(w.sessions, Session(phone, AdvanceRequest, employee, Selfie, []), closed))
    case StartSlip(phone, employee, m, closed) =>
      w.(sessions := Create(w.sessions, Session(phone, ReleaseSlip, employee, if m.image then Method else Slip, [m]), closed))
    case Say(phone, m, draftOk) =>
      var at := Current(w.sessions, phone, |w.sessions|);
      if at.None? then w
      else
        var s := Advanced(w.sessions[at.value], m);
        World(w.sessions[at.value := s],
              if s.step == Verified && s.employee.Some? && draftOk then w.drafts + [at.value] else w.drafts)
    case Edit(id) => w.(sessions := SetStep(w.sessions, id, true, Edited))
    case Approve(id, sent) =>
      w.(sessions := SetStep(w.sessions, id, id < |w.sessions| && w.sessions[id].step == Edited, if sent then Sent else Approved))
    case Reject(id) => w.(sessions := SetStep(w.sessions, id, id < |w.sessions| && w.sessions[id].step != Sent, Rejected))
  }

  function SetStep(ss: seq<Session>, id: nat, allowed: bool, step: StepName): seq<Session> {
    if id < |ss| && allowed then ss[id := ss[id].(step := step)] else ss
  }

  function Run(w: World, es: seq<Event>): World
    decreases |es|
  {
    if es == [] then w else Run(Step(w, es[0]), es[1..])
  }

  // ---- Drafts: one per session, and only after the images and the method ----

  function Images(ms: seq<Message>): nat {
    if ms == [] then 0 else Images(ms[..|ms| - 1]) + (if ms[|ms| - 1].image then 1 else 0)
  }

  function Needed(k: Kind): nat { if k == AdvanceRequest then 2 else 1 }

  /** What a session must have heard to wait where it waits. */
  predicate Earned(s: Session) {
    match s.step
    case Selfie => s.kind == AdvanceRequest
    case Slip => Images(s.heard) + 1 >= Needed(s.kind)
    case Method => Images(s.heard) >= Needed(s.kind)
    case Verified => Complete(s)
    case _ => true
  }

  /** The last message names a payment method, and enough images came before it. */
  predicate Complete(s: Session) {
    s.heard != [] && s.heard[|s.heard| - 1].paysBy && Images(s.heard[..|s.heard| - 1]) >= Needed(s.kind)
  }

  /** Session `id` can no longer draft, and has heard all it must. */
  predicate Spent(ss: seq<Session>, id: nat) { id < |ss| && !Waiting(ss[id]) && Complete(ss[id]) }

  ghost predicate Gated(w: World) {
    && (forall i :: 0 <= i < |w.sessions| ==> Earned(w.sessions[i]))
    && (forall k :: 0 <= k < |w.drafts| ==> Spent(w.sessions, w.drafts[k]))
    && (forall k, l :: 0 <= k < l < |w.drafts| ==> w.drafts[k] != w.drafts[l])
  }

  lemma EarnedAdvanced(s: Session, m: Message)
    requires Earned(s)
    ensures Earned(Advanced(s, m))
    ensures !Waiting(s) ==> Advanced(s, m) == s
  {
    assert (s.heard + [m])[..|s.heard|] == s.heard;
  }

  lemma GatedSay(w: World, e: Event)
    requires Gated(w) && e.Say?
    ensures Gated(Step(w, e))
  {
    var at := Current(w.sessions, e.phone, |w.sessions|);
    if at.Some? {
      var s, w' := w.sessions[at.value], Step(w, e);
      EarnedAdvanced(s, e.message);
      if Waiting(s) {
        forall k | 0 <= k < |w.drafts| ensures w.drafts[k] != at.value && Spent(w'.sessions, w.drafts[k]) {
          assert Spent(w.sessions, w.drafts[k]);
        }
        assert w'.drafts == w.drafts || (w'.drafts == w.drafts + [at.value] && Spent(w'.sessions, at.value));
      } else {
        assert w'.sessions == w.sessions && w'.drafts == w.drafts;
      }
    }
  }

  lemma GatedStart(w: World, s: Session, closed: bool)
    requires Gated(w) && Earned(s)
    ensures Gated(w.(sessions := Create(w.sessions, s, closed)))
  {
    var ss := Create(w.sessions, s, closed);
    forall k | 0 <= k < |w.drafts| ensures Spent(ss, w.drafts[k]) {
      assert Spent(w.sessions, w.drafts[k]);
    }
    assert forall i :: 0 <= i < |w.sessions| ==> ss[i] == w.sessions[i] || ss[i] == w.sessions[i].(step := Rejected);
  }

  lemma GatedAdmin(w: World, id: nat, allowed: bool, step: StepName)
    requires Gated(w) && (step == Edited || step == Approved || step == Sent || step == Rejected)
    ensures Gated(w.(sessions := SetStep(w.sessions, id, allowed, step)))
  {
    var ss := SetStep(w.sessions, id, allowed, step);
    forall k | 0 <= k < |w.drafts| ensures Spent(ss, w.drafts[k]) {
      assert Spent(w.sessions, w.drafts[k]);
    }
  }

  lemma GatedStep(w: World, e: Event)
    requires Gated(w)
    ensures Gated(Step(w, e))
  {
    match e
    case Say(_, _, _) => GatedSay(w, e);
    case StartSlip(phone, employee, m, closed) =>
      assert [m][..0] == [] && Images([m]) == if m.image then 1 else 0;
      GatedStart(w, Session(phone, ReleaseSlip, employee, if m.image then Method else Slip, [m]), closed);
    case StartAdvance(phone, employee, closed) =>
      GatedStart(w, Session(phone, AdvanceRequest, employee, Selfie, []), closed);
    case Edit(id) => GatedAdmin(w, id, true, Edited);
    case Approve(id, sent) =>
      GatedAdmin(w, id, id < |w.sessions| && w.sessions[id].step == Edited, if sent then Sent else Approved);
    case Reject(id) => GatedAdmin(w, id, id < |w.sessions| && w.sessions[id].step != Sent, Rejected);
  }

  /**
   Over every sequence of messages and admin commands, even when a cleanup fails or
   a session row is edited, each session yields at most one payment draft, and only
   after a recognised payment method that follows two images for an advance, or one
   for a release slip, heard in that session.
   */
  lemma {:induction false} DraftsAreEarned(w: World, es: seq<Event>)
    requires Gated(w)
    ensures Gated(Run(w, es))
    ensures forall k :: 0 <= k < |Run(w, es).drafts| ==> Spent(Run(w, es).sessions, Run(w, es).drafts[k])
    decreases |es|
  {
    if es != [] {
      GatedStep(w, es[0]);
      DraftsAreEarned(Step(w, es[0]), es[1..]);
    }
  }

  /**
   A start adds one session for its phone. With the cleanup it closes that phone's open
   sessions and touches no other row; without it, it touches none.
   */
  lemma StartRecords(w: World, e: Event)
    requires e.StartAdvance? || e.StartSlip?
    ensures var ss, ss' := w.sessions, Step(w, e).sessions;
            && |ss'| == |ss| + 1 && Step(w, e).drafts == w.drafts
            && (forall i :: 0 <= i < |ss| ==>
                  ss'[i] == if e.closed && ss[i].phone == e.phone && ss[i].step != Verified && ss[i].step != Rejected
                            then ss[i].(step := Rejected) else ss[i])
            && ss'[|ss|].phone == e.phone && ss'[|ss|].employee == e.employee
            && (e.StartAdvance? ==> ss'[|ss|].kind == AdvanceRequest && ss'[|ss|].step == Selfie && ss'[|ss|].heard == [])
            && (e.StartSlip? ==> ss'[|ss|].kind == ReleaseSlip && ss'[|ss|].heard == [e.message]
                                 && ss'[|ss|].step == if e.message.image then Method else Slip)
  {}

  /** EDIT reaches every row, APPROVE only an edited one, REJECT every one but a sent one; each changes that row's status alone. */
  lemma AdminRecords(w: World, id: nat, sent: bool)
    requires id < |w.sessions|
    ensures var s := w.sessions[id];
            && Step(w, Edit(id)) == w.(sessions := w.sessions[id := s.(step := Edited)])
            && Step(w, Approve(id, sent)) == (if s.step != Edited then w
                 else w.(sessions := w.sessions[id := s.(step := if sent then Sent else Approved)]))
            && Step(w, Reject(id)) == (if s.step == Sent || s.step == Rejected then w
                 else w.(sessions := w.sessions[id := s.(step := Rejected)]))
  {
    assert w.sessions[id].step == Rejected ==> w.sessions[id := w.sessions[id].(step := Rejected)] == w.sessions;
  }

  /** A message concerns the newest open session of its phone, and nothing else. */
  lemma SayConcernsOne(w: World, phone: string, m: Message, draftOk: bool)
    ensures var ss, w' := w.sessions, Step(w, Say(phone, m, draftOk));
            var at := Current(ss, phone, |ss|);
            && |w'.sessions| == |ss|
            && (forall i :: 0 <= i < |ss| && at != Some(i) ==> w'.sessions[i] == ss[i])
            && (w'.drafts == w.drafts || (at.Some? && w'.drafts == w.drafts + [at.value]))
            && (at.Some? && !draftOk ==> w'.drafts == w.drafts)
            && (at.Some? ==> w'.sessions[at.value].phone == phone && w'.sessions[at.value].kind == ss[at.value].kind
                             && w'.sessions[at.value].employee == ss[at.value].employee)
            && (at.Some? && ss[at.value].employee.None? ==> w'.drafts == w.drafts)
  {}

  // ---- What earns a draft ----

  datatype Need = Picture | Payment

  predicate Meets(m: Message, n: Need) { if n.Picture? then m.image else m.paysBy }

  /** The messages hold, in this order and one message each, what is needed. */
  predicate Hears(ms: seq<Message>, needs: seq<Need>)
    decreases |ms|
  {
    needs == [] ||
    (ms != [] && if Meets(ms[0], needs[0]) then Hears(ms[1..], needs[1..]) else Hears(ms[1..], needs))
  }

  function Needs(step: StepName): seq<Need> {
    match step
    case Selfie => [Picture, Picture, Payment]
    case Slip => [Picture, Payment]
    case Method => [Payment]
    case _ => []
  }

  function Says(phone: string, ms: seq<Message>): seq<Event> {
    if ms == [] then [] else [Say(phone, ms[0], true)] + Says(phone, ms[1..])
  }

  /** Session `id` is the newest open one of its phone, and its employee is known. */
  predicate Ready(w: World, id: nat) {
    id < |w.sessions| && w.sessions[id].employee.Some? && Current(w.sessions, w.sessions[id].phone, |w.sessions|) == Some(id)
  }

  lemma CurrentIs(ss: seq<Session>, phone: string, n: nat, id: nat)
    requires id < n <= |ss| && ss[id].phone == phone && Open(ss[id])
    requires forall i :: id < i < n ==> !(ss[i].phone == phone && Open(ss[i]))
    ensures Current(ss, phone, n) == Some(id)
  {}

  /** One message to a waiting session either meets its next need and moves it on, or changes no step. */
  lemma SayMoves(w: World, id: nat, m: Message)
    requires Ready(w, id) && Waiting(w.sessions[id])
    ensures var s, w' := w.sessions[id], Step(w, Say(w.sessions[id].phone, m, true));
            && |w'.sessions| == |w.sessions| && w'.sessions[id].phone == s.phone && w'.sessions[id].employee == s.employee
            && Needs(w'.sessions[id].step) == (if Meets(m, Needs(s.step)[0]) then Needs(s.step)[1..] else Needs(s.step))
            && (if s.step == Method && m.paysBy then w'.sessions[id].step == Verified && w'.drafts == w.drafts + [id]
                else w'.drafts == w.drafts && Waiting(w'.sessions[id]) && Ready(w', id))
  {
    var w' := Step(w, Say(w.sessions[id].phone, m, true));
    if !(w.sessions[id].step == Method && m.paysBy) {
      assert forall i :: 0 <= i < |w.sessions| && i != id ==> w'.sessions[i] == w.sessions[i];
      CurrentIs(w'.sessions, w'.sessions[id].phone, |w'.sessions|, id);
    }
  }

  /** Whatever else it is sent, a session ends in exactly one draft when it hears what it waits for, and in none otherwise. */
  lemma {:induction false} HeardIsDrafted(w: World, id: nat, ms: seq<Message>)
    requires Ready(w, id) && Waiting(w.sessions[id]) && OneOpen(w.sessions)
    ensures Run(w, Says(w.sessions[id].phone, ms)).drafts ==
            if Hears(ms, Needs(w.sessions[id].step)) then w.drafts + [id] else w.drafts
    decreases |ms|
  {
    if ms != [] {
      var phone := w.sessions[id].phone;
      var e := Say(phone, ms[0], true);
      assert Says(phone, ms)[1..] == Says(phone, ms[1..]);
      SayMoves(w, id, ms[0]);
      OneOpenStepIff(w, e);
      if w.sessions[id].step == Method && ms[0].paysBy {
        NoneOpen(w, id, e);
        Silence(Step(w, e), phone, ms[1..]);
      } else {
        HeardIsDrafted(Step(w, e), id, ms[1..]);
      }
    }
  }

  lemma NoneOpen(w: World, id: nat, e: Event)
    requires Ready(w, id) && OneOpen(w.sessions) && e.Say? && e.phone == w.sessions[id].phone
    requires w.sessions[id].step == Method && e.message.paysBy
    ensures Current(Step(w, e).sessions, e.phone, |Step(w, e).sessions|).None?
  {
    var ss' := Step(w, e).sessions;
    forall i | 0 <= i < |ss'| ensures !(ss'[i].phone == e.phone && Open(ss'[i])) {
      if i < id {
        assert w.sessions[i].phone == w.sessions[id].phone ==> !Open(w.sessions[i]);
      }
    }
  }

  lemma {:induction false} Silence(w: World, phone: string, ms: seq<Message>)
    requires Current(w.sessions, phone, |w.sessions|).None?
    ensures Run(w, Says(phone, ms)) == w
    decreases |ms|
  {
    if ms != [] {
      assert Says(phone, ms)[1..] == Says(phone, ms[1..]);
      Silence(w, phone, ms[1..]);
    }
  }

  /**
   An advance is drafted exactly when, after it is started, a picture, another picture
   and a payment method come in that order; a release slip exactly when a picture, in
   the request itself or after it, is followed by one.
   */
  lemma StartedIsDraftedIff(w: World, phone: string, employee: nat, request: Message, ms: seq<Message>)
    requires OneOpen(w.sessions)
    ensures Run(Step(w, StartAdvance(phone, Some(employee), true)), Says(phone, ms)).drafts ==
            if Hears(ms, [Picture, Picture, Payment]) then w.drafts + [|w.sessions|] else w.drafts
    ensures Run(Step(w, StartSlip(phone, Some(employee), request, true)), Says(phone, ms)).drafts ==
            if Hears(ms, if request.image then [Payment] else [Picture, Payment]) then w.drafts + [|w.sessions|] else w.drafts
  {
    var a, b := StartAdvance(phone, Some(employee), true), StartSlip(phone, Some(employee), request, true);
    OneOpenStepIff(w, a);
    OneOpenStepIff(w, b);
    CurrentIs(Step(w, a).sessions, phone, |w.sessions| + 1, |w.sessions|);
    CurrentIs(Step(w, b).sessions, phone, |w.sessions| + 1, |w.sessions|);
    HeardIsDrafted(Step(w, a), |w.sessions|, ms);
    HeardIsDrafted(Step(w, b), |w.sessions|, ms);
  }

  // ---- At most one open session per phone ----

  ghost predicate OneOpen(ss: seq<Session>) {
    forall i, j :: 0 <= i < j < |ss| && ss[i].phone == ss[j].phone ==> !(Open(ss[i]) && Open(ss[j]))
  }

  predicate HasOpen(ss: seq<Session>, phone: string) { Current(ss, phone, |ss|).Some? }

  /** Either a start whose cleanup fails, or an EDIT of a closed session row, while the phone has a session open. */
  predicate OpensASecond(w: World, e: Event) {
    match e
    case StartAdvance(phone, _, closed) => !closed && HasOpen(w.sessions, phone)
    case StartSlip(phone, _, _, closed) => !closed && HasOpen(w.sessions, phone)
    case Edit(id) => id < |w.sessions| && !Open(w.sessions[id]) && HasOpen(w.sessions, w.sessions[id].phone)
    case _ => false
  }

  /** A start keeps at most one session open exactly when the cleanup succeeds or the phone had none open. */
  lemma CreateKeepsOneOpenIff(ss: seq<Session>, s: Session, closed: bool)
    requires OneOpen(ss) && Open(s)
    ensures OneOpen(Create(ss, s, closed)) <==> closed || !HasOpen(ss, s.phone)
  {
    var at := Current(ss, s.phone, |ss|);
    var ss' := Create(ss, s, closed);
    if closed {
      assert forall i :: 0 <= i < |ss| ==> ss'[i].phone == ss[i].phone && (Open(ss'[i]) ==> Open(ss[i]) && ss[i].phone != s.phone);
    } else if at.Some? {
      assert ss'[at.value] == ss[at.value] && ss'[|ss|] == s;
    }
  }

  /** Setting a row's status keeps at most one open exactly when it does not reopen it beside another. */
  lemma SetStepKeepsOneOpenIff(ss: seq<Session>, id: nat, step: StepName)
    requires OneOpen(ss) && id < |ss|
    ensures var ss' := ss[id := ss[id].(step := step)];
            OneOpen(ss') <==> !(Open(ss'[id]) && !Open(ss[id]) && HasOpen(ss, ss[id].phone))
  {
    var ss' := ss[id := ss[id].(step := step)];
    var at := Current(ss, ss[id].phone, |ss|);
    if Open(ss'[id]) && !Open(ss[id]) && at.Some? {
      var lo, hi := if at.value < id then at.value else id, if at.value < id then id else at.value;
      assert ss'[lo].phone == ss'[hi].phone && Open(ss'[lo]) && Open(ss'[hi]);
    }
  }

  /** From at most one open session per phone, a step keeps it so exactly when it does not open a second. */
  lemma OneOpenStepIff(w: World, e: Event)
    requires OneOpen(w.sessions)
    ensures OneOpen(Step(w, e).sessions) <==> !OpensASecond(w, e)
  {
    match e
    case StartAdvance(phone, employee, closed) =>
      CreateKeepsOneOpenIff(w.sessions, Session(phone, AdvanceRequest, employee, Selfie, []), closed);
    case StartSlip(phone, employee, m, closed) =>
      CreateKeepsOneOpenIff(w.sessions, Session(phone, ReleaseSlip, employee, if m.image then Method else Slip, [m]), closed);
    case Say(_, _, _) => OneOpenSay(w, e);
    case Edit(id) => if id < |w.sessions| { SetStepKeepsOneOpenIff(w.sessions, id, Edited); }
    case Approve(id, sent) => if id < |w.sessions| { SetStepKeepsOneOpenIff(w.sessions, id, if sent then Sent else Approved); }
    case Reject(id) => if id < |w.sessions| { SetStepKeepsOneOpenIff(w.sessions, id, Rejected); }
  }

  lemma OneOpenSay(w: World, e: Event)
    requires OneOpen(w.sessions) && e.Say?
    ensures OneOpen(Step(w, e).sessions)
  {
    var ss' := Step(w, e).sessions;
    assert |ss'| == |w.sessions|
        && forall i :: 0 <= i < |ss'| ==> ss'[i].phone == w.sessions[i].phone && (Open(ss'[i]) ==> Open(w.sessions[i]));
  }

  ghost predicate OneOpenThroughout(w: World, es: seq<Event>)
    decreases |es|
  {
    OneOpen(w.sessions) && (es == [] || OneOpenThroughout(Step(w, es[0]), es[1..]))
  }

  predicate NeverASecond(w: World, es: seq<Event>)
    decreases |es|
  {
    es == [] || (!OpensASecond(w, es[0]) && NeverASecond(Step(w, es[0]), es[1..]))
  }

  /** Over every run a phone has at most one open session throughout, exactly when no step of it opens a second. */
  lemma {:induction false} OneOpenSession(w: World, es: seq<Event>)
    requires OneOpen(w.sessions)
    ensures OneOpenThroughout(w, es) <==> NeverASecond(w, es)
    decreases |es|
  {
    if es != [] {
      OneOpenStepIff(w, es[0]);
      if !OpensASecond(w, es[0]) {
        OneOpenSession(Step(w, es[0]), es[1..]);
      }
    }
  }

  /** So do messages and starts alone, as long as the cleanups succeed. */
  lemma {:induction false} CleanRunsNeverOpenASecond(w: World, es: seq<Event>)
    requires forall i :: 0 <= i < |es| ==> es[i].Say? || ((es[i].StartAdvance? || es[i].StartSlip?) && es[i].closed)
    ensures NeverASecond(w, es)
    decreases |es|
  {
    if es != [] {
      CleanRunsNeverOpenASecond(Step(w, es[0]), es[1..]);
    }
  }

  /** EDIT of a closed session row opens it beside the current one, though every cleanup succeeded. */
  lemma EditReopensAClosedSession(phone: string, employee: Option<nat>)
    ensures var w := Step(Step(World([], []), StartAdvance(phone, employee, true)), StartAdvance(phone, employee, true));
            var w' := Step(w, Edit(0));
            OneOpen(w.sessions) && |w'.sessions| == 2 && w'.sessions[0].phone == w'.sessions[1].phone
            && Open(w'.sessions[0]) && Open(w'.sessions[1])
  {
    var w1 := Step(World([], []), StartAdvance(phone, employee, true));
    assert CloseAll([], phone) == [];
    assert w1.sessions == [Session(phone, AdvanceRequest, employee, Selfie, [])];
    var w := Step(w1, StartAdvance(phone, employee, true));
    assert w.sessions == [w1.sessions[0].(step := Rejected), w1.sessions[0]];
  }

  class Desk {
    var sessions: seq<Session>
    var drafts: seq<nat>

    constructor ()
      ensures sessions == [] && drafts == []
    {
      sessions, drafts := [], [];
    }

    function Value(): World
      reads this
    {
      World(sessions, drafts)
    }

    method CreateSession(s: Session, closed: bool)
      modifies this`sessions
      ensures sessions == Create(old(sessions), s, closed)
    {
      if closed {
        ghost var ss := sessions;
        for i := 0 to |sessions|
          invariant |sessions| == |ss|
          invariant forall k :: 0 <= k < i ==> sessions[k] == CloseAll(ss, s.phone)[k]
          invariant forall k :: i <= k < |ss| ==> sessions[k] == ss[k]
        {
          if sessions[i].phone == s.phone && Open(sessions[i]) {
            sessions := sessions[i := sessions[i].(step := Rejected)];
          }
        }
        assert sessions == CloseAll(ss, s.phone);
      }
      sessions := sessions + [s];
    }

    method StartAdvanceVerification(phone: string, employee: Option<nat>, closed: bool)
      modifies this
      ensures Value() == Step(old(Value()), StartAdvance(phone, employee, closed))
    {
      CreateSession(Session(phone, AdvanceRequest, employee, Selfie, []), closed);
    }

    method StartSlipVerification(phone: string, employee: Option<nat>, m: Message, closed: bool)
      modifies this
      ensures Value() == Step(old(Value()), StartSlip(phone, employee, m, closed))
    {
      if m.image {
        CreateSession(Session(phone, ReleaseSlip, employee, Method, [m]), closed);
      } else {
        CreateSession(Session(phone, ReleaseSlip, employee, Slip, [m]), closed);
      }
    }

    method AdvanceVerification(phone: string, m: Message, draftOk: bool)
      modifies this
      ensures Value() == Step(old(Value()), Say(phone, m, draftOk))
    {
      var n := |sessions|;
      while n > 0 && !(sessions[n - 1].phone == phone && Open(sessions[n - 1]))
        invariant 0 <= n <= |sessions| && Value() == old(Value())
        invariant Current(sessions, phone, |sessions|) == Current(sessions, phone, n)
      {
        n := n - 1;
      }
      if n == 0 {
        return;
      }
      var id := n - 1;
      var s := sessions[id];
      var heard := s.heard + [m];
      if s.step == Selfie {
        sessions := sessions[id := s.(heard := heard, step := if m.image then Slip else Selfie)];
      } else if s.step == Slip {
        sessions := sessions[id := s.(heard := heard, step := if m.image then Method else Slip)];
      } else if s.step == Method && !m.paysBy {
        sessions := sessions[id := s.(heard := heard)];
      } else if s.step == Method {
        sessions := sessions[id := s.(heard := heard, step := Verified)];
        if s.employee.Some? && draftOk {
          drafts := drafts + [id];
        }
      }
    }

    /** _cmd_edit on a session row. */
    method EditRow(id: nat)
      modifies this
      ensures Value() == Step(old(Value()), Edit(id))
    {
      if id < |sessions| {
        sessions := sessions[id := sessions[id].(step := Edited)];
      }
    }

    /** _cmd_approve on a session row. */
    method ApproveRow(id: nat, sent: bool)
      modifies this
      ensures Value() == Step(old(Value()), Approve(id, sent))
    {
      if id >= |sessions| || sessions[id].step != Edited {
        return;
      }
      sessions := sessions[id := sessions[id].(step := Approved)];
      if sent {
        sessions := sessions[id := sessions[id].(step := Sent)];
      }
    }

    /** _cmd_reject on a session row. */
    method RejectRow(id: nat)
      modifies this
      ensures Value() == Step(old(Value()), Reject(id))
    {
      if id < |sessions| && sessions[id].step != Sent && sessions[id].step != Rejected {
        sessions := sessions[id := sessions[id].(step := Rejected)];
      }
    }
  }
}
