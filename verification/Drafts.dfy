/**
 Draft replies: the quality gate that stores them (modules/draft_quality,
 modules/bridge_poller) and the admin commands APPROVE, REJECT and EDIT
 (modules/admin_commands).
 */
module DraftQuality {
  import opened Prelude

  const LLM_FALLBACK: string := "আমি এই মুহূর্তে সাড়া দিতে পারছি না। অনুগ্রহ করে কিছুক্ষণ পরে আবার চেষ্টা করুন।"
  const LLM_FALLBACK_V2: string := "আপনার বার্তা পেয়েছি। একটু পরে বিস্তারিত জানাচ্ছি।"

  const BAD_PATTERNS: seq<string> :=
    ["file://", "/home/azim", "Created [](", "Traceback (most recent call last)", "```", "<|", "/scripts/", "/venv/"]

  const MAX_DRAFT_LEN: int := 4000

  datatype Verdict = Passed | Empty | LlmFallback | BadPattern(pattern: string) | TooLong

  predicate Contains(text: string, pat: string) {
    exists i :: 0 <= i <= |text| - |pat| && text[i..][..|pat|] == pat
  }

  /** One string contains another exactly when it is that string between two others. */
  lemma ContainsIff(text: string, pat: string)
    ensures Contains(text, pat) <==> exists before, rest :: text == before + pat + rest
  {
    if Contains(text, pat) {
      var i :| 0 <= i <= |text| - |pat| && text[i..][..|pat|] == pat;
      assert text == text[..i] + pat + text[i..][|pat|..];
    }
    if before, rest :| text == before + pat + rest {
      assert text[|before|..] == pat + rest;
      assert text[|before|..][..|pat|] == pat;
    }
  }

  function FirstBad(text: string, pats: seq<string>): Option<string> {
    if pats == [] then None else if Contains(text, pats[0]) then Some(pats[0]) else FirstBad(text, pats[1..])
  }

  function CheckDraftQuality(gateOn: bool, reply: Option<string>): Verdict {
    if !gateOn then Passed
    else if reply.None? || Strip(reply.value) == "" then Empty
    else
      var text := Strip(reply.value);
      if text == LLM_FALLBACK || text == LLM_FALLBACK_V2 then LlmFallback
      else
        var bad := FirstBad(text, BAD_PATTERNS);
        if bad.Some? then BadPattern(bad.value) else if |text| > MAX_DRAFT_LEN then TooLong else Passed
  }

  lemma {:induction false} FirstBadFinds(text: string, pats: seq<string>)
    ensures FirstBad(text, pats).None? <==> forall p :: p in pats ==> !Contains(text, p)
  {
    if pats != [] {
      FirstBadFinds(text, pats[1..]);
      assert pats == [pats[0]] + pats[1..];
    }
  }

  /** Presentable text: not blank, not a canned fallback, free of leak patterns and not too long. */
  ghost predicate Clean(reply: string) {
    var text := Strip(reply);
    && text != "" && text != LLM_FALLBACK && text != LLM_FALLBACK_V2 && |text| <= 4000
    && forall p :: p in BAD_PATTERNS ==> !Contains(text, p)
  }

  /** The reason given: blank, a canned reply, the first leak pattern found, or too long, in that order; with the gate off, none. */
  lemma GateReasons(reply: Option<string>)
    ensures CheckDraftQuality(false, reply).Passed?
    ensures reply.None? ==> CheckDraftQuality(true, reply).Empty?
    ensures reply.Some? ==>
              var v, text := CheckDraftQuality(true, reply), Strip(reply.value);
              && (v.Empty? <==> text == "")
              && (v.LlmFallback? <==> text != "" && (text == LLM_FALLBACK || text == LLM_FALLBACK_V2))
              && (v.BadPattern? ==> v.pattern in BAD_PATTERNS && Contains(text, v.pattern))
              && (v.TooLong? ==> |text| > 4000 && forall p :: p in BAD_PATTERNS ==> !Contains(text, p))
  {
    if reply.Some? {
      FirstBadFinds(Strip(reply.value), BAD_PATTERNS);
      FirstBadIsOne(Strip(reply.value), BAD_PATTERNS);
    }
  }

  lemma {:induction false} FirstBadIsOne(text: string, pats: seq<string>)
    ensures FirstBad(text, pats).Some? ==> FirstBad(text, pats).value in pats && Contains(text, FirstBad(text, pats).value)
  {
    if pats != [] {
      FirstBadIsOne(text, pats[1..]);
    }
  }

  /** With the gate on, exactly the clean texts pass. */
  lemma GatePassesClean(reply: string)
    ensures CheckDraftQuality(true, Some(reply)).Passed? <==> Clean(reply)
  {
    FirstBadFinds(Strip(reply), BAD_PATTERNS);
  }
}

module Drafts {
  import opened Prelude
  import opened DraftQuality

  datatype Status = Unset | Pending | Edited | Approved | Sent | Rejected | RejectedQuality | RejectedFallback

  /** A stored draft, with the delivery attempts and edits it has seen. */
  datatype Draft = Draft(text: string, status: Status, gated: bool, deliveries: nat, edits: nat)

  datatype Delivery = Delivery(id: nat, text: string)

  datatype World = World(drafts: seq<Draft>, log: seq<Delivery>)

  /** How an approved draft fares: its side effect may abort before the send, which may fail. */
  datatype Outcome = Aborted | SendFailed | SendOk

  datatype Event =
    | Save(reply: Option<string>, gateOn: bool)
    | Approve(id: nat, outcome: Outcome)
    | Reject(id: nat)
    | Edit(id: nat, text: string)

  function SavedStatus(v: Verdict): Status {
    if v.Passed? then Pending else if v.LlmFallback? then RejectedFallback else RejectedQuality
  }

  predicate Approvable(d: Draft) { d.status == Unset || d.status == Pending || d.status == Edited }

  function Approving(d: Draft, outcome: Outcome): Draft {
    match outcome
    case Aborted => d.(status := Approved)
    case SendFailed => d.(status := Approved, deliveries := d.deliveries + 1)
    case SendOk => d.(status := Sent, deliveries := d.deliveries + 1)
  }

  function Step(w: World, e: Event): World {
    match e
    case Save(reply, gateOn) =>
      var v := CheckDraftQuality(gateOn, reply);
      w.(drafts := w.drafts + [Draft(if reply.Some? then reply.value else "", SavedStatus(v), !v.Passed?, 0, 0)])
    case Approve(id, outcome) =>
      if id >= |w.drafts| || !Approvable(w.drafts[id]) then w
      else World(w.drafts[id := Approving(w.drafts[id], outcome)],
                 if outcome.Aborted? then w.log else w.log + [Delivery(id, w.drafts[id].text)])
    case Reject(id) =>
      if id >= |w.drafts| || w.drafts[id].status == Sent || w.drafts[id].status == Rejected then w
      else w.(drafts := w.drafts[id := w.drafts[id].(status := Rejected)])
    case Edit(id, text) =>
      if id >= |w.drafts| then w
      else w.(drafts := w.drafts[id := w.drafts[id].(text := text, status := Edited, edits := w.drafts[id].edits + 1)])
  }

  function Run(w: World, es: seq<Event>): World
    decreases |es|
  {
    if es == [] then w else Run(Step(w, es[0]), es[1..])
  }

  predicate Sound(d: Draft) {
    && d.deliveries <= 1 + d.edits
    && (Approvable(d) ==> d.deliveries <= d.edits)
    && (d.gated && d.edits == 0 ==> d.deliveries == 0 && !Approvable(d))
  }

  function Attempts(log: seq<Delivery>, id: nat): nat {
    if log == [] then 0 else Attempts(log[..|log| - 1], id) + (if log[|log| - 1].id == id then 1 else 0)
  }

  ghost predicate Disciplined(w: World) {
    && (forall i :: 0 <= i < |w.drafts| ==> Sound(w.drafts[i]) && w.drafts[i].deliveries == Attempts(w.log, i))
    && (forall i :: |w.drafts| <= i ==> Attempts(w.log, i) == 0)
  }

  lemma AttemptsSnoc(log: seq<Delivery>, d: Delivery, id: nat)
    ensures Attempts(log + [d], id) == Attempts(log, id) + (if d.id == id then 1 else 0)
  {
    assert (log + [d])[..|log|] == log;
  }

  lemma DisciplinedStep(w: World, e: Event)
    requires Disciplined(w)
    ensures Disciplined(Step(w, e))
  {
    if e.Approve? && Step(w, e).log != w.log {
      forall i: nat ensures Attempts(Step(w, e).log, i) == Attempts(w.log, i) + (if i == e.id then 1 else 0) {
        AttemptsSnoc(w.log, Delivery(e.id, w.drafts[e.id].text), i);
      }
    }
  }

  /**
   Over every sequence of commands, delivery attempts for a draft never exceed one
   plus its edits, and a draft the gate rejected is not delivered unless edited.
   */
  lemma {:induction false} DeliveriesAreBounded(w: World, es: seq<Event>)
    requires Disciplined(w)
    ensures Disciplined(Run(w, es))
    ensures forall i :: 0 <= i < |Run(w, es).drafts| ==>
              var d := Run(w, es).drafts[i];
              Attempts(Run(w, es).log, i) <= 1 + d.edits && (d.gated && d.edits == 0 ==> Attempts(Run(w, es).log, i) == 0)
    decreases |es|
  {
    if es != [] {
      DisciplinedStep(w, es[0]);
      DeliveriesAreBounded(Step(w, es[0]), es[1..]);
    }
  }

  // ---- What is delivered, and when ----

  /** The gate stores what it passes as pending, a canned fallback as such, and anything else as rejected for quality. */
  lemma SaveRecords(w: World, reply: Option<string>, gateOn: bool)
    ensures var w' := Step(w, Save(reply, gateOn));
            && |w'.drafts| == |w.drafts| + 1 && w'.drafts[..|w.drafts|] == w.drafts && w'.log == w.log
            && var d := w'.drafts[|w.drafts|];
               && d.text == (if reply.Some? then reply.value else "") && d.edits == 0 && d.deliveries == 0
               && (d.status == Pending <==> CheckDraftQuality(gateOn, reply).Passed?)
               && (d.status == RejectedFallback <==> CheckDraftQuality(gateOn, reply).LlmFallback?)
               && (d.gated <==> d.status != Pending) && (d.gated ==> !Approvable(d))
               && (d.status == Pending || d.status == RejectedFallback || d.status == RejectedQuality)
  {}

  /** APPROVE delivers the draft's text, once, exactly when it is unset, pending or edited and nothing aborts it; then it is sent or left approved. */
  lemma ApproveOutcome(w: World, id: nat, outcome: Outcome)
    requires id < |w.drafts|
    ensures var d, w' := w.drafts[id], Step(w, Approve(id, outcome));
            var open := d.status == Unset || d.status == Pending || d.status == Edited;
            && w'.log == (if open && !outcome.Aborted? then w.log + [Delivery(id, d.text)] else w.log)
            && (open ==> w'.drafts[id].status == if outcome.SendOk? then Sent else Approved)
            && (!open ==> w' == w) && w'.drafts[id].text == d.text && w'.drafts[id].edits == d.edits
            && |w'.drafts| == |w.drafts| && forall i :: 0 <= i < |w.drafts| && i != id ==> w'.drafts[i] == w.drafts[i]
  {}

  /** No EDIT of draft `id`. */
  predicate Unedited(es: seq<Event>, id: nat) { forall i :: 0 <= i < |es| && es[i].Edit? ==> es[i].id != id }

  /** The deliveries of `id` from position `n` of the log on all carry `text`. */
  predicate Carry(log: seq<Delivery>, n: nat, id: nat, text: string) {
    forall k :: n <= k < |log| && log[k].id == id ==> log[k].text == text
  }

  lemma CurrentTextStep(w: World, e: Event, id: nat)
    requires id < |w.drafts| && !(e.Edit? && e.id == id)
    ensures id < |Step(w, e).drafts| && Step(w, e).drafts[id].text == w.drafts[id].text
    ensures w.log <= Step(w, e).log && Carry(Step(w, e).log, |w.log|, id, w.drafts[id].text)
  {}

  /** Until the next EDIT every delivery of a draft carries the text it has: the one saved, or the last one edited in. */
  lemma {:induction false} DeliversCurrentText(w: World, es: seq<Event>, id: nat)
    requires id < |w.drafts| && Unedited(es, id)
    ensures id < |Run(w, es).drafts| && Run(w, es).drafts[id].text == w.drafts[id].text
    ensures w.log <= Run(w, es).log && Carry(Run(w, es).log, |w.log|, id, w.drafts[id].text)
    decreases |es|
  {
    if es != [] {
      CurrentTextStep(w, es[0], id);
      DeliversCurrentText(Step(w, es[0]), es[1..], id);
      assert forall k :: |w.log| <= k < |Step(w, es[0]).log| ==> Run(w, es).log[k] == Step(w, es[0]).log[k];
    }
  }

  /** What is delivered after an EDIT and before the next one is the text of that EDIT. */
  lemma EditedTextIsDelivered(w: World, id: nat, text: string, es: seq<Event>)
    requires id < |w.drafts| && Unedited(es, id)
    ensures var w' := Step(w, Edit(id, text));
            && w'.drafts[id].text == text && w'.drafts[id].status == Edited && w'.drafts[id].edits == w.drafts[id].edits + 1
            && w'.log == w.log && Carry(Run(w', es).log, |w.log|, id, text)
  {
    DeliversCurrentText(Step(w, Edit(id, text)), es, id);
  }

  /** A draft no APPROVE will take: not unset, pending or edited. */
  lemma {:induction false} ClosedDraftStays(w: World, es: seq<Event>, id: nat)
    requires id < |w.drafts| && !Approvable(w.drafts[id]) && Unedited(es, id)
    ensures id < |Run(w, es).drafts| && Attempts(Run(w, es).log, id) == Attempts(w.log, id) && !Approvable(Run(w, es).drafts[id])
    decreases |es|
  {
    if es != [] {
      if es[0].Approve? && Step(w, es[0]).log != w.log {
        AttemptsSnoc(w.log, Delivery(es[0].id, w.drafts[es[0].id].text), id);
      }
      ClosedDraftStays(Step(w, es[0]), es[1..], id);
    }
  }

  /** What is sent, or rejected already, REJECT leaves as it is. */
  lemma RejectSpares(w: World, id: nat)
    requires id >= |w.drafts| || w.drafts[id].status == Sent || w.drafts[id].status == Rejected
    ensures Step(w, Reject(id)) == w
  {}

  /** A rejected draft is not delivered, through every run, until it is edited. */
  lemma RejectedIsNotDelivered(w: World, id: nat, es: seq<Event>)
    requires id < |w.drafts| && w.drafts[id].status != Sent && Unedited(es, id)
    ensures var w' := Step(w, Reject(id));
            && w'.drafts[id] == w.drafts[id].(status := Rejected) && w'.log == w.log
            && Attempts(Run(w', es).log, id) == Attempts(w.log, id)
  {
    ClosedDraftStays(Step(w, Reject(id)), es, id);
  }

  // ---- What is delivered without an admin's hand ----

  /** Drafts nobody edited hold clean text unless the gate rejected them, and so do their deliveries. */
  ghost predicate CleanUnlessEdited(w: World) {
    && (forall i :: 0 <= i < |w.drafts| ==>
          Sound(w.drafts[i]) && (w.drafts[i].edits == 0 && !w.drafts[i].gated ==> Clean(w.drafts[i].text)))
    && (forall k :: 0 <= k < |w.log| ==>
          w.log[k].id < |w.drafts| && (w.drafts[w.log[k].id].edits == 0 ==> Clean(w.log[k].text)))
  }

  lemma CleanStep(w: World, e: Event)
    requires CleanUnlessEdited(w) && (e.Save? ==> e.gateOn)
    ensures CleanUnlessEdited(Step(w, e))
  {
    if e.Save? && e.reply.Some? {
      GatePassesClean(e.reply.value);
    }
    if e.Approve? && e.id < |w.drafts| && Approvable(w.drafts[e.id]) {
      assert Sound(w.drafts[e.id]);
    }
  }

  /** With the gate on, whatever is delivered without having been edited is clean. */
  lemma {:induction false} UneditedDeliveriesAreClean(w: World, es: seq<Event>)
    requires CleanUnlessEdited(w) && forall i :: 0 <= i < |es| && es[i].Save? ==> es[i].gateOn
    ensures CleanUnlessEdited(Run(w, es))
    decreases |es|
  {
    if es != [] {
      CleanStep(w, es[0]);
      UneditedDeliveriesAreClean(Step(w, es[0]), es[1..]);
    }
  }

  /** The bound is tight: EDIT reopens even a sent draft, which APPROVE then sends again. */
  lemma EditReopensASentDraft(text: string)
    ensures var w := World([Draft(text, Pending, false, 0, 0)], []);
            var w' := Step(Step(Step(w, Approve(0, SendOk)), Edit(0, text)), Approve(0, SendOk));
            w'.log == [Delivery(0, text), Delivery(0, text)] && w'.drafts[0].edits == 1
  {}

  // ---- Approvals that overlap ----

  /** What the statements of an APPROVE do when its SELECT had returned the draft with `text`, still approvable. */
  function ApproveAsRead(w: World, id: nat, text: string, outcome: Outcome): World
    requires id < |w.drafts|
  {
    World(w.drafts[id := Approving(w.drafts[id], outcome)],
          if outcome.Aborted? then w.log else w.log + [Delivery(id, text)])
  }

  /**
   Two APPROVEs that both read a draft before either marks it pass the status test
   both; for a draft never edited the bound of one attempt is broken exactly when
   neither aborts.
   */
  lemma OverlappingApprovesIff(w: World, id: nat, first: Outcome, second: Outcome)
    requires Disciplined(w) && id < |w.drafts| && Approvable(w.drafts[id]) && w.drafts[id].edits == 0
    ensures var text := w.drafts[id].text;
            var w' := ApproveAsRead(Step(w, Approve(id, first)), id, text, second);
            Attempts(w'.log, id) > 1 + w'.drafts[id].edits <==> !first.Aborted? && !second.Aborted?
  {
    var d := Delivery(id, w.drafts[id].text);
    AttemptsSnoc(w.log, d, id);
    AttemptsSnoc(w.log + [d], d, id);
    assert Sound(w.drafts[id]) && Attempts(w.log, id) == 0;
  }

  // ---- The commands as an object ----

  class Office {
    var drafts: seq<Draft>
    var log: seq<Delivery>

    constructor ()
      ensures drafts == [] && log == []
    {
      drafts, log := [], [];
    }

    function Value(): World
      reads this
    {
      World(drafts, log)
    }

    method ApproveDraft(id: nat, outcome: Outcome)
      modifies this
      ensures Value() == Step(old(Value()), Approve(id, outcome))
    {
      if id >= |drafts| {
        return;
      }
      var d := drafts[id];
      if d.status != Unset && d.status != Pending && d.status != Edited {
        return;
      }
      drafts := drafts[id := d.(status := Approved)];
      if outcome.Aborted? {
        return;
      }
      log := log + [Delivery(id, d.text)];
      drafts := drafts[id := d.(status := if outcome.SendOk? then Sent else Approved, deliveries := d.deliveries + 1)];
    }

    method RejectDraft(id: nat)
      modifies this
      ensures Value() == Step(old(Value()), Reject(id))
    {
      if id < |drafts| && drafts[id].status != Sent && drafts[id].status != Rejected {
        drafts := drafts[id := drafts[id].(status := Rejected)];
      }
    }

    method EditDraft(id: nat, text: string)
      modifies this
      ensures Value() == Step(old(Value()), Edit(id, text))
    {
      if id < |drafts| {
        var d := drafts[id];
        drafts := drafts[id := d.(text := text, status := Edited, edits := d.edits + 1)];
      }
    }

    /** _cmd_approve_many: the ids in turn; `outcomes[k]` is how the k-th one fares. */
    method ApproveMany(ids: seq<nat>, outcomes: seq<Outcome>)
      requires |ids| == |outcomes|
      modifies this
      ensures Value() == Run(old(Value()), seq(|ids|, k requires 0 <= k < |ids| => Approve(ids[k], outcomes[k])))
    {
      ghost var es: seq<Event> := seq(|ids|, k requires 0 <= k < |ids| => Approve(ids[k], outcomes[k]));
      ghost var end := Run(Value(), es);
      assert es[0..] == es;
      for k := 0 to |ids|
        invariant Run(Value(), es[k..]) == end
      {
        assert es[k..][0] == Approve(ids[k], outcomes[k]) && es[k..][1..] == es[k + 1..];
        ApproveDraft(ids[k], outcomes[k]);
      }
    }
  }

  /** _parse_id_list: the numbers among the tokens, each once, in order of first appearance. */
  method ParseIdList(tokens: seq<Option<nat>>) returns (ids: seq<nat>)
    ensures forall n :: n in ids <==> Some(n) in tokens
    ensures forall i, j :: 0 <= i < j < |ids| ==> ids[i] != ids[j]
    ensures forall i, j :: 0 <= i < j < |ids| ==> FirstAt(tokens, ids[i]) < FirstAt(tokens, ids[j])
  {
    var seen: set<nat> := {};
    ids := [];
    for k := 0 to |tokens|
      invariant forall n :: n in seen <==> n in ids
      invariant forall n :: n in ids <==> Some(n) in tokens[..k]
      invariant forall i, j :: 0 <= i < j < |ids| ==> ids[i] != ids[j]
      invariant forall i, j :: 0 <= i < j < |ids| ==> FirstAt(tokens, ids[i]) < FirstAt(tokens, ids[j])
      invariant forall n :: n in ids ==> FirstAt(tokens, n) < k
    {
      assert tokens[..k + 1] == tokens[..k] + [tokens[k]];
      if tokens[k].None? || tokens[k].value in seen {
        continue;
      }
      FirstAtIs(tokens, tokens[k].value, k);
      seen := seen + {tokens[k].value};
      ids := ids + [tokens[k].value];
    }
    assert tokens[..|tokens|] == tokens;
  }

  function FirstAt(tokens: seq<Option<nat>>, n: nat): nat {
    if tokens == [] || tokens[0] == Some(n) then 0 else 1 + FirstAt(tokens[1..], n)
  }

  lemma {:induction false} FirstAtIs(tokens: seq<Option<nat>>, n: nat, k: nat)
    requires k < |tokens| && tokens[k] == Some(n) && Some(n) !in tokens[..k]
    ensures FirstAt(tokens, n) == k
  {
    if k > 0 {
      assert tokens[0] == tokens[..k][0];
      assert tokens[1..][..k - 1] == tokens[..k][1..];
      FirstAtIs(tokens[1..], n, k - 1);
    }
  }
}
