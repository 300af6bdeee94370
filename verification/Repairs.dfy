/**
 The repair tool for payments booked to the wrong employee
 (tools/repair_fpe_transactions.py) and the review console over it
 (tools/review_repairs.py).
 */
module Matching {
  import opened Prelude

  type Phone = string
  type Name = string

  datatype Method = PrimaryPhone | IdPhone | AliasPhone | WbomBkash | WbomNagad | WbomMobile | FuzzyName | Manual | NoMatch

  /** A HIGH-confidence employee, or anything less, which only suggests one. */
  datatype Match = Strong(employee: nat, how: Method) | Weak(suggestion: Option<nat>, how: Method)

  /** The first active row each lookup of _find_correct_employee returns. */
  datatype Directory = Directory(primary: map<Phone, nat>, idPhone: map<Phone, nat>, alias: map<Phone, nat>,
                                 bkash: map<Phone, nat>, nagad: map<Phone, nat>, mobile: map<Phone, nat>,
                                 linked: map<nat, nat>, similar: map<Name, nat>)

  /** The WBOM columns in turn; the first hit decides, and without a payroll link it is only a suggestion. */
  function WbomLookup(cols: seq<(map<Phone, nat>, Method)>, linked: map<nat, nat>, phone: Phone): Option<Match> {
    if cols == [] then None
    else if phone in cols[0].0 then
      var w := cols[0].0[phone];
      Some(if w in linked then Strong(linked[w], cols[0].1) else Weak(None, cols[0].1))
    else WbomLookup(cols[1..], linked, phone)
  }

  function ByName(d: Directory, name: Option<Name>): Match {
    if name.Some? && name.value in d.similar then Weak(Some(d.similar[name.value]), FuzzyName) else Weak(None, NoMatch)
  }

  function WbomColumns(d: Directory): seq<(map<Phone, nat>, Method)> {
    [(d.bkash, WbomBkash), (d.nagad, WbomNagad), (d.mobile, WbomMobile)]
  }

  function FindCorrectEmployee(d: Directory, phone: Option<Phone>, name: Option<Name>): Match {
    if phone.None? then ByName(d, name)
    else if phone.value in d.primary then Strong(d.primary[phone.value], PrimaryPhone)
    else if phone.value in d.idPhone then Strong(d.idPhone[phone.value], IdPhone)
    else if phone.value in d.alias then Strong(d.alias[phone.value], AliasPhone)
    else
      var w := WbomLookup(WbomColumns(d), d.linked, phone.value);
      if w.Some? then w.value else ByName(d, name)
  }

  /** Employee `e` is tied to `phone` by a phone column, directly or through a WBOM link. */
  ghost predicate TiedByPhone(d: Directory, phone: Phone, e: nat) {
    || (phone in d.primary && d.primary[phone] == e)
    || (phone in d.idPhone && d.idPhone[phone] == e)
    || (phone in d.alias && d.alias[phone] == e)
    || exists w :: w in d.linked && d.linked[w] == e &&
         ((phone in d.bkash && d.bkash[phone] == w) || (phone in d.nagad && d.nagad[phone] == w)
          || (phone in d.mobile && d.mobile[phone] == w))
  }

  lemma {:induction false} WbomHit(cols: seq<(map<Phone, nat>, Method)>, linked: map<nat, nat>, phone: Phone) returns (k: nat)
    requires WbomLookup(cols, linked, phone).Some?
    ensures k < |cols| && phone in cols[k].0
    ensures var m := WbomLookup(cols, linked, phone).value;
            m.how == cols[k].1 && (m.Strong? ==> cols[k].0[phone] in linked && linked[cols[k].0[phone]] == m.employee)
  {
    if phone in cols[0].0 {
      k := 0;
    } else {
      k := WbomHit(cols[1..], linked, phone);
      k := k + 1;
    }
  }

  /**
   A phone in the payroll's own columns or aliases always gives a match to act on.
   Past those, the first WBOM column holding the phone decides: if its row has no
   payroll link, neither a linked row in a later column nor the name is looked at.
   */
  lemma FirstPhoneHitDecides(d: Directory, phone: Phone, name: Option<Name>)
    ensures var m := FindCorrectEmployee(d, Some(phone), name);
            var own := phone in d.primary || phone in d.idPhone || phone in d.alias;
            var w := if phone in d.bkash then Some(d.bkash[phone]) else if phone in d.nagad then Some(d.nagad[phone])
                     else if phone in d.mobile then Some(d.mobile[phone]) else None;
            && (m.Strong? <==> own || (w.Some? && w.value in d.linked))
            && (!own && w.Some? && w.value !in d.linked ==> m.Weak? && m.suggestion.None?)
  {
    WbomUnrolled(d, phone);
  }

  function Followed(d: Directory, w: nat, how: Method): Match { if w in d.linked then Strong(d.linked[w], how) else Weak(None, how) }

  lemma WbomUnrolled(d: Directory, phone: Phone)
    ensures WbomLookup(WbomColumns(d), d.linked, phone) ==
            if phone in d.bkash then Some(Followed(d, d.bkash[phone], WbomBkash))
            else if phone in d.nagad then Some(Followed(d, d.nagad[phone], WbomNagad))
            else if phone in d.mobile then Some(Followed(d, d.mobile[phone], WbomMobile)) else None
  {
    var nagad, mobile := WbomColumns(d)[1..], WbomColumns(d)[2..];
    assert nagad[0] == (d.nagad, WbomNagad) && nagad[1..] == mobile;
    assert mobile[0] == (d.mobile, WbomMobile) && |mobile[1..]| == 0;
    assert WbomLookup(mobile, d.linked, phone) ==
           if phone in d.mobile then Some(Followed(d, d.mobile[phone], WbomMobile)) else None;
    assert WbomLookup(nagad, d.linked, phone) ==
           if phone in d.nagad then Some(Followed(d, d.nagad[phone], WbomNagad)) else WbomLookup(mobile, d.linked, phone);
  }

  /** Among the payroll's own columns the primary phone goes before the id phone, and that before the aliases. */
  lemma PriorityDecides(d: Directory, phone: Phone, name: Option<Name>)
    ensures var m := FindCorrectEmployee(d, Some(phone), name);
            && (phone in d.primary ==> m == Strong(d.primary[phone], PrimaryPhone))
            && (phone !in d.primary && phone in d.idPhone ==> m == Strong(d.idPhone[phone], IdPhone))
            && (phone !in d.primary && phone !in d.idPhone && phone in d.alias ==> m == Strong(d.alias[phone], AliasPhone))
  {}

  /** Past them bKash goes before Nagad, and that before the mobile column. */
  lemma WbomPriority(d: Directory, phone: Phone, name: Option<Name>, w: nat, how: Method)
    requires phone !in d.primary && phone !in d.idPhone && phone !in d.alias
    requires || (how == WbomBkash && phone in d.bkash && w == d.bkash[phone])
             || (how == WbomNagad && phone !in d.bkash && phone in d.nagad && w == d.nagad[phone])
             || (how == WbomMobile && phone !in d.bkash && phone !in d.nagad && phone in d.mobile && w == d.mobile[phone])
    ensures FindCorrectEmployee(d, Some(phone), name) == if w in d.linked then Strong(d.linked[w], how) else Weak(None, how)
  {
    WbomUnrolled(d, phone);
  }

  /** With no phone to go by, or one nobody has, the most similar name is suggested, if there is one. */
  lemma NameIsSuggested(d: Directory, phone: Option<Phone>, name: Option<Name>)
    requires phone.Some? ==> forall c :: c in [d.primary, d.idPhone, d.alias, d.bkash, d.nagad, d.mobile] ==> phone.value !in c
    ensures FindCorrectEmployee(d, phone, name) ==
            if name.Some? && name.value in d.similar then Weak(Some(d.similar[name.value]), FuzzyName) else Weak(None, NoMatch)
  {
    if phone.Some? {
      var cs := [d.primary, d.idPhone, d.alias, d.bkash, d.nagad, d.mobile];
      assert cs[0] in cs && cs[1] in cs && cs[2] in cs && cs[3] in cs && cs[4] in cs && cs[5] in cs;
      WbomUnrolled(d, phone.value);
    }
  }

  /** A match the tool may act on always comes from a phone; a name alone, however similar, never does. */
  lemma StrongMeansPhone(d: Directory, phone: Option<Phone>, name: Option<Name>)
    ensures var m := FindCorrectEmployee(d, phone, name);
            && (m.Strong? ==> phone.Some? && TiedByPhone(d, phone.value, m.employee))
            && (m.how == FuzzyName ==> m.Weak?)
            && (phone.None? ==> m.Weak?)
  {
    if phone.Some? && WbomLookup(WbomColumns(d), d.linked, phone.value).Some? {
      var k := WbomHit(WbomColumns(d), d.linked, phone.value);
      assert k == 0 || k == 1 || k == 2;
    }
  }
}

module Repairs {
  import opened Prelude
  import opened Ledger
  import opened Matching

  predicate HasRef(txns: seq<Txn>, r: Ref) { exists i :: 0 <= i < |txns| && txns[i].ref == r }

  function Reversal(txns: seq<Txn>, id: nat): Txn
    requires id < |txns|
  {
    txns[id].(ref := Reverse(txns[id].ref), amount := -txns[id].amount, deleted := false, reversalOf := Some(id))
  }

  function Replacement(t: Txn, employee: nat): Txn {
    Txn(Corrected(t.message, employee, t.amount), t.message, Some(employee), t.amount, t.date, t.period, Salary, false, None)
  }

  predicate FreshReversal(b: Books, id: nat)
    requires id < |b.txns|
  {
    !HasRef(b.txns, Reverse(b.txns[id].ref))
  }

  predicate FreshReplacement(b: Books, id: nat, employee: nat)
    requires id < |b.txns|
  {
    !HasRef(b.txns, Replacement(b.txns[id], employee).ref)
  }

  /** The rows a repair adds: it reuses any that already carry the reference. */
  function Rows(b: Books, id: nat, employee: nat): seq<Txn>
    requires id < |b.txns|
  {
    (if FreshReversal(b, id) then [Reversal(b.txns, id)] else [])
    + (if FreshReplacement(b, id, employee) then [Replacement(b.txns[id], employee)] else [])
  }

  /** Debit the old employee and credit the new one, whether or not rows were added. */
  function Move(l: Book, t: Txn, employee: nat): Book {
    if t.period.None? then l
    else
      var debited := if t.employee.Some? then Post(l, t.employee.value, t.period.value, -t.amount, Salary) else l;
      Post(debited, employee, t.period.value, t.amount, Salary)
  }

  function Repair(b: Books, id: nat, employee: nat): Books
    requires id < |b.txns|
  {
    Books(b.txns + Rows(b, id, employee), Move(b.ledger, b.txns[id], employee))
  }

  // ---- Agreement ----

  lemma MoveEffect(l: Book, t: Txn, employee: nat, a: Account, v: View)
    requires t.period.Some?
    ensures LedgerTotal(Move(l, t, employee), a, v) == LedgerTotal(l, a, v)
              - (if t.employee.Some? && a == Account(t.employee.value, t.period.value) && Covers(v, Salary) then t.amount else 0)
              + (if a == Account(employee, t.period.value) && Covers(v, Salary) then t.amount else 0)
  {
    var debited := if t.employee.Some? then Post(l, t.employee.value, t.period.value, -t.amount, Salary) else l;
    if t.employee.Some? {
      PostEffect(l, t.employee.value, t.period.value, -t.amount, Salary, a, v);
    }
    PostEffect(debited, employee, t.period.value, t.amount, Salary, a, v);
  }

  lemma RowsEffect(b: Books, id: nat, employee: nat, a: Account, v: View)
    requires id < |b.txns|
    ensures Live(Repair(b, id, employee).txns, a, v) == Live(b.txns, a, v)
              + (if FreshReversal(b, id) then Contribution(Reversal(b.txns, id), a, v) else 0)
              + (if FreshReplacement(b, id, employee) then Contribution(Replacement(b.txns[id], employee), a, v) else 0)
  {
    var rev, rep := Reversal(b.txns, id), Replacement(b.txns[id], employee);
    var withRev := if FreshReversal(b, id) then b.txns + [rev] else b.txns;
    LiveSnoc(b.txns, rev, a, v);
    LiveSnoc(withRev, rep, a, v);
    assert Repair(b, id, employee).txns == if FreshReplacement(b, id, employee) then withRev + [rep] else withRev;
  }

  /** Whether a repair adds every row that its ledger movement stands for. */
  predicate RefsFresh(b: Books, id: nat, employee: nat)
    requires id < |b.txns|
  {
    b.txns[id].amount == 0 || ((b.txns[id].employee.None? || FreshReversal(b, id)) && FreshReplacement(b, id, employee))
  }

  /** How far a repair to another employee drives the ledger from the transactions. */
  lemma RepairDrift(b: Books, id: nat, employee: nat, a: Account, v: View)
    requires AgreesOn(b, v) && id < |b.txns| && b.txns[id].period.Some? && b.txns[id].employee != Some(employee)
    ensures var t, b' := b.txns[id], Repair(b, id, employee);
            LedgerTotal(b'.ledger, a, v) - Live(b'.txns, a, v) ==
            if a == Account(employee, t.period.value)
            then (if FreshReplacement(b, id, employee) || !Covers(v, Salary) then 0 else t.amount)
            else if t.employee == Some(a.employee) && t.period == Some(a.period)
            then (if FreshReversal(b, id) && Covers(v, t.category) then t.amount else 0) - (if Covers(v, Salary) then t.amount else 0)
            else 0
  {
    assert LedgerTotal(b.ledger, a, v) == Live(b.txns, a, v);
    MoveEffect(b.ledger, b.txns[id], employee, a, v);
    RowsEffect(b, id, employee, a, v);
  }

  /** A repair to another employee keeps ledger and transactions in agreement exactly when its references are fresh. */
  lemma RepairKeepsAgreementIff(b: Books, id: nat, employee: nat)
    requires Agrees(b) && id < |b.txns| && b.txns[id].period.Some? && b.txns[id].employee != Some(employee)
    ensures Agrees(Repair(b, id, employee)) <==> RefsFresh(b, id, employee)
  {
    RepairKeepsViewIff(b, id, employee, Both);
  }

  /** What a repair must find in view `v`: fresh references, and a payment booked in the column it is moved in. */
  predicate RepairFits(b: Books, id: nat, employee: nat, v: View)
    requires id < |b.txns|
  {
    var t := b.txns[id];
    || t.amount == 0
    || ((Covers(v, Salary) ==> FreshReplacement(b, id, employee))
        && (t.employee.None? || (Covers(v, Salary) <==> FreshReversal(b, id) && Covers(v, t.category))))
  }

  lemma RepairKeepsViewIff(b: Books, id: nat, employee: nat, v: View)
    requires AgreesOn(b, v) && id < |b.txns| && b.txns[id].period.Some? && b.txns[id].employee != Some(employee)
    ensures AgreesOn(Repair(b, id, employee), v) <==> RepairFits(b, id, employee, v)
  {
    var t := b.txns[id];
    var b' := Repair(b, id, employee);
    forall a
      ensures LedgerTotal(b'.ledger, a, v) == Live(b'.txns, a, v) <==>
              (if a == Account(employee, t.period.value) then t.amount == 0 || (Covers(v, Salary) ==> FreshReplacement(b, id, employee))
               else if t.employee == Some(a.employee) && t.period == Some(a.period)
               then t.amount == 0 || (Covers(v, Salary) <==> FreshReversal(b, id) && Covers(v, t.category))
               else true)
    {
      RepairDrift(b, id, employee, a, v);
    }
    var target := Account(employee, t.period.value);
    assert LedgerTotal(b'.ledger, target, v) == Live(b'.txns, target, v) <==>
           t.amount == 0 || (Covers(v, Salary) ==> FreshReplacement(b, id, employee));
    if t.employee.Some? {
      var source := Account(t.employee.value, t.period.value);
      assert LedgerTotal(b'.ledger, source, v) == Live(b'.txns, source, v) <==>
             t.amount == 0 || (Covers(v, Salary) <==> FreshReversal(b, id) && Covers(v, t.category));
    }
  }

  /**
   Column by column, the references must be fresh and the payment must not be an
   advance: its reversal keeps the category, but the ledger is debited as paid.
   */
  lemma RepairKeepsColumnsIff(b: Books, id: nat, employee: nat)
    requires ColumnsAgree(b) && id < |b.txns| && b.txns[id].period.Some? && b.txns[id].employee != Some(employee)
    ensures ColumnsAgree(Repair(b, id, employee)) <==>
            RefsFresh(b, id, employee)
            && (b.txns[id].amount == 0 || b.txns[id].employee.None? || !b.txns[id].category.Advance?)
  {
    RepairKeepsViewIff(b, id, employee, Paid);
    RepairKeepsViewIff(b, id, employee, Advanced);
  }

  /**
   What a repair with fresh references records: the payment's mirror image, naming
   it, and the same payment for the new employee as salary, both live and in the
   payment's period, after all rows there were.
   */
  lemma RepairRecords(b: Books, id: nat, employee: nat)
    requires id < |b.txns| && FreshReversal(b, id) && FreshReplacement(b, id, employee)
    ensures var t, txns := b.txns[id], Repair(b, id, employee).txns;
            && |txns| == |b.txns| + 2 && txns[..|b.txns|] == b.txns
            && var rev, rep := txns[|b.txns|], txns[|b.txns| + 1];
               && rev.ref == Reverse(t.ref) && rev.amount == -t.amount && rev.employee == t.employee && rev.period == t.period
               && rev.date == t.date && rev.category == t.category && rev.message == t.message && rev.reversalOf == Some(id)
               && rep.ref == Corrected(t.message, employee, t.amount) && rep.amount == t.amount && rep.employee == Some(employee)
               && rep.period == t.period && rep.date == t.date && rep.category == Salary && rep.message == t.message
               && rep.reversalOf.None? && !rev.deleted && !rep.deleted
  {}

  // ---- Requests and repairs together ----

  datatype Event = Edited(request: Request) | Repaired(id: nat, employee: nat)

  function StepBoth(b: Books, e: Event): Books {
    match e
    case Edited(r) => Ledger.Step(b, r)
    case Repaired(id, employee) =>
      if id < |b.txns| && b.txns[id].employee != Some(employee) then Repair(b, id, employee) else b
  }

  function RunBoth(b: Books, es: seq<Event>): Books
    decreases |es|
  {
    if es == [] then b else RunBoth(StepBoth(b, es[0]), es[1..])
  }

  /** What a caller can check before the step: no accepted edit dates an undated row, and a dated repair finds fresh references. */
  predicate Harmless(b: Books, e: Event) {
    match e
    case Edited(r) => !(r.Edit? && Accepted(b, r) && DatesAnUndatedRow(b.txns[r.id], r))
    case Repaired(id, employee) =>
      id < |b.txns| && b.txns[id].employee != Some(employee) && b.txns[id].period.Some? ==> RefsFresh(b, id, employee)
  }

  /** The same for the ledger column by column. */
  predicate HarmlessByColumn(b: Books, e: Event) {
    && Harmless(b, e)
    && match e
       case Edited(r) => !(r.Edit? && Accepted(b, r) && OnlySwitchesColumn(b.txns[r.id], r))
       case Repaired(id, employee) =>
         id < |b.txns| && b.txns[id].employee != Some(employee) && b.txns[id].period.Some? ==>
           b.txns[id].amount == 0 || b.txns[id].employee.None? || !b.txns[id].category.Advance?
  }

  /** A repair of an undated payment moves nothing and adds rows that no account counts. */
  lemma UndatedRepairKeepsView(b: Books, id: nat, employee: nat, v: View)
    requires AgreesOn(b, v) && id < |b.txns| && b.txns[id].period.None?
    ensures AgreesOn(Repair(b, id, employee), v)
  {
    var b' := Repair(b, id, employee);
    forall a ensures LedgerTotal(b'.ledger, a, v) == Live(b'.txns, a, v) {
      assert LedgerTotal(b.ledger, a, v) == Live(b.txns, a, v);
      RowsEffect(b, id, employee, a, v);
    }
  }

  /** From books in agreement, dated or not, a step keeps it exactly when it is harmless. */
  lemma StepKeepsAgreementIff(b: Books, e: Event)
    requires Agrees(b)
    ensures Agrees(StepBoth(b, e)) <==> Harmless(b, e)
  {
    match e
    case Edited(r) => RequestKeepsAgreementIff(b, r);
    case Repaired(id, employee) =>
      if id < |b.txns| && b.txns[id].employee != Some(employee) {
        if b.txns[id].period.Some? {
          RepairKeepsAgreementIff(b, id, employee);
        } else {
          UndatedRepairKeepsView(b, id, employee, Both);
        }
      }
  }

  lemma StepKeepsColumnsIff(b: Books, e: Event)
    requires ColumnsAgree(b)
    ensures ColumnsAgree(StepBoth(b, e)) <==> HarmlessByColumn(b, e)
  {
    match e
    case Edited(r) => RequestKeepsColumnsIff(b, r);
    case Repaired(id, employee) =>
      if id < |b.txns| && b.txns[id].employee != Some(employee) {
        if b.txns[id].period.Some? {
          RepairKeepsColumnsIff(b, id, employee);
        } else {
          UndatedRepairKeepsView(b, id, employee, Paid);
          UndatedRepairKeepsView(b, id, employee, Advanced);
        }
      }
  }

  predicate HarmlessRun(b: Books, es: seq<Event>)
    decreases |es|
  {
    es == [] || (Harmless(b, es[0]) && HarmlessRun(StepBoth(b, es[0]), es[1..]))
  }

  ghost predicate AgreesThroughout(b: Books, es: seq<Event>)
    decreases |es|
  {
    Agrees(b) && (es == [] || AgreesThroughout(StepBoth(b, es[0]), es[1..]))
  }

  /**
   Over every run of add, edit, soft-delete and repair, the ledger total of each
   employee and period equals the sum of the live transactions at every moment,
   exactly when every step of the run is harmless.
   */
  lemma {:induction false} LedgerAlwaysAgreesIff(b: Books, es: seq<Event>)
    requires Agrees(b)
    ensures AgreesThroughout(b, es) <==> HarmlessRun(b, es)
    decreases |es|
  {
    if es != [] {
      StepKeepsAgreementIff(b, es[0]);
      if Harmless(b, es[0]) {
        LedgerAlwaysAgreesIff(StepBoth(b, es[0]), es[1..]);
      }
    }
  }

  /** In particular the books agree at its end. */
  lemma {:induction false} LedgerAlwaysAgrees(b: Books, es: seq<Event>)
    requires Agrees(b) && HarmlessRun(b, es)
    ensures Agrees(RunBoth(b, es))
    decreases |es|
  {
    if es != [] {
      StepKeepsAgreementIff(b, es[0]);
      LedgerAlwaysAgrees(StepBoth(b, es[0]), es[1..]);
    }
  }

  predicate HarmlessRunByColumn(b: Books, es: seq<Event>)
    decreases |es|
  {
    es == [] || (HarmlessByColumn(b, es[0]) && HarmlessRunByColumn(StepBoth(b, es[0]), es[1..]))
  }

  ghost predicate ColumnsAgreeThroughout(b: Books, es: seq<Event>)
    decreases |es|
  {
    ColumnsAgree(b) && (es == [] || ColumnsAgreeThroughout(StepBoth(b, es[0]), es[1..]))
  }

  /** The run theorem column by column. */
  lemma {:induction false} ColumnsAlwaysAgreeIff(b: Books, es: seq<Event>)
    requires ColumnsAgree(b)
    ensures ColumnsAgreeThroughout(b, es) <==> HarmlessRunByColumn(b, es)
    decreases |es|
  {
    if es != [] {
      StepKeepsColumnsIff(b, es[0]);
      if HarmlessByColumn(b, es[0]) {
        ColumnsAlwaysAgreeIff(StepBoth(b, es[0]), es[1..]);
      }
    }
  }

  // ---- What a batch of repairs does to the money ----

  function Total(txns: seq<Txn>): int {
    if txns == [] then 0 else Total(txns[..|txns| - 1]) + txns[|txns| - 1].amount
  }

  lemma TotalSnoc(txns: seq<Txn>, t: Txn)
    ensures Total(txns + [t]) == Total(txns) + t.amount
  {
    assert (txns + [t])[..|txns|] == txns;
  }

  datatype Fix = Fix(id: nat, employee: nat)

  function RepairAll(b: Books, fixes: seq<Fix>): Books
    requires forall i :: 0 <= i < |fixes| ==> fixes[i].id < |b.txns|
    decreases |fixes|
  {
    if fixes == [] then b else RepairAll(Repair(b, fixes[0].id, fixes[0].employee), fixes[1..])
  }

  /** Each fix moves its payment to another employee, and finds both its references unused. */
  predicate FreshBatch(b: Books, fixes: seq<Fix>)
    requires forall i :: 0 <= i < |fixes| ==> fixes[i].id < |b.txns|
    decreases |fixes|
  {
    fixes == [] ||
    (var f := fixes[0];
     FreshReversal(b, f.id) && FreshReplacement(b, f.id, f.employee) && b.txns[f.id].employee != Some(f.employee)
     && FreshBatch(Repair(b, f.id, f.employee), fixes[1..]))
  }

  /** What the fixes are meant to move into account `a`, read off the original rows. */
  function Shift(txns: seq<Txn>, fixes: seq<Fix>, a: Account): int
    requires forall i :: 0 <= i < |fixes| ==> fixes[i].id < |txns|
  {
    if fixes == [] then 0
    else
      var t := txns[fixes[0].id];
      (if t.period == Some(a.period) && a.employee == fixes[0].employee then t.amount else 0)
      - (if t.period == Some(a.period) && t.employee == Some(a.employee) then t.amount else 0)
      + Shift(txns, fixes[1..], a)
  }

  lemma {:induction false} ShiftOnPrefix(txns: seq<Txn>, more: seq<Txn>, fixes: seq<Fix>, a: Account)
    requires forall i :: 0 <= i < |fixes| ==> fixes[i].id < |txns|
    ensures Shift(txns + more, fixes, a) == Shift(txns, fixes, a)
  {
    if fixes != [] {
      ShiftOnPrefix(txns, more, fixes[1..], a);
    }
  }

  lemma RepairMoney(b: Books, id: nat, employee: nat)
    requires id < |b.txns| && FreshReversal(b, id) && FreshReplacement(b, id, employee)
    ensures Total(Repair(b, id, employee).txns) == Total(b.txns)
  {
    var rev, rep := Reversal(b.txns, id), Replacement(b.txns[id], employee);
    TotalSnoc(b.txns, rev);
    TotalSnoc(b.txns + [rev], rep);
    assert Repair(b, id, employee).txns == b.txns + [rev] + [rep];
  }

  /**
   A fresh-reference batch only appends rows, leaves the total of all amounts as it
   was, and moves exactly the repaired payments from their old accounts to the new.
   */
  lemma {:induction false} BatchConservesMoney(b: Books, fixes: seq<Fix>, a: Account)
    requires forall i :: 0 <= i < |fixes| ==> fixes[i].id < |b.txns|
    requires FreshBatch(b, fixes)
    ensures b.txns <= RepairAll(b, fixes).txns
    ensures Total(RepairAll(b, fixes).txns) == Total(b.txns)
    ensures Live(RepairAll(b, fixes).txns, a, Both) == Live(b.txns, a, Both) + Shift(b.txns, fixes, a)
    decreases |fixes|
  {
    if fixes != [] {
      var f := fixes[0];
      var b' := Repair(b, f.id, f.employee);
      RepairMoney(b, f.id, f.employee);
      RowsEffect(b, f.id, f.employee, a, Both);
      BatchConservesMoney(b', fixes[1..], a);
      ShiftOnPrefix(b.txns, Rows(b, f.id, f.employee), fixes[1..], a);
    }
  }

  /**
   The wrong payment and its reversal net to zero for the old employee, and the new
   row carries the amount, exactly when the payment was live: the scan does not
   skip soft-deleted rows, and repairing one leaves the old employee owing it.
   */
  lemma PaymentNetsOutIffLive(b: Books, id: nat, employee: nat)
    requires id < |b.txns| && b.txns[id].employee.Some? && b.txns[id].period.Some? && b.txns[id].amount != 0
    ensures var t := b.txns[id];
            var was, now := Account(t.employee.value, t.period.value), Account(employee, t.period.value);
            && (Contribution(t, was, Both) + Contribution(Reversal(b.txns, id), was, Both) == 0 <==> !t.deleted)
            && (t.deleted ==> Contribution(Reversal(b.txns, id), was, Both) == -t.amount)
            && Contribution(Replacement(t, employee), now, Both) == t.amount
  {}

  // ---- Freshness in the first state is enough ----

  /** Both references of the fix are unused, and it moves its payment to another employee. */
  predicate FreshFix(b: Books, f: Fix) {
    f.id < |b.txns| && FreshReversal(b, f.id) && FreshReplacement(b, f.id, f.employee) && b.txns[f.id].employee != Some(f.employee)
  }

  /** Two fixes repair different references, and correct to different (message, employee, amount) keys. */
  predicate Apart(b: Books, f: Fix, g: Fix)
    requires f.id < |b.txns| && g.id < |b.txns|
  {
    && b.txns[f.id].ref != b.txns[g.id].ref
    && Replacement(b.txns[f.id], f.employee).ref != Replacement(b.txns[g.id], g.employee).ref
  }

  /** txn_ref is UNIQUE, so fixes of distinct transactions repair different references. */
  ghost predicate UniqueRefs(txns: seq<Txn>) {
    forall i, j :: 0 <= i < j < |txns| ==> txns[i].ref != txns[j].ref
  }

  lemma StaysFresh(b: Books, f: Fix, g: Fix)
    requires FreshFix(b, f) && FreshFix(b, g) && Apart(b, f, g)
    ensures FreshFix(Repair(b, f.id, f.employee), g)
  {
    var b' := Repair(b, f.id, f.employee);
    assert b'.txns == b.txns + [Reversal(b.txns, f.id), Replacement(b.txns[f.id], f.employee)];
  }

  lemma {:induction false} FreshAtFirstIsEnough(b: Books, fixes: seq<Fix>)
    requires forall i :: 0 <= i < |fixes| ==> fixes[i].id < |b.txns| && FreshFix(b, fixes[i])
    requires forall i, j :: 0 <= i < j < |fixes| ==> Apart(b, fixes[i], fixes[j])
    ensures FreshBatch(b, fixes)
    decreases |fixes|
  {
    if fixes != [] {
      var b' := Repair(b, fixes[0].id, fixes[0].employee);
      forall i | 0 <= i < |fixes[1..]| ensures FreshFix(b', fixes[1..][i]) {
        StaysFresh(b, fixes[0], fixes[i + 1]);
      }
      assert b.txns <= b'.txns;
      forall i, j | 0 <= i < j < |fixes[1..]| ensures Apart(b', fixes[1..][i], fixes[1..][j]) {
        assert Apart(b, fixes[i + 1], fixes[j + 1]);
      }
      FreshAtFirstIsEnough(b', fixes[1..]);
    }
  }

  /** A batch whose references are fresh when it starts, on distinct transactions and correction keys, conserves money. */
  lemma DistinctBatchConservesMoney(b: Books, fixes: seq<Fix>, a: Account)
    requires UniqueRefs(b.txns) && forall i :: 0 <= i < |fixes| ==> fixes[i].id < |b.txns| && FreshFix(b, fixes[i])
    requires forall i, j :: 0 <= i < j < |fixes| ==>
               fixes[i].id != fixes[j].id
               && Replacement(b.txns[fixes[i].id], fixes[i].employee).ref != Replacement(b.txns[fixes[j].id], fixes[j].employee).ref
    ensures var b' := RepairAll(b, fixes);
            && b.txns <= b'.txns && Total(b'.txns) == Total(b.txns)
            && Live(b'.txns, a, Both) == Live(b.txns, a, Both) + Shift(b.txns, fixes, a)
  {
    FreshAtFirstIsEnough(b, fixes);
    BatchConservesMoney(b, fixes, a);
  }

  // ---- At most one applied repair per transaction ----

  /** An audit row of fpe_transaction_repairs; dry runs are rolled back and leave none. */
  datatype Audit = Audit(txn: nat, reviewNeeded: bool, applied: bool)

  datatype Shop = Shop(books: Books, audits: seq<Audit>)

  /** A transaction fetched for repair, with its match and, from the console, the review row it resolves. */
  datatype Item = Item(id: nat, found: Match, resolves: Option<nat>)

  predicate Settled(audits: seq<Audit>, id: nat) {
    exists i :: 0 <= i < |audits| && audits[i].txn == id && !audits[i].reviewNeeded
  }

  /** The scan's WHERE clause. */
  predicate Scannable(s: Shop, id: nat) {
    && id < |s.books.txns| && s.books.txns[id].reversalOf.None?
    && (forall i :: 0 <= i < |s.books.txns| ==> s.books.txns[i].reversalOf != Some(id))
    && !Settled(s.audits, id)
  }

  /** The console's WHERE clause, for the review row at position `k`. */
  predicate Reviewable(s: Shop, k: nat) {
    k < |s.audits| && s.audits[k].reviewNeeded && s.audits[k].txn < |s.books.txns| && !Settled(s.audits, s.audits[k].txn)
  }

  predicate Fetched(s: Shop, i: Item) {
    if i.resolves.None? then Scannable(s, i.id)
    else Reviewable(s, i.resolves.value) && s.audits[i.resolves.value].txn == i.id
  }

  /** The item makes _apply_repair reverse and re-insert, rather than file a review or skip. */
  predicate Acts(txns: seq<Txn>, i: Item) {
    i.id < |txns| && i.found.Strong? && txns[i.id].employee != Some(i.found.employee)
  }

  function Resolve(audits: seq<Audit>, k: Option<nat>): seq<Audit> {
    if k.Some? && k.value < |audits| then audits[k.value := audits[k.value].(reviewNeeded := false)] else audits
  }

  function Apply(s: Shop, i: Item): Shop {
    if i.id >= |s.books.txns| then s
    else if i.found.Weak? then s.(audits := s.audits + [Audit(i.id, true, false)])
    else if !Acts(s.books.txns, i) then s.(audits := Resolve(s.audits, i.resolves))
    else Shop(Repair(s.books, i.id, i.found.employee), Resolve(s.audits, i.resolves) + [Audit(i.id, false, true)])
  }

  function ApplyList(s: Shop, items: seq<Item>): Shop
    decreases |items|
  {
    if items == [] then s else ApplyList(Apply(s, items[0]), items[1..])
  }

  /** The fixes that a list's acting items carry out. */
  function Fixes(txns: seq<Txn>, items: seq<Item>): (fixes: seq<Fix>)
    ensures forall i :: 0 <= i < |fixes| ==> fixes[i].id < |txns|
  {
    if items == [] then []
    else (if Acts(txns, items[0]) then [Fix(items[0].id, items[0].found.employee)] else []) + Fixes(txns, items[1..])
  }

  lemma {:induction false} FixesOnPrefix(txns: seq<Txn>, more: seq<Txn>, items: seq<Item>)
    requires forall i :: 0 <= i < |items| ==> items[i].id < |txns|
    ensures Fixes(txns + more, items) == Fixes(txns, items)
  {
    if items != [] {
      FixesOnPrefix(txns, more, items[1..]);
    }
  }

  /** The tool's loop does to the books what repairing its acting items one after another does. */
  lemma {:induction false} ApplyListRepairsAll(s: Shop, items: seq<Item>)
    requires forall i :: 0 <= i < |items| ==> items[i].id < |s.books.txns|
    ensures ApplyList(s, items).books == RepairAll(s.books, Fixes(s.books.txns, items))
    decreases |items|
  {
    if items != [] {
      var txns, s' := s.books.txns, Apply(s, items[0]);
      var more := if Acts(txns, items[0]) then Rows(s.books, items[0].id, items[0].found.employee) else [];
      assert s'.books.txns == txns + more;
      FixesOnPrefix(txns, more, items[1..]);
      ApplyListRepairsAll(s', items[1..]);
      var rest := Fixes(txns, items[1..]);
      if Acts(txns, items[0]) {
        assert Fixes(txns, items)[1..] == rest;
      } else {
        assert Fixes(txns, items) == rest;
      }
    }
  }

  function Applied(audits: seq<Audit>, id: nat): nat {
    if audits == [] then 0
    else Applied(audits[..|audits| - 1], id)
         + (if audits[|audits| - 1].applied && audits[|audits| - 1].txn == id then 1 else 0)
  }

  /** How many items of a list act on transaction `id`. */
  function Acting(txns: seq<Txn>, items: seq<Item>, id: nat): nat {
    if items == [] then 0 else (if items[0].id == id && Acts(txns, items[0]) then 1 else 0) + Acting(txns, items[1..], id)
  }

  lemma AppliedSnoc(audits: seq<Audit>, x: Audit, id: nat)
    ensures Applied(audits + [x], id) == Applied(audits, id) + (if x.applied && x.txn == id then 1 else 0)
  {
    assert (audits + [x])[..|audits|] == audits;
  }

  lemma {:induction false} AppliedResolve(audits: seq<Audit>, k: Option<nat>, id: nat)
    ensures Applied(Resolve(audits, k), id) == Applied(audits, id)
  {
    if k.Some? && k.value < |audits| {
      var n := |audits| - 1;
      var r := Resolve(audits, k);
      if k.value == n {
        assert r[..n] == audits[..n];
      } else {
        assert r[..n] == Resolve(audits[..n], k);
        AppliedResolve(audits[..n], k, id);
      }
    }
  }

  lemma {:induction false} ActingOnPrefix(txns: seq<Txn>, more: seq<Txn>, items: seq<Item>, id: nat)
    requires forall i :: 0 <= i < |items| ==> items[i].id < |txns|
    ensures Acting(txns + more, items, id) == Acting(txns, items, id)
  {
    if items != [] {
      ActingOnPrefix(txns, more, items[1..], id);
    }
  }

  /** A list of fetched items is applied item by item; the guards are not asked again in between. */
  lemma {:induction false} ApplyListCounts(s: Shop, items: seq<Item>, id: nat)
    requires forall i :: 0 <= i < |items| ==> items[i].id < |s.books.txns|
    ensures Applied(ApplyList(s, items).audits, id) == Applied(s.audits, id) + Acting(s.books.txns, items, id)
    decreases |items|
  {
    if items != [] {
      var i := items[0];
      var s' := Apply(s, i);
      AppliedResolve(s.audits, i.resolves, id);
      AppliedSnoc(Resolve(s.audits, i.resolves), Audit(i.id, false, true), id);
      AppliedSnoc(s.audits, Audit(i.id, true, false), id);
      assert s'.books.txns == s.books.txns + s'.books.txns[|s.books.txns|..];
      ActingOnPrefix(s.books.txns, s'.books.txns[|s.books.txns|..], items[1..], id);
      ApplyListCounts(s', items[1..], id);
    }
  }

  /** No transaction has two applied repairs, and one with an applied repair is settled. */
  ghost predicate OnceEach(s: Shop) {
    forall id: nat :: Applied(s.audits, id) <= 1
  }

  lemma {:induction false} AppliedIsSettled(audits: seq<Audit>, id: nat)
    requires forall i :: 0 <= i < |audits| && audits[i].applied ==> !audits[i].reviewNeeded
    requires Applied(audits, id) > 0
    ensures Settled(audits, id)
  {
    var n := |audits| - 1;
    if audits[n].applied && audits[n].txn == id {
      assert audits[n].txn == id && !audits[n].reviewNeeded;
    } else {
      AppliedIsSettled(audits[..n], id);
      var i :| 0 <= i < n && audits[..n][i].txn == id && !audits[..n][i].reviewNeeded;
      assert audits[i].txn == id && !audits[i].reviewNeeded;
    }
  }

  ghost predicate AppliedResolved(s: Shop) {
    forall i :: 0 <= i < |s.audits| && s.audits[i].applied ==> !s.audits[i].reviewNeeded
  }

  /** The list repairs no transaction twice. */
  ghost predicate NoRepeats(s: Shop, items: seq<Item>) {
    forall id: nat :: Acting(s.books.txns, items, id) <= 1
  }

  /**
   The scan and review guards leave at most one applied repair per transaction
   exactly when no fetched list acts on one transaction twice.
   */
  lemma GuardsAllowOneRepairIff(s: Shop, items: seq<Item>)
    requires OnceEach(s) && AppliedResolved(s) && forall i :: 0 <= i < |items| ==> Fetched(s, items[i])
    ensures OnceEach(ApplyList(s, items)) <==> NoRepeats(s, items)
  {
    forall id: nat
      ensures Applied(ApplyList(s, items).audits, id) <= 1 <==> Acting(s.books.txns, items, id) <= 1
    {
      ApplyListCounts(s, items, id);
      if Acting(s.books.txns, items, id) > 0 {
        ActingItem(s.books.txns, items, id);
        if Applied(s.audits, id) > 0 {
          AppliedIsSettled(s.audits, id);
        }
      }
    }
  }

  lemma {:induction false} ActingItem(txns: seq<Txn>, items: seq<Item>, id: nat)
    requires Acting(txns, items, id) > 0
    ensures exists i :: 0 <= i < |items| && items[i].id == id
  {
    if items[0].id != id {
      ActingItem(txns, items[1..], id);
      var i :| 0 <= i < |items[1..]| && items[1..][i].id == id;
      assert items[i + 1].id == id;
    }
  }

  lemma {:induction false} AppliedResolvedKept(s: Shop, items: seq<Item>)
    requires AppliedResolved(s)
    ensures AppliedResolved(ApplyList(s, items))
    decreases |items|
  {
    if items != [] {
      AppliedResolvedKept(Apply(s, items[0]), items[1..]);
    }
  }

  /** Every sequence of scans and review sessions, each list fetched under the guards as they then stand. */
  ghost predicate FetchedSessions(s: Shop, sessions: seq<seq<Item>>)
    decreases |sessions|
  {
    sessions == [] ||
    ((forall i :: 0 <= i < |sessions[0]| ==> Fetched(s, sessions[0][i]))
     && FetchedSessions(ApplyList(s, sessions[0]), sessions[1..]))
  }

  /** No list of the sequence repairs a transaction twice. */
  ghost predicate NeverRepeats(s: Shop, sessions: seq<seq<Item>>)
    decreases |sessions|
  {
    sessions == [] || (NoRepeats(s, sessions[0]) && NeverRepeats(ApplyList(s, sessions[0]), sessions[1..]))
  }

  ghost predicate OnceThroughout(s: Shop, sessions: seq<seq<Item>>)
    decreases |sessions|
  {
    OnceEach(s) && (sessions == [] || OnceThroughout(ApplyList(s, sessions[0]), sessions[1..]))
  }

  function RunSessions(s: Shop, sessions: seq<seq<Item>>): Shop
    decreases |sessions|
  {
    if sessions == [] then s else RunSessions(ApplyList(s, sessions[0]), sessions[1..])
  }

  /**
   Over every sequence of guarded scans and review sessions, no transaction ever has
   two applied repairs exactly when no fetched list acts on one twice; and then none
   has at the end.
   */
  lemma {:induction false} OneRepairPerTransaction(s: Shop, sessions: seq<seq<Item>>)
    requires OnceEach(s) && AppliedResolved(s) && FetchedSessions(s, sessions)
    ensures OnceThroughout(s, sessions) <==> NeverRepeats(s, sessions)
    ensures NeverRepeats(s, sessions) ==> OnceEach(RunSessions(s, sessions))
    decreases |sessions|
  {
    if sessions != [] {
      GuardsAllowOneRepairIff(s, sessions[0]);
      AppliedResolvedKept(s, sessions[0]);
      if NoRepeats(s, sessions[0]) {
        OneRepairPerTransaction(ApplyList(s, sessions[0]), sessions[1..]);
      }
    }
  }

  /** Once a fetched item has been acted on, or its review confirmed, no scan and no review session fetches the transaction again. */
  lemma AppliedIsNotFetched(s: Shop, i: Item, j: Item)
    requires Fetched(s, i) && i.found.Strong? && (Acts(s.books.txns, i) || i.resolves.Some?) && j.id == i.id
    ensures !Fetched(Apply(s, i), j)
    ensures Applied(Apply(s, i).audits, i.id) == Applied(s.audits, i.id) + if Acts(s.books.txns, i) then 1 else 0
  {
    var audits := Apply(s, i).audits;
    if Acts(s.books.txns, i) {
      assert audits[|audits| - 1] == Audit(i.id, false, true);
      AppliedResolve(s.audits, i.resolves, i.id);
      AppliedSnoc(Resolve(s.audits, i.resolves), Audit(i.id, false, true), i.id);
    } else {
      assert audits[i.resolves.value].txn == i.id && !audits[i.resolves.value].reviewNeeded;
      AppliedResolve(s.audits, i.resolves, i.id);
    }
  }

  /** Reversals and audit rows speak of transactions there are. */
  ghost predicate Grounded(s: Shop) {
    && (forall i :: 0 <= i < |s.books.txns| && s.books.txns[i].reversalOf.Some? ==> s.books.txns[i].reversalOf.value < |s.books.txns|)
    && (forall k :: 0 <= k < |s.audits| ==> s.audits[k].txn < |s.books.txns|)
  }

  /** A payment just added is scanned, and its references are known from then on; a transaction there is not is never touched. */
  lemma NewPaymentIsScanned(s: Shop, ref: Ref, employee: nat, amount: int, date: Date, category: Category, i: Item)
    requires Grounded(s) && amount > 0 && i.id >= |s.books.txns|
    ensures var s' := s.(books := Ledger.Step(s.books, Add(ref, employee, amount, date, category)));
            Scannable(s', |s.books.txns|) && HasRef(s'.books.txns, ref) && Grounded(s')
    ensures Apply(s, i) == s
    ensures forall k :: 0 <= k < |s.books.txns| ==> HasRef(s.books.txns, s.books.txns[k].ref)
  {
    var s' := s.(books := Ledger.Step(s.books, Add(ref, employee, amount, date, category)));
    assert s'.books.txns[|s.books.txns|].ref == ref;
  }

  /** A payment that some row, whichever it is, reverses is not scanned. */
  lemma AnyReversalStopsTheScan(s: Shop, id: nat, k: nat)
    requires k < |s.books.txns| && s.books.txns[k].reversalOf == Some(id)
    ensures !Scannable(s, id) && !Scannable(s, k)
  {}

  /** A repair's reversal row is never scanned, and neither is the payment it reverses. */
  lemma ReversedIsNotScanned(s: Shop, i: Item)
    requires i.id < |s.books.txns| && Acts(s.books.txns, i) && FreshReversal(s.books, i.id)
    ensures !Scannable(Apply(s, i), i.id) && !Scannable(Apply(s, i), |s.books.txns|)
  {
    assert Apply(s, i).books.txns[|s.books.txns|].reversalOf == Some(i.id);
  }

  /** Acting twice on one payment reuses the rows but moves the ledger again. */
  lemma RepeatedRepairBreaksLedger(b: Books, id: nat, employee: nat)
    requires Agrees(b) && id < |b.txns| && b.txns[id].period.Some? && b.txns[id].employee != Some(employee)
    requires b.txns[id].amount != 0 && RefsFresh(b, id, employee)
    ensures Agrees(Repair(b, id, employee)) && !Agrees(Repair(Repair(b, id, employee), id, employee))
  {
    RepairKeepsAgreementIff(b, id, employee);
    var b' := Repair(b, id, employee);
    assert b'.txns[id] == b.txns[id];
    var rep := Replacement(b.txns[id], employee);
    assert rep in Rows(b, id, employee);
    var k :| 0 <= k < |Rows(b, id, employee)| && Rows(b, id, employee)[k] == rep;
    assert b'.txns[|b.txns| + k].ref == rep.ref;
    RepairKeepsAgreementIff(b', id, employee);
  }

  /**
   The repeating list is one the code fetches. The scan skips only transactions with
   a resolved audit row, and nothing makes review rows unique, so two scans with a
   weak match file two reviews of one payment; the console fetches both, and
   confirming both repairs the payment twice and leaves the ledger wrong.
   */
  lemma TwoReviewsRepairTwice(s: Shop, id: nat, weak: Match, employee: nat)
    requires Scannable(s, id) && weak.Weak? && OnceEach(s) && AppliedResolved(s)
    requires Agrees(s.books) && RefsFresh(s.books, id, employee)
    requires s.books.txns[id].period.Some? && s.books.txns[id].amount != 0 && s.books.txns[id].employee != Some(employee)
    ensures var scan := [Item(id, weak, None)];
            var n := |s.audits|;
            var review := [Item(id, Strong(employee, Manual), Some(n)), Item(id, Strong(employee, Manual), Some(n + 1))];
            var s1 := ApplyList(s, scan);
            var s2 := ApplyList(s1, scan);
            var s3 := ApplyList(s2, review);
            && Fetched(s, scan[0]) && Fetched(s1, scan[0]) && Fetched(s2, review[0]) && Fetched(s2, review[1])
            && Applied(s3.audits, id) == 2 && !Agrees(s3.books)
  {
    var weakItem := Item(id, weak, None);
    var n := |s.audits|;
    var review := [Item(id, Strong(employee, Manual), Some(n)), Item(id, Strong(employee, Manual), Some(n + 1))];
    var s1 := Apply(s, weakItem);
    OneItem(s, weakItem);
    FiledReviewSettlesNothing(s, id);
    var s2 := Apply(s1, weakItem);
    OneItem(s1, weakItem);
    FiledReviewSettlesNothing(s1, id);
    assert s2.audits[n] == s2.audits[n + 1] == Audit(id, true, false) && s2.books == s.books;
    NeverApplied(s, id);
    ApplyListCounts(s2, review, id);
    assert Acts(s.books.txns, review[0]) && Acts(s.books.txns, review[1]) && review[1..] == [review[1]];
    assert Acting(s.books.txns, [review[1]], id) == 1;
    TwoItems(s2, review);
    RepeatedRepairBreaksLedger(s.books, id, employee);
  }

  lemma OneItem(s: Shop, i: Item)
    ensures ApplyList(s, [i]) == Apply(s, i)
  {
    assert [i][1..] == [];
  }

  lemma TwoItems(s: Shop, items: seq<Item>)
    requires |items| == 2
    ensures ApplyList(s, items) == Apply(Apply(s, items[0]), items[1])
  {
    assert items[1..] == [items[1]];
    OneItem(Apply(s, items[0]), items[1]);
  }

  lemma FiledReviewSettlesNothing(s: Shop, id: nat)
    ensures var s' := s.(audits := s.audits + [Audit(id, true, false)]);
            (Settled(s'.audits, id) <==> Settled(s.audits, id)) && Applied(s'.audits, id) == Applied(s.audits, id)
  {
    AppliedSnoc(s.audits, Audit(id, true, false), id);
    var audits' := s.audits + [Audit(id, true, false)];
    if Settled(s.audits, id) {
      var i :| 0 <= i < |s.audits| && s.audits[i].txn == id && !s.audits[i].reviewNeeded;
      assert audits'[i] == s.audits[i];
    }
  }

  lemma NeverApplied(s: Shop, id: nat)
    requires AppliedResolved(s) && !Settled(s.audits, id)
    ensures Applied(s.audits, id) == 0
  {
    if Applied(s.audits, id) > 0 {
      AppliedIsSettled(s.audits, id);
    }
  }

  /** Acting on a weak match touches neither transactions nor ledger. */
  lemma WeakMatchOnlyFilesAReview(s: Shop, d: Directory, id: nat, phone: Option<Phone>, name: Option<Name>)
    requires FindCorrectEmployee(d, phone, name).how == FuzzyName || phone.None?
    ensures var i := Item(id, FindCorrectEmployee(d, phone, name), None);
            Apply(s, i).books == s.books && Applied(Apply(s, i).audits, id) == Applied(s.audits, id)
  {
    StrongMeansPhone(d, phone, name);
    AppliedSnoc(s.audits, Audit(id, true, false), id);
  }

  // ---- The tool as an object ----

  class RepairTool {
    var books: Books
    var audits: seq<Audit>

    constructor (books: Books)
      ensures this.books == books && audits == []
    {
      this.books, audits := books, [];
    }

    function Value(): Shop
      reads this
    {
      Shop(books, audits)
    }

    /** _apply_repair, and the console's resolution of the review row in the same database transaction. */
    method ApplyRepair(i: Item)
      modifies this
      ensures Value() == Apply(old(Value()), i)
    {
      if i.id >= |books.txns| {
        return;
      }
      var t := books.txns[i.id];
      if i.found.Weak? {
        audits := audits + [Audit(i.id, true, false)];
        return;
      }
      audits := Resolve(audits, i.resolves);
      if t.employee == Some(i.found.employee) {
        return;
      }
      var employee := i.found.employee;
      var txns, ledger := books.txns, books.ledger;
      if !HasRef(txns, Reverse(t.ref)) {
        txns := txns + [Reversal(books.txns, i.id)];
      }
      if !HasRef(books.txns, Corrected(t.message, employee, t.amount)) {
        txns := txns + [Replacement(t, employee)];
      }
      if t.period.Some? {
        if t.employee.Some? {
          ledger := Post(ledger, t.employee.value, t.period.value, -t.amount, Salary);
        }
        ledger := Post(ledger, employee, t.period.value, t.amount, Salary);
      }
      assert txns == books.txns + Rows(books, i.id, employee);
      books := Books(txns, ledger);
      audits := audits + [Audit(i.id, false, true)];
    }

    /** main's apply loop, or a review session, over the items fetched at its start. */
    method ApplyAll(items: seq<Item>)
      modifies this
      ensures Value() == ApplyList(old(Value()), items)
    {
      ghost var end := ApplyList(Value(), items);
      assert items[0..] == items;
      for k := 0 to |items|
        invariant ApplyList(Value(), items[k..]) == end
      {
        assert items[k..][1..] == items[k + 1..];
        ApplyRepair(items[k]);
      }
    }
  }
}
