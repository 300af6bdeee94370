/**
 Cash transactions and the employee ledger kept beside them
 (modules/admin_transactions, with the ledger columns of
 modules/fazle_payroll_engine/accounting.py). Money is integral.
 */
module Ledger {
  import opened Prelude

  datatype Category = Salary | Advance | Bonus | Deduction | Other

  datatype Date = Date(year: int, month: int, day: int)
  datatype Period = Period(year: int, month: int)

  function PeriodOf(d: Date): Period { Period(d.year, d.month) }

  /** Transaction references: an ordinary one, the reversal of another, or a repair's corrected row. */
  datatype Ref = Given(n: nat) | Reverse(of: Ref) | Corrected(message: Option<int>, employee: nat, amount: int)

  datatype Txn = Txn(ref: Ref, message: Option<int>, employee: Option<nat>, amount: int, date: Date,
                     period: Option<Period>, category: Category, deleted: bool, reversalOf: Option<nat>)

  /** The ledger row of an employee and period: what was paid and what was advanced. */
  datatype Entry = Entry(paid: int, advanced: int)

  datatype Account = Account(employee: nat, period: Period)

  type Book = map<Account, Entry>

  /** Transactions by id, in insertion order, and the ledger. */
  datatype Books = Books(txns: seq<Txn>, ledger: Book)

  function EntryOf(l: Book, a: Account): Entry { if a in l then l[a] else Entry(0, 0) }

  /** _upsert_ledger: adds a signed amount to the column of its category. */
  function Post(l: Book, employee: nat, period: Period, amount: int, category: Category): Book {
    var a := Account(employee, period);
    var e := EntryOf(l, a);
    l[a := if category == Advance then e.(advanced := e.advanced + amount) else e.(paid := e.paid + amount)]
  }

  /** What is compared: one ledger column, or both together. */
  datatype View = Paid | Advanced | Both

  predicate Covers(v: View, c: Category) { v.Both? || (v.Advanced? <==> c.Advance?) }

  function LedgerTotal(l: Book, a: Account, v: View): int {
    (if v.Advanced? then 0 else EntryOf(l, a).paid) + (if v.Paid? then 0 else EntryOf(l, a).advanced)
  }

  function Contribution(t: Txn, a: Account, v: View): int {
    if !t.deleted && t.employee == Some(a.employee) && t.period == Some(a.period) && Covers(v, t.category) then t.amount else 0
  }

  /** The sum of the account's transactions that are not deleted and whose category the view covers. */
  function Live(txns: seq<Txn>, a: Account, v: View): int {
    if txns == [] then 0 else Live(txns[..|txns| - 1], a, v) + Contribution(txns[|txns| - 1], a, v)
  }

  ghost predicate AgreesOn(b: Books, v: View) {
    forall a :: LedgerTotal(b.ledger, a, v) == Live(b.txns, a, v)
  }

  /** The ledger equals the sum of live transactions, for every employee and period. */
  ghost predicate Agrees(b: Books) { AgreesOn(b, Both) }

  /** The same, column by column. */
  ghost predicate ColumnsAgree(b: Books) { AgreesOn(b, Paid) && AgreesOn(b, Advanced) }

  // ---- The requests ----

  datatype Request =
    | Add(ref: Ref, employee: nat, amount: int, date: Date, category: Category)
    | Edit(id: nat, newAmount: Option<int>, newDate: Option<Date>, newCategory: Option<Category>, outdated: bool)
    | Delete(id: nat)

  predicate Accepted(b: Books, r: Request) {
    match r
    case Add(_, _, amount, _, _) => amount > 0
    case Edit(id, amount, _, _, outdated) =>
      id < |b.txns| && !b.txns[id].deleted && !outdated && (amount.Some? ==> amount.value > 0)
    case Delete(id) => id < |b.txns| && !b.txns[id].deleted
  }

  function Edited(t: Txn, r: Request): Txn
    requires r.Edit?
  {
    t.(amount := if r.newAmount.Some? then r.newAmount.value else t.amount,
       date := if r.newDate.Some? then r.newDate.value else t.date,
       period := if r.newDate.Some? then Some(PeriodOf(r.newDate.value)) else t.period,
       category := if r.newCategory.Some? then r.newCategory.value else t.category)
  }

  /** The ledger's period column is NOT NULL, so reversing an undated row raises, after the row itself is written. */
  predicate RepostRaises(before: Txn, after: Txn) {
    before.employee.Some? && (after.amount != before.amount || after.period != before.period)
    && (before.period.None? || after.period.None?)
  }

  /** Undo `before` and apply `after`. */
  function Repost(l: Book, before: Txn, after: Txn): Book {
    if before.employee.None? || (after.amount == before.amount && after.period == before.period) then l
    else if RepostRaises(before, after) then l
    else
      var e := before.employee.value;
      Post(Post(l, e, before.period.value, -before.amount, before.category), e, after.period.value, after.amount, after.category)
  }

  function Step(b: Books, r: Request): Books {
    if !Accepted(b, r) then b
    else match r
      case Add(ref, employee, amount, date, category) =>
        var p := PeriodOf(date);
        Books(b.txns + [Txn(ref, None, Some(employee), amount, date, Some(p), category, false, None)],
              Post(b.ledger, employee, p, amount, category))
      case Edit(id, _, _, _, _) =>
        var t := b.txns[id];
        Books(b.txns[id := Edited(t, r)], Repost(b.ledger, t, Edited(t, r)))
      case Delete(id) =>
        var t := b.txns[id];
        Books(b.txns[id := t.(deleted := true)],
              if t.employee.None? || t.period.None? then b.ledger
              else Post(b.ledger, t.employee.value, t.period.value, -t.amount, t.category))
  }

  // ---- What each request records ----

  /** An add of a positive amount appends one live row with the values given, under the month of its date; any other does nothing. */
  lemma AddRecords(b: Books, ref: Ref, employee: nat, amount: int, date: Date, category: Category)
    ensures var b' := Step(b, Add(ref, employee, amount, date, category));
            if amount <= 0 then b' == b
            else
              && |b'.txns| == |b.txns| + 1 && b'.txns[..|b.txns|] == b.txns
              && var t := b'.txns[|b.txns|];
                 && t.ref == ref && t.employee == Some(employee) && t.amount == amount && t.date == date
                 && t.period == Some(Period(date.year, date.month)) && t.category == category && !t.deleted
                 && t.message.None? && t.reversalOf.None?
  {}

  /** The edit finds a live row, is not outdated, and gives no amount or a positive one. */
  predicate Editable(b: Books, id: nat, amount: Option<int>, outdated: bool) {
    id < |b.txns| && !b.txns[id].deleted && !outdated && (amount.None? || amount.value > 0)
  }

  /**
   An edit leaves in its row the values given, and the old ones where none is given;
   a new date brings its month as the period. Identity, employee and deletion mark
   of the row and all other rows stay. An edit that is not accepted does nothing.
   */
  lemma EditRecords(b: Books, id: nat, amount: Option<int>, date: Option<Date>, category: Option<Category>, outdated: bool)
    ensures var b' := Step(b, Edit(id, amount, date, category, outdated));
            if !Editable(b, id, amount, outdated) then b' == b
            else
              && |b'.txns| == |b.txns| && (forall i :: 0 <= i < |b.txns| && i != id ==> b'.txns[i] == b.txns[i])
              && var t, t' := b.txns[id], b'.txns[id];
                 && (amount.Some? ==> t'.amount == amount.value) && (amount.None? ==> t'.amount == t.amount)
                 && (date.Some? ==> t'.date == date.value && t'.period == Some(Period(date.value.year, date.value.month)))
                 && (date.None? ==> t'.date == t.date && t'.period == t.period)
                 && (category.Some? ==> t'.category == category.value) && (category.None? ==> t'.category == t.category)
                 && t'.ref == t.ref && t'.message == t.message && t'.employee == t.employee && !t'.deleted
                 && t'.reversalOf == t.reversalOf
  {}

  /** A delete of a live row marks it and changes nothing else in the rows; any other does nothing. */
  lemma DeleteRecords(b: Books, id: nat)
    ensures var b' := Step(b, Delete(id));
            if id >= |b.txns| || b.txns[id].deleted then b' == b
            else b'.txns == b.txns[id := b.txns[id].(deleted := true)]
  {}

  /** What the requests move in the ledger, account by account. */
  lemma AddMoves(b: Books, ref: Ref, employee: nat, amount: int, date: Date, category: Category, a: Account)
    requires amount > 0
    ensures LedgerTotal(Step(b, Add(ref, employee, amount, date, category)).ledger, a, Both) ==
            LedgerTotal(b.ledger, a, Both) + if a == Account(employee, Period(date.year, date.month)) then amount else 0
  {
    PostEffect(b.ledger, employee, PeriodOf(date), amount, category, a, Both);
  }

  lemma DeleteMoves(b: Books, id: nat, a: Account)
    requires id < |b.txns| && !b.txns[id].deleted
    ensures var t := b.txns[id];
            LedgerTotal(Step(b, Delete(id)).ledger, a, Both) == LedgerTotal(b.ledger, a, Both)
              - if t.employee == Some(a.employee) && t.period == Some(a.period) then t.amount else 0
  {
    var t := b.txns[id];
    if t.employee.Some? && t.period.Some? {
      PostEffect(b.ledger, t.employee.value, t.period.value, -t.amount, t.category, a, Both);
    }
  }

  /**
   An edit of a dated row takes its old amount out of its old period and puts the new
   amount into the new one: a new amount alone moves the total by the difference, a
   new date moves the amount from month to month.
   */
  lemma EditMoves(b: Books, id: nat, amount: Option<int>, date: Option<Date>, category: Option<Category>, outdated: bool, a: Account)
    requires Editable(b, id, amount, outdated) && b.txns[id].period.Some?
    ensures var t := b.txns[id];
            var newAmount := if amount.Some? then amount.value else t.amount;
            var newPeriod := if date.Some? then Period(date.value.year, date.value.month) else t.period.value;
            LedgerTotal(Step(b, Edit(id, amount, date, category, outdated)).ledger, a, Both) == LedgerTotal(b.ledger, a, Both)
              - (if t.employee.Some? && a == Account(t.employee.value, t.period.value) then t.amount else 0)
              + (if t.employee.Some? && a == Account(t.employee.value, newPeriod) then newAmount else 0)
  {
    var t := b.txns[id];
    RepostEffect(b.ledger, t, Edited(t, Edit(id, amount, date, category, outdated)), a, Both);
  }

  // ---- How sums move ----

  lemma PostEffect(l: Book, employee: nat, period: Period, amount: int, category: Category, a: Account, v: View)
    ensures LedgerTotal(Post(l, employee, period, amount, category), a, v)
         == LedgerTotal(l, a, v) + (if a == Account(employee, period) && Covers(v, category) then amount else 0)
  {}

  lemma LiveSnoc(txns: seq<Txn>, t: Txn, a: Account, v: View)
    ensures Live(txns + [t], a, v) == Live(txns, a, v) + Contribution(t, a, v)
  {
    assert (txns + [t])[..|txns|] == txns;
  }

  lemma {:induction false} LiveUpdate(txns: seq<Txn>, i: nat, t: Txn, a: Account, v: View)
    requires i < |txns|
    ensures Live(txns[i := t], a, v) == Live(txns, a, v) - Contribution(txns[i], a, v) + Contribution(t, a, v)
  {
    var n := |txns| - 1;
    if i == n {
      assert txns[i := t][..n] == txns[..n];
    } else {
      assert txns[i := t][..n] == txns[..n][i := t];
      LiveUpdate(txns[..n], i, t, a, v);
    }
  }

  lemma {:induction false} LiveSplits(txns: seq<Txn>, a: Account)
    ensures Live(txns, a, Both) == Live(txns, a, Paid) + Live(txns, a, Advanced)
  {
    if txns != [] {
      LiveSplits(txns[..|txns| - 1], a);
    }
  }

  /** Agreement by column is the stronger of the two. */
  lemma ColumnsMakeTheTotal(b: Books)
    requires ColumnsAgree(b)
    ensures Agrees(b)
  {
    forall a ensures LedgerTotal(b.ledger, a, Both) == Live(b.txns, a, Both) {
      assert LedgerTotal(b.ledger, a, Paid) == Live(b.txns, a, Paid);
      assert LedgerTotal(b.ledger, a, Advanced) == Live(b.txns, a, Advanced);
      LiveSplits(b.txns, a);
    }
  }

  // ---- Agreement ----

  lemma AddKeepsAgreement(b: Books, r: Request, v: View)
    requires AgreesOn(b, v) && r.Add?
    ensures AgreesOn(Step(b, r), v)
  {
    if Accepted(b, r) {
      var b' := Step(b, r);
      forall a ensures LedgerTotal(b'.ledger, a, v) == Live(b'.txns, a, v) {
        LiveSnoc(b.txns, b'.txns[|b.txns|], a, v);
        PostEffect(b.ledger, r.employee, PeriodOf(r.date), r.amount, r.category, a, v);
      }
    }
  }

  lemma DeleteKeepsAgreement(b: Books, r: Request, v: View)
    requires AgreesOn(b, v) && r.Delete?
    ensures AgreesOn(Step(b, r), v)
  {
    if Accepted(b, r) {
      var t := b.txns[r.id];
      var b' := Step(b, r);
      forall a ensures LedgerTotal(b'.ledger, a, v) == Live(b'.txns, a, v) {
        LiveUpdate(b.txns, r.id, t.(deleted := true), a, v);
        if t.employee.Some? && t.period.Some? {
          PostEffect(b.ledger, t.employee.value, t.period.value, -t.amount, t.category, a, v);
        }
      }
    }
  }

  /** An edit that dates a row which has an employee, an amount and no period. */
  predicate DatesAnUndatedRow(t: Txn, r: Request)
    requires r.Edit?
  {
    t.employee.Some? && t.period.None? && r.newDate.Some? && Edited(t, r).amount != 0
  }

  /** An edit that takes a booked payment into or out of the advances and changes neither amount nor period. */
  predicate OnlySwitchesColumn(t: Txn, r: Request)
    requires r.Edit?
  {
    && t.employee.Some? && t.period.Some? && t.amount != 0
    && Edited(t, r).amount == t.amount && Edited(t, r).period == t.period
    && (t.category.Advance? <==> !Edited(t, r).category.Advance?)
  }

  /** A reposting carries the ledger from the row before to the row after. */
  lemma RepostEffect(l: Book, t: Txn, t': Txn, a: Account, v: View)
    requires !t.deleted && !t'.deleted && t.employee == t'.employee && t.period.Some? && t'.period.Some?
    ensures LedgerTotal(Repost(l, t, t'), a, v) == LedgerTotal(l, a, v)
            + (if t.amount == t'.amount && t.period == t'.period then 0 else Contribution(t', a, v) - Contribution(t, a, v))
  {
    if t.employee.Some? {
      PostEffect(l, t.employee.value, t.period.value, -t.amount, t.category, a, v);
      var l' := Post(l, t.employee.value, t.period.value, -t.amount, t.category);
      PostEffect(l', t.employee.value, t'.period.value, t'.amount, t'.category, a, v);
    }
  }

  /** How far an accepted edit drives the ledger from the transactions. */
  lemma EditDrift(b: Books, r: Request, a: Account, v: View)
    requires AgreesOn(b, v) && r.Edit? && Accepted(b, r)
    ensures var t := b.txns[r.id];
            LedgerTotal(Step(b, r).ledger, a, v) - Live(Step(b, r).txns, a, v) ==
            if DatesAnUndatedRow(t, r) || OnlySwitchesColumn(t, r)
            then Contribution(t, a, v) - Contribution(Edited(t, r), a, v) else 0
  {
    var t := b.txns[r.id];
    var t' := Edited(t, r);
    LiveUpdate(b.txns, r.id, t', a, v);
    assert LedgerTotal(b.ledger, a, v) == Live(b.txns, a, v);
    if t.period.Some? {
      RepostEffect(b.ledger, t, t', a, v);
    }
  }

  /** An accepted edit keeps the agreement exactly when it does not date an undated row. */
  lemma EditKeepsAgreementIff(b: Books, r: Request)
    requires Agrees(b) && r.Edit? && Accepted(b, r)
    ensures Agrees(Step(b, r)) <==> !DatesAnUndatedRow(b.txns[r.id], r)
  {
    var t := b.txns[r.id];
    if DatesAnUndatedRow(t, r) {
      EditDrift(b, r, Account(t.employee.value, Edited(t, r).period.value), Both);
    } else {
      forall a ensures LedgerTotal(Step(b, r).ledger, a, Both) == Live(Step(b, r).txns, a, Both) {
        EditDrift(b, r, a, Both);
      }
    }
  }

  /**
   An accepted edit keeps every column in agreement exactly when, besides, it does
   not merely move a payment between salary and advance.
   */
  lemma EditKeepsColumnsIff(b: Books, r: Request)
    requires ColumnsAgree(b) && r.Edit? && Accepted(b, r)
    ensures ColumnsAgree(Step(b, r)) <==> !DatesAnUndatedRow(b.txns[r.id], r) && !OnlySwitchesColumn(b.txns[r.id], r)
  {
    var t := b.txns[r.id];
    var b' := Step(b, r);
    if DatesAnUndatedRow(t, r) || OnlySwitchesColumn(t, r) {
      var v := if Edited(t, r).category.Advance? then Advanced else Paid;
      var a := Account(t.employee.value, Edited(t, r).period.value);
      EditDrift(b, r, a, v);
      assert LedgerTotal(b'.ledger, a, v) != Live(b'.txns, a, v);
    } else {
      forall a, v: View | !v.Both? ensures LedgerTotal(b'.ledger, a, v) == Live(b'.txns, a, v) {
        EditDrift(b, r, a, v);
      }
    }
  }

  /** From books in agreement, the only request that breaks it is an accepted edit that dates an undated row. */
  lemma RequestKeepsAgreementIff(b: Books, r: Request)
    requires Agrees(b)
    ensures Agrees(Step(b, r)) <==> !(r.Edit? && Accepted(b, r) && DatesAnUndatedRow(b.txns[r.id], r))
  {
    match r
    case Add(_, _, _, _, _) => AddKeepsAgreement(b, r, Both);
    case Delete(_) => DeleteKeepsAgreement(b, r, Both);
    case Edit(_, _, _, _, _) =>
      if Accepted(b, r) {
        EditKeepsAgreementIff(b, r);
      }
  }

  /** Column by column, an edit that merely switches columns breaks it too, and nothing else. */
  lemma RequestKeepsColumnsIff(b: Books, r: Request)
    requires ColumnsAgree(b)
    ensures ColumnsAgree(Step(b, r)) <==>
            !(r.Edit? && Accepted(b, r) && (DatesAnUndatedRow(b.txns[r.id], r) || OnlySwitchesColumn(b.txns[r.id], r)))
  {
    match r
    case Add(_, _, _, _, _) =>
      AddKeepsAgreement(b, r, Paid);
      AddKeepsAgreement(b, r, Advanced);
    case Delete(_) =>
      DeleteKeepsAgreement(b, r, Paid);
      DeleteKeepsAgreement(b, r, Advanced);
    case Edit(_, _, _, _, _) =>
      if Accepted(b, r) {
        EditKeepsColumnsIff(b, r);
      }
  }

  // ---- Requests that overlap ----

  /** What the two statements of a delete do when its SELECT had returned `t`. */
  function DeleteAsRead(b: Books, id: nat, t: Txn): Books
    requires id < |b.txns|
  {
    Books(b.txns[id := b.txns[id].(deleted := true)],
          if t.employee.None? || t.period.None? then b.ledger
          else Post(b.ledger, t.employee.value, t.period.value, -t.amount, t.category))
  }

  /**
   Two deletes that both read the row before either wrote it reverse it twice, which
   breaks the agreement exactly when there is an amount booked to reverse.
   */
  lemma OverlappingDeletesIff(b: Books, id: nat)
    requires Agrees(b) && id < |b.txns| && !b.txns[id].deleted
    ensures var t := b.txns[id];
            Agrees(DeleteAsRead(Step(b, Delete(id)), id, t)) <==> t.employee.None? || t.period.None? || t.amount == 0
  {
    var t := b.txns[id];
    var b1 := Step(b, Delete(id));
    var b2 := DeleteAsRead(b1, id, t);
    DeleteKeepsAgreement(b, Delete(id), Both);
    assert b2.txns == b1.txns;
    if t.employee.Some? && t.period.Some? {
      forall a ensures LedgerTotal(b2.ledger, a, Both)
                    == LedgerTotal(b1.ledger, a, Both) - (if a == Account(t.employee.value, t.period.value) then t.amount else 0)
      {
        PostEffect(b1.ledger, t.employee.value, t.period.value, -t.amount, t.category, a, Both);
      }
      var a := Account(t.employee.value, t.period.value);
      assert LedgerTotal(b1.ledger, a, Both) == Live(b1.txns, a, Both);
    }
  }

  /** A category-only edit leaves the old column as it was: the columns alone need not agree. */
  lemma CategoryEditStaysInItsColumn(p: Period)
    ensures var day := Date(p.year, p.month, 1);
            var b := Step(Books([], map[]), Add(Given(0), 7, 100, day, Salary));
            var b' := Step(b, Edit(0, None, None, Some(Advance), false));
            b'.txns[0].category == Advance && b'.ledger == map[Account(7, p) := Entry(100, 0)]
  {}

  class Desk {
    var txns: seq<Txn>
    var ledger: Book

    constructor ()
      ensures txns == [] && ledger == map[]
    {
      txns, ledger := [], map[];
    }

    function Value(): Books
      reads this
    {
      Books(txns, ledger)
    }

    method AdjustLedger(employee: nat, period: Period, amount: int, category: Category)
      modifies this`ledger
      ensures ledger == Post(old(ledger), employee, period, amount, category)
    {
      var a := Account(employee, period);
      var e := if a in ledger then ledger[a] else Entry(0, 0);
      if category == Advance {
        ledger := ledger[a := e.(advanced := e.advanced + amount)];
      } else {
        ledger := ledger[a := e.(paid := e.paid + amount)];
      }
    }

    method AddTransaction(ref: Ref, employee: nat, amount: int, date: Date, category: Category) returns (id: Option<nat>)
      modifies this
      ensures Value() == Step(old(Value()), Add(ref, employee, amount, date, category))
      ensures id == if amount > 0 then Some(|old(txns)|) else None
    {
      if amount <= 0 {
        return None;
      }
      id := Some(|txns|);
      txns := txns + [Txn(ref, None, Some(employee), amount, date, Some(PeriodOf(date)), category, false, None)];
      AdjustLedger(employee, PeriodOf(date), amount, category);
    }

    method EditTransaction(id: nat, amount: Option<int>, date: Option<Date>, category: Option<Category>, outdated: bool)
      returns (ok: bool)
      modifies this
      ensures Value() == Step(old(Value()), Edit(id, amount, date, category, outdated))
      ensures ok <==> var r := Edit(id, amount, date, category, outdated);
                      Accepted(old(Value()), r) && !RepostRaises(old(txns)[id], Edited(old(txns)[id], r))
    {
      if id >= |txns| || txns[id].deleted || outdated || (amount.Some? && amount.value <= 0) {
        return false;
      }
      var row := txns[id];
      var newAmount := if amount.Some? then amount.value else row.amount;
      var newDate := if date.Some? then date.value else row.date;
      var newPeriod := if date.Some? then Some(PeriodOf(newDate)) else row.period;
      var newCategory := if category.Some? then category.value else row.category;
      txns := txns[id := row.(amount := newAmount, date := newDate, period := newPeriod, category := newCategory)];
      if row.employee.Some? && (newAmount != row.amount || newPeriod != row.period) {
        if row.period.None? || newPeriod.None? {
          return false;
        }
        AdjustLedger(row.employee.value, row.period.value, -row.amount, row.category);
        AdjustLedger(row.employee.value, newPeriod.value, newAmount, newCategory);
      }
      ok := true;
    }

    method SoftDelete(id: nat) returns (ok: bool)
      modifies this
      ensures Value() == Step(old(Value()), Delete(id))
      ensures ok <==> Accepted(old(Value()), Delete(id)) && (old(txns)[id].employee.None? || old(txns)[id].period.Some?)
    {
      if id >= |txns| || txns[id].deleted {
        return false;
      }
      var row := txns[id];
      txns := txns[id := row.(deleted := true)];
      if row.employee.Some? {
        if row.period.None? {
          return false;
        }
        AdjustLedger(row.employee.value, row.period.value, -row.amount, row.category);
      }
      ok := true;
    }
  }
}
