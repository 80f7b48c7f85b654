/**
 * The tracker's ledger: the list of movements and the list of open debts,
 * the three operations that change them (record a movement, record a debt,
 * pay part of a debt) and the views computed from them (balance, expense
 * chart data, export text, calendar day markers).
 */
module Ledger {
  import opened Options
  import opened Text
  import opened Records
  import opened Balances
  import opened Chart
  import opened Export

  /** What is stored between sessions: both lists, as they were last saved. */
  datatype Snapshot = Snapshot(movements: seq<Movement>, debts: seq<Debt>)

  /** `s` without its element at `i`, the others kept in order (a one-element splice). */
  function RemoveAt<T>(s: seq<T>, i: nat): (r: seq<T>)
    requires i < |s|
    ensures |r| == |s| - 1
    ensures forall k :: 0 <= k < i ==> r[k] == s[k]
    ensures forall k :: i <= k < |r| ==> r[k] == s[k + 1]
  {
    s[..i] + s[i + 1..]
  }

  /**
   * The open debts after a payment of `value` on debt `i`: its remaining
   * amount drops by exactly `value`, and it leaves the list as soon as
   * nothing positive remains. Any value is accepted, so a payment larger
   * than what remains simply closes the debt.
   */
  function AfterPayment(debts: seq<Debt>, i: nat, value: int): (r: seq<Debt>)
    requires i < |debts|
    ensures |r| == if debts[i].remaining - value <= 0 then |debts| - 1 else |debts|
    ensures forall k :: 0 <= k < i ==> r[k] == debts[k]
    ensures debts[i].remaining - value > 0 ==>
              r[i] == debts[i].(remaining := debts[i].remaining - value)
              && forall k :: i < k < |debts| ==> r[k] == debts[k]
    ensures debts[i].remaining - value <= 0 ==>
              forall k :: i < k < |debts| ==> r[k - 1] == debts[k]
  {
    var d := debts[i].(remaining := debts[i].remaining - value);
    if d.remaining <= 0 then RemoveAt(debts, i) else debts[i := d]
  }

  /** Whether the calendar marks `date`: some movement is dated that day. */
  function HasMovementOn(ms: seq<Movement>, date: string): (b: bool)
    ensures b <==> exists k :: 0 <= k < |ms| && ms[k].date == date
  {
    if ms == [] then false
    else if ms[0].date == date then true
    else
      assert forall k :: 1 <= k < |ms| ==> ms[k] == ms[1..][k - 1];
      HasMovementOn(ms[1..], date)
  }

  /** Sum of a list of amounts. */
  function Sum(xs: seq<int>): int
  {
    if xs == [] then 0 else xs[0] + Sum(xs[1..])
  }

  predicate AllPositive(xs: seq<int>)
  {
    forall k :: 0 <= k < |xs| ==> xs[k] > 0
  }

  lemma {:induction false} SumPositive(xs: seq<int>)
    requires xs != [] && AllPositive(xs)
    ensures Sum(xs) > 0
  {
    if |xs| > 1 {
      SumPositive(xs[1..]);
    }
  }

  /** The two lists after `Ledger.AddDebt`, as values. */
  function AddDebtStep(s: Snapshot, kind: string, person: string, title: string, desc: string,
                       amount: int, date: string): Snapshot
  {
    var d := NewDebt(kind, person, title, desc, amount, date);
    Snapshot(s.movements + [LoanMovement(d)], s.debts + [d])
  }

  /** The two lists after a successful `Ledger.PayDebt`, as values. */
  function PayStep(s: Snapshot, i: nat, value: int, today: string): Snapshot
    requires i < |s.debts|
  {
    Snapshot(s.movements + [PaymentMovement(s.debts[i], value, today)], AfterPayment(s.debts, i, value))
  }

  /** Pays `parts[0]`, `parts[1]`, ... on debt `i`, on `dates[0]`, `dates[1]`, ..., while debt `i` exists. */
  function PayInParts(s: Snapshot, i: nat, parts: seq<int>, dates: seq<string>): Snapshot
    requires |dates| == |parts|
    decreases |parts|
  {
    if parts == [] || i >= |s.debts| then s
    else PayInParts(PayStep(s, i, parts[0], dates[0]), i, parts[1..], dates[1..])
  }

  /**
   * Paying an open debt in positive parts that add up to what remains
   * keeps it open until the last part and closes it with that one: the
   * other debts are left as they were, one payment movement is recorded
   * per part, and the balance moves by the total paid, upwards for money
   * owed to me and downwards otherwise.
   */
  lemma {:induction false} PaidInPartsClosesDebt(s: Snapshot, i: nat, parts: seq<int>, dates: seq<string>)
    requires i < |s.debts|
    requires |dates| == |parts| && parts != [] && AllPositive(parts)
    requires Sum(parts) == s.debts[i].remaining
    ensures PayInParts(s, i, parts, dates).debts == RemoveAt(s.debts, i)
    ensures |PayInParts(s, i, parts, dates).movements| == |s.movements| + |parts|
    ensures Balance(PayInParts(s, i, parts, dates).movements)
         == Balance(s.movements) + (if s.debts[i].kind == MeDeben then Sum(parts) else -Sum(parts))
    decreases |parts|
  {
    var d := s.debts[i];
    var s1 := PayStep(s, i, parts[0], dates[0]);
    BalanceAppend(s.movements, PaymentMovement(d, parts[0], dates[0]));
    if |parts| == 1 {
      assert PayInParts(s1, i, parts[1..], dates[1..]) == s1;
    } else {
      SumPositive(parts[1..]);
      assert s1.debts == s.debts[i := d.(remaining := d.remaining - parts[0])];
      PaidInPartsClosesDebt(s1, i, parts[1..], dates[1..]);
      assert RemoveAt(s1.debts, i) == RemoveAt(s.debts, i);
    }
  }

  /**
   * Lending (or borrowing) an amount and then being repaid (or repaying)
   * it in positive parts leaves the open debts and the balance exactly as
   * they were before the loan: the loan movement and the payment movements
   * cancel out.
   */
  lemma LoanRepaidInFull(s: Snapshot, kind: string, person: string, title: string, desc: string,
                         amount: int, date: string, parts: seq<int>, dates: seq<string>)
    requires |dates| == |parts| && parts != [] && AllPositive(parts) && Sum(parts) == amount
    ensures PayInParts(AddDebtStep(s, kind, person, title, desc, amount, date), |s.debts|, parts, dates).debts
         == s.debts
    ensures Balance(PayInParts(AddDebtStep(s, kind, person, title, desc, amount, date), |s.debts|, parts, dates).movements)
         == Balance(s.movements)
  {
    var s1 := AddDebtStep(s, kind, person, title, desc, amount, date);
    BalanceAppend(s.movements, LoanMovement(NewDebt(kind, person, title, desc, amount, date)));
    PaidInPartsClosesDebt(s1, |s.debts|, parts, dates);
    assert RemoveAt(s1.debts, |s.debts|) == s.debts;
  }

  class Ledger {
    var movements: seq<Movement>
    var debts: seq<Debt>
    /** For each open debt, how many payments it has received in this session. */
    ghost var payments: seq<nat>

    /** An open debt that has received a payment still has something left to pay. */
    ghost predicate Valid()
      reads this
    {
      |payments| == |debts|
      && forall k :: 0 <= k < |debts| && payments[k] > 0 ==> debts[k].remaining > 0
    }

    /** Loads the stored ledger, or starts with two empty lists when nothing is stored. */
    constructor (stored: Option<Snapshot>)
      ensures Valid()
      ensures stored.Some? ==> movements == stored.value.movements && debts == stored.value.debts
      ensures stored.None? ==> movements == [] && debts == []
      ensures payments == seq(|debts|, k => 0)
    {
      var s := match stored
        case Some(loaded) => loaded
        case None => Snapshot([], []);
      movements, debts := s.movements, s.debts;
      payments := seq(|s.debts|, k => 0);
    }

    /** Records a movement entered in the movement form. */
    method AddMovement(date: string, kind: string, title: string, desc: string, amount: int)
      requires Valid()
      modifies this
      ensures Valid()
      ensures movements == old(movements) + [Movement(date, kind, title, Some(desc), amount)]
      ensures debts == old(debts)
      ensures payments == old(payments)
    {
      movements := movements + [Movement(date, kind, title, Some(desc), amount)];
    }

    /** Records a debt entered in the debt form, together with the loan movement it implies. */
    method AddDebt(kind: string, person: string, title: string, desc: string, amount: int, date: string)
      requires Valid()
      modifies this
      ensures Valid()
      ensures debts == old(debts) + [NewDebt(kind, person, title, desc, amount, date)]
      ensures movements == old(movements) + [LoanMovement(NewDebt(kind, person, title, desc, amount, date))]
      ensures payments == old(payments) + [0]
    {
      var d := Debt(kind, person, title, desc, amount, date, amount);
      debts := debts + [d];
      payments := payments + [0];
      movements := movements + [Movement(d.date, if d.kind == MeDeben then Egreso else Ingreso,
                                         LoanPrefix + d.title, Some(d.desc), d.amount)];
    }

    /**
     * Pays `value` on the `i`-th open debt, dated `today`. There is no `i`-th
     * debt when `i` is past the end of the list: then nothing changes and the
     * result is false.
     */
    method PayDebt(i: nat, value: int, today: string) returns (ok: bool)
      requires Valid()
      modifies this
      ensures Valid()
      ensures ok <==> i < |old(debts)|
      ensures !ok ==> movements == old(movements) && debts == old(debts)
      ensures ok ==> movements == old(movements) + [PaymentMovement(old(debts)[i], value, today)]
      ensures ok ==> debts == AfterPayment(old(debts), i, value)
      ensures !ok ==> payments == old(payments)
      ensures ok ==> payments == if old(debts)[i].remaining - value <= 0
                                 then RemoveAt(old(payments)[i := old(payments)[i] + 1], i)
                                 else old(payments)[i := old(payments)[i] + 1]
    {
      if i >= |debts| {
        return false;
      }
      var d := debts[i];
      d := d.(remaining := d.remaining - value);
      debts := debts[i := d];
      payments := payments[i := payments[i] + 1];
      movements := movements + [Movement(today, if d.kind == MeDeben then Ingreso else Egreso,
                                         PaymentPrefix + d.title, Some(""), value)];
      if d.remaining <= 0 {
        debts := debts[..i] + debts[i + 1..];
        payments := payments[..i] + payments[i + 1..];
      }
      ok := true;
    }

    /** The balance: income adds, every other movement subtracts. */
    method UpdateBalance() returns (total: int)
      ensures total == Balance(movements)
    {
      total := 0;
      var i := 0;
      while i < |movements|
        invariant 0 <= i <= |movements|
        invariant total == Balance(movements[..i])
      {
        var m := movements[i];
        total := total + if m.kind == Ingreso then m.amount else -m.amount;
        assert movements[..i + 1] == movements[..i] + [m];
        BalanceAppend(movements[..i], m);
        i := i + 1;
      }
      assert movements[..i] == movements;
    }

    /** The expense chart's data: each expense title with the total of its expense movements. */
    method ChartData() returns (data: map<string, int>)
      ensures data.Keys == ExpenseTitles(movements)
      ensures forall t :: t in data ==> data[t] == ExpenseByTitle(movements, t)
    {
      data := map[];
      var i := 0;
      while i < |movements|
        invariant 0 <= i <= |movements|
        invariant data.Keys == ExpenseTitles(movements[..i])
        invariant forall t :: t in data ==> data[t] == ExpenseByTitle(movements[..i], t)
      {
        var m := movements[i];
        assert movements[..i + 1] == movements[..i] + [m];
        ExpenseTitlesAppend(movements[..i], m);
        forall t ensures ExpenseByTitle(movements[..i + 1], t)
                      == ExpenseByTitle(movements[..i], t) + (if m.kind == Egreso && m.title == t then m.amount else 0)
        {
          ExpenseByTitleAppend(movements[..i], m, t);
        }
        if m.kind == Egreso {
          if m.title !in data {
            ExpenseByTitleOutside(movements[..i], m.title);
          }
          data := data[m.title := (if m.title in data then data[m.title] else 0) + m.amount];
        }
        i := i + 1;
      }
      assert movements[..i] == movements;
    }

    /** The export text: the header, then one line per movement in order. */
    method ExportTxt() returns (txt: string)
      ensures txt == ExportText(movements)
    {
      txt := HeaderRow + "\n";
      var i := 0;
      while i < |movements|
        invariant 0 <= i <= |movements|
        invariant txt == ExportText(movements[..i])
      {
        var m := movements[i];
        assert movements[..i + 1] == movements[..i] + [m];
        ExportTextAppend(movements[..i], m);
        txt := txt + Row(m) + "\n";
        i := i + 1;
      }
      assert movements[..i] == movements;
    }
  }

  /** The repayment sequence of a loan, on a fresh ledger, through the class's own contracts. */
  method RepaymentScenario()
  {
    var ledger := new Ledger(None);
    ledger.AddDebt(MeDeben, "Ana", "bici", "", 200, "2024-01-01");
    assert ledger.debts[0].remaining == 200 && |ledger.movements| == 1;
    var ok := ledger.PayDebt(0, 120, "2024-01-10");
    assert ok && |ledger.debts| == 1 && ledger.debts[0].remaining == 80;
    assert ledger.payments == [1];
    ok := ledger.PayDebt(0, 80, "2024-01-20");
    assert ok && ledger.debts == [];
    assert ledger.movements[1].kind == Ingreso && ledger.movements[2].amount == 80;
  }
}
