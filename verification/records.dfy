/**
 * The two kinds of record the finance tracker stores: movements (dated
 * income or expense entries) and debts (money lent to or borrowed from a
 * person). Amounts are whole numbers; the type fields hold whatever the
 * form's selector produced, so a movement type other than "ingreso" and
 * "egreso" is representable, as it is in the stored data.
 */
module Records {
  import opened Options

  /** Movement type of money coming in. */
  const Ingreso: string := "ingreso"
  /** Movement type of money going out. */
  const Egreso: string := "egreso"
  /** Debt type of money someone owes me (a loan I gave); any other type is money I owe. */
  const MeDeben: string := "meDeben"

  const LoanPrefix: string := "Préstamo "
  const PaymentPrefix: string := "Abono "

  /**
   * A movement. `desc` is optional because a stored movement may lack the
   * field; every movement the ledger itself creates carries one.
   */
  datatype Movement = Movement(date: string, kind: string, title: string, desc: Option<string>, amount: int)

  /** A debt; `remaining` is what is still to be paid of `amount`. */
  datatype Debt = Debt(kind: string, person: string, title: string, desc: string,
                       amount: int, date: string, remaining: int)

  /** The debt the debt form creates: nothing of it has been paid yet. */
  function NewDebt(kind: string, person: string, title: string, desc: string,
                   amount: int, date: string): (d: Debt)
    ensures d.remaining == d.amount == amount
    ensures d.kind == kind && d.person == person && d.title == title && d.desc == desc && d.date == date
  {
    Debt(kind, person, title, desc, amount, date, amount)
  }

  /**
   * The movement recorded when a debt is created: lending money out is an
   * expense, borrowing it is income.
   */
  function LoanMovement(d: Debt): (m: Movement)
    ensures m.date == d.date && m.desc == Some(d.desc) && m.amount == d.amount
    ensures m.title == LoanPrefix + d.title
    ensures m.kind == (if d.kind == MeDeben then Egreso else Ingreso)
  {
    Movement(d.date, if d.kind == MeDeben then Egreso else Ingreso, LoanPrefix + d.title, Some(d.desc), d.amount)
  }

  /**
   * The movement recorded for a payment of `value` on debt `d`, dated `today`:
   * its type is the opposite of the debt's loan movement.
   */
  function PaymentMovement(d: Debt, value: int, today: string): (m: Movement)
    ensures m.date == today && m.desc == Some("") && m.amount == value
    ensures m.title == PaymentPrefix + d.title
    ensures m.kind != LoanMovement(d).kind
    ensures m.kind == Ingreso || m.kind == Egreso
  {
    Movement(today, if d.kind == MeDeben then Ingreso else Egreso, PaymentPrefix + d.title, Some(""), value)
  }
}
