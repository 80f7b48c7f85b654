/**
 * The balance shown at the top of the tracker: every "ingreso" movement
 * adds its amount, every other movement (whatever its type) subtracts it.
 */
module Balances {
  import opened Records

  /** What one movement contributes to the balance. */
  function Signed(m: Movement): int
  {
    if m.kind == Ingreso then m.amount else -m.amount
  }

  /** The balance of a list of movements. */
  function Balance(ms: seq<Movement>): int
  {
    if ms == [] then 0 else Signed(ms[0]) + Balance(ms[1..])
  }

  /** Sum of the amounts of the "ingreso" movements. */
  function IncomeTotal(ms: seq<Movement>): int
  {
    if ms == [] then 0
    else (if ms[0].kind == Ingreso then ms[0].amount else 0) + IncomeTotal(ms[1..])
  }

  /** Sum of the amounts of all the other movements. */
  function OutflowTotal(ms: seq<Movement>): int
  {
    if ms == [] then 0
    else (if ms[0].kind != Ingreso then ms[0].amount else 0) + OutflowTotal(ms[1..])
  }

  /** The balance is total income minus the total of everything else. */
  lemma {:induction false} BalanceIsIncomeMinusOutflow(ms: seq<Movement>)
    ensures Balance(ms) == IncomeTotal(ms) - OutflowTotal(ms)
  {
    if ms != [] {
      BalanceIsIncomeMinusOutflow(ms[1..]);
    }
  }

  /** The balance of two lists one after the other is the sum of their balances. */
  lemma {:induction false} BalanceConcat(a: seq<Movement>, b: seq<Movement>)
    ensures Balance(a + b) == Balance(a) + Balance(b)
  {
    if a == [] {
      assert a + b == b;
    } else {
      assert (a + b)[1..] == a[1..] + b;
      BalanceConcat(a[1..], b);
    }
  }

  /** Appending a movement shifts the balance by exactly its signed amount. */
  lemma BalanceAppend(ms: seq<Movement>, m: Movement)
    ensures Balance(ms + [m]) == Balance(ms) + Signed(m)
  {
    BalanceConcat(ms, [m]);
  }
}
