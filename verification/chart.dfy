/**
 * The data behind the expense chart: for each title, the total amount of
 * the "egreso" movements carrying that title. Movements of any other type
 * contribute nothing.
 */
module Chart {
  import opened Records

  /** Total amount of the "egreso" movements titled `t`. */
  function ExpenseByTitle(ms: seq<Movement>, t: string): int
  {
    if ms == [] then 0
    else (if ms[0].kind == Egreso && ms[0].title == t then ms[0].amount else 0) + ExpenseByTitle(ms[1..], t)
  }

  /** The titles that occur on at least one "egreso" movement. */
  ghost function ExpenseTitles(ms: seq<Movement>): set<string>
  {
    set k | 0 <= k < |ms| && ms[k].kind == Egreso :: ms[k].title
  }

  /** Total amount of all "egreso" movements. */
  function ExpenseTotal(ms: seq<Movement>): int
  {
    if ms == [] then 0 else (if ms[0].kind == Egreso then ms[0].amount else 0) + ExpenseTotal(ms[1..])
  }

  /** A movement appended at the end adds to its own title's total only, and only if it is an expense. */
  lemma {:induction false} ExpenseByTitleAppend(ms: seq<Movement>, m: Movement, t: string)
    ensures ExpenseByTitle(ms + [m], t)
         == ExpenseByTitle(ms, t) + (if m.kind == Egreso && m.title == t then m.amount else 0)
  {
    if ms == [] {
      assert ms + [m] == [m];
    } else {
      assert (ms + [m])[1..] == ms[1..] + [m];
      ExpenseByTitleAppend(ms[1..], m, t);
    }
  }

  lemma ExpenseTitlesAppend(ms: seq<Movement>, m: Movement)
    ensures ExpenseTitles(ms + [m]) == ExpenseTitles(ms) + (if m.kind == Egreso then {m.title} else {})
  {
    var ms' := ms + [m];
    forall t | t in ExpenseTitles(ms') ensures t in ExpenseTitles(ms) + (if m.kind == Egreso then {m.title} else {}) {
      var k :| 0 <= k < |ms'| && ms'[k].kind == Egreso && ms'[k].title == t;
      if k < |ms| {
        assert ms[k] == ms'[k];
      }
    }
    forall t | t in ExpenseTitles(ms) ensures t in ExpenseTitles(ms') {
      var k :| 0 <= k < |ms| && ms[k].kind == Egreso && ms[k].title == t;
      assert ms'[k] == ms[k];
    }
    if m.kind == Egreso {
      assert ms'[|ms|] == m;
    }
  }

  /** A title that is on no expense movement has a total of zero. */
  lemma {:induction false} ExpenseByTitleOutside(ms: seq<Movement>, t: string)
    requires t !in ExpenseTitles(ms)
    ensures ExpenseByTitle(ms, t) == 0
  {
    if ms != [] {
      assert ms[0].kind == Egreso ==> ms[0].title in ExpenseTitles(ms);
      ExpenseTitlesTail(ms);
      ExpenseByTitleOutside(ms[1..], t);
    }
  }

  lemma ExpenseTitlesTail(ms: seq<Movement>)
    requires ms != []
    ensures ExpenseTitles(ms[1..]) <= ExpenseTitles(ms)
  {
    forall t | t in ExpenseTitles(ms[1..]) ensures t in ExpenseTitles(ms) {
      var k :| 0 <= k < |ms[1..]| && ms[1..][k].kind == Egreso && ms[1..][k].title == t;
      assert ms[k + 1] == ms[1..][k];
    }
  }

  /** Sum of the per-title totals over the titles `ts`. */
  function SumByTitles(ms: seq<Movement>, ts: seq<string>): int
  {
    if ts == [] then 0 else ExpenseByTitle(ms, ts[0]) + SumByTitles(ms, ts[1..])
  }

  /** How much movement `m` adds to the per-title totals of `ts`. */
  function Share(m: Movement, ts: seq<string>): int
  {
    if ts == [] then 0 else (if m.kind == Egreso && m.title == ts[0] then m.amount else 0) + Share(m, ts[1..])
  }

  /** Over distinct titles, an expense adds its amount once if its title is among them, an income nothing. */
  lemma {:induction false} ShareOnce(m: Movement, ts: seq<string>)
    requires forall i, j :: 0 <= i < j < |ts| ==> ts[i] != ts[j]
    ensures Share(m, ts) == if m.kind == Egreso && m.title in ts then m.amount else 0
  {
    if ts != [] {
      ShareOnce(m, ts[1..]);
      if m.title == ts[0] {
        assert m.title !in ts[1..] by {
          forall j | 0 <= j < |ts[1..]| ensures ts[1..][j] != m.title {
            assert ts[1..][j] == ts[j + 1];
          }
        }
      }
    }
  }

  lemma {:induction false} SumByTitlesCons(m: Movement, ms: seq<Movement>, ts: seq<string>)
    ensures SumByTitles([m] + ms, ts) == Share(m, ts) + SumByTitles(ms, ts)
  {
    if ts != [] {
      assert ([m] + ms)[1..] == ms;
      SumByTitlesCons(m, ms, ts[1..]);
    }
  }

  /**
   * Every expense amount is counted exactly once: summing the chart's totals
   * over distinct titles that cover every expense title gives the total of
   * all expense movements.
   */
  lemma {:induction false} ExpensesCountedOnce(ms: seq<Movement>, ts: seq<string>)
    requires forall i, j :: 0 <= i < j < |ts| ==> ts[i] != ts[j]
    requires forall t :: t in ExpenseTitles(ms) ==> t in ts
    ensures SumByTitles(ms, ts) == ExpenseTotal(ms)
  {
    if ms == [] {
      ZeroSum(ts);
    } else {
      assert ms == [ms[0]] + ms[1..];
      SumByTitlesCons(ms[0], ms[1..], ts);
      ShareOnce(ms[0], ts);
      assert ms[0].kind == Egreso ==> ms[0].title in ExpenseTitles(ms);
      ExpenseTitlesTail(ms);
      ExpensesCountedOnce(ms[1..], ts);
    }
  }

  lemma {:induction false} ZeroSum(ts: seq<string>)
    ensures SumByTitles([], ts) == 0
  {
    if ts != [] {
      ZeroSum(ts[1..]);
    }
  }
}
