/**
 * The search view: the movements whose title contains a query text,
 * ignoring case, and whose amount reaches a minimum. An empty minimum
 * field means a minimum of zero.
 */
module Filter {
  import opened Options
  import opened Text
  import opened Records

  /** The minimum amount a filter field stands for; an empty field means zero. */
  function MinAmount(field: Option<int>): (minAmount: int)
    ensures field.None? ==> minAmount == 0
    ensures field.Some? ==> minAmount == field.value
  {
    match field
    case None => 0
    case Some(v) => v
  }

  /** The search condition on one movement. */
  predicate Matches(m: Movement, query: string, minAmount: int)
  {
    Includes(Lower(m.title), Lower(query)) && m.amount >= minAmount
  }

  /** `r` is `s` with some elements left out, the rest in their original order. */
  ghost predicate IsSubsequence(r: seq<Movement>, s: seq<Movement>)
    decreases |s|
  {
    if r == [] then true
    else if s == [] then false
    else if r[0] == s[0] then IsSubsequence(r[1..], s[1..])
    else IsSubsequence(r, s[1..])
  }

  /** The movements the search view lists, in ledger order. */
  function Filtered(ms: seq<Movement>, query: string, minAmount: int): (r: seq<Movement>)
    ensures IsSubsequence(r, ms)
    ensures forall k :: 0 <= k < |r| ==> Matches(r[k], query, minAmount)
    ensures forall m :: multiset(r)[m] == if Matches(m, query, minAmount) then multiset(ms)[m] else 0
  {
    if ms == [] then []
    else
      var rest := Filtered(ms[1..], query, minAmount);
      assert ms == [ms[0]] + ms[1..];
      if Matches(ms[0], query, minAmount) then [ms[0]] + rest else rest
  }

  /**
   * The empty query matches every title, so only the minimum amount
   * filters: with the minimum field `field` (zero when empty), a list whose
   * amounts all reach that minimum is listed whole.
   */
  lemma {:induction false} EmptyQueryKeepsAmountsAtLeast(ms: seq<Movement>, field: Option<int>)
    requires forall k :: 0 <= k < |ms| ==> ms[k].amount >= MinAmount(field)
    ensures Filtered(ms, "", MinAmount(field)) == ms
  {
    if ms != [] {
      assert OccursAt(Lower(ms[0].title), Lower(""), 0);
      EmptyQueryKeepsAmountsAtLeast(ms[1..], field);
    }
  }
}
