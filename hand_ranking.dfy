/** The hand-ranking walk over the rank table: start in state 53, take one
    lookup `p := T[p + c]` per card value `c` in input order, and for 5- and
    6-card hands one resolving lookup `p := T[p]` at the end. */
module HandRanking {
  import opened Results
  import opened RankTable

  /** The start state of every walk. */
  const Start: Word := 53

  /** True for the hand sizes that need the resolving lookup. */
  predicate NeedsResolve(n: nat)
  {
    n == 5 || n == 6
  }

  /** The per-card walk from state `p`: a left fold of `q ↦ T[q + c]` over
      `values`, stopping at the first read that falls outside the table. */
  function Walk(table: seq<Byte>, p: Word, values: seq<nat>): (r: Result<Word>)
    ensures r.Err? ==> r.error == OffsetOutOfRange
    decreases |values|
  {
    if values == [] then Ok(p)
    else
      match ReadWord(table, p + values[0])
      case Err(e) => Err(e)
      case Ok(q) => Walk(table, q, values[1..])
  }

  /** The packed rank of a hand of card values. */
  function Rank(table: seq<Byte>, values: seq<nat>): (r: Result<Word>)
    ensures r.Err? ==> r.error == OffsetOutOfRange
  {
    match Walk(table, Start, values)
    case Err(e) => Err(e)
    case Ok(p) => if NeedsResolve(|values|) then ReadWord(table, p) else Ok(p)
  }

  /** The state after the first `k` cards. */
  function StateAfter(table: seq<Byte>, values: seq<nat>, k: nat): Result<Word>
    requires k <= |values|
  {
    Walk(table, Start, values[..k])
  }

  /** The word indices the per-card walk from `p` reads, in order, up to and
      including the first read that fails. */
  function Lookups(table: seq<Byte>, p: Word, values: seq<nat>): seq<nat>
    decreases |values|
  {
    if values == [] then []
    else
      match ReadWord(table, p + values[0])
      case Err(_) => [p + values[0]]
      case Ok(q) => [p + values[0]] + Lookups(table, q, values[1..])
  }

  /** The word indices a whole ranking reads: the per-card walk from the start
      state, then the resolving lookup when the hand needs one. */
  function RankLookups(table: seq<Byte>, values: seq<nat>): seq<nat>
  {
    Lookups(table, Start, values) +
    match Walk(table, Start, values)
    case Ok(p) => if NeedsResolve(|values|) then [p] else []
    case Err(_) => []
  }

  /** Walking `a + b` is walking `a`, then walking `b` from where `a` ended. */
  lemma {:induction false} WalkAppend(table: seq<Byte>, p: Word, a: seq<nat>, b: seq<nat>)
    ensures Walk(table, p, a + b) ==
      match Walk(table, p, a)
      case Err(e) => Err(e)
      case Ok(q) => Walk(table, q, b)
    decreases |a|
  {
    if a == [] {
      assert a + b == b;
    } else {
      assert (a + b)[0] == a[0];
      assert (a + b)[1..] == a[1..] + b;
      match ReadWord(table, p + a[0])
      case Err(_) =>
      case Ok(q) => WalkAppend(table, q, a[1..], b);
    }
  }

  /** Walking one more card takes one lookup indexed by the state so far plus
      that card's value. */
  lemma WalkSnoc(table: seq<Byte>, p: Word, a: seq<nat>, c: nat)
    ensures Walk(table, p, a + [c]) ==
      match Walk(table, p, a)
      case Err(e) => Err(e)
      case Ok(q) => ReadWord(table, q + c)
  {
    WalkAppend(table, p, a, [c]);
    match Walk(table, p, a)
    case Err(_) =>
    case Ok(q) =>
      assert [c][1..] == [];
      match ReadWord(table, q + c)
      case Err(_) =>
      case Ok(_) =>
  }

  /** The walk is the recurrence p₀ = 53, pₖ₊₁ = T[pₖ + cₖ]: each state after
      `k + 1` cards is the lookup at the previous state plus the k-th value. */
  lemma WalkRecurrence(table: seq<Byte>, values: seq<nat>, k: nat)
    requires k < |values|
    ensures StateAfter(table, values, 0) == Ok(Start)
    ensures StateAfter(table, values, k + 1) ==
      match StateAfter(table, values, k)
      case Err(e) => Err(e)
      case Ok(q) => ReadWord(table, q + values[k])
  {
    assert values[..0] == [];
    assert values[..k + 1] == values[..k] + [values[k]];
    WalkSnoc(table, Start, values[..k], values[k]);
  }

  /** A walk succeeds exactly when every index it reads is inside the table;
      a successful walk reads exactly one index per card. */
  lemma {:induction false} LookupsInBounds(table: seq<Byte>, p: Word, values: seq<nat>)
    ensures |Lookups(table, p, values)| <= |values|
    ensures Walk(table, p, values).Ok? ==> |Lookups(table, p, values)| == |values|
    ensures Walk(table, p, values).Ok? <==>
      forall i :: 0 <= i < |Lookups(table, p, values)| ==> InBounds(table, Lookups(table, p, values)[i])
    decreases |values|
  {
    if values != [] {
      var L := Lookups(table, p, values);
      match ReadWord(table, p + values[0])
      case Err(_) =>
        assert !InBounds(table, L[0]);
      case Ok(q) =>
        LookupsInBounds(table, q, values[1..]);
        var R := Lookups(table, q, values[1..]);
        assert L == [p + values[0]] + R;
        assert InBounds(table, L[0]);
        assert forall i :: 0 < i < |L| ==> L[i] == R[i - 1];
        assert (forall i :: 0 <= i < |L| ==> InBounds(table, L[i])) <==>
               (forall j :: 0 <= j < |R| ==> InBounds(table, R[j])) by {
          if forall j :: 0 <= j < |R| ==> InBounds(table, R[j]) {
            forall i | 0 < i < |L| ensures InBounds(table, L[i]) {
              assert L[i] == R[i - 1];
            }
          }
          if forall i :: 0 <= i < |L| ==> InBounds(table, L[i]) {
            forall j | 0 <= j < |R| ensures InBounds(table, R[j]) {
              assert R[j] == L[j + 1];
            }
          }
        }
    }
  }

  /** The k-th index a successful walk reads is the state after `k` cards plus
      the k-th card value. */
  lemma {:induction false} LookupsAreSteps(table: seq<Byte>, p: Word, values: seq<nat>, k: nat)
    requires Walk(table, p, values).Ok?
    requires k < |values|
    ensures Walk(table, p, values[..k]).Ok?
    ensures |Lookups(table, p, values)| == |values|
    ensures Lookups(table, p, values)[k] == Walk(table, p, values[..k]).value + values[k]
    decreases k
  {
    LookupsInBounds(table, p, values);
    WalkAppend(table, p, values[..k], values[k..]);
    assert values[..k] + values[k..] == values;
    if k == 0 {
      assert values[..0] == [];
    } else {
      var q := ReadWord(table, p + values[0]).value;
      assert values[1..][..k - 1] == values[..k][1..];
      assert values[1..][k - 1] == values[k];
      LookupsAreSteps(table, q, values[1..], k - 1);
    }
  }

  /** Ranking reads `n + 1` words for 5- and 6-card hands and `n` otherwise;
      read k < n is at the state after k cards plus card k, the resolving
      read is at the final per-card state, and ranking succeeds exactly when
      all reads are inside the table. */
  lemma RankReads(table: seq<Byte>, values: seq<nat>)
    ensures Rank(table, values).Ok? <==>
      forall i :: 0 <= i < |RankLookups(table, values)| ==> InBounds(table, RankLookups(table, values)[i])
    ensures Rank(table, values).Ok? ==>
      |RankLookups(table, values)| == |values| + (if NeedsResolve(|values|) then 1 else 0)
    ensures Rank(table, values).Ok? ==>
      forall k :: 0 <= k < |values| ==>
        StateAfter(table, values, k).Ok? &&
        RankLookups(table, values)[k] == StateAfter(table, values, k).value + values[k]
    ensures Rank(table, values).Ok? && NeedsResolve(|values|) ==>
      StateAfter(table, values, |values|).Ok? &&
      RankLookups(table, values)[|values|] == StateAfter(table, values, |values|).value
  {
    LookupsInBounds(table, Start, values);
    var L := Lookups(table, Start, values);
    var RL := RankLookups(table, values);
    assert RL[..|L|] == L;
    assert values[..|values|] == values;
    match Walk(table, Start, values)
    case Err(_) =>
      assert RL == L;
    case Ok(p) =>
      if NeedsResolve(|values|) {
        assert RL == L + [p];
        assert RL[|L|] == p;
      } else {
        assert RL == L;
      }
    if Rank(table, values).Ok? {
      forall k | 0 <= k < |values|
        ensures StateAfter(table, values, k).Ok?
        ensures RL[k] == StateAfter(table, values, k).value + values[k]
      {
        LookupsAreSteps(table, Start, values, k);
      }
    }
  }
}
