/**
 * The long-format observation table that the plotting helpers receive: one
 * record per (area, item, element, year), and the boolean row masks the
 * helpers filter it with (`df.itemcode == i`, `df.elementcode.isin(codes)`,
 * combined with `&`).
 */
module Table {
  import opened Wrappers

  /** One observation. `value` is the observed quantity. */
  datatype Row = Row(
    areacode: int, area: string,
    itemcode: int, item: string,
    elementcode: int, element: string, unit: string,
    year: int, value: real)

  /** A row mask. */
  datatype Query =
    | AreaIs(areacode: int)
    | ItemIs(itemcode: int)
    | ElementIs(elementcode: int)
    | YearIs(year: int)
    | ElementIn(elementcodes: seq<int>)
    | And(left: Query, right: Query)

  /** Whether `r` passes the mask `q`. */
  predicate Holds(q: Query, r: Row)
  {
    match q
    case AreaIs(a) => r.areacode == a
    case ItemIs(i) => r.itemcode == i
    case ElementIs(e) => r.elementcode == e
    case YearIs(y) => r.year == y
    case ElementIn(es) => r.elementcode in es
    case And(q1, q2) => Holds(q1, r) && Holds(q2, r)
  }

  /** No row of `df` passes `q` (the filtered frame has length 0). */
  predicate NoneMatch(df: seq<Row>, q: Query)
  {
    forall k {:trigger Holds(q, df[k])} :: 0 <= k < |df| ==> !Holds(q, df[k])
  }

  /** Row `k` is the first row of `df` that passes `q` (what `.iloc[0]` picks). */
  predicate IsFirst(df: seq<Row>, q: Query, k: int)
  {
    0 <= k < |df| && Holds(q, df[k]) && forall j {:trigger Holds(q, df[j])} :: 0 <= j < k ==> !Holds(q, df[j])
  }

  /** The position of the first row that passes `q`, if any. */
  function FirstWhere(df: seq<Row>, q: Query): (r: Option<nat>)
    ensures r.None? <==> NoneMatch(df, q)
    ensures r.Some? ==> IsFirst(df, q, r.value)
  {
    if df == [] then None
    else if Holds(q, df[0]) then Some(0)
    else
      match FirstWhere(df[1..], q)
      case None => None
      case Some(n) => Some(n + 1)
  }

  /** `df[mask]`: the rows that pass `q`, in table order. */
  function Select(df: seq<Row>, q: Query): (s: seq<Row>)
    ensures |s| <= |df|
    ensures forall k :: 0 <= k < |s| ==> Holds(q, s[k]) && s[k] in df
    ensures forall k :: 0 <= k < |df| && Holds(q, df[k]) ==> df[k] in s
  {
    if df == [] then []
    else (if Holds(q, df[0]) then [df[0]] else []) + Select(df[1..], q)
  }

  /** `df[mask]` keeps table order: filtering a concatenation filters each part in turn. */
  lemma {:induction false} SelectAppend(a: seq<Row>, b: seq<Row>, q: Query)
    ensures Select(a + b, q) == Select(a, q) + Select(b, q)
  {
    if a != [] {
      assert (a + b)[0] == a[0] && (a + b)[1..] == a[1..] + b;
      SelectAppend(a[1..], b, q);
      SelectCons(a + b, q);
      SelectCons(a, q);
    } else {
      assert a + b == b;
    }
  }

  /** `df[mask]` keeps every passing row as often as the table holds it, and no other row. */
  lemma {:induction false} SelectMultiplicity(df: seq<Row>, q: Query, r: Row)
    ensures multiset(Select(df, q))[r] == if Holds(q, r) then multiset(df)[r] else 0
  {
    if df != [] {
      SelectMultiplicity(df[1..], q, r);
      SelectCons(df, q);
      var head := if Holds(q, df[0]) then [df[0]] else [];
      assert multiset(Select(df, q)) == multiset(head) + multiset(Select(df[1..], q));
      assert multiset(df) == multiset([df[0]]) + multiset(df[1..]) by {
        assert df == [df[0]] + df[1..];
      }
    }
  }

  /**
   * Filtering first does not change which row a later `.iloc[0]` picks: the
   * first row of `df[q1]` passing `q2` is the first row of `df` passing both.
   */
  predicate KeepsFirst(df: seq<Row>, q1: Query, q2: Query)
  {
    && (FirstWhere(Select(df, q1), q2).None? <==> FirstWhere(df, And(q1, q2)).None?)
    && (FirstWhere(Select(df, q1), q2).Some? ==>
          Select(df, q1)[FirstWhere(Select(df, q1), q2).value] == df[FirstWhere(df, And(q1, q2)).value])
  }

  /** Filtering first and then picking the first match is picking the first row passing both masks. */
  lemma {:induction false} SelectKeepsFirst(df: seq<Row>, q1: Query, q2: Query)
    ensures KeepsFirst(df, q1, q2)
  {
    if df != [] {
      SelectKeepsFirst(df[1..], q1, q2);
      if Holds(q1, df[0]) {
        KeepsFirstKept(df, q1, q2);
      } else {
        KeepsFirstSkipped(df, q1, q2);
      }
    }
  }

  /** The step of `SelectKeepsFirst` when the head passes `q1`. */
  lemma KeepsFirstKept(df: seq<Row>, q1: Query, q2: Query)
    requires df != [] && Holds(q1, df[0]) && KeepsFirst(df[1..], q1, q2)
    ensures KeepsFirst(df, q1, q2)
  {
    SelectCons(df, q1);
    FirstWhereCons(df, And(q1, q2));
    if !Holds(q2, df[0]) {
      KeptShift(df[0], Select(df[1..], q1), q2);
    }
  }

  /** Past a head that fails `q`, the first match of `[h] + t` is one past that of `t`. */
  lemma KeptShift(h: Row, t: seq<Row>, q: Query)
    requires !Holds(q, h)
    ensures FirstWhere([h] + t, q).None? <==> FirstWhere(t, q).None?
    ensures FirstWhere(t, q).Some? ==>
      FirstWhere([h] + t, q) == Some(FirstWhere(t, q).value + 1) && ([h] + t)[FirstWhere(t, q).value + 1] == t[FirstWhere(t, q).value]
  {
    assert ([h] + t)[1..] == t;
  }

  /** `df[mask]` on a non-empty table: the head if it passes, then the filtered tail. */
  lemma SelectCons(df: seq<Row>, q: Query)
    requires df != []
    ensures Select(df, q) == (if Holds(q, df[0]) then [df[0]] else []) + Select(df[1..], q)
  {
  }

  /** The step of `SelectKeepsFirst` when the head fails `q1`. */
  lemma KeepsFirstSkipped(df: seq<Row>, q1: Query, q2: Query)
    requires df != [] && !Holds(q1, df[0]) && KeepsFirst(df[1..], q1, q2)
    ensures KeepsFirst(df, q1, q2)
  {
    SelectCons(df, q1);
    assert Select(df, q1) == Select(df[1..], q1);
    FirstWhereCons(df, And(q1, q2));
  }

  /** The first match in a non-empty table is its head or one past the first match in its tail. */
  lemma FirstWhereCons(df: seq<Row>, q: Query)
    requires df != []
    ensures FirstWhere(df, q) ==
      if Holds(q, df[0]) then Some(0)
      else if FirstWhere(df[1..], q).None? then None
      else Some(FirstWhere(df[1..], q).value + 1)
  {
  }

  /** The `itemcode` column. */
  function ItemColumn(df: seq<Row>): (c: seq<int>)
    ensures |c| == |df| && forall k :: 0 <= k < |df| ==> c[k] == df[k].itemcode
  {
    if df == [] then [] else ItemColumn(df[..|df| - 1]) + [df[|df| - 1].itemcode]
  }

  /** The `elementcode` column. */
  function ElementColumn(df: seq<Row>): (c: seq<int>)
    ensures |c| == |df| && forall k :: 0 <= k < |df| ==> c[k] == df[k].elementcode
  {
    if df == [] then [] else ElementColumn(df[..|df| - 1]) + [df[|df| - 1].elementcode]
  }

  /** The `year` column. */
  function YearColumn(df: seq<Row>): (c: seq<int>)
    ensures |c| == |df| && forall k :: 0 <= k < |df| ==> c[k] == df[k].year
  {
    if df == [] then [] else YearColumn(df[..|df| - 1]) + [df[|df| - 1].year]
  }

  /** The `(item, itemcode)` column pair. */
  function ItemPairColumn(df: seq<Row>): (c: seq<(string, int)>)
    ensures |c| == |df| && forall k :: 0 <= k < |df| ==> c[k] == (df[k].item, df[k].itemcode)
  {
    if df == [] then [] else ItemPairColumn(df[..|df| - 1]) + [(df[|df| - 1].item, df[|df| - 1].itemcode)]
  }
}
