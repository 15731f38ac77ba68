/**
 * `add_zero_values`: completes a filtered table so that every distinct item
 * code appears under every distinct element code, synthesizing a zero-valued
 * line for each missing (item, element) combination.
 */
module ZeroFill {
  import opened Wrappers
  import opened Unique
  import opened Table

  /**
   * One line of the completed frame: a row of the input kept as it is, or a
   * synthesized line. A synthesized line has no year (pandas fills the
   * column with NaN when the frame is rebuilt).
   */
  datatype Line =
    | Kept(row: Row)
    | Filled(elementcode: int, element: string, unit: string, itemcode: int, item: string, value: real)
  {
    function ItemCode(): int
    {
      if Kept? then row.itemcode else itemcode
    }

    function ElementCode(): int
    {
      if Kept? then row.elementcode else elementcode
    }
  }

  /** The mask `(df.elementcode == e) & (df.itemcode == i)`. */
  function Cell(i: int, e: int): Query
  {
    And(ElementIs(e), ItemIs(i))
  }

  /** `df.itemcode.unique()`. */
  function ItemCodes(df: seq<Row>): seq<int>
  {
    Distinct(ItemColumn(df))
  }

  /** `df.elementcode.unique()`. */
  function ElementCodes(df: seq<Row>): seq<int>
  {
    Distinct(ElementColumn(df))
  }

  /** A code taken from a column has a first row carrying it. */
  lemma ItemIsPresent(df: seq<Row>, i: int)
    requires i in ItemColumn(df)
    ensures FirstWhere(df, ItemIs(i)).Some?
  {
    var k :| 0 <= k < |df| && ItemColumn(df)[k] == i;
    assert Holds(ItemIs(i), df[k]);
  }

  /** A code taken from a column has a first row carrying it. */
  lemma ElementIsPresent(df: seq<Row>, e: int)
    requires e in ElementColumn(df)
    ensures FirstWhere(df, ElementIs(e)).Some?
  {
    var k :| 0 <= k < |df| && ElementColumn(df)[k] == e;
    assert Holds(ElementIs(e), df[k]);
  }

  /**
   * The line the loop body appends for item `i` and element `e`: the first
   * row with that pair, or a zero line named after the first rows with item
   * `i` and with element `e`.
   */
  function LineFor(df: seq<Row>, i: int, e: int): (l: Line)
    requires i in ItemColumn(df) && e in ElementColumn(df)
    ensures l.ItemCode() == i && l.ElementCode() == e
  {
    ItemIsPresent(df, i);
    ElementIsPresent(df, e);
    var first := df[FirstWhere(df, ElementIs(e)).value];
    match FirstWhere(df, Cell(i, e))
    case None =>
      Filled(e, first.element, first.unit, i, df[FirstWhere(df, ItemIs(i)).value].item, 0.0)
    case Some(k) =>
      assert Holds(ElementIs(e), df[k]) && Holds(ItemIs(i), df[k]);
      Kept(df[k])
  }

  /**
   * An existing pair contributes its first row unchanged; a missing pair gets
   * a line with value 0 whose element name and unit are those of the first
   * row with element `e` and whose item name is that of the first row with
   * item `i`.
   */
  lemma LineForSpec(df: seq<Row>, i: int, e: int)
    requires i in ItemColumn(df) && e in ElementColumn(df)
    ensures FirstWhere(df, ItemIs(i)).Some? && FirstWhere(df, ElementIs(e)).Some?
    ensures LineFor(df, i, e).Kept? <==> !NoneMatch(df, Cell(i, e))
    ensures LineFor(df, i, e).Kept? ==> LineFor(df, i, e).row == df[FirstWhere(df, Cell(i, e)).value]
    ensures LineFor(df, i, e).Filled? ==> LineFor(df, i, e).value == 0.0
    ensures LineFor(df, i, e).Filled? ==> LineFor(df, i, e).item == df[FirstWhere(df, ItemIs(i)).value].item
    ensures LineFor(df, i, e).Filled? ==>
      && LineFor(df, i, e).element == df[FirstWhere(df, ElementIs(e)).value].element
      && LineFor(df, i, e).unit == df[FirstWhere(df, ElementIs(e)).value].unit
  {
    ItemIsPresent(df, i);
    ElementIsPresent(df, e);
  }

  /** Every code of `cs` is an item code of `df`. */
  predicate ItemsOf(df: seq<Row>, cs: seq<int>)
  {
    forall k :: 0 <= k < |cs| ==> cs[k] in ItemColumn(df)
  }

  /** Every code of `es` is an element code of `df`. */
  predicate ElementsOf(df: seq<Row>, es: seq<int>)
  {
    forall k :: 0 <= k < |es| ==> es[k] in ElementColumn(df)
  }

  /** The lines appended for item `i` over the element codes `es`, in order. */
  function Block(df: seq<Row>, i: int, es: seq<int>): seq<Line>
    requires i in ItemColumn(df)
    requires ElementsOf(df, es)
  {
    if es == [] then []
    else Block(df, i, es[..|es| - 1]) + [LineFor(df, i, es[|es| - 1])]
  }

  /** The lines appended over the item codes `cs`, item-major. */
  function Grid(df: seq<Row>, cs: seq<int>, es: seq<int>): seq<Line>
    requires ItemsOf(df, cs)
    requires ElementsOf(df, es)
  {
    if cs == [] then []
    else Grid(df, cs[..|cs| - 1], es) + Block(df, cs[|cs| - 1], es)
  }

  /** The lines of the completed frame, before `reset_index`. */
  function ZeroFilled(df: seq<Row>): (r: seq<Line>)
    ensures |r| == |ItemCodes(df)| * |ElementCodes(df)|
  {
    GridLength(df, ItemCodes(df), ElementCodes(df));
    OffsetIsProduct(|ItemCodes(df)|, |ElementCodes(df)|, 0);
    Grid(df, ItemCodes(df), ElementCodes(df))
  }

  /** How many lines carry the pair (`i`, `e`). */
  function Count(lines: seq<Line>, i: int, e: int): nat
  {
    if lines == [] then 0
    else
      var l := lines[|lines| - 1];
      Count(lines[..|lines| - 1], i, e) + if l.ItemCode() == i && l.ElementCode() == e then 1 else 0
  }

  lemma {:induction false} CountConcat(a: seq<Line>, b: seq<Line>, i: int, e: int)
    ensures Count(a + b, i, e) == Count(a, i, e) + Count(b, i, e)
  {
    if b == [] {
      assert a + b == a;
    } else {
      assert (a + b)[..|a + b| - 1] == a + b[..|b| - 1];
      CountConcat(a, b[..|b| - 1], i, e);
    }
  }

  lemma {:induction false} BlockCount(df: seq<Row>, i': int, es: seq<int>, i: int, e: int)
    requires i' in ItemColumn(df)
    requires ElementsOf(df, es)
    ensures Count(Block(df, i', es), i, e) == if i' == i then multiset(es)[e] else 0
  {
    if es != [] {
      var p := es[..|es| - 1];
      assert es == p + [es[|es| - 1]];
      BlockCount(df, i', p, i, e);
      CountConcat(Block(df, i', p), [LineFor(df, i', es[|es| - 1])], i, e);
      assert Count([LineFor(df, i', es[|es| - 1])], i, e)
          == if i' == i && es[|es| - 1] == e then 1 else 0;
    }
  }

  lemma {:induction false} GridCount(df: seq<Row>, cs: seq<int>, es: seq<int>, i: int, e: int)
    requires ItemsOf(df, cs)
    requires ElementsOf(df, es)
    requires NoDup(es)
    ensures Count(Grid(df, cs, es), i, e) == if e in es then multiset(cs)[i] else 0
  {
    if cs != [] {
      var p := cs[..|cs| - 1];
      assert cs == p + [cs[|cs| - 1]];
      GridCount(df, p, es, i, e);
      BlockCount(df, cs[|cs| - 1], es, i, e);
      NoDupMultiplicity(es, e);
      CountConcat(Grid(df, p, es), Block(df, cs[|cs| - 1], es), i, e);
      assert multiset(cs)[i] == multiset(p)[i] + if cs[|cs| - 1] == i then 1 else 0;
    }
  }

  lemma {:induction false} BlockLength(df: seq<Row>, i: int, es: seq<int>)
    requires i in ItemColumn(df)
    requires ElementsOf(df, es)
    ensures |Block(df, i, es)| == |es|
  {
    if es != [] {
      BlockLength(df, i, es[..|es| - 1]);
    }
  }

  lemma {:induction false} BlockAt(df: seq<Row>, i: int, es: seq<int>, b: nat)
    requires i in ItemColumn(df)
    requires ElementsOf(df, es)
    requires b < |es|
    ensures |Block(df, i, es)| == |es| && Block(df, i, es)[b] == LineFor(df, i, es[b])
  {
    BlockLength(df, i, es);
    if b < |es| - 1 {
      BlockAt(df, i, es[..|es| - 1], b);
    } else {
      BlockLength(df, i, es[..|es| - 1]);
    }
  }

  /** The position of the `b`-th line of the `a`-th block of `m` lines, that is `a * m + b`. */
  function Offset(a: nat, m: nat, b: nat): nat
  {
    if a == 0 then b else m + Offset(a - 1, m, b)
  }

  lemma {:induction false} OffsetIsProduct(a: nat, m: nat, b: nat)
    ensures Offset(a, m, b) == a * m + b
  {
    if a > 0 {
      OffsetIsProduct(a - 1, m, b);
      assert a * m == (a - 1) * m + m;
    }
  }

  lemma {:induction false} OffsetShift(a: nat, m: nat, b: nat)
    ensures Offset(a, m, b) == Offset(a, m, 0) + b
  {
    if a > 0 {
      OffsetShift(a - 1, m, b);
    }
  }

  lemma {:induction false} GridLength(df: seq<Row>, cs: seq<int>, es: seq<int>)
    requires ItemsOf(df, cs)
    requires ElementsOf(df, es)
    ensures |Grid(df, cs, es)| == Offset(|cs|, |es|, 0)
  {
    if cs != [] {
      GridLength(df, cs[..|cs| - 1], es);
      BlockLength(df, cs[|cs| - 1], es);
    }
  }

  lemma {:induction false} GridAt(df: seq<Row>, cs: seq<int>, es: seq<int>, a: nat, b: nat)
    requires ItemsOf(df, cs)
    requires ElementsOf(df, es)
    requires a < |cs| && b < |es|
    ensures Offset(a, |es|, b) < |Grid(df, cs, es)|
    ensures Grid(df, cs, es)[Offset(a, |es|, b)] == LineFor(df, cs[a], es[b])
  {
    if a < |cs| - 1 {
      GridAt(df, cs[..|cs| - 1], es, a, b);
      GridAtFront(df, cs, es, a, b);
    } else {
      GridAtLast(df, cs, es, b);
    }
  }

  /** A line of the grid over all but the last item code stays where it is. */
  lemma GridAtFront(df: seq<Row>, cs: seq<int>, es: seq<int>, a: nat, b: nat)
    requires ItemsOf(df, cs)
    requires ElementsOf(df, es)
    requires a < |cs| - 1 && b < |es|
    requires Offset(a, |es|, b) < |Grid(df, cs[..|cs| - 1], es)|
    requires Grid(df, cs[..|cs| - 1], es)[Offset(a, |es|, b)] == LineFor(df, cs[..|cs| - 1][a], es[b])
    ensures Offset(a, |es|, b) < |Grid(df, cs, es)|
    ensures Grid(df, cs, es)[Offset(a, |es|, b)] == LineFor(df, cs[a], es[b])
  {
    var p := cs[..|cs| - 1];
    assert Grid(df, cs, es) == Grid(df, p, es) + Block(df, cs[|cs| - 1], es);
    assert p[a] == cs[a];
  }

  /** The grid is the grid over all but the last item code, then the last item's block. */
  lemma GridSnoc(df: seq<Row>, cs: seq<int>, es: seq<int>)
    requires ItemsOf(df, cs)
    requires ElementsOf(df, es)
    requires cs != []
    ensures ItemsOf(df, cs[..|cs| - 1]) && cs[|cs| - 1] in ItemColumn(df)
    ensures Grid(df, cs, es) == Grid(df, cs[..|cs| - 1], es) + Block(df, cs[|cs| - 1], es)
    ensures |Grid(df, cs[..|cs| - 1], es)| == Offset(|cs| - 1, |es|, 0)
  {
    GridLength(df, cs[..|cs| - 1], es);
  }

  /** The lines of the last item code follow the grid over the item codes before it. */
  lemma GridAtLast(df: seq<Row>, cs: seq<int>, es: seq<int>, b: nat)
    requires ItemsOf(df, cs)
    requires ElementsOf(df, es)
    requires cs != [] && b < |es|
    ensures Offset(|cs| - 1, |es|, b) < |Grid(df, cs, es)|
    ensures Grid(df, cs, es)[Offset(|cs| - 1, |es|, b)] == LineFor(df, cs[|cs| - 1], es[b])
  {
    GridSnoc(df, cs, es);
    var i := cs[|cs| - 1];
    BlockAt(df, i, es, b);
    OffsetShift(|cs| - 1, |es|, b);
    ConcatAt(Grid(df, cs[..|cs| - 1], es), Block(df, i, es), b);
  }

  /** Position `|front| + b` of `front + back` is position `b` of `back`. */
  lemma ConcatAt<T>(front: seq<T>, back: seq<T>, b: nat)
    requires b < |back|
    ensures |front| + b < |front + back| && (front + back)[|front| + b] == back[b]
  {
  }

  /**
   * Every (item, element) pair of codes present in the table occurs exactly
   * once in the completed frame, and no other pair occurs.
   */
  lemma ZeroFilledExactlyOnce(df: seq<Row>, i: int, e: int)
    ensures Count(ZeroFilled(df), i, e) == if i in ItemColumn(df) && e in ElementColumn(df) then 1 else 0
  {
    GridCount(df, ItemCodes(df), ElementCodes(df), i, e);
    NoDupMultiplicity(ItemCodes(df), i);
    NoDupMultiplicity(ElementCodes(df), e);
  }

  /**
   * The frame is item-major: line `a * m + b`, for
   * `m` distinct element codes, is the line for the `a`-th distinct item code
   * and the `b`-th distinct element code, both in first-appearance order.
   */
  lemma ZeroFilledAt(df: seq<Row>, a: nat, b: nat)
    requires a < |ItemCodes(df)| && b < |ElementCodes(df)|
    ensures Offset(a, |ElementCodes(df)|, b) == a * |ElementCodes(df)| + b
    ensures Offset(a, |ElementCodes(df)|, b) < |ZeroFilled(df)|
    ensures ZeroFilled(df)[Offset(a, |ElementCodes(df)|, b)] == LineFor(df, ItemCodes(df)[a], ElementCodes(df)[b])
  {
    GridAt(df, ItemCodes(df), ElementCodes(df), a, b);
    OffsetIsProduct(a, |ElementCodes(df)|, b);
  }

  lemma GridExtend(df: seq<Row>, cs: seq<int>, es: seq<int>, a: nat)
    requires ItemsOf(df, cs)
    requires ElementsOf(df, es)
    requires a < |cs|
    ensures Grid(df, cs[..a + 1], es) == Grid(df, cs[..a], es) + Block(df, cs[a], es)
  {
    assert cs[..a + 1][..a] == cs[..a];
  }

  lemma BlockExtend(df: seq<Row>, i: int, es: seq<int>, b: nat)
    requires i in ItemColumn(df)
    requires ElementsOf(df, es)
    requires b < |es|
    ensures Block(df, i, es[..b + 1]) == Block(df, i, es[..b]) + [LineFor(df, i, es[b])]
  {
    assert es[..b + 1][..b] == es[..b];
  }

  /** Appending the line of element `elements[b]` extends the block by one line. */
  lemma BlockStep(df: seq<Row>, i: int, elements: seq<int>, b: nat, start: seq<Line>)
    requires i in ItemColumn(df)
    requires ElementsOf(df, elements)
    requires b < |elements|
    ensures start + Block(df, i, elements[..b]) + [LineFor(df, i, elements[b])] == start + Block(df, i, elements[..b + 1])
  {
    BlockExtend(df, i, elements, b);
    var front := Block(df, i, elements[..b]);
    assert (start + front) + [LineFor(df, i, elements[b])] == start + (front + [LineFor(df, i, elements[b])]);
  }

  /**
   * The body of the inner loop: looks up the element name and unit, then
   * keeps the first row with the pair or synthesizes a zero line.
   */
  method MakeLine(df: seq<Row>, i: int, item: string, e: int) returns (line: Line)
    requires i in ItemColumn(df) && e in ElementColumn(df)
    requires FirstWhere(df, ItemIs(i)).Some? && item == df[FirstWhere(df, ItemIs(i)).value].item
    ensures line == LineFor(df, i, e)
  {
    ElementIsPresent(df, e);
    var first := df[FirstWhere(df, ElementIs(e)).value];
    var element, unit := first.element, first.unit;
    var data := FirstWhere(df, Cell(i, e));
    if data.None? {
      line := Filled(e, element, unit, i, item, 0.0);
    } else {
      line := Kept(df[data.value]);
    }
  }

  /**
   * One pass of the outer loop for item code `i`: looks up the item name and
   * appends the item's line for each element code in `elements`, in order.
   */
  method AppendItemLines(df: seq<Row>, i: int, elements: seq<int>, start: seq<Line>) returns (newDf: seq<Line>)
    requires i in ItemColumn(df)
    requires ElementsOf(df, elements)
    ensures newDf == start + Block(df, i, elements)
  {
    ItemIsPresent(df, i);
    var item := df[FirstWhere(df, ItemIs(i)).value].item;
    newDf := start;
    for b := 0 to |elements|
      invariant newDf == start + Block(df, i, elements[..b])
    {
      var line := MakeLine(df, i, item, elements[b]);
      BlockStep(df, i, elements, b, start);
      newDf := newDf + [line];
    }
    assert elements[..|elements|] == elements;
  }

  /** The nested loops of `add_zero_values`, appending one line per pair. */
  method AddZeroValues(df: seq<Row>) returns (newDf: seq<Line>)
    ensures newDf == ZeroFilled(df)
    ensures |newDf| == |ItemCodes(df)| * |ElementCodes(df)|
  {
    var items := ItemCodes(df);
    var elements := ElementCodes(df);
    newDf := [];
    for a := 0 to |items|
      invariant newDf == Grid(df, items[..a], elements)
    {
      newDf := AppendItemLines(df, items[a], elements, newDf);
      GridExtend(df, items, elements, a);
    }
    assert items[..|items|] == items;
  }
}
