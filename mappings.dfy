/**
 * The lookup tables built in `mappings.py`: code-to-name dictionaries, the
 * country groups and the element-to-item index of a wide table. A Python
 * `dict(pairs)` is a left fold over the pairs in which a later pair with the
 * same key overwrites an earlier one.
 */
module Mappings {
  import opened Wrappers
  import opened Unique

  /** The keys among `pairs`. */
  function KeysOf<K(==), W(==)>(pairs: seq<(K, W)>): set<K>
  {
    set p | p in pairs :: p.0
  }

  /** `pairs[j]` is the last pair with its key. */
  predicate LastWithKey<K(==), W(==)>(pairs: seq<(K, W)>, j: nat)
  {
    j < |pairs| && forall l :: j < l < |pairs| ==> pairs[l].0 != pairs[j].0
  }

  /** `dict(pairs)`: every key of `pairs`, bound by the last pair carrying it. */
  function DictOf<K(==), W(==)>(pairs: seq<(K, W)>): (m: map<K, W>)
    ensures m.Keys == KeysOf(pairs)
    ensures forall k :: k in m ==> (k, m[k]) in pairs
  {
    if pairs == [] then map[]
    else
      var p, last := pairs[..|pairs| - 1], pairs[|pairs| - 1];
      assert pairs == p + [last];
      assert KeysOf(pairs) == KeysOf(p) + {last.0};
      DictOf(p)[last.0 := last.1]
  }

  /** The last write wins: a key is bound to the value of the last pair that carries it. */
  lemma {:induction false} DictOfLastWins<K, W>(pairs: seq<(K, W)>, j: nat)
    requires LastWithKey(pairs, j)
    ensures pairs[j].0 in DictOf(pairs) && DictOf(pairs)[pairs[j].0] == pairs[j].1
  {
    var n := |pairs| - 1;
    if j < n {
      var p := pairs[..n];
      assert p[j] == pairs[j];
      assert LastWithKey(p, j);
      DictOfLastWins(p, j);
    }
  }

  /** A row of `get_column_unique_values`, read as the key/value entry of the mapping. */
  datatype Entry<V> = Scalar(v: V) | Pair(first: V, second: V)

  /** Why `get_mapping` raises. */
  datatype MappingError =
    | ShortRow(index: nat)                      // a row with fewer than three cells, indexed up to `x[2]`
    | BadPairLength(index: nat, length: nat)    // `dict` given a row that is not a key/value pair

  /** The row has the shape the mapping needs for `columns`: three cells or more for three columns, else a pair. */
  predicate Fits<V>(row: seq<V>, columns: seq<string>)
  {
    if |columns| == 3 then |row| >= 3 else |row| == 2
  }

  /** The first row that does not fit, if any. */
  function FirstBadRow<V>(rows: seq<seq<V>>, columns: seq<string>): (r: Option<nat>)
    ensures r.None? <==> forall k :: 0 <= k < |rows| ==> Fits(rows[k], columns)
    ensures r.Some? ==>
      && r.value < |rows| && !Fits(rows[r.value], columns)
      && forall k :: 0 <= k < r.value ==> Fits(rows[k], columns)
  {
    if rows == [] then None
    else if !Fits(rows[0], columns) then Some(0)
    else match FirstBadRow(rows[1..], columns)
      case None => None
      case Some(k) => Some(k + 1)
  }

  /** The entry of one row: `(a, (b, c))` for three columns, `(a, b)` otherwise. */
  function EntryOf<V>(row: seq<V>, columns: seq<string>): (V, Entry<V>)
    requires Fits(row, columns)
  {
    (row[0], if |columns| == 3 then Pair(row[1], row[2]) else Scalar(row[1]))
  }

  /** The entry of each row, in order. */
  function Entries<V>(rows: seq<seq<V>>, columns: seq<string>): (r: seq<(V, Entry<V>)>)
    requires forall k :: 0 <= k < |rows| ==> Fits(rows[k], columns)
    ensures |r| == |rows| && forall k :: 0 <= k < |rows| ==> r[k] == EntryOf(rows[k], columns)
  {
    if rows == [] then [] else Entries(rows[..|rows| - 1], columns) + [EntryOf(rows[|rows| - 1], columns)]
  }

  /**
   * `get_mapping` on the unique rows of the selected columns: for three
   * columns every row `(a, b, c)` becomes the entry `a: (b, c)`, otherwise
   * every row must be a pair `(a, b)`; `dict` then keeps the last entry per key.
   */
  function GetMapping<V(==)>(rows: seq<seq<V>>, columns: seq<string>): (r: Result<map<V, Entry<V>>, MappingError>)
    ensures r.Failure? ==> r.error.index < |rows| && !Fits(rows[r.error.index], columns)
    ensures r.Success? ==> forall k :: 0 <= k < |rows| ==> Fits(rows[k], columns) && rows[k][0] in r.value
  {
    match FirstBadRow(rows, columns)
    case Some(k) => Failure(if |columns| == 3 then ShortRow(k) else BadPairLength(k, |rows[k]|))
    case None =>
      var e := Entries(rows, columns);
      assert forall k :: 0 <= k < |rows| ==> e[k].0 == rows[k][0] && e[k] in e;
      Success(DictOf(e))
  }

  /**
   * `get_mapping` fails exactly when some row does not fit, naming the first
   * such row; otherwise its keys are exactly the first cells of the rows.
   */
  lemma GetMappingShape<V>(rows: seq<seq<V>>, columns: seq<string>)
    ensures GetMapping(rows, columns).Failure? <==> exists k :: 0 <= k < |rows| && !Fits(rows[k], columns)
    ensures GetMapping(rows, columns).Failure? ==>
      var k := FirstBadRow(rows, columns).value;
      GetMapping(rows, columns).error == if |columns| == 3 then ShortRow(k) else BadPairLength(k, |rows[k]|)
    ensures GetMapping(rows, columns).Success? ==>
      forall a :: a in GetMapping(rows, columns).value <==> exists k :: 0 <= k < |rows| && rows[k][0] == a
  {
    if FirstBadRow(rows, columns).None? {
      var e := Entries(rows, columns);
      forall a ensures a in KeysOf(e) <==> exists k :: 0 <= k < |rows| && rows[k][0] == a {
        if a in KeysOf(e) {
          var p :| p in e && p.0 == a;
          var k :| 0 <= k < |e| && e[k] == p;
          assert rows[k][0] == a;
        }
        if exists k :: 0 <= k < |rows| && rows[k][0] == a {
          var k :| 0 <= k < |rows| && rows[k][0] == a;
          assert e[k] in e;
        }
      }
    }
  }

  /**
   * The last row with key `a` decides its entry: `(b, c)` for three columns,
   * `b` otherwise.
   */
  lemma GetMappingLastWins<V>(rows: seq<seq<V>>, columns: seq<string>, j: nat)
    requires GetMapping(rows, columns).Success? && j < |rows|
    requires forall l :: j < l < |rows| ==> rows[l][0] != rows[j][0]
    ensures rows[j][0] in GetMapping(rows, columns).value
    ensures GetMapping(rows, columns).value[rows[j][0]]
         == if |columns| == 3 then Pair(rows[j][1], rows[j][2]) else Scalar(rows[j][1])
  {
    var e := Entries(rows, columns);
    assert LastWithKey(e, j);
    DictOfLastWins(e, j);
  }

  /** `get_area_mapping`: `dict` over the distinct `(countrycode, country)` rows. */
  function GetAreaMapping(areas: seq<(int, string)>): (m: map<int, string>)
    ensures forall c :: c in m ==> (c, m[c]) in areas
  {
    DictOf(Distinct(areas))
  }

  /** The keys of the area mapping are exactly the country codes of the rows. */
  lemma GetAreaMappingKeys(areas: seq<(int, string)>)
    ensures forall c :: c in GetAreaMapping(areas) <==> exists k :: 0 <= k < |areas| && areas[k].0 == c
  {
    var d := Distinct(areas);
    forall c ensures c in KeysOf(d) <==> exists k :: 0 <= k < |areas| && areas[k].0 == c {
      if c in KeysOf(d) {
        var p :| p in d && p.0 == c;
        var k :| 0 <= k < |areas| && areas[k] == p;
      }
      if exists k :: 0 <= k < |areas| && areas[k].0 == c {
        var k :| 0 <= k < |areas| && areas[k].0 == c;
        assert areas[k] in d;
      }
    }
  }

  /**
   * A code is mapped to the name of its `(code, name)` pair that appears
   * first the latest: the last one that `drop_duplicates` keeps.
   */
  lemma GetAreaMappingName(areas: seq<(int, string)>, j: nat)
    requires j < |areas|
    requires forall l :: 0 <= l < |areas| && areas[l].0 == areas[j].0 ==>
      FirstIndex(areas, areas[l]) <= FirstIndex(areas, areas[j])
    ensures areas[j].0 in GetAreaMapping(areas) && GetAreaMapping(areas)[areas[j].0] == areas[j].1
  {
    var d := Distinct(areas);
    assert areas[j] in d;
    var p :| 0 <= p < |d| && d[p] == areas[j];
    DistinctOrder(areas);
    forall q | p < q < |d| ensures d[q].0 != d[p].0 {
      var l :| 0 <= l < |areas| && areas[l] == d[q];
      assert FirstIndex(areas, d[p]) < FirstIndex(areas, d[q]);
    }
    assert LastWithKey(d, p);
    DictOfLastWins(d, p);
  }

  /**
   * `get_country_groups`: `groupby('countrygroupcode')['countrycode'].agg(set)`
   * as a dictionary from each group code to the set of its member codes.
   */
  function GetCountryGroups(rows: seq<(int, int)>): (m: map<int, set<int>>)
    ensures m.Keys == KeysOf(rows)
    ensures forall g, c :: g in m ==> (c in m[g] <==> (g, c) in rows)
  {
    if rows == [] then map[]
    else
      var p, last := rows[..|rows| - 1], rows[|rows| - 1];
      assert rows == p + [last];
      var m := GetCountryGroups(p);
      m[last.0 := (if last.0 in m then m[last.0] else {}) + {last.1}]
  }

  /** A row of the wide table: its index columns and the cells that are not missing. */
  datatype WideRow = WideRow(areacode: int, year: int, itemcode: int, cells: map<string, real>)

  /** The column that reading the CSV adds for its unnamed index. */
  const Sentinel: string := "Unnamed: 0"

  /**
   * The columns left by `unstack` over item codes and `dropna(how='all')`:
   * the `(column, itemcode)` pairs with a non-missing cell in some row.
   */
  function ColumnItemPairs(df: seq<WideRow>): (r: set<(string, int)>)
    ensures forall k, e :: 0 <= k < |df| && e in df[k].cells ==> (e, df[k].itemcode) in r
    ensures forall p :: p in r ==> exists k :: 0 <= k < |df| && df[k].itemcode == p.1 && p.0 in df[k].cells
  {
    set k, e | 0 <= k < |df| && e in df[k].cells :: (e, df[k].itemcode)
  }

  /** The columns among `pairs`, leaving out the sentinel. */
  function ColumnsOf(pairs: set<(string, int)>): set<string>
  {
    set p | p in pairs && p.0 != Sentinel :: p.0
  }

  /**
   * `eToI` indexes the pairs `done`: its keys are their columns other than the
   * sentinel, and each column's list holds its item codes, each once.
   */
  ghost predicate Indexes(eToI: map<string, seq<int>>, done: set<(string, int)>)
  {
    && eToI.Keys == ColumnsOf(done)
    && (forall e :: e in eToI ==> eToI[e] != [] && NoDup(eToI[e]))
    && (forall e, i :: e in eToI ==> (i in eToI[e] <==> (e, i) in done))
  }

  /** One step of the loop: the pair's item code goes at the end of its column's list. */
  function Record(eToI: map<string, seq<int>>, e: string, i: int): map<string, seq<int>>
  {
    eToI[e := if e in eToI then eToI[e] + [i] else [i]]
  }

  /** Recording a pair that is not yet indexed, unless its column is the sentinel, indexes it too. */
  lemma RecordIndexes(eToI: map<string, seq<int>>, done: set<(string, int)>, p: (string, int))
    requires Indexes(eToI, done) && p !in done
    ensures Indexes(if p.0 != Sentinel then Record(eToI, p.0, p.1) else eToI, done + {p})
  {
    var (e, i) := p;
    assert ColumnsOf(done + {p}) == ColumnsOf(done) + (if e != Sentinel then {e} else {});
    if e != Sentinel && e in eToI {
      assert i !in eToI[e];
    }
  }

  /**
   * The loop of `extract_element_to_item` over the pairs `eAndI`: each column
   * other than the sentinel, mapped to the list of its item codes, each once,
   * in the order the set yields them.
   */
  method IndexColumns(eAndI: set<(string, int)>) returns (eToI: map<string, seq<int>>)
    ensures Sentinel !in eToI
    ensures eToI.Keys == ColumnsOf(eAndI)
    ensures forall e :: e in eToI ==> eToI[e] != [] && NoDup(eToI[e])
    ensures forall e, i :: e in eToI ==> (i in eToI[e] <==> (e, i) in eAndI)
  {
    eToI := map[];
    var rest := eAndI;
    ghost var done: set<(string, int)> := {};
    while rest != {}
      invariant rest + done == eAndI && rest !! done
      invariant Indexes(eToI, done)
      decreases rest
    {
      var p :| p in rest;
      var (e, i) := p;
      RecordIndexes(eToI, done, p);
      if e != Sentinel {
        eToI := Record(eToI, e, i);
      }
      rest := rest - {p};
      done := done + {p};
    }
  }

  /**
   * `extract_element_to_item`: each column other than the sentinel that has
   * values for some item code, mapped to the list of those item codes, each
   * once, in the order the set yields them.
   */
  method ExtractElementToItem(df: seq<WideRow>) returns (eToI: map<string, seq<int>>)
    ensures Sentinel !in eToI
    ensures eToI.Keys == ColumnsOf(ColumnItemPairs(df))
    ensures forall e :: e in eToI ==> eToI[e] != [] && NoDup(eToI[e])
    ensures forall e, i :: e in eToI ==> (i in eToI[e] <==> (e, i) in ColumnItemPairs(df))
  {
    eToI := IndexColumns(ColumnItemPairs(df));
  }
}
