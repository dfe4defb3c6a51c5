/**
 * util/stats/Statistics.java: a table of named columns, the string columns
 * and the numeric columns kept apart, each an ordered list of its names plus
 * a map from name to the values appended so far. Rows are read across the
 * columns, string columns first. Numeric values are exact reals here; the
 * MathContext rounding of BigDecimal and the conversion to Double are not
 * modelled, and toPlainString is a given formatting function.
 */
module Stats {
  import opened Wrappers

  /** IllegalArgumentException (no such column), IndexOutOfBoundsException and ArithmeticException. */
  datatype StatsError = NoSuchColumn(column: string) | IndexOutOfRange | DivisionByZero | NotFinite

  /** A Java double: a finite value, or one of the values new BigDecimal(double, mc) refuses. */
  datatype JDouble = Finite(x: real) | NaN | PositiveInfinity | NegativeInfinity

  /** The four fields of a Statistics object, as a value. */
  datatype Table = Table(stringColumns: seq<string>, numericColumns: seq<string>,
                         stringValues: map<string, seq<string>>, numericValues: map<string, seq<real>>)

  predicate Distinct(s: seq<string>) {
    forall i, j :: 0 <= i < j < |s| ==> s[i] != s[j]
  }

  /** A list of column names and the values of those columns: each name listed once, and exactly the listed names mapped. */
  ghost predicate Registered<T>(columns: seq<string>, values: map<string, seq<T>>) {
    Distinct(columns) && forall c :: c in values <==> c in columns
  }

  /** What every Statistics object keeps: both kinds of columns registered. */
  ghost predicate WellFormed(t: Table) {
    Registered(t.stringColumns, t.stringValues) && Registered(t.numericColumns, t.numericValues)
  }

  // ------------------------------------------------------------------ rows

  /** getFields(): the string columns in the order they were added, then the numeric ones. */
  function Fields(t: Table): (r: seq<string>)
    ensures |r| == |t.stringColumns| + |t.numericColumns|
    ensures r[..|t.stringColumns|] == t.stringColumns && r[|t.stringColumns|..] == t.numericColumns
  {
    t.stringColumns + t.numericColumns
  }

  /** Every listed column has a value at index i. */
  predicate HasRow<T>(columns: seq<string>, values: map<string, seq<T>>, i: int) {
    forall j :: 0 <= j < |columns| ==> columns[j] in values && 0 <= i < |values[columns[j]]|
  }

  /** The values at index i of the listed columns, in the order of the list. */
  function Cells<T>(columns: seq<string>, values: map<string, seq<T>>, i: int): (r: seq<T>)
    requires HasRow(columns, values, i)
    ensures |r| == |columns|
    ensures forall j :: 0 <= j < |columns| ==> r[j] == values[columns[j]][i]
  {
    seq(|columns|, j requires 0 <= j < |columns| => values[columns[j]][i])
  }

  lemma CellsSnoc<T>(columns: seq<string>, values: map<string, seq<T>>, i: int, j: nat)
    requires j < |columns| && HasRow(columns[..j], values, i)
    requires columns[j] in values && 0 <= i < |values[columns[j]]|
    ensures HasRow(columns[..j + 1], values, i)
    ensures Cells(columns[..j + 1], values, i) == Cells(columns[..j], values, i) + [values[columns[j]][i]]
  {
    assert forall k :: 0 <= k < j ==> columns[..j + 1][k] == columns[..j][k];
  }

  /** Each numeric value written with toPlainString. */
  function Plain(xs: seq<real>, plain: real -> string): (r: seq<string>)
    ensures |r| == |xs| && forall k :: 0 <= k < |xs| ==> r[k] == plain(xs[k])
  {
    seq(|xs|, k requires 0 <= k < |xs| => plain(xs[k]))
  }

  /**
   * getRow(i): the i-th value of every string column, then the i-th value of
   * every numeric column in plain notation; a column without an i-th value
   * makes it fail.
   */
  function RowOf(t: Table, i: int, plain: real -> string): Result<seq<string>, StatsError> {
    if HasRow(t.stringColumns, t.stringValues, i) && HasRow(t.numericColumns, t.numericValues, i) then
      Ok(Cells(t.stringColumns, t.stringValues, i) + Plain(Cells(t.numericColumns, t.numericValues, i), plain))
    else Err(IndexOutOfRange)
  }

  /**
   * A row lines up with getFields(): it has a cell per field, the cell of the
   * j-th string field at j and that of the j-th numeric field after all the
   * string ones.
   */
  lemma RowMatchesFields(t: Table, i: int, plain: real -> string)
    requires RowOf(t, i, plain).Ok?
    ensures var row, n := RowOf(t, i, plain).value, |t.stringColumns|;
      |row| == |Fields(t)| &&
      (forall j :: 0 <= j < n ==> Fields(t)[j] == t.stringColumns[j] && row[j] == t.stringValues[t.stringColumns[j]][i]) &&
      (forall j :: 0 <= j < |t.numericColumns| ==>
         Fields(t)[n + j] == t.numericColumns[j] && row[n + j] == plain(t.numericValues[t.numericColumns[j]][i]))
  {
    var n := |t.stringColumns|;
    var a := Cells(t.stringColumns, t.stringValues, i);
    var b := Plain(Cells(t.numericColumns, t.numericValues, i), plain);
    assert RowOf(t, i, plain).value == a + b;
    assert forall j :: 0 <= j < |t.numericColumns| ==> (a + b)[n + j] == b[j];
  }

  /** The number of rows the row iterator yields: the length of the first string column, else of the first numeric column, else none. */
  function RowCount(t: Table): nat
    requires WellFormed(t)
  {
    if |t.stringColumns| > 0 then
      assert t.stringColumns[0] in t.stringColumns;
      |t.stringValues[t.stringColumns[0]]|
    else if |t.numericColumns| > 0 then
      assert t.numericColumns[0] in t.numericColumns;
      |t.numericValues[t.numericColumns[0]]|
    else 0
  }

  /** Every column holds n values. */
  predicate Rectangular(t: Table, n: nat) {
    (forall c :: c in t.stringValues ==> |t.stringValues[c]| == n) &&
    (forall c :: c in t.numericValues ==> |t.numericValues[c]| == n)
  }

  /** When every column holds n values, each row below n can be read, with one cell per field. */
  lemma RectangularRow(t: Table, n: nat, i: nat, plain: real -> string)
    requires WellFormed(t) && Rectangular(t, n) && i < n
    ensures RowOf(t, i, plain).Ok? && |RowOf(t, i, plain).value| == |Fields(t)|
  {
    assert forall j :: 0 <= j < |t.stringColumns| ==> t.stringColumns[j] in t.stringColumns;
    assert forall j :: 0 <= j < |t.numericColumns| ==> t.numericColumns[j] in t.numericColumns;
    assert HasRow(t.stringColumns, t.stringValues, i);
    assert HasRow(t.numericColumns, t.numericValues, i);
    RowMatchesFields(t, i, plain);
  }

  /**
   * When every column holds n values and there is a column, the iterator
   * yields n rows and every one of them can be read, with one cell per field.
   */
  lemma RectangularRows(t: Table, n: nat, plain: real -> string)
    requires WellFormed(t) && Rectangular(t, n) && |Fields(t)| > 0
    ensures RowCount(t) == n
    ensures forall i :: 0 <= i < n ==> RowOf(t, i, plain).Ok? && |RowOf(t, i, plain).value| == |Fields(t)|
  {
    if |t.stringColumns| > 0 {
      assert t.stringColumns[0] in t.stringColumns;
    } else {
      assert t.numericColumns[0] in t.numericColumns;
    }
    forall i | 0 <= i < n
      ensures RowOf(t, i, plain).Ok? && |RowOf(t, i, plain).value| == |Fields(t)|
    {
      RectangularRow(t, n, i, plain);
    }
  }

  /** A table without columns has no rows. */
  lemma NoColumnsNoRows(t: Table)
    requires WellFormed(t) && |Fields(t)| == 0
    ensures RowCount(t) == 0
  {
  }

  /**
   * Adding the first string column to a table that holds numeric rows hides
   * them all: the iterator counts the rows of the new, empty column.
   */
  lemma FirstStringFieldHidesRows(t: Table, name: string)
    requires WellFormed(t) && t.stringColumns == []
    ensures var u := t.(stringColumns := [name], stringValues := t.stringValues[name := []]);
      WellFormed(u) && RowCount(u) == 0
  {
    var u := t.(stringColumns := [name], stringValues := t.stringValues[name := []]);
    assert t.stringValues.Keys == {};
    assert forall c :: c in u.stringValues <==> c in u.stringColumns;
  }

  // ---------------------------------------------------------- sort, median

  predicate Ascending(s: seq<real>) {
    forall i, j :: 0 <= i < j < |s| ==> s[i] <= s[j]
  }

  lemma InsertHead(x: real, s: seq<real>, rest: seq<real>)
    requires |s| > 0 && Ascending(s) && s[0] < x
    requires multiset(rest) == multiset(s[1..]) + multiset{x}
    ensures forall k :: 0 <= k < |rest| ==> s[0] <= rest[k]
  {
    forall k | 0 <= k < |rest|
      ensures s[0] <= rest[k]
    {
      assert rest[k] in multiset(rest);
      if rest[k] != x {
        assert rest[k] in multiset(s[1..]);
        assert rest[k] in s[1..];
      }
    }
  }

  /** One step of an insertion sort: x put in its place in an ascending list. */
  function Insert(x: real, s: seq<real>): (r: seq<real>)
    requires Ascending(s)
    ensures Ascending(r) && multiset(r) == multiset(s) + multiset{x}
  {
    if |s| == 0 then [x]
    else if x <= s[0] then [x] + s
    else
      var rest := Insert(x, s[1..]);
      assert s == [s[0]] + s[1..];
      InsertHead(x, s, rest);
      [s[0]] + rest
  }

  /** Collections.sort on a list of numbers: ascending, and the same values. */
  function Sort(s: seq<real>): (r: seq<real>)
    ensures Ascending(r) && multiset(r) == multiset(s)
  {
    if |s| == 0 then []
    else
      assert s == [s[0]] + s[1..];
      Insert(s[0], Sort(s[1..]))
  }

  lemma HeadIsLeast(a: seq<real>, x: real)
    requires Ascending(a) && x in multiset(a)
    ensures |a| > 0 && a[0] <= x
  {
    assert x in a;
  }

  lemma TailMultiset(a: seq<real>)
    requires |a| > 0
    ensures multiset(a) == multiset{a[0]} + multiset(a[1..])
  {
    assert a == [a[0]] + a[1..];
  }

  lemma CancelOne(x: real, p: multiset<real>, q: multiset<real>)
    requires multiset{x} + p == multiset{x} + q
    ensures p == q
  {
    forall y
      ensures p[y] == q[y]
    {
      assert (multiset{x} + p)[y] == multiset{x}[y] + p[y];
      assert (multiset{x} + q)[y] == multiset{x}[y] + q[y];
    }
  }

  /** Two ascending lists of the same values are the same list: the sorted order of a column is unique. */
  lemma {:induction false} SortedUnique(a: seq<real>, b: seq<real>)
    requires Ascending(a) && Ascending(b) && multiset(a) == multiset(b)
    ensures a == b
  {
    assert |a| == |multiset(a)| == |multiset(b)| == |b|;
    if |a| > 0 {
      assert a[0] in multiset(a) && b[0] in multiset(b);
      HeadIsLeast(b, a[0]);
      HeadIsLeast(a, b[0]);
      TailMultiset(a);
      TailMultiset(b);
      CancelOne(a[0], multiset(a[1..]), multiset(b[1..]));
      SortedUnique(a[1..], b[1..]);
    }
  }

  /** The values of a column at its middle, once sorted; an empty one has none. */
  function MedianOfSorted(s: seq<real>): Result<real, StatsError> {
    var n := |s|;
    if n % 2 == 0 then
      if n == 0 then Err(IndexOutOfRange) else Ok((s[n / 2] + s[n / 2 - 1]) / 2.0)
    else Ok(s[n / 2])
  }

  /** getMedian's value for a column. */
  function MedianOf(values: seq<real>): Result<real, StatsError> {
    MedianOfSorted(Sort(values))
  }

  /** In a sorted column the middle value splits it: the first half lies at or below it, the rest at or above. */
  lemma SortedMedianSplits(s: seq<real>)
    requires Ascending(s) && |s| > 0
    ensures MedianOfSorted(s).Ok?
    ensures var m := MedianOfSorted(s).value;
      (forall i :: 0 <= i < |s| / 2 ==> s[i] <= m) && (forall i :: |s| / 2 <= i < |s| ==> m <= s[i])
  {
    var n := |s|;
    var m := MedianOfSorted(s).value;
    var hi := s[n / 2];
    if n % 2 == 0 {
      var lo := s[n / 2 - 1];
      assert m == (hi + lo) / 2.0;
      assert lo <= m <= hi;
      forall i | 0 <= i < n / 2 ensures s[i] <= m {
        assert s[i] <= lo;
      }
    } else {
      assert m == hi;
      forall i | 0 <= i < n / 2 ensures s[i] <= m {
        assert s[i] <= hi;
      }
    }
    forall i | n / 2 <= i < n ensures m <= s[i] {
      assert hi <= s[i];
    }
  }

  /** The median splits the sorted column: the first half lies at or below it, the rest at or above. */
  lemma MedianSplits(values: seq<real>)
    requires |values| > 0
    ensures MedianOf(values).Ok?
    ensures var s, m := Sort(values), MedianOf(values).value;
      (forall i :: 0 <= i < |s| / 2 ==> s[i] <= m) && (forall i :: |s| / 2 <= i < |s| ==> m <= s[i])
  {
    var s := Sort(values);
    assert |s| == |multiset(s)| == |values|;
    SortedMedianSplits(s);
  }

  /** An empty column has no median. */
  lemma EmptyHasNoMedian()
    ensures MedianOf([]) == Err(IndexOutOfRange)
  {
  }

  /** The median depends on the values of a column only, not on their order. */
  lemma MedianIgnoresOrder(a: seq<real>, b: seq<real>)
    requires multiset(a) == multiset(b)
    ensures MedianOf(a) == MedianOf(b)
  {
    SortedUnique(Sort(a), Sort(b));
  }

  /** Sorting a sorted column changes nothing, so a second getMedian finds the column as the first left it. */
  lemma SortIdempotent(s: seq<real>)
    ensures Sort(Sort(s)) == Sort(s)
  {
    SortedUnique(Sort(Sort(s)), Sort(s));
  }

  /** The median of values within [lo, hi] is within [lo, hi]. */
  lemma MedianBounds(values: seq<real>, lo: real, hi: real)
    requires |values| > 0 && forall i :: 0 <= i < |values| ==> lo <= values[i] <= hi
    ensures MedianOf(values).Ok? && lo <= MedianOf(values).value <= hi
  {
    var s := Sort(values);
    assert |s| == |multiset(s)| == |values|;
    forall k | 0 <= k < |s|
      ensures lo <= s[k] <= hi
    {
      assert s[k] in multiset(values);
      assert s[k] in values;
    }
  }

  // ------------------------------------------------------------- average

  function Sum(s: seq<real>): real {
    if |s| == 0 then 0.0 else Sum(s[..|s| - 1]) + s[|s| - 1]
  }

  /** getAverage's value for a column: the sum over the size; an empty column divides by zero. */
  function Mean(values: seq<real>): (r: Result<real, StatsError>)
    ensures r.Err? <==> |values| == 0
    ensures r.Err? ==> r.error == DivisionByZero
  {
    if |values| == 0 then Err(DivisionByZero) else Ok(Sum(values) / (|values| as real))
  }

  lemma {:induction false} SumBounds(s: seq<real>, lo: real, hi: real)
    requires forall i :: 0 <= i < |s| ==> lo <= s[i] <= hi
    ensures (|s| as real) * lo <= Sum(s) <= (|s| as real) * hi
  {
    if |s| > 0 {
      SumBounds(s[..|s| - 1], lo, hi);
      assert (|s| as real) * lo == ((|s| - 1) as real) * lo + lo;
      assert (|s| as real) * hi == ((|s| - 1) as real) * hi + hi;
    }
  }

  /** The average of values within [lo, hi] is within [lo, hi]. */
  lemma MeanBounds(values: seq<real>, lo: real, hi: real)
    requires |values| > 0 && forall i :: 0 <= i < |values| ==> lo <= values[i] <= hi
    ensures lo <= Mean(values).value <= hi
  {
    SumBounds(values, lo, hi);
    var n := |values| as real;
    assert Sum(values) / n * n == Sum(values);
  }

  /** A column of one repeated value averages to that value. */
  lemma MeanOfConstant(values: seq<real>, c: real)
    requires |values| > 0 && forall i :: 0 <= i < |values| ==> values[i] == c
    ensures Mean(values) == Ok(c)
  {
    MeanBounds(values, c, c);
  }

  // -------------------------------------------------------------- findings

  /** A row of a table with one column of each kind. */
  lemma RowOfPair(t: Table, i: int, plain: real -> string)
    requires |t.stringColumns| == 1 && |t.numericColumns| == 1
    requires t.stringColumns[0] in t.stringValues && 0 <= i < |t.stringValues[t.stringColumns[0]]|
    requires t.numericColumns[0] in t.numericValues && 0 <= i < |t.numericValues[t.numericColumns[0]]|
    ensures RowOf(t, i, plain) ==
      Ok([t.stringValues[t.stringColumns[0]][i], plain(t.numericValues[t.numericColumns[0]][i])])
  {
    var a := Cells(t.stringColumns, t.stringValues, i);
    var b := Plain(Cells(t.numericColumns, t.numericValues, i), plain);
    assert a + b == [a[0], b[0]];
  }

  lemma SortTwo()
    ensures Sort([2.0, 1.0]) == [1.0, 2.0]
  {
    assert [2.0, 1.0][1..] == [1.0] && [1.0][1..] == [];
    assert Sort([1.0]) == Insert(1.0, []) == [1.0];
    assert Insert(2.0, [1.0]) == [1.0] + Insert(2.0, []) == [1.0, 2.0];
  }

  /**
   * getMedian sorts the stored column itself: with names ["a", "b"] and
   * numbers [2, 1], row 0 reads ("a", 2) before and ("a", 1) after, a pair
   * that never was a row.
   */
  lemma MedianReordersRows(plain: real -> string)
    requires plain(1.0) != plain(2.0)
    ensures var t := Table(["name"], ["x"], map["name" := ["a", "b"]], map["x" := [2.0, 1.0]]);
      var u := t.(numericValues := t.numericValues["x" := Sort([2.0, 1.0])]);
      WellFormed(t) && RowOf(t, 0, plain) == Ok(["a", plain(2.0)]) &&
      RowOf(u, 0, plain) == Ok(["a", plain(1.0)]) && RowOf(t, 0, plain) != RowOf(u, 0, plain)
  {
    var sv := map["name" := ["a", "b"]];
    var nv := map["x" := [2.0, 1.0]];
    var t := Table(["name"], ["x"], sv, nv);
    SortTwo();
    var nu := nv["x" := [1.0, 2.0]];
    var u := t.(numericValues := nu);
    assert WellFormed(t) by {
      assert forall c :: c in sv <==> c in ["name"];
      assert forall c :: c in nv <==> c in ["x"];
    }
    RowOfPair(t, 0, plain);
    RowOfPair(u, 0, plain);
    assert ["a", plain(2.0)][1] != ["a", plain(1.0)][1];
  }

  // ---------------------------------------------------------------- object

  class Statistics {
    var stringColumns: seq<string>
    var numericColumns: seq<string>
    var stringValues: map<string, seq<string>>
    var numericValues: map<string, seq<real>>

    function Snapshot(): Table
      reads this
    {
      Table(stringColumns, numericColumns, stringValues, numericValues)
    }

    ghost predicate Valid()
      reads this
    {
      WellFormed(Snapshot())
    }

    /** new Statistics(): no columns. */
    constructor ()
      ensures Valid()
      ensures stringColumns == [] && numericColumns == [] && stringValues == map[] && numericValues == map[]
    {
      stringColumns, numericColumns := [], [];
      stringValues, numericValues := map[], map[];
    }

    /** addStringField(name): a new string column, empty, at the end; false and no change if the name is taken by a string column. */
    method AddStringField(name: string) returns (added: bool)
      requires Valid()
      modifies this
      ensures Valid()
      ensures added <==> name !in old(stringValues)
      ensures added ==> stringColumns == old(stringColumns) + [name] && stringValues == old(stringValues)[name := []]
      ensures !added ==> stringColumns == old(stringColumns) && stringValues == old(stringValues)
      ensures numericColumns == old(numericColumns) && numericValues == old(numericValues)
    {
      if name in stringValues {
        return false;
      }
      stringColumns := stringColumns + [name];
      stringValues := stringValues[name := []];
      return true;
    }

    /** addNumericField(name): the same for the numeric columns, whose names are apart from the string ones. */
    method AddNumericField(name: string) returns (added: bool)
      requires Valid()
      modifies this
      ensures Valid()
      ensures added <==> name !in old(numericValues)
      ensures added ==> numericColumns == old(numericColumns) + [name] && numericValues == old(numericValues)[name := []]
      ensures !added ==> numericColumns == old(numericColumns) && numericValues == old(numericValues)
      ensures stringColumns == old(stringColumns) && stringValues == old(stringValues)
    {
      if name in numericValues {
        return false;
      }
      numericColumns := numericColumns + [name];
      numericValues := numericValues[name := []];
      return true;
    }

    /** addStringValue(column, value): appended at the end of the column; the new length is returned. */
    method AddStringValue(column: string, value: string) returns (r: Result<nat, StatsError>)
      requires Valid()
      modifies this
      ensures Valid()
      ensures column !in old(stringValues) ==> r == Err(NoSuchColumn(column)) && stringValues == old(stringValues)
      ensures column in old(stringValues) ==>
        stringValues == old(stringValues)[column := old(stringValues)[column] + [value]] && r == Ok(|stringValues[column]|)
      ensures stringColumns == old(stringColumns) && numericColumns == old(numericColumns) && numericValues == old(numericValues)
    {
      if column !in stringValues {
        return Err(NoSuchColumn(column));
      }
      stringValues := stringValues[column := stringValues[column] + [value]];
      r := Ok(|stringValues[column]|);
    }

    /** addNumericValue(column, value) for an Integer, a Long, a BigDecimal or a finite Double. */
    method AddNumericValue(column: string, value: real) returns (r: Result<nat, StatsError>)
      requires Valid()
      modifies this
      ensures Valid()
      ensures column !in old(numericValues) ==> r == Err(NoSuchColumn(column)) && numericValues == old(numericValues)
      ensures column in old(numericValues) ==>
        numericValues == old(numericValues)[column := old(numericValues)[column] + [value]] && r == Ok(|numericValues[column]|)
      ensures stringColumns == old(stringColumns) && numericColumns == old(numericColumns) && stringValues == old(stringValues)
    {
      if column !in numericValues {
        return Err(NoSuchColumn(column));
      }
      numericValues := numericValues[column := numericValues[column] + [value]];
      r := Ok(|numericValues[column]|);
    }

    /**
     * addNumericValue(column, Double): as for the other kinds of number, except
     * that NaN and the infinities have no BigDecimal form and are refused
     * (NumberFormatException) once the column is known, leaving it unchanged.
     */
    method AddDoubleValue(column: string, value: JDouble) returns (r: Result<nat, StatsError>)
      requires Valid()
      modifies this
      ensures Valid()
      ensures column !in old(numericValues) ==> r == Err(NoSuchColumn(column)) && numericValues == old(numericValues)
      ensures column in old(numericValues) && !value.Finite? ==> r == Err(NotFinite) && numericValues == old(numericValues)
      ensures column in old(numericValues) && value.Finite? ==>
        numericValues == old(numericValues)[column := old(numericValues)[column] + [value.x]] && r == Ok(|numericValues[column]|)
      ensures stringColumns == old(stringColumns) && numericColumns == old(numericColumns) && stringValues == old(stringValues)
    {
      if column !in numericValues {
        return Err(NoSuchColumn(column));
      }
      match value {
        case Finite(x) =>
          r := AddNumericValue(column, x);
        case _ =>
          r := Err(NotFinite);
      }
    }

    /** getNumericFiedName(i). */
    function NumericFieldName(i: int): (r: Result<string, StatsError>)
      reads this
      ensures r.Ok? <==> 0 <= i < |numericColumns|
      ensures r.Ok? ==> r.value == numericColumns[i]
    {
      if 0 <= i < |numericColumns| then Ok(numericColumns[i]) else Err(IndexOutOfRange)
    }

    /** getStringFieldName(i). */
    function StringFieldName(i: int): (r: Result<string, StatsError>)
      reads this
      ensures r.Ok? <==> 0 <= i < |stringColumns|
      ensures r.Ok? ==> r.value == stringColumns[i]
    {
      if 0 <= i < |stringColumns| then Ok(stringColumns[i]) else Err(IndexOutOfRange)
    }

    /** getAverage(column): the column summed in one pass, then divided by its size. */
    method GetAverage(column: string) returns (r: Result<real, StatsError>)
      ensures column !in numericValues ==> r == Err(NoSuchColumn(column))
      ensures column in numericValues ==> r == Mean(numericValues[column])
    {
      if column !in numericValues {
        return Err(NoSuchColumn(column));
      }
      var values := numericValues[column];
      var size := |values|;
      var sum := 0.0;
      var i := 0;
      while i < size
        invariant 0 <= i <= size
        invariant sum == Sum(values[..i])
      {
        assert values[..i + 1][..i] == values[..i];
        sum := sum + values[i];
        i := i + 1;
      }
      assert values[..size] == values;
      if size == 0 {
        return Err(DivisionByZero);
      }
      r := Ok(sum / (size as real));
    }

    /** getAverage(colId): the column at that index of the numeric ones. */
    method GetAverageAt(colId: int) returns (r: Result<real, StatsError>)
      requires Valid()
      ensures !(0 <= colId < |numericColumns|) ==> r == Err(IndexOutOfRange)
      ensures 0 <= colId < |numericColumns| ==> r == Mean(numericValues[numericColumns[colId]])
    {
      var name := NumericFieldName(colId);
      if name.Err? {
        return Err(name.error);
      }
      assert name.value in numericColumns;
      r := GetAverage(name.value);
    }

    /**
     * getMedian(column): the stored column is sorted in place, then its middle
     * value, or the mean of its two middle values, is returned.
     */
    method GetMedian(column: string) returns (r: Result<real, StatsError>)
      requires Valid()
      modifies this
      ensures Valid()
      ensures column !in old(numericValues) ==> r == Err(NoSuchColumn(column)) && numericValues == old(numericValues)
      ensures column in old(numericValues) ==>
        r == MedianOf(old(numericValues)[column]) && numericValues == old(numericValues)[column := Sort(old(numericValues)[column])]
      ensures stringColumns == old(stringColumns) && numericColumns == old(numericColumns) && stringValues == old(stringValues)
    {
      if column !in numericValues {
        return Err(NoSuchColumn(column));
      }
      var values := Sort(numericValues[column]);
      numericValues := numericValues[column := values];
      var size := |values|;
      if size % 2 == 0 {
        if size == 0 {
          return Err(IndexOutOfRange);
        }
        r := Ok((values[size / 2] + values[size / 2 - 1]) / 2.0);
      } else {
        r := Ok(values[size / 2]);
      }
    }

    /** getMedian(colId): getMedian on the column at that index of the numeric ones, which it sorts in place too. */
    method GetMedianAt(colId: int) returns (r: Result<real, StatsError>)
      requires Valid()
      modifies this
      ensures Valid()
      ensures !(0 <= colId < |old(numericColumns)|) ==> r == Err(IndexOutOfRange) && numericValues == old(numericValues)
      ensures 0 <= colId < |old(numericColumns)| ==>
        var c := old(numericColumns)[colId];
        r == MedianOf(old(numericValues)[c]) && numericValues == old(numericValues)[c := Sort(old(numericValues)[c])]
      ensures stringColumns == old(stringColumns) && numericColumns == old(numericColumns) && stringValues == old(stringValues)
    {
      var name := NumericFieldName(colId);
      if name.Err? {
        return Err(name.error);
      }
      assert name.value in numericColumns;
      r := GetMedian(name.value);
    }

    /** The median as getMedian evidently means it: computed on a sorted copy, the table left as it was. */
    method Median(column: string) returns (r: Result<real, StatsError>)
      ensures column !in numericValues ==> r == Err(NoSuchColumn(column))
      ensures column in numericValues ==> r == MedianOf(numericValues[column])
    {
      if column !in numericValues {
        return Err(NoSuchColumn(column));
      }
      var values := Sort(numericValues[column]);
      var size := |values|;
      if size % 2 == 0 {
        if size == 0 {
          return Err(IndexOutOfRange);
        }
        r := Ok((values[size / 2] + values[size / 2 - 1]) / 2.0);
      } else {
        r := Ok(values[size / 2]);
      }
    }

    /** getFields(). */
    method GetFields() returns (fields: seq<string>)
      ensures fields == Fields(Snapshot())
    {
      fields := stringColumns + numericColumns;
    }

    /** getRow(i): a loop over the string columns, then one over the numeric columns. */
    method GetRow(i: int, plain: real -> string) returns (r: Result<seq<string>, StatsError>)
      requires Valid()
      ensures r == RowOf(Snapshot(), i, plain)
    {
      var sc, sv := stringColumns, stringValues;
      var nc, nv := numericColumns, numericValues;
      var row: seq<string> := [];
      var j := 0;
      while j < |sc|
        invariant 0 <= j <= |sc|
        invariant HasRow(sc[..j], sv, i) && row == Cells(sc[..j], sv, i)
      {
        assert sc[j] in sc;
        var values := sv[sc[j]];
        if !(0 <= i < |values|) {
          assert !HasRow(sc, sv, i);
          return Err(IndexOutOfRange);
        }
        CellsSnoc(sc, sv, i, j);
        row := row + [values[i]];
        j := j + 1;
      }
      assert sc[..j] == sc;
      ghost var head := row;
      var cells: seq<real> := [];
      j := 0;
      while j < |nc|
        invariant 0 <= j <= |nc|
        invariant HasRow(nc[..j], nv, i) && cells == Cells(nc[..j], nv, i)
        invariant row == head + Plain(cells, plain)
      {
        assert nc[j] in nc;
        var values := nv[nc[j]];
        if !(0 <= i < |values|) {
          assert !HasRow(nc, nv, i);
          return Err(IndexOutOfRange);
        }
        CellsSnoc(nc, nv, i, j);
        assert Plain(cells + [values[i]], plain) == Plain(cells, plain) + [plain(values[i])];
        row := row + [plain(values[i])];
        cells := cells + [values[i]];
        j := j + 1;
      }
      assert nc[..j] == nc;
      r := Ok(row);
    }
  }

  /** The iterator of a Statistics object: rows from 0 for as long as hasNext() holds. */
  class RowIterator {
    const stats: Statistics
    var rowIdx: nat

    constructor (s: Statistics)
      ensures stats == s && rowIdx == 0
    {
      stats := s;
      rowIdx := 0;
    }

    /** hasNext(): the next row is within the row count. */
    function HasNext(): (b: bool)
      reads this, stats
      requires stats.Valid()
      ensures b <==> rowIdx < RowCount(stats.Snapshot())
    {
      if |stats.stringColumns| > 0 then
        assert stats.stringColumns[0] in stats.stringColumns;
        rowIdx < |stats.stringValues[stats.stringColumns[0]]|
      else if |stats.numericColumns| > 0 then
        assert stats.numericColumns[0] in stats.numericColumns;
        rowIdx < |stats.numericValues[stats.numericColumns[0]]|
      else false
    }

    /** next(): the row at the index, which moves on even when reading the row fails. */
    method Next(plain: real -> string) returns (r: Result<seq<string>, StatsError>)
      requires stats.Valid()
      modifies this
      ensures rowIdx == old(rowIdx) + 1
      ensures r == RowOf(stats.Snapshot(), old(rowIdx), plain)
    {
      var i := rowIdx;
      rowIdx := rowIdx + 1;
      r := stats.GetRow(i, plain);
    }
  }
}
