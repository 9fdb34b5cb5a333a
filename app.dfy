/**
 * The application's session state: the column catalog and rows of the last
 * upload, the X column, the ordered Y entries with their colour and label,
 * the chart type and the two axis labels, with the handlers that change them.
 *
 * The random colour given to a new Y entry is a parameter of `HandleAddYAxis`;
 * the network request of an upload is left out and its response is the
 * parameter of `HandleFileUpload`.
 */
module App {
  import opened Wrappers
  import opened Json
  import Upload

  /** One Y entry: the column it plots (`name`), its `color` and its display `label`. */
  datatype YAxis = YAxis(name: string, color: string, axisLabel: string)

  /** The fields of a Y entry that `HandleYAxisChange` may set. */
  datatype YField = Name | Color | Label

  /** The column names of the Y entries, in order. */
  function Names(ys: seq<YAxis>): seq<string>
  {
    seq(|ys|, k requires 0 <= k < |ys| => ys[k].name)
  }

  /** The value of one field of a Y entry. */
  function Get(y: YAxis, field: YField): string
  {
    match field
    case Name => y.name
    case Color => y.color
    case Label => y.axisLabel
  }

  /** `{ ...y, [field]: value }`: the entry with one field replaced. */
  function WithField(y: YAxis, field: YField, value: string): (r: YAxis)
    ensures Get(r, field) == value
    ensures forall f :: f != field ==> Get(r, f) == Get(y, f)
  {
    match field
    case Name => y.(name := value)
    case Color => y.(color := value)
    case Label => y.(axisLabel := value)
  }

  // ---------------------------------------------------------------------------
  // Filtering by index

  /** `s.filter((_, index) => index !== i)`: keep every element whose index is not `i`. */
  function DropIndex<T>(s: seq<T>, i: int): seq<T>
  {
    if s == [] then []
    else DropIndex(s[..|s| - 1], i) + (if |s| - 1 == i then [] else [s[|s| - 1]])
  }

  /** Filtering by index removes exactly entry `i` when it exists and nothing otherwise. */
  lemma {:induction false} DropIndexSpec<T>(s: seq<T>, i: int)
    ensures 0 <= i < |s| ==> DropIndex(s, i) == s[..i] + s[i + 1..]
    ensures !(0 <= i < |s|) ==> DropIndex(s, i) == s
  {
    if s != [] {
      var n := |s| - 1;
      DropIndexSpec(s[..n], i);
      if i == n {
        assert s[..i] + s[i + 1..] == s[..n];
      } else if 0 <= i < n {
        assert s[..n][..i] + s[..n][i + 1..] + [s[n]] == s[..i] + s[i + 1..];
      } else {
        assert s[..n] + [s[n]] == s;
      }
    }
  }

  /** Position `p` of the filtered list holds the entry at `p`, or at `p + 1` once past `i`. */
  lemma DropIndexAt<T>(s: seq<T>, i: int, p: nat)
    requires p < |DropIndex(s, i)|
    ensures 0 <= i < |s| ==> p < |s| - 1 && DropIndex(s, i)[p] == s[if p < i then p else p + 1]
    ensures !(0 <= i < |s|) ==> p < |s| && DropIndex(s, i)[p] == s[p]
  {
    DropIndexSpec(s, i);
  }

  /** A name is used by an entry other than `i` exactly when some other index carries it. */
  lemma NamesOfOthers(ys: seq<YAxis>, i: int, c: string)
    ensures c in Names(DropIndex(ys, i)) <==> exists j :: 0 <= j < |ys| && j != i && ys[j].name == c
  {
    var d := DropIndex(ys, i);
    DropIndexSpec(ys, i);
    if c in Names(d) {
      var p :| 0 <= p < |d| && Names(d)[p] == c;
      DropIndexAt(ys, i, p);
      var j := if 0 <= i < |ys| && p >= i then p + 1 else p;
      assert 0 <= j < |ys| && j != i && ys[j].name == c;
    }
    if exists j :: 0 <= j < |ys| && j != i && ys[j].name == c {
      var j :| 0 <= j < |ys| && j != i && ys[j].name == c;
      var p := if 0 <= i < j then j - 1 else j;
      assert p < |d|;
      DropIndexAt(ys, i, p);
      assert Names(d)[p] == c;
    }
  }

  // ---------------------------------------------------------------------------
  // Choosing columns for Y entries

  /** A column may take a new Y entry: it is not the X column and no entry in `used` has it. */
  predicate Free(c: string, xAxis: Option<string>, used: seq<string>)
  {
    Some(c) != xAxis && c !in used
  }

  /** `columns.find(c => c !== xAxis && !used.has(c))`: the first free column in catalog order. */
  function FirstUnused(columns: seq<string>, xAxis: Option<string>, used: seq<string>): (r: Option<string>)
    ensures r.None? <==> forall c :: c in columns ==> !Free(c, xAxis, used)
    ensures r.Some? ==> exists k :: 0 <= k < |columns| && columns[k] == r.value && Free(r.value, xAxis, used)
                                  && forall j :: 0 <= j < k ==> !Free(columns[j], xAxis, used)
  {
    if columns == [] then None
    else if Free(columns[0], xAxis, used) then Some(columns[0])
    else
      var r := FirstUnused(columns[1..], xAxis, used);
      assert r.Some? ==> exists k :: 0 <= k < |columns[1..]| && columns[1..][k] == r.value
                                   && forall j :: 0 <= j < k ==> !Free(columns[1..][j], xAxis, used);
      if r.Some? then
        var k :| 0 <= k < |columns[1..]| && columns[1..][k] == r.value
          && forall j :: 0 <= j < k ==> !Free(columns[1..][j], xAxis, used);
        assert columns[k + 1] == r.value;
        assert forall j :: 0 <= j < k + 1 ==> !Free(columns[j], xAxis, used);
        r
      else
        assert forall c :: c in columns ==> c == columns[0] || c in columns[1..];
        r
  }

  /** `columns.filter(col => col !== xAxis && !used.has(col))`. */
  function Available(columns: seq<string>, xAxis: Option<string>, used: seq<string>): seq<string>
  {
    if columns == [] then []
    else (if Free(columns[0], xAxis, used) then [columns[0]] else []) + Available(columns[1..], xAxis, used)
  }

  /** `a` can be obtained from `b` by deleting elements: the order of `b` is kept. */
  predicate IsSubsequence(a: seq<string>, b: seq<string>)
    decreases |b|
  {
    if a == [] then true
    else if b == [] then false
    else if a[0] == b[0] then IsSubsequence(a[1..], b[1..])
    else IsSubsequence(a, b[1..])
  }

  /** The offered columns are exactly the free catalog columns. */
  lemma {:induction false} AvailableMembers(columns: seq<string>, xAxis: Option<string>, used: seq<string>)
    ensures forall c :: c in Available(columns, xAxis, used) <==> c in columns && Free(c, xAxis, used)
  {
    if columns != [] {
      AvailableMembers(columns[1..], xAxis, used);
      assert forall c :: c in columns <==> c == columns[0] || c in columns[1..];
    }
  }

  /** Filtering a concatenation filters each part: the filter keeps catalog order and every occurrence. */
  lemma {:induction false} AvailableAppend(a: seq<string>, b: seq<string>, xAxis: Option<string>, used: seq<string>)
    ensures Available(a + b, xAxis, used) == Available(a, xAxis, used) + Available(b, xAxis, used)
  {
    if a == [] {
      assert a + b == b;
    } else {
      assert (a + b)[0] == a[0];
      assert (a + b)[1..] == a[1..] + b;
      AvailableAppend(a[1..], b, xAxis, used);
    }
  }

  /** A single column is offered when it is free and dropped otherwise. */
  lemma AvailableSingle(c: string, xAxis: Option<string>, used: seq<string>)
    ensures Available([c], xAxis, used) == if Free(c, xAxis, used) then [c] else []
  {
    assert [c][1..] == [];
  }

  /** A free column is offered as many times as the catalog lists it; any other column never. */
  lemma {:induction false} AvailableCounts(columns: seq<string>, xAxis: Option<string>, used: seq<string>)
    ensures forall c :: multiset(Available(columns, xAxis, used))[c]
                        == if Free(c, xAxis, used) then multiset(columns)[c] else 0
  {
    if columns != [] {
      AvailableCounts(columns[1..], xAxis, used);
      assert columns == [columns[0]] + columns[1..];
      assert multiset(columns) == multiset([columns[0]]) + multiset(columns[1..]);
      var head := if Free(columns[0], xAxis, used) then [columns[0]] else [];
      assert multiset(head + Available(columns[1..], xAxis, used))
          == multiset(head) + multiset(Available(columns[1..], xAxis, used));
    }
  }

  /** The offered columns keep catalog order. */
  lemma {:induction false} AvailableInCatalogOrder(columns: seq<string>, xAxis: Option<string>, used: seq<string>)
    ensures IsSubsequence(Available(columns, xAxis, used), columns)
  {
    if columns != [] {
      AvailableInCatalogOrder(columns[1..], xAxis, used);
      var rest := Available(columns[1..], xAxis, used);
      assert columns == [columns[0]] + columns[1..];
      if Free(columns[0], xAxis, used) {
        assert ([columns[0]] + rest)[1..] == rest;
      } else {
        assert [] + rest == rest;
        SubsequenceOfCons(rest, columns[0], columns[1..]);
      }
    }
  }

  /** Putting an element in front of `b` keeps every subsequence of `b`. */
  lemma {:induction false} SubsequenceOfCons(a: seq<string>, x: string, b: seq<string>)
    requires IsSubsequence(a, b)
    ensures IsSubsequence(a, [x] + b)
    decreases |b|, 1
  {
    if a != [] && a[0] == x {
      SubsequenceOfTail(a, b);
      assert ([x] + b)[1..] == b;
    } else if a != [] {
      assert ([x] + b)[1..] == b;
    }
  }

  /** Dropping the first element of a subsequence leaves a subsequence. */
  lemma {:induction false} SubsequenceOfTail(a: seq<string>, b: seq<string>)
    requires a != [] && IsSubsequence(a, b)
    ensures IsSubsequence(a[1..], b)
    decreases |b|, 0
  {
    assert b == [b[0]] + b[1..];
    if a[0] != b[0] {
      SubsequenceOfTail(a, b[1..]);
    }
    SubsequenceOfCons(a[1..], b[0], b[1..]);
  }

  /** The column `HandleAddYAxis` picks is the first of the columns the selector would offer a new entry. */
  lemma {:induction false} FirstUnusedIsFirstAvailable(columns: seq<string>, xAxis: Option<string>, used: seq<string>)
    ensures var av := Available(columns, xAxis, used);
      FirstUnused(columns, xAxis, used) == if av == [] then None else Some(av[0])
  {
    if columns != [] && !Free(columns[0], xAxis, used) {
      FirstUnusedIsFirstAvailable(columns[1..], xAxis, used);
    }
  }

  // ---------------------------------------------------------------------------
  // The uniqueness that adding keeps

  /** Y names are pairwise distinct and none is the X column. */
  predicate Distinct(xAxis: Option<string>, ys: seq<YAxis>)
  {
    && (forall j, k :: 0 <= j < k < |ys| ==> ys[j].name != ys[k].name)
    && (forall j :: 0 <= j < |ys| ==> Some(ys[j].name) != xAxis)
  }

  /** Appending an entry for a free column keeps the names distinct. */
  lemma AppendFreeKeepsDistinct(xAxis: Option<string>, ys: seq<YAxis>, y: YAxis)
    requires Distinct(xAxis, ys) && Free(y.name, xAxis, Names(ys))
    ensures Distinct(xAxis, ys + [y])
  {
    assert forall j :: 0 <= j < |ys| ==> Names(ys)[j] == ys[j].name;
  }

  /** Removing an entry keeps the names distinct. */
  lemma RemoveKeepsDistinct(xAxis: Option<string>, ys: seq<YAxis>, i: int)
    requires Distinct(xAxis, ys)
    ensures Distinct(xAxis, DropIndex(ys, i))
  {
    DropIndexSpec(ys, i);
    if 0 <= i < |ys| {
      var d := DropIndex(ys, i);
      assert forall p :: 0 <= p < |d| ==> d[p] == (if p < i then ys[p] else ys[p + 1]);
    }
  }

  // ---------------------------------------------------------------------------
  // The session

  class Session {
    var columns: seq<string>
    var data: seq<Json>
    var xAxis: Option<string>
    var yAxes: seq<YAxis>
    var graphType: string
    var xAxisLabel: string
    var yAxisLabel: string

    /** The initial state: nothing uploaded, nothing bound, scatter chart. */
    constructor()
      ensures columns == [] && data == [] && xAxis == None && yAxes == []
      ensures graphType == "scatter" && xAxisLabel == "" && yAxisLabel == ""
    {
      columns, data, xAxis, yAxes := [], [], None, [];
      graphType, xAxisLabel, yAxisLabel := "scatter", "", "";
    }

    /** Y names are pairwise distinct and none is the X column. */
    predicate AxesDistinct()
      reads this
    {
      Distinct(xAxis, yAxes)
    }

    /** A new upload replaces the dataset wholesale and clears every binding and axis label. */
    method HandleFileUpload(response: Upload.Response)
      modifies this
      ensures columns == response.columns && data == response.data
      ensures xAxis == None && yAxes == [] && xAxisLabel == "" && yAxisLabel == ""
      ensures graphType == old(graphType)
      ensures AxesDistinct()
    {
      columns := response.columns;
      data := response.data;
      xAxis := None;
      yAxes := [];
      xAxisLabel := "";
      yAxisLabel := "";
    }

    /**
     * Append an entry for the first catalog column that is neither X nor a Y
     * name, labelled with that name; nothing is appended when there is no such
     * column or when it is the empty string (a falsy value).
     */
    method HandleAddYAxis(color: string)
      modifies this
      ensures var c := FirstUnused(old(columns), old(xAxis), Names(old(yAxes)));
        yAxes == if c.Some? && c.value != "" then old(yAxes) + [YAxis(c.value, color, c.value)] else old(yAxes)
      ensures (forall c :: c in columns ==> !Free(c, xAxis, Names(old(yAxes)))) ==> yAxes == old(yAxes)
      ensures old(AxesDistinct()) ==> AxesDistinct()
      ensures columns == old(columns) && data == old(data) && xAxis == old(xAxis)
      ensures graphType == old(graphType) && xAxisLabel == old(xAxisLabel) && yAxisLabel == old(yAxisLabel)
    {
      var firstUnused := FirstUnused(columns, xAxis, Names(yAxes));
      if firstUnused.Some? && firstUnused.value != "" {
        var entry := YAxis(firstUnused.value, color, firstUnused.value);
        if AxesDistinct() {
          AppendFreeKeepsDistinct(xAxis, yAxes, entry);
        }
        yAxes := yAxes + [entry];
        assert firstUnused.value in columns && Free(firstUnused.value, xAxis, Names(old(yAxes)));
      }
    }

    /** Drop the entry at `index`, keeping the others in order; any other index changes nothing. */
    method HandleRemoveYAxis(index: int)
      modifies this
      ensures 0 <= index < |old(yAxes)| ==> yAxes == old(yAxes)[..index] + old(yAxes)[index + 1..]
      ensures !(0 <= index < |old(yAxes)|) ==> yAxes == old(yAxes)
      ensures old(AxesDistinct()) ==> AxesDistinct()
      ensures columns == old(columns) && data == old(data) && xAxis == old(xAxis)
      ensures graphType == old(graphType) && xAxisLabel == old(xAxisLabel) && yAxisLabel == old(yAxisLabel)
    {
      DropIndexSpec(yAxes, index);
      if AxesDistinct() {
        RemoveKeepsDistinct(xAxis, yAxes, index);
      }
      yAxes := DropIndex(yAxes, index);
    }

    /** Set one field of entry `index`; every other entry and field stays as it was. */
    method HandleYAxisChange(index: nat, field: YField, value: string)
      requires index < |yAxes|
      modifies this
      ensures |yAxes| == |old(yAxes)|
      ensures Get(yAxes[index], field) == value
      ensures forall f :: f != field ==> Get(yAxes[index], f) == Get(old(yAxes)[index], f)
      ensures forall j :: 0 <= j < |yAxes| && j != index ==> yAxes[j] == old(yAxes)[j]
      ensures columns == old(columns) && data == old(data) && xAxis == old(xAxis)
      ensures graphType == old(graphType) && xAxisLabel == old(xAxisLabel) && yAxisLabel == old(yAxisLabel)
    {
      var newYAxes := yAxes;
      newYAxes := newYAxes[index := WithField(newYAxes[index], field, value)];
      yAxes := newYAxes;
    }

    /**
     * The columns offered to entry `currentIndex`: catalog columns in catalog
     * order, minus X and minus the names of every other entry, so the entry's
     * own column stays offered.
     */
    function GetAvailableYAxisColumns(currentIndex: int): (r: seq<string>)
      reads this
      ensures forall c :: c in r <==> (c in columns && Some(c) != xAxis
                                       && forall j :: 0 <= j < |yAxes| && j != currentIndex ==> yAxes[j].name != c)
      ensures IsSubsequence(r, columns)
      ensures forall c :: multiset(r)[c] == if c in r then multiset(columns)[c] else 0
      ensures r == Available(columns, xAxis, Names(DropIndex(yAxes, currentIndex)))
    {
      var others := Names(DropIndex(yAxes, currentIndex));
      AvailableMembers(columns, xAxis, others);
      AvailableCounts(columns, xAxis, others);
      AvailableInCatalogOrder(columns, xAxis, others);
      assert forall c :: c in others <==> exists j :: 0 <= j < |yAxes| && j != currentIndex && yAxes[j].name == c by {
        forall c { NamesOfOthers(yAxes, currentIndex, c); }
      }
      Available(columns, xAxis, others)
    }

    /** Dropping a column on the X zone binds it; the Y entries are left as they are. */
    method SetXAxis(name: string)
      modifies this
      ensures xAxis == Some(name)
      ensures columns == old(columns) && data == old(data) && yAxes == old(yAxes)
      ensures graphType == old(graphType) && xAxisLabel == old(xAxisLabel) && yAxisLabel == old(yAxisLabel)
    {
      xAxis := Some(name);
    }

    /** The chart-type selector. */
    method SetGraphType(graphType': string)
      modifies this
      ensures graphType == graphType'
      ensures columns == old(columns) && data == old(data) && xAxis == old(xAxis) && yAxes == old(yAxes)
      ensures xAxisLabel == old(xAxisLabel) && yAxisLabel == old(yAxisLabel)
    {
      graphType := graphType';
    }
  }
}
