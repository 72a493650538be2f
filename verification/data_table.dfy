/**
  The variables table: its baseline ordering by name, its case-insensitive
  name search, and the list of column filters the search box maintains.
  String collation and lower-casing are the script's own; they are taken as
  parameters (`le`, a total preorder on names, and `lower`).
 */
module DataTable {
  import opened Options
  import ValueCell

  /** One row of the table. */
  datatype TableVariable = TableVariable(
    id: string,
    name: string,
    description: string,
    resolvedType: string,
    collectionId: string,
    collectionName: Option<string>,
    valueInfo: Option<ValueCell.ValueInfo>)

  /** One entry of the table's column-filter list. */
  datatype ColumnFilter = ColumnFilter(id: string, value: string)

  const NameColumn: string := "name"

  // ---------------------------------------------------------------------------
  // Ordering by name
  // ---------------------------------------------------------------------------

  /** What `localeCompare` is assumed to give: a total, transitive order on names. */
  ghost predicate TotalPreorder(le: (string, string) -> bool) {
    && (forall a, b :: le(a, b) || le(b, a))
    && (forall a, b, c :: le(a, b) && le(b, c) ==> le(a, c))
  }

  ghost predicate SortedByName(s: seq<TableVariable>, le: (string, string) -> bool) {
    forall i, j :: 0 <= i < j < |s| ==> le(s[i].name, s[j].name)
  }

  /** Places `x` before the first row whose name it does not exceed. */
  function InsertByName(x: TableVariable, s: seq<TableVariable>, le: (string, string) -> bool): (r: seq<TableVariable>)
    requires TotalPreorder(le) && SortedByName(s, le)
    ensures SortedByName(r, le)
    ensures multiset(r) == multiset(s) + multiset{x}
  {
    if s == [] then [x]
    else if le(x.name, s[0].name) then
      assert forall j :: 0 <= j < |s| ==> le(x.name, s[j].name) by {
        assert forall j :: 0 <= j < |s| ==> le(s[0].name, s[j].name);
      }
      [x] + s
    else
      var rest := InsertByName(x, s[1..], le);
      assert s == [s[0]] + s[1..];
      LowerBoundKept(s[0].name, x, s[1..], rest, le);
      [s[0]] + rest
  }

  /** A name below every row of `t` and below `x` stays below every row of `t` with `x` added. */
  lemma LowerBoundKept(y: string, x: TableVariable, t: seq<TableVariable>, rest: seq<TableVariable>,
                       le: (string, string) -> bool)
    requires le(y, x.name)
    requires forall j :: 0 <= j < |t| ==> le(y, t[j].name)
    requires multiset(rest) == multiset(t) + multiset{x}
    ensures forall k :: 0 <= k < |rest| ==> le(y, rest[k].name)
  {
    forall k | 0 <= k < |rest|
      ensures le(y, rest[k].name)
    {
      assert rest[k] in multiset(rest);
      if rest[k] != x {
        assert rest[k] in multiset(t);
        var j :| 0 <= j < |t| && t[j] == rest[k];
      }
    }
  }

  /**
    `[...variables].sort((a, b) => a.name.localeCompare(b.name))`: a fresh
    list holding the same rows, in ascending order of name.
   */
  function SortByName(s: seq<TableVariable>, le: (string, string) -> bool): (r: seq<TableVariable>)
    requires TotalPreorder(le)
    ensures SortedByName(r, le)
    ensures multiset(r) == multiset(s)
  {
    if s == [] then []
    else
      assert s == [s[0]] + s[1..];
      InsertByName(s[0], SortByName(s[1..], le), le)
  }

  // ---------------------------------------------------------------------------
  // Substring search
  // ---------------------------------------------------------------------------

  /** `needle` occurs in `hay` starting at position `i`. */
  ghost predicate OccursAt(hay: string, needle: string, i: int) {
    0 <= i && i + |needle| <= |hay| && hay[i..i + |needle|] == needle
  }

  /** `hay.includes(needle)`: the empty needle is found in any text, and a found needle is no longer than it. */
  function Includes(hay: string, needle: string): (r: bool)
    ensures needle == [] ==> r
    ensures r ==> |needle| <= |hay|
  {
    if needle <= hay then true
    else if hay == [] then false
    else Includes(hay[1..], needle)
  }

  /** The search agrees with its definition: it succeeds exactly when the needle occurs somewhere. */
  lemma {:induction false} IncludesIff(hay: string, needle: string)
    ensures Includes(hay, needle) <==> exists i :: OccursAt(hay, needle, i)
  {
    if needle <= hay {
      assert hay[0..|needle|] == needle;
      assert OccursAt(hay, needle, 0);
    } else if hay == [] {
    } else {
      IncludesIff(hay[1..], needle);
      if exists i :: OccursAt(hay[1..], needle, i) {
        var i :| OccursAt(hay[1..], needle, i);
        assert hay[1..][i..i + |needle|] == hay[i + 1..i + 1 + |needle|];
        assert OccursAt(hay, needle, i + 1);
      }
      if exists i :: OccursAt(hay, needle, i) {
        var i :| OccursAt(hay, needle, i);
        assert i != 0;
        assert hay[1..][i - 1..i - 1 + |needle|] == hay[i..i + |needle|];
        assert OccursAt(hay[1..], needle, i - 1);
      }
    }
  }

  // ---------------------------------------------------------------------------
  // Filtering by name
  // ---------------------------------------------------------------------------

  predicate NameMatches(v: TableVariable, needle: string, lower: string -> string) {
    Includes(lower(v.name), lower(needle))
  }

  /** The rows whose lower-cased name contains the lower-cased needle, in their original order. */
  function FilterByName(s: seq<TableVariable>, needle: string, lower: string -> string): (r: seq<TableVariable>)
    ensures |r| <= |s|
    ensures multiset(r) <= multiset(s)
    ensures forall v :: v in r <==> v in s && NameMatches(v, needle, lower)
  {
    if s == [] then []
    else
      var rest := FilterByName(s[1..], needle, lower);
      assert s == [s[0]] + s[1..];
      if NameMatches(s[0], needle, lower) then [s[0]] + rest else rest
  }

  /** Filtering keeps order: filtering a concatenation concatenates the filtered parts. */
  lemma {:induction false} FilterByNameAppend(a: seq<TableVariable>, b: seq<TableVariable>, needle: string, lower: string -> string)
    ensures FilterByName(a + b, needle, lower) == FilterByName(a, needle, lower) + FilterByName(b, needle, lower)
  {
    if a != [] {
      var ab := a + b;
      assert ab[0] == a[0] && ab[1..] == a[1..] + b;
      FilterByNameAppend(a[1..], b, needle, lower);
      var tail := FilterByName(a[1..], needle, lower) + FilterByName(b, needle, lower);
      if NameMatches(a[0], needle, lower) {
        assert FilterByName(ab, needle, lower) == [a[0]] + tail;
        assert FilterByName(a, needle, lower) == [a[0]] + FilterByName(a[1..], needle, lower);
      } else {
        assert FilterByName(ab, needle, lower) == tail;
        assert FilterByName(a, needle, lower) == FilterByName(a[1..], needle, lower);
      }
    } else {
      assert a + b == b;
    }
  }

  /** `filters[k]` is the first name filter of the list. */
  ghost predicate IsFirstNameFilter(filters: seq<ColumnFilter>, k: int) {
    0 <= k < |filters| && filters[k].id == NameColumn && forall j :: 0 <= j < k ==> filters[j].id != NameColumn
  }

  /**
    `columnFilters.find(f => f.id === 'name')?.value || ''`: the text of the
    first name filter, or empty when the list has none.
   */
  function NameFilterValue(filters: seq<ColumnFilter>): (r: string)
    ensures forall k :: IsFirstNameFilter(filters, k) ==> r == filters[k].value
    ensures (forall k :: 0 <= k < |filters| ==> filters[k].id != NameColumn) ==> r == ""
  {
    if filters == [] then ""
    else if filters[0].id == NameColumn then filters[0].value
    else
      assert forall k :: IsFirstNameFilter(filters, k) ==> IsFirstNameFilter(filters[1..], k - 1);
      NameFilterValue(filters[1..])
  }

  /**
    The rows the table shows: the table data itself without a name filter,
    else the rows whose name matches it, in the order of the table data.
   */
  function FilteredTableData(tableData: seq<TableVariable>, filters: seq<ColumnFilter>, lower: string -> string): (r: seq<TableVariable>)
    ensures multiset(r) <= multiset(tableData)
    ensures forall v :: v in r <==>
      v in tableData && (NameFilterValue(filters) == "" || NameMatches(v, NameFilterValue(filters), lower))
  {
    var filterValue := NameFilterValue(filters);
    if filterValue == "" then tableData else FilterByName(tableData, filterValue, lower)
  }

  /** Filtering a list in name order leaves it in name order. */
  lemma {:induction false} FilterKeepsSorted(s: seq<TableVariable>, needle: string, lower: string -> string,
                                             le: (string, string) -> bool)
    requires SortedByName(s, le)
    ensures SortedByName(FilterByName(s, needle, lower), le)
  {
    if s != [] {
      var rest := FilterByName(s[1..], needle, lower);
      FilterKeepsSorted(s[1..], needle, lower, le);
      forall k | 0 <= k < |rest|
        ensures le(s[0].name, rest[k].name)
      {
        assert rest[k] in s[1..];
        var j :| 0 <= j < |s[1..]| && s[1..][j] == rest[k];
        assert s[j + 1] == rest[k];
      }
    }
  }

  /**
    The rows the table shows (`variables` sorted, then filtered) are in name
    order and drawn from `variables`, never more of them: without a name
    filter the sorted table data itself, and with one exactly those rows of
    the sorted table data, in its order, whose lower-cased name contains the
    lower-cased filter text.
   */
  lemma {:induction false} ShownRows(variables: seq<TableVariable>, filters: seq<ColumnFilter>,
                                     le: (string, string) -> bool, lower: string -> string)
    requires TotalPreorder(le)
    ensures SortedByName(FilteredTableData(SortByName(variables, le), filters, lower), le)
    ensures multiset(FilteredTableData(SortByName(variables, le), filters, lower)) <= multiset(variables)
    ensures NameFilterValue(filters) == "" ==>
      FilteredTableData(SortByName(variables, le), filters, lower) == SortByName(variables, le)
    ensures NameFilterValue(filters) == "" ==>
      multiset(FilteredTableData(SortByName(variables, le), filters, lower)) == multiset(variables)
    ensures NameFilterValue(filters) != "" ==>
      FilteredTableData(SortByName(variables, le), filters, lower) ==
      FilterByName(SortByName(variables, le), NameFilterValue(filters), lower)
    ensures NameFilterValue(filters) != "" ==> forall v ::
      v in FilteredTableData(SortByName(variables, le), filters, lower) <==>
      v in variables && NameMatches(v, NameFilterValue(filters), lower)
  {
    var sorted := SortByName(variables, le);
    var fv := NameFilterValue(filters);
    if fv != "" {
      FilterKeepsSorted(sorted, fv, lower, le);
      forall v ensures v in sorted <==> v in variables {
        assert v in sorted <==> v in multiset(sorted);
        assert v in variables <==> v in multiset(variables);
      }
    }
  }

  // ---------------------------------------------------------------------------
  // The search box's update of the filter list
  // ---------------------------------------------------------------------------

  /** `prev.filter(f => f.id !== 'name')` */
  function WithoutName(filters: seq<ColumnFilter>): (r: seq<ColumnFilter>)
    ensures forall k :: 0 <= k < |r| ==> r[k].id != NameColumn
    ensures forall f :: f in r <==> f in filters && f.id != NameColumn
  {
    if filters == [] then []
    else
      var rest := WithoutName(filters[1..]);
      assert filters == [filters[0]] + filters[1..];
      if filters[0].id != NameColumn then [filters[0]] + rest else rest
  }

  function CountName(filters: seq<ColumnFilter>): nat {
    if filters == [] then 0
    else (if filters[0].id == NameColumn then 1 else 0) + CountName(filters[1..])
  }

  /**
    Typing `text` in the search box: every other filter stays, and the only
    name filter left is one holding `text`, present only when `text` is not
    empty.
   */
  function UpdateNameFilter(prev: seq<ColumnFilter>, text: string): (r: seq<ColumnFilter>)
    ensures forall f :: f in r && f.id != NameColumn <==> f in prev && f.id != NameColumn
    ensures forall f :: f in r && f.id == NameColumn ==> f == ColumnFilter(NameColumn, text) && text != ""
    ensures text != "" ==> ColumnFilter(NameColumn, text) in r
  {
    var others := WithoutName(prev);
    if text != "" then others + [ColumnFilter(NameColumn, text)] else others
  }

  lemma {:induction false} NoNameFilter(filters: seq<ColumnFilter>)
    requires forall k :: 0 <= k < |filters| ==> filters[k].id != NameColumn
    ensures CountName(filters) == 0 && NameFilterValue(filters) == ""
  {
    if filters != [] {
      NoNameFilter(filters[1..]);
    }
  }

  lemma {:induction false} NameFilterAfter(others: seq<ColumnFilter>, f: ColumnFilter)
    requires forall k :: 0 <= k < |others| ==> others[k].id != NameColumn
    requires f.id == NameColumn
    ensures CountName(others + [f]) == 1 && NameFilterValue(others + [f]) == f.value
  {
    if others == [] {
      assert others + [f] == [f];
    } else {
      assert (others + [f])[1..] == others[1..] + [f];
      NameFilterAfter(others[1..], f);
    }
  }

  /** WithoutName of a list that already has no name filter is that list. */
  lemma {:induction false} WithoutNameKeeps(filters: seq<ColumnFilter>)
    requires forall k :: 0 <= k < |filters| ==> filters[k].id != NameColumn
    ensures WithoutName(filters) == filters
  {
    if filters != [] {
      WithoutNameKeeps(filters[1..]);
      assert filters == [filters[0]] + filters[1..];
    }
  }

  /**
    After typing `text`, the list holds at most one name filter (none for
    empty text), the search box reads back exactly `text`, and the other
    filters are those of before, in their order.
   */
  lemma UpdateNameFilterSpec(prev: seq<ColumnFilter>, text: string)
    ensures CountName(UpdateNameFilter(prev, text)) == (if text == "" then 0 else 1)
    ensures NameFilterValue(UpdateNameFilter(prev, text)) == text
    ensures WithoutName(UpdateNameFilter(prev, text)) == WithoutName(prev)
  {
    var others := WithoutName(prev);
    WithoutNameKeeps(others);
    if text == "" {
      NoNameFilter(others);
    } else {
      NameFilterAfter(others, ColumnFilter(NameColumn, text));
      WithoutNameAppendName(others, ColumnFilter(NameColumn, text));
    }
  }

  lemma {:induction false} WithoutNameAppendName(others: seq<ColumnFilter>, f: ColumnFilter)
    requires f.id == NameColumn
    ensures WithoutName(others + [f]) == WithoutName(others)
  {
    if others == [] {
      assert others + [f] == [f];
    } else {
      assert (others + [f])[1..] == others[1..] + [f];
      WithoutNameAppendName(others[1..], f);
    }
  }
}
