/**
 * The previous-runs table: a case-insensitive search over every field of a
 * row, a sort on a copy of the filtered rows by the clicked column, the
 * column-header click that picks the sort, and the cell formatting.
 */
module RunLog {
  import opened Wrappers
  import Text
  import opened Cells

  type Row = map<string, Cell>

  datatype Column = Column(key: string, title: string, sortable: bool)

  datatype Direction = Asc | Desc

  /** `{ key, direction }`; the key starts as `null`. */
  datatype SortConfig = SortConfig(key: Option<string>, direction: Direction)

  const InitialSort := SortConfig(None, Asc)

  /** `row[key]` */
  function ValueAt(row: Row, key: string): Option<Cell> {
    if key in row then Some(row[key]) else None
  }

  // ---- search ----

  /** Some field's text, lower-cased, contains the lower-cased term. */
  predicate RowMatches(row: Row, term: string)
    ensures term == "" ==> (RowMatches(row, term) <==> row != map[])
  {
    exists k | k in row :: Text.Contains(Text.Lower(Show(row[k])), Text.Lower(term))
  }

  /** `rows.filter(row => RowMatches(row, term))` */
  function Select(rows: seq<Row>, term: string): (r: seq<Row>)
    ensures |r| <= |rows|
    ensures forall i :: 0 <= i < |r| ==> RowMatches(r[i], term)
  {
    if rows == [] then []
    else
      var last := rows[|rows| - 1];
      Select(rows[..|rows| - 1], term) + (if RowMatches(last, term) then [last] else [])
  }

  /** The positions of the matching rows, in increasing order. */
  ghost function MatchIndices(rows: seq<Row>, term: string): (idx: seq<nat>)
    ensures forall k :: 0 <= k < |idx| ==> idx[k] < |rows|
    ensures forall k, l :: 0 <= k < l < |idx| ==> idx[k] < idx[l]
  {
    if rows == [] then []
    else
      var prev := MatchIndices(rows[..|rows| - 1], term);
      prev + (if RowMatches(rows[|rows| - 1], term) then [|rows| - 1] else [])
  }

  lemma {:induction false} MatchIndicesExact(rows: seq<Row>, term: string)
    ensures forall i :: 0 <= i < |rows| ==> (RowMatches(rows[i], term) <==> i in MatchIndices(rows, term))
  {
    forall i | 0 <= i < |rows| ensures RowMatches(rows[i], term) <==> i in MatchIndices(rows, term) {
      MatchIndexAt(rows, term, i);
    }
  }

  lemma {:induction false} MatchIndexAt(rows: seq<Row>, term: string, i: nat)
    requires i < |rows|
    ensures RowMatches(rows[i], term) <==> i in MatchIndices(rows, term)
    decreases |rows|
  {
    var n := |rows| - 1;
    var init := rows[..n];
    var prev := MatchIndices(init, term);
    var matches := RowMatches(rows[n], term);
    var last := if matches then [n] else [];
    assert MatchIndices(rows, term) == prev + last;
    if i < n {
      MatchIndexAt(init, term, i);
      assert rows[i] == init[i];
      assert n !in prev;
      assert i !in last;
      assert i in prev + last <==> i in prev;
    } else {
      assert n !in prev;
      assert i in prev + last <==> matches;
    }
  }

  lemma {:induction false} SelectAtIndices(rows: seq<Row>, term: string)
    ensures var idx := MatchIndices(rows, term);
            var r := Select(rows, term);
            |idx| == |r| && forall k :: 0 <= k < |idx| ==> r[k] == rows[idx[k]]
  {
    if rows != [] {
      var init := rows[..|rows| - 1];
      SelectAtIndices(init, term);
      var idx, r := MatchIndices(init, term), Select(init, term);
      var m := RowMatches(rows[|rows| - 1], term);
      assert MatchIndices(rows, term) == idx + (if m then [|rows| - 1] else []);
      assert Select(rows, term) == r + (if m then [rows[|rows| - 1]] else []);
      forall k | 0 <= k < |idx| ensures r[k] == rows[idx[k]] {
        assert rows[idx[k]] == init[idx[k]];
      }
    }
  }

  /** Select keeps exactly the matching rows, in their original order. */
  lemma SelectIsMatchingSubsequence(rows: seq<Row>, term: string)
    ensures var idx := MatchIndices(rows, term);
            var r := Select(rows, term);
            && |idx| == |r|
            && (forall k :: 0 <= k < |idx| ==> idx[k] < |rows| && r[k] == rows[idx[k]])
            && (forall k, l :: 0 <= k < l < |idx| ==> idx[k] < idx[l])
            && (forall i :: 0 <= i < |rows| ==> (RowMatches(rows[i], term) <==> i in idx))
  {
    SelectAtIndices(rows, term);
    MatchIndicesExact(rows, term);
  }

  /** `filteredData`: an empty term shows every row, even one with no fields. */
  function Filtered(rows: seq<Row>, term: string): (r: seq<Row>)
    ensures term == "" ==> r == rows
    ensures term != "" ==> r == Select(rows, term)
    ensures |r| <= |rows|
  {
    if term == "" then rows else Select(rows, term)
  }

  // ---- sort ----

  /** The comparator returns -1 for (x, y): x goes before y. */
  predicate Precedes(x: Row, y: Row, key: string, dir: Direction) {
    match dir
    case Asc => Below(ValueAt(x, key), ValueAt(y, key))
    case Desc => Below(ValueAt(y, key), ValueAt(x, key))
  }

  /** The comparator returns 0: neither goes before the other. */
  predicate Ties(x: Row, y: Row, key: string) {
    !Below(ValueAt(x, key), ValueAt(y, key)) && !Below(ValueAt(y, key), ValueAt(x, key))
  }

  predicate Ordered(s: seq<Row>, key: string, dir: Direction) {
    forall i, j :: 0 <= i < j < |s| ==> !Precedes(s[j], s[i], key, dir)
  }

  lemma PrecedesAsymmetric(x: Row, y: Row, key: string, dir: Direction)
    ensures !(Precedes(x, y, key, dir) && Precedes(y, x, key, dir))
  {
    BelowAsymmetric(ValueAt(x, key), ValueAt(y, key));
  }

  lemma PrecedesNegTransitive(x: Row, y: Row, z: Row, key: string, dir: Direction)
    requires Precedes(x, z, key, dir)
    ensures Precedes(x, y, key, dir) || Precedes(y, z, key, dir)
  {
    match dir
    case Asc => BelowNegTransitive(ValueAt(x, key), ValueAt(y, key), ValueAt(z, key));
    case Desc => BelowNegTransitive(ValueAt(z, key), ValueAt(y, key), ValueAt(x, key));
  }

  /** Puts x before the first row that does not strictly go before it. */
  function Insert(x: Row, s: seq<Row>, key: string, dir: Direction): seq<Row>
    decreases |s|
  {
    if s == [] || !Precedes(s[0], x, key, dir) then [x] + s
    else [s[0]] + Insert(x, s[1..], key, dir)
  }

  /** A stable sort by the comparator: what `Array.prototype.sort` computes on the copy. */
  function SortBy(s: seq<Row>, key: string, dir: Direction): (r: seq<Row>)
    ensures multiset(r) == multiset(s)
    ensures |r| == |s|
    decreases |s|
  {
    if s == [] then []
    else
      InsertPermutes(s[0], SortBy(s[1..], key, dir), key, dir);
      assert s == [s[0]] + s[1..];
      Insert(s[0], SortBy(s[1..], key, dir), key, dir)
  }

  lemma {:induction false} InsertPermutes(x: Row, s: seq<Row>, key: string, dir: Direction)
    ensures multiset(Insert(x, s, key, dir)) == multiset(s) + multiset{x}
    decreases |s|
  {
    if s != [] && Precedes(s[0], x, key, dir) {
      InsertPermutes(x, s[1..], key, dir);
      assert s == [s[0]] + s[1..];
    }
  }

  /** Nothing in an ordered s goes strictly before x once s[0] does not. */
  lemma NoneBefore(x: Row, s: seq<Row>, key: string, dir: Direction)
    requires Ordered(s, key, dir) && s != [] && !Precedes(s[0], x, key, dir)
    ensures forall j :: 0 <= j < |s| ==> !Precedes(s[j], x, key, dir)
  {
    forall j | 0 < j < |s| ensures !Precedes(s[j], x, key, dir) {
      if Precedes(s[j], x, key, dir) {
        PrecedesNegTransitive(s[j], s[0], x, key, dir);
      }
    }
  }

  /** Nothing of Insert(x, s[1..]) goes strictly before s[0] when s[0] goes before x. */
  lemma NoneBeforeHead(x: Row, s: seq<Row>, key: string, dir: Direction)
    requires Ordered(s, key, dir) && s != [] && Precedes(s[0], x, key, dir)
    ensures forall y :: y in multiset(s[1..]) + multiset{x} ==> !Precedes(y, s[0], key, dir)
  {
    forall y | y in multiset(s[1..]) + multiset{x} ensures !Precedes(y, s[0], key, dir) {
      if y == x {
        PrecedesAsymmetric(x, s[0], key, dir);
      } else {
        assert y in s[1..];
        var k :| 0 <= k < |s[1..]| && s[1..][k] == y;
        assert s[k + 1] == y;
      }
    }
  }

  lemma {:induction false} InsertOrdered(x: Row, s: seq<Row>, key: string, dir: Direction)
    requires Ordered(s, key, dir)
    ensures Ordered(Insert(x, s, key, dir), key, dir)
    decreases |s|
  {
    if s == [] {
    } else if !Precedes(s[0], x, key, dir) {
      NoneBefore(x, s, key, dir);
    } else {
      var tail := Insert(x, s[1..], key, dir);
      assert Ordered(s[1..], key, dir) by {
        forall i, j | 0 <= i < j < |s[1..]| ensures !Precedes(s[1..][j], s[1..][i], key, dir) {
          assert s[1..][j] == s[j + 1] && s[1..][i] == s[i + 1];
        }
      }
      InsertOrdered(x, s[1..], key, dir);
      NoneBeforeHead(x, s, key, dir);
      InsertPermutes(x, s[1..], key, dir);
      OrderedCons(s[0], tail, key, dir);
    }
  }

  /** An ordered sequence stays ordered under a head that nothing in it goes before. */
  lemma OrderedCons(h: Row, tail: seq<Row>, key: string, dir: Direction)
    requires Ordered(tail, key, dir)
    requires forall y :: y in multiset(tail) ==> !Precedes(y, h, key, dir)
    ensures Ordered([h] + tail, key, dir)
  {
    var r := [h] + tail;
    forall i, j | 0 <= i < j < |r| ensures !Precedes(r[j], r[i], key, dir) {
      assert r[j] == tail[j - 1];
      if i > 0 {
        assert r[i] == tail[i - 1];
      } else {
        assert r[j] in multiset(tail);
      }
    }
  }

  lemma {:induction false} SortByCorrect(s: seq<Row>, key: string, dir: Direction)
    ensures multiset(SortBy(s, key, dir)) == multiset(s)
    ensures Ordered(SortBy(s, key, dir), key, dir)
    decreases |s|
  {
    if s != [] {
      SortByCorrect(s[1..], key, dir);
      InsertOrdered(s[0], SortBy(s[1..], key, dir), key, dir);
      assert s == [s[0]] + s[1..];
    }
  }

  /** The rows of s that tie with z, in their order in s. */
  function TiedWith(s: seq<Row>, z: Row, key: string): seq<Row>
    decreases |s|
  {
    if s == [] then [] else (if Ties(s[0], z, key) then [s[0]] else []) + TiedWith(s[1..], z, key)
  }

  lemma TiedWithCons(y: Row, s: seq<Row>, z: Row, key: string)
    ensures TiedWith([y] + s, z, key) == (if Ties(y, z, key) then [y] else []) + TiedWith(s, z, key)
  {
    assert ([y] + s)[1..] == s;
  }

  /** A row strictly before a row tied with z is strictly before z. */
  lemma PrecedesTied(x: Row, y: Row, z: Row, key: string, dir: Direction)
    requires Precedes(x, y, key, dir) && Ties(y, z, key)
    ensures !Ties(x, z, key)
  {
    PrecedesNegTransitive(x, z, y, key, dir);
    PrecedesAsymmetric(x, z, key, dir);
  }

  /** When one of a and b is empty, it does not matter which comes first. */
  lemma AppendSwap(a: seq<Row>, b: seq<Row>, c: seq<Row>)
    requires a == [] || b == []
    ensures a + (b + c) == b + (a + c)
  {
    if a == [] {
      assert a + (b + c) == b + c == b + (a + c);
    } else {
      assert b + (a + c) == a + c == a + (b + c);
    }
  }

  lemma {:induction false} InsertStable(x: Row, s: seq<Row>, z: Row, key: string, dir: Direction)
    ensures TiedWith(Insert(x, s, key, dir), z, key) == (if Ties(x, z, key) then [x] else []) + TiedWith(s, z, key)
    decreases |s|
  {
    if s == [] || !Precedes(s[0], x, key, dir) {
      TiedWithCons(x, s, z, key);
    } else {
      var rest := Insert(x, s[1..], key, dir);
      var head := if Ties(s[0], z, key) then [s[0]] else [];
      var mine := if Ties(x, z, key) then [x] else [];
      InsertStable(x, s[1..], z, key, dir);
      TiedWithCons(s[0], rest, z, key);
      TiedWithCons(s[0], s[1..], z, key);
      assert s == [s[0]] + s[1..];
      if Ties(x, z, key) {
        PrecedesTied(s[0], x, z, key, dir);
      }
      AppendSwap(head, mine, TiedWith(s[1..], z, key));
    }
  }

  /** Rows that compare equal keep their relative order. */
  lemma {:induction false} SortByStable(s: seq<Row>, z: Row, key: string, dir: Direction)
    ensures TiedWith(SortBy(s, key, dir), z, key) == TiedWith(s, z, key)
    decreases |s|
  {
    if s != [] {
      SortByStable(s[1..], z, key, dir);
      InsertStable(s[0], SortBy(s[1..], key, dir), z, key, dir);
    }
  }

  /** `sortedData`: the filtered rows themselves without a sort key, else a sorted copy. */
  function SortedData(filtered: seq<Row>, config: SortConfig): (r: seq<Row>)
    ensures config.key.None? || config.key.value == "" ==> r == filtered
    ensures multiset(r) == multiset(filtered) && |r| == |filtered|
    ensures config.key.Some? && config.key.value != "" && config.direction == Asc ==>
      forall i, j :: 0 <= i < j < |r| ==> !Below(ValueAt(r[j], config.key.value), ValueAt(r[i], config.key.value))
    ensures config.key.Some? && config.key.value != "" && config.direction == Desc ==>
      forall i, j :: 0 <= i < j < |r| ==> !Below(ValueAt(r[i], config.key.value), ValueAt(r[j], config.key.value))
    ensures config.key.Some? && config.key.value != "" ==>
      forall z :: TiedWith(r, z, config.key.value) == TiedWith(filtered, z, config.key.value)
  {
    if config.key.None? || config.key.value == "" then filtered
    else
      var key := config.key.value;
      SortByCorrect(filtered, key, config.direction);
      assert |SortBy(filtered, key, config.direction)| == |multiset(SortBy(filtered, key, config.direction))|;
      forall z ensures TiedWith(SortBy(filtered, key, config.direction), z, key) == TiedWith(filtered, z, key) {
        SortByStable(filtered, z, key, config.direction);
      }
      SortBy(filtered, key, config.direction)
  }

  /** "Showing n of m runs": n never exceeds m. */
  lemma ShownCountBounded(rows: seq<Row>, term: string, config: SortConfig)
    ensures |SortedData(Filtered(rows, term), config)| <= |rows|
  {
  }

  // ---- header clicks ----

  /** No column before index i has the key. */
  predicate NoEarlierKey(columns: seq<Column>, key: string, i: nat)
    requires i <= |columns|
  {
    forall j :: 0 <= j < i ==> columns[j].key != key
  }

  /** `columns.find(col => col.key === key)`: the first column with the key. */
  function FindColumn(columns: seq<Column>, key: string): (r: Option<Column>)
    ensures r.Some? ==> r.value in columns && r.value.key == key
    ensures r.Some? ==> exists i :: 0 <= i < |columns| && columns[i] == r.value && NoEarlierKey(columns, key, i)
    ensures r.None? ==> forall c :: c in columns ==> c.key != key
  {
    if columns == [] then None
    else if columns[0].key == key then Some(columns[0])
    else FindColumn(columns[1..], key)
  }

  /** `handleSort(key)` */
  function NextSort(config: SortConfig, columns: seq<Column>, key: string): (r: SortConfig)
    ensures FindColumn(columns, key).None? || !FindColumn(columns, key).value.sortable ==> r == config
    ensures FindColumn(columns, key).Some? && FindColumn(columns, key).value.sortable ==>
      r.key == Some(key) && (r.direction == Desc <==> config == SortConfig(Some(key), Asc))
  {
    var column := FindColumn(columns, key);
    if column.None? || !column.value.sortable then config
    else SortConfig(Some(key), if config.key == Some(key) && config.direction == Asc then Desc else Asc)
  }

  /** Clicking the same sortable header again flips the direction. */
  lemma SecondClickFlips(config: SortConfig, columns: seq<Column>, key: string)
    requires FindColumn(columns, key).Some? && FindColumn(columns, key).value.sortable
    ensures var once := NextSort(config, columns, key);
            var twice := NextSort(once, columns, key);
            twice.key == once.key && twice.direction != once.direction
  {
  }

  // ---- cells ----

  datatype Display = Word(text: string) | FixedTwo(number: real) | AsIs(cell: Option<Cell>)

  /** `formatCellValue(value, key)`; `toFixed(2)` is left abstract. */
  function FormatCellValue(value: Option<Cell>, key: string): (r: Display)
    ensures key == "ET" ==> r == Word(if Truthy(value) then "Yes" else "No")
    ensures key != "ET" && !IsFraction(value) ==> r == AsIs(value)
    ensures key != "ET" && IsFraction(value) ==> r == FixedTwo(value.value.value)
  {
    if key == "ET" then Word(if Truthy(value) then "Yes" else "No")
    else if IsFraction(value) then FixedTwo(value.value.value)
    else AsIs(value)
  }

  // ---- table state ----

  class RunLogPanel {
    var loading: bool
    var columns: seq<Column>
    var rows: seq<Row>
    var searchTerm: string
    var sortConfig: SortConfig

    /** The rows on screen. */
    function Shown(): seq<Row>
      reads this
    {
      SortedData(Filtered(rows, searchTerm), sortConfig)
    }

    constructor ()
      ensures loading && columns == [] && rows == [] && searchTerm == "" && sortConfig == InitialSort
    {
      loading := true;
      columns, rows := [], [];
      searchTerm := "";
      sortConfig := InitialSort;
    }

    /** The end of the mount-time fetch: the document on success, the empty table kept on failure. */
    method LoadFinished(fetched: Option<(seq<Column>, seq<Row>)>)
      modifies this
      ensures !loading
      ensures (columns, rows) == if fetched.Some? then fetched.value else (old(columns), old(rows))
      ensures searchTerm == old(searchTerm) && sortConfig == old(sortConfig)
    {
      if fetched.Some? {
        columns, rows := fetched.value.0, fetched.value.1;
      }
      loading := false;
    }

    /** The search box, rendered once the table has loaded. */
    method SetSearchTerm(term: string)
      requires !loading
      modifies this
      ensures searchTerm == term
      ensures multiset(Shown()) == multiset(Filtered(rows, term)) && |Shown()| <= |rows|
      ensures term == "" ==> multiset(Shown()) == multiset(rows)
      ensures loading == old(loading) && columns == old(columns) && rows == old(rows) && sortConfig == old(sortConfig)
    {
      searchTerm := term;
    }

    /** A click on a column header. */
    method HandleSort(key: string)
      requires !loading
      modifies this
      ensures sortConfig == NextSort(old(sortConfig), columns, key)
      ensures multiset(Shown()) == multiset(old(Shown()))
      ensures loading == old(loading) && columns == old(columns) && rows == old(rows) && searchTerm == old(searchTerm)
    {
      var column := FindColumn(columns, key);
      if column.None? || !column.value.sortable {
        return;
      }
      var direction := Asc;
      if sortConfig.key == Some(key) && sortConfig.direction == Asc {
        direction := Desc;
      }
      sortConfig := SortConfig(Some(key), direction);
    }
  }
}
