/**
 * The statement builders of `jlr/sql.py`: `insert`, `update`,
 * `bulk_insert`, `get_pct_s_string` and the row-shaping query helpers.
 * Running a statement is left to an abstract database: a builder yields the
 * statement text with its parameters, and what the database answers
 * (`Reply`) is an input.
 */
module Sql {
  import opened Wrappers
  import opened Python

  /** Parameters handed to `cursor.execute`: a list bound to `%s` markers in
    * order, or a dict bound to `%(name)s` markers by name. */
  datatype Params = Positional(values: seq<Py>) | Named(dict: Dict)

  datatype Statement = Statement(text: string, params: Params)

  /** The database's answer to one statement: `cursor.rowcount` and the rows
    * `fetchone`/`fetchall` would return. */
  datatype Reply = Reply(rowcount: int, rows: seq<seq<Py>>)

  datatype SqlError =
    | MalformedWhereClause  // the assertion on the where pairs failed
    | MalformedSetClause    // the assertion on the set pairs failed
    | TooManyRows           // `assert cur.rowcount < 2` failed
    | NoFirstColumn         // `r[0]` on a missing row or an empty row
    | NotAString            // a JSON row that is not a string

  // ---------------------------------------------------------------------
  // Placeholders

  /** Number of `%s` markers in a statement text. */
  function Placeholders(s: string): nat
  {
    if |s| < 2 then 0
    else (if s[0] == '%' && s[1] == 's' then 1 else 0) + Placeholders(s[1..])
  }

  /** Python's `'%s' in s`. */
  predicate HasPctS(s: string)
  {
    exists i :: 0 <= i < |s| - 1 && s[i] == '%' && s[i + 1] == 's'
  }

  lemma {:induction false} HasPctSPlaceholders(s: string)
    ensures HasPctS(s) <==> Placeholders(s) > 0
  {
    if |s| >= 2 {
      HasPctSPlaceholders(s[1..]);
      if HasPctS(s[1..]) {
        var i :| 0 <= i < |s[1..]| - 1 && s[1..][i] == '%' && s[1..][i + 1] == 's';
        assert s[i + 1] == '%' && s[i + 2] == 's';
      }
      if HasPctS(s) && !(s[0] == '%' && s[1] == 's') {
        var i :| 0 <= i < |s| - 1 && s[i] == '%' && s[i + 1] == 's';
        assert s[1..][i - 1] == '%' && s[1..][i] == 's';
      }
    }
  }

  /** Gluing two texts creates no marker unless the first ends in `%` and
    * the second starts with `s`. */
  lemma {:induction false} PlaceholdersConcat(a: string, b: string)
    requires a == [] || b == [] || a[|a| - 1] != '%' || b[0] != 's'
    ensures Placeholders(a + b) == Placeholders(a) + Placeholders(b)
  {
    if a == [] {
      assert a + b == b;
    } else if b == [] {
      assert a + b == a;
    } else {
      assert (a + b)[1..] == a[1..] + b;
      PlaceholdersConcat(a[1..], b);
    }
  }

  function SumPlaceholders(parts: seq<string>): nat
  {
    if parts == [] then 0 else Placeholders(parts[0]) + SumPlaceholders(parts[1..])
  }

  /** A separator without markers that cannot complete one on either side
    * adds none. */
  lemma {:induction false} PlaceholdersJoin(sep: string, parts: seq<string>)
    requires sep != [] && Placeholders(sep) == 0
    requires sep[0] != 's' && sep[|sep| - 1] != '%'
    ensures Placeholders(Join(sep, parts)) == SumPlaceholders(parts)
  {
    if |parts| == 1 {
    } else if |parts| >= 2 {
      PlaceholdersJoin(sep, parts[1..]);
      PlaceholdersConcat(parts[0], sep);
      PlaceholdersConcat(parts[0] + sep, Join(sep, parts[1..]));
    }
  }

  lemma {:induction false} SumPlaceholdersUniform(parts: seq<string>, k: nat)
    requires forall i :: 0 <= i < |parts| ==> Placeholders(parts[i]) == k
    ensures SumPlaceholders(parts) == k * |parts|
  {
    if parts != [] {
      SumPlaceholdersUniform(parts[1..], k);
      assert k * |parts| == k + k * (|parts| - 1);
    }
  }

  lemma {:induction false} SumPlaceholdersAtLeast(parts: seq<string>)
    requires forall i :: 0 <= i < |parts| ==> Placeholders(parts[i]) >= 1
    ensures SumPlaceholders(parts) >= |parts|
  {
    if parts != [] {
      SumPlaceholdersAtLeast(parts[1..]);
    }
  }

  function Repeat(x: string, n: nat): seq<string>
  {
    seq(n, _ => x)
  }

  /** `get_pct_s_string(values)` for a collection of `n` values. */
  function PctS(n: nat): string
  {
    Join(",", Repeat("%s", n))
  }

  /** One marker per value, and nothing at all for no value. */
  lemma PctSPlaceholders(n: nat)
    ensures Placeholders(PctS(n)) == n
    ensures PctS(n) == "" <==> n == 0
  {
    assert Placeholders("%s") == 1;
    PlaceholdersJoin(",", Repeat("%s", n));
    SumPlaceholdersUniform(Repeat("%s", n), 1);
    JoinEmpty(",", Repeat("%s", n));
    if n == 1 {
      assert Repeat("%s", n) == ["%s"];
    }
  }

  // ---------------------------------------------------------------------
  // Filtering column lists

  /** `[x for x in s if keep(x)]` */
  function Filter<T>(s: seq<T>, keep: T -> bool): seq<T>
  {
    if s == [] then []
    else
      var last := s[|s| - 1];
      Filter(s[..|s| - 1], keep) + (if keep(last) then [last] else [])
  }

  lemma {:induction false} FilterMembers<T>(s: seq<T>, keep: T -> bool)
    ensures forall x :: x in Filter(s, keep) <==> x in s && keep(x)
  {
    if s != [] {
      FilterMembers(s[..|s| - 1], keep);
      assert s == s[..|s| - 1] + [s[|s| - 1]];
    }
  }

  lemma {:induction false} FilterSorted(s: seq<string>, keep: string -> bool)
    requires Sorted(s)
    ensures Sorted(Filter(s, keep))
  {
    if s != [] {
      var init, last := s[..|s| - 1], s[|s| - 1];
      FilterSorted(init, keep);
      FilterMembers(init, keep);
      var f := Filter(init, keep);
      if keep(last) {
        forall i | 0 <= i < |f| ensures StrLe(f[i], last) {
          assert f[i] in init;
          var k :| 0 <= k < |init| && init[k] == f[i];
          assert s[k] == f[i];
        }
      }
    }
  }

  lemma {:induction false} FilterDistinct<T>(s: seq<T>, keep: T -> bool)
    requires Distinct(s)
    ensures Distinct(Filter(s, keep))
  {
    if s != [] {
      var init, last := s[..|s| - 1], s[|s| - 1];
      FilterDistinct(init, keep);
      FilterMembers(init, keep);
      forall k | 0 <= k < |init| ensures init[k] != last {
        assert init[k] == s[k];
      }
    }
  }

  /** A kept value occurs as often as in the input; a dropped one not at all. */
  lemma {:induction false} FilterCount<T>(s: seq<T>, keep: T -> bool, x: T)
    ensures multiset(Filter(s, keep))[x] == if keep(x) then multiset(s)[x] else 0
  {
    if s != [] {
      var init, last := s[..|s| - 1], s[|s| - 1];
      FilterCount(init, keep, x);
      assert s == init + [last];
    }
  }

  /** Filtering two arrangements of one multiset gives arrangements of one
    * multiset. */
  lemma FilterPermutation(a: seq<string>, b: seq<string>, keep: string -> bool)
    requires multiset(a) == multiset(b)
    ensures multiset(Filter(a, keep)) == multiset(Filter(b, keep))
  {
    forall x ensures multiset(Filter(a, keep))[x] == multiset(Filter(b, keep))[x] {
      FilterCount(a, keep, x);
      FilterCount(b, keep, x);
    }
  }

  // ---------------------------------------------------------------------
  // insert

  /** The `return_columns` argument: None, one column text, or a list of
    * column names. */
  datatype Returning = NoReturning | ReturnColumn(column: string) | ReturnColumnList(columns: seq<string>)

  /** Python truth value of `return_columns` as passed. */
  predicate ReturningGiven(rc: Returning)
  {
    match rc
    case NoReturning => false
    case ReturnColumn(c) => c != ""
    case ReturnColumnList(cs) => cs != []
  }

  /** `return_columns` after a list has been joined with ", ". */
  function ReturningText(rc: Returning): string
  {
    match rc
    case NoReturning => ""
    case ReturnColumn(c) => c
    case ReturnColumnList(cs) => Join(", ", cs)
  }

  /** `insert` keeps a column that is not excluded and not bound to None. */
  function InsertKeeps(row: Dict, exclude: set<string>): string -> bool
  {
    c => c !in exclude && GetOrNone(row, c) != PyNone
  }

  /** The columns of the insert, in the order they are named. */
  function InsertColumns(row: Dict, exclude: set<string>): seq<string>
  {
    Filter(SortStrings(Keys(row)), InsertKeeps(row, exclude))
  }

  /** The entry in the values list for a column: the text of a literal,
    * otherwise a named parameter marker. */
  function ValueEntry(col: string, v: Py): string
  {
    if v.PyLiteral? then v.text else "%(" + col + ")s"
  }

  function ValueEntries(cols: seq<string>, row: Dict): seq<string>
  {
    seq(|cols|, i requires 0 <= i < |cols| => ValueEntry(cols[i], GetOrNone(row, cols[i])))
  }

  /** The text `insert` builds from its columns and value entries; `Insert`
    * issues it and `InsertStatementForms` states its two shapes. */
  function InsertText(table: string, cols: seq<string>, vals: seq<string>, rc: Returning): string
  {
    var colClause := Join(", ", cols);
    var base :=
      if colClause != "" then
        "insert into " + table + " (" + colClause + ") values (" + Join(", ", vals) + ")"
      else
        "insert into " + table + " default values";
    if ReturningGiven(rc) then base + " returning " + ReturningText(rc) else base
  }

  datatype InsertResult = FetchedRow(row: Option<seq<Py>>) | RowCount(count: int)

  /** `cursor.fetchone()` */
  function FetchOne(reply: Reply): Option<seq<Py>>
  {
    if reply.rows == [] then None else Some(reply.rows[0])
  }

  /** The loop of `insert` that collects the column names and value entries. */
  method InsertClauses(row: Dict, excludeKeys: set<string>) returns (colClause: seq<string>, valueClause: seq<string>)
    ensures colClause == InsertColumns(row, excludeKeys)
    ensures valueClause == ValueEntries(colClause, row)
  {
    var nameList := SortStrings(Keys(row));
    var keep := InsertKeeps(row, excludeKeys);
    colClause, valueClause := [], [];
    for i := 0 to |nameList|
      invariant colClause == Filter(nameList[..i], keep)
      invariant valueClause == ValueEntries(colClause, row)
    {
      var colName := nameList[i];
      FilterPrefixStep(nameList, i, keep);
      if colName !in excludeKeys {
        var val := GetOrNone(row, colName);
        if val != PyNone {
          var entry := if !val.PyLiteral? then "%(" + colName + ")s" else val.text;
          ValueEntriesSnoc(colClause, colName, row);
          colClause := colClause + [colName];
          valueClause := valueClause + [entry];
        }
      }
    }
    assert nameList[..|nameList|] == nameList;
  }

  /** One more element of `s` considered: kept or not. */
  lemma FilterPrefixStep<T>(s: seq<T>, i: nat, keep: T -> bool)
    requires i < |s|
    ensures Filter(s[..i + 1], keep) == Filter(s[..i], keep) + (if keep(s[i]) then [s[i]] else [])
  {
    assert s[..i + 1][..i] == s[..i];
  }

  lemma ValueEntriesSnoc(cols: seq<string>, c: string, row: Dict)
    ensures ValueEntries(cols + [c], row) == ValueEntries(cols, row) + [ValueEntry(c, GetOrNone(row, c))]
  {
  }

  /** `insert(con, table, rowDict, excludeKeys, return_columns)`: issues
    * `InsertText` over `InsertColumns` and `ValueEntries`; `reply` is what
    * the database answers to the statement. */
  method Insert(table: string, row: Dict, excludeKeys: set<string>, rc: Returning, reply: Reply)
    returns (stmt: Statement, result: InsertResult)
    ensures var cols := InsertColumns(row, excludeKeys);
            stmt == Statement(InsertText(table, cols, ValueEntries(cols, row), rc), Named(row))
    ensures result == if ReturningText(rc) != "" then FetchedRow(FetchOne(reply)) else RowCount(reply.rowcount)
  {
    var colClause, valueClause := InsertClauses(row, excludeKeys);
    var cols := Join(", ", colClause);
    var text;
    if cols != "" {
      text := "insert into " + table + " (" + cols + ") values (" + Join(", ", valueClause) + ")";
    } else {
      text := "insert into " + table + " default values";
    }
    var returning := rc;
    if ReturningGiven(returning) {
      if !returning.ReturnColumn? {
        returning := ReturnColumn(Join(", ", returning.columns));
      }
      text := text + " returning " + returning.column;
    }
    stmt := Statement(text, Named(row));
    if ReturningText(returning) != "" {
      result := FetchedRow(FetchOne(reply));
    } else {
      result := RowCount(reply.rowcount);
    }
  }

  /** The insert names exactly the row's keys that are neither excluded nor
    * None, sorted, and each once. */
  lemma InsertColumnsSpec(row: Dict, exclude: set<string>)
    ensures Sorted(InsertColumns(row, exclude))
    ensures forall c :: c in InsertColumns(row, exclude) <==>
              c in Keys(row) && c !in exclude && GetOrNone(row, c) != PyNone
    ensures DistinctKeys(row) ==> Distinct(InsertColumns(row, exclude))
  {
    var names := SortStrings(Keys(row));
    SortStringsSorted(Keys(row));
    FilterSorted(names, InsertKeeps(row, exclude));
    FilterMembers(names, InsertKeeps(row, exclude));
    forall c ensures c in names <==> c in Keys(row) {
      assert c in names <==> c in multiset(names);
    }
    if DistinctKeys(row) {
      DistinctPermutation(Keys(row), names);
      FilterDistinct(names, InsertKeeps(row, exclude));
    }
  }

  /** Every ordinary value is bound through a marker named after its column;
    * only literals reach the text. */
  lemma InsertValuesSpec(row: Dict, exclude: set<string>)
    ensures var cols := InsertColumns(row, exclude);
            var vals := ValueEntries(cols, row);
            |vals| == |cols| &&
            forall i :: 0 <= i < |cols| ==>
              (GetOrNone(row, cols[i]).PyLiteral? ==> vals[i] == GetOrNone(row, cols[i]).text) &&
              (!GetOrNone(row, cols[i]).PyLiteral? ==> vals[i] == "%(" + cols[i] + ")s")
  {
  }

  /** With no surviving column, or a single empty column name, the joined
    * column text is empty and the statement is the default-values insert;
    * otherwise it names the columns and their values; a requested
    * `returning` clause follows either. */
  lemma InsertStatementForms(table: string, cols: seq<string>, vals: seq<string>, rc: Returning)
    ensures var text := InsertText(table, cols, vals, rc);
            var suffix := if ReturningGiven(rc) then " returning " + ReturningText(rc) else "";
            ((cols == [] || cols == [""]) ==> text == "insert into " + table + " default values" + suffix) &&
            (cols != [] && cols != [""] ==>
               text == "insert into " + table + " (" + Join(", ", cols) + ") values ("
                       + Join(", ", vals) + ")" + suffix)
  {
    JoinEmpty(", ", cols);
  }

  // ---------------------------------------------------------------------
  // update

  /** A where or set pair as the caller passes it: a Python sequence. */
  type Clause = seq<Py>

  /** `len(p) == 2 and type(p[0]) is str and '%s' in p[0]` */
  predicate WhereClauseOk(p: Clause)
  {
    |p| == 2 && p[0].PyStr? && HasPctS(p[0].s)
  }

  /** `len(p) == 2 and type(p[0]) is str and '%s' not in p[0]` */
  predicate SetClauseOk(p: Clause)
  {
    |p| == 2 && p[0].PyStr? && !HasPctS(p[0].s)
  }

  function Assignments(sets: seq<Clause>): seq<string>
    requires forall i :: 0 <= i < |sets| ==> SetClauseOk(sets[i])
  {
    seq(|sets|, i requires 0 <= i < |sets| && SetClauseOk(sets[i]) => sets[i][0].s + " = %s")
  }

  function Conditions(wheres: seq<Clause>): seq<string>
    requires forall i :: 0 <= i < |wheres| ==> WhereClauseOk(wheres[i])
  {
    seq(|wheres|, i requires 0 <= i < |wheres| && WhereClauseOk(wheres[i]) => wheres[i][0].s)
  }

  function SecondItems(clauses: seq<Clause>): seq<Py>
    requires forall i :: 0 <= i < |clauses| ==> |clauses[i]| == 2
  {
    seq(|clauses|, i requires 0 <= i < |clauses| && |clauses[i]| == 2 => clauses[i][1])
  }

  /** `update(con, table, where_columns_and_values, update_columns_and_values)`,
    * up to the call of `execute`. */
  function Update(table: string, wheres: seq<Clause>, sets: seq<Clause>): (r: Result<Statement, SqlError>)
    ensures r.Ok? <==> (forall p <- wheres :: WhereClauseOk(p)) && (forall p <- sets :: SetClauseOk(p))
    ensures r == Err(MalformedWhereClause) <==> exists p <- wheres :: !WhereClauseOk(p)
  {
    if !forall i :: 0 <= i < |wheres| ==> WhereClauseOk(wheres[i]) then Err(MalformedWhereClause)
    else if !forall i :: 0 <= i < |sets| ==> SetClauseOk(sets[i]) then Err(MalformedSetClause)
    else
      var text := "update " + table + " set " + Join(", ", Assignments(sets))
                  + " where " + Join(", ", Conditions(wheres));
      Ok(Statement(text, Positional(SecondItems(sets) + SecondItems(wheres))))
  }

  /** The set values are bound first, in order, then the where values, in
    * order; the where expressions are joined with ", ". */
  lemma UpdateLayout(table: string, wheres: seq<Clause>, sets: seq<Clause>)
    requires Update(table, wheres, sets).Ok?
    ensures var st := Update(table, wheres, sets).value;
            && st.params.Positional?
            && |st.params.values| == |sets| + |wheres|
            && (forall i :: 0 <= i < |sets| ==> st.params.values[i] == sets[i][1])
            && (forall j :: 0 <= j < |wheres| ==> st.params.values[|sets| + j] == wheres[j][1])
            && st.text == "update " + table + " set " + Join(", ", Assignments(sets))
                          + " where " + Join(", ", Conditions(wheres))
  {
  }

  /** The set part holds one marker per set value; the where part at least
    * one per where value, and exactly one each when every condition holds
    * exactly one. */
  lemma UpdatePlaceholders(wheres: seq<Clause>, sets: seq<Clause>)
    requires forall i :: 0 <= i < |wheres| ==> WhereClauseOk(wheres[i])
    requires forall i :: 0 <= i < |sets| ==> SetClauseOk(sets[i])
    ensures Placeholders(Join(", ", Assignments(sets))) == |sets|
    ensures Placeholders(Join(", ", Conditions(wheres))) >= |wheres|
    ensures (forall i :: 0 <= i < |wheres| ==> Placeholders(wheres[i][0].s) == 1) ==>
              Placeholders(Join(", ", Conditions(wheres))) == |wheres|
  {
    assert Placeholders(", ") == 0;
    var assigns := Assignments(sets);
    forall i | 0 <= i < |assigns| ensures Placeholders(assigns[i]) == 1 {
      HasPctSPlaceholders(sets[i][0].s);
      assert Placeholders(" = %s") == 1;
      PlaceholdersConcat(sets[i][0].s, " = %s");
    }
    PlaceholdersJoin(", ", assigns);
    SumPlaceholdersUniform(assigns, 1);
    var conds := Conditions(wheres);
    forall i | 0 <= i < |conds| ensures Placeholders(conds[i]) >= 1 {
      HasPctSPlaceholders(wheres[i][0].s);
    }
    PlaceholdersJoin(", ", conds);
    SumPlaceholdersAtLeast(conds);
    if forall i :: 0 <= i < |wheres| ==> Placeholders(wheres[i][0].s) == 1 {
      SumPlaceholdersUniform(conds, 1);
    }
  }

  /** `update('factory', [('id = %s', 7)], [('name', 'Acme')])` */
  lemma UpdateExample()
    ensures Update("factory", [[PyStr("id = %s"), PyInt(7)]], [[PyStr("name"), PyStr("Acme")]])
            == Ok(Statement("update factory set name = %s where id = %s", Positional([PyStr("Acme"), PyInt(7)])))
  {
    var wheres: seq<Clause> := [[PyStr("id = %s"), PyInt(7)]];
    var sets: seq<Clause> := [[PyStr("name"), PyStr("Acme")]];
    ExampleClausesOk();
    ExampleParts();
    assert SecondItems(sets) + SecondItems(wheres) == [PyStr("Acme"), PyInt(7)];
    assert "update " + "factory" + " set " + "name = %s" + " where " + "id = %s"
           == "update factory set name = %s where id = %s";
  }

  lemma ExampleClausesOk()
    ensures WhereClauseOk([PyStr("id = %s"), PyInt(7)]) && SetClauseOk([PyStr("name"), PyStr("Acme")])
  {
    var cond := "id = %s";
    assert HasPctS(cond) by { assert cond[5] == '%' && cond[6] == 's'; }
    HasPctSPlaceholders("name");
  }

  lemma ExampleParts()
    requires WhereClauseOk([PyStr("id = %s"), PyInt(7)]) && SetClauseOk([PyStr("name"), PyStr("Acme")])
    ensures Join(", ", Assignments([[PyStr("name"), PyStr("Acme")]])) == "name = %s"
    ensures Join(", ", Conditions([[PyStr("id = %s"), PyInt(7)]])) == "id = %s"
  {
    var sets: seq<Clause> := [[PyStr("name"), PyStr("Acme")]];
    assert Assignments(sets)[0] == "name" + " = %s" == "name = %s";
  }

  // ---------------------------------------------------------------------
  // bulk_insert

  function ExcludeKeeps(exclude: set<string>): string -> bool
  {
    k => k !in exclude
  }

  /** The columns to probe before sorting and exclusion: the explicit list,
    * or the keys of the first row. */
  function ProbeSource(rows: seq<Dict>, colList: Option<seq<string>>): seq<string>
    requires rows != []
  {
    if colList.Some? then colList.value else Keys(rows[0])
  }

  /** The columns probed in every row: the sorted explicit list, or the
    * sorted keys of the first row, minus the excluded keys. */
  function ProbeColumns(rows: seq<Dict>, colList: Option<seq<string>>, exclude: set<string>): seq<string>
    requires rows != []
  {
    Filter(SortStrings(ProbeSource(rows, colList)), ExcludeKeeps(exclude))
  }

  /** The parenthesised markers of one row. */
  function RowTuple(nCols: nat, nExtras: nat): string
  {
    "(" + (if nExtras > 0 then PctS(nCols) + "," + PctS(nExtras) else PctS(nCols)) + ")"
  }

  /** `row.get(k, None) for k in colList` */
  function RowArgs(row: Dict, cols: seq<string>): seq<Py>
  {
    seq(|cols|, i requires 0 <= i < |cols| => GetOrNone(row, cols[i]))
  }

  /** The argument list: row by row, the row's values then the every-row values. */
  function BulkArgs(rows: seq<Dict>, cols: seq<string>, extraValues: seq<Py>): seq<Py>
  {
    if rows == [] then []
    else BulkArgs(rows[..|rows| - 1], cols, extraValues) + RowArgs(rows[|rows| - 1], cols) + extraValues
  }

  /** The text `bulk_insert` builds: the table's columns, one row tuple per
    * row, and the optional `returning` column; `BulkInsert` issues it. */
  function BulkText(table: string, tableCols: seq<string>, nRows: nat, tuple: string, returnColumn: string): string
  {
    var head := "insert into " + table + " (" + Join(", ", tableCols) + ") values ";
    Join("\n", [head, Join(",\n", Repeat(tuple, nRows))]
               + (if returnColumn != "" then ["returning " + returnColumn] else []))
  }

  function BulkStatement(table: string, rows: seq<Dict>, colList: Option<seq<string>>, exclude: set<string>,
                         extras: Dict, returnColumn: string): Statement
    requires rows != []
  {
    var cols := ProbeColumns(rows, colList, exclude);
    Statement(BulkText(table, cols + Keys(extras), |rows|, RowTuple(|cols|, |extras|), returnColumn),
              Positional(BulkArgs(rows, cols, Values(extras))))
  }

  datatype BulkResult = NothingInserted | InsertedCount(count: int) | ReturnedValues(values: seq<Py>)

  /** `[r[0] for r in rows]` */
  function FirstColumn(rows: seq<seq<Py>>): (r: Result<seq<Py>, SqlError>)
    ensures r.Ok? <==> forall i :: 0 <= i < |rows| ==> |rows[i]| > 0
    ensures r.Ok? ==> |r.value| == |rows| && forall i :: 0 <= i < |rows| ==> r.value[i] == rows[i][0]
    ensures r.Err? ==> r.error == NoFirstColumn
  {
    if rows == [] then Ok([])
    else if |rows[0]| == 0 then Err(NoFirstColumn)
    else match FirstColumn(rows[1..])
      case Err(e) => Err(e)
      case Ok(rest) => Ok([rows[0][0]] + rest)
  }

  /** `tableColList = list(colList)` followed by appending each every-row key. */
  method TableColumns(cols: seq<string>, extraKeys: seq<string>) returns (tableColList: seq<string>)
    ensures tableColList == cols + extraKeys
  {
    tableColList := cols;
    for k := 0 to |extraKeys|
      invariant tableColList == cols + extraKeys[..k]
    {
      assert extraKeys[..k + 1] == extraKeys[..k] + [extraKeys[k]];
      tableColList := tableColList + [extraKeys[k]];
    }
    assert extraKeys[..|extraKeys|] == extraKeys;
  }

  /** The loop over the rows: one marker tuple per row, and the row's values
    * followed by the every-row values. */
  method CollectRows(rows: seq<Dict>, cols: seq<string>, rowPcts: string, addToEveryRow: Dict)
    returns (valueRowsBuf: seq<string>, statementData: seq<Py>)
    ensures valueRowsBuf == Repeat(rowPcts, |rows|)
    ensures statementData == BulkArgs(rows, cols, Values(addToEveryRow))
  {
    valueRowsBuf, statementData := [], [];
    for r := 0 to |rows|
      invariant valueRowsBuf == Repeat(rowPcts, r)
      invariant statementData == BulkArgs(rows[..r], cols, Values(addToEveryRow))
    {
      assert rows[..r + 1][..r] == rows[..r];
      valueRowsBuf := valueRowsBuf + [rowPcts];
      statementData := statementData + RowArgs(rows[r], cols);
      if addToEveryRow != [] {
        statementData := statementData + Values(addToEveryRow);
      }
    }
    assert rows[..|rows|] == rows;
  }

  /** `bulk_insert(con, table, rowDictList, colList, excludeKeys, addToEveryRow,
    * return_column)`: issues `BulkText` with `BulkArgs`; an empty
    * `addToEveryRow` and an empty `return_column` stand for None. */
  method BulkInsert(table: string, rows: seq<Dict>, colList: Option<seq<string>>, excludeKeys: set<string>,
                    addToEveryRow: Dict, returnColumn: string, reply: Reply)
    returns (stmt: Option<Statement>, result: Result<BulkResult, SqlError>)
    ensures rows == [] ==> stmt == None && result == Ok(NothingInserted)
    ensures rows != [] ==> stmt == Some(BulkStatement(table, rows, colList, excludeKeys, addToEveryRow, returnColumn))
    ensures rows != [] && returnColumn == "" ==> result == Ok(InsertedCount(reply.rowcount))
    ensures rows != [] && returnColumn != "" ==>
              result == match FirstColumn(reply.rows)
                        case Ok(vs) => Ok(ReturnedValues(vs))
                        case Err(e) => Err(e)
  {
    if rows == [] {
      return None, Ok(NothingInserted);
    }
    var cols := SortStrings(if colList.Some? then colList.value else Keys(rows[0]));
    cols := Filter(cols, ExcludeKeeps(excludeKeys));
    var tableColList := cols;
    var extraPcts := "";
    if addToEveryRow != [] {
      extraPcts := PctS(|Values(addToEveryRow)|);
      tableColList := TableColumns(cols, Keys(addToEveryRow));
    } else {
      assert cols + Keys(addToEveryRow) == cols;
    }
    var rowPcts := PctS(|cols|);
    if addToEveryRow != [] {
      rowPcts := rowPcts + "," + extraPcts;
    }
    rowPcts := "(" + rowPcts + ")";
    assert rowPcts == RowTuple(|cols|, |addToEveryRow|);
    var head := "insert into " + table + " (" + Join(", ", tableColList) + ") values ";
    var valueRowsBuf, statementData := CollectRows(rows, cols, rowPcts, addToEveryRow);
    var statementBuf := [head, Join(",\n", valueRowsBuf)];
    if returnColumn != "" {
      statementBuf := statementBuf + ["returning " + returnColumn];
    }
    assert tableColList == cols + Keys(addToEveryRow);
    assert statementBuf == [head, Join(",\n", Repeat(rowPcts, |rows|))]
                           + (if returnColumn != "" then ["returning " + returnColumn] else []);
    assert Join("\n", statementBuf)
           == BulkText(table, cols + Keys(addToEveryRow), |rows|, RowTuple(|cols|, |addToEveryRow|), returnColumn);
    stmt := Some(Statement(Join("\n", statementBuf), Positional(statementData)));
    if returnColumn != "" {
      var returned := FirstColumn(reply.rows);
      if returned.Err? {
        result := Err(returned.error);
      } else {
        result := Ok(ReturnedValues(returned.value));
      }
    } else {
      result := Ok(InsertedCount(reply.rowcount));
    }
  }

  /** The probe columns are sorted and are exactly the listed (or first-row)
    * columns that are not excluded. */
  lemma ProbeColumnsSpec(rows: seq<Dict>, colList: Option<seq<string>>, exclude: set<string>)
    requires rows != []
    ensures Sorted(ProbeColumns(rows, colList, exclude))
    ensures forall c :: c in ProbeColumns(rows, colList, exclude) <==> c in ProbeSource(rows, colList) && c !in exclude
  {
    var source := ProbeSource(rows, colList);
    var sorted := SortStrings(source);
    SortStringsSorted(source);
    FilterSorted(sorted, ExcludeKeeps(exclude));
    FilterMembers(sorted, ExcludeKeeps(exclude));
    forall c ensures c in sorted <==> c in source {
      assert c in sorted <==> c in multiset(sorted);
    }
  }

  /** Sorting drops and adds nothing: each kept column occurs as often as in
    * the list (or first row) it comes from, so the probe columns repeat a
    * name only where that list does. */
  lemma ProbeColumnsCounts(rows: seq<Dict>, colList: Option<seq<string>>, exclude: set<string>)
    requires rows != []
    ensures multiset(ProbeColumns(rows, colList, exclude)) == multiset(Filter(ProbeSource(rows, colList), ExcludeKeeps(exclude)))
    ensures Distinct(ProbeSource(rows, colList)) ==> Distinct(ProbeColumns(rows, colList, exclude))
  {
    var source := ProbeSource(rows, colList);
    var sorted := SortStrings(source);
    SortStringsSorted(source);
    FilterPermutation(sorted, source, ExcludeKeeps(exclude));
    if Distinct(source) {
      DistinctPermutation(source, sorted);
      FilterDistinct(sorted, ExcludeKeeps(exclude));
    }
  }

  /** The argument list holds rows x (columns + extras) values. */
  lemma {:induction false} BulkArgsLength(rows: seq<Dict>, cols: seq<string>, extraValues: seq<Py>)
    ensures |BulkArgs(rows, cols, extraValues)| == |rows| * (|cols| + |extraValues|)
  {
    if rows != [] {
      var n, w := |rows|, |cols| + |extraValues|;
      BulkArgsLength(rows[..n - 1], cols, extraValues);
      assert (n - 1) * w + w == n * w;
    }
  }

  /** The argument list of two batches of rows is the two lists in turn. */
  lemma {:induction false} BulkArgsAppend(a: seq<Dict>, b: seq<Dict>, cols: seq<string>, extraValues: seq<Py>)
    ensures BulkArgs(a + b, cols, extraValues) == BulkArgs(a, cols, extraValues) + BulkArgs(b, cols, extraValues)
    decreases |b|
  {
    if b == [] {
      assert a + b == a;
    } else {
      var init := b[..|b| - 1];
      assert (a + b)[..|a + b| - 1] == a + init;
      assert (a + b)[|a + b| - 1] == b[|b| - 1];
      BulkArgsAppend(a, init, cols, extraValues);
    }
  }

  /** Value `j` of row `r` sits at `r * width + j`: the row's value for
    * column `j` (None when the row lacks it), or the every-row value. */
  lemma BulkArgsAt(rows: seq<Dict>, cols: seq<string>, extraValues: seq<Py>, r: nat, j: nat)
    requires r < |rows| && j < |cols| + |extraValues|
    ensures var w := |cols| + |extraValues|;
            r * w + j < |BulkArgs(rows, cols, extraValues)| &&
            BulkArgs(rows, cols, extraValues)[r * w + j] ==
              if j < |cols| then GetOrNone(rows[r], cols[j]) else extraValues[j - |cols|]
  {
    var w := |cols| + |extraValues|;
    var before, row, after := rows[..r], rows[r], rows[r + 1..];
    assert rows == before + [row] + after;
    BulkArgsAppend(before + [row], after, cols, extraValues);
    BulkArgsAppend(before, [row], cols, extraValues);
    assert [row][..0] == [];
    var block := RowArgs(row, cols) + extraValues;
    assert BulkArgs([row], cols, extraValues) == block;
    var prefix := BulkArgs(before, cols, extraValues);
    BulkArgsLength(before, cols, extraValues);
    assert |prefix| == r * w;
    assert BulkArgs(rows, cols, extraValues) == prefix + block + BulkArgs(after, cols, extraValues);
    assert (prefix + block + BulkArgs(after, cols, extraValues))[|prefix| + j] == block[j];
  }

  /** Each row tuple carries one marker per probe column and per every-row value. */
  lemma RowTuplePlaceholders(nCols: nat, nExtras: nat)
    ensures Placeholders(RowTuple(nCols, nExtras)) == nCols + nExtras
    ensures RowTuple(nCols, nExtras)[0] == '(' && RowTuple(nCols, nExtras)[|RowTuple(nCols, nExtras)| - 1] == ')'
  {
    PctSPlaceholders(nCols);
    PctSPlaceholders(nExtras);
    var inner := if nExtras > 0 then PctS(nCols) + "," + PctS(nExtras) else PctS(nCols);
    if nExtras > 0 {
      PlaceholdersConcat(PctS(nCols), ",");
      PlaceholdersConcat(PctS(nCols) + ",", PctS(nExtras));
    }
    PlaceholdersConcat("(", inner);
    PlaceholdersConcat("(" + inner, ")");
  }

  /** The values clause of a bulk insert carries rows x (columns + extras) markers. */
  lemma ValuesClausePlaceholders(rows: seq<Dict>, cols: seq<string>, extraValues: seq<Py>)
    ensures Placeholders(Join(",\n", Repeat(RowTuple(|cols|, |extraValues|), |rows|)))
            == |rows| * (|cols| + |extraValues|)
  {
    var n, w := |rows|, |cols| + |extraValues|;
    var tuple := RowTuple(|cols|, |extraValues|);
    var tuples := Repeat(tuple, n);
    RowTuplePlaceholders(|cols|, |extraValues|);
    assert forall i :: 0 <= i < |tuples| ==> Placeholders(tuples[i]) == w;
    assert Placeholders(",\n") == 0;
    PlaceholdersJoin(",\n", tuples);
    SumPlaceholdersUniform(tuples, w);
    assert w * n == n * w;
  }

  /** The values clause of a bulk insert binds exactly as many markers as the
    * argument list holds values. */
  lemma BulkPlaceholdersMatchArgs(rows: seq<Dict>, cols: seq<string>, extraValues: seq<Py>)
    ensures Placeholders(Join(",\n", Repeat(RowTuple(|cols|, |extraValues|), |rows|)))
            == |BulkArgs(rows, cols, extraValues)|
  {
    ValuesClausePlaceholders(rows, cols, extraValues);
    BulkArgsLength(rows, cols, extraValues);
  }


  // ---------------------------------------------------------------------
  // Row-shaping query helpers

  /** `query_single_row`: at most one row, else the assertion fails; no row
    * gives None, as `fetchone()` does. */
  function QuerySingleRow(reply: Reply): (r: Result<Option<seq<Py>>, SqlError>)
    ensures r.Err? <==> reply.rowcount >= 2
    ensures r.Ok? && reply.rows != [] ==> r.value == Some(reply.rows[0])
    ensures r.Ok? && reply.rows == [] ==> r.value == None
  {
    if reply.rowcount >= 2 then Err(TooManyRows) else Ok(FetchOne(reply))
  }

  /** `query_single_value`: the first column of the one row, or None when the
    * statement produced no row. */
  function QuerySingleValue(reply: Reply): (r: Result<Py, SqlError>)
    ensures reply.rowcount >= 2 ==> r == Err(TooManyRows)
    ensures reply.rowcount < 2 && reply.rowcount != 1 ==> r == Ok(PyNone)
    ensures reply.rowcount == 1 && reply.rows != [] && reply.rows[0] != [] ==> r == Ok(reply.rows[0][0])
  {
    if reply.rowcount >= 2 then Err(TooManyRows)
    else if reply.rowcount == 1 then
      match FetchOne(reply)
      case None => Err(NoFirstColumn)
      case Some(row) => if row == [] then Err(NoFirstColumn) else Ok(row[0])
    else Ok(PyNone)
  }

  /** `query_single_column` */
  function QuerySingleColumn(reply: Reply): Result<seq<Py>, SqlError>
  {
    FirstColumn(reply.rows)
  }

  function StrText(v: Py): string
    requires v.PyStr? || v.PyLiteral?
  {
    if v.PyStr? then v.s else v.text
  }

  /** A row whose first value is text that `str.join` accepts. */
  predicate TextRow(row: seq<Py>)
  {
    row != [] && (row[0].PyStr? || row[0].PyLiteral?)
  }

  /** The first-column texts of rows that all start with text. */
  function ColumnTexts(rows: seq<seq<Py>>): seq<string>
    requires forall i :: 0 <= i < |rows| ==> TextRow(rows[i])
  {
    seq(|rows|, i requires 0 <= i < |rows| && TextRow(rows[i]) => StrText(rows[i][0]))
  }

  /** `query_json_strings`: the rows' JSON texts as one JSON array text. */
  function QueryJsonStrings(reply: Reply): (r: Result<string, SqlError>)
    ensures reply.rows == [] ==> r == Ok("[]")
    ensures r.Ok? <==> (forall i :: 0 <= i < |reply.rows| ==> TextRow(reply.rows[i])) &&
                       (reply.rows != [] ==> TextRow(reply.rows[0]) && reply.rows[0][0].PyStr?)
    ensures r.Ok? && reply.rows != [] ==> r.value == "[" + Join(",\n ", ColumnTexts(reply.rows)) + "]"
    ensures r.Ok? ==> |r.value| >= 2 && r.value[0] == '[' && r.value[|r.value| - 1] == ']'
    ensures r.Err? ==> r.error == NoFirstColumn || r.error == NotAString
  {
    match QuerySingleColumn(reply)
    case Err(e) => Err(e)
    case Ok(results) =>
      if results == [] then Ok("[]")
      else if !results[0].PyStr? then Err(NotAString)
      else if !forall i :: 0 <= i < |results| ==> results[i].PyStr? || results[i].PyLiteral? then
        assert exists i :: 0 <= i < |reply.rows| && !TextRow(reply.rows[i]);
        Err(NotAString)
      else
        var texts := seq(|results|, i requires 0 <= i < |results| => StrText(results[i]));
        assert texts == ColumnTexts(reply.rows);
        Ok("[" + Join(",\n ", texts) + "]")
  }
}
