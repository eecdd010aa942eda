/** The catalog reader of the Informix backend (`DatabaseIntrospection` in
    django_informixdb/introspection.py). Each operation runs a fixed query
    against the Informix system catalog and reshapes the rows it gets back;
    here the rows are the inputs, one datatype per query. */
module Introspection {
  import opened Wrappers
  import opened Text
  import opened Rows

  /** The exceptions a lookup into a row or a dictionary raises. */
  datatype LookupError = KeyError(key: string) | IndexError

  // ---------------------------------------------------------------------------
  // get_table_list

  /** A row of `SELECT tabname, tabtype FROM systables`. */
  datatype TableRow = TableRow(tabname: string, tabtype: string)

  /** Django's `TableInfo(name, type)`. */
  datatype TableInfo = TableInfo(name: string, tableType: string)

  /** `get_table_list`: one entry per catalog row, with the type lower-cased. */
  function TableList(rows: seq<TableRow>): seq<TableInfo> {
    seq(|rows|, i requires 0 <= i < |rows| => TableInfo(rows[i].tabname, Lower(rows[i].tabtype)))
  }

  /** The table list keeps the catalog's rows and their order; names are
      unchanged, and each type is the catalog's type up to letter case, with
      no upper-case letter left (lower-casing it again changes nothing). */
  lemma TableListKeepsRows(rows: seq<TableRow>)
    ensures |TableList(rows)| == |rows|
    ensures forall i :: 0 <= i < |rows| ==>
              && TableList(rows)[i].name == rows[i].tabname
              && |TableList(rows)[i].tableType| == |rows[i].tabtype|
              && Lower(TableList(rows)[i].tableType) == TableList(rows)[i].tableType
              && Upper(TableList(rows)[i].tableType) == Upper(rows[i].tabtype)
  {
    forall i | 0 <= i < |rows|
      ensures Lower(TableList(rows)[i].tableType) == TableList(rows)[i].tableType
      ensures Upper(TableList(rows)[i].tableType) == Upper(rows[i].tabtype)
    {
      LowerIdempotent(rows[i].tabtype);
      var t, l := rows[i].tabtype, Lower(rows[i].tabtype);
      assert forall j :: 0 <= j < |t| ==> Upper(l)[j] == Upper(t)[j];
    }
  }

  // ---------------------------------------------------------------------------
  // get_table_description

  /** The columns of a `syscolumns` row that the description reads:
      `c[0]`, `c[3]` and `c[4]` (the table id and column number sit between). */
  datatype ColumnRow = ColumnRow(colname: string, tabid: int, colno: int, coltype: int, collength: int)

  /** Django's `FieldInfo(name, type_code, display_size, internal_size,
      precision, scale, null_ok)`. */
  datatype FieldInfo = FieldInfo(name: string, typeCode: int, displaySize: Option<int>,
                                 internalSize: int, precision: int, scale: Option<int>, nullOk: int)

  /** Informix's `coltype`: the base type code, plus 256 for a NOT NULL column. */
  function EncodeColtype(baseType: int, notNull: bool): int {
    if notNull then baseType + 256 else baseType
  }

  /** `null_ok` as the code computes it from `coltype`, with the NOT NULL
      flag tested as `coltype > 256`. */
  function NullOk(coltype: int): (n: int)
    ensures n == 0 || n == 1
    ensures n == 0 <==> coltype > 256
  {
    if coltype > 256 then 0 else 1
  }

  /** CHAR has base type code 0, so a CHAR NOT NULL column has `coltype` 256,
      which the test as written reports as nullable. */
  lemma CharNotNullReportedNullable()
    ensures EncodeColtype(0, true) == 256
    ensures NullOk(EncodeColtype(0, true)) == 1
  {
  }

  /** `null_ok` with the NOT NULL flag tested as `coltype >= 256`: `0` exactly
      for the columns whose `coltype` carries the flag. */
  function NullOkIntended(coltype: int): (n: int)
    ensures n == 0 || n == 1
    ensures n == 0 <==> coltype >= 256
  {
    if coltype >= 256 then 0 else 1
  }

  /** `int(x / 256)`: true division, then truncation toward zero. */
  function TruncDiv256(x: int): (q: int)
    ensures x >= 0 ==> q * 256 <= x < q * 256 + 256
    ensures x < 0 ==> q * 256 - 256 < x <= q * 256
  {
    if x >= 0 then x / 256 else -((-x) / 256)
  }

  /** The precision and scale a DECIMAL or NUMERIC `collength` packs: they
      rebuild `collength`, and the scale is a byte for a non-negative one. */
  function DecimalPrecisionScale(collength: int): (ps: (int, int))
    ensures ps.0 * 256 + ps.1 == collength
    ensures collength >= 0 ==> 0 <= ps.1 < 256 && 0 <= ps.0
    ensures collength < 0 ==> -256 < ps.1 <= 0
  {
    var precision := TruncDiv256(collength);
    (precision, collength - precision * 256)
  }

  /** Informix packs a DECIMAL's precision and scale as `precision * 256 +
      scale`; splitting the packed length gives both back. */
  lemma DecimalRoundTrip(precision: nat, scale: int)
    requires 0 <= scale < 256
    ensures DecimalPrecisionScale(precision * 256 + scale) == (precision, scale)
  {
  }

  /** The row `[c[0], c[3] % 256, None, c[4], c[4], None, null_ok]` the
      comprehension builds, except that `null_ok` uses the corrected NOT NULL
      test `NullOkIntended` (`coltype >= 256`) rather than the code's
      `coltype > 256`: the two differ at `coltype` 256 only. */
  function InitialField(c: ColumnRow): FieldInfo {
    FieldInfo(c.colname, c.coltype % 256, None, c.collength, c.collength, None, NullOkIntended(c.coltype))
  }

  /** The description of one column: the base type code without the NOT NULL
      flag, `null_ok` from the flag (by the corrected test `NullOkIntended`,
      see `InitialField`), and for DECIMAL and NUMERIC columns the precision
      and scale unpacked from `collength`. */
  function Describe(c: ColumnRow, sqlNumeric: int, sqlDecimal: int): (f: FieldInfo)
    ensures f.name == c.colname && f.displaySize == None && f.internalSize == c.collength
    ensures 0 <= f.typeCode < 256 && c.coltype == (c.coltype / 256) * 256 + f.typeCode
    ensures (f.nullOk == 0 || f.nullOk == 1) && (f.nullOk == 0 <==> c.coltype >= 256)
    ensures f.typeCode == sqlNumeric || f.typeCode == sqlDecimal ==>
              && f.scale.Some? && f.precision * 256 + f.scale.value == c.collength
              && (c.collength >= 0 ==> 0 <= f.scale.value < 256)
    ensures f.typeCode != sqlNumeric && f.typeCode != sqlDecimal ==>
              f.precision == c.collength && f.scale == None
  {
    var column := InitialField(c);
    if column.typeCode == sqlNumeric || column.typeCode == sqlDecimal then
      var ps := DecimalPrecisionScale(column.internalSize);
      column.(precision := ps.0, scale := Some(ps.1))
    else
      column
  }

  /** `get_table_description`: the comprehension builds one list per row,
      the loop rewrites precision and scale of the decimal ones in place and
      appends each as a `FieldInfo`. The result keeps the rows' order. */
  method GetTableDescription(rows: seq<ColumnRow>, sqlNumeric: int, sqlDecimal: int)
    returns (items: seq<FieldInfo>)
    ensures |items| == |rows|
    ensures forall i :: 0 <= i < |rows| ==> items[i] == Describe(rows[i], sqlNumeric, sqlDecimal)
  {
    var columns := seq(|rows|, i requires 0 <= i < |rows| => InitialField(rows[i]));
    items := [];
    var k := 0;
    while k < |columns|
      invariant 0 <= k <= |columns|
      invariant |items| == k
      invariant forall i :: 0 <= i < k ==> items[i] == Describe(rows[i], sqlNumeric, sqlDecimal)
    {
      var column := columns[k];
      if column.typeCode == sqlNumeric || column.typeCode == sqlDecimal {
        column := column.(precision := TruncDiv256(column.internalSize));
        column := column.(scale := Some(column.internalSize - column.precision * 256));
      }
      items := items + [column];
      k := k + 1;
    }
  }

  /** The description decodes every column type: the base type code and the
      NOT NULL flag packed into `coltype` come back as `type_code` and as
      `null_ok`. */
  lemma DescribeDecodesColtype(c: ColumnRow, baseType: int, notNull: bool, sqlNumeric: int, sqlDecimal: int)
    requires 0 <= baseType < 256 && c.coltype == EncodeColtype(baseType, notNull)
    ensures Describe(c, sqlNumeric, sqlDecimal).typeCode == baseType
    ensures Describe(c, sqlNumeric, sqlDecimal).nullOk == if notNull then 0 else 1
  {
    var f := Describe(c, sqlNumeric, sqlDecimal);
    if notNull {
      assert c.coltype / 256 == 1;
    } else {
      assert c.coltype / 256 == 0;
    }
  }

  // ---------------------------------------------------------------------------
  // get_indexes

  /** A row of the index query: the first column of the index, `idxtype`, and
      the constraint type of the left-joined constraint (`None` when the
      index carries no constraint). */
  datatype IndexRow = IndexRow(colname: string, idxtype: string, constrtype: Option<string>)

  /** `{'primary_key': ..., 'unique': ...}`. */
  datatype IndexInfo = IndexInfo(primaryKey: bool, unique: bool)

  /** The flags of one index row. */
  function IndexFlags(row: IndexRow): (info: IndexInfo)
    ensures info.primaryKey <==> row.constrtype == Some("P")
    ensures info.unique <==> row.idxtype == "U"
  {
    IndexInfo(row.constrtype == Some("P"), row.idxtype == "U")
  }

  function IndexPairs(rows: seq<IndexRow>): seq<(string, IndexInfo)> {
    seq(|rows|, i requires 0 <= i < |rows| => (rows[i].colname, IndexFlags(rows[i])))
  }

  /** `get_indexes`: a dictionary keyed by column name, where a later row for
      the same column overwrites an earlier one. */
  method GetIndexes(rows: seq<IndexRow>) returns (indexes: map<string, IndexInfo>)
    ensures indexes.Keys == set i | 0 <= i < |rows| :: rows[i].colname
    ensures forall i :: IsLast(IndexPairs(rows), i) ==>
              && indexes[rows[i].colname] == IndexFlags(rows[i])
              && (indexes[rows[i].colname].primaryKey <==> rows[i].constrtype == Some("P"))
              && (indexes[rows[i].colname].unique <==> rows[i].idxtype == "U")
  {
    ghost var pairs := IndexPairs(rows);
    indexes := map[];
    var k := 0;
    while k < |rows|
      invariant 0 <= k <= |rows|
      invariant indexes == LastWins(pairs[..k])
    {
      var row := rows[k];
      indexes := indexes[row.colname := IndexInfo(row.constrtype == Some("P"), row.idxtype == "U")];
      assert pairs[..k + 1] == pairs[..k] + [pairs[k]];
      LastWinsSnoc(pairs[..k], pairs[k]);
      k := k + 1;
    }
    assert pairs[..|rows|] == pairs;
    KeysOfRows(rows, pairs, (r: IndexRow) => r.colname);
    LastWinsAll(pairs);
  }

  // ---------------------------------------------------------------------------
  // _get_col_index

  /** A row of `select colno, colname from syscolumns ...`. */
  datatype ColnoRow = ColnoRow(colno: int, colname: string)

  function ColIndexPairs(rows: seq<ColnoRow>): seq<(string, int)> {
    seq(|rows|, i requires 0 <= i < |rows| => (rows[i].colname, rows[i].colno - 1))
  }

  /** `_get_col_index`: each column name mapped to its 0-based position
      (Informix numbers columns from 1); for a repeated name the last row wins. */
  function ColIndex(rows: seq<ColnoRow>): (m: map<string, int>)
    ensures m.Keys == set i | 0 <= i < |rows| :: rows[i].colname
    ensures forall i :: IsLast(ColIndexPairs(rows), i) ==> m[rows[i].colname] == rows[i].colno - 1
  {
    var pairs := ColIndexPairs(rows);
    LastWinsAll(pairs);
    KeysOfRows(rows, pairs, (r: ColnoRow) => r.colname);
    LastWins(pairs)
  }

  // ---------------------------------------------------------------------------
  // get_relations

  /** A row of `get_key_columns`: the local column, the referenced table and
      the referenced column. */
  datatype KeyColumnRow = KeyColumnRow(columnName: string, referencedTable: string, referencedColumn: string)

  /** The `syscolumns` rows of each table, as `_get_col_index` reads them;
      a table that is not in the map has no rows. */
  function ColumnsOf(catalog: map<string, seq<ColnoRow>>, table: string): seq<ColnoRow> {
    if table in catalog then catalog[table] else []
  }

  /** One round of the `get_relations` loop: the local column's index and the
      referenced column's index with the referenced table, or the `KeyError`
      of the first lookup that fails. */
  function RelationEntry(catalog: map<string, seq<ColnoRow>>, table: string, rel: KeyColumnRow)
    : Result<(int, (int, string)), LookupError>
  {
    var local := ColIndex(ColumnsOf(catalog, table));
    if rel.columnName !in local then Failure(KeyError(rel.columnName))
    else
      var remote := ColIndex(ColumnsOf(catalog, rel.referencedTable));
      if rel.referencedColumn !in remote then Failure(KeyError(rel.referencedColumn))
      else Success((local[rel.columnName], (remote[rel.referencedColumn], rel.referencedTable)))
  }

  function RelationEntryIn(catalog: map<string, seq<ColnoRow>>, table: string)
    : KeyColumnRow -> Result<(int, (int, string)), LookupError>
  {
    rel => RelationEntry(catalog, table, rel)
  }

  /** What `get_relations` returns or raises. */
  function Relations(catalog: map<string, seq<ColnoRow>>, table: string, rels: seq<KeyColumnRow>)
    : Result<map<int, (int, string)>, LookupError>
  {
    match Collect(rels, RelationEntryIn(catalog, table))
    case Failure(e) => Failure(e)
    case Success(entries) => Success(LastWins(entries))
  }

  /** `get_relations`: for each key-column row, the local column's 0-based
      index mapped to the referenced column's 0-based index and the
      referenced table; a later row for the same local index wins. */
  method GetRelations(catalog: map<string, seq<ColnoRow>>, table: string, keyColumns: seq<KeyColumnRow>)
    returns (r: Result<map<int, (int, string)>, LookupError>)
    ensures r == Relations(catalog, table, keyColumns)
  {
    ghost var f := RelationEntryIn(catalog, table);
    ghost var entries: seq<(int, (int, string))> := [];
    var relations := map[];
    var k := 0;
    while k < |keyColumns|
      invariant 0 <= k <= |keyColumns|
      invariant Collect(keyColumns[..k], f) == Success(entries)
      invariant relations == LastWins(entries)
    {
      var rel := keyColumns[k];
      var local := ColIndex(ColumnsOf(catalog, table));
      if rel.columnName !in local {
        PrefixSucceeded(keyColumns, f, k, entries);
        CollectFirstFailure(keyColumns, f, k);
        return Failure(KeyError(rel.columnName));
      }
      var row0 := local[rel.columnName];
      var remote := ColIndex(ColumnsOf(catalog, rel.referencedTable));
      if rel.referencedColumn !in remote {
        PrefixSucceeded(keyColumns, f, k, entries);
        CollectFirstFailure(keyColumns, f, k);
        return Failure(KeyError(rel.referencedColumn));
      }
      var row1 := remote[rel.referencedColumn];
      var row2 := rel.referencedTable;
      relations := relations[row0 := (row1, row2)];
      assert f(rel) == Success((row0, (row1, row2)));
      CollectSnoc(keyColumns, f, k, entries);
      LastWinsSnoc(entries, (row0, (row1, row2)));
      entries := entries + [(row0, (row1, row2))];
      k := k + 1;
    }
    assert keyColumns[..|keyColumns|] == keyColumns;
    r := Success(relations);
  }

  // ---------------------------------------------------------------------------
  // get_constraints

  /** A row of the `sysindices` query: index name, index type and the
      `indexkeys` text, such as `"1 [1], 4 [1]"`. */
  datatype IndexKeysRow = IndexKeysRow(idxname: string, idxtype: string, indexkeys: string)

  /** Django's constraint record. */
  datatype Constraint = Constraint(columns: seq<string>, primaryKey: bool, unique: bool,
                                   foreignKey: Option<(string, string)>, check: bool, index: bool)

  /** One comma-separated part of `indexkeys`: `part.strip().split()[0]`
      looked up in the column map; a blank part raises `IndexError`, an
      unknown token `KeyError`. */
  function KeyColumn(columnOf: map<string, string>, part: string): Result<string, LookupError> {
    match FirstField(Strip(part))
    case None => Failure(IndexError)
    case Some(token) => if token in columnOf then Success(columnOf[token]) else Failure(KeyError(token))
  }

  function KeyColumnIn(columnOf: map<string, string>): string -> Result<string, LookupError> {
    part => KeyColumn(columnOf, part)
  }

  /** The `columns` list comprehension over `indexkeys.split(',')`. */
  function KeyColumns(columnOf: map<string, string>, indexkeys: string): Result<seq<string>, LookupError> {
    Collect(Split(indexkeys, ','), KeyColumnIn(columnOf))
  }

  /** The first token of `part` names a column of the map. */
  predicate NamesColumn(columnOf: map<string, string>, part: string) {
    FirstField(part).Some? && FirstField(part).value in columnOf
  }

  /** Every part's first token names a column of the map. */
  predicate AllNameColumns(columnOf: map<string, string>, parts: seq<string>) {
    forall i :: 0 <= i < |parts| ==> NamesColumn(columnOf, parts[i])
  }

  /** The columns the parts' first tokens name, in order. */
  function NamedColumns(columnOf: map<string, string>, parts: seq<string>): seq<string>
    requires AllNameColumns(columnOf, parts)
  {
    seq(|parts|, i requires 0 <= i < |parts| => columnOf[FirstField(parts[i]).value])
  }

  /** One part parses when its first token names a known column, and then
      to that column. */
  lemma KeyColumnOfPart(columnOf: map<string, string>, part: string)
    ensures KeyColumn(columnOf, part).Success? <==> NamesColumn(columnOf, part)
    ensures KeyColumn(columnOf, part).Success? ==>
              KeyColumn(columnOf, part).value == columnOf[FirstField(part).value]
  {
    StripKeepsFirstField(part);
  }

  /** The parse of a list of parts fails exactly when some part is blank or
      names no known column, and otherwise gives each part's column. */
  lemma PartsSpec(columnOf: map<string, string>, parts: seq<string>)
    ensures Collect(parts, KeyColumnIn(columnOf)).Success? <==> AllNameColumns(columnOf, parts)
    ensures Collect(parts, KeyColumnIn(columnOf)).Success? ==>
              Collect(parts, KeyColumnIn(columnOf)).value == NamedColumns(columnOf, parts)
  {
    var f := KeyColumnIn(columnOf);
    forall i | 0 <= i < |parts|
      ensures f(parts[i]).Success? <==> NamesColumn(columnOf, parts[i])
      ensures f(parts[i]).Success? ==> f(parts[i]).value == columnOf[FirstField(parts[i]).value]
    {
      KeyColumnOfPart(columnOf, parts[i]);
    }
    CollectSuccess(parts, f);
  }

  /** `columns` has one entry per comma-separated part of `indexkeys`, in
      order: the column the part's first token names. The parse fails
      exactly when some part is blank or names no known column. */
  lemma KeyColumnsSpec(columnOf: map<string, string>, indexkeys: string)
    ensures KeyColumns(columnOf, indexkeys).Success? <==>
              AllNameColumns(columnOf, Split(indexkeys, ','))
    ensures KeyColumns(columnOf, indexkeys).Success? ==>
              KeyColumns(columnOf, indexkeys).value == NamedColumns(columnOf, Split(indexkeys, ','))
  {
    PartsSpec(columnOf, Split(indexkeys, ','));
  }

  /** An `indexkeys` text written as comma-separated parts, each starting
      with the token of a known column, parses back to those columns. */
  lemma ParseIndexKeys(columnOf: map<string, string>, parts: seq<string>, tokens: seq<string>)
    requires |parts| >= 1 && |tokens| == |parts|
    requires forall i :: 0 <= i < |parts| ==>
               ',' !in parts[i] && FirstField(parts[i]) == Some(tokens[i]) && tokens[i] in columnOf
    ensures KeyColumns(columnOf, Join(parts, ',')) ==
              Success(seq(|tokens|, i requires 0 <= i < |tokens| => columnOf[tokens[i]]))
  {
    SplitJoin(parts, ',');
    PartsSpec(columnOf, parts);
    NamedTokens(columnOf, parts, tokens);
  }

  lemma NamedTokens(columnOf: map<string, string>, parts: seq<string>, tokens: seq<string>)
    requires |tokens| == |parts|
    requires forall i :: 0 <= i < |parts| ==> FirstField(parts[i]) == Some(tokens[i]) && tokens[i] in columnOf
    ensures AllNameColumns(columnOf, parts)
    ensures NamedColumns(columnOf, parts) == seq(|tokens|, i requires 0 <= i < |tokens| => columnOf[tokens[i]])
  {
  }

  /** The record stored for an index with the given columns and type. */
  function ConstraintOf(columns: seq<string>, idxtype: string): Constraint {
    Constraint(columns, |columns| == 1 && idxtype == "U", idxtype == "U", None, true, idxtype == "D")
  }

  /** One round of the `get_constraints` loop. */
  function ConstraintEntry(columnOf: map<string, string>, row: IndexKeysRow): Result<(string, Constraint), LookupError> {
    match KeyColumns(columnOf, row.indexkeys)
    case Failure(e) => Failure(e)
    case Success(columns) => Success((row.idxname, ConstraintOf(columns, row.idxtype)))
  }

  function ConstraintEntryIn(columnOf: map<string, string>): IndexKeysRow -> Result<(string, Constraint), LookupError> {
    row => ConstraintEntry(columnOf, row)
  }

  /** What `get_constraints` returns or raises, given the column map it
      looks the key tokens up in. */
  function Constraints(columnOf: map<string, string>, rows: seq<IndexKeysRow>)
    : Result<map<string, Constraint>, LookupError>
  {
    match Collect(rows, ConstraintEntryIn(columnOf))
    case Failure(e) => Failure(e)
    case Success(entries) => Success(LastWins(entries))
  }

  /** `get_constraints`: a dictionary keyed by index name; a later row for
      the same name wins. */
  method GetConstraints(columnOf: map<string, string>, rows: seq<IndexKeysRow>)
    returns (r: Result<map<string, Constraint>, LookupError>)
    ensures r == Constraints(columnOf, rows)
  {
    ghost var f := ConstraintEntryIn(columnOf);
    ghost var entries: seq<(string, Constraint)> := [];
    var constraints := map[];
    var k := 0;
    assert rows[..0] == [];
    assert Collect(rows[..0], f) == Success([]);
    while k < |rows|
      invariant 0 <= k <= |rows|
      invariant Collect(rows[..k], f) == Success(entries)
      invariant constraints == LastWins(entries)
    {
      var row := rows[k];
      var parsed := KeyColumns(columnOf, row.indexkeys);
      if parsed.Failure? {
        PrefixSucceeded(rows, f, k, entries);
        CollectFirstFailure(rows, f, k);
        return Failure(parsed.error);
      }
      var c := ConstraintOf(parsed.value, row.idxtype);
      constraints := constraints[row.idxname := c];
      assert f(row) == Success((row.idxname, c));
      CollectSnoc(rows, f, k, entries);
      assert Collect(rows[..k + 1], f) == Success(entries + [(row.idxname, c)]);
      LastWinsSnoc(entries, (row.idxname, c));
      entries := entries + [(row.idxname, c)];
      k := k + 1;
    }
    assert rows[..|rows|] == rows;
    r := Success(constraints);
  }

  /** Row `i` is the last row with its index name. */
  ghost predicate LastOfName(rows: seq<IndexKeysRow>, i: int) {
    0 <= i < |rows| && forall j :: i < j < |rows| ==> rows[j].idxname != rows[i].idxname
  }

  /** `get_constraints` succeeds exactly when every row's `indexkeys` parses;
      it then holds one record per index name, taken from the last row with
      that name: its parsed columns, `unique` for type `'U'`, `primary_key`
      for type `'U'` with a single column, `index` for type `'D'`, no
      foreign key, and `check` set. */
  lemma ConstraintsSpec(columnOf: map<string, string>, rows: seq<IndexKeysRow>)
    ensures Constraints(columnOf, rows).Success? <==>
              forall i :: 0 <= i < |rows| ==> KeyColumns(columnOf, rows[i].indexkeys).Success?
    ensures Constraints(columnOf, rows).Success? ==>
              var m := Constraints(columnOf, rows).value;
              && m.Keys == (set i | 0 <= i < |rows| :: rows[i].idxname)
              && forall i :: LastOfName(rows, i) ==>
                   var c := m[rows[i].idxname];
                   && KeyColumns(columnOf, rows[i].indexkeys) == Success(c.columns)
                   && (c.unique <==> rows[i].idxtype == "U")
                   && (c.primaryKey <==> |c.columns| == 1 && rows[i].idxtype == "U")
                   && (c.index <==> rows[i].idxtype == "D")
                   && c.foreignKey == None && c.check
  {
    var f := ConstraintEntryIn(columnOf);
    CollectSuccess(rows, f);
    if Collect(rows, f).Success? {
      var entries := Collect(rows, f).value;
      KeysOfRows(rows, entries, (r: IndexKeysRow) => r.idxname);
      LastWinsAll(entries);
      forall i | LastOfName(rows, i)
        ensures IsLast(entries, i)
      {
      }
    }
  }

  /** The lookups of one key-column row all succeed. */
  predicate Resolves(catalog: map<string, seq<ColnoRow>>, table: string, rel: KeyColumnRow) {
    && rel.columnName in ColIndex(ColumnsOf(catalog, table))
    && rel.referencedColumn in ColIndex(ColumnsOf(catalog, rel.referencedTable))
  }

  /** The lookups of every key-column row succeed. */
  predicate AllResolve(catalog: map<string, seq<ColnoRow>>, table: string, rels: seq<KeyColumnRow>) {
    forall i :: 0 <= i < |rels| ==> Resolves(catalog, table, rels[i])
  }

  /** The 0-based index of a row's local column. */
  function LocalIndex(catalog: map<string, seq<ColnoRow>>, table: string, rel: KeyColumnRow): int
    requires Resolves(catalog, table, rel)
  {
    ColIndex(ColumnsOf(catalog, table))[rel.columnName]
  }

  /** The 0-based index of a row's referenced column in the referenced table. */
  function RemoteIndex(catalog: map<string, seq<ColnoRow>>, rel: KeyColumnRow): int
    requires rel.referencedColumn in ColIndex(ColumnsOf(catalog, rel.referencedTable))
  {
    ColIndex(ColumnsOf(catalog, rel.referencedTable))[rel.referencedColumn]
  }

  /** One round of the loop succeeds exactly when both lookups do, and then
      pairs the local index with the referenced index and table. */
  lemma RelationEntrySpec(catalog: map<string, seq<ColnoRow>>, table: string, rel: KeyColumnRow)
    ensures RelationEntry(catalog, table, rel).Success? <==> Resolves(catalog, table, rel)
    ensures Resolves(catalog, table, rel) ==>
              RelationEntry(catalog, table, rel).value ==
                (LocalIndex(catalog, table, rel), (RemoteIndex(catalog, rel), rel.referencedTable))
  {
  }

  /** Row `i` is the last row whose local column has its index. */
  ghost predicate LastOfLocal(catalog: map<string, seq<ColnoRow>>, table: string, rels: seq<KeyColumnRow>, i: int)
    requires AllResolve(catalog, table, rels)
  {
    0 <= i < |rels|
    && forall j :: i < j < |rels| ==> LocalIndex(catalog, table, rels[j]) != LocalIndex(catalog, table, rels[i])
  }

  /** The entries `get_relations` assigns when every lookup succeeds. */
  lemma RelationEntries(catalog: map<string, seq<ColnoRow>>, table: string, rels: seq<KeyColumnRow>)
    ensures Collect(rels, RelationEntryIn(catalog, table)).Success? <==> AllResolve(catalog, table, rels)
    ensures Collect(rels, RelationEntryIn(catalog, table)).Success? ==>
              var entries := Collect(rels, RelationEntryIn(catalog, table)).value;
              && |entries| == |rels|
              && forall i :: 0 <= i < |rels| ==>
                   entries[i] == (LocalIndex(catalog, table, rels[i]),
                                  (RemoteIndex(catalog, rels[i]), rels[i].referencedTable))
  {
    var f := RelationEntryIn(catalog, table);
    forall i | 0 <= i < |rels|
      ensures f(rels[i]).Success? <==> Resolves(catalog, table, rels[i])
      ensures Resolves(catalog, table, rels[i]) ==>
                f(rels[i]).value == (LocalIndex(catalog, table, rels[i]),
                                     (RemoteIndex(catalog, rels[i]), rels[i].referencedTable))
    {
      RelationEntrySpec(catalog, table, rels[i]);
    }
    CollectSuccess(rels, f);
  }

  /** `get_relations` succeeds exactly when every column lookup does; it then
      maps the local column index of each row to the referenced column's
      index and the referenced table, the last row winning for a repeated
      local index. */
  lemma RelationsSpec(catalog: map<string, seq<ColnoRow>>, table: string, rels: seq<KeyColumnRow>)
    ensures Relations(catalog, table, rels).Success? <==> AllResolve(catalog, table, rels)
    ensures Relations(catalog, table, rels).Success? ==>
              var m := Relations(catalog, table, rels).value;
              && m.Keys == (set i | 0 <= i < |rels| :: LocalIndex(catalog, table, rels[i]))
              && forall i :: LastOfLocal(catalog, table, rels, i) ==>
                   m[LocalIndex(catalog, table, rels[i])] ==
                     (RemoteIndex(catalog, rels[i]), rels[i].referencedTable)
  {
    RelationEntries(catalog, table, rels);
    var c := Collect(rels, RelationEntryIn(catalog, table));
    if c.Success? {
      var entries := c.value;
      KeysOfRows(rels, entries, (r: KeyColumnRow) requires Resolves(catalog, table, r) => LocalIndex(catalog, table, r));
      LastWinsAll(entries);
      forall i | LastOfLocal(catalog, table, rels, i)
        ensures IsLast(entries, i)
      {
      }
    }
  }
}
