/** What the statement builders guarantee about each other: the inserts of a
    symbol target the tables its CREATE statements declare, column for column,
    and different symbols never share a table. */
module SchemaFacts {
  import opened Exceptions
  import opened Statements
  import opened Store
  import opened Schema

  /** The storage keys are pairwise distinct. */
  lemma StorageKeysDistinct(s1: string, s2: string)
    requires s1 in SymbolMap && s2 in SymbolMap && s1 != s2
    ensures SymbolMap[s1] != SymbolMap[s2]
  {
  }

  /** Two prefixed table names are equal only when prefixes and keys are. */
  lemma {:induction false} PrefixedNamesEqual(p1: string, k1: string, p2: string, k2: string)
    requires p1 in {ValuePrefix, InfoPrefix} && p2 in {ValuePrefix, InfoPrefix}
    requires p1 + k1 == p2 + k2
    ensures p1 == p2 && k1 == k2
  {
    var n := p1 + k1;
    assert n[7] == p1[7] && n[7] == p2[7];
    assert k1 == n[|p1|..] == k2;
  }

  /** The four tables of two different symbols, and the two tables of one
      symbol, are all different. */
  lemma DistinctSymbolsDistinctTables(enc: Encoding, s1: string, s2: string)
    requires s1 in SymbolMap && s2 in SymbolMap
    ensures BuildTables(enc, s1).Ok? && BuildTables(enc, s2).Ok?
    ensures BuildTables(enc, s1).value.0.table != BuildTables(enc, s1).value.1.table
    ensures s1 != s2 ==>
      var (v1, i1) := BuildTables(enc, s1).value;
      var (v2, i2) := BuildTables(enc, s2).value;
      v1.table != v2.table && i1.table != i2.table && v1.table != i2.table && i1.table != v2.table
  {
    var k1, k2 := SymbolMap[s1], SymbolMap[s2];
    if ValuePrefix + k1 == InfoPrefix + k1 { PrefixedNamesEqual(ValuePrefix, k1, InfoPrefix, k1); }
    if s1 != s2 {
      StorageKeysDistinct(s1, s2);
      if ValuePrefix + k1 == ValuePrefix + k2 { PrefixedNamesEqual(ValuePrefix, k1, ValuePrefix, k2); }
      if InfoPrefix + k1 == InfoPrefix + k2 { PrefixedNamesEqual(InfoPrefix, k1, InfoPrefix, k2); }
      if ValuePrefix + k1 == InfoPrefix + k2 { PrefixedNamesEqual(ValuePrefix, k1, InfoPrefix, k2); }
      if InfoPrefix + k1 == ValuePrefix + k2 { PrefixedNamesEqual(InfoPrefix, k1, ValuePrefix, k2); }
    }
  }

  /** The column names of TableColumns are `id`, `timestamp`, then the fields. */
  lemma TableColumnNames(enc: Encoding, fields: seq<string>)
    ensures ColumnNames(TableColumns(enc, fields)) == ["id", "timestamp"] + fields
  {
  }

  /** The CREATE statements of a mapped symbol declare `id`, `timestamp` and
      then the summary fields, or the detail fields, in order. */
  lemma BuildTablesColumns(enc: Encoding, symbol: string)
    requires symbol in SymbolMap
    ensures ColumnNames(BuildTables(enc, symbol).value.0.columns) == ["id", "timestamp"] + ValueFields
    ensures ColumnNames(BuildTables(enc, symbol).value.1.columns) == ["id", "timestamp"] + InfoFields
  {
    TableColumnNames(enc, ValueFields);
    TableColumnNames(enc, InfoFields);
  }

  /** Without `id`, the declared column names are `timestamp` and the fields. */
  lemma DropId(enc: Encoding, fields: seq<string>)
    ensures ColumnNames(TableColumns(enc, fields))[1..] == ["timestamp"] + fields
  {
    TableColumnNames(enc, fields);
    assert (["id", "timestamp"] + fields)[1..] == ["timestamp"] + fields;
  }

  /** Each insert of a symbol targets the table its CREATE declares and names
      that table's columns without `id`, in declaration order. */
  lemma InsertColumnsMatchCreate(enc: Encoding, symbol: string, ticker: map<string, Value>, info: map<string, Value>)
    requires BuildInsertTicker(enc, symbol, ticker, info).Ok?
    ensures BuildTables(enc, symbol).Ok?
    ensures
      var (cv, ci) := BuildTables(enc, symbol).value;
      var (iv, ii) := BuildInsertTicker(enc, symbol, ticker, info).value;
      iv.table == cv.table && ii.table == ci.table &&
      iv.columns == ColumnNames(cv.columns)[1..] &&
      ii.columns == ColumnNames(ci.columns)[1..]
  {
    DropId(enc, ValueFields);
    DropId(enc, InfoFields);
  }

  /** Column types declared by each encoding: the timestamp column, then the data columns. */
  lemma ColumnTypes(enc: Encoding, symbol: string)
    requires symbol in SymbolMap
    ensures
      var (cv, ci) := BuildTables(enc, symbol).value;
      cv.columns[1] == ci.columns[1] == ColumnDef("timestamp", TimestampType(enc)) &&
      (enc == TemporalTimestamp ==> cv.columns[1].ty == TimestampNotNull) &&
      (enc == EpochBigint ==> cv.columns[1].ty == BigintNotNull) &&
      (forall i :: 2 <= i < |cv.columns| ==>
        cv.columns[i].ty == (if enc == TemporalTimestamp then Numeric16 else Numeric)) &&
      (forall i :: 2 <= i < |ci.columns| ==>
        ci.columns[i].ty ==
          (if enc == TemporalTimestamp then Numeric16
           else if 17 <= i then Bigint else Numeric))
  {
  }

  /** The inserts of a symbol fit tables declared by that symbol's CREATE statements. */
  lemma InsertsFitCreatedTables(enc: Encoding, symbol: string, ticker: map<string, Value>, info: map<string, Value>, t: Tables)
    requires BuildInsertTicker(enc, symbol, ticker, info).Ok?
    requires BuildTables(enc, symbol).Ok?
    requires
      var (cv, ci) := BuildTables(enc, symbol).value;
      cv.table in t && t[cv.table].columns == cv.columns &&
      ci.table in t && t[ci.table].columns == ci.columns
    ensures
      var (iv, ii) := BuildInsertTicker(enc, symbol, ticker, info).value;
      Fits(t, iv) && Fits(t, ii)
  {
    InsertColumnsMatchCreate(enc, symbol, ticker, info);
  }

  /** Both inserts store the ticker's own timestamp, never the detail
      dictionary's: scraper.py wraps it in `to_timestamp`, the binance copy
      stores the number unconverted. */
  lemma TimestampStored(enc: Encoding, symbol: string, ticker: map<string, Value>, info: map<string, Value>)
    requires BuildInsertTicker(enc, symbol, ticker, info).Ok?
    ensures var (iv, ii) := BuildInsertTicker(enc, symbol, ticker, info).value;
      iv.values[0] == ii.values[0] &&
      (enc == TemporalTimestamp ==> iv.values[0] == ToTimestamp(ticker["timestamp"])) &&
      (enc == EpochBigint ==> iv.values[0] == Lit(ticker["timestamp"]))
  {
  }
}
