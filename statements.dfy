/** SQL statements as structured values: which table, which columns, which
    values. Turning them into SQL text is not modelled. */
module Statements {

  /** A field value of a ccxt ticker (a number, a string or None). How it is
      rendered into SQL text is left uninterpreted. */
  type Value(==)

  /** An expression in the VALUES list of an INSERT. */
  datatype SqlExpr =
    | Lit(v: Value)          // the value rendered as it is
    | ToTimestamp(v: Value)  // `to_timestamp(<value>)`

  /** Column types that occur in the scraper's CREATE TABLE statements. */
  datatype ColumnType =
    | BigSerialPrimaryKey  // `bigserial PRIMARY KEY`
    | TimestampNotNull     // `timestamp NOT NULL`
    | BigintNotNull        // `bigint NOT NULL`
    | Numeric16            // `numeric(16)`
    | Numeric              // `numeric`
    | Bigint               // `bigint`

  datatype ColumnDef = ColumnDef(name: string, ty: ColumnType)

  /** `CREATE TABLE [IF NOT EXISTS] <table> (<columns>)`. */
  datatype CreateTable = CreateTable(table: string, ifNotExists: bool, columns: seq<ColumnDef>)

  /** `INSERT INTO <table> (<columns>) VALUES (<values>)`. */
  datatype Insert = Insert(table: string, columns: seq<string>, values: seq<SqlExpr>)

  /** The names of a column list, in order. */
  function ColumnNames(defs: seq<ColumnDef>): (names: seq<string>)
    ensures |names| == |defs|
    ensures forall i :: 0 <= i < |defs| ==> names[i] == defs[i].name
  {
    seq(|defs|, i requires 0 <= i < |defs| => defs[i].name)
  }
}
