/** The relational store the scraper writes to: a map from table name to the
    table's declared columns and its rows, in insertion order. */
module Store {
  import opened Exceptions
  import opened Statements

  /** One stored row: the columns the INSERT named and the values it gave. */
  datatype Row = Row(columns: seq<string>, values: seq<SqlExpr>)

  datatype Table = Table(columns: seq<ColumnDef>, rows: seq<Row>)

  type Tables = map<string, Table>

  /** Whether the database accepts `stmt` on `t`: the table exists, the column
      and value lists have the same length, and every named column is declared. */
  predicate Fits(t: Tables, stmt: Insert) {
    stmt.table in t &&
    |stmt.columns| == |stmt.values| &&
    forall c :: c in stmt.columns ==> c in ColumnNames(t[stmt.table].columns)
  }

  /** `t` with the row that `stmt` describes appended to its table. */
  function AppendRow(t: Tables, stmt: Insert): (t': Tables)
    requires stmt.table in t
  {
    var table := t[stmt.table];
    t[stmt.table := table.(rows := table.rows + [Row(stmt.columns, stmt.values)])]
  }

  /** Executing a CREATE TABLE; `fault` stands for a failure of the database
      or the connection that the model does not otherwise explain. */
  function ApplyCreate(t: Tables, stmt: CreateTable, fault: bool): (r: Result<Tables>) {
    if fault then Err(DatabaseError("statement failed"))
    else if stmt.table in t then
      if stmt.ifNotExists then Ok(t) else Err(DatabaseError("relation already exists"))
    else Ok(t[stmt.table := Table(stmt.columns, [])])
  }

  /** Executing an INSERT; `fault` as for ApplyCreate. */
  function ApplyInsert(t: Tables, stmt: Insert, fault: bool): (r: Result<Tables>) {
    if fault || !Fits(t, stmt) then Err(DatabaseError("statement failed"))
    else Ok(AppendRow(t, stmt))
  }

  /** The store grew only by appending rows: no table appeared or vanished,
      no declaration changed, and every table's old rows are a prefix of its new ones. */
  ghost predicate Extends(t: Tables, t': Tables) {
    t'.Keys == t.Keys &&
    forall n :: n in t ==> t'[n].columns == t[n].columns && t[n].rows <= t'[n].rows
  }

  /** A database connection; its statements change `tables` in place. */
  class Database {
    var tables: Tables

    constructor (initial: Tables)
      ensures tables == initial
    {
      tables := initial;
    }

    /** `connection.execute` of a CREATE TABLE. A failed statement changes nothing. */
    method Create(stmt: CreateTable, fault: bool) returns (r: Result<()>)
      modifies this
      ensures ApplyCreate(old(tables), stmt, fault).Ok? ==>
                r.Ok? && tables == ApplyCreate(old(tables), stmt, fault).value
      ensures ApplyCreate(old(tables), stmt, fault).Err? ==>
                r == Err(ApplyCreate(old(tables), stmt, fault).error) && tables == old(tables)
    {
      if fault {
        r := Err(DatabaseError("statement failed"));
      } else if stmt.table in tables {
        r := if stmt.ifNotExists then Ok(()) else Err(DatabaseError("relation already exists"));
      } else {
        tables := tables[stmt.table := Table(stmt.columns, [])];
        r := Ok(());
      }
    }

    /** `connection.execute` of an INSERT. A failed statement changes nothing. */
    method Insert(stmt: Statements.Insert, fault: bool) returns (r: Result<()>)
      modifies this
      ensures ApplyInsert(old(tables), stmt, fault).Ok? ==>
                r.Ok? && tables == ApplyInsert(old(tables), stmt, fault).value
      ensures ApplyInsert(old(tables), stmt, fault).Err? ==>
                r == Err(ApplyInsert(old(tables), stmt, fault).error) && tables == old(tables)
    {
      if fault || !Fits(tables, stmt) {
        r := Err(DatabaseError("statement failed"));
      } else {
        var table := tables[stmt.table];
        tables := tables[stmt.table := table.(rows := table.rows + [Row(stmt.columns, stmt.values)])];
        r := Ok(());
      }
    }

    /** Rolling a transaction back: the tables return to the snapshot taken when it began. */
    method Restore(snapshot: Tables)
      modifies this
      ensures tables == snapshot
    {
      tables := snapshot;
    }
  }
}
