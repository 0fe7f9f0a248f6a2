/** Table naming and statement building: `symbol_map`, `build_tables` and
    `build_insert_ticker`, shared by both copies of the scraper. */
module Schema {
  import opened Exceptions
  import opened Statements

  /** How a copy of the scraper stores the ticker timestamp (epoch milliseconds).
      TemporalTimestamp is scraper.py: a `timestamp` column filled with
      `to_timestamp(...)`, and `numeric(16)` data columns. EpochBigint is
      binance-scraper/scraper.py: a `bigint` column holding the raw number,
      unconstrained `numeric` data columns, and `bigint` for the five integer
      fields of the detail table. */
  datatype Encoding = TemporalTimestamp | EpochBigint

  /** The closed mapping from trading pair to storage key. */
  const SymbolMap: map<string, string> :=
    map["BTC/USDT" := "btc", "ETH/USDT" := "eth", "BNB/USDT" := "bnb", "EOS/USDT" := "eos"]

  /** The fixed symbol list `main` is started with. */
  const Symbols: seq<string> := ["BTC/USDT", "ETH/USDT", "BNB/USDT", "EOS/USDT"]

  const ValuePrefix: string := "ticker_value_"
  const InfoPrefix: string := "ticker_info_"

  /** Data columns of the summary table, in declaration order. */
  const ValueFields: seq<string> := [
    "high", "low", "bid", "bidVolume", "ask", "askVolume", "vwap", "open",
    "close", "last", "previousClose", "change", "percentage", "baseVolume", "quoteVolume"]

  /** Data columns of the detail table, in declaration order. */
  const InfoFields: seq<string> := [
    "priceChange", "priceChangePercent", "weightedAvgPrice", "prevClosePrice",
    "lastPrice", "lastQty", "bidPrice", "bidQty", "askPrice", "askQty",
    "openPrice", "highPrice", "lowPrice", "volume", "quoteVolume",
    "openTime", "closeTime", "firstId", "lastId", "count"]

  /** Detail fields that EpochBigint declares `bigint`. */
  const IntegerFields: set<string> := {"openTime", "closeTime", "firstId", "lastId", "count"}

  function TimestampType(enc: Encoding): (ty: ColumnType) {
    match enc
    case TemporalTimestamp => TimestampNotNull
    case EpochBigint => BigintNotNull
  }

  function DataType(enc: Encoding, field: string): (ty: ColumnType) {
    match enc
    case TemporalTimestamp => Numeric16
    case EpochBigint => if field in IntegerFields then Bigint else Numeric
  }

  /** The expression that stores the ticker's timestamp. */
  function TimestampExpr(enc: Encoding, ts: Value): (expr: SqlExpr) {
    match enc
    case TemporalTimestamp => ToTimestamp(ts)
    case EpochBigint => Lit(ts)
  }

  /** `id`, `timestamp`, then one column per data field. */
  function TableColumns(enc: Encoding, fields: seq<string>): (columns: seq<ColumnDef>) {
    [ColumnDef("id", BigSerialPrimaryKey), ColumnDef("timestamp", TimestampType(enc))] +
    seq(|fields|, i requires 0 <= i < |fields| => ColumnDef(fields[i], DataType(enc, fields[i])))
  }

  function Lits(vs: seq<Value>): (r: seq<SqlExpr>)
    ensures |r| == |vs| && forall i :: 0 <= i < |vs| ==> r[i] == Lit(vs[i])
  {
    seq(|vs|, i requires 0 <= i < |vs| => Lit(vs[i]))
  }

  /** `e` is the KeyError of the first key of `keys` missing from `d`. */
  ghost predicate FirstMissing<V>(d: map<string, V>, keys: seq<string>, e: Exc) {
    exists i :: 0 <= i < |keys| && keys[i] !in d && e == MissingKey(keys[i]) &&
      forall j :: 0 <= j < i ==> keys[j] in d
  }

  /** The keys the summary INSERT reads from the ticker, in evaluation order. */
  const SummaryKeys: seq<string> := ["timestamp"] + ValueFields

  /** `d[keys[0]], d[keys[1]], ...` evaluated left to right: the KeyError of
      the first missing key, or every value in key order. */
  function LookupAll<V>(d: map<string, V>, keys: seq<string>): (r: Result<seq<V>>)
    ensures r.Ok? <==> forall k :: k in keys ==> k in d
    ensures r.Ok? ==> |r.value| == |keys| && forall i :: 0 <= i < |keys| ==> r.value[i] == d[keys[i]]
    ensures r.Err? ==> FirstMissing(d, keys, r.error)
  {
    if keys == [] then Ok([])
    else if keys[0] !in d then Err(MissingKey(keys[0]))
    else
      match LookupAll(d, keys[1..])
      case Ok(vs) => Ok([d[keys[0]]] + vs)
      case Err(e) => Err(e)
  }

  /** `build_tables(symbol)`: the two CREATE statements for a symbol's tables. */
  function BuildTables(enc: Encoding, symbol: string): (r: Result<(CreateTable, CreateTable)>)
    ensures r.Ok? <==> symbol in SymbolMap
    ensures r.Err? ==> r.error == MissingKey(symbol)
    ensures r.Ok? ==>
      r.value.0.table == "ticker_value_" + SymbolMap[symbol] &&
      r.value.1.table == "ticker_info_" + SymbolMap[symbol]
    ensures r.Ok? ==> r.value.0.ifNotExists && r.value.1.ifNotExists
    ensures r.Ok? ==> |r.value.0.columns| == 17 && |r.value.1.columns| == 22
    ensures r.Ok? ==>
      r.value.0.columns[0] == r.value.1.columns[0] == ColumnDef("id", BigSerialPrimaryKey)
  {
    if symbol !in SymbolMap then Err(MissingKey(symbol))
    else
      var key := SymbolMap[symbol];
      Ok((CreateTable(ValuePrefix + key, true, TableColumns(enc, ValueFields)),
          CreateTable(InfoPrefix + key, true, TableColumns(enc, InfoFields))))
  }

  /** The summary INSERT of `build_insert_ticker`: the timestamp, then the
      summary fields, each read from the ticker in column order. */
  function SummaryInsert(enc: Encoding, key: string, ticker: map<string, Value>): (r: Result<Insert>)
    ensures r.Ok? <==> "timestamp" in ticker && forall f :: f in ValueFields ==> f in ticker
    ensures r.Err? ==> FirstMissing(ticker, SummaryKeys, r.error)
    ensures r.Ok? ==>
      r.value.table == ValuePrefix + key &&
      r.value.columns == SummaryKeys &&
      |r.value.values| == 16 &&
      r.value.values[0] == TimestampExpr(enc, ticker["timestamp"]) &&
      forall i :: 1 <= i < 16 ==> r.value.columns[i] in ticker && r.value.values[i] == Lit(ticker[r.value.columns[i]])
  {
    match LookupAll(ticker, SummaryKeys)
    case Err(e) => Err(e)
    case Ok(vs) =>
      assert forall f :: f in ValueFields ==> f in SummaryKeys;
      Ok(Insert(ValuePrefix + key, SummaryKeys, [TimestampExpr(enc, vs[0])] + Lits(vs[1..])))
  }

  /** The detail INSERT of `build_insert_ticker`: the timestamp expression
      `ts`, then the detail fields, each read from `info` in column order. */
  function DetailInsert(key: string, ts: SqlExpr, info: map<string, Value>): (r: Result<Insert>)
    ensures r.Ok? <==> forall f :: f in InfoFields ==> f in info
    ensures r.Err? ==> FirstMissing(info, InfoFields, r.error)
    ensures r.Ok? ==>
      r.value.table == InfoPrefix + key &&
      r.value.columns == ["timestamp"] + InfoFields &&
      |r.value.values| == 21 &&
      r.value.values[0] == ts &&
      forall i :: 1 <= i < 21 ==> r.value.columns[i] in info && r.value.values[i] == Lit(info[r.value.columns[i]])
  {
    match LookupAll(info, InfoFields)
    case Err(e) => Err(e)
    case Ok(vs) => Ok(Insert(InfoPrefix + key, ["timestamp"] + InfoFields, [ts] + Lits(vs)))
  }

  /** `build_insert_ticker(symbol, ticker, ticker_info)`: the two INSERT
      statements for one fetched ticker. Python evaluates the symbol lookup
      first, then the ticker fields of the summary insert, then the detail
      fields, so the first missing key decides which KeyError is raised. */
  function BuildInsertTicker(enc: Encoding, symbol: string, ticker: map<string, Value>, info: map<string, Value>)
    : (r: Result<(Insert, Insert)>)
    ensures symbol !in SymbolMap ==> r == Err(MissingKey(symbol))
    ensures r.Ok? <==>
      symbol in SymbolMap && "timestamp" in ticker &&
      (forall f :: f in ValueFields ==> f in ticker) &&
      (forall f :: f in InfoFields ==> f in info)
    ensures r.Err? ==> KeyError in r.error.classes
    ensures r.Err? && symbol in SymbolMap ==>
      FirstMissing(ticker, SummaryKeys, r.error) ||
      ((forall k :: k in SummaryKeys ==> k in ticker) && FirstMissing(info, InfoFields, r.error))
    ensures r.Ok? ==>
      r.value.0.table == "ticker_value_" + SymbolMap[symbol] &&
      r.value.1.table == "ticker_info_" + SymbolMap[symbol]
    ensures r.Ok? ==>
      r.value.0.columns == ["timestamp"] + ValueFields &&
      r.value.1.columns == ["timestamp"] + InfoFields
    ensures r.Ok? ==>
      |r.value.0.columns| == |r.value.0.values| == 16 &&
      |r.value.1.columns| == |r.value.1.values| == 21
    ensures r.Ok? ==>
      r.value.0.values[0] == r.value.1.values[0] == TimestampExpr(enc, ticker["timestamp"])
    ensures r.Ok? ==>
      forall i :: 1 <= i < 16 ==> r.value.0.columns[i] in ticker && r.value.0.values[i] == Lit(ticker[r.value.0.columns[i]])
    ensures r.Ok? ==>
      forall i :: 1 <= i < 21 ==> r.value.1.columns[i] in info && r.value.1.values[i] == Lit(info[r.value.1.columns[i]])
  {
    if symbol !in SymbolMap then Err(MissingKey(symbol))
    else
      var key := SymbolMap[symbol];
      match SummaryInsert(enc, key, ticker)
      case Err(e) => Err(e)
      case Ok(sqlValue) =>
        match DetailInsert(key, sqlValue.values[0], info)
        case Err(e) => Err(e)
        case Ok(sqlInfo) => Ok((sqlValue, sqlInfo))
  }
}
