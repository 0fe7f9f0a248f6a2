/** Properties of `handle_symbol` and `main`: how fetch errors are treated,
    all-or-nothing persistence of a ticker, append-only growth of the store,
    and idempotence and atomicity of the startup batch. */
module PollerFacts {
  import opened Exceptions
  import opened Statements
  import opened Store
  import opened Schema
  import opened SchemaFacts
  import opened Poller

  /** Both rows of one ticker were appended, in order, and nothing else changed. */
  ghost predicate PairAppended(t: Tables, t': Tables, sqlValue: Insert, sqlInfo: Insert) {
    Fits(t, sqlValue) && Fits(AppendRow(t, sqlValue), sqlInfo) &&
    t' == AppendRow(AppendRow(t, sqlValue), sqlInfo)
  }

  /** The fetch of `poll` raised an ExchangeError that is not transient. */
  predicate ExitingPoll(poll: Poll) {
    poll.fetch.Raised? && ExchangeError in poll.fetch.e.classes && !IsTransient(poll.fetch.e)
  }

  /** A step ended by `exit` or by an escaping exception for a fatal reason only. */
  predicate FatalStop(r: StepResult) {
    (r.Exited? ==> r.status == 1) &&
    (r.Escaped? ==> !IsTransient(r.e) && ExchangeError !in r.e.classes)
  }

  /** The fetch errors: a transient one is absorbed with nothing written, an
      ExchangeError exits with status 1, anything else escapes; the last two
      leave the store as it was. */
  lemma FetchErrorHandling(enc: Encoding, t: Tables, symbol: string, poll: Poll)
    requires poll.fetch.Raised?
    ensures var e := poll.fetch.e;
      HandleSymbolSpec(enc, t, symbol, poll) ==
        if IsTransient(e) then (Completed, t)
        else if ExchangeError in e.classes then (Exited(1), t)
        else (Escaped(e), t)
  {
  }

  /** A ticker lacking a field the builders read makes the KeyError escape
      `handle_symbol`, and nothing is written. */
  lemma MissingFieldEscapes(enc: Encoding, t: Tables, symbol: string, poll: Poll)
    requires poll.fetch.Fetched? && InsertsFor(enc, symbol, poll.fetch.ticker).Err?
    ensures HandleSymbolSpec(enc, t, symbol, poll) ==
      (Escaped(InsertsFor(enc, symbol, poll.fetch.ticker).error), t)
    ensures KeyError in InsertsFor(enc, symbol, poll.fetch.ticker).error.classes
  {
  }

  /** Atomicity of `handle_symbol`: either the store is unchanged, or the step
      completed and exactly the two rows of the fetched ticker were appended. */
  lemma HandleSymbolAtomic(enc: Encoding, t: Tables, symbol: string, poll: Poll)
    ensures var (r, t') := HandleSymbolSpec(enc, t, symbol, poll);
      t' == t ||
      (r == Completed && poll.fetch.Fetched? && InsertsFor(enc, symbol, poll.fetch.ticker).Ok? &&
       PairAppended(t, t', InsertsFor(enc, symbol, poll.fetch.ticker).value.0,
                           InsertsFor(enc, symbol, poll.fetch.ticker).value.1))
  {
    match poll.fetch
    case Raised(e) =>
    case Fetched(ticker) =>
      match InsertsFor(enc, symbol, ticker)
      case Err(e) =>
      case Ok((sqlValue, sqlInfo)) =>
        match ApplyInsert(t, sqlValue, poll.faults.first)
        case Err(e) =>
        case Ok(t1) =>
          match ApplyInsert(t1, sqlInfo, poll.faults.second)
          case Err(e) => assert Dispatch(e) == Propagate;
          case Ok(t2) =>
  }

  /** If either insert of the pair fails, whether by a database fault or
      because its table rejects it, the database error escapes and neither
      row remains. */
  lemma FailedWriteRollsBack(enc: Encoding, t: Tables, symbol: string, ticker: Ticker, faults: WriteFaults)
    requires InsertsFor(enc, symbol, ticker).Ok?
    requires var (sqlValue, sqlInfo) := InsertsFor(enc, symbol, ticker).value;
      ApplyInsert(t, sqlValue, faults.first).Err? ||
      ApplyInsert(ApplyInsert(t, sqlValue, faults.first).value, sqlInfo, faults.second).Err?
    ensures var (r, t') := HandleSymbolSpec(enc, t, symbol, Poll(Fetched(ticker), faults));
      r.Escaped? && PostgresError in r.e.classes && t' == t
  {
  }

  /** If the summary row is written but the detail row fails, the database
      error escapes and the summary row is rolled back too. */
  lemma SecondWriteFailureRollsBack(enc: Encoding, t: Tables, symbol: string, ticker: Ticker)
    requires InsertsFor(enc, symbol, ticker).Ok?
    requires Fits(t, InsertsFor(enc, symbol, ticker).value.0)
    ensures var (r, t') := HandleSymbolSpec(enc, t, symbol, Poll(Fetched(ticker), WriteFaults(false, true)));
      r.Escaped? && PostgresError in r.e.classes && t' == t
  {
    FailedWriteRollsBack(enc, t, symbol, ticker, WriteFaults(false, true));
  }

  /** A complete ticker for a symbol whose tables exist as `build_tables`
      declares them is persisted: one row in each table, holding the ticker's
      values in column order, and the step completes. */
  lemma PersistsFetchedTicker(enc: Encoding, t: Tables, symbol: string, ticker: Ticker)
    requires InsertsFor(enc, symbol, ticker).Ok?
    requires BuildTables(enc, symbol).Ok?
    requires
      var (cv, ci) := BuildTables(enc, symbol).value;
      cv.table in t && t[cv.table].columns == cv.columns &&
      ci.table in t && t[ci.table].columns == ci.columns
    ensures
      var (sqlValue, sqlInfo) := InsertsFor(enc, symbol, ticker).value;
      var (r, t') := HandleSymbolSpec(enc, t, symbol, Poll(Fetched(ticker), NoFaults));
      r == Completed && t'.Keys == t.Keys &&
      t'[sqlValue.table].rows == t[sqlValue.table].rows + [Row(sqlValue.columns, sqlValue.values)] &&
      t'[sqlInfo.table].rows == t[sqlInfo.table].rows + [Row(sqlInfo.columns, sqlInfo.values)] &&
      forall n :: n in t && n != sqlValue.table && n != sqlInfo.table ==> t'[n] == t[n]
  {
    var info := ticker.info.value;
    InsertsFitCreatedTables(enc, symbol, ticker.fields, info, t);
    DistinctSymbolsDistinctTables(enc, symbol, symbol);
    var (sqlValue, sqlInfo) := InsertsFor(enc, symbol, ticker).value;
    var t1 := AppendRow(t, sqlValue);
    assert t1[sqlInfo.table] == t[sqlInfo.table];
    assert Fits(t1, sqlInfo);
  }

  lemma ExtendsTransitive(t1: Tables, t2: Tables, t3: Tables)
    requires Extends(t1, t2) && Extends(t2, t3)
    ensures Extends(t1, t3)
  {
  }

  lemma AppendRowExtends(t: Tables, stmt: Insert)
    requires stmt.table in t
    ensures Extends(t, AppendRow(t, stmt))
  {
  }

  /** `handle_symbol` only appends rows. */
  lemma HandleSymbolExtends(enc: Encoding, t: Tables, symbol: string, poll: Poll)
    ensures Extends(t, HandleSymbolSpec(enc, t, symbol, poll).1)
  {
    HandleSymbolAtomic(enc, t, symbol, poll);
    var t' := HandleSymbolSpec(enc, t, symbol, poll).1;
    if t' != t {
      var (sqlValue, sqlInfo) := InsertsFor(enc, symbol, poll.fetch.ticker).value;
      AppendRowExtends(t, sqlValue);
      AppendRowExtends(AppendRow(t, sqlValue), sqlInfo);
      ExtendsTransitive(t, AppendRow(t, sqlValue), t');
    }
  }

  /** A polling round only appends rows: no table is dropped, created or
      redeclared, and no stored row changes. */
  lemma {:induction false} RoundExtends(enc: Encoding, t: Tables, symbols: seq<string>, polls: seq<Poll>)
    requires |polls| == |symbols|
    ensures Extends(t, Round(enc, t, symbols, polls).1)
    decreases |symbols|
  {
    if symbols != [] {
      var n := |symbols| - 1;
      RoundExtends(enc, t, symbols[..n], polls[..n]);
      var (r, t1) := Round(enc, t, symbols[..n], polls[..n]);
      if r.Completed? {
        HandleSymbolExtends(enc, t1, symbols[n], polls[n]);
        ExtendsTransitive(t, t1, Round(enc, t, symbols, polls).1);
      }
    }
  }

  /** A round in which every fetch fails transiently completes and writes nothing. */
  lemma {:induction false} RoundAllTransient(enc: Encoding, t: Tables, symbols: seq<string>, polls: seq<Poll>)
    requires |polls| == |symbols|
    requires forall i :: 0 <= i < |polls| ==> polls[i].fetch.Raised? && IsTransient(polls[i].fetch.e)
    ensures Round(enc, t, symbols, polls) == (Completed, t)
    decreases |symbols|
  {
    if symbols != [] {
      var n := |symbols| - 1;
      RoundAllTransient(enc, t, symbols[..n], polls[..n]);
      FetchErrorHandling(enc, t, symbols[n], polls[n]);
    }
  }

  /** A step exits only when the fetch raised a non-transient ExchangeError:
      the KeyError of a builder and the database error of an insert propagate. */
  lemma StepExitsOnlyOnExchangeError(enc: Encoding, t: Tables, symbol: string, poll: Poll)
    ensures HandleSymbolSpec(enc, t, symbol, poll).0.Exited? ==> ExitingPoll(poll)
  {
    match poll.fetch
    case Raised(e) =>
    case Fetched(ticker) =>
      match InsertsFor(enc, symbol, ticker)
      case Err(e) => assert Dispatch(e) == Propagate;
      case Ok((sqlValue, sqlInfo)) =>
        match ApplyInsert(t, sqlValue, poll.faults.first)
        case Err(e) => assert Dispatch(e) == Propagate;
        case Ok(t1) =>
          match ApplyInsert(t1, sqlInfo, poll.faults.second)
          case Err(e) => assert Dispatch(e) == Propagate;
          case Ok(t2) =>
  }

  /** A step ends by `exit` or an escaping exception for a fatal reason only. */
  lemma StepStopsOnlyOnFatal(enc: Encoding, t: Tables, symbol: string, poll: Poll)
    ensures FatalStop(HandleSymbolSpec(enc, t, symbol, poll).0)
  {
    forall e: Exc, t1: Tables, t2: Tables ensures FatalStop(Handle(e, t1, t2).0) {
    }
  }

  /** A round ends early only by `exit(1)` after an ExchangeError, or by an
      exception no `except` clause names: transient errors never leave the loop. */
  lemma {:induction false} RoundStopsOnlyOnFatal(enc: Encoding, t: Tables, symbols: seq<string>, polls: seq<Poll>)
    requires |polls| == |symbols|
    ensures FatalStop(Round(enc, t, symbols, polls).0)
    ensures Round(enc, t, symbols, polls).0.Exited? ==>
      exists i :: 0 <= i < |polls| && ExitingPoll(polls[i])
    decreases |symbols|
  {
    if symbols != [] {
      var n := |symbols| - 1;
      RoundStopsOnlyOnFatal(enc, t, symbols[..n], polls[..n]);
      var (r, t1) := Round(enc, t, symbols[..n], polls[..n]);
      if r.Completed? {
        StepStopsOnlyOnFatal(enc, t1, symbols[n], polls[n]);
        StepExitsOnlyOnExchangeError(enc, t1, symbols[n], polls[n]);
      } else if r.Exited? {
        var i :| 0 <= i < n && ExitingPoll(polls[..n][i]);
        assert polls[..n][i] == polls[i];
      }
    }
  }

  /** The rounds of `main` only append rows. */
  lemma {:induction false} RoundsExtend(enc: Encoding, t: Tables, symbols: seq<string>, rounds: seq<seq<Poll>>)
    requires forall k :: 0 <= k < |rounds| ==> |rounds[k]| == |symbols|
    ensures Extends(t, Rounds(enc, t, symbols, rounds).1)
    ensures FatalStop(Rounds(enc, t, symbols, rounds).0)
    decreases |rounds|
  {
    if rounds != [] {
      var n := |rounds| - 1;
      RoundsExtend(enc, t, symbols, rounds[..n]);
      var (r, t1) := Rounds(enc, t, symbols, rounds[..n]);
      if r.Completed? {
        RoundExtends(enc, t1, symbols, rounds[n]);
        RoundStopsOnlyOnFatal(enc, t1, symbols, rounds[n]);
        ExtendsTransitive(t, t1, Rounds(enc, t, symbols, rounds).1);
      }
    }
  }

  /** `main` either fails at startup with the store untouched, or completes
      the startup batch and afterwards only appends rows. */
  lemma ServeOutcome(enc: Encoding, t: Tables, symbols: seq<string>, startupFaults: seq<WriteFaults>, rounds: seq<seq<Poll>>)
    requires |startupFaults| == |symbols|
    requires forall k :: 0 <= k < |rounds| ==> |rounds[k]| == |symbols|
    ensures var (r0, t0) := Startup(enc, t, symbols, startupFaults);
      var (r, t') := Serve(enc, t, symbols, startupFaults, rounds);
      if r0.Completed? then Extends(t0, t') && FatalStop(r)
      else r == r0 && t' == t
  {
    var (r0, t0) := Startup(enc, t, symbols, startupFaults);
    if r0.Completed? {
      RoundsExtend(enc, t0, symbols, rounds);
    }
  }

  /** The empty table the startup batch creates under `name`: its columns
      depend only on whether it is a summary or a detail table. */
  ghost function CreatedTable(enc: Encoding, name: string): (table: Table) {
    if |name| >= |ValuePrefix| && name[..|ValuePrefix|] == ValuePrefix
    then Table(TableColumns(enc, ValueFields), [])
    else Table(TableColumns(enc, InfoFields), [])
  }

  lemma CreatedTableOf(enc: Encoding, symbol: string)
    requires symbol in SymbolMap
    ensures var (cv, ci) := BuildTables(enc, symbol).value;
      CreatedTable(enc, cv.table) == Table(cv.columns, []) &&
      CreatedTable(enc, ci.table) == Table(ci.columns, [])
  {
    var (cv, ci) := BuildTables(enc, symbol).value;
    assert cv.table[..|ValuePrefix|] == ValuePrefix;
    if |ci.table| >= |ValuePrefix| {
      assert ci.table[7] == 'i';
      assert ci.table[..|ValuePrefix|][7] == 'i';
    }
  }

  /** One symbol's pair of CREATE statements: both tables exist afterwards,
      existing tables are untouched, and a new table is empty and declared as
      `build_tables` says. */
  lemma CreatePairEffect(enc: Encoding, t: Tables, symbol: string, faults: WriteFaults)
    requires CreatePair(enc, t, symbol, faults).Ok?
    ensures symbol in SymbolMap
    ensures var t' := CreatePair(enc, t, symbol, faults).value;
      (forall n :: n in t ==> n in t' && t'[n] == t[n]) &&
      (forall n :: n in t' && n !in t ==> t'[n] == CreatedTable(enc, n)) &&
      BuildTables(enc, symbol).value.0.table in t' && BuildTables(enc, symbol).value.1.table in t'
    ensures var (cv, ci) := BuildTables(enc, symbol).value;
      CreatePair(enc, t, symbol, faults).value.Keys == t.Keys + {cv.table, ci.table}
  {
    CreatedTableOf(enc, symbol);
  }

  /** The startup batch leaves every existing table as it was. */
  lemma {:induction false} CreateAllKeeps(enc: Encoding, t: Tables, symbols: seq<string>, faults: seq<WriteFaults>)
    requires |faults| == |symbols|
    requires CreateAll(enc, t, symbols, faults).Ok?
    ensures var t' := CreateAll(enc, t, symbols, faults).value;
      forall n :: n in t ==> n in t' && t'[n] == t[n]
    decreases |symbols|
  {
    if symbols != [] {
      var n := |symbols| - 1;
      CreateAllKeeps(enc, t, symbols[..n], faults[..n]);
      CreatePairEffect(enc, CreateAll(enc, t, symbols[..n], faults[..n]).value, symbols[n], faults[n]);
    }
  }

  /** Every table the startup batch adds is empty and declared as `build_tables` says. */
  lemma {:induction false} CreateAllAdds(enc: Encoding, t: Tables, symbols: seq<string>, faults: seq<WriteFaults>)
    requires |faults| == |symbols|
    requires CreateAll(enc, t, symbols, faults).Ok?
    ensures var t' := CreateAll(enc, t, symbols, faults).value;
      forall n :: n in t' && n !in t ==> t'[n] == CreatedTable(enc, n)
    decreases |symbols|
  {
    if symbols != [] {
      var n := |symbols| - 1;
      CreateAllAdds(enc, t, symbols[..n], faults[..n]);
      CreateAllKeeps(enc, t, symbols[..n], faults[..n]);
      CreatePairEffect(enc, CreateAll(enc, t, symbols[..n], faults[..n]).value, symbols[n], faults[n]);
    }
  }

  /** `name` is the summary or detail table of one of `symbols`. */
  ghost predicate BatchTable(enc: Encoding, symbols: seq<string>, name: string) {
    exists s :: s in symbols && s in SymbolMap &&
      (name == BuildTables(enc, s).value.0.table || name == BuildTables(enc, s).value.1.table)
  }

  /** The startup batch adds no table but those of its symbols. */
  lemma {:induction false} CreateAllOnlyBatch(enc: Encoding, t: Tables, symbols: seq<string>, faults: seq<WriteFaults>)
    requires |faults| == |symbols|
    requires CreateAll(enc, t, symbols, faults).Ok?
    ensures var t' := CreateAll(enc, t, symbols, faults).value;
      forall n :: n in t' && n !in t ==> BatchTable(enc, symbols, n)
    decreases |symbols|
  {
    if symbols != [] {
      var k := |symbols| - 1;
      CreateAllOnlyBatch(enc, t, symbols[..k], faults[..k]);
      var t1 := CreateAll(enc, t, symbols[..k], faults[..k]).value;
      CreatePairEffect(enc, t1, symbols[k], faults[k]);
      var t' := CreateAll(enc, t, symbols, faults).value;
      assert t' == CreatePair(enc, t1, symbols[k], faults[k]).value;
      forall n | n in t' && n !in t
        ensures BatchTable(enc, symbols, n)
      {
        if n in t1 {
          var s :| s in symbols[..k] && s in SymbolMap &&
            (n == BuildTables(enc, s).value.0.table || n == BuildTables(enc, s).value.1.table);
          assert s in symbols;
        } else {
          assert symbols[k] in symbols;
        }
      }
    }
  }

  /** `symbol` is mapped and both of its tables are in `t`. */
  ghost predicate HoldsTables(enc: Encoding, t: Tables, symbol: string) {
    symbol in SymbolMap && BuildTables(enc, symbol).value.0.table in t && BuildTables(enc, symbol).value.1.table in t
  }

  /** A completed startup batch holds both tables of every symbol, all of them mapped. */
  lemma {:induction false} CreateAllHolds(enc: Encoding, t: Tables, symbols: seq<string>, faults: seq<WriteFaults>)
    requires |faults| == |symbols|
    requires CreateAll(enc, t, symbols, faults).Ok?
    ensures forall s :: s in symbols ==> HoldsTables(enc, CreateAll(enc, t, symbols, faults).value, s)
    decreases |symbols|
  {
    if symbols != [] {
      var n := |symbols| - 1;
      CreateAllHolds(enc, t, symbols[..n], faults[..n]);
      var t1 := CreateAll(enc, t, symbols[..n], faults[..n]).value;
      CreatePairEffect(enc, t1, symbols[n], faults[n]);
      var t' := CreateAll(enc, t, symbols, faults).value;
      assert t' == CreatePair(enc, t1, symbols[n], faults[n]).value;
      forall s | s in symbols
        ensures HoldsTables(enc, t', s)
      {
        if s != symbols[n] {
          assert s in symbols[..n];
        }
      }
    }
  }

  /** The startup batch completes only when every symbol is mapped; it then
      leaves every existing table as it was, holds both tables of every
      symbol, and every table it added is one of those, empty and declared as
      `build_tables` says. */
  lemma CreateAllEffect(enc: Encoding, t: Tables, symbols: seq<string>, faults: seq<WriteFaults>)
    requires |faults| == |symbols|
    requires CreateAll(enc, t, symbols, faults).Ok?
    ensures var t' := CreateAll(enc, t, symbols, faults).value;
      (forall n :: n in t ==> n in t' && t'[n] == t[n]) &&
      (forall n :: n in t' && n !in t ==> t'[n] == CreatedTable(enc, n) && BatchTable(enc, symbols, n)) &&
      forall s :: s in symbols ==>
        s in SymbolMap && BuildTables(enc, s).value.0.table in t' && BuildTables(enc, s).value.1.table in t'
  {
    CreateAllKeeps(enc, t, symbols, faults);
    CreateAllAdds(enc, t, symbols, faults);
    CreateAllOnlyBatch(enc, t, symbols, faults);
    CreateAllHolds(enc, t, symbols, faults);
  }

  /** After a completed startup batch, both tables of every symbol exist; a
      table that was not there before is one of them, empty and declared as
      `build_tables` says. */
  lemma StartupDeclaresTables(enc: Encoding, t: Tables, symbols: seq<string>, faults: seq<WriteFaults>)
    requires |faults| == |symbols|
    requires Startup(enc, t, symbols, faults).0.Completed?
    ensures var t' := Startup(enc, t, symbols, faults).1;
      (forall n :: n in t ==> n in t' && t'[n] == t[n]) &&
      (forall n :: n in t' && n !in t ==> BatchTable(enc, symbols, n)) &&
      forall s :: s in symbols ==>
        s in SymbolMap &&
        var (cv, ci) := BuildTables(enc, s).value;
        cv.table in t' && ci.table in t' &&
        (cv.table !in t ==> t'[cv.table] == Table(cv.columns, [])) &&
        (ci.table !in t ==> t'[ci.table] == Table(ci.columns, []))
  {
    CreateAllEffect(enc, t, symbols, faults);
    forall s | s in symbols
      ensures s in SymbolMap
      ensures var (cv, ci) := BuildTables(enc, s).value;
        CreatedTable(enc, cv.table) == Table(cv.columns, []) &&
        CreatedTable(enc, ci.table) == Table(ci.columns, [])
    {
      CreatedTableOf(enc, s);
    }
  }

  /** On a store that already holds every table of the batch, the batch
      changes nothing: it completes unless the database faults. */
  lemma {:induction false} CreateAllOnExisting(enc: Encoding, t: Tables, symbols: seq<string>, faults: seq<WriteFaults>)
    requires |faults| == |symbols|
    requires forall s :: s in symbols ==>
      s in SymbolMap && BuildTables(enc, s).value.0.table in t && BuildTables(enc, s).value.1.table in t
    ensures CreateAll(enc, t, symbols, faults).Ok? ==> CreateAll(enc, t, symbols, faults).value == t
    ensures (forall i :: 0 <= i < |faults| ==> faults[i] == NoFaults) ==> CreateAll(enc, t, symbols, faults) == Ok(t)
    decreases |symbols|
  {
    if symbols != [] {
      var n := |symbols| - 1;
      assert forall s :: s in symbols[..n] ==> s in symbols;
      CreateAllOnExisting(enc, t, symbols[..n], faults[..n]);
    }
  }

  /** Idempotence of the startup batch: run again on the store it produced, it
      leaves the store unchanged, and completes when the database does not fault. */
  lemma StartupIdempotent(enc: Encoding, t: Tables, symbols: seq<string>, faults: seq<WriteFaults>, again: seq<WriteFaults>)
    requires |faults| == |symbols| && |again| == |symbols|
    requires Startup(enc, t, symbols, faults).0.Completed?
    ensures var t1 := Startup(enc, t, symbols, faults).1;
      Startup(enc, t1, symbols, again).1 == t1 &&
      ((forall i :: 0 <= i < |again| ==> again[i] == NoFaults) ==> Startup(enc, t1, symbols, again) == (Completed, t1))
  {
    CreateAllEffect(enc, t, symbols, faults);
    var t1 := CreateAll(enc, t, symbols, faults).value;
    CreateAllOnExisting(enc, t1, symbols, again);
  }

  /** An unmapped symbol anywhere in the list aborts the batch and rolls it
      back; without database faults the escaping exception is the KeyError of
      the first unmapped symbol. */
  lemma {:induction false} UnmappedSymbolAbortsStartup(enc: Encoding, t: Tables, symbols: seq<string>, faults: seq<WriteFaults>, i: nat)
    requires |faults| == |symbols| && i < |symbols|
    requires symbols[i] !in SymbolMap
    ensures Startup(enc, t, symbols, faults).0.Escaped? && Startup(enc, t, symbols, faults).1 == t
    ensures (forall j :: 0 <= j < i ==> symbols[j] in SymbolMap) &&
            (forall j :: 0 <= j < |faults| ==> faults[j] == NoFaults) ==>
              Startup(enc, t, symbols, faults) == (Escaped(MissingKey(symbols[i])), t)
  {
    if CreateAll(enc, t, symbols, faults).Ok? {
      CreateAllEffect(enc, t, symbols, faults);
      assert false;
    }
    if (forall j :: 0 <= j < i ==> symbols[j] in SymbolMap) &&
       (forall j :: 0 <= j < |faults| ==> faults[j] == NoFaults) {
      assert CreateAll(enc, t, symbols[..i + 1], faults[..i + 1]) == Err(MissingKey(symbols[i])) by {
        assert symbols[..i + 1][..i] == symbols[..i] && faults[..i + 1][..i] == faults[..i];
        CreatePrefixCompletes(enc, t, symbols[..i], faults[..i]);
      }
      CreateAllPrefixOfStop(enc, t, symbols, faults, i + 1);
    }
  }

  /** A batch of mapped symbols without database faults completes. */
  lemma {:induction false} CreatePrefixCompletes(enc: Encoding, t: Tables, symbols: seq<string>, faults: seq<WriteFaults>)
    requires |faults| == |symbols|
    requires forall s :: s in symbols ==> s in SymbolMap
    requires forall j :: 0 <= j < |faults| ==> faults[j] == NoFaults
    ensures CreateAll(enc, t, symbols, faults).Ok?
    decreases |symbols|
  {
    if symbols != [] {
      var n := |symbols| - 1;
      assert forall s :: s in symbols[..n] ==> s in symbols;
      CreatePrefixCompletes(enc, t, symbols[..n], faults[..n]);
    }
  }

  /** With the fixed symbol list of `main` and no database faults, the startup batch completes. */
  lemma DefaultStartupCompletes(enc: Encoding, t: Tables)
    ensures Startup(enc, t, Symbols, [NoFaults, NoFaults, NoFaults, NoFaults]).0 == Completed
  {
    CreatePrefixCompletes(enc, t, Symbols, [NoFaults, NoFaults, NoFaults, NoFaults]);
  }

  /** Both tables of `symbol` exist, empty, as `build_tables` declares them. */
  ghost predicate HasEmptyTables(enc: Encoding, t: Tables, symbol: string) {
    symbol in SymbolMap &&
    var (cv, ci) := BuildTables(enc, symbol).value;
    cv.table in t && t[cv.table] == Table(cv.columns, []) &&
    ci.table in t && t[ci.table] == Table(ci.columns, [])
  }

  /** The startup batch for BTC and ETH on an empty store creates their four empty tables. */
  lemma TwoSymbolStartup(enc: Encoding)
    ensures var (r0, t0) := Startup(enc, map[], ["BTC/USDT", "ETH/USDT"], [NoFaults, NoFaults]);
      r0 == Completed && HasEmptyTables(enc, t0, "BTC/USDT") && HasEmptyTables(enc, t0, "ETH/USDT")
  {
    CreatePrefixCompletes(enc, map[], ["BTC/USDT", "ETH/USDT"], [NoFaults, NoFaults]);
    StartupDeclaresTables(enc, map[], ["BTC/USDT", "ETH/USDT"], [NoFaults, NoFaults]);
    assert "BTC/USDT" in ["BTC/USDT", "ETH/USDT"] && "ETH/USDT" in ["BTC/USDT", "ETH/USDT"];
  }

  /** A round of two symbols whose first fetch succeeds and whose second fails
      transiently completes with one row pair for the first symbol and none
      for the second. */
  lemma TransientAfterSuccess(enc: Encoding, t0: Tables, s1: string, s2: string, ticker: Ticker, e: Exc)
    requires s1 != s2 && HasEmptyTables(enc, t0, s1) && HasEmptyTables(enc, t0, s2)
    requires InsertsFor(enc, s1, ticker).Ok? && IsTransient(e)
    ensures var (v1, i1) := BuildTables(enc, s1).value;
      var (v2, i2) := BuildTables(enc, s2).value;
      var (r, t1) := Round(enc, t0, [s1, s2], [Poll(Fetched(ticker), NoFaults), Poll(Raised(e), NoFaults)]);
      r == Completed &&
      v1.table in t1 && |t1[v1.table].rows| == 1 && i1.table in t1 && |t1[i1.table].rows| == 1 &&
      v2.table in t1 && t1[v2.table].rows == [] && i2.table in t1 && t1[i2.table].rows == []
  {
    var symbols := [s1, s2];
    var polls := [Poll(Fetched(ticker), NoFaults), Poll(Raised(e), NoFaults)];
    DistinctSymbolsDistinctTables(enc, s1, s2);
    PersistsFetchedTicker(enc, t0, s1, ticker);
    var t1 := HandleSymbolSpec(enc, t0, s1, polls[0]).1;
    assert symbols[..1] == [s1] && polls[..1] == [polls[0]];
    assert symbols[..1][..0] == [] && polls[..1][..0] == [];
    assert Round(enc, t0, symbols[..1], polls[..1]) == (Completed, t1);
    FetchErrorHandling(enc, t1, s2, polls[1]);
    assert Round(enc, t0, symbols, polls) == (Completed, t1);
  }

  lemma BtcEthTableNames(enc: Encoding)
    ensures BuildTables(enc, "BTC/USDT").value.0.table == "ticker_value_btc"
    ensures BuildTables(enc, "BTC/USDT").value.1.table == "ticker_info_btc"
    ensures BuildTables(enc, "ETH/USDT").value.0.table == "ticker_value_eth"
    ensures BuildTables(enc, "ETH/USDT").value.1.table == "ticker_info_eth"
  {
    assert ValuePrefix + "btc" == "ticker_value_btc" && InfoPrefix + "btc" == "ticker_info_btc";
    assert ValuePrefix + "eth" == "ticker_value_eth" && InfoPrefix + "eth" == "ticker_info_eth";
  }

  /** Two symbols on an empty store: the first fetch succeeds, the second times
      out. The round completes with one row pair for BTC and none for ETH. */
  lemma TimeoutScenario(enc: Encoding, ticker: Ticker, t0: Tables)
    requires InsertsFor(enc, "BTC/USDT", ticker).Ok?
    requires Startup(enc, map[], ["BTC/USDT", "ETH/USDT"], [NoFaults, NoFaults]).1 == t0
    ensures var polls := [Poll(Fetched(ticker), NoFaults), Poll(Raised(Exc({RequestTimeout}, "timed out")), NoFaults)];
      var (r, t1) := Round(enc, t0, ["BTC/USDT", "ETH/USDT"], polls);
      r == Completed &&
      "ticker_value_btc" in t1 && |t1["ticker_value_btc"].rows| == 1 &&
      "ticker_info_btc" in t1 && |t1["ticker_info_btc"].rows| == 1 &&
      "ticker_value_eth" in t1 && t1["ticker_value_eth"].rows == [] &&
      "ticker_info_eth" in t1 && t1["ticker_info_eth"].rows == []
  {
    TwoSymbolStartup(enc);
    BtcEthTableNames(enc);
    TransientAfterSuccess(enc, t0, "BTC/USDT", "ETH/USDT", ticker, Exc({RequestTimeout}, "timed out"));
  }
}
