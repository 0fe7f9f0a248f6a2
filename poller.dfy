/** `handle_symbol` and `main`: the per-symbol fetch-and-persist step with its
    ordered exception handling and transaction, the startup batch that creates
    every table in one transaction, and the polling rounds. */
module Poller {
  import opened Exceptions
  import opened Statements
  import opened Store
  import opened Schema

  /** What `exchange.fetch_ticker(symbol)` returns: the ticker dictionary and
      its raw `info` dictionary (None when the ticker has no `info` key). */
  datatype Ticker = Ticker(fields: map<string, Value>, info: Option<map<string, Value>>)

  /** The outcome of the network fetch, chosen by the exchange. */
  datatype FetchOutcome = Fetched(ticker: Ticker) | Raised(e: Exc)

  /** Whether the database fails the first and the second statement of a pair. */
  datatype WriteFaults = WriteFaults(first: bool, second: bool)

  const NoFaults := WriteFaults(false, false)

  /** Everything the outside world decides for one call of `handle_symbol`. */
  datatype Poll = Poll(fetch: FetchOutcome, faults: WriteFaults)

  /** How the `except` clauses of `handle_symbol` treat an exception. */
  datatype Handling = Absorb | Exit(status: int) | Propagate

  /** How a step of the scraper ended: normally, by `exit(status)`, or by an
      exception escaping to the caller. */
  datatype StepResult = Completed | Exited(status: int) | Escaped(e: Exc)

  predicate IsTransient(e: Exc) {
    RequestTimeout in e.classes || DDoSProtection in e.classes || ExchangeNotAvailable in e.classes
  }

  /** The `except` clauses, tried in order: the first whose class the
      exception is an instance of handles it. */
  function Dispatch(e: Exc): (h: Handling)
    ensures h == Absorb <==> IsTransient(e)
    ensures h == Exit(1) <==> !IsTransient(e) && ExchangeError in e.classes
    ensures h == Propagate <==> !IsTransient(e) && ExchangeError !in e.classes
  {
    if RequestTimeout in e.classes then Absorb
    else if DDoSProtection in e.classes then Absorb
    else if ExchangeNotAvailable in e.classes then Absorb
    else if ExchangeError in e.classes then Exit(1)
    else Propagate
  }

  /** An exception raised in the `try` block, with `snapshot` the tables when
      the transaction began and `current` the tables when it was raised. An
      absorbed exception ends the `async with` block normally, so the
      transaction commits; `exit` and escaping exceptions roll it back. */
  function Handle(e: Exc, snapshot: Tables, current: Tables): (outcome: (StepResult, Tables)) {
    match Dispatch(e)
    case Absorb => (Completed, current)
    case Exit(status) => (Exited(status), snapshot)
    case Propagate => (Escaped(e), snapshot)
  }

  /** `build_insert_ticker(symbol, ticker, ticker['info'])`, with the
      subscript of `info` evaluated first. */
  function InsertsFor(enc: Encoding, symbol: string, ticker: Ticker): (r: Result<(Insert, Insert)>) {
    match ticker.info
    case None => Err(MissingKey("info"))
    case Some(info) => BuildInsertTicker(enc, symbol, ticker.fields, info)
  }

  /** `handle_symbol(symbol)` on tables `t`: the step's result and the tables after it. */
  function HandleSymbolSpec(enc: Encoding, t: Tables, symbol: string, poll: Poll): (outcome: (StepResult, Tables)) {
    match poll.fetch
    case Raised(e) => Handle(e, t, t)
    case Fetched(ticker) =>
      match InsertsFor(enc, symbol, ticker)
      case Err(e) => Handle(e, t, t)
      case Ok((sqlValue, sqlInfo)) =>
        match ApplyInsert(t, sqlValue, poll.faults.first)
        case Err(e) => Handle(e, t, t)
        case Ok(t1) =>
          match ApplyInsert(t1, sqlInfo, poll.faults.second)
          case Err(e) => Handle(e, t, t1)
          case Ok(t2) => (Completed, t2)
  }

  /** The CREATE statements of `symbols` executed in order on `t`, stopping at
      the first exception (`faults[i]` is for the pair of symbol i). */
  function CreateAll(enc: Encoding, t: Tables, symbols: seq<string>, faults: seq<WriteFaults>): (r: Result<Tables>)
    requires |faults| == |symbols|
    decreases |symbols|
  {
    if symbols == [] then Ok(t)
    else
      var n := |symbols| - 1;
      match CreateAll(enc, t, symbols[..n], faults[..n])
      case Err(e) => Err(e)
      case Ok(t1) => CreatePair(enc, t1, symbols[n], faults[n])
  }

  /** `build_tables(symbol)` and the execution of its two statements. */
  function CreatePair(enc: Encoding, t: Tables, symbol: string, faults: WriteFaults): (r: Result<Tables>) {
    match BuildTables(enc, symbol)
    case Err(e) => Err(e)
    case Ok((sqlValue, sqlInfo)) =>
      match ApplyCreate(t, sqlValue, faults.first)
      case Err(e) => Err(e)
      case Ok(t1) => ApplyCreate(t1, sqlInfo, faults.second)
  }

  /** The tables left after a failed `CreatePair`, before the rollback: those
      after the first CREATE when only the second failed, otherwise `t`. */
  function PartialPair(enc: Encoding, t: Tables, symbol: string, faults: WriteFaults): (t': Tables) {
    match BuildTables(enc, symbol)
    case Err(_) => t
    case Ok((sqlValue, _)) =>
      match ApplyCreate(t, sqlValue, faults.first)
      case Err(_) => t
      case Ok(t1) => t1
  }

  /** The startup batch: all CREATE statements in one transaction. Nothing
      catches an exception here, so it escapes `main` and the batch rolls back. */
  function Startup(enc: Encoding, t: Tables, symbols: seq<string>, faults: seq<WriteFaults>): (outcome: (StepResult, Tables))
    requires |faults| == |symbols|
  {
    match CreateAll(enc, t, symbols, faults)
    case Ok(t1) => (Completed, t1)
    case Err(e) => (Escaped(e), t)
  }

  /** One pass of the polling loop: `handle_symbol` once per symbol in list
      order, until a step exits or raises. */
  function Round(enc: Encoding, t: Tables, symbols: seq<string>, polls: seq<Poll>): (outcome: (StepResult, Tables))
    requires |polls| == |symbols|
    decreases |symbols|
  {
    if symbols == [] then (Completed, t)
    else
      var n := |symbols| - 1;
      var (r, t1) := Round(enc, t, symbols[..n], polls[..n]);
      if r.Completed? then HandleSymbolSpec(enc, t1, symbols[n], polls[n]) else (r, t1)
  }

  /** The rounds `rounds` after a completed startup, until a step exits or raises. */
  function Rounds(enc: Encoding, t: Tables, symbols: seq<string>, rounds: seq<seq<Poll>>): (outcome: (StepResult, Tables))
    requires forall k :: 0 <= k < |rounds| ==> |rounds[k]| == |symbols|
    decreases |rounds|
  {
    if rounds == [] then (Completed, t)
    else
      var n := |rounds| - 1;
      var (r, t1) := Rounds(enc, t, symbols, rounds[..n]);
      if r.Completed? then Round(enc, t1, symbols, rounds[n]) else (r, t1)
  }

  /** `main(symbols)` run for the finitely many rounds in `rounds`. */
  function Serve(enc: Encoding, t: Tables, symbols: seq<string>, startupFaults: seq<WriteFaults>, rounds: seq<seq<Poll>>)
    : (outcome: (StepResult, Tables))
    requires |startupFaults| == |symbols|
    requires forall k :: 0 <= k < |rounds| ==> |rounds[k]| == |symbols|
  {
    var (r, t1) := Startup(enc, t, symbols, startupFaults);
    if r.Completed? then Rounds(enc, t1, symbols, rounds) else (r, t1)
  }

  /** The `except` clauses of `handle_symbol` and the end of its transaction. */
  method Except(db: Database, e: Exc, snapshot: Tables) returns (r: StepResult)
    modifies db
    ensures (r, db.tables) == Handle(e, snapshot, old(db.tables))
  {
    if RequestTimeout in e.classes {
      r := Completed;
    } else if DDoSProtection in e.classes {
      r := Completed;
    } else if ExchangeNotAvailable in e.classes {
      r := Completed;
    } else if ExchangeError in e.classes {
      db.Restore(snapshot);
      r := Exited(1);
    } else {
      db.Restore(snapshot);
      r := Escaped(e);
    }
  }

  /** `handle_symbol(symbol, exchange, pg_pool)`. */
  method HandleSymbol(db: Database, enc: Encoding, symbol: string, poll: Poll) returns (r: StepResult)
    modifies db
    ensures (r, db.tables) == HandleSymbolSpec(enc, old(db.tables), symbol, poll)
  {
    var snapshot := db.tables;
    match poll.fetch
    case Raised(e) =>
      r := Except(db, e, snapshot);
    case Fetched(ticker) =>
      var statements := InsertsFor(enc, symbol, ticker);
      if statements.Err? {
        r := Except(db, statements.error, snapshot);
        return;
      }
      var (sqlValue, sqlInfo) := statements.value;
      var executed := db.Insert(sqlValue, poll.faults.first);
      if executed.Err? {
        r := Except(db, executed.error, snapshot);
        return;
      }
      executed := db.Insert(sqlInfo, poll.faults.second);
      if executed.Err? {
        r := Except(db, executed.error, snapshot);
        return;
      }
      r := Completed;
  }

  /** The body of the startup loop: `build_tables(symbol)` and the execution
      of both statements. A failed statement changes nothing. */
  method CreateTables(db: Database, enc: Encoding, symbol: string, faults: WriteFaults) returns (r: Result<()>)
    modifies db
    ensures CreatePair(enc, old(db.tables), symbol, faults).Ok? ==>
              r.Ok? && db.tables == CreatePair(enc, old(db.tables), symbol, faults).value
    ensures CreatePair(enc, old(db.tables), symbol, faults).Err? ==>
              r == Err(CreatePair(enc, old(db.tables), symbol, faults).error)
    ensures CreatePair(enc, old(db.tables), symbol, faults).Err? ==>
              db.tables == PartialPair(enc, old(db.tables), symbol, faults)
  {
    var tables := BuildTables(enc, symbol);
    if tables.Err? {
      return Err(tables.error);
    }
    var (sqlValue, sqlInfo) := tables.value;
    r := db.Create(sqlValue, faults.first);
    if r.Ok? {
      r := db.Create(sqlInfo, faults.second);
    }
  }

  /** The startup batch of `main`: one transaction around the CREATE
      statements of every symbol, in list order. */
  method InitializeTables(db: Database, enc: Encoding, symbols: seq<string>, faults: seq<WriteFaults>)
    returns (r: StepResult)
    requires |faults| == |symbols|
    modifies db
    ensures (r, db.tables) == Startup(enc, old(db.tables), symbols, faults)
  {
    var snapshot := db.tables;
    for i := 0 to |symbols|
      invariant CreateAll(enc, snapshot, symbols[..i], faults[..i]) == Ok(db.tables)
    {
      assert symbols[..i + 1][..i] == symbols[..i] && faults[..i + 1][..i] == faults[..i];
      var created := CreateTables(db, enc, symbols[i], faults[i]);
      if created.Err? {
        CreateAllPrefixOfStop(enc, snapshot, symbols, faults, i + 1);
        db.Restore(snapshot);
        return Escaped(created.error);
      }
    }
    assert symbols[..|symbols|] == symbols && faults[..|symbols|] == faults;
    r := Completed;
  }

  /** Once the batch raises at symbol `i - 1`, the later symbols are never reached. */
  lemma {:induction false} CreateAllPrefixOfStop(enc: Encoding, t: Tables, symbols: seq<string>, faults: seq<WriteFaults>, i: nat)
    requires |faults| == |symbols| && 0 < i <= |symbols|
    requires CreateAll(enc, t, symbols[..i], faults[..i]).Err?
    ensures CreateAll(enc, t, symbols, faults) == CreateAll(enc, t, symbols[..i], faults[..i])
    decreases |symbols|
  {
    if i < |symbols| {
      var n := |symbols| - 1;
      assert symbols[..n][..i] == symbols[..i] && faults[..n][..i] == faults[..i];
      CreateAllPrefixOfStop(enc, t, symbols[..n], faults[..n], i);
    } else {
      assert symbols[..i] == symbols && faults[..i] == faults;
    }
  }

  /** One pass of `for symbol in symbols: await handle_symbol(...)`. */
  method PollRound(db: Database, enc: Encoding, symbols: seq<string>, polls: seq<Poll>) returns (r: StepResult)
    requires |polls| == |symbols|
    modifies db
    ensures (r, db.tables) == Round(enc, old(db.tables), symbols, polls)
  {
    ghost var start := db.tables;
    for i := 0 to |symbols|
      invariant Round(enc, start, symbols[..i], polls[..i]) == (Completed, db.tables)
    {
      assert symbols[..i + 1][..i] == symbols[..i] && polls[..i + 1][..i] == polls[..i];
      r := HandleSymbol(db, enc, symbols[i], polls[i]);
      if !r.Completed? {
        assert symbols[..i + 1] == symbols[..i] + [symbols[i]];
        PrefixOfStop(enc, start, symbols, polls, i + 1);
        return;
      }
    }
    assert symbols[..|symbols|] == symbols && polls[..|symbols|] == polls;
    r := Completed;
  }

  /** Once a round stops at symbol `i - 1`, the rest of the symbols change nothing. */
  lemma {:induction false} PrefixOfStop(enc: Encoding, t: Tables, symbols: seq<string>, polls: seq<Poll>, i: nat)
    requires |polls| == |symbols| && 0 < i <= |symbols|
    requires !Round(enc, t, symbols[..i], polls[..i]).0.Completed?
    ensures Round(enc, t, symbols, polls) == Round(enc, t, symbols[..i], polls[..i])
    decreases |symbols|
  {
    if i < |symbols| {
      var n := |symbols| - 1;
      assert symbols[..n][..i] == symbols[..i] && polls[..n][..i] == polls[..i];
      PrefixOfStop(enc, t, symbols[..n], polls[..n], i);
    } else {
      assert symbols[..i] == symbols && polls[..i] == polls;
    }
  }

  /** `main(symbols)`: the startup batch, then the polling loop for the rounds
      in `rounds`, ending early when a step exits or raises. */
  method RunScraper(db: Database, enc: Encoding, symbols: seq<string>, startupFaults: seq<WriteFaults>, rounds: seq<seq<Poll>>)
    returns (r: StepResult)
    requires |startupFaults| == |symbols|
    requires forall k :: 0 <= k < |rounds| ==> |rounds[k]| == |symbols|
    modifies db
    ensures (r, db.tables) == Serve(enc, old(db.tables), symbols, startupFaults, rounds)
  {
    r := InitializeTables(db, enc, symbols, startupFaults);
    if !r.Completed? {
      return;
    }
    ghost var started := db.tables;
    var k := 0;
    while k < |rounds|
      invariant 0 <= k <= |rounds|
      invariant r == Completed
      invariant Rounds(enc, started, symbols, rounds[..k]) == (Completed, db.tables)
    {
      assert rounds[..k + 1][..k] == rounds[..k];
      r := PollRound(db, enc, symbols, rounds[k]);
      if !r.Completed? {
        RoundsPrefixOfStop(enc, started, symbols, rounds, k + 1);
        return;
      }
      k := k + 1;
    }
    assert rounds[..|rounds|] == rounds;
  }

  /** Once a round stops, later rounds do not run. */
  lemma {:induction false} RoundsPrefixOfStop(enc: Encoding, t: Tables, symbols: seq<string>, rounds: seq<seq<Poll>>, k: nat)
    requires forall j :: 0 <= j < |rounds| ==> |rounds[j]| == |symbols|
    requires 0 < k <= |rounds|
    requires !Rounds(enc, t, symbols, rounds[..k]).0.Completed?
    ensures Rounds(enc, t, symbols, rounds) == Rounds(enc, t, symbols, rounds[..k])
    decreases |rounds|
  {
    if k < |rounds| {
      var n := |rounds| - 1;
      assert rounds[..n][..k] == rounds[..k];
      RoundsPrefixOfStop(enc, t, symbols, rounds[..n], k);
    } else {
      assert rounds[..k] == rounds;
    }
  }
}
