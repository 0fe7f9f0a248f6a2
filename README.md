# crypto-scraper: a Dafny model of the ticker scraper's core

The scraper polls the Binance exchange for the tickers of four trading pairs
(BTC, ETH, BNB and EOS against USDT). It stores each ticker as two PostgreSQL
rows: a summary row in `ticker_value_<key>` and a detail row in
`ticker_info_<key>`. At startup it creates both tables of every symbol with
`CREATE TABLE IF NOT EXISTS`, all in one transaction. A symbol missing from
the map raises KeyError only after the statements of the earlier symbols have
run, and the whole batch is then rolled back. It then loops forever.
Each pass calls `handle_symbol` for every symbol in list order. That call
fetches the ticker and inserts both rows in one transaction. Three transient
ccxt errors are absorbed. An `ExchangeError` exits with status 1. Any other
exception escapes and ends the program.

The repository holds two near-identical copies: `scraper.py` and
`binance-scraper/scraper.py`. This model describes both at once.
`Schema.Encoding` picks the copy:

- `TemporalTimestamp` is `scraper.py`. It uses a `timestamp NOT NULL` column, fills it with `to_timestamp(...)`, and declares every data column `numeric(16)`.
- `EpochBigint` is the binance copy. It uses a `bigint NOT NULL` column holding the raw epoch number, declares `bigint` for `openTime`, `closeTime`, `firstId`, `lastId` and `count`, and unconstrained `numeric` for everything else.

Modules:

- `Exceptions`: the Python exceptions involved. An exception is given as the set of classes it is an instance of, so the ordered `except` dispatch is modelled without fixing ccxt's class hierarchy. The module also holds `Result` and `Option`.
- `Statements`: SQL statements as structured values (table, columns, values). A ticker field value is an uninterpreted type `Value`.
- `Store`: the database is a map from table name to declared columns and rows. `Database` is the connection object whose `execute` changes that map in place. A transaction is a snapshot followed by either nothing (commit) or `Restore` (rollback).
- `Schema`: `symbol_map`, the fixed symbol list, `build_tables` and `build_insert_ticker`.
- `SchemaFacts`: lemmas relating the builders to each other.
- `Poller`: `handle_symbol`, the startup batch and the polling rounds. Each is a specification function plus an imperative method proved equal to it.
- `PollerFacts`: error handling, atomicity, append-only growth, idempotence of startup, and the two-symbol timeout scenario.

The outside world is passed in as parameters:

- A `Poll` gives the fetch outcome: a ticker, or a raised exception.
- `WriteFaults` says whether the database fails the first or second statement of a pair.
- Each round is a sequence of polls, one per symbol.

## Model

| member | source | states |
|---|---|---|
| `Schema.LookupAll` | scraper.py:90-105 | dictionary subscripts run left to right; the result holds every value in key order exactly when every key is present, and otherwise is the KeyError of the first missing key |
| `Schema.BuildTables` | scraper.py:15-65 | succeeds exactly for symbols in `symbol_map`, otherwise raises KeyError(symbol); the tables are `ticker_value_<key>` and `ticker_info_<key>`; both statements are `IF NOT EXISTS`; they declare 17 and 22 columns, each list starting with the `id bigserial` primary key |
| `Schema.SummaryInsert` | scraper.py:71-107 | the summary insert exists exactly when the ticker has `timestamp` and every summary field; it targets `ticker_value_<key>`, names `timestamp` and the 15 summary fields, and gives the timestamp expression first and then `ticker[column i]` for column i; otherwise the KeyError names the first of `timestamp` and the summary fields, in that order, that the ticker lacks |
| `Schema.DetailInsert` | scraper.py:108-154 | the detail insert exists exactly when `info` has every detail field; it targets `ticker_info_<key>`, names `timestamp` and the 20 detail fields, and gives the timestamp expression taken from the ticker first and then `info[column i]` for column i; otherwise the KeyError names the first detail field, in column order, that `info` lacks |
| `Schema.BuildInsertTicker` | scraper.py:68-155 | an unmapped symbol raises KeyError(symbol) before any other lookup; the result exists exactly when the symbol is mapped and every field read is present; it targets the same two tables; 16 and 21 columns with as many values; timestamp first in both, taken from the ticker; value i is `ticker[column i]` for the summary row and `info[column i]` for the detail row; a mapped symbol's KeyError names the first key missing from the ticker, or, when the ticker is complete, the first detail field missing from `info` |
| `SchemaFacts.StorageKeysDistinct` | scraper.py:7-12 | the four storage keys are pairwise distinct |
| `SchemaFacts.PrefixedNamesEqual` | scraper.py:16-17 | two table names built from the two prefixes are equal only when both prefix and key are equal |
| `SchemaFacts.DistinctSymbolsDistinctTables` | scraper.py:16-17 | a symbol's summary and detail tables differ, and two different symbols share none of their four tables |
| `SchemaFacts.TableColumnNames` | scraper.py:19-62 | the declared column names are `id`, `timestamp`, then the data fields in order |
| `SchemaFacts.BuildTablesColumns` | scraper.py:15-65 | a mapped symbol's summary table declares `id`, `timestamp` and the 15 summary fields in order, and its detail table `id`, `timestamp` and the 20 detail fields in order |
| `SchemaFacts.DropId` | scraper.py:19-62 | without `id`, the declared column names are `timestamp` followed by the data fields |
| `SchemaFacts.InsertColumnsMatchCreate` | scraper.py:69-130 | each insert targets the table its CREATE declares and names exactly that table's columns minus `id`, in declaration order |
| `SchemaFacts.ColumnTypes` | binance-scraper/scraper.py:18-64 | the timestamp column is `timestamp NOT NULL` (scraper.py) or `bigint NOT NULL` (binance copy); data columns are `numeric(16)` in scraper.py; in the binance copy the summary data columns are `numeric`, and the detail columns are `bigint` exactly for `openTime` through `count` |
| `SchemaFacts.InsertsFitCreatedTables` | scraper.py:72-130 | a symbol's two inserts are accepted by tables declared by that symbol's CREATE statements |
| `SchemaFacts.TimestampStored` | binance-scraper/scraper.py:90-132 | both inserts store the ticker's own timestamp: wrapped in `to_timestamp` in scraper.py, unconverted in the binance copy |
| `Store.Database.Create` | scraper.py:204-205 | executing a CREATE adds an empty table with the declared columns when the name is new; it changes nothing when the table exists under IF NOT EXISTS; a failure raises and changes nothing |
| `Store.Database.Insert` | scraper.py:164-165 | executing an INSERT appends exactly one row holding the statement's columns and values when the table accepts it; otherwise it raises and changes nothing |
| `Store.Database.Restore` | scraper.py:159-160 | rolling back returns the tables to the snapshot taken when the transaction began |
| `Poller.Dispatch` | scraper.py:166-178 | the except clauses are tried in order: the exception is absorbed iff it is a RequestTimeout, DDoSProtection or ExchangeNotAvailable; otherwise an ExchangeError leads to exit(1); anything else propagates |
| `Poller.Except` | scraper.py:166-178 | an absorbed exception lets the transaction commit what ran; `exit(1)` and an escaping exception roll the transaction back |
| `Poller.HandleSymbol` | scraper.py:158-178 | the new tables and the step's outcome are those of the `handle_symbol` specification: fetch, build both inserts, execute both, and dispatch any exception |
| `Poller.CreateTables` | scraper.py:203-205 | builds a symbol's two CREATE statements and executes them in order; the tables change as both statements prescribe, and the first exception is returned; after a failure the tables are those the first CREATE left when only the second failed, and unchanged otherwise |
| `Poller.InitializeTables` | scraper.py:199-205 | runs both CREATEs of every symbol in list order in one transaction; it completes with the batch's tables, or the first exception escapes and the tables are as before |
| `Poller.CreateAllPrefixOfStop` | scraper.py:202-205 | once the batch raises at a symbol, later symbols are never reached |
| `Poller.PollRound` | scraper.py:209-210 | calls `handle_symbol` once per symbol in list order, stopping at the first step that exits or raises |
| `Poller.PrefixOfStop` | scraper.py:209-210 | after a step of the round exits or raises, the remaining symbols change nothing |
| `Poller.RunScraper` | scraper.py:188-210 | `main` runs the startup batch, and only if it completes runs the polling rounds in order, stopping at the first step that exits or raises |
| `Poller.RoundsPrefixOfStop` | scraper.py:207-210 | once a round stops, no later round runs |
| `PollerFacts.FetchErrorHandling` | scraper.py:161-178 | a fetch error that is transient is absorbed and writes nothing; an ExchangeError exits with status 1 and writes nothing; any other escapes and writes nothing |
| `PollerFacts.MissingFieldEscapes` | scraper.py:163 | a ticker missing `info` or a field the builders read raises a KeyError that escapes `handle_symbol`, and nothing is written |
| `PollerFacts.HandleSymbolAtomic` | scraper.py:159-165 | after `handle_symbol` either the store is unchanged, or the step completed and exactly the fetched ticker's two rows were appended |
| `PollerFacts.FailedWriteRollsBack` | scraper.py:158-165 | whichever of the two inserts fails, by a database fault or because its table rejects the row, the database error escapes and neither row remains |
| `PollerFacts.SecondWriteFailureRollsBack` | scraper.py:160-165 | if the summary insert succeeds and the detail insert fails, the database error escapes and neither row remains |
| `PollerFacts.PersistsFetchedTicker` | scraper.py:162-165 | for a complete ticker and declared tables, the step completes with one new row in each table holding the ticker's values in column order, and no other table changes |
| `PollerFacts.HandleSymbolExtends` | scraper.py:158-178 | `handle_symbol` only appends rows: no table appears or vanishes and no stored row changes |
| `PollerFacts.StepExitsOnlyOnExchangeError` | scraper.py:158-178 | `handle_symbol` exits only when the fetch raised a non-transient ExchangeError; a builder's KeyError and an insert's database error escape instead |
| `PollerFacts.StepStopsOnlyOnFatal` | scraper.py:166-178 | `handle_symbol` ends by exit only with status 1, and lets an exception escape only if no except clause names its classes |
| `PollerFacts.RoundExtends` | scraper.py:209-210 | a polling round only appends rows |
| `PollerFacts.RoundAllTransient` | binance-scraper/scraper.py:207-210 | a round in which every fetch fails transiently completes with the store unchanged, so every symbol is still reached |
| `PollerFacts.RoundStopsOnlyOnFatal` | binance-scraper/scraper.py:161-178 | a round ends early only with exit status 1, and then some symbol's fetch raised a non-transient ExchangeError, or with an exception no except clause names; transient errors never leave the loop |
| `PollerFacts.RoundsExtend` | scraper.py:207-210 | the rounds of `main` only append rows and end early only for a fatal reason |
| `PollerFacts.ServeOutcome` | scraper.py:188-210 | `main` either fails at startup with the store untouched, or completes startup and then only appends rows |
| `PollerFacts.CreatePairEffect` | scraper.py:203-205 | one symbol's CREATE pair leaves existing tables as they were, adds no table but that symbol's two, and makes both exist, each new one empty and declared as built |
| `PollerFacts.CreateAllKeeps` | scraper.py:199-205 | a completed batch leaves every existing table as it was |
| `PollerFacts.CreateAllAdds` | scraper.py:199-205 | every table a completed batch adds is empty and declared as `build_tables` says |
| `PollerFacts.CreateAllOnlyBatch` | scraper.py:199-205 | every table a completed batch adds is the summary or detail table of one of its mapped symbols |
| `PollerFacts.CreateAllHolds` | scraper.py:199-205 | after a completed batch every symbol is mapped and both of its tables exist |
| `PollerFacts.CreateAllEffect` | scraper.py:199-205 | a completed batch means every symbol was mapped; existing tables are kept, both tables of every symbol exist, and every added table is one of the symbols' tables, empty and declared as `build_tables` says |
| `PollerFacts.StartupDeclaresTables` | binance-scraper/scraper.py:199-205 | after a completed startup, both tables of every symbol exist; every table that did not exist before is one of these, empty with the builder's columns |
| `PollerFacts.CreateAllOnExisting` | scraper.py:199-205 | on a store that already holds every table of the batch, the batch changes nothing and completes unless the database faults |
| `PollerFacts.StartupIdempotent` | scraper.py:199-205 | running the startup batch again on the store it produced leaves the store unchanged, and completes when the database does not fault |
| `PollerFacts.UnmappedSymbolAbortsStartup` | binance-scraper/scraper.py:199-205 | an unmapped symbol anywhere in the list aborts the batch and rolls it back entirely; without faults the escaping exception is the KeyError of the first unmapped symbol |
| `PollerFacts.CreatePrefixCompletes` | scraper.py:202-205 | a batch of mapped symbols with no database fault completes |
| `PollerFacts.DefaultStartupCompletes` | scraper.py:213 | with the fixed symbol list and no database fault, startup completes |
| `PollerFacts.TwoSymbolStartup` | scraper.py:199-205 | startup for BTC and ETH on an empty store completes, and their four tables exist, empty and declared as `build_tables` says |
| `PollerFacts.TransientAfterSuccess` | scraper.py:209-210 | for two different symbols with empty declared tables, a successful first fetch and a transient second failure complete the round: one row in each table of the first symbol, none for the second |
| `PollerFacts.TimeoutScenario` | scraper.py:207-210 | after startup on an empty store, BTC fetched successfully and then ETH timing out: the round completes with one row in `ticker_value_btc` and in `ticker_info_btc`, and none in the ETH tables |

## Left out

- asyncio, the `asyncpg` pool and acquiring a connection (scraper.py:159, 190-197) are not modelled. Beginning and committing a transaction cannot fail in the model. A transaction is a snapshot, then either nothing (commit) or a restore (rollback).
- The ccxt exchange object and the network call (scraper.py:162, 189) are not modelled. The fetch outcome is a parameter. ccxt's exception hierarchy is not asserted: an exception lists the classes it is an instance of.
- Reading `PG_HOST` and the other settings from the environment (scraper.py:181-185) is configuration I/O and is left out.
- Console output and the 200-character message truncation are logging only and are left out.
- Rendering values into SQL text is left out. That covers Python's `str()` of floats, `None` rendered as `None`, and the injection risk of interpolated SQL. Statements are kept as structured values.
- PostgreSQL data semantics are left out: `numeric(16)` rounding to whole numbers, `to_timestamp` receiving milliseconds, folding of unquoted identifiers to lower case, and type and NOT NULL checks on values. The database accepts an INSERT when its table exists, its lists have equal length and every column is declared. Any other rejection is a `WriteFaults` flag.
- The `bigserial` id value of a row is not stored. A row's position in its table stands for it.
- The `while True` loop is modelled for a finite list of rounds. Its liveness, including a fetch that never returns, is not modelled.
- `exit(1)` does not end a process in the model. It is the step result `Exited(1)`, which stops the loop and rolls back the transaction it leaves.
