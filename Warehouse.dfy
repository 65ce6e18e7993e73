/**
 * `load_duckdb`: a full refresh of the `tweets` and `accounts` tables of the analytical database
 * from the two consolidated Parquet files.
 *
 * The database is its set of tables, a map from table name to rows. `STRPTIME(time,
 * '%xT%X%z')` is the parameter `parse`, a partial function from strings to date-times.
 */
module Warehouse {
  import opened Wrappers
  import opened Cells
  import AccountIngestion

  type Row = map<string, Value>

  /** A consolidated Parquet file as a table source: its schema and its rows. */
  datatype Table = Table(columns: set<string>, rows: seq<Row>)

  /** Why a `CREATE TABLE … AS SELECT` statement fails. */
  datatype LoadError =
    | MissingColumn(column: string)   // binder error: the file has no such column
    | BadTimestamp(text: string)      // STRPTIME could not parse this string
    | NotAString                      // STRPTIME applied to a non-text value

  const TweetsTable := "tweets"
  const AccountsTable := "accounts"

  /** The source columns the `tweets` statement reads, in select-list order. */
  const TweetSources := ["user_id", "screen_name", "text", "sentiment", "link", "time"]

  /** The columns the `accounts` statement reads and writes, in select-list order. */
  const AccountColumns := ["id", "screen_name", "account_type", "name", "chamber", "type", "party", "state"]

  /** A row's value for a column of its file; a row lacking it holds SQL `NULL`. */
  function Cell(row: Row, column: string): Value {
    if column in row then row[column] else Null
  }

  /** The first of `wanted` that is not a column of the file, if any. */
  function FirstMissing(columns: set<string>, wanted: seq<string>): (r: Option<string>)
    ensures r.None? <==> forall k :: 0 <= k < |wanted| ==> wanted[k] in columns
    ensures r.Some? ==> r.value !in columns
    ensures r.Some? ==> exists k :: 0 <= k < |wanted| && wanted[k] == r.value && forall j :: 0 <= j < k ==> wanted[j] in columns
  {
    if wanted == [] then None
    else if wanted[0] !in columns then Some(wanted[0])
    else FirstMissing(columns, wanted[1..])
  }

  /** `STRPTIME(time, '%xT%X%z')`: `NULL` stays `NULL`, a string must parse. */
  function ParseTime(v: Value, parse: string -> Option<DateTime>): (r: Result<Value, LoadError>)
    ensures v == Null ==> r == Ok(Null)
    ensures v.Str? ==> (r.Ok? <==> parse(v.s).Some?)
    ensures v.Str? && r.Ok? ==> r.value == Timestamp(parse(v.s).value)
    ensures !v.Str? && v != Null ==> r.Err?
    ensures r.Err? ==> !r.error.MissingColumn?
  {
    match v
    case Null => Ok(Null)
    case Str(s) => (match parse(s) case Some(t) => Ok(Timestamp(t)) case None => Err(BadTimestamp(s)))
    case _ => Err(NotAString)
  }

  /** One row of the `tweets` select list: `user_id AS account_id`, four columns as they are, `created_at`. */
  function TweetRow(row: Row, parse: string -> Option<DateTime>): (r: Result<Row, LoadError>)
    ensures r.Ok? <==> ParseTime(Cell(row, "time"), parse).Ok?
    ensures r.Ok? ==> r.value.Keys == {"account_id", "screen_name", "text", "sentiment", "link", "created_at"}
    ensures r.Ok? ==> r.value["account_id"] == Cell(row, "user_id")
    ensures r.Ok? ==> forall c :: c in ["screen_name", "text", "sentiment", "link"] ==> r.value[c] == Cell(row, c)
    ensures r.Ok? ==> r.value["created_at"] == ParseTime(Cell(row, "time"), parse).value
    ensures r.Err? ==> !r.error.MissingColumn?
  {
    var createdAt :- ParseTime(Cell(row, "time"), parse);
    Ok(map[
      "account_id" := Cell(row, "user_id"),
      "screen_name" := Cell(row, "screen_name"),
      "text" := Cell(row, "text"),
      "sentiment" := Cell(row, "sentiment"),
      "link" := Cell(row, "link"),
      "created_at" := createdAt])
  }

  /** The rows of the `tweets` statement, stopping at the first row whose time does not parse. */
  function TweetRows(rows: seq<Row>, parse: string -> Option<DateTime>): (r: Result<seq<Row>, LoadError>)
    ensures r.Ok? <==> forall k :: 0 <= k < |rows| ==> TweetRow(rows[k], parse).Ok?
    ensures r.Ok? ==> |r.value| == |rows|
    ensures r.Ok? ==> forall k :: 0 <= k < |rows| ==> r.value[k] == TweetRow(rows[k], parse).value
    ensures r.Err? ==> !r.error.MissingColumn?
  {
    if rows == [] then Ok([])
    else
      var first := TweetRow(rows[0], parse);
      var rest := TweetRows(rows[1..], parse);
      if first.Err? then Err(first.error)
      else if rest.Err? then Err(rest.error)
      else Ok([first.value] + rest.value)
  }

  /** The `SELECT` of the `tweets` statement: binding fails on a missing column, then every row is projected. */
  function ProjectTweets(file: Table, parse: string -> Option<DateTime>): (r: Result<seq<Row>, LoadError>)
    ensures r.Ok? ==> (forall c :: c in TweetSources ==> c in file.columns) && |r.value| == |file.rows|
    ensures r.Err? && r.error.MissingColumn? ==> r.error.column in TweetSources && r.error.column !in file.columns
  {
    match FirstMissing(file.columns, TweetSources)
    case Some(c) => Err(MissingColumn(c))
    case None => TweetRows(file.rows, parse)
  }

  /** One row of the `accounts` select list: the eight columns as they are. */
  function AccountSelect(row: Row): (r: Row)
    ensures r.Keys == set c | c in AccountColumns
    ensures forall c :: c in AccountColumns ==> r[c] == Cell(row, c)
  {
    map c | c in AccountColumns :: Cell(row, c)
  }

  /** The `SELECT` of the `accounts` statement. */
  function ProjectAccounts(file: Table): (r: Result<seq<Row>, LoadError>)
    ensures r.Ok? <==> forall c :: c in AccountColumns ==> c in file.columns
    ensures r.Ok? ==> |r.value| == |file.rows|
    ensures r.Err? ==> r.error.MissingColumn? && r.error.column in AccountColumns && r.error.column !in file.columns
  {
    match FirstMissing(file.columns, AccountColumns)
    case Some(c) => Err(MissingColumn(c))
    case None => Ok(seq(|file.rows|, k requires 0 <= k < |file.rows| => AccountSelect(file.rows[k])))
  }

  /** The tables after a load, and the error that ended it early, if one did. */
  datatype Loaded = Loaded(tables: map<string, seq<Row>>, error: Option<LoadError>)

  /**
   * The four statements in order: drop `tweets`, drop `accounts`, create `tweets`, create
   * `accounts`. A failing statement raises, so the statements after it do not run.
   */
  function Load(db: map<string, seq<Row>>, tweets: Table, accounts: Table, parse: string -> Option<DateTime>): (after: Loaded)
    ensures forall name :: name != TweetsTable && name != AccountsTable ==>
      (name in after.tables <==> name in db) && (name in db ==> after.tables[name] == db[name])
    ensures TweetsTable in after.tables <==> ProjectTweets(tweets, parse).Ok?
    ensures AccountsTable in after.tables <==> after.error.None?
    ensures after.error.None? <==> ProjectTweets(tweets, parse).Ok? && ProjectAccounts(accounts).Ok?
  {
    var cleared := db - {TweetsTable, AccountsTable};
    match ProjectTweets(tweets, parse)
    case Err(e) => Loaded(cleared, Some(e))
    case Ok(t) =>
      match ProjectAccounts(accounts)
      case Err(e) => Loaded(cleared[TweetsTable := t], Some(e))
      case Ok(a) => Loaded(cleared[TweetsTable := t][AccountsTable := a], None)
  }

  /** The database file, opened for writing. */
  class Database {
    var tables: map<string, seq<Row>>

    constructor (tables: map<string, seq<Row>>)
      ensures this.tables == tables
    {
      this.tables := tables;
    }

    /** `DROP TABLE IF EXISTS name`. */
    method DropTableIfExists(name: string)
      modifies this
      ensures tables == old(tables) - {name}
    {
      tables := tables - {name};
    }

    /** `CREATE OR REPLACE TABLE name AS <query>`, once the query has produced `rows`. */
    method CreateOrReplaceTable(name: string, rows: seq<Row>)
      modifies this
      ensures tables == old(tables)[name := rows]
    {
      tables := tables[name := rows];
    }

    /** `load_duckdb`. */
    method LoadDuckdb(tweets: Table, accounts: Table, parse: string -> Option<DateTime>) returns (error: Option<LoadError>)
      modifies this
      ensures Loaded(tables, error) == Load(old(tables), tweets, accounts, parse)
    {
      ghost var before := tables;
      DropTableIfExists(TweetsTable);
      DropTableIfExists(AccountsTable);
      assert tables == before - {TweetsTable, AccountsTable};
      var tweetRows := ProjectTweets(tweets, parse);
      if tweetRows.Err? {
        return Some(tweetRows.error);
      }
      CreateOrReplaceTable(TweetsTable, tweetRows.value);
      var accountRows := ProjectAccounts(accounts);
      if accountRows.Err? {
        return Some(accountRows.error);
      }
      CreateOrReplaceTable(AccountsTable, accountRows.value);
      return None;
    }
  }

  /** What a load leaves depends on the earlier database only through its other tables. */
  lemma LoadIgnoresPriorTables(db1: map<string, seq<Row>>, db2: map<string, seq<Row>>, tweets: Table, accounts: Table, parse: string -> Option<DateTime>)
    requires db1 - {TweetsTable, AccountsTable} == db2 - {TweetsTable, AccountsTable}
    ensures Load(db1, tweets, accounts, parse) == Load(db2, tweets, accounts, parse)
  {
  }

  /** Loading twice from the same files is loading once. */
  lemma LoadIdempotent(db: map<string, seq<Row>>, tweets: Table, accounts: Table, parse: string -> Option<DateTime>)
    ensures Load(Load(db, tweets, accounts, parse).tables, tweets, accounts, parse) == Load(db, tweets, accounts, parse)
  {
    var once := Load(db, tweets, accounts, parse).tables;
    assert once - {TweetsTable, AccountsTable} == db - {TweetsTable, AccountsTable};
    LoadIgnoresPriorTables(once, db, tweets, accounts, parse);
  }

  /**
   * After a successful load, `tweets` holds one row per source row, in order, with `account_id`
   * the source `user_id`, four columns copied, and `created_at` the parsed `time`.
   */
  lemma LoadedTweets(db: map<string, seq<Row>>, tweets: Table, accounts: Table, parse: string -> Option<DateTime>)
    requires Load(db, tweets, accounts, parse).error.None?
    ensures var t := Load(db, tweets, accounts, parse).tables[TweetsTable];
      |t| == |tweets.rows| &&
      forall k :: 0 <= k < |t| ==>
        && t[k]["account_id"] == Cell(tweets.rows[k], "user_id")
        && t[k]["screen_name"] == Cell(tweets.rows[k], "screen_name")
        && t[k]["text"] == Cell(tweets.rows[k], "text")
        && t[k]["sentiment"] == Cell(tweets.rows[k], "sentiment")
        && t[k]["link"] == Cell(tweets.rows[k], "link")
        && t[k]["created_at"] == ParseTime(Cell(tweets.rows[k], "time"), parse).value
  {
    var t := Load(db, tweets, accounts, parse).tables[TweetsTable];
    assert ProjectTweets(tweets, parse).Ok?;
    assert t == TweetRows(tweets.rows, parse).value;
    forall k | 0 <= k < |t| ensures t[k]["screen_name"] == Cell(tweets.rows[k], "screen_name")
      && t[k]["text"] == Cell(tweets.rows[k], "text") && t[k]["sentiment"] == Cell(tweets.rows[k], "sentiment")
      && t[k]["link"] == Cell(tweets.rows[k], "link")
    {
      assert "screen_name" in ["screen_name", "text", "sentiment", "link"];
      assert "text" in ["screen_name", "text", "sentiment", "link"];
      assert "sentiment" in ["screen_name", "text", "sentiment", "link"];
      assert "link" in ["screen_name", "text", "sentiment", "link"];
    }
  }

  /**
   * The `tweets` statement fails exactly when the file lacks a column it reads or some row's
   * time is neither `NULL` nor a string that parses.
   */
  lemma TweetsFailIff(tweets: Table, parse: string -> Option<DateTime>)
    ensures ProjectTweets(tweets, parse).Err? <==>
      (exists c :: c in TweetSources && c !in tweets.columns) ||
      (exists k :: 0 <= k < |tweets.rows| && ParseTime(Cell(tweets.rows[k], "time"), parse).Err?)
  {
    if FirstMissing(tweets.columns, TweetSources).None? {
      assert forall c :: c in TweetSources ==> c in tweets.columns;
    }
  }

  /** After a successful load, `accounts` holds the source rows' eight columns, row for row. */
  lemma LoadedAccounts(db: map<string, seq<Row>>, tweets: Table, accounts: Table, parse: string -> Option<DateTime>)
    requires Load(db, tweets, accounts, parse).error.None?
    ensures var a := Load(db, tweets, accounts, parse).tables[AccountsTable];
      |a| == |accounts.rows| &&
      forall k, c :: 0 <= k < |a| && c in AccountColumns ==> c in a[k] && a[k][c] == Cell(accounts.rows[k], c)
  {
  }

  /** A flattened account as a row of the accounts Parquet file. */
  function AccountRecord(r: AccountIngestion.AccountRow): (row: Row)
    ensures row.Keys == set c | c in AccountColumns
  {
    map["id" := r.id, "screen_name" := r.screenName, "account_type" := r.accountType,
        "name" := r.name, "chamber" := r.chamber, "type" := r.category,
        "party" := r.party, "state" := r.state]
  }

  /**
   * The accounts file written by `pd.DataFrame(accounts).to_parquet(...)` from the flattened
   * rows, as the load reads it (aggregation passes it through). An empty list makes a frame
   * without columns.
   */
  function AccountsFile(rows: seq<AccountIngestion.AccountRow>): (file: Table)
    ensures |file.rows| == |rows|
    ensures forall k :: 0 <= k < |file.rows| ==> file.rows[k].Keys == file.columns
    ensures file.columns == {} <==> rows == []
  {
    var schema := set c | c in AccountColumns;
    assert "id" in schema;
    Table(if rows == [] then {} else schema, seq(|rows|, k requires 0 <= k < |rows| => AccountRecord(rows[k])))
  }

  /** Loading the accounts file gives back the flattened rows, field for field. */
  lemma AccountsRoundTrip(rows: seq<AccountIngestion.AccountRow>)
    requires rows != []
    ensures ProjectAccounts(AccountsFile(rows)).Ok?
    ensures ProjectAccounts(AccountsFile(rows)).value == seq(|rows|, k requires 0 <= k < |rows| => AccountRecord(rows[k]))
  {
    var file := AccountsFile(rows);
    assert FirstMissing(file.columns, AccountColumns).None?;
    var got := ProjectAccounts(file).value;
    forall k | 0 <= k < |rows| ensures got[k] == AccountRecord(rows[k]) {
      assert AccountSelect(file.rows[k]) == AccountRecord(rows[k]);
    }
  }

  /** With no sub-accounts at all the file has no `id` column, and the `accounts` statement fails. */
  lemma NoAccountsFailsLoad()
    ensures ProjectAccounts(AccountsFile([])) == Err(MissingColumn("id"))
  {
  }
}
