/**
 * `process_json_accounts_data`: the author records become a pandas frame, NaN and `"N/A"` cells
 * become `None`, and every sub-account of every author becomes one eight-field row.
 */
module AccountIngestion {
  import opened Wrappers
  import opened Cells

  /** The exceptions that abort the stage. */
  datatype Failure = KeyError(key: string) | TypeError

  const NotApplicable := "N/A"
  const AccountsKey := "accounts"

  /** `df.replace({np.nan: None})` then `df.replace({"N/A": None})` on one cell. */
  function Normalise(v: Value): (r: Value)
    ensures r == Null <==> v == Null || v == NaN || v == Str(NotApplicable)
    ensures r != Null ==> r == v
  {
    if v == NaN || v == Str(NotApplicable) then Null else v
  }

  /** A frame row: every column of the frame maps to a cell. */
  type Row = map<string, Value>

  /** One author's frame row, over the frame's columns `cols`; a key the author lacks reads as NaN. */
  function FrameRow(author: Object, cols: set<string>): (row: Row)
    ensures row.Keys == cols
    ensures forall c :: c in cols && c in author ==> row[c] == Normalise(author[c])
    ensures forall c :: c in cols && c !in author ==> row[c] == Null
  {
    map c | c in cols :: Normalise(if c in author then author[c] else NaN)
  }

  /**
   * `pd.DataFrame(users)` and the two replaces: one row per author, whose columns are all the
   * keys any author has.
   */
  function Frame(users: seq<Object>): (rows: seq<Row>)
    ensures |rows| == |users|
    ensures forall i :: 0 <= i < |users| ==> rows[i] == FrameRow(users[i], Columns(users))
  {
    seq(|users|, i requires 0 <= i < |users| => FrameRow(users[i], Columns(users)))
  }

  /**
   * One flattened account: `id`, `screen_name` and `account_type` of the sub-account, then
   * `name`, `chamber`, `type` (here `category`), `party` and `state` of its author.
   */
  datatype AccountRow = AccountRow(
    id: Value, screenName: Value, accountType: Value,
    name: Value, chamber: Value, category: Value, party: Value, state: Value)

  /** `account[key]` on a sub-account: a dict lookup, `KeyError` if absent, `TypeError` on a non-dict. */
  function Field(account: Value, key: string): (r: Result<Value, Failure>)
    ensures r.Ok? <==> account.Obj? && key in account.fields
    ensures r.Ok? ==> r.value == account.fields[key]
  {
    match account
    case Obj(m) => if key in m then Ok(m[key]) else Err(KeyError(key))
    case _ => Err(TypeError)
  }

  /** `row[column]` on a frame row: `KeyError` when the frame has no such column. */
  function Column(row: Row, column: string): (r: Result<Value, Failure>)
    ensures r.Ok? <==> column in row
    ensures r.Ok? ==> r.value == row[column]
  {
    if column in row then Ok(row[column]) else Err(KeyError(column))
  }

  /**
   * The dict literal appended for one sub-account, its lookups in the order Python evaluates
   * them. On success the sub-account fields are copied raw and the author fields come from the
   * (normalised) frame row.
   */
  function MakeRow(row: Row, account: Value): (r: Result<AccountRow, Failure>)
    ensures r.Ok? <==> (account.Obj? && "id" in account.fields && "screen_name" in account.fields
      && "account_type" in account.fields && "name" in row && "chamber" in row && "type" in row
      && "party" in row && "state" in row)
    ensures r.Ok? ==> r.value == AccountRow(
      account.fields["id"], account.fields["screen_name"], account.fields["account_type"],
      row["name"], row["chamber"], row["type"], row["party"], row["state"])
  {
    var id :- Field(account, "id");
    var screenName :- Field(account, "screen_name");
    var accountType :- Field(account, "account_type");
    var name :- Column(row, "name");
    var chamber :- Column(row, "chamber");
    var category :- Column(row, "type");
    var party :- Column(row, "party");
    var state :- Column(row, "state");
    Ok(AccountRow(id, screenName, accountType, name, chamber, category, party, state))
  }

  /**
   * What `for account in cell` yields, as far as the loop body can use it: a list gives its
   * elements; an empty string or dict gives nothing; a non-empty string or dict gives strings,
   * which the body's `account["id"]` rejects with `TypeError`; `None`, numbers and booleans are
   * not iterable.
   */
  function SubAccounts(cell: Value): (r: Result<seq<Value>, Failure>)
    ensures cell.Arr? ==> r == Ok(cell.items)
    ensures r.Ok? ==> cell.Arr? || r.value == []
  {
    match cell
    case Arr(items) => Ok(items)
    case Str(s) => if s == [] then Ok([]) else Err(TypeError)
    case Obj(m) => if m == map[] then Ok([]) else Err(TypeError)
    case _ => Err(TypeError)
  }

  /** The rows of the inner loop, for the sub-accounts `accounts` of `row`. */
  function RowsOf(row: Row, accounts: seq<Value>): (r: Result<seq<AccountRow>, Failure>)
    ensures r.Ok? <==> forall j :: 0 <= j < |accounts| ==> MakeRow(row, accounts[j]).Ok?
    ensures r.Ok? ==> |r.value| == |accounts|
    ensures r.Ok? ==> forall j :: 0 <= j < |accounts| ==> r.value[j] == MakeRow(row, accounts[j]).value
  {
    if accounts == [] then Ok([])
    else
      var first :- MakeRow(row, accounts[0]);
      var rest :- RowsOf(row, accounts[1..]);
      assert forall j :: 1 <= j < |accounts| ==> accounts[1..][j - 1] == accounts[j];
      Ok([first] + rest)
  }

  /**
   * All the rows one author contributes: none without an iterable `accounts` cell, none for an
   * empty list, and otherwise one per sub-account (see `FlattenRowRows`).
   */
  function FlattenRow(row: Row): (r: Result<seq<AccountRow>, Failure>)
    ensures AccountsKey !in row ==> r == Err(KeyError(AccountsKey))
    ensures r.Ok? ==> AccountsKey in row && SubAccounts(row[AccountsKey]).Ok?
    ensures AccountsKey in row && row[AccountsKey] == Arr([]) ==> r == Ok([])
  {
    var cell :- Column(row, AccountsKey);
    var accounts :- SubAccounts(cell);
    RowsOf(row, accounts)
  }

  /**
   * The nested loops: authors in frame order, each author's sub-accounts in list order; one row
   * per sub-account, so the row count is the sum of the authors' sub-account counts.
   */
  function Flatten(rows: seq<Row>): (r: Result<seq<AccountRow>, Failure>)
  {
    if rows == [] then Ok([])
    else
      var first :- FlattenRow(rows[0]);
      var rest :- Flatten(rows[1..]);
      Ok(first + rest)
  }

  /** The result of a computation whose first `done` rows are already appended. */
  function Prepend(done: seq<AccountRow>, r: Result<seq<AccountRow>, Failure>): Result<seq<AccountRow>, Failure> {
    if r.Ok? then Ok(done + r.value) else r
  }

  /** One author's rows `inner` followed by the result `rest` of the authors after it. */
  function Then(inner: Result<seq<AccountRow>, Failure>, rest: Result<seq<AccountRow>, Failure>): Result<seq<AccountRow>, Failure> {
    if inner.Err? then Err(inner.error) else Prepend(inner.value, rest)
  }

  lemma FlattenUnfold(rows: seq<Row>)
    requires rows != []
    ensures Flatten(rows) == Then(FlattenRow(rows[0]), Flatten(rows[1..]))
  {
  }

  lemma PrependAppend(done: seq<AccountRow>, more: seq<AccountRow>, r: Result<seq<AccountRow>, Failure>)
    ensures Prepend(done, Prepend(more, r)) == Prepend(done + more, r)
  {
    if r.Ok? {
      assert done + (more + r.value) == (done + more) + r.value;
    }
  }

  /** One step of the inner loop: appending the row made from `accounts[0]`. */
  lemma InnerStep(done: seq<AccountRow>, row: Row, accounts: seq<Value>, rest: Result<seq<AccountRow>, Failure>)
    requires accounts != [] && MakeRow(row, accounts[0]).Ok?
    ensures Prepend(done, Then(RowsOf(row, accounts), rest))
      == Prepend(done + [MakeRow(row, accounts[0]).value], Then(RowsOf(row, accounts[1..]), rest))
  {
    var m := MakeRow(row, accounts[0]).value;
    var tail := RowsOf(row, accounts[1..]);
    if tail.Ok? {
      assert RowsOf(row, accounts) == Ok([m] + tail.value);
      PrependAppend([m], tail.value, rest);
      PrependAppend(done, [m] + tail.value, rest);
      PrependAppend(done, [m], Prepend(tail.value, rest));
    }
  }

  /** `process_json_accounts_data` on the loaded author list: the rows it writes, or the exception. */
  method ProcessJsonAccounts(users: seq<Object>) returns (result: Result<seq<AccountRow>, Failure>)
    ensures result == Flatten(Frame(users))
  {
    var frame := Frame(users);
    result := FlattenLoop(frame);
  }

  /** The nested `for` loops of `process_json_accounts_data`, appending to `accounts`. */
  method FlattenLoop(frame: seq<Row>) returns (result: Result<seq<AccountRow>, Failure>)
    ensures result == Flatten(frame)
  {
    var accounts: seq<AccountRow> := [];
    var i := 0;
    assert frame[0..] == frame;
    assert Flatten(frame).Ok? ==> [] + Flatten(frame).value == Flatten(frame).value;
    while i < |frame|
      invariant 0 <= i <= |frame|
      invariant Flatten(frame) == Prepend(accounts, Flatten(frame[i..]))
    {
      assert frame[i..][1..] == frame[i + 1..];
      FlattenUnfold(frame[i..]);
      var row := frame[i];
      var cell := Column(row, AccountsKey);
      if cell.Err? {
        return Err(cell.error);
      }
      var subAccounts := SubAccounts(cell.value);
      if subAccounts.Err? {
        return Err(subAccounts.error);
      }
      var subs := subAccounts.value;
      ghost var rest := Flatten(frame[i + 1..]);
      assert subs[0..] == subs;
      var j := 0;
      while j < |subs|
        invariant 0 <= j <= |subs|
        invariant Flatten(frame) == Prepend(accounts, Then(RowsOf(row, subs[j..]), rest))
      {
        var made := MakeRow(row, subs[j]);
        if made.Err? {
          return Err(made.error);
        }
        InnerStep(accounts, row, subs[j..], rest);
        assert subs[j..][1..] == subs[j + 1..];
        accounts := accounts + [made.value];
        j := j + 1;
      }
      PrependAppend(accounts, [], rest);
      assert accounts + [] == accounts;
      i := i + 1;
    }
    assert Flatten(frame[i..]) == Ok([]);
    assert accounts + [] == accounts;
    return Ok(accounts);
  }

  /** The sub-accounts an author's row iterates over; none when iterating fails. */
  function SubAccountsOf(row: Row): seq<Value> {
    if AccountsKey in row && SubAccounts(row[AccountsKey]).Ok? then SubAccounts(row[AccountsKey]).value else []
  }

  /** The number of sub-accounts of all the authors. */
  function TotalSubAccounts(rows: seq<Row>): nat {
    if rows == [] then 0 else |SubAccountsOf(rows[0])| + TotalSubAccounts(rows[1..])
  }

  /** The stage fails exactly when some author's rows fail. */
  lemma {:induction false} FlattenFails(rows: seq<Row>)
    ensures Flatten(rows).Err? <==> exists i :: 0 <= i < |rows| && FlattenRow(rows[i]).Err?
  {
    if rows != [] {
      FlattenFails(rows[1..]);
      assert forall i :: 1 <= i < |rows| ==> rows[1..][i - 1] == rows[i];
    }
  }

  /** One row per sub-account: the row count is the sum of the authors' sub-account counts. */
  lemma {:induction false} FlattenLength(rows: seq<Row>)
    requires Flatten(rows).Ok?
    ensures |Flatten(rows).value| == TotalSubAccounts(rows)
  {
    if rows != [] {
      FlattenLength(rows[1..]);
    }
  }

  lemma TotalPrefix(rows: seq<Row>, i: nat)
    requires 0 < i <= |rows|
    ensures TotalSubAccounts(rows[..i]) == |SubAccountsOf(rows[0])| + TotalSubAccounts(rows[1..][..i - 1])
  {
    assert rows[..i][1..] == rows[1..][..i - 1];
  }

  /**
   * Author-major, then sub-account order: the row of author `i`'s `j`-th sub-account sits
   * after the rows of all earlier authors and is made from that author and that sub-account.
   */
  lemma {:induction false} FlattenAt(rows: seq<Row>, i: nat, j: nat)
    requires Flatten(rows).Ok?
    requires i < |rows| && j < |SubAccountsOf(rows[i])|
    ensures TotalSubAccounts(rows[..i]) + j < |Flatten(rows).value|
    ensures MakeRow(rows[i], SubAccountsOf(rows[i])[j]).Ok?
    ensures Flatten(rows).value[TotalSubAccounts(rows[..i]) + j] == MakeRow(rows[i], SubAccountsOf(rows[i])[j]).value
    decreases |rows|, 1
  {
    if i == 0 {
      assert rows[..0] == [];
      FlattenHead(rows, j);
    } else {
      FlattenAtLater(rows, i, j);
    }
  }

  /** The inductive step of `FlattenAt`: a later author's rows, shifted by the first author's. */
  lemma {:induction false} FlattenAtLater(rows: seq<Row>, i: nat, j: nat)
    requires Flatten(rows).Ok?
    requires 0 < i < |rows| && j < |SubAccountsOf(rows[i])|
    ensures TotalSubAccounts(rows[..i]) + j < |Flatten(rows).value|
    ensures MakeRow(rows[i], SubAccountsOf(rows[i])[j]).Ok?
    ensures Flatten(rows).value[TotalSubAccounts(rows[..i]) + j] == MakeRow(rows[i], SubAccountsOf(rows[i])[j]).value
    decreases |rows|, 0
  {
    var tail := rows[1..];
    assert tail[i - 1] == rows[i];
    assert Flatten(tail).Ok? by { FlattenUnfold(rows); }
    FlattenAt(tail, i - 1, j);
    var k := TotalSubAccounts(tail[..i - 1]) + j;
    TotalPrefix(rows, i);
    FlattenTail(rows, k);
  }

  /** The first author's rows come first. */
  lemma FlattenHead(rows: seq<Row>, j: nat)
    requires Flatten(rows).Ok? && rows != [] && j < |SubAccountsOf(rows[0])|
    ensures j < |Flatten(rows).value|
    ensures MakeRow(rows[0], SubAccountsOf(rows[0])[j]).Ok?
    ensures Flatten(rows).value[j] == MakeRow(rows[0], SubAccountsOf(rows[0])[j]).value
  {
    FlattenRowRows(rows[0]);
    assert Flatten(rows).value == FlattenRow(rows[0]).value + Flatten(rows[1..]).value;
  }

  /** The later authors' rows follow the first author's. */
  lemma FlattenTail(rows: seq<Row>, k: nat)
    requires Flatten(rows).Ok? && rows != [] && k < |Flatten(rows[1..]).value|
    ensures |SubAccountsOf(rows[0])| + k < |Flatten(rows).value|
    ensures Flatten(rows).value[|SubAccountsOf(rows[0])| + k] == Flatten(rows[1..]).value[k]
  {
    FlattenRowRows(rows[0]);
    var first := FlattenRow(rows[0]).value;
    assert Flatten(rows).value == first + Flatten(rows[1..]).value;
  }

  /** An author's rows, when they exist, are made one by one from the sub-accounts it iterates over. */
  lemma FlattenRowRows(row: Row)
    requires FlattenRow(row).Ok?
    ensures RowsOf(row, SubAccountsOf(row)).Ok?
    ensures FlattenRow(row).value == RowsOf(row, SubAccountsOf(row)).value
    ensures |FlattenRow(row).value| == |SubAccountsOf(row)|
  {
  }

  /** An author whose `accounts` list is empty contributes no rows. */
  lemma {:induction false} FlattenSkipsEmpty(rows: seq<Row>, i: nat)
    requires i < |rows| && AccountsKey in rows[i] && rows[i][AccountsKey] == Arr([])
    ensures Flatten(rows) == Flatten(rows[..i] + rows[i + 1..])
  {
    if i == 0 {
      assert rows[..0] + rows[1..] == rows[1..];
      if Flatten(rows[1..]).Ok? {
        assert [] + Flatten(rows[1..]).value == Flatten(rows[1..]).value;
      }
    } else {
      FlattenSkipsEmpty(rows[1..], i - 1);
      assert rows[..i] + rows[i + 1..] == [rows[0]] + (rows[1..][..i - 1] + rows[1..][i..]);
      assert ([rows[0]] + (rows[1..][..i - 1] + rows[1..][i..]))[1..] == rows[1..][..i - 1] + rows[1..][i..];
    }
  }

  /** The cell the frame holds for author `i` and column `c`. */
  function AuthorCell(users: seq<Object>, i: nat, c: string): Value
    requires i < |users|
  {
    if c in users[i] then Normalise(users[i][c]) else Null
  }

  lemma FrameCell(users: seq<Object>, i: nat, c: string)
    requires i < |users| && c in Frame(users)[i]
    ensures Frame(users)[i][c] == AuthorCell(users, i, c)
  {
    assert Frame(users)[i] == FrameRow(users[i], Columns(users));
  }

  /** The flattened row of author `i`'s `j`-th sub-account. */
  function RowAt(rows: seq<Row>, i: nat, j: nat): AccountRow
    requires Flatten(rows).Ok?
    requires i < |rows| && j < |SubAccountsOf(rows[i])|
  {
    FlattenAt(rows, i, j);
    Flatten(rows).value[TotalSubAccounts(rows[..i]) + j]
  }

  /** `id`, `screen_name` and `account_type` of `r` are those of the dict `sub`, as they are. */
  predicate CopiedFrom(r: AccountRow, sub: Value) {
    && sub.Obj? && "id" in sub.fields && "screen_name" in sub.fields && "account_type" in sub.fields
    && r.id == sub.fields["id"] && r.screenName == sub.fields["screen_name"]
    && r.accountType == sub.fields["account_type"]
  }

  /** `name`, `chamber`, `type`, `party` and `state` of `r` are the cells of the frame row `row`. */
  predicate FromAuthor(r: AccountRow, row: Row) {
    && "name" in row && "chamber" in row && "type" in row && "party" in row && "state" in row
    && r.name == row["name"] && r.chamber == row["chamber"] && r.category == row["type"]
    && r.party == row["party"] && r.state == row["state"]
  }

  /** The author fields of `r` are author `i`'s values, normalised. */
  predicate NormalisedFrom(r: AccountRow, users: seq<Object>, i: nat)
    requires i < |users|
  {
    && r.name == AuthorCell(users, i, "name") && r.chamber == AuthorCell(users, i, "chamber")
    && r.category == AuthorCell(users, i, "type") && r.party == AuthorCell(users, i, "party")
    && r.state == AuthorCell(users, i, "state")
  }

  /**
   * In the row of author `i`'s `j`-th sub-account, `id`, `screen_name` and `account_type` are
   * the sub-account's own values, copied without normalisation.
   */
  lemma SubAccountFieldsCopied(rows: seq<Row>, i: nat, j: nat)
    requires Flatten(rows).Ok?
    requires i < |rows| && j < |SubAccountsOf(rows[i])|
    ensures CopiedFrom(RowAt(rows, i, j), SubAccountsOf(rows[i])[j])
  {
    FlattenAt(rows, i, j);
  }

  /** The author fields of a flattened row are the cells of the frame row it was made from. */
  lemma RowAuthorFields(rows: seq<Row>, i: nat, j: nat)
    requires Flatten(rows).Ok?
    requires i < |rows| && j < |SubAccountsOf(rows[i])|
    ensures FromAuthor(RowAt(rows, i, j), rows[i])
  {
    FlattenAt(rows, i, j);
  }

  /**
   * In the row of author `i`'s `j`-th sub-account, `name`, `chamber`, `type`, `party` and
   * `state` are the author's, normalised: missing, NaN and `"N/A"` read as `None`.
   */
  lemma AuthorFieldsNormalised(users: seq<Object>, i: nat, j: nat)
    requires Flatten(Frame(users)).Ok?
    requires i < |users| && j < |SubAccountsOf(Frame(users)[i])|
    ensures NormalisedFrom(RowAt(Frame(users), i, j), users, i)
  {
    RowAuthorFields(Frame(users), i, j);
    NormalisedAuthor(users, i, RowAt(Frame(users), i, j));
  }

  /** A row whose author fields are the cells of author `i`'s frame row has them normalised. */
  lemma NormalisedAuthor(users: seq<Object>, i: nat, r: AccountRow)
    requires i < |users| && FromAuthor(r, Frame(users)[i])
    ensures NormalisedFrom(r, users, i)
  {
    forall c | c in Frame(users)[i] {
      FrameCell(users, i, c);
    }
  }

  /**
   * An author without a usable `accounts` list (absent while other authors have one, `null`,
   * NaN or `"N/A"`, all of which end as `None`) aborts the whole stage.
   */
  lemma NullAccountsAbort(users: seq<Object>, i: nat)
    requires i < |users| && AccountsKey in Columns(users)
    requires AuthorCell(users, i, AccountsKey) == Null
    ensures Flatten(Frame(users)).Err?
  {
    FlattenFails(Frame(users));
    assert FlattenRow(Frame(users)[i]).Err?;
  }

  /**
   * No deduplication: a sub-account listed twice, under one author or under two, yields two
   * rows at two positions with the same `id`, `screen_name` and `account_type`; under one
   * author the two rows are equal.
   */
  lemma RepeatedSubAccountRepeated(users: seq<Object>, i: nat, j: nat, i2: nat, j2: nat)
    requires Flatten(Frame(users)).Ok?
    requires i < |users| && j < |SubAccountsOf(Frame(users)[i])|
    requires i2 < |users| && j2 < |SubAccountsOf(Frame(users)[i2])|
    requires i < i2 || (i == i2 && j < j2)
    requires SubAccountsOf(Frame(users)[i])[j] == SubAccountsOf(Frame(users)[i2])[j2]
    ensures var k := TotalSubAccounts(Frame(users)[..i]) + j; var k2 := TotalSubAccounts(Frame(users)[..i2]) + j2;
      && k < k2 < |Flatten(Frame(users)).value|
      && Same(Flatten(Frame(users)).value[k], Flatten(Frame(users)).value[k2])
      && (i == i2 ==> Flatten(Frame(users)).value[k] == Flatten(Frame(users)).value[k2])
  {
    FlattenRepeats(Frame(users), i, j, i2, j2);
  }

  /** Two rows for the same sub-account: equal `id`, `screen_name` and `account_type`. */
  predicate Same(r: AccountRow, r2: AccountRow) {
    r.id == r2.id && r.screenName == r2.screenName && r.accountType == r2.accountType
  }

  lemma FlattenRepeats(rows: seq<Row>, i: nat, j: nat, i2: nat, j2: nat)
    requires Flatten(rows).Ok?
    requires i < |rows| && j < |SubAccountsOf(rows[i])|
    requires i2 < |rows| && j2 < |SubAccountsOf(rows[i2])|
    requires i < i2 || (i == i2 && j < j2)
    requires SubAccountsOf(rows[i])[j] == SubAccountsOf(rows[i2])[j2]
    ensures var out := Flatten(rows).value;
      var k := TotalSubAccounts(rows[..i]) + j; var k2 := TotalSubAccounts(rows[..i2]) + j2;
      && k < k2 < |out|
      && Same(out[k], out[k2])
      && (i == i2 ==> out[k] == out[k2])
  {
    FlattenAt(rows, i, j);
    FlattenAt(rows, i2, j2);
    if i < i2 {
      TotalBefore(rows, i, i2);
    }
  }

  /** The number of sub-accounts of the authors in `a + b` is the sum of the two. */
  lemma {:induction false} TotalAppend(a: seq<Row>, b: seq<Row>)
    ensures TotalSubAccounts(a + b) == TotalSubAccounts(a) + TotalSubAccounts(b)
  {
    if a == [] {
      assert a + b == b;
    } else {
      assert (a + b)[0] == a[0];
      assert (a + b)[1..] == a[1..] + b;
      TotalAppend(a[1..], b);
    }
  }

  /** The rows of author `i` come before those of any later author `i2`. */
  lemma TotalBefore(rows: seq<Row>, i: nat, i2: nat)
    requires i < i2 <= |rows|
    ensures TotalSubAccounts(rows[..i]) + |SubAccountsOf(rows[i])| <= TotalSubAccounts(rows[..i2])
  {
    assert rows[..i2] == rows[..i] + ([rows[i]] + rows[i + 1..i2]);
    TotalAppend(rows[..i], [rows[i]] + rows[i + 1..i2]);
    assert ([rows[i]] + rows[i + 1..i2])[1..] == rows[i + 1..i2];
  }
}
