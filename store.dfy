/** The server's transaction store: the `POST /transactions` and
    `GET /transactions` handlers over the `transactions` table, whose `id`
    column is an SQLite `INTEGER PRIMARY KEY AUTOINCREMENT`.

    The table is specified as a value (`Table`) with the two handlers as
    functions on it (`Post`, `Get`); `TransactionTable` is the mutable table
    the server holds, whose methods are proved to behave as those functions. */
module TransactionStore {
  import opened JsValues

  /** The largest rowid SQLite can assign, 2^63 - 1. */
  const MaxRowId: int := 0x7FFF_FFFF_FFFF_FFFF

  const MissingFieldsMessage: string := "Brakuje wymaganych pól."

  /** The message of the error SQLite reports once `AUTOINCREMENT` has used
      the largest rowid. */
  const FullMessage: string := "SQLITE_FULL: database or disk is full"

  const LogAction: string := "Dodano transakcję"

  /** A parsed JSON request body: its members by name. */
  type Body = map<string, JsValue>

  /** `req.body[name]`, `undefined` when absent. */
  function Field(body: Body, name: string): Option<JsValue> {
    if name in body then Some(body[name]) else None
  }

  /** `!(!type || !category || !amount || !date)`: all four fields truthy. */
  predicate HasRequiredFields(body: Body) {
    && ToBoolean(Field(body, "type"))
    && ToBoolean(Field(body, "category"))
    && ToBoolean(Field(body, "amount"))
    && ToBoolean(Field(body, "date"))
  }

  /** A stored row: the id SQLite assigned and the four submitted values. */
  datatype Row = Row(id: int, kind: JsValue, category: JsValue, amount: JsValue, date: JsValue)

  /** The row a valid body inserts under `id`. */
  function RowOf(id: int, body: Body): Row
    requires HasRequiredFields(body)
  {
    Row(id, body["type"], body["category"], body["amount"], body["date"])
  }

  /** The object `{ id, type, category, amount, date }`, members in that
      order, which is also the column order of `SELECT *`. */
  function Record(id: int, kind: JsValue, category: JsValue, amount: JsValue, date: JsValue): JsValue {
    Obj([Member("id", Num(Finite(id as real))), Member("type", kind), Member("category", category),
         Member("amount", amount), Member("date", date)])
  }

  function RowJson(r: Row): JsValue {
    Record(r.id, r.kind, r.category, r.amount, r.date)
  }

  /** The rows as the JSON array `res.json(rows)` sends. */
  function RowsJson(rows: seq<Row>): (r: seq<JsValue>)
    ensures |r| == |rows|
    ensures forall i :: 0 <= i < |rows| ==> r[i] == RowJson(rows[i])
  {
    if rows == [] then [] else RowsJson(rows[..|rows| - 1]) + [RowJson(rows[|rows| - 1])]
  }

  datatype Response = Response(status: int, body: JsValue)

  /** `{ error: message }`. */
  function ErrorBody(message: string): JsValue {
    Obj([Member("error", Str(message))])
  }

  /** A log record without its timestamp. */
  datatype LogEntry = LogEntry(action: string, data: JsValue)

  /** The table's contents and its `sqlite_sequence` entry: the largest id
      ever assigned. */
  datatype Table = Table(rows: seq<Row>, lastId: int)

  const EmptyTable: Table := Table([], 0)

  /** Ids are assigned in increasing order, never above the sequence entry,
      which never passes the largest rowid. */
  predicate WellFormed(t: Table) {
    && 0 <= t.lastId <= MaxRowId
    && (forall i :: 0 <= i < |t.rows| ==> 1 <= t.rows[i].id <= t.lastId)
    && (forall i, j :: 0 <= i < j < |t.rows| ==> t.rows[i].id < t.rows[j].id)
  }

  /** What one request does: the table after it, the response, and the log
      entry written, if any. */
  datatype Outcome = Outcome(table: Table, response: Response, log: Option<LogEntry>)

  /** `POST /transactions`. `failure` is the error the database reports for
      the insert, if any. A body with a falsy required field is refused with
      400; a database error, or an exhausted `AUTOINCREMENT`, gives 500 with
      the error's message; otherwise the row is inserted under the next id and
      201 echoes it. Only an insert writes a log entry. */
  function Post(t: Table, body: Body, failure: Option<string>): (o: Outcome)
    ensures o.response.status == 201 <==> HasRequiredFields(body) && failure.None? && t.lastId < MaxRowId
    ensures !HasRequiredFields(body) ==> o.response == Response(400, ErrorBody(MissingFieldsMessage))
    ensures HasRequiredFields(body) && failure.Some? ==> o.response == Response(500, ErrorBody(failure.value))
    ensures HasRequiredFields(body) && failure.None? && t.lastId >= MaxRowId ==>
      o.response == Response(500, ErrorBody(FullMessage))
    ensures o.response.status != 201 ==> o.table == t && o.log == None
    ensures o.response.status == 201 ==>
      && o.table == Table(t.rows + [RowOf(t.lastId + 1, body)], t.lastId + 1)
      && o.response.body == RowJson(RowOf(t.lastId + 1, body))
      && o.log == Some(LogEntry(LogAction, o.response.body))
  {
    if !HasRequiredFields(body) then
      Outcome(t, Response(400, ErrorBody(MissingFieldsMessage)), None)
    else if failure.Some? then
      Outcome(t, Response(500, ErrorBody(failure.value)), None)
    else if t.lastId >= MaxRowId then
      Outcome(t, Response(500, ErrorBody(FullMessage)), None)
    else
      var record := Record(t.lastId + 1, body["type"], body["category"], body["amount"], body["date"]);
      Outcome(Table(t.rows + [RowOf(t.lastId + 1, body)], t.lastId + 1),
              Response(201, record), Some(LogEntry(LogAction, record)))
  }

  /** `GET /transactions`: every row in insertion order, or 500 with the
      database's error message. */
  function Get(t: Table, failure: Option<string>): (r: Response)
    ensures failure.Some? ==> r == Response(500, ErrorBody(failure.value))
    ensures failure.None? ==> r.status == 200 && r.body.Arr? && |r.body.elems| == |t.rows|
    ensures failure.None? ==> forall i :: 0 <= i < |t.rows| ==> r.body.elems[i] == RowJson(t.rows[i])
  {
    if failure.Some? then Response(500, ErrorBody(failure.value)) else Response(200, Arr(RowsJson(t.rows)))
  }

  // ------------------------------------------------------------- validation

  /** A body is refused exactly when one of the four fields is absent, `null`,
      `false`, zero, `NaN` or the empty string. */
  lemma RefusedIffSomeFieldFalsy(body: Body)
    ensures !HasRequiredFields(body) <==>
      || IsFalsyForm(Field(body, "type"))
      || IsFalsyForm(Field(body, "category"))
      || IsFalsyForm(Field(body, "amount"))
      || IsFalsyForm(Field(body, "date"))
  {
    FalsyIffListedForm(Field(body, "type"));
    FalsyIffListedForm(Field(body, "category"));
    FalsyIffListedForm(Field(body, "amount"));
    FalsyIffListedForm(Field(body, "date"));
  }

  /** The body of four values under the four required names. */
  function BodyOf(kind: JsValue, category: JsValue, amount: JsValue, date: JsValue): (b: Body)
    ensures b.Keys == {"type", "category", "amount", "date"}
  {
    map["type" := kind, "category" := category, "amount" := amount, "date" := date]
  }

  /** The check is truthiness only: any non-empty type (not just "Expense" or
      "Income"), any non-zero amount (negative included, or a string such as
      "0") and any non-empty category and date pass. */
  lemma AcceptsAnyTruthyValues(kind: string, category: string, amount: real, date: string)
    requires kind != "" && category != "" && amount != 0.0 && date != ""
    ensures HasRequiredFields(BodyOf(Str(kind), Str(category), Num(Finite(amount)), Str(date)))
    ensures HasRequiredFields(BodyOf(Str(kind), Str(category), Str("0"), Str(date)))
  {
    assert "0" != "";
  }

  /** A zero, `NaN`, `null` or empty amount is refused whatever the other
      fields hold. */
  lemma RefusesFalsyAmount(kind: JsValue, category: JsValue, date: JsValue)
    ensures !HasRequiredFields(BodyOf(kind, category, Num(Finite(0.0)), date))
    ensures !HasRequiredFields(BodyOf(kind, category, Num(NaN), date))
    ensures !HasRequiredFields(BodyOf(kind, category, Null, date))
    ensures !HasRequiredFields(BodyOf(kind, category, Str(""), date))
  {
  }

  // ------------------------------------------------------------------ lemmas

  /** An insert keeps the table well formed, and the id it assigns is greater
      than every id assigned before. */
  lemma PostKeepsIdsIncreasing(t: Table, body: Body, failure: Option<string>)
    requires WellFormed(t)
    ensures WellFormed(Post(t, body, failure).table)
    ensures Post(t, body, failure).response.status == 201 ==>
      forall i :: 0 <= i < |t.rows| ==> t.rows[i].id < Post(t, body, failure).table.lastId
  {
  }

  /** After an insert, the 201 body, the log entry's data and the last element
      of the next `GET` are one and the same record. */
  lemma EchoIsLoggedAndListed(t: Table, body: Body)
    requires Post(t, body, None).response.status == 201
    ensures Post(t, body, None).log == Some(LogEntry(LogAction, Post(t, body, None).response.body))
    ensures Get(Post(t, body, None).table, None).body.elems[|t.rows|] == Post(t, body, None).response.body
    ensures Get(Post(t, body, None).table, None).body.elems[..|t.rows|] == Get(t, None).body.elems
  {
    var t' := Post(t, body, None).table;
    var before := Get(t, None).body.elems;
    var after := Get(t', None).body.elems;
    assert forall i :: 0 <= i < |t.rows| ==> t'.rows[i] == t.rows[i];
    assert after[..|t.rows|] == before;
  }

  /** Inserting each body in turn, with no database error. */
  function PostAll(t: Table, bodies: seq<Body>): Table {
    if bodies == [] then t else Post(PostAll(t, bodies[..|bodies| - 1]), bodies[|bodies| - 1], None).table
  }

  /** From an empty table, N valid bodies give N rows with ids 1 to N, each
      holding the fields of its body, in the order they were posted. */
  lemma {:induction false} PostAllFromEmpty(bodies: seq<Body>)
    requires forall i :: 0 <= i < |bodies| ==> HasRequiredFields(bodies[i])
    requires |bodies| <= MaxRowId
    ensures PostAll(EmptyTable, bodies).lastId == |bodies|
    ensures |PostAll(EmptyTable, bodies).rows| == |bodies|
    ensures forall i :: 0 <= i < |bodies| ==> PostAll(EmptyTable, bodies).rows[i] == RowOf(i + 1, bodies[i])
  {
    if bodies != [] {
      var init := bodies[..|bodies| - 1];
      PostAllFromEmpty(init);
      var t := PostAll(EmptyTable, init);
      assert PostAll(EmptyTable, bodies) == Post(t, bodies[|bodies| - 1], None).table;
    }
  }

  /** `GET` after N valid posts to an empty table lists N records, the i-th
      carrying id i + 1 and the fields of the i-th body. */
  lemma ListAfterPosts(bodies: seq<Body>)
    requires forall i :: 0 <= i < |bodies| ==> HasRequiredFields(bodies[i])
    requires |bodies| <= MaxRowId
    ensures Get(PostAll(EmptyTable, bodies), None).status == 200
    ensures |Get(PostAll(EmptyTable, bodies), None).body.elems| == |bodies|
    ensures forall i :: 0 <= i < |bodies| ==>
      Get(PostAll(EmptyTable, bodies), None).body.elems[i] == RowJson(RowOf(i + 1, bodies[i]))
  {
    PostAllFromEmpty(bodies);
  }

  // ------------------------------------------------------------ the table

  /** The `transactions` table as the server holds it. */
  class TransactionTable {
    var rows: seq<Row>
    var lastId: int

    function Value(): Table
      reads this
    {
      Table(rows, lastId)
    }

    ghost predicate Valid()
      reads this
    {
      WellFormed(Value())
    }

    constructor ()
      ensures Valid() && Value() == EmptyTable
    {
      rows := [];
      lastId := 0;
    }

    /** The table as found in an existing database file, which `CREATE TABLE
        IF NOT EXISTS` leaves with its rows and its `sqlite_sequence` entry. */
    constructor Open(existing: Table)
      requires WellFormed(existing)
      ensures Valid() && Value() == existing
    {
      rows := existing.rows;
      lastId := existing.lastId;
    }

    /** The `POST /transactions` handler. */
    method Create(body: Body, failure: Option<string>) returns (response: Response, log: Option<LogEntry>)
      requires Valid()
      modifies this
      ensures Valid()
      ensures Outcome(Value(), response, log) == Post(old(Value()), body, failure)
      ensures response.status == 201 ==> forall i :: 0 <= i < |old(rows)| ==> old(rows)[i].id < lastId
    {
      var kind, category, amount, date :=
        Field(body, "type"), Field(body, "category"), Field(body, "amount"), Field(body, "date");
      if !ToBoolean(kind) || !ToBoolean(category) || !ToBoolean(amount) || !ToBoolean(date) {
        return Response(400, ErrorBody(MissingFieldsMessage)), None;
      }
      if failure.Some? {
        return Response(500, ErrorBody(failure.value)), None;
      }
      if lastId >= MaxRowId {
        return Response(500, ErrorBody(FullMessage)), None;
      }
      lastId := lastId + 1;
      rows := rows + [Row(lastId, kind.value, category.value, amount.value, date.value)];
      var record := Record(lastId, kind.value, category.value, amount.value, date.value);
      log := Some(LogEntry(LogAction, record));
      response := Response(201, record);
    }

    /** The `GET /transactions` handler. */
    method List(failure: Option<string>) returns (response: Response)
      ensures response == Get(Value(), failure)
      ensures failure.None? ==> response.body == Arr(RowsJson(rows))
    {
      if failure.Some? {
        return Response(500, ErrorBody(failure.value));
      }
      response := Response(200, Arr(RowsJson(rows)));
    }
  }

  // --------------------------------------------------------------- scenarios

  /** A fresh table lists nothing. */
  method EmptyListScenario() returns (response: Response)
    ensures response == Response(200, Arr([]))
  {
    var table := new TransactionTable();
    response := table.List(None);
  }

  /** Two valid posts to a fresh table get ids 1 and 2, and a `GET` lists
      the two echoed records in that order. */
  method TwoPostsScenario(a: Body, b: Body) returns (first: Response, second: Response, listed: Response)
    requires HasRequiredFields(a) && HasRequiredFields(b)
    ensures first == Response(201, RowJson(RowOf(1, a)))
    ensures second == Response(201, RowJson(RowOf(2, b)))
    ensures listed == Response(200, Arr([first.body, second.body]))
  {
    var table := new TransactionTable();
    var log;
    first, log := table.Create(a, None);
    assert table.rows == [RowOf(1, a)];
    second, log := table.Create(b, None);
    assert table.rows == [RowOf(1, a), RowOf(2, b)];
    listed := table.List(None);
  }

  /** A post without an amount is refused and the table stays empty; a
      database error on a valid post leaves it empty too. */
  method RefusedPostsScenario() returns (missing: Response, failed: Response, listed: Response)
    ensures missing == Response(400, ErrorBody(MissingFieldsMessage))
    ensures failed == Response(500, ErrorBody("SQLITE_BUSY: database is locked"))
    ensures listed == Response(200, Arr([]))
  {
    var table := new TransactionTable();
    var log;
    missing, log := table.Create(map["type" := Str("Expense"), "category" := Str("Food"), "date" := Str("2025-05-01")], None);
    failed, log := table.Create(BodyOf(Str("Expense"), Str("Food"), Num(Finite(80.0)), Str("2025-05-01")),
      Some("SQLITE_BUSY: database is locked"));
    listed := table.List(None);
  }
}
