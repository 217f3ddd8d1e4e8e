/** `sqlValue` and `generateInsert` of scripts/data-loading/load-data-to-supabase.ts
    (load-data-direct.ts holds an identical copy): JSON rows rendered as batched
    `INSERT ... ON CONFLICT DO NOTHING;` statements. */
module SqlInsert {
  import opened Wrappers
  import opened Seqs
  import opened Strings
  import opened JsValue

  /** The two renderings delegated to the JavaScript runtime:
      `Number.prototype.toString` and `JSON.stringify`. */
  datatype Formatting = Formatting(numberText: real -> string, stringify: Value -> string)

  /** `s.replace(/'/g, "''")`. */
  function DoubleQuotes(s: string): (r: string)
    ensures |r| >= |s|
    decreases |s|
  {
    if |s| == 0 then ""
    else (if s[0] == '\'' then "''" else [s[0]]) + DoubleQuotes(s[1..])
  }

  /** A string as a single-quoted SQL literal. */
  function Quote(s: string): (r: string)
    ensures |r| >= 2 && r[0] == '\'' && r[|r| - 1] == '\''
  {
    "'" + DoubleQuotes(s) + "'"
  }

  /** The SQL lexer's reading of a literal's body (after the opening quote):
      `''` stands for one quote and a lone quote ends the literal. Yields the
      literal's value and the text after it. */
  function ScanBody(t: string): Option<(string, string)>
    decreases |t|
  {
    if |t| == 0 then None
    else if t[0] == '\'' then
      if |t| >= 2 && t[1] == '\'' then
        match ScanBody(t[2..])
        case None => None
        case Some(p) => Some(("'" + p.0, p.1))
      else Some(("", t[1..]))
    else
      match ScanBody(t[1..])
      case None => None
      case Some(p) => Some(([t[0]] + p.0, p.1))
  }

  function ScanLiteral(t: string): Option<(string, string)> {
    if |t| > 0 && t[0] == '\'' then ScanBody(t[1..]) else None
  }

  lemma {:induction false} ScanBodyDoubled(s: string, rest: string)
    requires |rest| == 0 || rest[0] != '\''
    ensures ScanBody(DoubleQuotes(s) + "'" + rest) == Some((s, rest))
    decreases |s|
  {
    if |s| == 0 {
      assert DoubleQuotes(s) + "'" + rest == "'" + rest;
    } else {
      ScanBodyDoubled(s[1..], rest);
      if s[0] == '\'' {
        ScanDoubledQuote(s, rest);
      } else {
        ScanPlainChar(s, rest);
      }
    }
  }

  /** A doubled quote at the front reads back as one quote. */
  lemma ScanDoubledQuote(s: string, rest: string)
    requires |s| > 0 && s[0] == '\''
    requires ScanBody(DoubleQuotes(s[1..]) + "'" + rest) == Some((s[1..], rest))
    ensures ScanBody(DoubleQuotes(s) + "'" + rest) == Some((s, rest))
  {
    var t := DoubleQuotes(s) + "'" + rest;
    var tail := DoubleQuotes(s[1..]) + "'" + rest;
    assert t == "''" + tail;
    assert t[2..] == tail;
    assert s == [s[0]] + s[1..];
  }

  /** Any other character at the front reads back as itself. */
  lemma ScanPlainChar(s: string, rest: string)
    requires |s| > 0 && s[0] != '\''
    requires ScanBody(DoubleQuotes(s[1..]) + "'" + rest) == Some((s[1..], rest))
    ensures ScanBody(DoubleQuotes(s) + "'" + rest) == Some((s, rest))
  {
    var t := DoubleQuotes(s) + "'" + rest;
    var tail := DoubleQuotes(s[1..]) + "'" + rest;
    assert t == [s[0]] + tail;
    assert t[1..] == tail;
    assert s == [s[0]] + s[1..];
  }

  /** The quoting round-trip: a lexer reading the literal back recovers the
      string exactly and stops at its closing quote, whatever follows (as long
      as it does not itself start with a quote). No value can end the literal
      early. */
  lemma QuoteRoundTrip(s: string, rest: string)
    requires |rest| == 0 || rest[0] != '\''
    ensures ScanLiteral(Quote(s) + rest) == Some((s, rest))
  {
    ScanBodyDoubled(s, rest);
    assert (Quote(s) + rest)[1..] == DoubleQuotes(s) + "'" + rest;
  }

  /** `sqlValue(value)` for the values `JSON.parse` produces, and `undefined`. */
  function SqlValue(fmt: Formatting, v: Value): string {
    match v
    case Undefined => "NULL"
    case Null => "NULL"
    case Bool(b) => if b then "TRUE" else "FALSE"
    case Number(n) => fmt.numberText(n)
    case Str(s) => Quote(s)
    case _ => Quote(fmt.stringify(v)) + "::jsonb"
  }

  /** `null` and `undefined` are `NULL`, booleans are `TRUE`/`FALSE`, a
      string reads back as itself, an object or array as its JSON text cast
      to `jsonb`. */
  lemma SqlValueSpec(fmt: Formatting, v: Value)
    ensures SqlValue(fmt, v) == "NULL" <== v.Undefined? || v.Null?
    ensures v.Bool? ==> SqlValue(fmt, v) == (if v.b then "TRUE" else "FALSE")
    ensures v.Str? ==> ScanLiteral(SqlValue(fmt, v)) == Some((v.s, ""))
    ensures IsObject(v) ==> var t := SqlValue(fmt, v);
      |t| >= 7 && t[|t| - 7..] == "::jsonb" && ScanLiteral(t) == Some((fmt.stringify(v), "::jsonb"))
  {
    if v.Str? {
      QuoteRoundTrip(v.s, "");
      assert Quote(v.s) + "" == Quote(v.s);
    }
    if IsObject(v) {
      QuoteRoundTrip(fmt.stringify(v), "::jsonb");
    }
  }

  /** One row's tuple: `()` for a row that is not an object, otherwise the
      row's value (or `NULL`) for each column, in column order. */
  function Tuple(fmt: Formatting, columns: seq<string>, row: Value): string {
    if !IsObject(row) then "()"
    else "(" + Join(Map(columns, (c: string) => SqlValue(fmt, Property(row, c))), ", ") + ")"
  }

  /** The text that closes every statement. */
  const OnConflict: string := "\nON CONFLICT DO NOTHING;"

  /** One `INSERT` for a batch of rows. */
  function Statement(fmt: Formatting, table: string, columns: seq<string>, batch: seq<Value>): (r: string)
    ensures |r| >= |OnConflict| && r[|r| - |OnConflict|..] == OnConflict
    ensures |r| >= 12 && r[..12] == "INSERT INTO "
  {
    var values := Join(Map(batch, (row: Value) => Tuple(fmt, columns, row)), ",\n    ");
    var r := "INSERT INTO " + table + " (" + Join(columns, ", ") + ")\nVALUES\n    " + values + OnConflict;
    assert r[|r| - |OnConflict|..] == OnConflict;
    r
  }

  /** The columns: the first row's keys, when the first row is a (truthy) object. */
  function Columns(rows: seq<Value>): Option<seq<string>> {
    if |rows| == 0 || !Truthy(rows[0]) || !IsObject(rows[0]) then None
    else Some(Keys(OwnEntries(rows[0])))
  }

  /** `generateInsert(tableName, rows, batchSize)`: nothing without a first
      object row, otherwise one statement per batch with the first row's keys
      as columns. A batch size of zero or less would never end the loop, so
      callers pass a positive one (100). */
  method GenerateInsert(fmt: Formatting, table: string, rows: seq<Value>, batchSize: nat) returns (inserts: seq<string>)
    requires batchSize > 0
    ensures Columns(rows).None? ==> inserts == []
    ensures Columns(rows).Some? ==>
      && |inserts| == |Chunks(rows, batchSize)| == CeilDiv(|rows|, batchSize)
      && forall j :: 0 <= j < |inserts| ==>
           inserts[j] == Statement(fmt, table, Columns(rows).value, Chunks(rows, batchSize)[j])
  {
    if |rows| == 0 { return []; }
    var firstRow := rows[0];
    if !Truthy(firstRow) || !IsObject(firstRow) { return []; }
    var columns := Keys(OwnEntries(firstRow));
    inserts := EmitBatches(rows, batchSize, (b: seq<Value>) => Statement(fmt, table, columns, b));
  }

  /** The loop `for (i = 0; i < rows.length; i += batchSize)`, one statement
      per slice `rows.slice(i, i + batchSize)`. */
  method EmitBatches<T>(rows: seq<T>, batchSize: nat, statement: seq<T> -> string) returns (inserts: seq<string>)
    requires batchSize > 0
    ensures |inserts| == |Chunks(rows, batchSize)|
    ensures forall j :: 0 <= j < |inserts| ==> inserts[j] == statement(Chunks(rows, batchSize)[j])
  {
    inserts := [];
    ghost var done: seq<seq<T>> := [];
    var i := 0;
    while i < |rows|
      invariant 0 <= i <= |rows|
      invariant Chunks(rows, batchSize) == done + Chunks(rows[i..], batchSize)
      invariant inserts == Map(done, statement)
      decreases |rows| - i
    {
      var end := if i + batchSize <= |rows| then i + batchSize else |rows|;
      var batch := rows[i..end];
      NextChunk(rows, i, batchSize, done);
      MapSnoc(done, batch, statement);
      inserts := inserts + [statement(batch)];
      done := done + [batch];
      i := end;
    }
    NoChunkLeft(rows, batchSize, done);
  }

  /** Columns come from the first row alone: a later object row that lacks a
      column renders `NULL` there, and a non-object row renders `()`. */
  lemma TupleMissingColumn(fmt: Formatting, columns: seq<string>, row: Value, j: nat)
    requires j < |columns| && IsObject(row) && columns[j] !in Keys(OwnEntries(row))
    ensures Map(columns, (c: string) => SqlValue(fmt, Property(row, c)))[j] == "NULL"
  {
  }
}
