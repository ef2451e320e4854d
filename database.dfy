/** Model of the `urls` table of backend/src/db/database.ts, the store behind
    the shortening service. Only the two columns the service reads and writes
    are kept: `short_code`, which is declared UNIQUE, and `long_url`. Because
    short codes are unique, the table is a map from short code to long URL. */
module Database {

  /** What an `INSERT INTO urls` reports: the row was added, the UNIQUE
      constraint on `short_code` rejected it, or it failed for another
      reason (a disk or database fault). */
  datatype InsertResult = Ok | Duplicate | Other

  /** The outcome of inserting `shortCode` into a table holding `rows` when
      the environment does (`fault`) or does not make the write fail. */
  function InsertOutcome(rows: map<string, string>, shortCode: string, fault: bool): (r: InsertResult)
    ensures r.Ok? <==> !fault && shortCode !in rows
    ensures r.Duplicate? <==> !fault && shortCode in rows
  {
    if fault then Other
    else if shortCode in rows then Duplicate
    else Ok
  }

  class UrlTable {
    /** The table's rows, keyed by `short_code`. */
    var rows: map<string, string>
    /** The `short_code` of every INSERT issued against the table, in order,
        whether or not it succeeded. */
    ghost var insertLog: seq<string>

    /** Opening the database runs `CREATE TABLE IF NOT EXISTS`: rows already
        stored survive. */
    constructor Open(existing: map<string, string>)
      ensures rows == existing && insertLog == []
    {
      rows := existing;
      insertLog := [];
    }

    /** `INSERT INTO urls (short_code, long_url) VALUES (?, ?)`. A row is added
        only when the write does not fault and the code is new; a stored row
        is never replaced or removed. */
    method Insert(shortCode: string, longUrl: string, fault: bool) returns (r: InsertResult)
      modifies this
      ensures r == InsertOutcome(old(rows), shortCode, fault)
      ensures rows == if r.Ok? then old(rows)[shortCode := longUrl] else old(rows)
      ensures forall c :: c in old(rows) ==> c in rows && rows[c] == old(rows)[c]
      ensures insertLog == old(insertLog) + [shortCode]
    {
      r := InsertOutcome(rows, shortCode, fault);
      if r.Ok? {
        rows := rows[shortCode := longUrl];
      }
      insertLog := insertLog + [shortCode];
    }

    /** `SELECT long_url FROM urls WHERE short_code = ?`: the matching rows'
        long URLs. Since `short_code` is unique there is at most one. */
    method SelectLongUrl(shortCode: string) returns (result: seq<string>)
      ensures |result| <= 1
      ensures |result| == 1 <==> shortCode in rows
      ensures |result| == 1 ==> result[0] == rows[shortCode]
    {
      if shortCode in rows {
        result := [rows[shortCode]];
      } else {
        result := [];
      }
    }
  }
}
