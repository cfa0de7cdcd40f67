/** The insert loop as the program writes it against the SQLite driver: a
    line counts as new when the statement's last-insert id is non-zero. The
    driver reports the connection's last inserted rowid, which an ignored
    `INSERT OR IGNORE` leaves as it was, so after one genuine insert every
    later duplicate on the same connection also looks new. This module
    models that reading and shows where it departs from the intended one in
    `DedupStore.TryInsert`. */
module SqliteDriver {
  import opened Sequences
  import opened DedupStore
  import opened ResultProcessor

  /** A connection to the `domains` table: the stored domains, the largest
      rowid handed out so far, and the rowid of the connection's most recent
      successful insert (0 until there is one). */
  datatype Connection = Connection(rows: Store, maxRowId: nat, lastInsertRowId: nat)

  /** A freshly opened connection; no insert has happened on it yet. */
  function Open(rows: Store, maxRowId: nat): Connection
  {
    Connection(rows, maxRowId, 0)
  }

  /** What `Exec` returns: an error, or a result whose last-insert id is the
      connection's last inserted rowid after the statement. */
  datatype ExecResult = ExecFailed | ExecDone(lastInsertId: nat)

  datatype Exec = Exec(conn: Connection, result: ExecResult)

  /** `INSERT OR IGNORE INTO domains (domain) VALUES (d)`. A new row gets the
      next rowid, which becomes the connection's last inserted rowid; an
      ignored row changes nothing, so the previous rowid is reported again. */
  function InsertOrIgnore(c: Connection, d: string, fails: bool): (e: Exec)
    ensures fails ==> e == Exec(c, ExecFailed)
    ensures !fails && d in c.rows ==> e == Exec(c, ExecDone(c.lastInsertRowId))
    ensures !fails && d !in c.rows ==>
              && e.conn.rows == c.rows + {d}
              && e.result.ExecDone?
              && e.result.lastInsertId > c.maxRowId
              && e.conn.lastInsertRowId == e.result.lastInsertId
  {
    if fails then Exec(c, ExecFailed)
    else if d in c.rows then Exec(c, ExecDone(c.lastInsertRowId))
    else
      var id := c.maxRowId + 1;
      Exec(Connection(c.rows + {d}, id, id), ExecDone(id))
  }

  /** The program's test for a new domain. */
  predicate LooksNew(r: ExecResult)
  {
    r.ExecDone? && r.lastInsertId != 0
  }

  /** A statement passes the program's test exactly when it did not fail and
      either created a row or ran on a connection that had already inserted
      one; on a fresh connection the test is exact. */
  lemma LooksNewWhenInsertedOrStale(c: Connection, d: string, fails: bool)
    ensures LooksNew(InsertOrIgnore(c, d, fails).result)
            <==> !fails && (d !in c.rows || c.lastInsertRowId != 0)
    ensures c.lastInsertRowId == 0 ==>
              (LooksNew(InsertOrIgnore(c, d, fails).result) <==> !fails && d !in c.rows)
  {
  }

  datatype AsWritten = AsWritten(conn: Connection, newDomains: seq<string>)

  /** The insert loop over a result file with the program's test. The table
      ends as the intended scan leaves the store, and every domain the
      intended scan reports is reported here too, in the same order; this
      loop may report more. */
  function ScanAsWritten(c: Connection, lines: Lines, failing: Failures): (r: AsWritten)
    decreases |lines|
    ensures r.conn.rows == Scan(c.rows, lines, failing).store
    ensures IsSubsequence(Scan(c.rows, lines, failing).newDomains, r.newDomains)
  {
    if |lines| == 0 then
      EmptyIsSubsequence<string>([]);
      AsWritten(c, [])
    else
      var prefix := lines[..|lines| - 1];
      var d := lines[|lines| - 1];
      var prev := ScanAsWritten(c, prefix, failing);
      var intended := Scan(c.rows, prefix, failing).newDomains;
      if d == "" then
        prev
      else
        var e := InsertOrIgnore(prev.conn, d, |lines| - 1 in failing);
        if LooksNew(e.result) then
          var batch := prev.newDomains + [d];
          assert batch[..|batch| - 1] == prev.newDomains;
          assert (intended + [d])[..|intended|] == intended;
          AsWritten(e.conn, batch)
        else
          AsWritten(e.conn, prev.newDomains)
  }

  /** The departure, on a concrete file: one domain is already stored, and
      the result file lists a new domain followed by the stored one. The
      program reports both; the intended scan reports only the new one. */
  lemma AsWrittenReportsKnownDomain()
    ensures var known: Store := {"old.example.com"};
            var lines := ["new.example.com", "old.example.com"];
            && ScanAsWritten(Open(known, 1), lines, {}).newDomains == lines
            && Scan(known, lines, {}).newDomains == ["new.example.com"]
  {
    var known: Store := {"old.example.com"};
    var lines := ["new.example.com", "old.example.com"];
    assert lines[..1] == ["new.example.com"];
    assert lines[..1][..0] == [];
    var c := Open(known, 1);
    assert ScanAsWritten(c, [], {}) == AsWritten(c, []);
    var e1 := InsertOrIgnore(c, "new.example.com", false);
    assert e1 == Exec(Connection({"old.example.com", "new.example.com"}, 2, 2), ExecDone(2));
    var first := ScanAsWritten(c, lines[..1], {});
    assert first == AsWritten(e1.conn, ["new.example.com"]);
    var e2 := InsertOrIgnore(e1.conn, "old.example.com", false);
    assert e2.result == ExecDone(2);
  }

  /** The same departure breaks "no domain reported twice": a result file
      listing one new domain twice reports it twice. */
  lemma AsWrittenReportsTwice()
    ensures var lines := ["x.example.com", "x.example.com"];
            && ScanAsWritten(Open({}, 0), lines, {}).newDomains == lines
            && !NoDuplicates(lines)
  {
  }
}
