/** The deduplication store: the `domains` table with its UNIQUE `domain`
    column, seen as the set of domain strings it holds. */
module DedupStore {

  type Store = set<string>

  /** What one `INSERT OR IGNORE` reports back to the result processor. */
  datatype InsertOutcome =
    | Inserted   // a fresh row was created
    | Ignored    // the domain was already stored; nothing changed
    | Failed     // the statement returned an error; nothing changed

  datatype InsertResult = InsertResult(store: Store, outcome: InsertOutcome)

  /** Attempts to insert `d`. `fails` stands for a driver error on this
      statement (locked or unwritable database file), which is not a function
      of the domain and so is an input of the model. The outcome is the
      intended one: `Inserted` exactly when `d` was absent. */
  function TryInsert(s: Store, d: string, fails: bool): (r: InsertResult)
    ensures r.outcome == Failed <==> fails
    ensures r.outcome == Inserted <==> !fails && d !in s
    ensures r.outcome == Ignored <==> !fails && d in s
    ensures r.outcome == Failed ==> r.store == s
    ensures r.outcome != Failed ==> r.store == s + {d} && d in r.store
    ensures s <= r.store
  {
    if fails then InsertResult(s, Failed)
    else if d in s then InsertResult(s, Ignored)
    else InsertResult(s + {d}, Inserted)
  }

  /** Inserting the same domain twice in a row reports a fresh row at most
      once, and the second successful attempt is always ignored. */
  lemma InsertTwiceInsertsOnce(s: Store, d: string, fails1: bool, fails2: bool)
    ensures var r1 := TryInsert(s, d, fails1);
            var r2 := TryInsert(r1.store, d, fails2);
            && !(r1.outcome == Inserted && r2.outcome == Inserted)
            && (r1.outcome != Failed && !fails2 ==> r2.outcome == Ignored && r2.store == r1.store)
  {
  }
}
