/**
 The database as the runner sees it: the `migrations` bookkeeping table and
 the log of migration queries that have taken effect.
 */
module Ledger {
  import opened Wrappers

  /** `table` is the list of names recorded in the `migrations` table, in
      insertion order, or None while the table does not exist; `effects` lists
      the migrations whose queries have been executed, in execution order. */
  datatype Db = Db(table: Option<seq<string>>, effects: seq<string>)

  /** The names recorded so far; a table that does not exist records nothing. */
  function Recorded(db: Db): seq<string> {
    if db.table.Some? then db.table.value else []
  }

  /** `CREATE TABLE IF NOT EXISTS migrations (...)`. */
  function CreateTable(db: Db): (r: Db)
    ensures r.table.Some?
    ensures Recorded(r) == Recorded(db)
    ensures r.effects == db.effects
    ensures db.table.Some? ==> r == db
  {
    if db.table.Some? then db else db.(table := Some([]))
  }

  /** Reference definition of what a run should apply: the names of the
      listing, in listing order, that are neither recorded already nor
      repeated from earlier in the listing. It is defined from the end of the
      listing, independently of how a run threads its state. */
  function Pending(recorded: seq<string>, names: seq<string>): seq<string>
    decreases |names|
  {
    if names == [] then []
    else
      var init := names[..|names| - 1];
      var last := names[|names| - 1];
      Pending(recorded, init) + (if last in recorded || last in init then [] else [last])
  }
}
