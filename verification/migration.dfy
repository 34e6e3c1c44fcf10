/**
 The `migrate` entry point: check the config, connect, create the ledger
 table, then walk the directory listing in the order given, skipping names
 already recorded and running and recording the others, until the listing is
 exhausted or the first awaited call rejects. There is no transaction: a
 migration whose query succeeded stays applied even when recording it fails.
 */
module Migration {
  import opened Wrappers
  import opened Environment
  import opened Ledger

  /** Why a run stopped early; every one of these is logged and swallowed. */
  datatype Cause =
    | ConnectFailed
    | CreateTableFailed
    | ReaddirFailed
    | ReadFailed(name: string)
    | CheckFailed(name: string)
    | QueryFailed(name: string)
    | InsertFailed(name: string)

  /** The errors the returned promise rejects with. */
  datatype Thrown = NoConfigProvided | EndFailed

  /** How the returned promise settles; a resolved run may carry the cause it logged. */
  datatype Outcome = Resolved(logged: Option<Cause>) | Rejected(error: Thrown)

  /** What became of the `pg` client by the time the run settled. */
  datatype ClientState = NotCreated | NotConnected | Ended

  datatype RunResult = RunResult(db: Db, client: ClientState, outcome: Outcome)

  /** What the `try` block leaves behind: the database and the cause it
      stopped on, if any. */
  datatype Attempt = Attempt(db: Db, logged: Option<Cause>)

  /** The state threaded through the per-file loop: the recorded names, the
      executed migrations, and the cause that halted the loop, if any. */
  datatype Step = Step(ledger: seq<string>, effects: seq<string>, halt: Option<Cause>)

  /** True when `c` is a failure of one of the calls made for the file named `n`. */
  predicate AboutFile(c: Cause, n: string) {
    (c.ReadFailed? || c.CheckFailed? || c.QueryFailed? || c.InsertFailed?) && c.name == n
  }

  /** The executed migration a halt leaves unrecorded: the file whose query
      succeeded but whose INSERT failed. */
  function Unrecorded(halt: Option<Cause>): seq<string> {
    if halt.Some? && halt.value.InsertFailed? then [halt.value.name] else []
  }

  /** One iteration of the loop: read the file, look its name up in the
      ledger, and either skip it or run its query and then record it. */
  function ProcessFile(ledger: seq<string>, effects: seq<string>, f: Entry): (r: Step)
    // a file is read before the ledger is consulted: a read failure halts even a recorded file
    ensures f.faults.read ==> r == Step(ledger, effects, Some(ReadFailed(f.name)))
    // a recorded file that is read and looked up is skipped: not executed, not recorded again
    ensures f.name in ledger && !f.faults.check ==> r.ledger == ledger && r.effects == effects
    // at most this file's own name is appended, and only when it was not recorded
    ensures r.ledger == ledger || (f.name !in ledger && r.ledger == ledger + [f.name])
    ensures r.effects == effects || (f.name !in ledger && r.effects == effects + [f.name])
    // recorded only once executed
    ensures r.ledger != ledger ==> r.effects != effects
    // the loop carries on exactly when every call made for the file succeeded
    ensures r.halt.None? <==> !f.faults.read && !f.faults.check && (f.name in ledger || (!f.faults.query && !f.faults.insert))
    ensures r.halt.None? ==> f.name in r.ledger
    ensures r.halt.Some? ==> AboutFile(r.halt.value, f.name) && r.ledger == ledger
    // no rollback: the only partial state is a query that took effect with no record
    ensures r.effects != effects && r.halt.Some? ==> r.halt == Some(InsertFailed(f.name))
    // the logged cause is the call that failed, checked in the order the calls are made
    ensures !f.faults.read && f.faults.check ==> r == Step(ledger, effects, Some(CheckFailed(f.name)))
    ensures !f.faults.read && !f.faults.check && f.name !in ledger && f.faults.query
        ==> r == Step(ledger, effects, Some(QueryFailed(f.name)))
    ensures !f.faults.read && !f.faults.check && f.name !in ledger && !f.faults.query && f.faults.insert
        ==> r == Step(ledger, effects + [f.name], Some(InsertFailed(f.name)))
  {
    if f.faults.read then Step(ledger, effects, Some(ReadFailed(f.name)))
    else if f.faults.check then Step(ledger, effects, Some(CheckFailed(f.name)))
    else if f.name in ledger then Step(ledger, effects, None)
    else if f.faults.query then Step(ledger, effects, Some(QueryFailed(f.name)))
    else if f.faults.insert then Step(ledger, effects + [f.name], Some(InsertFailed(f.name)))
    else Step(ledger + [f.name], effects + [f.name], None)
  }

  /** The `for (const file of migrationFiles)` loop: the files in listing
      order, stopping at the first halt. */
  function RunFiles(ledger: seq<string>, effects: seq<string>, files: seq<Entry>): (r: Step)
    decreases |files|
    // the ledger only grows at its end
    ensures ledger <= r.ledger
    // executed = recorded, plus the one migration whose INSERT failed
    ensures r.effects == effects + r.ledger[|ledger|..] + Unrecorded(r.halt)
    // a migration whose INSERT failed is left unrecorded
    ensures r.halt.Some? && r.halt.value.InsertFailed? ==> r.halt.value.name !in r.ledger
  {
    if files == [] then Step(ledger, effects, None)
    else
      var s := ProcessFile(ledger, effects, files[0]);
      if s.halt.Some? then s
      else RunFiles(s.ledger, s.effects, files[1..])
  }

  /** The `try` block after connecting: create the ledger table, list the
      directory, run the loop. Any rejection ends the block. */
  function Body(env: Env, db: Db): (r: Attempt)
    ensures Recorded(db) <= Recorded(r.db)
    ensures db.effects <= r.db.effects
    // a failing CREATE TABLE stops before the listing, with nothing changed
    ensures env.createFails ==> r == Attempt(db, Some(CreateTableFailed))
    ensures !env.createFails ==> r.db.table.Some?
    // a failing readdir stops before the loop: nothing executed, nothing recorded
    ensures !env.createFails && env.listing.None?
        ==> Recorded(r.db) == Recorded(db) && r.db.effects == db.effects && r.logged == Some(ReaddirFailed)
  {
    if env.createFails then Attempt(db, Some(CreateTableFailed))
    else
      var created := CreateTable(db);
      match env.listing
      case None => Attempt(created, Some(ReaddirFailed))
      case Some(files) =>
        var s := RunFiles(created.table.value, created.effects, files);
        Attempt(Db(Some(s.ledger), s.effects), s.halt)
  }

  /** `migrate(options)`, with the listing of `options.migrationFolder` and
      every call's success given by `env`. */
  function Migrate(config: ConfigArg, env: Env, db: Db): (r: RunResult)
    // a missing config rejects before any client exists or the database is touched
    ensures (config == Undefined || config == ConnectionString("")) <==> r.outcome == Rejected(NoConfigProvided)
    ensures r.outcome == Rejected(NoConfigProvided) ==> r.client == NotCreated && r.db == db
    // a failed connect resolves, after logging, with nothing changed
    ensures Truthy(config) && env.connectFails ==> r == RunResult(db, NotConnected, Resolved(Some(ConnectFailed)))
    // without a connection the database is untouched
    ensures r.client != Ended ==> r.db == db
    // once connected, the client is ended on every path
    ensures Truthy(config) && !env.connectFails ==> r.client == Ended
    // errors after connecting are swallowed; only a failing end() rejects
    ensures r.client == Ended ==> (r.outcome.Rejected? <==> env.endFails)
    // records are never removed or rewritten, and executed queries stay executed
    ensures Recorded(db) <= Recorded(r.db)
    ensures db.effects <= r.db.effects
  {
    if !Truthy(config) then RunResult(db, NotCreated, Rejected(NoConfigProvided))
    else if env.connectFails then RunResult(db, NotConnected, Resolved(Some(ConnectFailed)))
    else
      var attempt := Body(env, db);
      RunResult(attempt.db, Ended, if env.endFails then Rejected(EndFailed) else Resolved(attempt.logged))
  }
}
