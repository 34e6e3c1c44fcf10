# pg-simple-migrate: the migration runner as a pure model

`migrate(options)` in `src/migrate.ts` connects to PostgreSQL, makes sure the
`migrations` bookkeeping table exists, and walks the entries of the migration
folder in the order the directory listing returns them. For each entry it reads
the file, asks the `migrations` table whether the name is recorded, and either
skips it or runs the file's text as a query and then inserts the name. The first
rejected call ends the loop; the error is logged and swallowed, and the client
is ended in a `finally`.

This project models that algorithm in Dafny as pure functions:

- `Environment` holds the inputs: the `config` option (`undefined`, a
  connection string, or a config object, with JavaScript truthiness), the
  directory listing as a sequence of entries, and one failure flag for every
  awaited call (`connect`, `CREATE TABLE`, `readdir`, and per file `readFile`,
  the ledger `SELECT`, the migration query, the `INSERT`, and finally `end`).
- `Ledger` holds the database state the runner can observe: the `migrations`
  table (absent, or the names recorded in insertion order) and a log of executed
  migration queries. It also gives `Pending`, an independent reference for which
  names a run should apply.
- `Migration` is the run: `ProcessFile` (one loop iteration), `RunFiles` (the
  loop), `Body` (the `try` block) and `Migrate` (the whole function).
- `MigrationProperties` proves the properties that relate several runs or
  pieces of a listing: ordering, abort on first failure, idempotence.

The code has no transaction, does not continue past a failed file, does not
sort the listing, and has no namespace or run report; the model follows the code:

- There is no transaction. When the query succeeds and the `INSERT` fails, the
  migration has taken effect but is not recorded, and a later run executes it again.
- The file is read before the ledger lookup, so an unreadable file stops the run
  even when its name is already recorded.
- The listing is used in the order given; nothing is sorted.
- The first failure stops the run; later files are not read, run or recorded.
- Only a missing config (`undefined` or `""`) and a failing `client.end()` make
  the returned promise reject. A failed connect resolves after logging, without
  ending the client; every other failure is logged and resolves after `end()`.
- There is no namespace: the table is `migrations` in the default schema.
- The `migrations.name` column has no uniqueness constraint; the runner itself
  never inserts a name that is already recorded.

## Model

| member | source | states |
|---|---|---|
| Migration.ProcessFile | src/migrate.ts:39-53 | a file is read before the lookup, so a read failure halts even a recorded file; a recorded file is skipped (not executed, not re-recorded); otherwise at most its own name is executed and then appended; the loop continues exactly when every call for the file succeeded; the logged cause is the first call that failed, in the order read, lookup, query, INSERT; a failed query leaves nothing executed, and the only partial state is an executed query left unrecorded after a failed INSERT |
| Migration.RunFiles | src/migrate.ts:38-54 | the ledger only grows at its end; the executed migrations are exactly the newly recorded ones, in the same order, plus the one whose INSERT failed; a name whose INSERT failed is not recorded |
| Migration.Body | src/migrate.ts:26-58 | after connecting, nothing recorded or executed is undone; a failing CREATE TABLE stops before the listing with nothing changed; otherwise the table exists afterwards; a failing readdir stops before the loop with nothing executed or recorded |
| Migration.Migrate | src/migrate.ts:13-62 | a falsy config (undefined or empty string), and only that, rejects with "No config provided" before a client exists or the database changes; a failed connect resolves with nothing changed; without a connection nothing changes; once connected the client is always ended; after connecting only a failing end() rejects, every other error is swallowed; records are never removed and executed queries stay executed |
| Ledger.CreateTable | src/migrate.ts:28-34 | afterwards the table exists; an existing table, its records and the executed migrations are left as they were |
| MigrationProperties.PendingIsFresh | src/migrate.ts:43-50 | the names a run applies are not recorded already, appear in the listing, and are pairwise distinct, so the runner never records a name twice |
| MigrationProperties.PendingCoversListing | src/migrate.ts:38-53 | every listed name is recorded already or pending, so a run that applies the pending names leaves the whole listing recorded |
| MigrationProperties.PendingCons | src/migrate.ts:43-53 | the reference read from the front: the first listed name is applied exactly when it is not recorded, and afterwards counts as recorded for the rest of the listing |
| MigrationProperties.RunFilesRecordsPending | src/migrate.ts:36-54 | a loop that is not halted appends exactly the pending names to the ledger in listing order and executes exactly those queries in that order |
| MigrationProperties.RunFilesAppend | src/migrate.ts:38-54 | running a listing in two pieces equals running it whole: the second piece is reached only when the first did not halt |
| MigrationProperties.HaltIgnoresLaterFiles | src/migrate.ts:38-58 | once the loop has halted, files later in the listing make no difference: they are not read, executed or recorded |
| MigrationProperties.FirstFailureStops | src/migrate.ts:38-58 | at the first failing file (read, lookup, or for a pending file query or insert) the run halts naming that file; earlier files stay applied and recorded as the pending names in listing order; the failing file is not recorded, and its query has taken effect exactly when the INSERT was what failed |
| MigrationProperties.RerunFilesIsNoOp | src/migrate.ts:43-53 | a listing whose names are all recorded, with reads and lookups succeeding, executes nothing and records nothing |
| MigrationProperties.MigrateAppliesPendingInOrder | src/migrate.ts:26-56 | a run that completes without failure leaves the table holding the old records followed by the pending names in listing order, and has executed exactly those migrations in that order |
| MigrationProperties.RerunFilesChangesNothing | src/migrate.ts:38-53 | a listing whose names are all recorded executes and records nothing, even when the loop halts on an unreadable file or a failed lookup |
| MigrationProperties.CompletedRunRecordsListing | src/migrate.ts:26-56 | after a run that completed without failure the table exists and records every name of the listing |
| MigrationProperties.MigrateTwiceChangesNothing | src/migrate.ts:13-62 | after a run that completed without failure, any second run over the same names (or some of them) leaves the database unchanged, whatever fails in it |
| MigrationProperties.MigrateTwiceIsNoOp | src/migrate.ts:43-53 | after a run that completed without failure, a second run over the same names that connects, creates the table and reads and looks up every file leaves the database unchanged and resolves without a logged cause (or rejects only because end() failed) |

## Left out

- release.js: bumps the package version through the `semver` library, rewrites
  `package.json` and runs `npm publish`; it is foreign calls and process I/O
  and takes no part in migrating.
- The `pg` client, the SQL text and what a migration does to the schema: each
  call is an oracle that succeeds or fails. A failed migration query is modelled
  as having no effect; what PostgreSQL does with a partly applied
  multi-statement query is not modelled.
- A migration query that itself writes to the `migrations` table is not
  modelled; the model assumes only the runner's INSERT changes the ledger.
- The `VARCHAR(255)` width of `migrations.name`: a longer name makes the INSERT
  fail, which the per-file insert failure flag covers; it is not derived from the name.
- `new Client(config)` throwing on a malformed connection string, outside the
  `try` blocks: connection parameters are opaque to the model.
- `fs.readdir`, `fs.readFile` and `path.join`: the listing and the readability
  of each entry are inputs; `options.migrationFolder` is therefore not a
  parameter of the model.
- The `console.log` / `console.error` messages; the logged cause is kept as the
  `logged` field of a resolved outcome instead.
- The `id` and `timestamp` columns of `migrations`: only the recorded names and
  their order are modelled.
- Concurrent runners sharing one database: the model is one sequential run.
- Transactions, continuing past a failed file, sorting the listing, a
  configurable namespace and advisory locking: the code does none of these, so
  the model does not either.
