/**
 The world a run of `migrate` talks to, reduced to what the runner decides on:
 the `config` option it checks, and, for every awaited call into `pg` or `fs`,
 whether that call succeeds. Nothing here performs I/O; each failure is an input.
 */
module Environment {
  import opened Wrappers

  /** The `config` option: a connection string, a `pg` ClientConfig object, or undefined. */
  datatype ConfigArg = Undefined | ConnectionString(text: string) | ConfigObject

  /** JavaScript truthiness of the `config` option: `undefined` and the empty
      string are falsy, every object is truthy. */
  predicate Truthy(c: ConfigArg) {
    match c
    case Undefined => false
    case ConnectionString(s) => s != ""
    case ConfigObject => true
  }

  /** Which of the per-file awaited calls reject: reading the file, the
      SELECT against the ledger, the migration query itself, and the INSERT
      that records it. */
  datatype Faults = Faults(read: bool, check: bool, query: bool, insert: bool)

  /** One directory entry as returned by the listing: its name (the migration
      identifier) and how the calls made for it behave. */
  datatype Entry = Entry(name: string, faults: Faults)

  /** Run-level oracle: whether `client.connect()` rejects, whether the
      CREATE TABLE rejects, the directory listing (None when `readdir`
      rejects), and whether `client.end()` rejects. */
  datatype Env = Env(connectFails: bool, createFails: bool, listing: Option<seq<Entry>>, endFails: bool)

  /** The names of a listing, in listing order. */
  function Names(files: seq<Entry>): seq<string> {
    seq(|files|, i requires 0 <= i < |files| => files[i].name)
  }
}
