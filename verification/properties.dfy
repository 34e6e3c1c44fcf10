/**
 Properties of a run that relate several calls: the order in which names
 are recorded, the effect of the first failure, and re-running.
 */
module MigrationProperties {
  import opened Wrappers
  import opened Environment
  import opened Ledger
  import opened Migration

  /** Pending names never repeat, are never already recorded, and come from the listing. */
  lemma {:induction false} PendingIsFresh(recorded: seq<string>, names: seq<string>)
    decreases |names|
    ensures forall i :: 0 <= i < |Pending(recorded, names)| ==> Pending(recorded, names)[i] !in recorded
    ensures forall i :: 0 <= i < |Pending(recorded, names)| ==> Pending(recorded, names)[i] in names
    ensures forall i, j :: 0 <= i < j < |Pending(recorded, names)| ==> Pending(recorded, names)[i] != Pending(recorded, names)[j]
  {
    if names != [] {
      var init := names[..|names| - 1];
      PendingIsFresh(recorded, init);
    }
  }

  /** Every listed name is either recorded already or pending: after
      applying the pending names, the whole listing is recorded. */
  lemma {:induction false} PendingCoversListing(recorded: seq<string>, names: seq<string>)
    decreases |names|
    ensures forall i :: 0 <= i < |names| ==> names[i] in recorded + Pending(recorded, names)
  {
    if names != [] {
      var init := names[..|names| - 1];
      PendingCoversListing(recorded, init);
      forall i | 0 <= i < |names|
        ensures names[i] in recorded + Pending(recorded, names)
      {
        if i < |init| {
          assert names[i] == init[i];
        }
      }
    }
  }

  /** Reading the reference from the front of the listing: the first name is
      pending exactly when it is not recorded, and then it counts as recorded
      for the rest. */
  lemma {:induction false} PendingCons(recorded: seq<string>, n: string, ns: seq<string>)
    decreases |ns|
    ensures Pending(recorded, [n] + ns)
         == if n in recorded then Pending(recorded, ns) else [n] + Pending(recorded + [n], ns)
  {
    var whole := [n] + ns;
    if ns == [] {
      assert whole[..|whole| - 1] == [];
    } else {
      var ms, m := ns[..|ns| - 1], ns[|ns| - 1];
      PendingCons(recorded, n, ms);
      var tail := if m in recorded || m in [n] + ms then [] else [m];
      assert Pending(recorded, whole) == Pending(recorded, [n] + ms) + tail by {
        assert whole[..|whole| - 1] == [n] + ms;
        assert whole[|whole| - 1] == m;
      }
      if n in recorded {
        assert tail == if m in recorded || m in ms then [] else [m];
      } else {
        var rest := Pending(recorded + [n], ms);
        assert tail == if m in recorded + [n] || m in ms then [] else [m];
        assert Pending(recorded + [n], ns) == rest + tail;
        assert [n] + rest + tail == [n] + (rest + tail);
      }
    }
  }

  /** A loop that is not halted records exactly the pending names, in listing
      order, and executes exactly those queries. */
  lemma {:induction false} RunFilesRecordsPending(ledger: seq<string>, effects: seq<string>, files: seq<Entry>)
    decreases |files|
    requires RunFiles(ledger, effects, files).halt.None?
    ensures RunFiles(ledger, effects, files).ledger == ledger + Pending(ledger, Names(files))
    ensures RunFiles(ledger, effects, files).effects == effects + Pending(ledger, Names(files))
  {
    if files != [] {
      var f, rest := files[0], files[1..];
      var s := ProcessFile(ledger, effects, f);
      var head := if f.name in ledger then [] else [f.name];
      var p := Pending(s.ledger, Names(rest));
      assert s.ledger == ledger + head && s.effects == effects + head;
      assert Pending(ledger, Names(files)) == head + p by {
        assert Names(files) == [f.name] + Names(rest);
        PendingCons(ledger, f.name, Names(rest));
      }
      assert RunFiles(ledger, effects, files) == RunFiles(s.ledger, s.effects, rest);
      RunFilesRecordsPending(s.ledger, s.effects, rest);
      assert ledger + head + p == ledger + (head + p);
      assert effects + head + p == effects + (head + p);
    }
  }

  /** Running a listing in two pieces is running it whole: the second piece
      is only reached when the first one did not halt. */
  lemma {:induction false} RunFilesAppend(ledger: seq<string>, effects: seq<string>, a: seq<Entry>, b: seq<Entry>)
    decreases |a|
    ensures RunFiles(ledger, effects, a + b)
         == var ra := RunFiles(ledger, effects, a);
            if ra.halt.Some? then ra else RunFiles(ra.ledger, ra.effects, b)
  {
    if a == [] {
      assert a + b == b;
    } else {
      var s := ProcessFile(ledger, effects, a[0]);
      assert (a + b)[0] == a[0];
      assert (a + b)[1..] == a[1..] + b;
      if s.halt.None? {
        RunFilesAppend(s.ledger, s.effects, a[1..], b);
      }
    }
  }

  /** Once a loop has halted, later files make no difference: they are not
      read, executed or recorded. */
  lemma HaltIgnoresLaterFiles(ledger: seq<string>, effects: seq<string>, files: seq<Entry>, later: seq<Entry>)
    requires RunFiles(ledger, effects, files).halt.Some?
    ensures RunFiles(ledger, effects, files + later) == RunFiles(ledger, effects, files)
  {
    RunFilesAppend(ledger, effects, files, later);
  }

  /** The first failing file stops the run: the files before it stay applied
      and recorded, the failing file is not recorded, and its query has taken
      effect only when the INSERT was what failed. */
  lemma FirstFailureStops(ledger: seq<string>, effects: seq<string>, before: seq<Entry>, f: Entry)
    requires RunFiles(ledger, effects, before).halt.None?
    requires f.faults.read || f.faults.check
          || (f.name !in ledger + Pending(ledger, Names(before)) && (f.faults.query || f.faults.insert))
    ensures RunFiles(ledger, effects, before + [f]).halt.Some?
    ensures AboutFile(RunFiles(ledger, effects, before + [f]).halt.value, f.name)
    ensures RunFiles(ledger, effects, before + [f]).ledger == ledger + Pending(ledger, Names(before))
    ensures RunFiles(ledger, effects, before + [f]).effects
         == effects + Pending(ledger, Names(before)) + (if f.faults.read || f.faults.check || f.faults.query then [] else [f.name])
  {
    RunFilesRecordsPending(ledger, effects, before);
    var rb := RunFiles(ledger, effects, before);
    assert RunFiles(rb.ledger, rb.effects, [f]) == ProcessFile(rb.ledger, rb.effects, f);
    RunFilesAppend(ledger, effects, before, [f]);
  }

  /** Re-running a listing whose names are all recorded, with every file
      readable and every lookup answered, executes nothing and records nothing. */
  lemma {:induction false} RerunFilesIsNoOp(ledger: seq<string>, effects: seq<string>, files: seq<Entry>)
    decreases |files|
    requires forall i :: 0 <= i < |files| ==> files[i].name in ledger
    requires forall i :: 0 <= i < |files| ==> !files[i].faults.read && !files[i].faults.check
    ensures RunFiles(ledger, effects, files) == Step(ledger, effects, None)
  {
    if files != [] {
      assert files[0].name in ledger;
      RerunFilesIsNoOp(ledger, effects, files[1..]);
    }
  }

  /** Re-running a listing whose names are all recorded executes nothing and
      records nothing, whatever fails along the way: a halt on an unreadable
      or unlooked-up file leaves the ledger and the executed migrations as
      they were. */
  lemma {:induction false} RerunFilesChangesNothing(ledger: seq<string>, effects: seq<string>, files: seq<Entry>)
    decreases |files|
    requires forall i :: 0 <= i < |files| ==> files[i].name in ledger
    ensures RunFiles(ledger, effects, files).ledger == ledger
    ensures RunFiles(ledger, effects, files).effects == effects
  {
    if files != [] {
      assert files[0].name in ledger;
      RerunFilesChangesNothing(ledger, effects, files[1..]);
    }
  }

  /** A run that completes without a failure appends the pending names to
      the ledger table, creating the table first if needed, and executes
      exactly those migrations, in the order the directory listing gave them. */
  lemma MigrateAppliesPendingInOrder(config: ConfigArg, env: Env, db: Db)
    requires env.listing.Some?
    requires Migrate(config, env, db).outcome == Resolved(None)
    ensures var pending := Pending(Recorded(db), Names(env.listing.value));
            Migrate(config, env, db).db == Db(Some(Recorded(db) + pending), db.effects + pending)
  {
    RunFilesRecordsPending(Recorded(db), db.effects, env.listing.value);
  }

  /** After a run that completed without a failure, every name of its
      listing is recorded. */
  lemma CompletedRunRecordsListing(config: ConfigArg, env: Env, db: Db)
    requires env.listing.Some?
    requires Migrate(config, env, db).outcome == Resolved(None)
    ensures Migrate(config, env, db).db.table.Some?
    ensures forall n :: n in Names(env.listing.value) ==> n in Recorded(Migrate(config, env, db).db)
  {
    var names := Names(env.listing.value);
    var recorded := Recorded(Migrate(config, env, db).db);
    MigrateAppliesPendingInOrder(config, env, db);
    PendingCoversListing(Recorded(db), names);
    forall n | n in names
      ensures n in recorded
    {
      var k :| 0 <= k < |names| && names[k] == n;
    }
  }

  /** Idempotence, whatever the second run meets: after a run that completed
      without a failure, another run over the same names (or any of them)
      executes nothing and records nothing, even when it fails to connect,
      to create the table, to list the folder, or halts on an unreadable
      file or a failed lookup. */
  lemma MigrateTwiceChangesNothing(config: ConfigArg, env1: Env, env2: Env, db: Db)
    requires env1.listing.Some?
    requires Migrate(config, env1, db).outcome == Resolved(None)
    requires env2.listing.Some? ==>
               forall i :: 0 <= i < |env2.listing.value| ==> env2.listing.value[i].name in Names(env1.listing.value)
    ensures Migrate(config, env2, Migrate(config, env1, db).db).db == Migrate(config, env1, db).db
  {
    var r1 := Migrate(config, env1, db);
    CompletedRunRecordsListing(config, env1, db);
    if env2.listing.Some? {
      RerunFilesChangesNothing(Recorded(r1.db), r1.db.effects, env2.listing.value);
    }
  }

  /** Idempotence of a clean second run: when the second run connects,
      creates the table, and reads and looks up every file, it also
      completes without a failure (unless ending the client fails). */
  lemma MigrateTwiceIsNoOp(config: ConfigArg, env1: Env, env2: Env, db: Db)
    requires env1.listing.Some? && env2.listing.Some?
    requires Migrate(config, env1, db).outcome == Resolved(None)
    requires forall i :: 0 <= i < |env2.listing.value| ==> env2.listing.value[i].name in Names(env1.listing.value)
    requires !env2.connectFails && !env2.createFails
    requires forall i :: 0 <= i < |env2.listing.value| ==> !env2.listing.value[i].faults.read && !env2.listing.value[i].faults.check
    ensures var r1 := Migrate(config, env1, db);
            var r2 := Migrate(config, env2, r1.db);
            && r2.db == r1.db
            && r2.outcome == (if env2.endFails then Rejected(EndFailed) else Resolved(None))
  {
    var r1 := Migrate(config, env1, db);
    CompletedRunRecordsListing(config, env1, db);
    RerunFilesIsNoOp(Recorded(r1.db), r1.db.effects, env2.listing.value);
  }
}
