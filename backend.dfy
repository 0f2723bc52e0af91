/** The database behind the `DBWorker` interface, as abstract state: whether
    the `pg_migrations` table exists, the version and dirty flag of its row,
    and the statement batches executed so far. Which calls fail is fixed
    when the database is built: `failing` names the calls that return an
    error, `rejected` the scripts the server refuses to execute. */
module Backend {
  import opened Errors

  /** The `DBWorker` calls that can fail independently of their argument. */
  datatype Call = SchemaCheck | TableCheck | VersionRead | TableCreate | StateUpdate

  /** What the database holds. `version` and `dirty` are the columns of the
      single `pg_migrations` row; they mean nothing while `tableExists` is false. */
  datatype Store = Store(tableExists: bool, version: int, dirty: bool, executed: seq<string>)

  class Database {
    var store: Store
    const schemaExists: bool
    const failing: set<Call>
    const rejected: set<string>

    constructor (store: Store, schemaExists: bool, failing: set<Call>, rejected: set<string>)
      ensures this.store == store && this.schemaExists == schemaExists
      ensures this.failing == failing && this.rejected == rejected
    {
      this.store := store;
      this.schemaExists := schemaExists;
      this.failing := failing;
      this.rejected := rejected;
    }

    /** `CheckSchemaExist`: whether the current schema exists. */
    method CheckSchemaExist() returns (found: bool, err: Option<ErrorKind>)
      ensures SchemaCheck in failing ==> !found && err == Some(CheckSchemaExistFailed)
      ensures SchemaCheck !in failing ==> found == schemaExists && err == None
    {
      if SchemaCheck in failing {
        return false, Some(CheckSchemaExistFailed);
      }
      return schemaExists, None;
    }

    /** `CheckMigrateTableExist`: whether `pg_migrations` exists. */
    method CheckMigrateTableExist() returns (found: bool, err: Option<ErrorKind>)
      ensures TableCheck in failing ==> !found && err == Some(CheckMigrateTableExistFailed)
      ensures TableCheck !in failing ==> found == store.tableExists && err == None
    {
      if TableCheck in failing {
        return false, Some(CheckMigrateTableExistFailed);
      }
      return store.tableExists, None;
    }

    /** `CurrentVersion`: the stored row; zero values with an error when the
        call fails or there is no table to read. */
    method CurrentVersion() returns (version: int, dirty: bool, err: Option<ErrorKind>)
      ensures err == None <==> VersionRead !in failing && store.tableExists
      ensures err == None ==> version == store.version && dirty == store.dirty
      ensures err != None ==> version == 0 && !dirty && err == Some(CurrentVersionFailed)
    {
      if VersionRead in failing || !store.tableExists {
        return 0, false, Some(CurrentVersionFailed);
      }
      return store.version, store.dirty, None;
    }

    /** `CreateMigrateTable`: creates the table seeded with the row (0, false). */
    method CreateMigrateTable() returns (err: Option<ErrorKind>)
      modifies this
      ensures TableCreate in failing ==> err == Some(CreateMigrateTableFailed) && store == old(store)
      ensures TableCreate !in failing ==>
        err == None && store == old(store).(tableExists := true, version := 0, dirty := false)
    {
      if TableCreate in failing {
        return Some(CreateMigrateTableFailed);
      }
      store := store.(tableExists := true, version := 0, dirty := false);
      return None;
    }

    /** `UpdateMigrateTable`: overwrites the row; fails when there is no table. */
    method UpdateMigrateTable(version: int, dirty: bool) returns (err: Option<ErrorKind>)
      modifies this
      ensures StateUpdate in failing || !old(store).tableExists ==>
        err == Some(UpdateMigrateTableFailed) && store == old(store)
      ensures StateUpdate !in failing && old(store).tableExists ==>
        err == None && store == old(store).(version := version, dirty := dirty)
    {
      if StateUpdate in failing || !store.tableExists {
        return Some(UpdateMigrateTableFailed);
      }
      store := store.(version := version, dirty := dirty);
      return None;
    }

    /** `ExecMigration`: runs one script as a single statement batch. */
    method ExecMigration(script: string) returns (err: Option<ErrorKind>)
      modifies this
      ensures script in rejected ==> err == Some(ExecMigrationFailed) && store == old(store)
      ensures script !in rejected ==>
        err == None && store == old(store).(executed := old(store).executed + [script])
    {
      if script in rejected {
        return Some(ExecMigrationFailed);
      }
      store := store.(executed := store.executed + [script]);
      return None;
    }
  }
}
