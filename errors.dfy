/** Error kinds and the two result wrappers used throughout the model.
    A Go `error` that is either nil or not becomes `Option<ErrorKind>`;
    a Go `(T, error)` pair becomes `Result<T>`. */
module Errors {

  /** One kind per distinct failure the migration engine can see. */
  datatype ErrorKind =
    | CheckSchemaExistFailed        // DBWorker.CheckSchemaExist
    | CheckMigrateTableExistFailed  // DBWorker.CheckMigrateTableExist
    | CurrentVersionFailed          // DBWorker.CurrentVersion
    | CreateMigrateTableFailed      // DBWorker.CreateMigrateTable
    | UpdateMigrateTableFailed      // DBWorker.UpdateMigrateTable
    | ExecMigrationFailed           // DBWorker.ExecMigration
    | ReadDirFailed                 // the migrations directory cannot be listed
    | OpenFailed                    // a migration file cannot be opened
    | SyntaxError                   // strconv.Atoi: a character that is not a digit, or no digits
    | RangeError                    // strconv.Atoi: a value past the 64-bit range
    | BadFileName                   // fileVersion: the version prefix does not parse
    | NotPrepared                   // prepare failed, so the run has no receiver

  datatype Option<+T> = None | Some(value: T)

  datatype Result<+T> = Ok(value: T) | Err(kind: ErrorKind)
}
