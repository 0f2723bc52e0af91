/** The `Migrate` object: its settings (step limit, skip list, goto
    version), the run state it keeps between calls (version, dirty flag,
    whether the migrations table exists), and the operations that read
    and advance that state against a directory and a database. */
module Migrator {
  import opened Errors
  import opened FileNames
  import opened Catalog
  import opened Planning
  import opened Backend
  import opened Engine

  class Migrate {
    const dir: Directory
    const db: Database
    var step: int
    var skip: seq<int>
    var gotov: int
    var version: int
    var dirty: bool
    var migrateTableExist: bool

    /** A fresh `Migrate` for a directory and a database, every setting and
        every piece of run state at its zero value. */
    constructor (dir: Directory, db: Database)
      ensures this.dir == dir && this.db == db
      ensures step == 0 && skip == [] && gotov == 0
      ensures version == 0 && !dirty && !migrateTableExist
    {
      this.dir := dir;
      this.db := db;
      step, skip, gotov := 0, [], 0;
      version, dirty, migrateTableExist := 0, false, false;
    }

    /** `Step`: limit the number of files the next runs visit (0: no limit). */
    method Step(n: int) returns (m: Migrate)
      modifies this`step
      ensures m == this && step == n
    {
      step := n;
      m := this;
    }

    /** `Skip`: versions that the next runs pass over without executing. */
    method Skip(versions: seq<int>) returns (m: Migrate)
      modifies this`skip
      ensures m == this && skip == versions
    {
      skip := versions;
      m := this;
    }

    /** The version `prepare` leaves in `m.version`, starting from `v0`
        against a database holding `store0`. */
    ghost function Loaded(v0: int, store0: Store): (v: int)
      reads db
      ensures TableCheck in db.failing || !store0.tableExists ==> v == v0
      ensures TableCheck !in db.failing && store0.tableExists ==> v == store0.version || v == 0
      ensures TableCheck !in db.failing && store0.tableExists && VersionRead !in db.failing ==> v == store0.version
    {
      if TableCheck !in db.failing && store0.tableExists then
        (if VersionRead in db.failing then 0 else store0.version)
      else v0
    }

    /** `prepare`: record whether the migrations table exists and, when it
        does, load the stored version. The stored dirty flag is read and
        dropped. `ok` is false where the source returns nil. */
    method Prepare() returns (ok: bool)
      modifies this
      ensures step == old(step) && skip == old(skip) && gotov == old(gotov) && dirty == old(dirty)
      ensures migrateTableExist == (TableCheck !in db.failing && db.store.tableExists)
      ensures ok == (TableCheck !in db.failing && (db.store.tableExists ==> VersionRead !in db.failing))
      ensures version == Loaded(old(version), db.store)
    {
      var err;
      migrateTableExist, err := db.CheckMigrateTableExist();
      if err.Some? {
        return false;
      }
      if migrateTableExist {
        var storedDirty;
        version, storedDirty, err := db.CurrentVersion();
        if err.Some? {
          return false;
        }
      }
      return true;
    }

    /** `getFilesUp` / `getFilesDown`: list the directory and keep, in
        listing order, the files of direction `d` inside the run's window. */
    method GetFiles(d: Direction) returns (r: Result<seq<File>>)
      ensures !dir.listable ==> r == Err(ReadDirFailed)
      ensures dir.listable ==> r == Ok(Candidates(dir.entries, d, version, gotov))
    {
      if !dir.listable {
        return Err(ReadDirFailed);
      }
      var files: seq<File> := [];
      for i := 0 to |dir.entries|
        invariant files == Candidates(dir.entries[..i], d, version, gotov)
      {
        var e := dir.entries[i];
        assert dir.entries[..i + 1] == dir.entries[..i] + [e];
        CandidatesSnoc(dir.entries[..i], e, d, version, gotov);
        if Contains(e.name, Marker(d)) {
          var fv := FileVersion(e.name);
          if fv.Err? {
            continue;
          }
          var v := fv.value;
          match d
          case Up =>
            if v > version && !(gotov != 0 && v > gotov) {
              files := files + [File(v, e.name)];
            }
          case Down =>
            if v <= version && !(gotov != 0 && v <= gotov) {
              files := files + [File(v, e.name)];
            }
        }
      }
      assert dir.entries[..|dir.entries|] == dir.entries;
      return Ok(files);
    }

    /** `migrateFromFile`: open and read one file, and execute its content
        unless it is empty or could not be read. */
    method MigrateFromFile(name: string) returns (err: Option<ErrorKind>)
      modifies db
      ensures match Migration(dir.entries, name, db.rejected)
        case Ran(script) =>
          err == None && db.store == old(db.store).(executed := old(db.store).executed + [script])
        case Ignored => err == None && db.store == old(db.store)
        case Failed(k) => err == Some(k) && db.store == old(db.store)
    {
      match Open(dir.entries, name)
      case Unopenable =>
        return Some(OpenFailed);
      case Unreadable =>
        return None;
      case Text(body) =>
        if body == "" {
          return None;
        }
        err := db.ExecMigration(body);
    }

    /** `complete`: persist the run's version and dirty flag, creating the
        migrations table first when `prepare` found it missing. */
    method Complete() returns (err: Option<ErrorKind>)
      modifies db
      ensures (db.store, err) == Persist(old(db.store), db.failing, migrateTableExist, version, dirty)
    {
      var schemaExists;
      schemaExists, err := db.CheckSchemaExist();
      if err.Some? {
        return;
      }
      if !migrateTableExist {
        err := db.CreateMigrateTable();
        if err.Some? {
          return;
        }
      }
      err := db.UpdateMigrateTable(version, dirty);
    }

    /** The loop of `runUp` / `runDown` over the truncated plan: skip the
        versions in the skip list, migrate the others in order, advance the
        version after each success, and set the dirty flag and stop at the
        first failure. */
    method Visit(plan: seq<File>, d: Direction)
      modifies this, db
      ensures step == old(step) && skip == old(skip) && gotov == old(gotov)
      ensures migrateTableExist == old(migrateTableExist)
      ensures db.store == old(db.store).(executed := db.store.executed)
      ensures Progress(version, dirty, db.store.executed)
           == Run(plan, Env(skip, dir.entries, db.rejected, d), Progress(old(version), old(dirty), old(db.store).executed))
    {
      ghost var env := Env(skip, dir.entries, db.rejected, d);
      ghost var target := Run(plan, env, Progress(version, dirty, db.store.executed));
      ghost var store0 := db.store;
      var i := 0;
      while i < |plan|
        invariant 0 <= i <= |plan|
        invariant step == old(step) && skip == old(skip) && gotov == old(gotov)
        invariant migrateTableExist == old(migrateTableExist)
        invariant db.store == store0.(executed := db.store.executed)
        invariant Run(plan[i..], env, Progress(version, dirty, db.store.executed)) == target
      {
        var f := plan[i];
        assert plan[i..] == [f] + plan[i + 1..];
        var skipped := SkipStep(f.version, skip);
        if skipped {
          i := i + 1;
          continue;
        }
        var failure := MigrateFromFile(f.name);
        if failure.Some? {
          dirty := true;
          break;
        }
        version := Reached(f, d);
        i := i + 1;
      }
    }

    /** What `runUp` (d = Up) or `runDown` (d = Down) did, starting from
        version `v0`, dirty flag `dirty0` and database contents `store0`,
        given the order `sorted` in which the sort put the candidates. */
    ghost predicate RanFrom(d: Direction, v0: int, dirty0: bool, store0: Store,
                            sorted: seq<File>, err: Option<ErrorKind>)
      reads this, db
    {
      var candidates := Candidates(dir.entries, d, v0, gotov);
      if !dir.listable then
        err == Some(ReadDirFailed) && version == v0 && dirty == dirty0 && db.store == store0
      else if candidates == [] then
        err == None && version == v0 && dirty == dirty0 && db.store == store0
      else
        && Ordered(sorted, d)
        && multiset(sorted) == multiset(candidates)
        && 0 <= MaxStep(|candidates|, step) <= |sorted|
        && var p := Run(sorted[..MaxStep(|candidates|, step)], Env(skip, dir.entries, db.rejected, d),
                        Progress(v0, dirty0, store0.executed));
           && version == p.version
           && dirty == p.dirty
           && (db.store, err) == Persist(store0.(executed := p.executed), db.failing,
                                         migrateTableExist, p.version, p.dirty)
    }

    /** `runUp` / `runDown`: select, sort, truncate to the step limit, visit
        the files in order until the first failure, then persist. */
    method RunMigrations(d: Direction) returns (err: Option<ErrorKind>, ghost sorted: seq<File>)
      requires step >= 0
      modifies this, db
      ensures step == old(step) && skip == old(skip) && gotov == old(gotov)
      ensures migrateTableExist == old(migrateTableExist)
      ensures RanFrom(d, old(version), old(dirty), old(db.store), sorted, err)
    {
      sorted := [];
      var listed := GetFiles(d);
      if listed.Err? {
        return Some(listed.kind), sorted;
      }
      var files := listed.value;
      if |files| == 0 {
        return None, sorted;
      }
      var n := MaxStep(|files|, step);
      var ordered := Sort(files, d);
      sorted := ordered;
      assert |ordered| == |multiset(ordered)| == |multiset(files)| == |files|;
      var plan := ordered[..n];
      Visit(plan, d);
      err := Complete();
    }

    /** The outcome of `m.prepare().runUp()` / `m.prepare().runDown()` from
        version `v0`, dirty flag `dirty0` and database contents `store0`. */
    ghost predicate PreparedAndRan(d: Direction, v0: int, dirty0: bool, store0: Store,
                                   sorted: seq<File>, err: Option<ErrorKind>)
      reads this, db
    {
      if TableCheck in db.failing || (store0.tableExists && VersionRead in db.failing) then
        && err == Some(NotPrepared)
        && migrateTableExist == (TableCheck !in db.failing && store0.tableExists)
        && version == Loaded(v0, store0)
        && dirty == dirty0
        && db.store == store0
      else
        && migrateTableExist == store0.tableExists
        && RanFrom(d, Loaded(v0, store0), dirty0, store0, sorted, err)
    }

    /** `prepare` followed by `runUp` or `runDown`; a failed `prepare` ends
        the call with an error before anything is listed or written. */
    method PrepareAndRun(d: Direction) returns (err: Option<ErrorKind>, ghost sorted: seq<File>)
      requires step >= 0
      modifies this, db
      ensures step == old(step) && skip == old(skip) && gotov == old(gotov)
      ensures PreparedAndRan(d, old(version), old(dirty), old(db.store), sorted, err)
    {
      var ok := Prepare();
      if !ok {
        return Some(NotPrepared), [];
      }
      err, sorted := RunMigrations(d);
    }

    /** `Up`: apply the pending up files. */
    method Up() returns (err: Option<ErrorKind>, ghost sorted: seq<File>)
      requires step >= 0
      modifies this, db
      ensures step == old(step) && skip == old(skip) && gotov == old(gotov)
      ensures PreparedAndRan(Direction.Up, old(version), old(dirty), old(db.store), sorted, err)
    {
      err, sorted := PrepareAndRun(Direction.Up);
    }

    /** `Down`: apply the down files at or below the current version. */
    method Down() returns (err: Option<ErrorKind>, ghost sorted: seq<File>)
      requires step >= 0
      modifies this, db
      ensures step == old(step) && skip == old(skip) && gotov == old(gotov)
      ensures PreparedAndRan(Direction.Down, old(version), old(dirty), old(db.store), sorted, err)
    {
      err, sorted := PrepareAndRun(Direction.Down);
    }

    /** `Goto`: remember the target, load the stored version, and run up
        when the target is above it, down when below, nothing when equal. */
    method Goto(target: int) returns (err: Option<ErrorKind>, ghost sorted: seq<File>)
      requires step >= 0
      modifies this, db
      ensures gotov == target && step == old(step) && skip == old(skip)
      ensures TableCheck in db.failing ==>
        && err == Some(CheckMigrateTableExistFailed) && migrateTableExist == old(migrateTableExist)
        && version == old(version) && dirty == old(dirty) && db.store == old(db.store)
      ensures TableCheck !in db.failing && old(db.store).tableExists && VersionRead in db.failing ==>
        && err == Some(CurrentVersionFailed) && migrateTableExist == old(migrateTableExist)
        && version == 0 && dirty == old(dirty) && db.store == old(db.store)
      ensures TableCheck !in db.failing && !(old(db.store).tableExists && VersionRead in db.failing) ==>
        var loaded := Loaded(old(version), old(db.store));
        && (target == loaded ==>
              && err == None && migrateTableExist == old(migrateTableExist)
              && version == loaded && dirty == old(dirty) && db.store == old(db.store))
        && (target > loaded ==> PreparedAndRan(Direction.Up, loaded, old(dirty), old(db.store), sorted, err))
        && (target < loaded ==> PreparedAndRan(Direction.Down, loaded, old(dirty), old(db.store), sorted, err))
    {
      sorted := [];
      gotov := target;
      var tableExist;
      tableExist, err := db.CheckMigrateTableExist();
      if err.Some? {
        return;
      }
      if tableExist {
        var storedDirty;
        version, storedDirty, err := db.CurrentVersion();
        if err.Some? {
          return;
        }
      }
      if target == version {
        return;
      }
      if target > version {
        err, sorted := PrepareAndRun(Direction.Up);
      } else {
        err, sorted := PrepareAndRun(Direction.Down);
      }
    }

    /** `Version`: run `prepare` and report the version it leaves. */
    method Version() returns (v: int)
      modifies this
      ensures v == version
      ensures version == Loaded(old(version), db.store)
      ensures migrateTableExist == (TableCheck !in db.failing && db.store.tableExists)
      ensures step == old(step) && skip == old(skip) && gotov == old(gotov) && dirty == old(dirty)
    {
      var ok := Prepare();
      v := version;
    }
  }
}
