/** What one run does, as specification functions: `migrateFromFile` for a
    single file, the visiting loop of `runUp` / `runDown` over a plan, and
    the bookkeeping of `complete`. The methods of `Migrator.Migrate` are
    proved against these. */
module Engine {
  import opened Errors
  import opened Catalog
  import opened Backend

  /** What the visiting loop reads besides the plan: the skip list, the
      directory entries (for file contents), the scripts the database
      rejects, and the direction. */
  datatype Env = Env(skip: seq<int>, entries: seq<Entry>, rejected: set<string>, d: Direction)

  /** The version recorded after `f` succeeds: its own version going up,
      one less going down. */
  function Reached(f: File, d: Direction): (v: int)
    ensures v == f.version || v == f.version - 1
    ensures d == Up ==> !InWindow(Up, f.version, v, 0) && InWindow(Down, f.version, v, 0)
    ensures d == Down ==> InWindow(Up, f.version, v, 0) && !InWindow(Down, f.version, v, 0)
  {
    match d
    case Up => f.version
    case Down => f.version - 1
  }

  /** `os.Open` of a listed name: the content of the first entry with that
      name, or an open failure when none has it. */
  function Open(entries: seq<Entry>, name: string): (c: Content)
    ensures (forall i :: 0 <= i < |entries| ==> entries[i].name != name) ==> c == Unopenable
    ensures c != Unopenable ==> exists i :: 0 <= i < |entries| && entries[i] == Entry(name, c)
    decreases |entries|
  {
    if entries == [] then Unopenable
    else if entries[0].name == name then entries[0].content
    else Open(entries[1..], name)
  }

  /** Opening a name gives the content of the first entry with that name. */
  lemma {:induction false} OpenFirstMatch(entries: seq<Entry>, i: int)
    requires 0 <= i < |entries|
    requires forall j :: 0 <= j < i ==> entries[j].name != entries[i].name
    ensures Open(entries, entries[i].name) == entries[i].content
    decreases i
  {
    if i > 0 {
      forall j | 0 <= j < i - 1 ensures entries[1..][j].name != entries[1..][i - 1].name {
        assert entries[1..][j] == entries[j + 1];
      }
      OpenFirstMatch(entries[1..], i - 1);
    }
  }

  /** The outcome of `migrateFromFile` for one file. `Ignored` is a nil
      error without executing anything. */
  datatype FileResult = Ran(script: string) | Ignored | Failed(kind: ErrorKind)

  function Migration(entries: seq<Entry>, name: string, rejected: set<string>): (r: FileResult)
    ensures r.Failed? <==> Open(entries, name).Unopenable?
                           || (Open(entries, name).Text? && Open(entries, name).body != ""
                               && Open(entries, name).body in rejected)
    ensures r.Failed? ==> r.kind == OpenFailed || r.kind == ExecMigrationFailed
    ensures r == Ignored <==> Open(entries, name).Unreadable? || Open(entries, name) == Text("")
    ensures r.Ran? ==> Open(entries, name) == Text(r.script) && r.script != "" && r.script !in rejected
  {
    match Open(entries, name)
    case Unopenable => Failed(OpenFailed)
    case Unreadable => Ignored
    case Text(body) =>
      if body == "" then Ignored
      else if body in rejected then Failed(ExecMigrationFailed)
      else Ran(body)
  }

  /** The in-memory state a run advances: `m.version`, `m.dirty`, and the
      scripts the database has executed. */
  datatype Progress = Progress(version: int, dirty: bool, executed: seq<string>)

  /** The visiting loop of `runUp` / `runDown` over an already sorted and
      truncated plan. */
  function Run(plan: seq<File>, env: Env, p: Progress): (q: Progress)
    ensures p.executed <= q.executed && |q.executed| <= |p.executed| + |plan|
    ensures p.dirty ==> q.dirty
    decreases |plan|
  {
    if plan == [] then p
    else
      var f := plan[0];
      if f.version in env.skip then Run(plan[1..], env, p)
      else match Migration(env.entries, f.name, env.rejected)
        case Failed(_) => p.(dirty := true)
        case Ignored => Run(plan[1..], env, p.(version := Reached(f, env.d)))
        case Ran(s) => Run(plan[1..], env, p.(version := Reached(f, env.d), executed := p.executed + [s]))
  }

  /** `f` is attempted (not skipped) and its migration fails. */
  predicate Fails(f: File, env: Env) {
    f.version !in env.skip && Migration(env.entries, f.name, env.rejected).Failed?
  }

  predicate NoFailure(plan: seq<File>, env: Env) {
    forall i :: 0 <= i < |plan| ==> !Fails(plan[i], env)
  }

  /** The scripts a plan without failures executes, in plan order. */
  function Scripts(plan: seq<File>, env: Env): seq<string>
    decreases |plan|
  {
    if plan == [] then []
    else
      var last := plan[|plan| - 1];
      var more := if last.version in env.skip then [] else
        match Migration(env.entries, last.name, env.rejected)
        case Ran(s) => [s]
        case _ => [];
      Scripts(plan[..|plan| - 1], env) + more
  }

  /** The version a plan without failures ends on: that reached by its
      last file not in the skip list, or `v` when every file is skipped. */
  function LastVersion(plan: seq<File>, env: Env, v: int): int
    decreases |plan|
  {
    if plan == [] then v
    else if plan[|plan| - 1].version in env.skip then LastVersion(plan[..|plan| - 1], env, v)
    else Reached(plan[|plan| - 1], env.d)
  }

  /** Running two plans one after the other is running their concatenation,
      as long as the first does not stop on a failure. */
  lemma {:induction false} RunConcat(a: seq<File>, b: seq<File>, env: Env, p: Progress)
    requires NoFailure(a, env)
    ensures Run(a + b, env, p) == Run(b, env, Run(a, env, p))
    decreases |a|
  {
    if a == [] {
      assert a + b == b;
    } else {
      assert (a + b)[0] == a[0];
      assert (a + b)[1..] == a[1..] + b;
      assert !Fails(a[0], env);
      assert NoFailure(a[1..], env) by {
        forall i | 0 <= i < |a[1..]| ensures !Fails(a[1..][i], env) {
          assert a[1..][i] == a[i + 1];
        }
      }
      var f := a[0];
      if f.version in env.skip {
        RunConcat(a[1..], b, env, p);
      } else {
        match Migration(env.entries, f.name, env.rejected)
        case Ignored =>
          RunConcat(a[1..], b, env, p.(version := Reached(f, env.d)));
        case Ran(s) =>
          RunConcat(a[1..], b, env, p.(version := Reached(f, env.d), executed := p.executed + [s]));
      }
    }
  }

  /** Without failures, a run records the version reached by the last file
      it did not skip, keeps the dirty flag, and executes the scripts of the
      plan in order. Empty and unreadable files advance the version too. */
  lemma {:induction false} RunWithoutFailure(plan: seq<File>, env: Env, p: Progress)
    requires NoFailure(plan, env)
    ensures Run(plan, env, p)
         == Progress(LastVersion(plan, env, p.version), p.dirty, p.executed + Scripts(plan, env))
    decreases |plan|
  {
    if plan == [] {
      assert p.executed + [] == p.executed;
    } else {
      var init := plan[..|plan| - 1];
      var last := plan[|plan| - 1];
      assert plan == init + [last];
      assert NoFailure(init, env) by {
        forall i | 0 <= i < |init| ensures !Fails(init[i], env) {
          assert init[i] == plan[i];
        }
      }
      assert !Fails(last, env);
      RunConcat(init, [last], env, p);
      RunWithoutFailure(init, env, p);
      var q := Run(init, env, p);
      assert [last][1..] == [];
      assert Run([last], env, q) == Run(plan, env, p);
    }
  }

  /** At the first failure the run stops: the dirty flag is set, the version
      and the executed scripts stay as the files before it left them, and
      the files after it are never attempted. */
  lemma RunStopsAtFirstFailure(done: seq<File>, f: File, rest: seq<File>, env: Env, p: Progress)
    requires NoFailure(done, env)
    requires Fails(f, env)
    ensures Run(done + [f] + rest, env, p) == Run(done, env, p).(dirty := true)
  {
    assert done + [f] + rest == done + ([f] + rest);
    RunConcat(done, [f] + rest, env, p);
  }

  /** Whether a run ends dirty: it was dirty before, or some file it
      attempted failed. */
  lemma {:induction false} RunDirty(plan: seq<File>, env: Env, p: Progress)
    ensures Run(plan, env, p).dirty <==> p.dirty || !NoFailure(plan, env)
    decreases |plan|
  {
    if plan != [] {
      var f := plan[0];
      assert NoFailure(plan, env) <==> !Fails(f, env) && NoFailure(plan[1..], env) by {
        if !Fails(f, env) && NoFailure(plan[1..], env) {
          forall i | 0 < i < |plan| ensures !Fails(plan[i], env) {
            assert plan[i] == plan[1..][i - 1];
          }
        }
        if NoFailure(plan, env) {
          forall i | 0 <= i < |plan[1..]| ensures !Fails(plan[1..][i], env) {
            assert plan[1..][i] == plan[i + 1];
          }
        }
      }
      if f.version in env.skip {
        RunDirty(plan[1..], env, p);
      } else {
        match Migration(env.entries, f.name, env.rejected)
        case Failed(_) =>
        case Ignored =>
          RunDirty(plan[1..], env, p.(version := Reached(f, env.d)));
        case Ran(s) =>
          RunDirty(plan[1..], env, p.(version := Reached(f, env.d), executed := p.executed + [s]));
      }
    }
  }

  /** Files whose versions are all in the skip list change nothing. */
  lemma {:induction false} SkippedFilesChangeNothing(plan: seq<File>, env: Env, p: Progress)
    requires forall i :: 0 <= i < |plan| ==> plan[i].version in env.skip
    ensures Run(plan, env, p) == p
    decreases |plan|
  {
    if plan != [] {
      assert forall i :: 0 <= i < |plan[1..]| ==> plan[1..][i] == plan[i + 1];
      SkippedFilesChangeNothing(plan[1..], env, p);
    }
  }

  /** `complete`: check the schema, create the table if `prepare` found it
      missing, then write the run's version and dirty flag. Any error is
      returned at once; the scripts already executed stay executed. */
  function Persist(s: Store, failing: set<Call>, tableKnown: bool, version: int, dirty: bool): (r: (Store, Option<ErrorKind>))
    ensures r.0.executed == s.executed
    ensures SchemaCheck in failing ==> r == (s, Some(CheckSchemaExistFailed))
    ensures SchemaCheck !in failing && !tableKnown && TableCreate in failing
            ==> r == (s, Some(CreateMigrateTableFailed))
    ensures tableKnown ==> r.0.tableExists == s.tableExists
    ensures r.1 == None <==> SchemaCheck !in failing && StateUpdate !in failing
                             && (if tableKnown then s.tableExists else TableCreate !in failing)
    ensures r.1 == None ==> r.0 == s.(tableExists := true, version := version, dirty := dirty)
    ensures SchemaCheck !in failing && (tableKnown || TableCreate !in failing) && r.1 != None ==>
      r == (if tableKnown then s else s.(tableExists := true, version := 0, dirty := false),
            Some(UpdateMigrateTableFailed))
    ensures r.1 != None ==> r.1.value in {CheckSchemaExistFailed, CreateMigrateTableFailed, UpdateMigrateTableFailed}
  {
    if SchemaCheck in failing then (s, Some(CheckSchemaExistFailed))
    else if !tableKnown && TableCreate in failing then (s, Some(CreateMigrateTableFailed))
    else
      var created := if tableKnown then s else s.(tableExists := true, version := 0, dirty := false);
      if StateUpdate in failing || !created.tableExists then (created, Some(UpdateMigrateTableFailed))
      else (created.(version := version, dirty := dirty), None)
  }
}
