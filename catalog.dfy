/** The migrations directory and the selection of candidate files for one
    direction (`getFilesUp` / `getFilesDown`, as specification functions;
    the loop that builds the list is `Migrator.Migrate.GetFiles`). */
module Catalog {
  import opened Errors
  import opened FileNames

  datatype Direction = Up | Down

  /** What opening and reading one file gives: its text, an `os.Open`
      failure, or an `ioutil.ReadAll` failure after a successful open. */
  datatype Content = Text(body: string) | Unopenable | Unreadable

  datatype Entry = Entry(name: string, content: Content)

  /** The migrations directory: whether `ioutil.ReadDir` can list it, and
      its entries in listing order. */
  datatype Directory = Directory(listable: bool, entries: seq<Entry>)

  /** One selected migration file (the source's `Files` record). */
  datatype File = File(version: int, name: string)

  function Marker(d: Direction): string {
    match d
    case Up => UpMarker
    case Down => DownMarker
  }

  /** The version window of a run: up takes versions above the current one
      and, when a goto version is set, not above it; down takes versions at
      or below the current one and, when a goto version is set, above it. */
  predicate InWindow(d: Direction, v: int, current: int, gotov: int) {
    match d
    case Up => v > current && !(gotov != 0 && v > gotov)
    case Down => v <= current && !(gotov != 0 && v <= gotov)
  }

  /** What one directory entry adds to the candidate list. */
  function Candidate(e: Entry, d: Direction, current: int, gotov: int): (r: Option<File>)
    ensures r.Some? <==> Contains(e.name, Marker(d)) && FileVersion(e.name).Ok?
                         && InWindow(d, FileVersion(e.name).value, current, gotov)
    ensures r.Some? ==> r.value == File(FileVersion(e.name).value, e.name)
  {
    if !Contains(e.name, Marker(d)) then None
    else match FileVersion(e.name)
      case Err(_) => None
      case Ok(v) => if InWindow(d, v, current, gotov) then Some(File(v, e.name)) else None
  }

  /** The files `pick` selects from `entries`, in directory order: the
      list the selection loop builds by appending. */
  function Collect(entries: seq<Entry>, pick: Entry -> Option<File>): (files: seq<File>)
    ensures |files| <= |entries|
    decreases |entries|
  {
    if entries == [] then []
    else
      var init := Collect(entries[..|entries| - 1], pick);
      match pick(entries[|entries| - 1])
      case None => init
      case Some(f) => init + [f]
  }

  /** A file is collected exactly when `pick` selects it from some entry. */
  lemma {:induction false} CollectMembers(entries: seq<Entry>, pick: Entry -> Option<File>, f: File)
    ensures f in Collect(entries, pick) <==> exists i :: 0 <= i < |entries| && pick(entries[i]) == Some(f)
    decreases |entries|
  {
    if entries != [] {
      var init := entries[..|entries| - 1];
      CollectMembers(init, pick, f);
      if f in Collect(init, pick) {
        var i :| 0 <= i < |init| && pick(init[i]) == Some(f);
        assert entries[i] == init[i];
      }
      if exists i :: 0 <= i < |entries| && pick(entries[i]) == Some(f) {
        var i :| 0 <= i < |entries| && pick(entries[i]) == Some(f);
        if i < |init| {
          assert entries[i] == init[i];
        }
      }
    }
  }

  /** The candidate list of a run, in directory order. */
  function Candidates(entries: seq<Entry>, d: Direction, current: int, gotov: int): (files: seq<File>)
    ensures |files| <= |entries|
    ensures forall f :: f in files ==>
      Contains(f.name, Marker(d)) && FileVersion(f.name) == Ok(f.version) && InWindow(d, f.version, current, gotov)
  {
    var pick := e => Candidate(e, d, current, gotov);
    var files := Collect(entries, pick);
    forall f | f in files
      ensures Contains(f.name, Marker(d)) && FileVersion(f.name) == Ok(f.version)
      ensures InWindow(d, f.version, current, gotov)
    {
      CollectMembers(entries, pick, f);
    }
    files
  }

  /** The files an optional pick contributes. */
  function Picked(o: Option<File>): seq<File> {
    match o
    case None => []
    case Some(f) => [f]
  }

  /** One more entry appends what it contributes to the candidate list. */
  lemma CandidatesSnoc(entries: seq<Entry>, e: Entry, d: Direction, current: int, gotov: int)
    ensures Candidates(entries + [e], d, current, gotov)
         == Candidates(entries, d, current, gotov) + Picked(Candidate(e, d, current, gotov))
  {
    assert (entries + [e])[..|entries|] == entries;
  }

  /** A file is a candidate exactly when some entry contributes it. */
  lemma CandidatesMembers(entries: seq<Entry>, d: Direction, current: int, gotov: int, f: File)
    ensures f in Candidates(entries, d, current, gotov)
        <==> exists i :: 0 <= i < |entries| && Candidate(entries[i], d, current, gotov) == Some(f)
  {
    CollectMembers(entries, e => Candidate(e, d, current, gotov), f);
  }

  /** The up list holds exactly the `.up.sql` entries whose version parses,
      is above the current version, and is not above a set goto version. */
  lemma UpFilesExactly(entries: seq<Entry>, current: int, gotov: int, f: File)
    ensures f in Candidates(entries, Up, current, gotov)
        <==> (exists i :: 0 <= i < |entries| && entries[i].name == f.name)
             && Contains(f.name, ".up.sql")
             && FileVersion(f.name) == Ok(f.version)
             && f.version > current
             && (gotov != 0 ==> f.version <= gotov)
  {
    CandidatesMembers(entries, Up, current, gotov, f);
    if (exists i :: 0 <= i < |entries| && entries[i].name == f.name)
       && Contains(f.name, ".up.sql") && FileVersion(f.name) == Ok(f.version)
       && f.version > current && (gotov != 0 ==> f.version <= gotov)
    {
      var i :| 0 <= i < |entries| && entries[i].name == f.name;
      assert Candidate(entries[i], Up, current, gotov) == Some(f);
    }
  }

  /** The down list holds exactly the `.down.sql` entries whose version
      parses, is at or below the current version, and is above a set goto
      version. */
  lemma DownFilesExactly(entries: seq<Entry>, current: int, gotov: int, f: File)
    ensures f in Candidates(entries, Down, current, gotov)
        <==> (exists i :: 0 <= i < |entries| && entries[i].name == f.name)
             && Contains(f.name, ".down.sql")
             && FileVersion(f.name) == Ok(f.version)
             && f.version <= current
             && (gotov != 0 ==> f.version > gotov)
  {
    CandidatesMembers(entries, Down, current, gotov, f);
    if (exists i :: 0 <= i < |entries| && entries[i].name == f.name)
       && Contains(f.name, ".down.sql") && FileVersion(f.name) == Ok(f.version)
       && f.version <= current && (gotov != 0 ==> f.version > gotov)
    {
      var i :| 0 <= i < |entries| && entries[i].name == f.name;
      assert Candidate(entries[i], Down, current, gotov) == Some(f);
    }
  }

  /** A name whose version prefix does not parse is left out of every list
      (a notice, never a failure of the run). */
  lemma UnparsableNeverListed(entries: seq<Entry>, d: Direction, current: int, gotov: int, f: File)
    requires FileVersion(f.name).Err?
    ensures f !in Candidates(entries, d, current, gotov)
  {
    CandidatesMembers(entries, d, current, gotov, f);
  }
}
