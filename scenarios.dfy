/** Worked examples: a directory holding files for versions 1, 2 and 3,
    one more whose prefix is not a number, and what selection, ordering
    and the visiting loop make of it. The names are left abstract: all
    that matters is the marker a name contains and the version it
    carries; `NamesExist` shows that `<v>_<description>.up.sql` is such a
    name. */
module Scenarios {
  import opened Errors
  import opened Decimal
  import opened FileNames
  import opened Catalog
  import opened Planning
  import opened Engine

  /** `n` is an up file of version `v`. */
  predicate UpName(n: string, v: int) {
    Contains(n, UpMarker) && FileVersion(n) == Ok(v)
  }

  /** `n` is a down file of version `v`. */
  predicate DownName(n: string, v: int) {
    Contains(n, DownMarker) && FileVersion(n) == Ok(v)
  }

  /** A name `<v>_<description><marker>` carries version `v` and contains
      the marker. */
  lemma NameWithMarker(v: int, description: string, marker: string)
    requires MinInt <= v <= MaxInt
    ensures Contains(Show(v) + "_" + description + marker, marker)
    ensures FileVersion(Show(v) + "_" + description + marker) == Ok(v)
  {
    var n := Show(v) + "_" + description + marker;
    assert n == Show(v) + "_" + (description + marker);
    NamedVersion(v, description + marker);
    assert OccursAt(n, marker, |Show(v) + "_" + description|);
  }

  /** Names following the convention satisfy the predicates above. */
  lemma NamesExist(v: int, description: string)
    requires MinInt <= v <= MaxInt
    ensures UpName(Show(v) + "_" + description + UpMarker, v)
    ensures DownName(Show(v) + "_" + description + DownMarker, v)
  {
    NameWithMarker(v, description, UpMarker);
    NameWithMarker(v, description, DownMarker);
  }

  /** Four different names. The visiting loop only opens files by name,
      so this is all it needs of them. */
  predicate Distinct4(n1: string, n2: string, n3: string, n4: string) {
    n1 != n2 && n1 != n3 && n1 != n4 && n2 != n3 && n2 != n4 && n3 != n4
  }

  /** The tails of a three-file plan, for unfolding `Run`. */
  lemma PlanTails(a: File, b: File, c: File)
    ensures [a, b, c][1..] == [b, c] && [b, c][1..] == [c] && [c][1..] == []
  {
  }

  /** Appending to short literal lists, for unfolding `Candidates`. */
  lemma Appends<T>(a: T, b: T, c: T, d: T)
    ensures [] + [a] == [a] && [a] + [b] == [a, b]
    ensures [a, b] + [c] == [a, b, c] && [a, b, c] + [d] == [a, b, c, d]
  {
  }

  /** Up files listed as 2, (bad), 1, 3, with scripts "two", "bad", "one", "three". */
  function UpDir(n1: string, n2: string, n3: string, bad: string): seq<Entry> {
    [Entry(n2, Text("two")), Entry(bad, Text("bad")), Entry(n1, Text("one")), Entry(n3, Text("three"))]
  }

  /** Down files listed as 1, 3, 2. */
  function DownDir(n1: string, n2: string, n3: string): seq<Entry> {
    [Entry(n1, Text("undo one")), Entry(n3, Text("undo three")), Entry(n2, Text("undo two"))]
  }

  /** What an entry named by the convention contributes. */
  lemma NamedCandidate(e: Entry, d: Direction, current: int, gotov: int, v: int)
    requires Contains(e.name, Marker(d)) && FileVersion(e.name) == Ok(v)
    ensures Picked(Candidate(e, d, current, gotov))
         == if InWindow(d, v, current, gotov) then [File(v, e.name)] else []
  {
  }

  /** The up list is the directory order, filtered by the window. */
  lemma UpListing(n1: string, n2: string, n3: string, bad: string, current: int, gotov: int)
    requires UpName(n1, 1) && UpName(n2, 2) && UpName(n3, 3) && FileVersion(bad).Err?
    ensures Candidates(UpDir(n1, n2, n3, bad), Up, current, gotov)
         == (if InWindow(Up, 2, current, gotov) then [File(2, n2)] else [])
          + (if InWindow(Up, 1, current, gotov) then [File(1, n1)] else [])
          + (if InWindow(Up, 3, current, gotov) then [File(3, n3)] else [])
  {
    var e := UpDir(n1, n2, n3, bad);
    var a := if InWindow(Up, 2, current, gotov) then [File(2, n2)] else [];
    var b := if InWindow(Up, 1, current, gotov) then [File(1, n1)] else [];
    var c := if InWindow(Up, 3, current, gotov) then [File(3, n3)] else [];
    Appends(e[0], e[1], e[2], e[3]);
    assert e == [e[0], e[1], e[2], e[3]];
    NamedCandidate(e[0], Up, current, gotov, 2);
    assert Picked(Candidate(e[1], Up, current, gotov)) == [];
    NamedCandidate(e[2], Up, current, gotov, 1);
    NamedCandidate(e[3], Up, current, gotov, 3);
    assert Candidates([], Up, current, gotov) == [];
    CandidatesSnoc([], e[0], Up, current, gotov);
    assert Candidates([e[0]], Up, current, gotov) == a;
    CandidatesSnoc([e[0]], e[1], Up, current, gotov);
    assert Candidates([e[0], e[1]], Up, current, gotov) == a;
    CandidatesSnoc([e[0], e[1]], e[2], Up, current, gotov);
    assert Candidates([e[0], e[1], e[2]], Up, current, gotov) == a + b;
    CandidatesSnoc([e[0], e[1], e[2]], e[3], Up, current, gotov);
    assert Candidates(e, Up, current, gotov) == a + b + c;
  }

  /** From version 0 the up list holds 2, 1, 3 in directory order; the file
      whose prefix is not a number is dropped without failing. */
  lemma UpFromZero(n1: string, n2: string, n3: string, bad: string)
    requires UpName(n1, 1) && UpName(n2, 2) && UpName(n3, 3) && FileVersion(bad).Err?
    ensures Candidates(UpDir(n1, n2, n3, bad), Up, 0, 0) == [File(2, n2), File(1, n1), File(3, n3)]
  {
    UpListing(n1, n2, n3, bad, 0, 0);
  }

  /** Every order the sort may give that list is 1, 2, 3. */
  lemma UpPlanOrder(n1: string, n2: string, n3: string, sorted: seq<File>)
    requires Ordered(sorted, Up)
    requires multiset(sorted) == multiset([File(2, n2), File(1, n1), File(3, n3)])
    ensures sorted == [File(1, n1), File(2, n2), File(3, n3)]
  {
    var plan := [File(1, n1), File(2, n2), File(3, n3)];
    SwapFirstTwo(File(1, n1), File(2, n2), File(3, n3));
    Ascending3(File(1, n1), File(2, n2), File(3, n3));
    OrderedPermutationUnique(plan, sorted, Up);
  }

  /** Swapping the first two files keeps the multiset. */
  lemma SwapFirstTwo(a: File, b: File, c: File)
    ensures multiset([b, a, c]) == multiset([a, b, c])
  {
    assert [b, a, c] == [b] + [a] + [c] && [a, b, c] == [a] + [b] + [c];
  }

  /** Three files with increasing versions form an up plan without repeats. */
  lemma Ascending3(a: File, b: File, c: File)
    requires a.version < b.version < c.version
    ensures Ordered([a, b, c], Up) && DistinctVersions([a, b, c])
  {
  }

  /** All three succeed: version 3, clean, the scripts in version order. */
  lemma UpAllSucceed(n1: string, n2: string, n3: string, bad: string)
    requires Distinct4(n1, n2, n3, bad)
    ensures Run([File(1, n1), File(2, n2), File(3, n3)], Env([], UpDir(n1, n2, n3, bad), {}, Up),
                Progress(0, false, []))
         == Progress(3, false, ["one", "two", "three"])
  {
    var e := UpDir(n1, n2, n3, bad);
    OpenFirstMatch(e, 0);
    OpenFirstMatch(e, 2);
    OpenFirstMatch(e, 3);
    PlanTails(File(1, n1), File(2, n2), File(3, n3));
    Appends("one", "two", "three", "three");
    Appends("one", "three", "three", "three");
    var env := Env([], e, {}, Up);
    assert Run([File(3, n3)], env, Progress(2, false, ["one", "two"])) == Progress(3, false, ["one", "two", "three"]);
    assert Run([File(2, n2), File(3, n3)], env, Progress(1, false, ["one"]))
        == Progress(3, false, ["one", "two", "three"]);
  }

  /** A step limit of 1 visits version 1 only. */
  lemma UpOneStep(n1: string, n2: string, n3: string, bad: string)
    requires Distinct4(n1, n2, n3, bad)
    ensures MaxStep(3, 1) == 1
    ensures Run([File(1, n1), File(2, n2), File(3, n3)][..MaxStep(3, 1)],
                Env([], UpDir(n1, n2, n3, bad), {}, Up), Progress(0, false, []))
         == Progress(1, false, ["one"])
  {
    var e := UpDir(n1, n2, n3, bad);
    OpenFirstMatch(e, 2);
    assert [File(1, n1), File(2, n2), File(3, n3)][..1] == [File(1, n1)];
  }

  /** Skipping 2 still records version 3, and 3 runs. */
  lemma UpSkipTwo(n1: string, n2: string, n3: string, bad: string)
    requires Distinct4(n1, n2, n3, bad)
    ensures Run([File(1, n1), File(2, n2), File(3, n3)], Env([2], UpDir(n1, n2, n3, bad), {}, Up),
                Progress(0, false, []))
         == Progress(3, false, ["one", "three"])
  {
    var e := UpDir(n1, n2, n3, bad);
    OpenFirstMatch(e, 0);
    OpenFirstMatch(e, 2);
    OpenFirstMatch(e, 3);
    PlanTails(File(1, n1), File(2, n2), File(3, n3));
    Appends("one", "two", "three", "three");
    Appends("one", "three", "three", "three");
    var env := Env([2], e, {}, Up);
    assert Run([File(3, n3)], env, Progress(1, false, ["one"])) == Progress(3, false, ["one", "three"]);
    assert Run([File(2, n2), File(3, n3)], env, Progress(1, false, ["one"])) == Progress(3, false, ["one", "three"]);
  }

  /** Version 2 fails: the run stops at version 1, dirty, and 3 is never tried. */
  lemma UpFailAtTwo(n1: string, n2: string, n3: string, bad: string)
    requires Distinct4(n1, n2, n3, bad)
    ensures Run([File(1, n1), File(2, n2), File(3, n3)], Env([], UpDir(n1, n2, n3, bad), {"two"}, Up),
                Progress(0, false, []))
         == Progress(1, true, ["one"])
  {
    var e := UpDir(n1, n2, n3, bad);
    OpenFirstMatch(e, 0);
    OpenFirstMatch(e, 2);
    OpenFirstMatch(e, 3);
    PlanTails(File(1, n1), File(2, n2), File(3, n3));
    Appends("one", "two", "three", "three");
    Appends("one", "three", "three", "three");
  }

  /** Going to version 2 from 0 selects 2 and 1 only; from 3 nothing is pending. */
  lemma UpWindows(n1: string, n2: string, n3: string, bad: string)
    requires UpName(n1, 1) && UpName(n2, 2) && UpName(n3, 3) && FileVersion(bad).Err?
    ensures Candidates(UpDir(n1, n2, n3, bad), Up, 0, 2) == [File(2, n2), File(1, n1)]
    ensures Candidates(UpDir(n1, n2, n3, bad), Up, 3, 0) == []
  {
    UpListing(n1, n2, n3, bad, 0, 2);
    UpListing(n1, n2, n3, bad, 3, 0);
  }

  /** The down list is the directory order, filtered by the window. */
  lemma DownListing(n1: string, n2: string, n3: string, current: int, gotov: int)
    requires DownName(n1, 1) && DownName(n2, 2) && DownName(n3, 3)
    ensures Candidates(DownDir(n1, n2, n3), Down, current, gotov)
         == (if InWindow(Down, 1, current, gotov) then [File(1, n1)] else [])
          + (if InWindow(Down, 3, current, gotov) then [File(3, n3)] else [])
          + (if InWindow(Down, 2, current, gotov) then [File(2, n2)] else [])
  {
    var e := DownDir(n1, n2, n3);
    var a := if InWindow(Down, 1, current, gotov) then [File(1, n1)] else [];
    var b := if InWindow(Down, 3, current, gotov) then [File(3, n3)] else [];
    var c := if InWindow(Down, 2, current, gotov) then [File(2, n2)] else [];
    Appends(e[0], e[1], e[2], e[2]);
    assert e == [e[0], e[1], e[2]];
    NamedCandidate(e[0], Down, current, gotov, 1);
    NamedCandidate(e[1], Down, current, gotov, 3);
    NamedCandidate(e[2], Down, current, gotov, 2);
    assert Candidates([], Down, current, gotov) == [];
    CandidatesSnoc([], e[0], Down, current, gotov);
    assert Candidates([e[0]], Down, current, gotov) == a;
    CandidatesSnoc([e[0]], e[1], Down, current, gotov);
    assert Candidates([e[0], e[1]], Down, current, gotov) == a + b;
    CandidatesSnoc([e[0], e[1]], e[2], Down, current, gotov);
    assert Candidates(e, Down, current, gotov) == a + b + c;
  }

  /** Down from 3 with no goto version every down file is selected. */
  lemma DownFromThree(n1: string, n2: string, n3: string)
    requires DownName(n1, 1) && DownName(n2, 2) && DownName(n3, 3)
    ensures Candidates(DownDir(n1, n2, n3), Down, 3, 0) == [File(1, n1), File(3, n3), File(2, n2)]
  {
    DownListing(n1, n2, n3, 3, 0);
  }

  /** The down plan 3, 2, 1 undoes every version and records 0. */
  lemma DownToZero(n1: string, n2: string, n3: string)
    requires n1 != n2 && n1 != n3 && n2 != n3
    ensures Run([File(3, n3), File(2, n2), File(1, n1)], Env([], DownDir(n1, n2, n3), {}, Down),
                Progress(3, false, []))
         == Progress(0, false, ["undo three", "undo two", "undo one"])
  {
    var e := DownDir(n1, n2, n3);
    OpenFirstMatch(e, 0);
    OpenFirstMatch(e, 1);
    OpenFirstMatch(e, 2);
    PlanTails(File(3, n3), File(2, n2), File(1, n1));
    Appends("undo three", "undo two", "undo one", "undo one");
    var env := Env([], e, {}, Down);
    assert Run([File(1, n1)], env, Progress(1, false, ["undo three", "undo two"]))
        == Progress(0, false, ["undo three", "undo two", "undo one"]);
    assert Run([File(2, n2), File(1, n1)], env, Progress(2, false, ["undo three"]))
        == Progress(0, false, ["undo three", "undo two", "undo one"]);
  }

  /** Going to version 1 from 3 selects 3 and 2, stopping above the target. */
  lemma DownToOne(n1: string, n2: string, n3: string)
    requires DownName(n1, 1) && DownName(n2, 2) && DownName(n3, 3)
    ensures Candidates(DownDir(n1, n2, n3), Down, 3, 1) == [File(3, n3), File(2, n2)]
  {
    DownListing(n1, n2, n3, 3, 1);
  }
}
