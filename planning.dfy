/** Turning the candidate list into the plan of one run: the step limit
    (`maxStep`), the skip list (`skipStep`) and the order (`sort.Slice`,
    ascending for up and descending for down). */
module Planning {
  import opened Catalog

  /** `maxStep`: how many of `count` sorted candidates one run visits.
      A step of 0 means no limit. */
  function MaxStep(count: int, step: int): (n: int)
    ensures n == count || n == step
    ensures step == 0 ==> n == count
    ensures 0 <= step ==> n <= count
    ensures 0 < step ==> n <= step
    ensures 0 <= step && 0 <= count ==> 0 <= n
  {
    if step != 0 && step < count then step else count
  }

  /** `skipStep`: a linear scan of the skip list. */
  method SkipStep(version: int, skip: seq<int>) returns (skipped: bool)
    ensures skipped <==> version in skip
  {
    for i := 0 to |skip|
      invariant version !in skip[..i]
    {
      if version == skip[i] {
        return true;
      }
    }
    return false;
  }

  /** `a` may come before `b` in a plan of direction `d`. */
  predicate Precedes(a: File, b: File, d: Direction) {
    match d
    case Up => a.version <= b.version
    case Down => a.version >= b.version
  }

  /** Ascending versions for up, descending for down; files with equal
      versions may come in either order. */
  predicate Ordered(s: seq<File>, d: Direction) {
    forall i, j :: 0 <= i < j < |s| ==> Precedes(s[i], s[j], d)
  }

  predicate DistinctVersions(s: seq<File>) {
    forall i, j :: 0 <= i < j < |s| ==> s[i].version != s[j].version
  }

  function Insert(f: File, s: seq<File>, d: Direction): (r: seq<File>)
    requires Ordered(s, d)
    ensures Ordered(r, d)
    ensures multiset(r) == multiset(s) + multiset{f}
    decreases |s|
  {
    if s == [] then [f]
    else if Precedes(f, s[0], d) then [f] + s
    else
      var tail := Insert(f, s[1..], d);
      assert s == [s[0]] + s[1..];
      forall k | 0 <= k < |tail| ensures Precedes(s[0], tail[k], d) {
        assert tail[k] in multiset(tail);
        if tail[k] != f {
          assert tail[k] in multiset(s[1..]);
        }
      }
      [s[0]] + tail
  }

  /** The order `sort.Slice` produces: some ordered permutation of the
      input. The run is specified by these two facts only, not by the
      particular order this insertion sort gives to equal versions. */
  function Sort(s: seq<File>, d: Direction): (r: seq<File>)
    ensures Ordered(r, d)
    ensures multiset(r) == multiset(s)
    decreases |s|
  {
    if s == [] then []
    else
      assert s == [s[0]] + s[1..];
      Insert(s[0], Sort(s[1..], d), d)
  }

  /** Two ordered permutations of the same files, without repeated
      versions, start with the same file. */
  lemma SameHead(a: seq<File>, b: seq<File>, d: Direction)
    requires Ordered(a, d) && Ordered(b, d)
    requires multiset(a) == multiset(b)
    requires DistinctVersions(a)
    requires a != []
    ensures b != [] && a[0] == b[0]
  {
    assert a[0] in multiset(b);
    var k :| 0 <= k < |b| && b[k] == a[0];
    assert b[0] in multiset(a);
    var m :| 0 <= m < |a| && a[m] == b[0];
    assert Precedes(b[0], b[k], d);
  }

  /** Dropping the first file keeps a plan ordered and its versions distinct. */
  lemma TailOrdered(a: seq<File>, d: Direction)
    requires a != []
    ensures Ordered(a, d) ==> Ordered(a[1..], d)
    ensures DistinctVersions(a) ==> DistinctVersions(a[1..])
  {
    assert forall i :: 0 <= i < |a[1..]| ==> a[1..][i] == a[i + 1];
  }

  /** When no two files share a version, being ordered and a permutation
      fixes the sequence: the only freedom the sort has is among equal
      versions. */
  lemma {:induction false} OrderedPermutationUnique(a: seq<File>, b: seq<File>, d: Direction)
    requires Ordered(a, d) && Ordered(b, d)
    requires multiset(a) == multiset(b)
    requires DistinctVersions(a)
    ensures a == b
    decreases |a|
  {
    if a == [] {
      assert |b| == |multiset(b)| == 0;
    } else {
      SameHead(a, b, d);
      TailOrdered(a, d);
      TailOrdered(b, d);
      assert a == [a[0]] + a[1..] && b == [b[0]] + b[1..];
      assert multiset(a[1..]) == multiset(a) - multiset{a[0]};
      assert multiset(b[1..]) == multiset(b) - multiset{b[0]};
      OrderedPermutationUnique(a[1..], b[1..], d);
    }
  }
}
