/** Reading a migration file name: the direction marker it contains and
    the version number in front of its first underscore
    (`<version>_<description>.up.sql` / `.down.sql`). */
module FileNames {
  import opened Errors
  import opened Decimal

  const UpMarker: string := ".up.sql"
  const DownMarker: string := ".down.sql"

  /** `strings.Split(name, "_")[0]`: the text before the first underscore,
      or the whole name when it has none. */
  function Prefix(name: string): (p: string)
    ensures p <= name
    ensures '_' !in p
    ensures |p| < |name| ==> name[|p|] == '_'
    decreases |name|
  {
    if name == [] || name[0] == '_' then [] else [name[0]] + Prefix(name[1..])
  }

  /** `sub` occurs in `s` starting at index `i`. */
  predicate OccursAt(s: string, sub: string, i: int) {
    0 <= i && i + |sub| <= |s| && s[i..i + |sub|] == sub
  }

  /** `strings.Contains(s, sub)`. */
  function Contains(s: string, sub: string): (b: bool)
    ensures b <==> exists i :: OccursAt(s, sub, i)
    decreases |s|
  {
    if |s| < |sub| then
      false
    else if s[..|sub|] == sub then
      assert OccursAt(s, sub, 0);
      true
    else
      var rest := Contains(s[1..], sub);
      OccursShift(s, sub);
      rest
  }

  /** Occurrences in `s[1..]` are the occurrences in `s` after index 0. */
  lemma OccursShift(s: string, sub: string)
    requires |s| > 0
    ensures forall i :: OccursAt(s[1..], sub, i) ==> OccursAt(s, sub, i + 1)
    ensures forall i :: 1 <= i && OccursAt(s, sub, i) ==> OccursAt(s[1..], sub, i - 1)
  {
    forall i | OccursAt(s[1..], sub, i) ensures OccursAt(s, sub, i + 1) {
      assert s[1..][i..i + |sub|] == s[i + 1..i + 1 + |sub|];
    }
    forall i | 1 <= i && OccursAt(s, sub, i) ensures OccursAt(s[1..], sub, i - 1) {
      assert s[1..][i - 1..i - 1 + |sub|] == s[i..i + |sub|];
    }
  }

  /** `fileVersion`: an empty prefix means version 0; otherwise the prefix
      must be an Atoi numeral, or the name is rejected. Nothing after the
      first underscore is looked at. */
  function FileVersion(name: string): (r: Result<int>)
    ensures Prefix(name) == [] ==> r == Ok(0)
    ensures Prefix(name) != [] && Atoi(Prefix(name)).Ok? ==> r == Atoi(Prefix(name))
    ensures Prefix(name) != [] && Atoi(Prefix(name)).Err? ==> r == Err(BadFileName)
    ensures r.Ok? ==> MinInt <= r.value <= MaxInt
  {
    var p := Prefix(name);
    if p == [] then Ok(0)
    else match Atoi(p)
      case Ok(v) => Ok(v)
      case Err(_) => Err(BadFileName)
  }

  /** The prefix of `p + "_" + rest` is `p` whenever `p` has no underscore. */
  lemma PrefixBeforeUnderscore(p: string, rest: string)
    requires '_' !in p
    ensures Prefix(p + "_" + rest) == p
  {
    var name := p + "_" + rest;
    assert name[|p|] == '_';
  }

  /** Only the text before the first underscore decides the version. */
  lemma VersionIgnoresDescription(p: string, rest1: string, rest2: string)
    requires '_' !in p
    ensures FileVersion(p + "_" + rest1) == FileVersion(p + "_" + rest2)
  {
    PrefixBeforeUnderscore(p, rest1);
    PrefixBeforeUnderscore(p, rest2);
  }

  /** A name that starts with an underscore has version 0. */
  lemma EmptyPrefixIsZero(rest: string)
    ensures FileVersion("_" + rest) == Ok(0)
  {
    PrefixBeforeUnderscore("", rest);
    assert "" + "_" + rest == "_" + rest;
  }

  /** A name written by the convention `<v>_<description>` reads back as `v`. */
  lemma NamedVersion(v: int, description: string)
    requires MinInt <= v <= MaxInt
    ensures FileVersion(Show(v) + "_" + description) == Ok(v)
  {
    var p := Show(v);
    PrefixBeforeUnderscore(p, description);
    AtoiShow(v);
  }

  /** A prefix with a character that is neither a digit nor a leading sign
      is rejected, as `abc_x.up.sql` is. */
  lemma NonNumericPrefixRejected(p: string, rest: string)
    requires '_' !in p
    requires exists i :: 0 <= i < |p| && !IsDigit(p[i]) && (i > 0 || (p[i] != '+' && p[i] != '-'))
    ensures FileVersion(p + "_" + rest) == Err(BadFileName)
  {
    PrefixBeforeUnderscore(p, rest);
  }
}
