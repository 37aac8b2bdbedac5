/** Searching and splitting strings. */
module Text {
  import opened Options

  /** Position of the first occurrence. */
  function Find(s: string, sep: string): (i: Option<nat>)
    requires sep != ""
    ensures i.Some? ==> i.value + |sep| <= |s| && s[i.value..i.value + |sep|] == sep
  {
    if |s| < |sep| then None
    else if s[..|sep|] == sep then Some(0)
    else
      match Find(s[1..], sep)
      case None => None
      case Some(i) => Some(i + 1)
  }

  datatype Halves = Halves(left: string, right: string)

  /** Both sides of the first separator. */
  function SplitOnce(s: string, sep: string): Option<Halves>
    requires sep != ""
  {
    match Find(s, sep)
    case None => None
    case Some(i) => Some(Halves(s[..i], s[i + |sep|..]))
  }

  /** All parts between separators; at least one. */
  function Split(s: string, sep: string): (parts: seq<string>)
    requires sep != ""
    ensures parts != []
    decreases |s|
  {
    match Find(s, sep)
    case None => [s]
    case Some(i) => [s[..i]] + Split(s[i + |sep|..], sep)
  }

  /** What follows the first part: every further part after a separator. */
  function JoinTail(parts: seq<string>, sep: string): string {
    if parts == [] then "" else sep + parts[0] + JoinTail(parts[1..], sep)
  }

  function Join(parts: seq<string>, sep: string): string
    requires parts != []
  {
    parts[0] + JoinTail(parts[1..], sep)
  }

  /** Separators that cannot overlap themselves. */
  predicate IsSeparator(sep: string) {
    |sep| == 1 || (|sep| == 2 && sep[0] != sep[1])
  }

  lemma {:induction false} FindFirst(a: string, sep: string, rest: string)
    requires IsSeparator(sep) && Find(a, sep) == None
    ensures Find(a + sep + rest, sep) == Some(|a|)
  {
    var s := a + sep + rest;
    if a == "" {
      assert s[..|sep|] == sep;
    } else {
      assert s[1..] == a[1..] + sep + rest;
      if |a| < |sep| {
        assert s[1] == sep[0];
        assert s[..|sep|] != sep && Find(a[1..], sep) == None;
      } else {
        assert s[..|sep|] == a[..|sep|];
      }
      FindFirst(a[1..], sep, rest);
    }
  }

  lemma {:induction false} FindNone(a: string, sep: string)
    requires sep != "" && sep[0] !in a
    ensures Find(a, sep) == None
  {
  }

  lemma SplitAtFirst(a: string, sep: string, rest: string)
    requires IsSeparator(sep) && Find(a, sep) == None
    ensures SplitOnce(a + sep + rest, sep) == Some(Halves(a, rest))
  {
    FindFirst(a, sep, rest);
    assert (a + sep + rest)[..|a|] == a && (a + sep + rest)[|a| + |sep|..] == rest;
  }

  /** Splitting undoes joining when the parts do not contain the separator. */
  lemma {:induction false} SplitJoin(parts: seq<string>, sep: string)
    requires parts != [] && IsSeparator(sep)
    requires forall p :: p in parts ==> Find(p, sep) == None
    ensures Split(Join(parts, sep), sep) == parts
  {
    hide Find;
    if |parts| == 1 {
      assert Join(parts, sep) == parts[0];
    } else {
      var rest := Join(parts[1..], sep);
      assert Join(parts, sep) == parts[0] + sep + rest;
      FindFirst(parts[0], sep, rest);
      SplitJoin(parts[1..], sep);
      assert (parts[0] + sep + rest)[..|parts[0]|] == parts[0];
      assert (parts[0] + sep + rest)[|parts[0]| + |sep|..] == rest;
    }
  }

  predicate EndsWith(s: string, c: char) {
    s != "" && s[|s| - 1] == c
  }

  predicate StartsWith(s: string, c: char) {
    s != "" && s[0] == c
  }
}
