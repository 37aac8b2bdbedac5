/** Looking up the source package of a Debian binary package. */
module DebianSources {
  import opened Options
  import opened Text
  import opened DebianStanzas

  const BIN_NMU_PREFIX := "+b"
  const U64_MAX := 0xFFFF_FFFF_FFFF_FFFF

  // ----- the suffix of binary-only uploads -----

  predicate PrefixAt(s: string, i: nat) {
    i + 2 <= |s| && s[i] == '+' && s[i + 1] == 'b'
  }

  /** Position of the last prefix, or the length of the text. */
  function LastPrefix(s: string): (i: nat)
    ensures i <= |s|
    ensures i < |s| ==> PrefixAt(s, i)
    ensures forall j: nat :: PrefixAt(s, j) ==> j <= i < |s|
    decreases |s|
  {
    if |s| < 2 then |s|
    else if PrefixAt(s, |s| - 2) then |s| - 2
    else
      var t := s[..|s| - 1];
      var i := LastPrefix(t);
      assert forall j: nat :: PrefixAt(s, j) ==> PrefixAt(t, j);
      if i < |t| then i else |s|
  }

  predicate AllDigits(s: string) {
    forall i :: 0 <= i < |s| ==> '0' <= s[i] <= '9'
  }

  function DigitsValue(s: string): nat
    requires AllDigits(s)
  {
    if s == "" then 0 else DigitsValue(s[..|s| - 1]) * 10 + (s[|s| - 1] - '0') as nat
  }

  /** Digits that fit 64 bits, after an optional plus sign. */
  predicate IsU64(s: string) {
    var digits := if StartsWith(s, '+') then s[1..] else s;
    digits != "" && AllDigits(digits) && DigitsValue(digits) <= U64_MAX
  }

  function BinNmu(version: string): string {
    var i := LastPrefix(version);
    if i < |version| && IsU64(version[i + 2..]) then version[i..] else ""
  }

  lemma NumberHasNoB(number: string, k: nat)
    requires IsU64(number) && k < |number|
    ensures number[k] != 'b'
  {
  }

  /** The suffix is "+b" and a number at the end of the version. */
  lemma BinNmuIs(base: string, number: string)
    requires IsU64(number)
    ensures BinNmu(base + BIN_NMU_PREFIX + number) == BIN_NMU_PREFIX + number
  {
    hide IsU64;
    var version := base + BIN_NMU_PREFIX + number;
    var i := LastPrefix(version);
    assert PrefixAt(version, |base|);
    if i > |base| {
      assert version[i + 1] == number[i + 1 - |base| - 2];
      NumberHasNoB(number, i + 1 - |base| - 2);
      assert false;
    }
    assert version[i + 2..] == number && version[i..] == BIN_NMU_PREFIX + number;
  }

  ghost predicate HasNumber(version: string, base: string, number: string) {
    IsU64(number) && version == base + BIN_NMU_PREFIX + number
  }

  lemma SuffixHasNumber(version: string) returns (base: string, number: string)
    requires BinNmu(version) != ""
    ensures HasNumber(version, base, number)
  {
    hide IsU64;
    var i := LastPrefix(version);
    base, number := version[..i], version[i + 2..];
    assert version[i..i + 2] == BIN_NMU_PREFIX && version == base + version[i..i + 2] + number;
  }

  lemma NumberIsSuffix(version: string, base: string, number: string)
    requires HasNumber(version, base, number)
    ensures BinNmu(version) == BIN_NMU_PREFIX + number
  {
    hide IsU64, BinNmu;
    BinNmuIs(base, number);
  }

  /** A version has a suffix exactly if it ends with "+b" and a number. */
  lemma BinNmuIff(version: string)
    ensures BinNmu(version) != "" <==> exists base, number :: HasNumber(version, base, number)
    ensures forall base, number :: HasNumber(version, base, number) ==> BinNmu(version) == BIN_NMU_PREFIX + number
  {
    hide HasNumber, BinNmu;
    if BinNmu(version) != "" {
      var base, number := SuffixHasNumber(version);
    }
    forall base, number | HasNumber(version, base, number) ensures BinNmu(version) == BIN_NMU_PREFIX + number {
      NumberIsSuffix(version, base, number);
    }
  }

  // ----- the bucket -----

  datatype LookupError = UnknownName(name: string) | NoMatchingVersion

  /** Sources of one name, in push order. */
  function Named(pushed: seq<SourcePkg>, name: string): (found: seq<SourcePkg>)
    ensures forall s :: s in found ==> s.base == name
    ensures forall s :: s in pushed && s.base == name ==> s in found
  {
    if pushed == [] then []
    else
      var last := pushed[|pushed| - 1];
      var before := Named(pushed[..|pushed| - 1], name);
      if last.base == name then before + [last] else before
  }

  predicate Fits(s: SourcePkg, b: BinPkg) {
    s.base == b.sourceName && s.version == b.sourceVersion.version
  }

  function WithSuffix(s: SourcePkg, b: BinPkg): SourcePkg {
    s.(version := s.version + BinNmu(b.version))
  }

  /** A linear scan of everything that was pushed. */
  function Scan(pushed: seq<SourcePkg>, b: BinPkg): Result<SourcePkg, LookupError> {
    if pushed == [] then Failure(UnknownName(b.sourceName))
    else
      var last := pushed[|pushed| - 1];
      match Scan(pushed[..|pushed| - 1], b)
      case Success(s) => Success(s)
      case Failure(e) =>
        if Fits(last, b) then Success(WithSuffix(last, b))
        else if last.base == b.sourceName then Failure(NoMatchingVersion)
        else Failure(e)
  }

  ghost predicate IsFirstFit(pushed: seq<SourcePkg>, b: BinPkg, i: nat) {
    && i < |pushed| && Fits(pushed[i], b)
    && forall j :: 0 <= j < i ==> !Fits(pushed[j], b)
  }

  ghost predicate NameKnown(pushed: seq<SourcePkg>, b: BinPkg) {
    exists i :: 0 <= i < |pushed| && pushed[i].base == b.sourceName
  }

  lemma {:induction false} ScanFinds(pushed: seq<SourcePkg>, b: BinPkg)
    ensures forall i: nat :: IsFirstFit(pushed, b, i) ==> Scan(pushed, b) == Success(WithSuffix(pushed[i], b))
    ensures Scan(pushed, b).Success? ==> exists i: nat :: IsFirstFit(pushed, b, i)
    ensures Scan(pushed, b).Failure? ==>
              && (forall i :: 0 <= i < |pushed| ==> !Fits(pushed[i], b))
              && Scan(pushed, b).error == if NameKnown(pushed, b) then NoMatchingVersion else UnknownName(b.sourceName)
  {
    hide WithSuffix;
    if pushed != [] {
      var n := |pushed| - 1;
      var before := pushed[..n];
      ScanFinds(before, b);
      assert forall i: nat :: i < n ==> (IsFirstFit(before, b, i) <==> IsFirstFit(pushed, b, i));
      if Scan(before, b).Success? {
        var i: nat :| IsFirstFit(before, b, i);
        assert IsFirstFit(pushed, b, i);
      } else {
        assert forall i :: 0 <= i < n ==> before[i] == pushed[i];
        assert Fits(pushed[n], b) ==> IsFirstFit(pushed, b, n);
        assert NameKnown(pushed, b) <==> NameKnown(before, b) || pushed[n].base == b.sourceName;
      }
    }
  }

  /** Source `i` has the name and the version of the binary's source, and none before it has both. */
  ghost predicate IsWanted(pushed: seq<SourcePkg>, b: BinPkg, i: nat) {
    && i < |pushed| && pushed[i].base == b.sourceName && pushed[i].version == b.sourceVersion.version
    && forall j :: 0 <= j < i ==> pushed[j].base != b.sourceName || pushed[j].version != b.sourceVersion.version
  }

  /**
   The scan finds the first source of that name and version, and appends the suffix of the binary to the version; it
   fails exactly if there is none, and then tells whether the name is known.
   */
  lemma ScanFindsFirst(pushed: seq<SourcePkg>, b: BinPkg)
    ensures forall i: nat :: IsWanted(pushed, b, i) ==>
              Scan(pushed, b) == Success(pushed[i].(version := pushed[i].version + BinNmu(b.version)))
    ensures Scan(pushed, b).Success? ==> exists i: nat :: IsWanted(pushed, b, i)
    ensures Scan(pushed, b).Failure? ==>
              && (forall i :: 0 <= i < |pushed| && pushed[i].base == b.sourceName ==>
                    pushed[i].version != b.sourceVersion.version)
              && Scan(pushed, b).error
                 == if exists i :: 0 <= i < |pushed| && pushed[i].base == b.sourceName then NoMatchingVersion
                    else UnknownName(b.sourceName)
  {
    hide Scan, BinNmu;
    ScanFinds(pushed, b);
    assert forall i: nat :: IsWanted(pushed, b, i) <==> IsFirstFit(pushed, b, i);
  }

  /** Sources of other names do not matter. */
  lemma {:induction false} ScanNamed(pushed: seq<SourcePkg>, b: BinPkg)
    ensures Scan(pushed, b) == Scan(Named(pushed, b.sourceName), b)
  {
    if pushed != [] {
      ScanNamed(pushed[..|pushed| - 1], b);
    }
  }

  class SourcePkgBucket {
    var pkgs: map<string, seq<SourcePkg>>
    ghost var pushed: seq<SourcePkg>

    ghost predicate Valid()
      reads this
    {
      && (forall name :: name in pkgs <==> Named(pushed, name) != [])
      && (forall name :: name in pkgs ==> pkgs[name] == Named(pushed, name))
    }

    constructor ()
      ensures Valid() && pushed == []
    {
      pkgs, pushed := map[], [];
    }

    method Push(p: SourcePkg)
      requires Valid()
      modifies this
      ensures Valid() && pushed == old(pushed) + [p]
    {
      if p.base in pkgs {
        pkgs := pkgs[p.base := pkgs[p.base] + [p]];
      } else {
        pkgs := pkgs[p.base := [p]];
      }
      pushed := pushed + [p];
      assert pushed[..|pushed| - 1] == old(pushed);
    }

    /** Agrees with the scan of all sources, although it looks at the sources of one name only. */
    method Get(b: BinPkg) returns (r: Result<SourcePkg, LookupError>)
      requires Valid()
      ensures r == Scan(pushed, b)
    {
      hide Scan, BinNmu, Named;
      var suffix := BinNmu(b.version);
      ScanNamed(pushed, b);
      ScanFinds(Named(pushed, b.sourceName), b);
      if b.sourceName !in pkgs {
        return Failure(UnknownName(b.sourceName));
      }
      var list := pkgs[b.sourceName];
      assert forall m :: 0 <= m < |list| ==> list[m] in list;
      for n := 0 to |list|
        invariant forall m :: 0 <= m < n ==> !Fits(list[m], b)
      {
        if list[n].version == b.sourceVersion.version {
          assert IsFirstFit(list, b, n);
          return Success(list[n].(version := list[n].version + suffix));
        }
      }
      assert list[0].base == b.sourceName && NameKnown(list, b);
      r := Failure(NoMatchingVersion);
    }
  }
}
