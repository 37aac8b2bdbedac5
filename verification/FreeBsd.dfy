/** Grouping the packages of a FreeBSD repository by port. */
module FreeBsd {
  import opened Options
  import opened Rows

  /** One line of the package list, as far as it is used. */
  datatype PackageInfo = PackageInfo(
    name: string,
    origin: string,
    version: string,
    architecture: string,
    buildTime: Option<Time>,
    gitHash: Option<string>)

  datatype Key = Key(origin: string, version: string)

  datatype BinaryReport = BinaryReport(name: string, version: string, architecture: string, url: string)

  datatype Group = Group(
    name: string,
    version: string,
    url: string,
    artifacts: seq<BinaryReport>,
    gitHash: Option<string>,
    buildTime: Option<Time>,
    gitTime: Option<Time>)

  function KeyOf(p: PackageInfo): Key {
    Key(p.origin, p.version)
  }

  /** `site` is the address of the repository of one release and architecture. */
  function UrlOf(site: string, p: PackageInfo): string {
    site + "/latest/All/" + p.name + "-" + p.version + ".pkg"
  }

  function ArtifactOf(site: string, p: PackageInfo): BinaryReport {
    BinaryReport(p.name, p.version, p.architecture, UrlOf(site, p))
  }

  // ----- commit timestamps -----

  /** A time known for the commit: the fetched one, or a build time of a package built from it. */
  ghost predicate IsTimeOf(infos: seq<PackageInfo>, fetched: map<string, Time>, hash: string, t: Time) {
    || (hash in fetched && fetched[hash] == t)
    || exists p :: p in infos && p.gitHash == Some(hash) && p.buildTime == Some(t)
  }

  ghost predicate IsEarliest(infos: seq<PackageInfo>, fetched: map<string, Time>, times: map<string, Time>) {
    && (forall hash, t :: IsTimeOf(infos, fetched, hash, t) ==> hash in times && times[hash] <= t)
    && (forall hash :: hash in times ==> IsTimeOf(infos, fetched, hash, times[hash]))
  }

  /** Starts from the fetched times and lowers them to the earliest build time. */
  method CommitTimes(infos: seq<PackageInfo>, fetched: map<string, Time>) returns (times: map<string, Time>)
    ensures IsEarliest(infos, fetched, times)
  {
    times := fetched;
    for n := 0 to |infos|
      invariant IsEarliest(infos[..n], fetched, times)
    {
      var p := infos[n];
      ghost var before := times;
      if p.gitHash.Some? && p.buildTime.Some? {
        var hash, built := p.gitHash.value, p.buildTime.value;
        if hash in times {
          if built < times[hash] {
            times := times[hash := built];
          }
        } else {
          times := times[hash := built];
        }
      }
      assert infos[..n + 1] == infos[..n] + [p];
      OneMoreTime(infos[..n], fetched, p);
    }
    assert infos[..|infos|] == infos;
  }

  lemma OneMoreTime(infos: seq<PackageInfo>, fetched: map<string, Time>, p: PackageInfo)
    ensures forall hash, t :: IsTimeOf(infos + [p], fetched, hash, t)
              <==> IsTimeOf(infos, fetched, hash, t) || (p.gitHash == Some(hash) && p.buildTime == Some(t))
  {
  }

  lemma EarliestIsUnique(
      a: seq<PackageInfo>, b: seq<PackageInfo>, fetched: map<string, Time>, s: map<string, Time>, t: map<string, Time>)
    requires forall p :: p in a <==> p in b
    requires IsEarliest(a, fetched, s) && IsEarliest(b, fetched, t)
    ensures s == t
  {
    assert forall hash, time :: IsTimeOf(a, fetched, hash, time) <==> IsTimeOf(b, fetched, hash, time);
    forall hash ensures hash in s <==> hash in t {
      assert hash in s ==> IsTimeOf(b, fetched, hash, s[hash]);
      assert hash in t ==> IsTimeOf(a, fetched, hash, t[hash]);
    }
    forall hash | hash in s ensures s[hash] == t[hash] {
      assert IsTimeOf(b, fetched, hash, s[hash]);
      assert IsTimeOf(a, fetched, hash, t[hash]);
    }
  }

  // ----- sorting by name -----

  /** Lexicographic order. */
  predicate TextLe(a: string, b: string) {
    if a == "" then true
    else if b == "" then false
    else if a[0] != b[0] then a[0] < b[0]
    else TextLe(a[1..], b[1..])
  }

  /** `b` starts with `a`, or has a greater character where they first differ. */
  ghost predicate IsNotAfter(a: string, b: string) {
    || (|a| <= |b| && b[..|a|] == a)
    || exists k: nat :: DiffersAt(a, b, k)
  }

  predicate DiffersAt(a: string, b: string, k: nat) {
    k < |a| && k < |b| && a[..k] == b[..k] && a[k] < b[k]
  }

  lemma DiffersBehindFirst(a: string, b: string, k: nat)
    requires a != "" && b != "" && a[0] == b[0]
    ensures DiffersAt(a, b, k + 1) <==> DiffersAt(a[1..], b[1..], k)
    ensures !DiffersAt(a, b, 0)
  {
    if k < |a| - 1 && k < |b| - 1 {
      assert a[..k + 1] == [a[0]] + a[1..][..k] && b[..k + 1] == [b[0]] + b[1..][..k];
      assert a[1..][..k] == a[..k + 1][1..] && b[1..][..k] == b[..k + 1][1..];
    }
  }

  lemma StartsBehindFirst(a: string, b: string)
    requires a != "" && b != "" && a[0] == b[0]
    ensures |a| <= |b| && b[..|a|] == a <==> |a[1..]| <= |b[1..]| && b[1..][..|a[1..]|] == a[1..]
  {
    assert a == [a[0]] + a[1..];
    if |a| <= |b| {
      assert b[..|a|] == [b[0]] + b[1..][..|a| - 1];
      assert b[1..][..|a| - 1] == b[..|a|][1..];
    }
  }

  lemma {:induction false} TextLeIff(a: string, b: string)
    ensures TextLe(a, b) <==> IsNotAfter(a, b)
  {
    if a != "" && b != "" && a[0] == b[0] {
      TextLeIff(a[1..], b[1..]);
      StartsBehindFirst(a, b);
      forall k: nat {
        DiffersBehindFirst(a, b, k);
      }
      if k: nat :| DiffersAt(a, b, k) {
        assert DiffersAt(a[1..], b[1..], k - 1);
      }
      if k: nat :| DiffersAt(a[1..], b[1..], k) {
        assert DiffersAt(a, b, k + 1);
      }
    } else if a != "" && b != "" && a[0] < b[0] {
      assert DiffersAt(a, b, 0);
    }
  }

  lemma {:induction false} TextLeIsReflexive(a: string)
    ensures TextLe(a, a)
  {
    if a != "" {
      TextLeIsReflexive(a[1..]);
    }
  }

  lemma {:induction false} TextLeIsTotal(a: string, b: string)
    ensures TextLe(a, b) || TextLe(b, a)
    ensures TextLe(a, b) && TextLe(b, a) ==> a == b
  {
    if a != "" && b != "" && a[0] == b[0] {
      TextLeIsTotal(a[1..], b[1..]);
      assert a == [a[0]] + a[1..] && b == [b[0]] + b[1..];
    }
  }

  lemma {:induction false} TextLeIsTransitive(a: string, b: string, c: string)
    requires TextLe(a, b) && TextLe(b, c)
    ensures TextLe(a, c)
  {
    if a != "" && b != "" && c != "" && a[0] == b[0] == c[0] {
      TextLeIsTransitive(a[1..], b[1..], c[1..]);
    }
  }

  ghost predicate IsSorted(infos: seq<PackageInfo>) {
    forall i, j :: 0 <= i < j < |infos| ==> TextLe(infos[i].name, infos[j].name)
  }

  /** Inserts behind all entries that are not greater. */
  function Insert(sorted: seq<PackageInfo>, p: PackageInfo): (out: seq<PackageInfo>)
    ensures multiset(out) == multiset(sorted) + multiset{p}
  {
    if sorted == [] then [p]
    else
      var n := |sorted| - 1;
      assert sorted == sorted[..n] + [sorted[n]];
      if TextLe(sorted[n].name, p.name) then sorted + [p] else Insert(sorted[..n], p) + [sorted[n]]
  }

  function SortedByName(infos: seq<PackageInfo>): (out: seq<PackageInfo>)
    ensures multiset(out) == multiset(infos)
  {
    if infos == [] then []
    else
      assert infos == infos[..|infos| - 1] + [infos[|infos| - 1]];
      Insert(SortedByName(infos[..|infos| - 1]), infos[|infos| - 1])
  }

  lemma InsertedMembers(sorted: seq<PackageInfo>, p: PackageInfo)
    ensures forall q :: q in Insert(sorted, p) ==> q == p || q in sorted
  {
  }

  lemma {:induction false} InsertKeepsSorted(sorted: seq<PackageInfo>, p: PackageInfo)
    requires IsSorted(sorted)
    ensures IsSorted(Insert(sorted, p))
  {
    hide TextLe;
    if sorted != [] {
      var n := |sorted| - 1;
      var last := sorted[n];
      if TextLe(last.name, p.name) {
        forall i | 0 <= i < n ensures TextLe(sorted[i].name, p.name) {
          TextLeIsTransitive(sorted[i].name, last.name, p.name);
        }
      } else {
        TextLeIsTotal(last.name, p.name);
        InsertKeepsSorted(sorted[..n], p);
        InsertedMembers(sorted[..n], p);
        assert forall q :: q in sorted[..n] ==> TextLe(q.name, last.name);
        assert forall i :: 0 <= i < |Insert(sorted[..n], p)| ==> Insert(sorted[..n], p)[i] in Insert(sorted[..n], p);
      }
    }
  }

  lemma {:induction false} SortedByNameIsSorted(infos: seq<PackageInfo>)
    ensures IsSorted(SortedByName(infos))
  {
    if infos != [] {
      SortedByNameIsSorted(infos[..|infos| - 1]);
      InsertKeepsSorted(SortedByName(infos[..|infos| - 1]), infos[|infos| - 1]);
    }
  }

  // ----- grouping -----

  function TimeFor(times: map<string, Time>, p: PackageInfo): Option<Time> {
    if p.gitHash.Some? && p.gitHash.value in times then Some(times[p.gitHash.value]) else None
  }

  /** The packages of one group, in the given order. */
  function Members(infos: seq<PackageInfo>, key: Key): (members: seq<PackageInfo>)
    ensures forall p :: p in members ==> KeyOf(p) == key
  {
    if infos == [] then []
    else
      var last := infos[|infos| - 1];
      var before := Members(infos[..|infos| - 1], key);
      if KeyOf(last) == key then before + [last] else before
  }

  function ArtifactsOf(site: string, members: seq<PackageInfo>): (artifacts: seq<BinaryReport>)
    ensures |artifacts| == |members|
  {
    seq(|members|, m requires 0 <= m < |members| => ArtifactOf(site, members[m]))
  }

  /** A group is named and dated after its first member and lists all members. */
  function GroupOf(site: string, members: seq<PackageInfo>, times: map<string, Time>): Group
    requires members != []
  {
    var first := members[0];
    Group(first.origin, first.version, UrlOf(site, first), ArtifactsOf(site, members),
          first.gitHash, first.buildTime, TimeFor(times, first))
  }

  ghost predicate IsGrouping(
      site: string, sorted: seq<PackageInfo>, times: map<string, Time>, groups: map<Key, Group>)
  {
    && (forall key :: key in groups <==> Members(sorted, key) != [])
    && (forall key :: key in groups ==> groups[key] == GroupOf(site, Members(sorted, key), times))
  }

  method GroupPackages(site: string, sorted: seq<PackageInfo>, times: map<string, Time>)
    returns (groups: map<Key, Group>)
    ensures IsGrouping(site, sorted, times, groups)
  {
    hide Members, GroupOf;
    NothingToGroup(site, sorted, times);
    groups := map[];
    for n := 0 to |sorted|
      invariant IsGrouping(site, sorted[..n], times, groups)
    {
      var p := sorted[n];
      var key := KeyOf(p);
      OneMoreMember(site, sorted, n, times);
      if key in groups {
        groups := groups[key := groups[key].(artifacts := groups[key].artifacts + [ArtifactOf(site, p)])];
      } else {
        groups := groups[key := Group(p.origin, p.version, UrlOf(site, p), [ArtifactOf(site, p)],
                                      p.gitHash, p.buildTime, TimeFor(times, p))];
      }
    }
    assert sorted[..|sorted|] == sorted;
  }

  lemma NothingToGroup(site: string, sorted: seq<PackageInfo>, times: map<string, Time>)
    ensures IsGrouping(site, sorted[..0], times, map[])
  {
  }

  /** Adding a package changes its own group only. */
  lemma OneMoreMember(site: string, sorted: seq<PackageInfo>, n: nat, times: map<string, Time>)
    requires n < |sorted|
    ensures forall key :: key != KeyOf(sorted[n]) ==> Members(sorted[..n + 1], key) == Members(sorted[..n], key)
    ensures var members := Members(sorted[..n], KeyOf(sorted[n]));
            && Members(sorted[..n + 1], KeyOf(sorted[n])) == members + [sorted[n]]
            && var one := ArtifactOf(site, sorted[n]);
               GroupOf(site, members + [sorted[n]], times)
               == if members == [] then GroupOf(site, [sorted[n]], times).(artifacts := [one])
                  else var g := GroupOf(site, members, times); g.(artifacts := g.artifacts + [one])
    ensures GroupOf(site, [sorted[n]], times)
            == Group(sorted[n].origin, sorted[n].version, UrlOf(site, sorted[n]), [ArtifactOf(site, sorted[n])],
                     sorted[n].gitHash, sorted[n].buildTime, TimeFor(times, sorted[n]))
  {
    hide UrlOf, TimeFor;
    assert sorted[..n + 1][..n] == sorted[..n];
    var members := Members(sorted[..n], KeyOf(sorted[n]));
    assert ArtifactsOf(site, members + [sorted[n]]) == ArtifactsOf(site, members) + [ArtifactOf(site, sorted[n])];
    assert [] + [sorted[n]] == [sorted[n]];
  }

  function KeysOf(infos: seq<PackageInfo>): set<Key> {
    set p | p in infos :: KeyOf(p)
  }

  /** What a package list with the given commit times becomes. */
  function GroupsOf(site: string, infos: seq<PackageInfo>, times: map<string, Time>): map<Key, Group> {
    var sorted := SortedByName(infos);
    map key | key in KeysOf(sorted) && Members(sorted, key) != [] :: GroupOf(site, Members(sorted, key), times)
  }

  /** Everything after the package list has been read. */
  method Sync(site: string, infos: seq<PackageInfo>, fetched: map<string, Time>)
    returns (groups: map<Key, Group>, times: map<string, Time>)
    ensures IsEarliest(infos, fetched, times)
    ensures groups == GroupsOf(site, infos, times)
  {
    hide SortedByName, GroupOf;
    times := CommitTimes(infos, fetched);
    groups := GroupPackages(site, SortedByName(infos), times);
    forall key | Members(SortedByName(infos), key) != [] ensures key in KeysOf(SortedByName(infos)) {
      MembersAreListed(SortedByName(infos), key);
    }
  }

  lemma {:induction false} MembersAreListed(infos: seq<PackageInfo>, key: Key)
    ensures forall p :: p in Members(infos, key) <==> p in infos && KeyOf(p) == key
    ensures Members(infos, key) != [] ==> key in KeysOf(infos)
  {
    if infos != [] {
      MembersAreListed(infos[..|infos| - 1], key);
      assert infos == infos[..|infos| - 1] + [infos[|infos| - 1]];
    }
  }

  // ----- members in order -----

  lemma {:induction false} MembersOf(infos: seq<PackageInfo>, key: Key, p: PackageInfo)
    ensures multiset(Members(infos, key))[p] == if KeyOf(p) == key then multiset(infos)[p] else 0
  {
    if infos != [] {
      var n := |infos| - 1;
      assert infos == infos[..n] + [infos[n]];
      MembersOf(infos[..n], key, p);
    }
  }

  lemma {:induction false} MembersSorted(infos: seq<PackageInfo>, key: Key)
    requires IsSorted(infos)
    ensures IsSorted(Members(infos, key))
    ensures forall p :: p in Members(infos, key) ==> p in infos
  {
    hide TextLe;
    if infos != [] {
      var n := |infos| - 1;
      MembersSorted(infos[..n], key);
      var before := Members(infos[..n], key);
      forall i | 0 <= i < |before| ensures TextLe(before[i].name, infos[n].name) {
        assert before[i] in before;
        var k :| 0 <= k < n && infos[..n][k] == before[i];
      }
    }
  }

  lemma WithoutFirst(infos: seq<PackageInfo>)
    requires infos != []
    ensures infos == [infos[0]] + infos[1..] && multiset(infos[1..]) == multiset(infos) - multiset{infos[0]}
    ensures IsSorted(infos) ==> IsSorted(infos[1..])
  {
  }

  /** A sorted list is determined by its contents when names identify. */
  lemma {:induction false} SortedIsUnique(a: seq<PackageInfo>, b: seq<PackageInfo>)
    requires IsSorted(a) && IsSorted(b) && multiset(a) == multiset(b)
    requires forall p, q :: p in a && q in a && p.name == q.name ==> p == q
    ensures a == b
  {
    hide TextLe;
    assert |a| == |multiset(a)| == |b|;
    if a != [] {
      assert a[0] in multiset(b) && b[0] in multiset(a);
      FirstIsLeast(a, b[0]);
      FirstIsLeast(b, a[0]);
      TextLeIsTotal(a[0].name, b[0].name);
      WithoutFirst(a);
      WithoutFirst(b);
      SortedIsUnique(a[1..], b[1..]);
    }
  }

  lemma FirstIsLeast(infos: seq<PackageInfo>, p: PackageInfo)
    requires IsSorted(infos) && p in infos
    ensures TextLe(infos[0].name, p.name)
  {
    var k :| 0 <= k < |infos| && infos[k] == p;
    TextLeIsReflexive(p.name);
  }

  /** The URL of a group is that of a member with the least name. */
  lemma FirstMemberHasLeastName(infos: seq<PackageInfo>, key: Key, p: PackageInfo)
    requires p in infos && KeyOf(p) == key
    ensures Members(SortedByName(infos), key) != []
    ensures Members(SortedByName(infos), key)[0] in infos
    ensures TextLe(Members(SortedByName(infos), key)[0].name, p.name)
  {
    hide SortedByName, TextLe, Members;
    var members := Members(SortedByName(infos), key);
    SortedByNameIsSorted(infos);
    MembersSorted(SortedByName(infos), key);
    MembersOf(SortedByName(infos), key, p);
    assert p in multiset(infos) && p in multiset(members);
    FirstIsLeast(members, p);
    assert members[0] in members && members[0] in multiset(SortedByName(infos));
  }

  /**
   Every port and version in the list has one group, with one artifact for each of its packages: it is named after the
   port, and addressed and dated after its first package, which has the least name.
   */
  lemma GroupIs(site: string, infos: seq<PackageInfo>, times: map<string, Time>, key: Key)
    returns (members: seq<PackageInfo>)
    requires exists p :: p in infos && p.origin == key.origin && p.version == key.version
    ensures forall p :: multiset(members)[p] == if p.origin == key.origin && p.version == key.version then
                                                  multiset(infos)[p]
                                                else 0
    ensures members != [] && forall p :: p in members ==> IsNotAfter(members[0].name, p.name)
    ensures key in GroupsOf(site, infos, times)
    ensures var g, first := GroupsOf(site, infos, times)[key], members[0];
            && g.name == key.origin && g.version == key.version
            && g.url == site + "/latest/All/" + first.name + "-" + first.version + ".pkg"
            && g.gitHash == first.gitHash && g.buildTime == first.buildTime
            && (forall hash :: first.gitHash == Some(hash) && hash in times ==> g.gitTime == Some(times[hash]))
            && (first.gitHash == None || first.gitHash.value !in times ==> g.gitTime == None)
            && |g.artifacts| == |members|
            && forall m :: 0 <= m < |members| ==>
                 var p := members[m];
                 g.artifacts[m] == BinaryReport(p.name, p.version, p.architecture,
                                                site + "/latest/All/" + p.name + "-" + p.version + ".pkg")
  {
    hide SortedByName, TextLe, Members, IsNotAfter;
    var sorted := SortedByName(infos);
    members := Members(sorted, key);
    var q :| q in infos && q.origin == key.origin && q.version == key.version;
    FirstMemberHasLeastName(infos, key, q);
    forall p ensures multiset(members)[p] == if p.origin == key.origin && p.version == key.version then
                                               multiset(infos)[p]
                                             else 0
    {
      MembersOf(sorted, key, p);
    }
    MembersAreListed(sorted, key);
    forall p | p in members ensures IsNotAfter(members[0].name, p.name) {
      assert p in multiset(sorted) && p in multiset(infos);
      FirstMemberHasLeastName(infos, key, p);
      TextLeIff(members[0].name, p.name);
    }
  }

  /** A group for every port and version in the list, and no others. */
  lemma GroupKeys(site: string, infos: seq<PackageInfo>, times: map<string, Time>, key: Key)
    ensures key in GroupsOf(site, infos, times)
            <==> exists p :: p in infos && p.origin == key.origin && p.version == key.version
  {
    hide SortedByName;
    var sorted := SortedByName(infos);
    assert multiset(sorted) == multiset(infos);
    assert forall p :: p in sorted <==> p in multiset(sorted);
    assert forall p :: p in infos <==> p in multiset(infos);
    MembersAreListed(sorted, key);
    if p :| p in infos && p.origin == key.origin && p.version == key.version {
      assert p in Members(sorted, key);
    }
    if key in GroupsOf(site, infos, times) {
      assert Members(sorted, key)[0] in Members(sorted, key);
    }
  }
}
