/** When the order of the FreeBSD package list matters. */
module FreeBsdOrder {
  import opened Options
  import opened FreeBsd

  /** No package of the same port has a smaller name. */
  ghost predicate HasLeastName(infos: seq<PackageInfo>, p: PackageInfo) {
    forall o :: o in infos && KeyOf(o) == KeyOf(p) ==> TextLe(p.name, o.name)
  }

  /**
   Packages of one port with the same name have the same architecture, and the same commit and build time too if
   theirs is the least name of the port.
   */
  ghost predicate OrderIsSafe(infos: seq<PackageInfo>) {
    forall p, q :: p in infos && q in infos && KeyOf(p) == KeyOf(q) && p.name == q.name ==> Agree(infos, p, q)
  }

  ghost predicate Agree(infos: seq<PackageInfo>, p: PackageInfo, q: PackageInfo) {
    && p.architecture == q.architecture
    && (HasLeastName(infos, p) ==> p.gitHash == q.gitHash && p.buildTime == q.buildTime)
  }

  ghost predicate SameInEveryOrder(site: string, infos: seq<PackageInfo>, times: map<string, Rows.Time>) {
    forall other :: multiset(other) == multiset(infos) ==>
      GroupsOf(site, other, times) == GroupsOf(site, infos, times)
  }

  // ----- names by position -----

  function NameOnly(p: PackageInfo): PackageInfo {
    PackageInfo(p.name, "", "", "", None, None)
  }

  function Names(infos: seq<PackageInfo>): seq<PackageInfo> {
    seq(|infos|, i requires 0 <= i < |infos| => NameOnly(infos[i]))
  }

  lemma TakeOut<T>(s: seq<T>, k: nat)
    requires k < |s|
    ensures multiset(s) == multiset{s[k]} + multiset(s[..k] + s[k + 1..])
  {
    assert s == s[..k] + [s[k]] + s[k + 1..];
  }

  lemma CancelOne<T>(x: T, a: multiset<T>, b: multiset<T>)
    requires multiset{x} + a == multiset{x} + b
    ensures a == b
  {
    assert a == multiset{x} + a - multiset{x};
  }

  lemma NamesTakeOut(infos: seq<PackageInfo>, k: nat)
    requires k < |infos|
    ensures multiset(Names(infos)) == multiset{NameOnly(infos[k])} + multiset(Names(infos[..k] + infos[k + 1..]))
  {
    hide NameOnly;
    TakeOut(Names(infos), k);
    assert Names(infos)[..k] + Names(infos)[k + 1..] == Names(infos[..k] + infos[k + 1..]);
  }

  lemma {:induction false} NamesPermute(a: seq<PackageInfo>, b: seq<PackageInfo>)
    requires multiset(a) == multiset(b)
    ensures multiset(Names(a)) == multiset(Names(b))
    decreases |a|
  {
    hide NameOnly, Names;
    assert |a| == |multiset(a)| == |b|;
    if a != [] {
      assert a[0] in multiset(b);
      var k :| 0 <= k < |b| && b[k] == a[0];
      TakeOut(a, 0);
      TakeOut(b, k);
      CancelOne(a[0], multiset(a[..0] + a[1..]), multiset(b[..k] + b[k + 1..]));
      NamesPermute(a[..0] + a[1..], b[..k] + b[k + 1..]);
      NamesTakeOut(a, 0);
      NamesTakeOut(b, k);
    } else {
      assert a == b;
    }
  }

  /** Two sorted orders of the same packages have the same name at every position. */
  lemma SameNames(a: seq<PackageInfo>, b: seq<PackageInfo>)
    requires multiset(a) == multiset(b) && IsSorted(a) && IsSorted(b)
    ensures |a| == |b| && forall i :: 0 <= i < |a| ==> a[i].name == b[i].name
  {
    hide TextLe;
    NamesPermute(a, b);
    assert forall p, q :: p in Names(a) && q in Names(a) && p.name == q.name ==> p == q;
    SortedIsUnique(Names(a), Names(b));
    assert forall i :: 0 <= i < |a| ==> Names(a)[i].name == a[i].name;
    assert forall i :: 0 <= i < |b| ==> Names(b)[i].name == b[i].name;
    assert |Names(a)| == |a| && |Names(b)| == |b|;
  }

  /** The members of a group, for two orders of the list. */
  lemma SortedMembers(a: seq<PackageInfo>, b: seq<PackageInfo>, key: Key)
    requires multiset(a) == multiset(b)
    ensures multiset(Members(SortedByName(a), key)) == multiset(Members(SortedByName(b), key))
    ensures IsSorted(Members(SortedByName(a), key)) && IsSorted(Members(SortedByName(b), key))
    ensures forall p :: p in Members(SortedByName(a), key) <==> p in a && KeyOf(p) == key
  {
    hide SortedByName, Members, TextLe;
    var s, t := SortedByName(a), SortedByName(b);
    SortedByNameIsSorted(a);
    SortedByNameIsSorted(b);
    MembersSorted(s, key);
    MembersSorted(t, key);
    forall p ensures multiset(Members(s, key))[p] == multiset(Members(t, key))[p] {
      MembersOf(s, key, p);
      MembersOf(t, key, p);
    }
    MembersAreListed(s, key);
    assert forall p :: p in s <==> p in multiset(s);
    assert forall p :: p in a <==> p in multiset(a);
  }

  // ----- a safe list -----

  lemma SafeGroups(site: string, a: seq<PackageInfo>, b: seq<PackageInfo>, times: map<string, Rows.Time>, key: Key)
    requires multiset(a) == multiset(b) && OrderIsSafe(a)
    ensures |Members(SortedByName(a), key)| == |Members(SortedByName(b), key)|
    ensures Members(SortedByName(a), key) != [] ==>
              GroupOf(site, Members(SortedByName(a), key), times) == GroupOf(site, Members(SortedByName(b), key), times)
  {
    hide SortedByName, Members, TextLe, UrlOf, TimeFor, IsSorted;
    var m, n := Members(SortedByName(a), key), Members(SortedByName(b), key);
    SortedMembers(a, b, key);
    SortedMembers(b, a, key);
    SameNames(m, n);
    assert forall p :: p in a <==> p in multiset(a);
    assert forall p :: p in b <==> p in multiset(b);
    forall i | 0 <= i < |m| ensures m[i] in a && n[i] in a && Agree(a, m[i], n[i]) {
      assert m[i] in m && n[i] in n;
    }
    if m != [] {
      forall o | o in a && KeyOf(o) == key ensures TextLe(m[0].name, o.name) {
        FirstIsLeast(m, o);
      }
      assert HasLeastName(a, m[0]);
      assert m[0] in m && n[0] in n;
      SameArtifacts(site, m, n, key);
      SameHead(site, m[0], n[0], times, key);
    }
  }

  lemma SameArtifacts(site: string, m: seq<PackageInfo>, n: seq<PackageInfo>, key: Key)
    requires |m| == |n|
    requires forall i :: 0 <= i < |m| ==> m[i].name == n[i].name && m[i].architecture == n[i].architecture
    requires forall p :: p in m || p in n ==> KeyOf(p) == key
    ensures ArtifactsOf(site, m) == ArtifactsOf(site, n)
  {
    forall i | 0 <= i < |m| ensures ArtifactOf(site, m[i]) == ArtifactOf(site, n[i]) {
      assert m[i] in m && n[i] in n;
    }
  }

  lemma SameHead(site: string, p: PackageInfo, q: PackageInfo, times: map<string, Rows.Time>, key: Key)
    requires KeyOf(p) == KeyOf(q) == key && p.name == q.name
    requires p.gitHash == q.gitHash && p.buildTime == q.buildTime
    ensures p.origin == q.origin && p.version == q.version && UrlOf(site, p) == UrlOf(site, q)
    ensures TimeFor(times, p) == TimeFor(times, q)
  {
  }

  lemma SafeSameGroups(site: string, a: seq<PackageInfo>, b: seq<PackageInfo>, times: map<string, Rows.Time>)
    requires multiset(a) == multiset(b) && OrderIsSafe(a)
    ensures GroupsOf(site, a, times) == GroupsOf(site, b, times)
  {
    hide SortedByName, Members, OrderIsSafe, GroupOf, KeysOf;
    var s, t := SortedByName(a), SortedByName(b);
    forall key
      ensures Members(s, key) != [] ==> key in KeysOf(s)
      ensures Members(t, key) != [] ==> key in KeysOf(t)
      ensures |Members(s, key)| == |Members(t, key)|
      ensures Members(s, key) != [] ==>
                GroupOf(site, Members(s, key), times) == GroupOf(site, Members(t, key), times)
    {
      MembersAreListed(s, key);
      MembersAreListed(t, key);
      SafeGroups(site, a, b, times, key);
    }
  }

  // ----- an unsafe list -----

  /** Every name is strictly smaller. */
  ghost predicate AllBefore(infos: seq<PackageInfo>, name: string) {
    forall p :: p in infos ==> !TextLe(name, p.name)
  }

  /** `p` splits the list: only smaller names come before it. */
  ghost predicate SplitsAt(infos: seq<PackageInfo>, p: PackageInfo, before: seq<PackageInfo>, after: seq<PackageInfo>) {
    infos == before + [p] + after && AllBefore(before, p.name)
  }

  lemma InsertBefore(infos: seq<PackageInfo>, name: string, x: PackageInfo)
    requires AllBefore(infos, name) && !TextLe(name, x.name)
    ensures AllBefore(Insert(infos, x), name)
  {
    hide TextLe, Insert;
    InsertedMembers(infos, x);
  }

  lemma {:induction false} InsertKeepsSplit(
      sorted: seq<PackageInfo>, p: PackageInfo, before: seq<PackageInfo>, after: seq<PackageInfo>, x: PackageInfo)
    returns (before': seq<PackageInfo>, after': seq<PackageInfo>)
    requires SplitsAt(sorted, p, before, after)
    ensures SplitsAt(Insert(sorted, x), p, before', after')
    decreases |after|
  {
    hide TextLe, AllBefore, Insert;
    if after == [] {
      assert sorted == before + [p];
      InsertStep(before, p, x);
      if TextLe(p.name, x.name) {
        before', after' := before, [x];
      } else {
        InsertBefore(before, p.name, x);
        before', after' := Insert(before, x), [];
      }
      assert Insert(sorted, x) == before' + [p] + after';
    } else {
      var m := |after| - 1;
      var rest, last := before + [p] + after[..m], after[m];
      assert sorted == rest + [last];
      InsertStep(rest, last, x);
      if TextLe(last.name, x.name) {
        before', after' := before, after + [x];
      } else {
        var a;
        before', a := InsertKeepsSplit(rest, p, before, after[..m], x);
        after' := a + [last];
      }
      assert Insert(sorted, x) == before' + [p] + after';
    }
  }

  lemma InsertStep(infos: seq<PackageInfo>, last: PackageInfo, x: PackageInfo)
    ensures Insert(infos + [last], x)
            == if TextLe(last.name, x.name) then infos + [last] + [x] else Insert(infos, x) + [last]
  {
    hide TextLe;
    assert (infos + [last])[..|infos|] == infos;
  }

  /** The package on the first line sorts first among those of its name. */
  lemma {:induction false} FirstLineSortsFirst(p: PackageInfo, tail: seq<PackageInfo>)
    returns (before: seq<PackageInfo>, after: seq<PackageInfo>)
    ensures SplitsAt(SortedByName([p] + tail), p, before, after)
  {
    if tail == [] {
      assert ([p] + tail)[..0] == [] && SortedByName([]) == [];
      assert [p] + tail == [p];
      before, after := [], [];
      assert SortedByName([p]) == Insert([], p) == [p];
      assert [p] == [] + [p] + [];
    } else {
      var n := |tail| - 1;
      assert ([p] + tail)[..|[p] + tail| - 1] == [p] + tail[..n];
      var b, a := FirstLineSortsFirst(p, tail[..n]);
      before, after := InsertKeepsSplit(SortedByName([p] + tail[..n]), p, b, a, tail[n]);
    }
  }

  lemma {:induction false} MembersAppend(a: seq<PackageInfo>, b: seq<PackageInfo>, key: Key)
    ensures Members(a + b, key) == Members(a, key) + Members(b, key)
  {
    if b == [] {
      assert a + b == a;
    } else {
      assert (a + b)[..|a + b| - 1] == a + b[..|b| - 1];
      MembersAppend(a, b[..|b| - 1], key);
    }
  }

  /** In its group, the package on the first line comes right after the members with smaller names. */
  lemma FirstLineInGroup(p: PackageInfo, tail: seq<PackageInfo>) returns (i: nat)
    ensures var members := Members(SortedByName([p] + tail), KeyOf(p));
            i < |members| && members[i] == p && AllBefore(members[..i], p.name)
  {
    hide SortedByName, TextLe;
    var key := KeyOf(p);
    var before, after := FirstLineSortsFirst(p, tail);
    MembersAppend(before + [p], after, key);
    MembersAppend(before, [p], key);
    assert [p][..0] == [] && Members([p], key) == [p];
    i := |Members(before, key)|;
    MembersAreListed(before, key);
    assert Members(SortedByName([p] + tail), key)[..i] == Members(before, key);
  }

  /** The first two lines swapped: both take the same place in their group. */
  lemma SwappedInGroup(p: PackageInfo, q: PackageInfo, rest: seq<PackageInfo>) returns (i: nat)
    requires KeyOf(p) == KeyOf(q) && p.name == q.name
    ensures var a, b := [p, q] + rest, [q, p] + rest;
            && multiset(a) == multiset(b)
            && i < |Members(SortedByName(a), KeyOf(p))| && Members(SortedByName(a), KeyOf(p))[i] == p
            && i < |Members(SortedByName(b), KeyOf(p))| && Members(SortedByName(b), KeyOf(p))[i] == q
            && (HasLeastName(a, p) ==> i == 0)
  {
    hide SortedByName, Members, TextLe;
    var a, b, key := [p, q] + rest, [q, p] + rest, KeyOf(p);
    assert a == [p] + ([q] + rest) && b == [q] + ([p] + rest);
    assert multiset(a) == multiset(b);
    var m, n := Members(SortedByName(a), key), Members(SortedByName(b), key);
    i := FirstLineInGroup(p, [q] + rest);
    var j := FirstLineInGroup(q, [p] + rest);
    SortedMembers(a, b, key);
    SameNames(m, n);
    TextLeIsReflexive(p.name);
    BeforeByPosition(m, i, p.name);
    BeforeByPosition(n, j, p.name);
    assert i == j;
    assert m[0] in m;
  }

  lemma BeforeByPosition(infos: seq<PackageInfo>, i: nat, name: string)
    requires i <= |infos| && AllBefore(infos[..i], name)
    ensures forall k :: 0 <= k < i ==> !TextLe(name, infos[k].name)
  {
    assert forall k :: 0 <= k < i ==> infos[..i][k] == infos[k] && infos[..i][k] in infos[..i];
  }

  /** Swapping two such packages on the first lines changes their group. */
  lemma SwapChangesGroups(
      site: string, p: PackageInfo, q: PackageInfo, rest: seq<PackageInfo>, times: map<string, Rows.Time>)
    requires KeyOf(p) == KeyOf(q) && p.name == q.name && !Agree([p, q] + rest, p, q)
    ensures multiset([p, q] + rest) == multiset([q, p] + rest)
    ensures GroupsOf(site, [p, q] + rest, times) != GroupsOf(site, [q, p] + rest, times)
  {
    hide SortedByName, Members, TextLe, HasLeastName, UrlOf;
    var a, b, key := [p, q] + rest, [q, p] + rest, KeyOf(p);
    var i := SwappedInGroup(p, q, rest);
    var m, n := Members(SortedByName(a), key), Members(SortedByName(b), key);
    MembersAreListed(SortedByName(a), key);
    MembersAreListed(SortedByName(b), key);
    var g, h := GroupsOf(site, a, times)[key], GroupsOf(site, b, times)[key];
    assert g.artifacts[i] == ArtifactOf(site, p) && h.artifacts[i] == ArtifactOf(site, q);
    assert i == 0 ==> g.gitHash == p.gitHash && h.gitHash == q.gitHash
                      && g.buildTime == p.buildTime && h.buildTime == q.buildTime;
  }

  /** Two different packages of the list, brought to the front. */
  lemma BringToFront(infos: seq<PackageInfo>, p: PackageInfo, q: PackageInfo) returns (rest: seq<PackageInfo>)
    requires p in infos && q in infos && p != q
    ensures multiset([p, q] + rest) == multiset(infos)
  {
    var i :| 0 <= i < |infos| && infos[i] == p;
    var others := infos[..i] + infos[i + 1..];
    TakeOut(infos, i);
    assert q in multiset(infos) && q in multiset(others);
    var j :| 0 <= j < |others| && others[j] == q;
    TakeOut(others, j);
    rest := others[..j] + others[j + 1..];
    assert multiset([p, q] + rest) == multiset{p} + multiset{q} + multiset(rest);
  }

  /**
   Every reordering of the package list gives the same groups exactly if packages of one port with the same name have
   the same architecture and, where theirs is the least name, the same commit and build time.  Commit times never
   depend on the order.
   */
  lemma OrderIsIrrelevantIff(
      site: string, infos: seq<PackageInfo>, fetched: map<string, Rows.Time>, times: map<string, Rows.Time>)
    requires IsEarliest(infos, fetched, times)
    ensures SameInEveryOrder(site, infos, times) <==> OrderIsSafe(infos)
    ensures forall other, t :: multiset(other) == multiset(infos) ==> (IsEarliest(other, fetched, t) <==> t == times)
  {
    hide GroupsOf, TextLe, HasLeastName;
    forall other, t | multiset(other) == multiset(infos) ensures IsEarliest(other, fetched, t) <==> t == times {
      EarliestInEveryOrder(infos, other, fetched, times);
      if IsEarliest(other, fetched, t) {
        EarliestIsUnique(other, other, fetched, t, times);
      }
    }
    if OrderIsSafe(infos) {
      forall other | multiset(other) == multiset(infos)
        ensures GroupsOf(site, other, times) == GroupsOf(site, infos, times)
      {
        SafeSameGroups(site, infos, other, times);
      }
    } else {
      var p, q :| p in infos && q in infos && KeyOf(p) == KeyOf(q) && p.name == q.name && !Agree(infos, p, q);
      var rest := BringToFront(infos, p, q);
      LeastNameInEveryOrder(infos, [p, q] + rest, p);
      SwapChangesGroups(site, p, q, rest, times);
    }
  }

  lemma EarliestInEveryOrder(
      a: seq<PackageInfo>, b: seq<PackageInfo>, fetched: map<string, Rows.Time>, times: map<string, Rows.Time>)
    requires multiset(a) == multiset(b) && IsEarliest(a, fetched, times)
    ensures IsEarliest(b, fetched, times)
  {
    assert forall p :: p in a <==> p in multiset(a);
    assert forall p :: p in b <==> p in multiset(b);
    assert forall hash, t :: IsTimeOf(a, fetched, hash, t) <==> IsTimeOf(b, fetched, hash, t);
  }

  lemma LeastNameInEveryOrder(a: seq<PackageInfo>, b: seq<PackageInfo>, p: PackageInfo)
    requires multiset(a) == multiset(b)
    ensures HasLeastName(a, p) <==> HasLeastName(b, p)
  {
    hide TextLe;
    assert forall o :: o in a <==> o in multiset(a);
    assert forall o :: o in b <==> o in multiset(b);
  }

  /** Two packages of one port with the same name, for different architectures. */
  lemma OrderMattersExample(site: string) returns (infos: seq<PackageInfo>)
    ensures !SameInEveryOrder(site, infos, map[])
  {
    hide GroupsOf, TextLe;
    var p := PackageInfo("n", "o", "1", "amd64", None, None);
    var q := PackageInfo("n", "o", "1", "i386", None, None);
    infos := [p, q];
    assert p in infos && q in infos && "amd64" != "i386";
    assert !Agree(infos, p, q);
    OrderIsIrrelevantIff(site, infos, map[], map[]);
  }
}
