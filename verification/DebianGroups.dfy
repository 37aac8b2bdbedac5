/** Grouping Debian binary packages by release, component, architecture and source package. */
module DebianGroups {
  import opened Text
  import opened DebianStanzas

  /** A report is for one release, component and architecture. */
  datatype Place = Place(release: string, component: string, architecture: string)

  datatype BinaryReport = BinaryReport(name: string, version: string, architecture: string, url: string)

  datatype Group = Group(name: string, version: string, url: string, artifacts: seq<BinaryReport>)

  /** One call of push. */
  datatype Pushed = Pushed(src: SourcePkg, bin: BinPkg, site: string, release: string, component: string)

  function PlaceOf(p: Pushed): Place {
    Place(p.release, p.component, p.bin.architecture)
  }

  function ReportOf(p: Pushed): BinaryReport {
    BinaryReport(p.bin.name, p.bin.version, p.bin.architecture, p.site + "/" + p.bin.filename)
  }

  // ----- the address of the build recipe -----

  const BUILDINFO_POOL := "https://buildinfos.debian.net/buildinfo-pool/"

  predicate IsLib(base: string) {
    |base| >= 3 && base[..3] == "lib"
  }

  /** Names that are long enough for their directory prefix. */
  predicate HasPrefix(base: string) {
    if IsLib(base) then |base| >= 4 else base != ""
  }

  function WithoutEpoch(version: string): string {
    match SplitOnce(version, ":")
    case None => version
    case Some(Halves(_, rest)) => rest
  }

  function BuildinfoUrl(base: string, version: string, architecture: string): string
    requires HasPrefix(base)
  {
    BUILDINFO_POOL + (if IsLib(base) then base[..4] else base[..1]) + "/" + base + "/"
    + base + "_" + WithoutEpoch(version) + "_" + architecture + ".buildinfo"
  }

  /** The directory is the first letter, or for libraries the first four; an epoch before a colon is dropped. */
  lemma UrlIs(base: string, version: string, architecture: string, epoch: string, rest: string)
    requires HasPrefix(base) && ':' !in epoch
    requires if ':' in version then version == epoch + ":" + rest else version == rest
    ensures var prefix := if |base| >= 3 && base[..3] == "lib" then base[..4] else base[..1];
            BuildinfoUrl(base, version, architecture)
            == BUILDINFO_POOL + prefix + "/" + base + "/" + base + "_" + rest + "_" + architecture + ".buildinfo"
  {
    if ':' in version {
      FindNone(epoch, ":");
      SplitAtFirst(epoch, ":", rest);
    } else {
      FindNone(version, ":");
    }
  }

  // ----- what the groups should be -----

  predicate Belongs(p: Pushed, place: Place, name: string, version: string) {
    PlaceOf(p) == place && p.src.base == name && p.src.version == version
  }

  /** The artifacts of one group: its pushes, in order. */
  function ArtifactsFor(pushes: seq<Pushed>, place: Place, name: string, version: string): seq<BinaryReport> {
    if pushes == [] then []
    else
      var last := pushes[|pushes| - 1];
      var before := ArtifactsFor(pushes[..|pushes| - 1], place, name, version);
      if Belongs(last, place, name, version) then before + [ReportOf(last)] else before
  }

  predicate HasGroup(groups: seq<Group>, name: string, version: string) {
    exists g | 0 <= g < |groups| :: groups[g].name == name && groups[g].version == version
  }

  ghost predicate IsGroup(group: Group, pushes: seq<Pushed>, place: Place) {
    && group.artifacts == ArtifactsFor(pushes, place, group.name, group.version)
    && group.artifacts != []
    && HasPrefix(group.name) && group.url == BuildinfoUrl(group.name, group.version, place.architecture)
  }

  /** The groups of one place: unique by name and version, each with exactly its own pushes. */
  ghost predicate GroupsAgree(groups: seq<Group>, pushes: seq<Pushed>, place: Place) {
    && (forall g, h :: 0 <= g < h < |groups| ==>
          groups[g].name != groups[h].name || groups[g].version != groups[h].version)
    && (forall g :: 0 <= g < |groups| ==> IsGroup(groups[g], pushes, place))
    && (forall name, version :: ArtifactsFor(pushes, place, name, version) != [] ==> HasGroup(groups, name, version))
  }

  lemma GroupsKeep(groups: seq<Group>, pushes: seq<Pushed>, p: Pushed, place: Place)
    requires GroupsAgree(groups, pushes, place) && PlaceOf(p) != place
    ensures GroupsAgree(groups, pushes + [p], place)
  {
    assert (pushes + [p])[..|pushes|] == pushes;
    assert forall name, version :: ArtifactsFor(pushes + [p], place, name, version)
                                   == ArtifactsFor(pushes, place, name, version);
  }

  /** The position of the group, or the number of groups. */
  function FindGroup(groups: seq<Group>, name: string, version: string): (g: nat)
    ensures g <= |groups|
    ensures g < |groups| ==> groups[g].name == name && groups[g].version == version
    ensures g == |groups| ==> !HasGroup(groups, name, version)
    ensures forall h :: 0 <= h < g ==> groups[h].name != name || groups[h].version != version
  {
    if groups == [] then 0
    else
      var n := |groups| - 1;
      var g := FindGroup(groups[..n], name, version);
      if g < n then g
      else if groups[n].name == name && groups[n].version == version then n
      else
        assert forall h :: 0 <= h < n ==> groups[..n][h] == groups[h];
        n + 1
  }

  /** The group of `p` gains its artifact; a new group comes last. */
  function Grown(groups: seq<Group>, p: Pushed): seq<Group>
    requires HasPrefix(p.src.base)
  {
    var g := FindGroup(groups, p.src.base, p.src.version);
    if g < |groups| then groups[g := groups[g].(artifacts := groups[g].artifacts + [ReportOf(p)])]
    else
      groups + [Group(p.src.base, p.src.version, BuildinfoUrl(p.src.base, p.src.version, p.bin.architecture),
                      [ReportOf(p)])]
  }

  lemma OneMoreArtifact(pushes: seq<Pushed>, p: Pushed, place: Place, name: string, version: string)
    ensures ArtifactsFor(pushes + [p], place, name, version)
            == ArtifactsFor(pushes, place, name, version)
               + if Belongs(p, place, name, version) then [ReportOf(p)] else []
  {
  }

  lemma GrownGroup(groups: seq<Group>, pushes: seq<Pushed>, p: Pushed, g: nat)
    requires GroupsAgree(groups, pushes, PlaceOf(p)) && HasPrefix(p.src.base)
    requires g < |Grown(groups, p)|
    ensures IsGroup(Grown(groups, p)[g], pushes + [p], PlaceOf(p))
  {
    hide BuildinfoUrl, ReportOf, ArtifactsFor;
    var after := Grown(groups, p)[g];
    OneMoreArtifact(pushes, p, PlaceOf(p), after.name, after.version);
    assert g < |groups| ==> IsGroup(groups[g], pushes, PlaceOf(p));
    assert ArtifactsFor(pushes, PlaceOf(p), after.name, after.version) != [] ==>
        HasGroup(groups, after.name, after.version);
  }

  lemma GroupsGrow(groups: seq<Group>, pushes: seq<Pushed>, p: Pushed)
    requires GroupsAgree(groups, pushes, PlaceOf(p)) && HasPrefix(p.src.base)
    ensures GroupsAgree(Grown(groups, p), pushes + [p], PlaceOf(p))
  {
    hide BuildinfoUrl, ReportOf, ArtifactsFor, IsGroup;
    var place, after := PlaceOf(p), Grown(groups, p);
    forall g | 0 <= g < |after| ensures IsGroup(after[g], pushes + [p], place) {
      GrownGroup(groups, pushes, p, g);
    }
    forall name, version | ArtifactsFor(pushes + [p], place, name, version) != []
      ensures HasGroup(after, name, version)
    {
      OneMoreArtifact(pushes, p, place, name, version);
      var g := FindGroup(groups, name, version);
      assert after[g].name == name && after[g].version == version;
    }
  }

  // ----- totals -----

  function ArtifactCount(groups: seq<Group>): nat {
    if groups == [] then 0 else ArtifactCount(groups[..|groups| - 1]) + |groups[|groups| - 1].artifacts|
  }

  lemma {:induction false} CountReplaced(groups: seq<Group>, g: nat, group: Group)
    requires g < |groups|
    ensures ArtifactCount(groups[g := group]) == ArtifactCount(groups) - |groups[g].artifacts| + |group.artifacts|
  {
    var n := |groups| - 1;
    if g < n {
      CountReplaced(groups[..n], g, group);
      assert groups[g := group][..n] == groups[..n][g := group];
    } else {
      assert groups[g := group][..n] == groups[..n];
    }
  }

  lemma GrownCount(groups: seq<Group>, p: Pushed)
    requires HasPrefix(p.src.base)
    ensures ArtifactCount(Grown(groups, p)) == ArtifactCount(groups) + 1
  {
    hide BuildinfoUrl, ReportOf;
    var g := FindGroup(groups, p.src.base, p.src.version);
    if g < |groups| {
      CountReplaced(groups, g, groups[g].(artifacts := groups[g].artifacts + [ReportOf(p)]));
    } else {
      assert Grown(groups, p)[..|groups|] == groups;
    }
  }

  /** Artifacts in all reports. */
  ghost function Total(reports: map<Place, seq<Group>>): nat
    decreases |reports|
  {
    if reports == map[] then 0
    else
      var place :| place in reports;
      assert (reports - {place}).Keys == reports.Keys - {place};
      ArtifactCount(reports[place]) + Total(reports - {place})
  }

  lemma {:induction false} TotalWithout(reports: map<Place, seq<Group>>, place: Place)
    requires place in reports
    ensures Total(reports) == ArtifactCount(reports[place]) + Total(reports - {place})
    decreases |reports|
  {
    var other :| other in reports && Total(reports) == ArtifactCount(reports[other]) + Total(reports - {other});
    if other != place {
      assert (reports - {other}).Keys == reports.Keys - {other} && (reports - {place}).Keys == reports.Keys - {place};
      TotalWithout(reports - {other}, place);
      TotalWithout(reports - {place}, other);
      assert reports - {other} - {place} == reports - {place} - {other};
    }
  }

  lemma TotalUpdate(reports: map<Place, seq<Group>>, place: Place, groups: seq<Group>)
    ensures Total(reports[place := groups])
            == Total(reports) - (if place in reports then ArtifactCount(reports[place]) else 0) + ArtifactCount(groups)
  {
    TotalWithout(reports[place := groups], place);
    assert reports[place := groups] - {place} == reports - {place};
    if place in reports {
      TotalWithout(reports, place);
    } else {
      assert reports - {place} == reports;
    }
  }

  /** Every push is in its own group and in no other. */
  ghost predicate Agree(reports: map<Place, seq<Group>>, pushes: seq<Pushed>) {
    && (forall p :: p in pushes ==> PlaceOf(p) in reports)
    && (forall place :: place in reports ==> GroupsAgree(reports[place], pushes, place))
    && Total(reports) == |pushes|
  }

  lemma {:induction false} PushIsListed(pushes: seq<Pushed>, p: Pushed)
    requires p in pushes
    ensures ReportOf(p) in ArtifactsFor(pushes, PlaceOf(p), p.src.base, p.src.version)
  {
    var n := |pushes| - 1;
    if p != pushes[n] {
      assert p in pushes[..n];
      PushIsListed(pushes[..n], p);
    }
  }

  /** Every push has exactly one group, and is listed there. */
  lemma PushHasOneGroup(reports: map<Place, seq<Group>>, pushes: seq<Pushed>, p: Pushed) returns (g: nat)
    requires Agree(reports, pushes) && p in pushes
    ensures PlaceOf(p) in reports && g < |reports[PlaceOf(p)]|
    ensures var groups := reports[PlaceOf(p)];
            && groups[g].name == p.src.base && groups[g].version == p.src.version
            && BinaryReport(p.bin.name, p.bin.version, p.bin.architecture, p.site + "/" + p.bin.filename)
               in groups[g].artifacts
            && forall h :: 0 <= h < |groups| && groups[h].name == p.src.base && groups[h].version == p.src.version ==>
                 h == g
  {
    hide BuildinfoUrl, Total;
    PushIsListed(pushes, p);
    var groups := reports[PlaceOf(p)];
    assert HasGroup(groups, p.src.base, p.src.version);
    g := FindGroup(groups, p.src.base, p.src.version);
    assert IsGroup(groups[g], pushes, PlaceOf(p));
  }

  function WithPush(reports: map<Place, seq<Group>>, p: Pushed): map<Place, seq<Group>>
    requires HasPrefix(p.src.base)
  {
    reports[PlaceOf(p) := Grown(if PlaceOf(p) in reports then reports[PlaceOf(p)] else [], p)]
  }

  lemma PushKeepsAgreement(reports: map<Place, seq<Group>>, pushes: seq<Pushed>, p: Pushed)
    requires Agree(reports, pushes) && HasPrefix(p.src.base)
    ensures Agree(WithPush(reports, p), pushes + [p])
  {
    hide GroupsAgree, BuildinfoUrl, Total, Grown;
    var groups := if PlaceOf(p) in reports then reports[PlaceOf(p)] else [];
    if PlaceOf(p) !in reports {
      NothingPushed(pushes, PlaceOf(p));
    }
    GroupsGrow(groups, pushes, p);
    GrownCount(groups, p);
    TotalUpdate(reports, PlaceOf(p), Grown(groups, p));
    forall other | other in reports && other != PlaceOf(p) ensures GroupsAgree(reports[other], pushes + [p], other) {
      GroupsKeep(reports[other], pushes, p, other);
    }
  }

  // ----- the state -----

  class SyncState {
    var reports: map<Place, seq<Group>>
    ghost var pushes: seq<Pushed>

    ghost predicate Valid()
      reads this
    {
      Agree(reports, pushes)
    }

    constructor ()
      ensures Valid() && pushes == [] && reports == map[]
    {
      reports, pushes := map[], [];
    }

    /** An empty report is created where there is none. */
    method CreateReleaseGroup(place: Place)
      requires Valid()
      modifies this`reports
      ensures Valid() && place in reports
      ensures forall other :: other in reports <==> other in old(reports) || other == place
      ensures forall other :: other in old(reports) ==> reports[other] == old(reports)[other]
      ensures place !in old(reports) ==> reports[place] == []
    {
      if place !in reports {
        NothingPushed(pushes, place);
        TotalUpdate(reports, place, []);
        reports := reports[place := []];
      }
    }

    /** The position of the group of a source package, which is created if needed. */
    method FindOrAddGroup(src: SourcePkg, place: Place) returns (g: nat)
      requires Valid() && HasPrefix(src.base)
      modifies this`reports
      ensures place in reports && g < |reports[place]|
      ensures reports.Keys == old(reports).Keys + {place}
      ensures forall other :: other in old(reports) && other != place ==> reports[other] == old(reports)[other]
      ensures var before := if place in old(reports) then old(reports)[place] else [];
              && g == FindGroup(before, src.base, src.version)
              && reports[place] == if g < |before| then before
                 else before + [Group(src.base, src.version,
                                      BuildinfoUrl(src.base, src.version, place.architecture), [])]
    {
      hide GroupsAgree, BuildinfoUrl, Total;
      CreateReleaseGroup(place);
      var groups := reports[place];
      g := 0;
      while g < |groups| && (src.base != groups[g].name || src.version != groups[g].version)
        invariant g <= |groups|
        invariant forall h :: 0 <= h < g ==> src.base != groups[h].name || src.version != groups[h].version
      {
        g := g + 1;
      }
      FirstGroup(groups, src.base, src.version, g);
      if g == |groups| {
        reports := reports[place := groups + [Group(src.base, src.version,
                                                     BuildinfoUrl(src.base, src.version, place.architecture), [])]];
      }
    }

    /** Adds a binary package to the group of its source package. */
    method Push(src: SourcePkg, bin: BinPkg, site: string, release: string, component: string)
      requires Valid() && HasPrefix(src.base)
      modifies this
      ensures Valid() && pushes == old(pushes) + [Pushed(src, bin, site, release, component)]
      ensures reports == WithPush(old(reports), Pushed(src, bin, site, release, component))
    {
      hide Agree, BuildinfoUrl;
      ghost var p := Pushed(src, bin, site, release, component);
      PushKeepsAgreement(reports, pushes, p);
      var place := Place(release, component, bin.architecture);
      var g := FindOrAddGroup(src, place);
      var group := reports[place][g];
      var report := BinaryReport(bin.name, bin.version, bin.architecture, site + "/" + bin.filename);
      reports := reports[place := reports[place][g := group.(artifacts := group.artifacts + [report])]];
      assert group.artifacts == [] ==> group.artifacts + [report] == [report];
      assert reports[place] == WithPush(old(reports), p)[place];
      assert reports == WithPush(old(reports), p);
      pushes := pushes + [p];
    }
  }

  lemma FirstGroup(groups: seq<Group>, name: string, version: string, g: nat)
    requires g <= |groups|
    requires g < |groups| ==> groups[g].name == name && groups[g].version == version
    requires forall h :: 0 <= h < g ==> groups[h].name != name || groups[h].version != version
    ensures FindGroup(groups, name, version) == g
  {
  }

  lemma {:induction false} NothingPushed(pushes: seq<Pushed>, place: Place)
    requires forall p :: p in pushes ==> PlaceOf(p) != place
    ensures GroupsAgree([], pushes, place)
  {
    if pushes != [] {
      var n := |pushes| - 1;
      NothingPushed(pushes[..n], place);
      assert pushes[n] in pushes;
    }
  }
}
