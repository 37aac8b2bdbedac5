/** The cache of packages on which other rebuilders disagree. */
module Peers {
  import opened Options
  import opened Collections
  import opened Rows
  import opened Pagination

  datatype Peer = Peer(
    url: string,
    distribution: string,
    architecture: string,
    release: string,
    releaseAlias: string)

  datatype Check = Check(
    peer: nat,
    name: string,
    version: string,
    build: Option<int>,
    checkedAt: Time,
    status: BuildStatus)

  datatype Key = Key(name: string, version: string)

  datatype PeerPackage = PeerPackage(status: BuildStatus, build: Option<int>)

  /** What one peer reported. */
  datatype Fetched = Fetched(peer: nat, packages: map<Key, PeerPackage>)

  // ----- what a check computes -----

  predicate Disagree(a: BuildStatus, b: BuildStatus) {
    (a == BuildStatus.Good && b == BuildStatus.Bad) || (a == BuildStatus.Bad && b == BuildStatus.Good)
  }

  predicate IsDisagreement(f: Fetched, local: map<Key, BuildStatus>, key: Key) {
    key in f.packages && key in local && Disagree(f.packages[key].status, local[key])
  }

  function CheckOf(f: Fetched, key: Key, now: Time): Check
    requires key in f.packages
  {
    Check(f.peer, key.name, key.version, f.packages[key].build, now, f.packages[key].status)
  }

  function Disagreements(f: Fetched, local: map<Key, BuildStatus>, now: Time): set<Check> {
    set key | key in f.packages && IsDisagreement(f, local, key) :: CheckOf(f, key, now)
  }

  /** Rows that a list of peers asks for. */
  function Wanted(fetched: seq<Fetched>, local: map<Key, BuildStatus>, now: Time): set<Check> {
    set f, c | f in fetched && c in Disagreements(f, local, now) :: c
  }

  function PeersOf(fetched: seq<Fetched>): set<nat> {
    set f | f in fetched :: f.peer
  }

  /** The cache after a check: the rows of the compared peers are replaced. */
  function Replaced(rows: set<Check>, fetched: seq<Fetched>, local: map<Key, BuildStatus>, now: Time): set<Check> {
    (set c | c in rows && c.peer !in PeersOf(fetched)) + Wanted(fetched, local, now)
  }

  ghost predicate PeersDistinct(fetched: seq<Fetched>) {
    forall a, b :: 0 <= a < b < |fetched| ==> fetched[a].peer != fetched[b].peer
  }

  /**
   The rows of a compared peer are exactly its disagreements, one side GOOD and the other BAD, in whatever order the
   peers finished; rows of other peers stay.
   */
  lemma CachedIffDisagreement(
      rows: set<Check>, fetched: seq<Fetched>, local: map<Key, BuildStatus>, now: Time, f: Fetched, c: Check)
    requires PeersDistinct(fetched) && f in fetched && c.peer == f.peer
    ensures var key := Key(c.name, c.version);
            c in Replaced(rows, fetched, local, now)
            <==> && key in f.packages && key in local
                 && (|| (f.packages[key].status == BuildStatus.Good && local[key] == BuildStatus.Bad)
                     || (f.packages[key].status == BuildStatus.Bad && local[key] == BuildStatus.Good))
                 && c.status == f.packages[key].status && c.build == f.packages[key].build && c.checkedAt == now
    ensures forall d: Check :: (forall g :: g in fetched ==> g.peer != d.peer) ==>
                                 (d in Replaced(rows, fetched, local, now) <==> d in rows)
  {
    var key := Key(c.name, c.version);
    if c in Wanted(fetched, local, now) {
      var g :| g in fetched && c in Disagreements(g, local, now);
      assert g.peer == f.peer && g == f;
    }
    if IsDisagreement(f, local, key) && c == CheckOf(f, key, now) {
      assert c in Disagreements(f, local, now);
    }
  }

  lemma WantedOfPeers(fetched: seq<Fetched>, local: map<Key, BuildStatus>, now: Time)
    ensures forall c :: c in Wanted(fetched, local, now) ==> c.peer in PeersOf(fetched)
  {
  }

  /** Rows to insert, peer by peer and package by package, in whatever order the map is iterated. */
  method Collect(fetched: seq<Fetched>, local: map<Key, BuildStatus>, now: Time) returns (upserts: seq<Check>)
    requires PeersDistinct(fetched)
    ensures forall c :: c in upserts <==> c in Wanted(fetched, local, now)
    ensures KeysDistinct(upserts)
  {
    upserts := [];
    for f := 0 to |fetched|
      invariant forall c :: c in upserts <==> c in Wanted(fetched[..f], local, now)
      invariant KeysDistinct(upserts)
    {
      assert fetched[..f + 1] == fetched[..f] + [fetched[f]];
      var more := CollectPeer(fetched[f], local, now);
      assert forall c :: c in Wanted(fetched[..f], local, now) ==> c.peer != fetched[f].peer;
      assert forall a :: 0 <= a < |upserts| ==> upserts[a] in upserts;
      assert forall a :: 0 <= a < |more| ==> more[a] in more;
      upserts := upserts + more;
    }
    assert fetched[..|fetched|] == fetched;
  }

  method CollectPeer(f: Fetched, local: map<Key, BuildStatus>, now: Time) returns (upserts: seq<Check>)
    ensures forall c :: c in upserts <==> c in Disagreements(f, local, now)
    ensures KeysDistinct(upserts)
  {
    upserts := [];
    var keys := InSomeOrder(f.packages.Keys);
    for n := 0 to |keys|
      invariant forall c :: c in upserts <==>
                  exists k :: 0 <= k < n && IsDisagreement(f, local, keys[k]) && c == CheckOf(f, keys[k], now)
      invariant KeysDistinct(upserts)
    {
      var key := keys[n];
      assert forall a :: 0 <= a < |upserts| ==> upserts[a] in upserts;
      if key in local && Disagree(f.packages[key].status, local[key]) {
        upserts := upserts + [CheckOf(f, key, now)];
      }
    }
  }

  ghost predicate KeysDistinct(checks: seq<Check>) {
    forall a, b :: 0 <= a < b < |checks| ==> !SameCheck(checks[a], checks[b])
  }

  lemma AddedValue<K, V>(m: map<K, V>, k: K, v: V)
    requires k !in m
    ensures m[k := v].Values == m.Values + {v}
  {
    forall x | x in m.Values ensures x in m[k := v].Values {
      var j :| j in m && m[j] == x;
      assert m[k := v][j] == x;
    }
    assert m[k := v][k] == v;
  }

  lemma KeptValues(checks: map<nat, Check>, compared: set<nat>)
    ensures (map k | k in checks && checks[k].peer !in compared :: checks[k]).Values
            == set c | c in checks.Values && c.peer !in compared
  {
    var kept := map k | k in checks && checks[k].peer !in compared :: checks[k];
    forall c | c in checks.Values && c.peer !in compared ensures c in kept.Values {
      var k :| k in checks && checks[k] == c;
      assert kept[k] == c;
    }
  }

  /** No row from `n` on has the key of a cached one. */
  ghost predicate NoneCached(checks: map<nat, Check>, rows: seq<Check>, n: nat) {
    forall m, k :: n <= m < |rows| && k in checks ==> !SameCheck(rows[m], checks[k])
  }

  lemma AllNew(checks: map<nat, Check>, rows: seq<Check>)
    requires forall c, k :: c in rows && k in checks ==> !SameCheck(c, checks[k])
    ensures NoneCached(checks, rows, 0)
  {
    assert forall m :: 0 <= m < |rows| ==> rows[m] in rows;
  }

  lemma NextIsNew(checks: map<nat, Check>, rows: seq<Check>, n: nat, id: nat)
    requires KeysDistinct(rows) && n < |rows| && NoneCached(checks, rows, n)
    ensures forall k :: k in checks ==> !SameCheck(rows[n], checks[k])
    ensures NoneCached(checks[id := rows[n]], rows, n + 1)
  {
  }

  // ----- the tables -----

  class PeerTables {
    var peers: map<nat, Peer>
    var nextPeer: nat
    var checks: map<nat, Check>
    var nextCheck: nat

    constructor ()
      ensures Valid() && peers == map[] && checks == map[]
    {
      peers, nextPeer, checks, nextCheck := map[], 0, map[], 0;
    }

    /** Unique keys, fresh ids, and no row of an unknown peer. */
    ghost predicate Valid()
      reads this
    {
      && (forall p :: p in peers ==> p < nextPeer)
      && (forall p, q :: p in peers && q in peers && SamePeer(peers[p], peers[q]) ==> p == q)
      && (forall k :: k in checks ==> k < nextCheck && checks[k].peer in peers)
      && (forall k, l :: k in checks && l in checks && SameCheck(checks[k], checks[l]) ==> k == l)
    }

    ghost function CachedRows(): set<Check>
      reads this
    {
      checks.Values
    }

    /** Inserts the peer, or updates its release and alias; the id of a known peer stays. */
    method UpsertPeer(peer: Peer)
      requires Valid()
      modifies this`peers, this`nextPeer
      ensures Valid() && old(nextPeer) <= nextPeer
      ensures Upserted(old(peers), old(nextPeer), peers, peer)
    {
      if p :| p in peers && SamePeer(peers[p], peer) {
        peers := peers[p := peers[p].(release := peer.release, releaseAlias := peer.releaseAlias)];
        assert peers[p] == peer;
      } else {
        peers := peers[nextPeer := peer];
        assert peers[nextPeer] == peer;
        nextPeer := nextPeer + 1;
      }
    }

    method UpsertPeers(req: Registration)
      requires Valid()
      modifies this`peers, this`nextPeer
      ensures Valid()
      ensures Configured(old(peers), old(nextPeer), peers, req, req.urls)
    {
      hide Configured, Upserted;
      NothingConfigured(peers, nextPeer, req);
      for n := 0 to |req.urls|
        invariant Valid() && old(nextPeer) <= nextPeer
        invariant Configured(old(peers), old(nextPeer), peers, req, req.urls[..n])
      {
        ghost var before, next := peers, nextPeer;
        UpsertPeer(NewPeer(req, req.urls[n]));
        ConfigureOneMore(old(peers), old(nextPeer), before, next, peers, req, req.urls[..n], req.urls[n]);
        assert req.urls[..n + 1] == req.urls[..n] + [req.urls[n]];
      }
      assert req.urls[..|req.urls|] == req.urls;
    }

    /**
     Makes `req` the configuration of one distribution and architecture: the URLs it lists are the ones registered,
     known peers keep their ids, and the checks of forgotten peers go with them.
     */
    method Register(req: Registration)
      requires Valid()
      modifies this
      ensures Valid()
      ensures Registered(old(peers), old(nextPeer), peers, req)
      ensures checks == map k | k in old(checks) && old(checks)[k].peer in peers :: old(checks)[k]
    {
      hide Configured, Registered, OnlyListed;
      UpsertPeers(req);
      ForgetOthers(old(peers), old(nextPeer), peers, req);
      ForgetUnlisted(req);
    }

    /** Deleting a peer deletes its checks. */
    method ForgetUnlisted(req: Registration)
      requires Valid()
      modifies this`peers, this`checks
      ensures Valid()
      ensures peers == OnlyListed(old(peers), req)
      ensures checks == map k | k in old(checks) && old(checks)[k].peer in peers :: old(checks)[k]
    {
      peers := OnlyListed(peers, req);
      checks := map k | k in checks && checks[k].peer in peers :: checks[k];
    }

    /**
     Compares every fetched peer with the local packages and replaces its cached rows in one transaction.
     The transaction fails if a peer with a row to insert has been deleted meanwhile.
     */
    method StoreChecks(fetched: seq<Fetched>, local: map<Key, BuildStatus>, now: Time) returns (ok: bool)
      requires Valid() && PeersDistinct(fetched)
      modifies this`checks, this`nextCheck
      ensures Valid()
      ensures ok <==> forall c :: c in Wanted(fetched, local, now) ==> c.peer in peers
      ensures ok ==> CachedRows() == Replaced(old(CachedRows()), fetched, local, now)
      ensures !ok ==> checks == old(checks)
    {
      hide Wanted, Disagreements;
      var upserts := Collect(fetched, local, now);
      var before, next := checks, nextCheck;
      DeleteChecks(PeersOf(fetched));
      KeptValues(before, PeersOf(fetched));
      WantedOfPeers(fetched, local, now);
      ok := InsertChecks(upserts);
      if !ok {
        checks, nextCheck := before, next;
      }
    }

    method DeleteChecks(compared: set<nat>)
      requires Valid()
      modifies this`checks
      ensures Valid()
      ensures checks == map k | k in old(checks) && old(checks)[k].peer !in compared :: old(checks)[k]
    {
      checks := map k | k in checks && checks[k].peer !in compared :: checks[k];
    }

    /** Stops at the first row whose peer is gone. */
    method InsertChecks(rows: seq<Check>) returns (ok: bool)
      requires Valid() && KeysDistinct(rows)
      requires forall c, k :: c in rows && k in checks ==> !SameCheck(c, checks[k])
      modifies this`checks, this`nextCheck
      ensures ok <==> forall c :: c in rows ==> c.peer in peers
      ensures ok ==> Valid() && CachedRows() == old(CachedRows()) + set c | c in rows
    {
      hide Valid, KeysDistinct, SameCheck, NoneCached;
      AllNew(checks, rows);
      for n := 0 to |rows|
        invariant Valid()
        invariant forall m :: 0 <= m < n ==> rows[m].peer in peers
        invariant NoneCached(checks, rows, n)
        invariant CachedRows() == old(CachedRows()) + set c | c in rows[..n]
      {
        if rows[n].peer !in peers {
          return false;
        }
        NextIsNew(checks, rows, n, nextCheck);
        InsertCheck(rows[n]);
        assert rows[..n + 1] == rows[..n] + [rows[n]];
      }
      assert rows[..|rows|] == rows;
      return true;
    }

    method InsertCheck(row: Check)
      requires Valid() && row.peer in peers
      requires forall k :: k in checks ==> !SameCheck(row, checks[k])
      modifies this`checks, this`nextCheck
      ensures Valid() && checks == old(checks)[old(nextCheck) := row]
      ensures CachedRows() == old(CachedRows()) + {row}
    {
      AddedValue(checks, nextCheck, row);
      checks := checks[nextCheck := row];
      nextCheck := nextCheck + 1;
    }
  }

  ghost predicate Upserted(before: map<nat, Peer>, next: nat, after: map<nat, Peer>, peer: Peer) {
    && peer in after.Values
    && (forall p :: p in before ==>
          p in after && after[p] == if SamePeer(before[p], peer) then peer else before[p])
    && (forall p :: p in after && p !in before ==> next <= p && after[p] == peer)
  }

  /** `after` holds the listed URLs, renewed in place where they were known. */
  ghost predicate Configured(
      before: map<nat, Peer>, next: nat, after: map<nat, Peer>, req: Registration, urls: seq<string>)
  {
    && (forall url :: url in urls ==> NewPeer(req, url) in after.Values)
    && (forall p :: p in before ==>
          p in after && after[p] == if before[p].url in urls then Renewed(req, before[p]) else before[p])
    && (forall p :: p in after && p !in before ==>
          next <= p && after[p].url in urls && after[p] == NewPeer(req, after[p].url))
  }

  function OnlyListed(peers: map<nat, Peer>, req: Registration): map<nat, Peer> {
    map p | p in peers && (InScope(req, peers[p]) ==> peers[p].url in req.urls) :: peers[p]
  }

  /** The outcome of a registration. */
  ghost predicate Registered(before: map<nat, Peer>, next: nat, after: map<nat, Peer>, req: Registration) {
    // exactly the listed URLs are registered, with the release of the request
    && (forall url :: url in req.urls ==>
          Peer(url, req.distribution, req.architecture, req.release, req.releaseAlias) in after.Values)
    && (forall p | p in after && IsOf(req, after[p]) ::
          after[p].url in req.urls && after[p].release == req.release && after[p].releaseAlias == req.releaseAlias)
    // known peers disappear only when they are in scope and not listed; the others keep their ids
    && (forall p :: p in before ==> (p in after <==> !IsOf(req, before[p]) || before[p].url in req.urls))
    && (forall p :: p in before && p in after ==>
          && SamePeer(after[p], before[p])
          && (!IsOf(req, before[p]) ==> after[p] == before[p]))
    // other peers are new, in scope, and have fresh ids
    && (forall p :: p in after && p !in before ==> next <= p && IsOf(req, after[p]))
  }

  /** The peer is for the distribution and the architecture of the request. */
  predicate IsOf(req: Registration, p: Peer) {
    req.distribution == p.distribution && req.architecture == p.architecture
  }

  lemma ForgetOthers(before: map<nat, Peer>, next: nat, middle: map<nat, Peer>, req: Registration)
    requires Configured(before, next, middle, req, req.urls)
    ensures Registered(before, next, OnlyListed(middle, req), req)
  {
    var after := OnlyListed(middle, req);
    forall url | url in req.urls ensures NewPeer(req, url) in after.Values {
      var p :| p in middle && middle[p] == NewPeer(req, url);
      assert after[p] == middle[p];
    }
  }

  lemma NothingConfigured(peers: map<nat, Peer>, next: nat, req: Registration)
    ensures Configured(peers, next, peers, req, req.urls[..0])
  {
  }

  lemma ConfigureOneMore(
      before: map<nat, Peer>, next: nat, middle: map<nat, Peer>, later: nat, after: map<nat, Peer>,
      req: Registration, urls: seq<string>, url: string)
    requires Configured(before, next, middle, req, urls) && next <= later
    requires Upserted(middle, later, after, NewPeer(req, url))
    ensures Configured(before, next, after, req, urls + [url])
  {
    assert forall u :: u in urls + [url] <==> u in urls || u == url;
    forall u | u in urls ensures NewPeer(req, u) in after.Values {
      var p :| p in middle && middle[p] == NewPeer(req, u);
      assert after[p] == middle[p];
    }
  }

  datatype Registration = Registration(
    urls: seq<string>,
    distribution: string,
    architecture: string,
    release: string,
    releaseAlias: string)

  predicate InScope(req: Registration, p: Peer) {
    p.distribution == req.distribution && p.architecture == req.architecture
  }

  function NewPeer(req: Registration, url: string): Peer {
    Peer(url, req.distribution, req.architecture, req.release, req.releaseAlias)
  }

  function Renewed(req: Registration, p: Peer): Peer {
    if InScope(req, p) then NewPeer(req, p.url) else p
  }

  predicate SamePeer(a: Peer, b: Peer) {
    a.url == b.url && a.distribution == b.distribution && a.architecture == b.architecture
  }

  predicate SameCheck(a: Check, b: Check) {
    a.peer == b.peer && a.name == b.name && a.version == b.version
  }

  // ----- fetching from one peer -----

  /** A binary package in the answer of a peer. */
  datatype Record = Record(
    name: string,
    version: string,
    status: Option<BuildStatus>,
    rebuildStatus: Option<BuildStatus>,
    build: Option<int>)

  function KeyOf(r: Record): Key {
    Key(r.name, r.version)
  }

  /** The artifact's status, else that of the rebuild. */
  function PackageOf(r: Record): PeerPackage {
    PeerPackage(
      if r.status.Some? then r.status.value
      else if r.rebuildStatus.Some? then r.rebuildStatus.value
      else BuildStatus.Unknown,
      r.build)
  }

  /** Later records replace earlier ones of the same name and version. */
  function PackagesOf(records: map<nat, Record>, ids: seq<nat>): (packages: map<Key, PeerPackage>)
    requires forall id :: id in ids ==> id in records
  {
    if ids == [] then map[]
    else
      var last := records[ids[|ids| - 1]];
      PackagesOf(records, ids[..|ids| - 1])[KeyOf(last) := PackageOf(last)]
  }

  /** No later record has the same name and version. */
  ghost predicate IsLastOfKey(records: map<nat, Record>, id: nat) {
    && id in records
    && forall o :: o in records && KeyOf(records[o]) == KeyOf(records[id]) ==> o <= id
  }

  lemma {:induction false} PackagesAppend(records: map<nat, Record>, a: seq<nat>, b: seq<nat>, key: Key)
    requires forall id :: id in a + b ==> id in records
    ensures (forall id :: id in a ==> id in records) && (forall id :: id in b ==> id in records)
    ensures key in PackagesOf(records, a + b) <==> key in PackagesOf(records, a) || key in PackagesOf(records, b)
    ensures key in PackagesOf(records, b) ==>
              key in PackagesOf(records, a + b) && PackagesOf(records, a + b)[key] == PackagesOf(records, b)[key]
    ensures key in PackagesOf(records, a) && key !in PackagesOf(records, b) ==>
              key in PackagesOf(records, a + b) && PackagesOf(records, a + b)[key] == PackagesOf(records, a)[key]
  {
    assert forall id :: id in a || id in b ==> id in a + b;
    if b == [] {
      assert a + b == a;
    } else {
      var n := |b| - 1;
      assert (a + b)[..|a + b| - 1] == a + b[..n];
      assert forall id :: id in a + b[..n] ==> id in a + b;
      PackagesAppend(records, a, b[..n], key);
    }
  }

  lemma {:induction false} PackageHasRecord(records: map<nat, Record>, ids: seq<nat>, key: Key)
    requires forall id :: id in ids ==> id in records
    ensures key in PackagesOf(records, ids) <==> exists id :: id in ids && KeyOf(records[id]) == key
  {
    if ids != [] {
      var n := |ids| - 1;
      assert ids == ids[..n] + [ids[n]];
      PackageHasRecord(records, ids[..n], key);
    }
  }

  /** In id order, the record with the highest id decides. */
  lemma {:induction false} LastOfKeyDecides(records: map<nat, Record>, ids: seq<nat>, id: nat)
    requires id in ids && forall i :: i in ids ==> i in records
    requires forall i, j :: 0 <= i < j < |ids| ==> ids[i] <= ids[j]
    requires IsLastOfKey(records, id)
    ensures KeyOf(records[id]) in PackagesOf(records, ids)
    ensures PackagesOf(records, ids)[KeyOf(records[id])] == PackageOf(records[id])
  {
    var n := |ids| - 1;
    if ids[n] != id {
      var k :| 0 <= k < n && ids[k] == id;
      assert ids[..n][k] == id && ids[n] in ids;
      LastOfKeyDecides(records, ids[..n], id);
    }
  }

  /**
   Pages through the packages of a peer, a thousand at a time and by id.  `rows` lists the ids of its answer, some
   perhaps repeatedly: even if copies are lost between two pages, no package is.
   */
  method FetchPackages(records: map<nat, Record>, rows: seq<nat>) returns (packages: map<Key, PeerPackage>)
    requires forall id :: id in records <==> id in rows
    ensures forall key :: key in packages <==> exists id :: id in records && KeyOf(records[id]) == key
    ensures forall id :: IsLastOfKey(records, id) ==>
              var key := Key(records[id].name, records[id].version);
              && key in packages && packages[key].build == records[id].build
              && packages[key].status
                 == if records[id].status.Some? then records[id].status.value
                    else if records[id].rebuildStatus.Some? then records[id].rebuildStatus.value
                    else BuildStatus.Unknown
  {
    hide Listed, PageOf;
    var t, page := Table(map[], rows), Page(Some(1000), None, None, false, None);
    packages := map[];
    ghost var seen: seq<nat> := [];
    var query := page;
    while true
      invariant LimitOf(query) == 1000
      invariant forall id :: id in seen ==> id in records
      invariant packages == PackagesOf(records, seen)
      invariant seen + Walked(t, query, true) == Walked(t, page, true)
      decreases |Listed(t, query)|
    {
      var list := RunPaginated(t, query);
      PageHasRows(t, query);
      packages := InsertAll(records, packages, seen, list);
      seen := seen + list;
      if |list| < 1000 {
        break;
      }
      NextIsShorter(t, query);
      query := NextPage(query, list[|list| - 1]);
    }
    StoppingRulesAgree(t, page);
    AllRecordsById(records, t, page, seen);
  }

  lemma AllRecordsById(records: map<nat, Record>, t: Table, page: Page, seen: seq<nat>)
    requires forall id :: id in records <==> id in t.rows
    requires page == Page(Some(1000), None, None, false, None) && seen == Walked(t, page, false)
    ensures forall id :: id in seen ==> id in records
    ensures forall key :: key in PackagesOf(records, seen) <==> exists id :: id in records && KeyOf(records[id]) == key
    ensures forall id :: IsLastOfKey(records, id) ==>
              && KeyOf(records[id]) in PackagesOf(records, seen)
              && PackagesOf(records, seen)[KeyOf(records[id])] == PackageOf(records[id])
  {
    hide PackagesOf, Listed, Walked;
    EveryIdIsSeen(t, page);
    ListedHasRows(t, page);
    WalkIsOrdered(t, page);
    forall key ensures key in PackagesOf(records, seen) <==> exists id :: id in records && KeyOf(records[id]) == key {
      PackageHasRecord(records, seen, key);
    }
    forall id | IsLastOfKey(records, id)
      ensures KeyOf(records[id]) in PackagesOf(records, seen)
      ensures PackagesOf(records, seen)[KeyOf(records[id])] == PackageOf(records[id])
    {
      LastOfKeyDecides(records, seen, id);
    }
  }

  method InsertAll(records: map<nat, Record>, known: map<Key, PeerPackage>, ghost seen: seq<nat>, list: seq<nat>)
    returns (packages: map<Key, PeerPackage>)
    requires forall id :: id in seen + list ==> id in records
    requires known == PackagesOf(records, seen)
    ensures packages == PackagesOf(records, seen + list)
  {
    packages := known;
    assert forall n :: 0 <= n < |list| ==> list[n] in seen + list;
    assert seen + list[..0] == seen;
    for n := 0 to |list|
      invariant forall id :: id in seen + list[..n] ==> id in records
      invariant packages == PackagesOf(records, seen + list[..n])
    {
      var record := records[list[n]];
      assert (seen + list[..n + 1])[..|seen| + n] == seen + list[..n];
      packages := packages[KeyOf(record) := PackageOf(record)];
    }
    assert list[..|list|] == list;
  }
}
