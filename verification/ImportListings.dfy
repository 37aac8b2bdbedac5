/** What an import does to source and binary packages, package by package. */
module ImportListings {
  import opened Rows
  import opened PackageImport
  import opened ImportFacts
  import opened Invariants
  import opened ImportFlags
  import opened ImportReads
  import opened ImportQueueRows

  // ----- source packages -----

  /** A build input of the report's distribution, release, component and architecture. */
  predicate IsInScope(db: Db, report: ScopeReport, i: nat) {
    && i < |db.inputs| && db.inputs[i].source < |db.sources|
    && db.sources[db.inputs[i].source].identity.scope == report.scope
    && db.inputs[i].cls.architecture == report.architecture
  }

  ghost predicate HasInputInScope(db: Db, report: ScopeReport, s: nat) {
    exists i: nat :: IsInScope(db, report, i) && db.inputs[i].source == s
  }

  /** Package `k` is the last of the first `n` that lists the source package. */
  ghost predicate IsLastListing(out: Db, env: Env, n: nat, s: nat, k: nat) {
    && k < n && k < |env.report.packages| && IsSourceOf(out, env.report, env.report.packages[k], s)
    && forall m :: k < m < n && m < |env.report.packages| ==> !IsSourceOf(out, env.report, env.report.packages[m], s)
  }

  ghost predicate HasSource(out: Db, env: Env, k: nat)
    requires k < |env.report.packages|
  {
    exists s: nat :: IsSourceOf(out, env.report, env.report.packages[k], s)
  }

  /** Listed packages get a row with all the report says of them; the others are unseen now if they are in scope. */
  ghost predicate SourceRowsAre(db: Db, out: Db, env: Env, n: nat) {
    && |db.sources| <= |out.sources|
    && (forall s: nat, k: nat | IsLastListing(out, env, n, s, k) ::
          var p := env.report.packages[k];
          out.sources[s] == Source(Identity(p.name, p.version, env.report.scope), env.now, true, p.gitHash, p.buildTime,
                                   p.gitTime))
    && (forall s: nat | s < |out.sources| && !IsListedSource(out, env.report, n, s) ::
          && s < |db.sources|
          && out.sources[s] == db.sources[s].(seen := db.sources[s].seen && !HasInputInScope(db, env.report, s)))
    && (forall k: nat | k < n && k < |env.report.packages| :: HasSource(out, env, k))
  }

  lemma MarkedSourceRows(db: Db, env: Env)
    ensures SourceRowsAre(db, MarkUnseen(db, env.report), env, 0)
  {
    assert forall i: nat :: IsInScope(db, env.report, i) == InputInScope(db, env.report, i);
  }

  /** Another package's source row is listed by the same packages as before. */
  lemma SourceStays(before: Db, out: Db, env: Env, n: nat, s: nat)
    requires n < |env.report.packages| && s < |before.sources| && s < |out.sources|
    requires out.sources[s] == before.sources[s] && !IsSourceOf(out, env.report, env.report.packages[n], s)
    ensures forall k: nat :: IsLastListing(out, env, n + 1, s, k) <==> IsLastListing(before, env, n, s, k)
    ensures IsListedSource(out, env.report, n + 1, s) <==> IsListedSource(before, env.report, n, s)
  {
    assert forall p :: IsSourceOf(out, env.report, p, s) == IsSourceOf(before, env.report, p, s);
  }

  lemma ListedNowIsLast(out: Db, env: Env, n: nat, m: nat, s: nat)
    requires m == n + 1 && n < |env.report.packages| && IsSourceOf(out, env.report, env.report.packages[n], s)
    ensures forall k: nat :: IsLastListing(out, env, m, s, k) <==> k == n
    ensures IsListedSource(out, env.report, m, s)
  {
    hide IsSourceOf;
  }

  lemma HasSourceStays(before: Db, out: Db, env: Env, k: nat)
    requires SameOrigins(before, out) && k < |env.report.packages| && HasSource(before, env, k)
    ensures HasSource(out, env, k)
  {
    var s: nat :| IsSourceOf(before, env.report, env.report.packages[k], s);
    assert IsSourceOf(out, env.report, env.report.packages[k], s);
  }

  lemma ImportOneSourceRows(db: Db, before: Db, env: Env, n: nat, c: Choice)
    requires Valid(before) && n < |env.report.packages| && SourceRowsAre(db, before, env, n)
    ensures SourceRowsAre(db, ImportOne(before, env, env.report.packages[n], c), env, n + 1)
  {
    hide ImportOne, HasInputInScope, Valid, IsLastListing, IsListedSource, SourceOf, HasSource;
    var p, m := env.report.packages[n], n + 1;
    var out, at := ImportOne(before, env, p, c), SourceOf(before, env, p);
    ImportOneOrigins(before, env, p, c);
    forall s: nat | s < |out.sources|
      ensures s == at ==> IsListedSource(out, env.report, m, s)
                          && forall k: nat :: IsLastListing(out, env, m, s, k) <==> k == n
      ensures s != at ==>
                && s < |before.sources| && out.sources[s] == before.sources[s]
                && (IsListedSource(out, env.report, m, s) <==> IsListedSource(before, env.report, n, s))
                && forall k: nat :: IsLastListing(out, env, m, s, k) <==> IsLastListing(before, env, n, s, k)
    {
      if s == at {
        ListedNowIsLast(out, env, n, m, s);
      } else {
        var row := out.sources[s];
        assert s < |before.sources| && row == before.sources[s];
        OneSourcePerIdentity(before, env, p, s);
        SourceStays(before, out, env, n, s);
      }
    }
    forall s: nat, k: nat | IsLastListing(out, env, m, s, k) ensures s < |out.sources| && k < |env.report.packages| {
      ListingExists(out, env, m, s, k);
    }
    forall k: nat | k < m ensures HasSource(out, env, k) {
      if k < n {
        HasSourceStays(before, out, env, k);
      } else {
        HasSourceNow(out, env, n, at);
      }
    }
  }

  lemma ListingExists(out: Db, env: Env, n: nat, s: nat, k: nat)
    requires IsLastListing(out, env, n, s, k)
    ensures s < |out.sources| && k < n && k < |env.report.packages|
  {
  }

  lemma HasSourceNow(out: Db, env: Env, n: nat, s: nat)
    requires n < |env.report.packages| && IsSourceOf(out, env.report, env.report.packages[n], s)
    ensures HasSource(out, env, n)
  {
  }

  // ----- binary packages -----

  /** Row `b` is for artifact `a` of package `k`. */
  predicate IsBinaryOf(out: Db, env: Env, k: nat, a: nat, b: Binary) {
    && k < |env.report.packages| && a < |env.report.packages[k].artifacts|
    && IsInputOf(out, env.report, env.report.packages[k], b.input) && b.source == out.inputs[b.input].source
    && b.name == env.report.packages[k].artifacts[a].name && b.version == env.report.packages[k].artifacts[a].version
    && b.architecture == env.report.architecture
  }

  ghost predicate IsBinaryListed(out: Db, env: Env, n: nat, b: Binary) {
    exists k: nat, a: nat :: k < n && IsBinaryOf(out, env, k, a, b)
  }

  ghost predicate IsLastArtifact(out: Db, env: Env, n: nat, b: Binary, k: nat, a: nat) {
    && k < n && IsBinaryOf(out, env, k, a, b)
    && forall m: nat, o: nat :: m < n && IsBinaryOf(out, env, m, o, b) ==> m < k || (m == k && o <= a)
  }

  ghost predicate HasLastUrl(out: Db, env: Env, n: nat, b: Binary) {
    forall k: nat, a: nat | IsLastArtifact(out, env, n, b, k, a) ::
      b.seen && b.url == env.report.packages[k].artifacts[a].url
  }

  ghost predicate HasBinary(out: Db, env: Env, k: nat, a: nat) {
    exists b :: 0 <= b < |out.binaries| && IsBinaryOf(out, env, k, a, out.binaries[b])
  }

  /** Listed binaries have a seen row with the URL listed last; the others are unseen now if they are in scope. */
  ghost predicate BinaryRowsAre(db: Db, out: Db, env: Env, n: nat) {
    && |db.binaries| <= |out.binaries|
    && (forall b: nat | b < |out.binaries| :: HasLastUrl(out, env, n, out.binaries[b]))
    && (forall b: nat | b < |out.binaries| && !IsBinaryListed(out, env, n, out.binaries[b]) ::
          && b < |db.binaries|
          && out.binaries[b]
             == db.binaries[b].(seen := db.binaries[b].seen && !IsInScope(db, env.report, db.binaries[b].input)))
    && (forall k: nat, a: nat ::
          k < n && k < |env.report.packages| && a < |env.report.packages[k].artifacts| ==> HasBinary(out, env, k, a))
  }

  lemma MarkedBinaryRows(db: Db, env: Env, n: nat)
    requires n == 0
    ensures BinaryRowsAre(db, MarkUnseen(db, env.report), env, n)
  {
    var out := MarkUnseen(db, env.report);
    forall b: nat | b < |out.binaries|
      ensures out.binaries[b]
              == db.binaries[b].(seen := db.binaries[b].seen && !IsInScope(db, env.report, db.binaries[b].input))
    {
    }
    assert forall b, k: nat, a: nat :: !IsLastArtifact(out, env, n, b, k, a);
  }

  // ----- the artifacts of one package -----

  predicate IsFor(row: Binary, env: Env, source: nat, input: nat, arts: seq<BinaryReport>, a: nat) {
    a < |arts| && row.SameKey(BinaryRow(env, source, input, arts[a]))
  }

  predicate IsForSome(row: Binary, env: Env, source: nat, input: nat, arts: seq<BinaryReport>) {
    exists a: nat | 0 <= a < |arts| :: IsFor(row, env, source, input, arts, a)
  }

  /** The row is as the last artifact with its key says. */
  ghost predicate SaysLast(row: Binary, env: Env, source: nat, input: nat, arts: seq<BinaryReport>) {
    forall a: nat | IsFor(row, env, source, input, arts, a) ::
      row == BinaryRow(env, source, input, arts[a]) || exists o: nat :: a < o && IsFor(row, env, source, input, arts, o)
  }

  ghost predicate HasRowFor(rows: seq<Binary>, env: Env, source: nat, input: nat, arts: seq<BinaryReport>, a: nat) {
    exists b: nat :: b < |rows| && IsFor(rows[b], env, source, input, arts, a)
  }

  /** What listing the artifacts of one package leaves. */
  ghost predicate ArtifactsListed(
      before: seq<Binary>, after: seq<Binary>, env: Env, source: nat, input: nat, arts: seq<BinaryReport>)
  {
    && |before| <= |after|
    && (forall b: nat | b < |after| ::
          if IsForSome(after[b], env, source, input, arts) then SaysLast(after[b], env, source, input, arts)
          else b < |before| && after[b] == before[b])
    && (forall b: nat | b < |before| :: after[b].SameKey(before[b]))
    && (forall a: nat | a < |arts| :: HasRowFor(after, env, source, input, arts, a))
  }

  lemma {:induction false} ListBinariesLists(
      binaries: seq<Binary>, env: Env, source: nat, input: nat, arts: seq<BinaryReport>)
    requires BinaryKeysUnique(binaries)
    ensures ArtifactsListed(binaries, ListBinaries(binaries, env, source, input, arts), env, source, input, arts)
  {
    hide BinaryKeysUnique, ArtifactsListed, FindBinary;
    if |arts| > 0 {
      var n := |arts| - 1;
      var before := ListBinaries(binaries, env, source, input, arts[..n]);
      ListBinariesLists(binaries, env, source, input, arts[..n]);
      ListBinariesKeepsKeys(binaries, env, source, input, arts[..n]);
      OneMoreArtifact(binaries, before, env, source, input, arts);
    } else {
      NoArtifacts(binaries, env, source, input, arts);
    }
  }

  lemma NoArtifacts(binaries: seq<Binary>, env: Env, source: nat, input: nat, arts: seq<BinaryReport>)
    requires |arts| == 0
    ensures ArtifactsListed(binaries, binaries, env, source, input, arts)
  {
  }

  lemma IsForOneMore(row: Binary, env: Env, source: nat, input: nat, arts: seq<BinaryReport>)
    requires |arts| > 0
    ensures forall a: nat :: IsFor(row, env, source, input, arts, a) <==>
              || IsFor(row, env, source, input, arts[..|arts| - 1], a)
              || (a == |arts| - 1 && row.SameKey(BinaryRow(env, source, input, arts[a])))
    ensures IsForSome(row, env, source, input, arts) <==>
              || IsForSome(row, env, source, input, arts[..|arts| - 1])
              || row.SameKey(BinaryRow(env, source, input, arts[|arts| - 1]))
  {
    hide BinaryRow;
    var n := |arts| - 1;
    assert forall a: nat :: a < n ==>
        (IsFor(row, env, source, input, arts, a) <==> IsFor(row, env, source, input, arts[..n], a));
    assert IsFor(row, env, source, input, arts, n) <==> row.SameKey(BinaryRow(env, source, input, arts[n]));
  }

  lemma SaysLastStays(row: Binary, env: Env, source: nat, input: nat, arts: seq<BinaryReport>)
    requires |arts| > 0 && !row.SameKey(BinaryRow(env, source, input, arts[|arts| - 1]))
    requires SaysLast(row, env, source, input, arts[..|arts| - 1])
    ensures SaysLast(row, env, source, input, arts)
  {
    hide IsFor, BinaryRow;
    IsForOneMore(row, env, source, input, arts);
    IsForInRange(row, env, source, input, arts[..|arts| - 1]);
    forall a: nat | IsFor(row, env, source, input, arts, a)
      ensures row == BinaryRow(env, source, input, arts[a])
              || exists o: nat :: a < o && IsFor(row, env, source, input, arts, o)
    {
      assert a < |arts| - 1 && arts[..|arts| - 1][a] == arts[a];
    }
  }

  lemma IsForInRange(row: Binary, env: Env, source: nat, input: nat, arts: seq<BinaryReport>)
    ensures forall a: nat :: IsFor(row, env, source, input, arts, a) ==> a < |arts|
  {
  }

  lemma SaysLastNow(row: Binary, env: Env, source: nat, input: nat, arts: seq<BinaryReport>)
    requires |arts| > 0 && row == BinaryRow(env, source, input, arts[|arts| - 1])
    ensures IsForSome(row, env, source, input, arts) && SaysLast(row, env, source, input, arts)
    ensures IsFor(row, env, source, input, arts, |arts| - 1)
  {
    hide BinaryRow;
    assert IsFor(row, env, source, input, arts, |arts| - 1);
  }

  lemma OneMoreArtifact(
      binaries: seq<Binary>, before: seq<Binary>, env: Env, source: nat, input: nat, arts: seq<BinaryReport>)
    requires |arts| > 0 && BinaryKeysUnique(before)
    requires ArtifactsListed(binaries, before, env, source, input, arts[..|arts| - 1])
    ensures var row := BinaryRow(env, source, input, arts[|arts| - 1]);
            ArtifactsListed(binaries, Put(before, FindBinary(before, row), row), env, source, input, arts)
  {
    hide BinaryKeysUnique, IsFor, IsForSome, SaysLast, HasRowFor, BinaryRow;
    var n := |arts| - 1;
    var row := BinaryRow(env, source, input, arts[n]);
    var at := FindBinary(before, row);
    var after := Put(before, at, row);
    forall b: nat | b < |after|
      ensures if IsForSome(after[b], env, source, input, arts) then SaysLast(after[b], env, source, input, arts)
              else b < |binaries| && after[b] == binaries[b]
    {
      IsForOneMore(after[b], env, source, input, arts);
      if b == at {
        SaysLastNow(row, env, source, input, arts);
      } else {
        OnlyFoundHasKey(before, row, b);
        if IsForSome(after[b], env, source, input, arts[..n]) {
          SaysLastStays(after[b], env, source, input, arts);
        }
      }
    }
    forall a: nat | a < |arts| ensures HasRowFor(after, env, source, input, arts, a) {
      if a < n {
        RowForStays(before, after, env, source, input, arts, a);
      } else {
        SaysLastNow(row, env, source, input, arts);
        RowIsFor(after, env, source, input, arts, a, at);
      }
    }
  }

  lemma RowIsFor(rows: seq<Binary>, env: Env, source: nat, input: nat, arts: seq<BinaryReport>, a: nat, b: nat)
    requires b < |rows| && IsFor(rows[b], env, source, input, arts, a)
    ensures HasRowFor(rows, env, source, input, arts, a)
  {
  }

  lemma RowForStays(
      before: seq<Binary>, after: seq<Binary>, env: Env, source: nat, input: nat, arts: seq<BinaryReport>, a: nat)
    requires a < |arts| - 1 && HasRowFor(before, env, source, input, arts[..|arts| - 1], a)
    requires |before| <= |after| && forall b: nat | b < |before| :: after[b].SameKey(before[b])
    ensures HasRowFor(after, env, source, input, arts, a)
  {
    var b: nat :| b < |before| && IsFor(before[b], env, source, input, arts[..|arts| - 1], a);
    assert after[b].SameKey(before[b]);
    assert IsFor(after[b], env, source, input, arts, a);
  }

  // ----- binary packages, one package after the other -----

  lemma FoundIsListed(before: Db, out: Db, env: Env, n: nat, b: Binary)
    requires Valid(before) && Valid(out) && SameOrigins(before, out) && n < |env.report.packages|
    requires b.input < |out.inputs| && b.source == out.inputs[b.input].source
    requires SourceOf(before, env, env.report.packages[n]) < |out.sources|
    requires InputOf(before, env, env.report.packages[n]) < |out.inputs|
    requires IsInputOf(out, env.report, env.report.packages[n], InputOf(before, env, env.report.packages[n]))
    requires out.inputs[InputOf(before, env, env.report.packages[n])].source
             == SourceOf(before, env, env.report.packages[n])
    ensures var p := env.report.packages[n];
            forall a: nat ::
              IsBinaryOf(out, env, n, a, b)
              <==> IsFor(b, env, SourceOf(before, env, p), InputOf(before, env, p), p.artifacts, a)
  {
    hide InputOf, SourceOf;
    var p := env.report.packages[n];
    assert IsInputOf(out, env.report, p, b.input) ==> b.input == InputOf(before, env, p);
  }

  lemma StaysBinaryOf(before: Db, out: Db, env: Env, k: nat, a: nat, b: Binary)
    requires Valid(before) && SameOrigins(before, out) && b.input < |before.inputs|
    ensures IsBinaryOf(out, env, k, a, b) <==> IsBinaryOf(before, env, k, a, b)
  {
    hide IsInputOf, Valid;
    if k < |env.report.packages| {
      StaysInputOf(before, out, env.report, env.report.packages[k], b.input);
    }
  }

  /** A row that package `n` does not list is listed by the same artifacts as before. */
  lemma BinaryStays(before: Db, out: Db, env: Env, n: nat, m: nat, b: Binary)
    requires Valid(before) && SameOrigins(before, out) && b.input < |before.inputs| && m == n + 1
    requires forall a: nat :: !IsBinaryOf(out, env, n, a, b)
    ensures forall k: nat, a: nat :: IsLastArtifact(out, env, m, b, k, a) <==> IsLastArtifact(before, env, n, b, k, a)
    ensures IsBinaryListed(out, env, m, b) <==> IsBinaryListed(before, env, n, b)
  {
    hide IsBinaryOf, Valid, SameOrigins;
    forall k: nat, a: nat {
      StaysBinaryOf(before, out, env, k, a, b);
    }
  }

  /** A row that package `n` lists has the URL of the last artifact that it lists for it. */
  lemma BinaryListedNow(
      out: Db, env: Env, n: nat, m: nat, source: nat, input: nat, b: Binary, k: nat, a: nat)
    requires m == n + 1 && n < |env.report.packages| && IsLastArtifact(out, env, m, b, k, a)
    requires forall o: nat ::
               IsBinaryOf(out, env, n, o, b) <==> IsFor(b, env, source, input, env.report.packages[n].artifacts, o)
    requires IsForSome(b, env, source, input, env.report.packages[n].artifacts)
    requires SaysLast(b, env, source, input, env.report.packages[n].artifacts)
    ensures k == n && a < |env.report.packages[n].artifacts|
    ensures b.seen && b.url == env.report.packages[n].artifacts[a].url
  {
    hide IsBinaryOf;
    var arts := env.report.packages[n].artifacts;
    var o: nat :| IsFor(b, env, source, input, arts, o);
    assert IsBinaryOf(out, env, n, o, b);
    assert IsFor(b, env, source, input, arts, a);
  }

  /** Package `n` lists the row, which then says what it lists last, or the row was there before. */
  lemma ImportOneListsRow(before: Db, env: Env, n: nat, c: Choice, b: nat)
    requires Valid(before) && n < |env.report.packages|
    requires b < |ImportOne(before, env, env.report.packages[n], c).binaries|
    ensures var p := env.report.packages[n];
            var row, out := ImportOne(before, env, p, c).binaries[b], ImportOne(before, env, p, c);
            var s0, i0 := SourceOf(before, env, p), InputOf(before, env, p);
            && (forall a: nat :: IsBinaryOf(out, env, n, a, row) <==> IsFor(row, env, s0, i0, p.artifacts, a))
            && if IsForSome(row, env, s0, i0, p.artifacts) then SaysLast(row, env, s0, i0, p.artifacts)
               else
                 && b < |before.binaries| && row == before.binaries[b] && row.input < |before.inputs|
                 && forall a: nat :: !IsBinaryOf(out, env, n, a, row)
  {
    hide ImportOne, InputOf, SourceOf, AddsJob, SaysLast, IsBinaryOf, KeysUnique, BinaryRow;
    var p := env.report.packages[n];
    var out, s0, i0 := ImportOne(before, env, p, c), SourceOf(before, env, p), InputOf(before, env, p);
    ImportOneTables(before, env, p, c);
    ImportOneOrigins(before, env, p, c);
    ImportOneEffect(before, env, p, c);
    BinaryKeys(before);
    ListBinariesLists(before.binaries, env, s0, i0, p.artifacts);
    FoundIsListed(before, out, env, n, out.binaries[b]);
  }

  lemma ImportOneBinaryRow(db: Db, before: Db, env: Env, n: nat, m: nat, c: Choice, b: nat)
    requires Valid(before) && m == n + 1 && n < |env.report.packages| && BinaryRowsAre(db, before, env, n)
    requires b < |ImportOne(before, env, env.report.packages[n], c).binaries|
    ensures var out := ImportOne(before, env, env.report.packages[n], c);
            var row := out.binaries[b];
            && HasLastUrl(out, env, m, row)
            && (!IsBinaryListed(out, env, m, row) ==>
                  && b < |db.binaries|
                  && var stored := db.binaries[b];
                     row == stored.(seen := stored.seen && !IsInScope(db, env.report, stored.input)))
  {
    hide ImportOne, IsInScope, InputOf, SourceOf, IsFor, IsForSome, SaysLast, IsBinaryOf, IsLastArtifact, Valid,
         IsBinaryListed, HasBinary, BinaryRow;
    var p := env.report.packages[n];
    var out, s0, i0 := ImportOne(before, env, p, c), SourceOf(before, env, p), InputOf(before, env, p);
    var row := out.binaries[b];
    ImportOneListsRow(before, env, n, c, b);
    if IsForSome(row, env, s0, i0, p.artifacts) {
      forall k: nat, a: nat | IsLastArtifact(out, env, m, row, k, a)
        ensures k == n && a < |p.artifacts| && row.seen && row.url == p.artifacts[a].url
      {
        BinaryListedNow(out, env, n, m, s0, i0, row, k, a);
      }
      SomeIsListed(out, env, n, s0, i0, row);
    } else {
      ImportOneOrigins(before, env, p, c);
      BinaryStays(before, out, env, n, m, row);
    }
  }

  lemma BinaryKeys(db: Db)
    requires Valid(db)
    ensures BinaryKeysUnique(db.binaries)
  {
  }

  lemma SomeIsListed(out: Db, env: Env, n: nat, source: nat, input: nat, b: Binary)
    requires n < |env.report.packages| && IsForSome(b, env, source, input, env.report.packages[n].artifacts)
    requires forall o: nat ::
               IsBinaryOf(out, env, n, o, b) <==> IsFor(b, env, source, input, env.report.packages[n].artifacts, o)
    ensures IsBinaryListed(out, env, n + 1, b)
  {
    hide IsBinaryOf, IsFor;
  }

  lemma ImportOneHasBinary(before: Db, env: Env, n: nat, c: Choice, k: nat, a: nat)
    requires Valid(before) && k <= n < |env.report.packages| && a < |env.report.packages[k].artifacts|
    requires k < n ==> HasBinary(before, env, k, a)
    ensures HasBinary(ImportOne(before, env, env.report.packages[n], c), env, k, a)
  {
    hide ImportOne, InputOf, SourceOf, AddsJob, IsBinaryOf, KeysUnique, BinaryRow;
    var p := env.report.packages[n];
    var out, s0, i0 := ImportOne(before, env, p, c), SourceOf(before, env, p), InputOf(before, env, p);
    ImportOneTables(before, env, p, c);
    ImportOneOrigins(before, env, p, c);
    ImportOneEffect(before, env, p, c);
    BinaryKeys(before);
    ListBinariesLists(before.binaries, env, s0, i0, p.artifacts);
    if k < n {
      var b: nat :| b < |before.binaries| && IsBinaryOf(before, env, k, a, before.binaries[b]);
      StaysBinaryOf(before, out, env, k, a, before.binaries[b]);
      SameKeySameArtifact(out, env, k, a, before.binaries[b], out.binaries[b]);
    } else {
      assert HasRowFor(out.binaries, env, s0, i0, p.artifacts, a);
      var b: nat :| b < |out.binaries| && IsFor(out.binaries[b], env, s0, i0, p.artifacts, a);
      FoundIsListed(before, out, env, n, out.binaries[b]);
    }
  }

  lemma SameKeySameArtifact(out: Db, env: Env, k: nat, a: nat, b: Binary, c: Binary)
    requires IsBinaryOf(out, env, k, a, b) && c.SameKey(b)
    ensures IsBinaryOf(out, env, k, a, c)
  {
  }

  lemma ImportOneBinaryRows(db: Db, before: Db, env: Env, n: nat, c: Choice)
    requires Valid(before) && n < |env.report.packages| && BinaryRowsAre(db, before, env, n)
    ensures BinaryRowsAre(db, ImportOne(before, env, env.report.packages[n], c), env, n + 1)
  {
    hide ImportOne, IsInScope, HasLastUrl, IsBinaryListed, HasBinary, Valid, BinaryRow, BinaryKeysUnique;
    var p, m := env.report.packages[n], n + 1;
    var out := ImportOne(before, env, p, c);
    ImportOneTables(before, env, p, c);
    forall b: nat | b < |out.binaries|
      ensures && HasLastUrl(out, env, m, out.binaries[b])
              && (!IsBinaryListed(out, env, m, out.binaries[b]) ==>
                    && b < |db.binaries|
                    && out.binaries[b]
                       == db.binaries[b].(seen := db.binaries[b].seen
                                                  && !IsInScope(db, env.report, db.binaries[b].input)))
    {
      ImportOneBinaryRow(db, before, env, n, m, c, b);
    }
    forall k: nat, a: nat | k < m && a < |env.report.packages[k].artifacts| ensures HasBinary(out, env, k, a) {
      ImportOneHasBinary(before, env, n, c, k, a);
    }
  }

  // ----- the whole report -----

  lemma {:induction false} ImportAllRows(db: Db, env: Env, choices: seq<Choice>)
    requires Valid(db) && |choices| <= |env.report.packages|
    ensures SourceRowsAre(db, ImportAll(MarkUnseen(db, env.report), env, choices), env, |choices|)
    ensures BinaryRowsAre(db, ImportAll(MarkUnseen(db, env.report), env, choices), env, |choices|)
  {
    hide ImportOne, Valid, SourceRowsAre, BinaryRowsAre, MarkUnseen;
    var marked := MarkUnseen(db, env.report);
    if |choices| == 0 {
      MarkedSourceRows(db, env);
      MarkedBinaryRows(db, env, 0);
    } else {
      var n := |choices| - 1;
      var before := ImportAll(marked, env, choices[..n]);
      MarkUnseenIsValid(db, env.report);
      ImportAllIsValid(marked, env, choices[..n]);
      ImportAllRows(db, env, choices[..n]);
      ImportOneSourceRows(db, before, env, n, choices[n]);
      ImportOneBinaryRows(db, before, env, n, choices[n]);
    }
  }

  lemma {:induction false} LastListingExists(out: Db, env: Env, n: nat, s: nat) returns (k: nat)
    requires IsListedSource(out, env.report, n, s)
    ensures IsLastListing(out, env, n, s, k)
  {
    var m := n - 1;
    if m < |env.report.packages| && IsSourceOf(out, env.report, env.report.packages[m], s) {
      k := m;
    } else {
      k := LastListingExists(out, env, m, s);
    }
  }
}
