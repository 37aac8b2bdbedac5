/** After an import, the seen flags in its scope say exactly what the report listed. */
module ImportFlags {
  import opened Rows
  import opened PackageImport
  import opened ImportFacts
  import opened Invariants

  /** One of the first `n` packages of the report has this identity. */
  ghost predicate IsListed(env: Env, n: nat, identity: Identity) {
    exists m: nat :: m < n && m < |env.report.packages| && IdentityOf(env, env.report.packages[m]) == identity
  }

  /** Package `p` lists binary `b`, as a product of the same source package and build input. */
  ghost predicate ListsBinary(db: Db, env: Env, p: PackageReport, b: Binary) {
    && b.source < |db.sources| && db.sources[b.source].identity == IdentityOf(env, p)
    && b.input < |db.inputs| && db.inputs[b.input].cls == ClassOf(env, p)
    && b.architecture == env.report.architecture
    && exists a :: a in p.artifacts && a.name == b.name && a.version == b.version
  }

  ghost predicate IsListedBinary(db: Db, env: Env, n: nat, b: Binary) {
    exists m: nat :: m < n && m < |env.report.packages| && ListsBinary(db, env, env.report.packages[m], b)
  }

  /** In scope: seen exactly if among the first `n` packages.  Out of scope: as `before`. */
  ghost predicate SourceFlags(before: Db, db: Db, env: Env, n: nat) {
    forall s :: 0 <= s < |db.sources| ==>
      if SourceInScope(db, env.report, s) then db.sources[s].seen <==> IsListed(env, n, db.sources[s].identity)
      else s < |before.sources| && db.sources[s] == before.sources[s]
  }

  ghost predicate BinaryFlags(before: Db, db: Db, env: Env, n: nat) {
    forall b :: 0 <= b < |db.binaries| ==>
      if InputInScope(db, env.report, db.binaries[b].input) then
        db.binaries[b].seen <==> IsListedBinary(db, env, n, db.binaries[b])
      else b < |before.binaries| && db.binaries[b] == before.binaries[b]
  }

  lemma MarkedFlags(db: Db, env: Env)
    requires Valid(db)
    ensures SourceFlags(db, MarkUnseen(db, env.report), env, 0)
    ensures BinaryFlags(db, MarkUnseen(db, env.report), env, 0)
  {
    var marked := MarkUnseen(db, env.report);
    assert forall i: nat :: InputInScope(marked, env.report, i) == InputInScope(db, env.report, i);
    forall s: nat | s < |db.sources|
      ensures SourceInScope(marked, env.report, s) == SourceInScope(db, env.report, s)
    {
      if i :| 0 <= i < |db.inputs| && InputInScope(db, env.report, i) && db.inputs[i].source == s {
        assert InputInScope(marked, env.report, i);
      }
    }
  }

  // ----- one package -----

  lemma EnqueuedOrigins(db: Db, env: Env, input: nat, status: BuildStatus)
    ensures Enqueued(db, env, input, status)
            == db.(inputs := Enqueued(db, env, input, status).inputs, queue := Enqueued(db, env, input, status).queue,
                   nextJob := Enqueued(db, env, input, status).nextJob)
    ensures |Enqueued(db, env, input, status).inputs| == |db.inputs|
    ensures forall i :: 0 <= i < |db.inputs| ==>
              && Enqueued(db, env, input, status).inputs[i].source == db.inputs[i].source
              && Enqueued(db, env, input, status).inputs[i].cls == db.inputs[i].cls
  {
  }

  /** What the import of one package does to sources, binaries and inputs. */
  lemma ImportOneTables(db: Db, env: Env, p: PackageReport, c: Choice)
    requires Valid(db)
    ensures ImportOne(db, env, p, c).sources == Put(db.sources, SourceOf(db, env, p), SourceRow(env, p))
    ensures ImportOne(db, env, p, c).binaries
            == ListBinaries(db.binaries, env, SourceOf(db, env, p), InputOf(db, env, p), p.artifacts)
    ensures |ImportOne(db, env, p, c).inputs| == |Registered(db, env, p).inputs|
    ensures forall i :: 0 <= i < |Registered(db, env, p).inputs| ==>
              && ImportOne(db, env, p, c).inputs[i].source == Registered(db, env, p).inputs[i].source
              && ImportOne(db, env, p, c).inputs[i].cls == Registered(db, env, p).inputs[i].cls
  {
    hide Enqueued;
    var input := InputOf(db, env, p);
    EnqueuedOrigins(Inherited(Registered(db, env, p), IsNewPackage(db, env, p), c.copyOrder, input),
                    env, input, c.status);
  }

  /** Scope, identity and class of rows that were there before stay the same. */
  ghost predicate SameOrigins(before: Db, after: Db) {
    && |before.sources| <= |after.sources| && |before.inputs| <= |after.inputs|
    && (forall s :: 0 <= s < |before.sources| ==> after.sources[s].identity == before.sources[s].identity)
    && (forall i :: 0 <= i < |before.inputs| ==>
          after.inputs[i].source == before.inputs[i].source && after.inputs[i].cls == before.inputs[i].cls)
  }

  lemma ImportOneOrigins(db: Db, env: Env, p: PackageReport, c: Choice)
    requires Valid(db)
    ensures SameOrigins(db, ImportOne(db, env, p, c))
    ensures SourceOf(db, env, p) < |ImportOne(db, env, p, c).sources|
    ensures ImportOne(db, env, p, c).sources[SourceOf(db, env, p)] == SourceRow(env, p)
    ensures InputOf(db, env, p) < |ImportOne(db, env, p, c).inputs|
    ensures ImportOne(db, env, p, c).inputs[InputOf(db, env, p)].source == SourceOf(db, env, p)
    ensures ImportOne(db, env, p, c).inputs[InputOf(db, env, p)].cls == ClassOf(env, p)
    ensures InputInScope(ImportOne(db, env, p, c), env.report, InputOf(db, env, p))
    ensures forall s: nat :: s < |ImportOne(db, env, p, c).sources| && s != SourceOf(db, env, p) ==>
              s < |db.sources| && ImportOne(db, env, p, c).sources[s] == db.sources[s]
    ensures |ImportOne(db, env, p, c).inputs| > |db.inputs| ==>
              InputOf(db, env, p) == |db.inputs| == |ImportOne(db, env, p, c).inputs| - 1
  {
    hide ImportOne, Valid;
    ImportOneTables(db, env, p, c);
    RegisteredIsValid(db, env, p);
  }

  lemma ImportOneSourceFlags(before: Db, db: Db, env: Env, n: nat, c: Choice)
    requires Valid(db) && n < |env.report.packages| && SourceFlags(before, db, env, n)
    ensures SourceFlags(before, ImportOne(db, env, env.report.packages[n], c), env, n + 1)
  {
    hide ImportOne, Valid;
    var p := env.report.packages[n];
    var out, s0, i0 := ImportOne(db, env, p, c), SourceOf(db, env, p), InputOf(db, env, p);
    ImportOneOrigins(db, env, p, c);
    forall s | 0 <= s < |out.sources|
      ensures if SourceInScope(out, env.report, s) then
                out.sources[s].seen <==> IsListed(env, n + 1, out.sources[s].identity)
              else s < |before.sources| && out.sources[s] == before.sources[s]
    {
      if s == s0 {
        assert InputInScope(out, env.report, i0) && out.inputs[i0].source == s;
        assert IdentityOf(env, env.report.packages[n]) == out.sources[s].identity;
      } else {
        assert s < |db.sources| && out.sources[s] == db.sources[s];
        ScopeUnchanged(db, out, env.report, s, i0);
        assert db.sources[s].identity != IdentityOf(env, p) by {
          OneSourcePerIdentity(db, env, p, s);
        }
        assert IsListed(env, n + 1, db.sources[s].identity) <==> IsListed(env, n, db.sources[s].identity);
      }
    }
  }

  lemma OneSourcePerIdentity(db: Db, env: Env, p: PackageReport, s: nat)
    requires Valid(db) && s < |db.sources| && s != SourceOf(db, env, p)
    ensures db.sources[s].identity != IdentityOf(env, p)
  {
  }

  /** A source other than that of the new input is in scope afterwards exactly if it was before. */
  lemma ScopeUnchanged(before: Db, after: Db, report: ScopeReport, s: nat, i0: nat)
    requires Valid(before) && SameOrigins(before, after) && s < |before.sources|
    requires i0 < |after.inputs| && after.inputs[i0].source != s
    requires |after.inputs| > |before.inputs| ==> i0 == |before.inputs| == |after.inputs| - 1
    ensures SourceInScope(after, report, s) <==> SourceInScope(before, report, s)
  {
  }

  // ----- binaries -----

  predicate ListsKey(env: Env, source: nat, input: nat, arts: seq<BinaryReport>, b: Binary) {
    exists a | a in arts :: b.SameKey(BinaryRow(env, source, input, a))
  }

  lemma OnlyFoundHasKey(binaries: seq<Binary>, listed: Binary, b: nat)
    requires BinaryKeysUnique(binaries) && b < |binaries| && b != FindBinary(binaries, listed)
    ensures !binaries[b].SameKey(listed)
  {
  }

  /** Rows that are listed become seen, all others stay as they are. */
  lemma {:induction false} ListBinariesFlags(
      binaries: seq<Binary>, env: Env, source: nat, input: nat, arts: seq<BinaryReport>, b: nat)
    requires BinaryKeysUnique(binaries) && b < |ListBinaries(binaries, env, source, input, arts)|
    ensures var row := ListBinaries(binaries, env, source, input, arts)[b];
            if ListsKey(env, source, input, arts, row) then row.seen
            else b < |binaries| && row == binaries[b]
  {
    hide BinaryKeysUnique, FindBinary;
    if |arts| > 0 {
      var n := |arts| - 1;
      var before := ListBinaries(binaries, env, source, input, arts[..n]);
      var after := ListBinaries(binaries, env, source, input, arts);
      var listed := BinaryRow(env, source, input, arts[n]);
      ListBinariesKeepsKeys(binaries, env, source, input, arts[..n]);
      var at := FindBinary(before, listed);
      assert after == Put(before, at, listed);
      if b == at {
        assert after[b] == listed && listed.seen;
        assert arts[n] in arts && after[b].SameKey(BinaryRow(env, source, input, arts[n]));
      } else {
        ListBinariesFlags(binaries, env, source, input, arts[..n], b);
        assert after[b] == before[b];
        OnlyFoundHasKey(before, listed, b);
        assert forall a :: a in arts <==> a in arts[..n] || a == arts[n];
      }
    }
  }

  /** A binary that package `p` lists has the key that the import of `p` looks for. */
  lemma ListedHasKey(db: Db, env: Env, p: PackageReport, c: Choice, b: Binary)
    requires Valid(db) && b.input < |db.inputs| && b.source == db.inputs[b.input].source
    requires ListsBinary(ImportOne(db, env, p, c), env, p, b)
    ensures ListsKey(env, SourceOf(db, env, p), InputOf(db, env, p), p.artifacts, b)
  {
    hide ImportOne;
    var s0, i0 := SourceOf(db, env, p), InputOf(db, env, p);
    ImportOneOrigins(db, env, p, c);
    if b.source != s0 {
      OneSourcePerIdentity(db, env, p, b.source);
    }
    assert i0 < |db.inputs|;
    assert b.input == i0;
    var a :| a in p.artifacts && a.name == b.name && a.version == b.version;
    assert b.SameKey(BinaryRow(env, s0, i0, a));
  }

  lemma KeyIsListed(db: Db, env: Env, p: PackageReport, c: Choice, b: Binary)
    requires Valid(db) && ListsKey(env, SourceOf(db, env, p), InputOf(db, env, p), p.artifacts, b)
    ensures ListsBinary(ImportOne(db, env, p, c), env, p, b)
    ensures b.input == InputOf(db, env, p)
  {
    hide ImportOne, Valid;
    ImportOneOrigins(db, env, p, c);
    var a :| a in p.artifacts && b.SameKey(BinaryRow(env, SourceOf(db, env, p), InputOf(db, env, p), a));
    assert a.name == b.name && a.version == b.version;
  }

  lemma ListedStaysListed(before: Db, after: Db, env: Env, n: nat, b: Binary)
    requires SameOrigins(before, after) && b.source < |before.sources| && b.input < |before.inputs|
    ensures IsListedBinary(after, env, n, b) <==> IsListedBinary(before, env, n, b)
  {
  }

  lemma ImportOneBinaryFlags(before: Db, db: Db, env: Env, n: nat, c: Choice)
    requires Valid(db) && n < |env.report.packages| && BinaryFlags(before, db, env, n)
    ensures BinaryFlags(before, ImportOne(db, env, env.report.packages[n], c), env, n + 1)
  {
    hide ImportOne, ListsBinary, ListBinaries;
    var p := env.report.packages[n];
    var out, s0, i0 := ImportOne(db, env, p, c), SourceOf(db, env, p), InputOf(db, env, p);
    ImportOneTables(db, env, p, c);
    ImportOneOrigins(db, env, p, c);
    forall b | 0 <= b < |out.binaries|
      ensures if InputInScope(out, env.report, out.binaries[b].input) then
                out.binaries[b].seen <==> IsListedBinary(out, env, n + 1, out.binaries[b])
              else b < |before.binaries| && out.binaries[b] == before.binaries[b]
    {
      var row := out.binaries[b];
      ListBinariesFlags(db.binaries, env, s0, i0, p.artifacts, b);
      if ListsKey(env, s0, i0, p.artifacts, row) {
        KeyIsListed(db, env, p, c, row);
        assert ListsBinary(out, env, env.report.packages[n], row);
      } else {
        assert row == db.binaries[b];
        ListedStaysListed(db, out, env, n, row);
        if ListsBinary(out, env, p, row) {
          ListedHasKey(db, env, p, c, row);
        }
        assert IsListedBinary(out, env, n + 1, row) <==> IsListedBinary(out, env, n, row);
      }
    }
  }

  // ----- the whole report -----

  lemma {:induction false} ImportAllFlags(before: Db, db: Db, env: Env, choices: seq<Choice>)
    requires Valid(db) && |choices| <= |env.report.packages|
    requires SourceFlags(before, db, env, 0) && BinaryFlags(before, db, env, 0)
    ensures SourceFlags(before, ImportAll(db, env, choices), env, |choices|)
    ensures BinaryFlags(before, ImportAll(db, env, choices), env, |choices|)
  {
    hide ImportOne, SourceFlags, BinaryFlags, Valid;
    if |choices| > 0 {
      var n := |choices| - 1;
      ImportAllIsValid(db, env, choices[..n]);
      ImportAllFlags(before, db, env, choices[..n]);
      ImportOneSourceFlags(before, ImportAll(db, env, choices[..n]), env, n, choices[n]);
      ImportOneBinaryFlags(before, ImportAll(db, env, choices[..n]), env, n, choices[n]);
    }
  }

  /**
   After an import, a source package in scope is seen exactly if the report lists its name and version,
   and a binary package in scope exactly if it is listed under its package and URL.
   Everything out of scope is unchanged.
   */
  lemma ImportSetsFlags(db: Db, env: Env, choices: seq<Choice>)
    requires Valid(db) && |choices| == |env.report.packages|
    ensures SourceFlags(db, Imported(db, env, choices), env, |env.report.packages|)
    ensures BinaryFlags(db, Imported(db, env, choices), env, |env.report.packages|)
  {
    hide ImportAll, Valid, IsListed, IsListedBinary, InputInScope;
    MarkedFlags(db, env);
    MarkUnseenIsValid(db, env.report);
    ImportAllFlags(db, MarkUnseen(db, env.report), env, choices);
    DropKeepsFlags(db, ImportAll(MarkUnseen(db, env.report), env, choices), env);
  }

  lemma DropKeepsFlags(before: Db, db: Db, env: Env)
    requires SourceFlags(before, db, env, |env.report.packages|) && BinaryFlags(before, db, env, |env.report.packages|)
    ensures SourceFlags(before, DropUnseen(db, env.report), env, |env.report.packages|)
    ensures BinaryFlags(before, DropUnseen(db, env.report), env, |env.report.packages|)
  {
    var out, n := DropUnseen(db, env.report), |env.report.packages|;
    assert forall i: nat :: InputInScope(out, env.report, i) == InputInScope(db, env.report, i);
    assert forall s: nat :: SourceInScope(out, env.report, s) == SourceInScope(db, env.report, s);
    assert forall b: Binary :: IsListedBinary(out, env, n, b) == IsListedBinary(db, env, n, b) by {
      forall b: Binary, m: nat | m < n
        ensures ListsBinary(out, env, env.report.packages[m], b) == ListsBinary(db, env, env.report.packages[m], b)
      {
      }
    }
  }
}
