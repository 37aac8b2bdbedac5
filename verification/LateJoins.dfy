/** When an import gives friends different histories. */
module LateJoins {
  import opened Rows
  import opened Friends
  import opened PackageImport
  import opened ImportFacts
  import opened Invariants
  import opened ImportFlags
  import opened Histories

  ghost predicate NobodyJoinsLate(db: Db, env: Env, choices: seq<Choice>)
    requires |choices| <= |env.report.packages|
  {
    forall n :: 0 <= n < |choices| ==> !JoinsLate(ImportAll(db, env, choices[..n]), env, env.report.packages[n])
  }

  /** No package of a report repairs what an earlier one broke. */
  lemma UnequalStaysUnequal(db: Db, env: Env, p: PackageReport, c: Choice)
    requires Valid(db) && LegalChoice(db, env, p, c) && !EqualHistories(db)
    ensures !EqualHistories(ImportOne(db, env, p, c))
  {
    hide ImportOne, LegalChoice, HistoryOf, Valid, AddsJob;
    var out := ImportOne(db, env, p, c);
    ImportOneEffect(db, env, p, c);
    var i, j :| 0 <= i < |db.inputs| && 0 <= j < |db.inputs| && db.inputs[i].cls == db.inputs[j].cls
                && HistoryOf(db, i) != HistoryOf(db, j);
    OldInputHistory(db, env, p, c, i);
    OldInputHistory(db, env, p, c, j);
    assert out.inputs[i].cls == out.inputs[j].cls;
  }

  lemma OldInputHistory(db: Db, env: Env, p: PackageReport, c: Choice, i: nat)
    requires Valid(db) && LegalChoice(db, env, p, c) && i < |db.inputs|
    ensures HistoryOf(ImportOne(db, env, p, c), i) == HistoryOf(db, i)
  {
    hide ImportOne, LegalChoice, HistoryOf, AddsJob;
    ImportOneHistories(db, env, p, c, i);
    ImportOneInputs(db, env, p, c);
  }

  lemma NobodyAtFirst(db: Db, env: Env, choices: seq<Choice>)
    requires |choices| == 0
    ensures NobodyJoinsLate(db, env, choices)
  {
  }

  lemma NobodyOneMore(db: Db, env: Env, choices: seq<Choice>)
    requires 0 < |choices| <= |env.report.packages|
    ensures var n := |choices| - 1;
            NobodyJoinsLate(db, env, choices)
            <==> && NobodyJoinsLate(db, env, choices[..n])
                 && !JoinsLate(ImportAll(db, env, choices[..n]), env, env.report.packages[n])
  {
    hide ImportAll, JoinsLate;
    var n := |choices| - 1;
    assert forall m :: 0 <= m < n ==> choices[..n][..m] == choices[..m];
  }

  lemma {:induction false} ImportAllKeepsHistoriesIff(db: Db, env: Env, choices: seq<Choice>)
    requires Valid(db) && EqualHistories(db)
    requires |choices| <= |env.report.packages| && LegalChoices(db, env, choices)
    ensures EqualHistories(ImportAll(db, env, choices)) <==> NobodyJoinsLate(db, env, choices)
  {
    hide Valid, EqualHistories, ImportOne, LegalChoice, JoinsLate, NobodyJoinsLate;
    if |choices| > 0 {
      var n := |choices| - 1;
      var before := ImportAll(db, env, choices[..n]);
      NobodyOneMore(db, env, choices);
      ImportAllIsValid(db, env, choices[..n]);
      ImportAllKeepsHistoriesIff(db, env, choices[..n]);
      assert LegalChoice(before, env, env.report.packages[n], choices[n]);
      if EqualHistories(before) {
        ImportOneKeepsHistoriesIff(before, env, env.report.packages[n], choices[n]);
      } else {
        UnequalStaysUnequal(before, env, env.report.packages[n], choices[n]);
      }
    } else {
      NobodyAtFirst(db, env, choices);
    }
  }

  // ----- late joins, before the import -----

  ghost predicate KnownSource(db: Db, identity: Identity) {
    exists s :: 0 <= s < |db.sources| && db.sources[s].identity == identity
  }

  predicate IsInputOf(db: Db, i: nat, identity: Identity, cls: Class) {
    && i < |db.inputs| && db.inputs[i].source < |db.sources|
    && db.sources[db.inputs[i].source].identity == identity && db.inputs[i].cls == cls
  }

  ghost predicate KnownInput(db: Db, identity: Identity, cls: Class) {
    exists i: nat :: IsInputOf(db, i, identity, cls)
  }

  /** One of the first `n` packages of the report has this identity and class. */
  ghost predicate IsListedInput(env: Env, n: nat, identity: Identity, cls: Class) {
    exists m: nat :: m < n && m < |env.report.packages|
                && IdentityOf(env, env.report.packages[m]) == identity && ClassOf(env, env.report.packages[m]) == cls
  }

  /**
   Package `n` of the report is known, in the tables or from an earlier line, but not under its URL, and the class
   of that URL has results in the tables.
   */
  ghost predicate PackageJoinsLate(db: Db, env: Env, n: nat) {
    && n < |env.report.packages|
    && var identity, cls := IdentityOf(env, env.report.packages[n]), ClassOf(env, env.report.packages[n]);
       && (KnownSource(db, identity) || IsListed(env, n, identity))
       && !KnownInput(db, identity, cls) && !IsListedInput(env, n, identity, cls)
       && HasResults(db, cls)
  }

  ghost predicate ReportJoinsLate(db: Db, env: Env) {
    exists n: nat :: PackageJoinsLate(db, env, n)
  }

  /** What `after` knows is what `before` knew and what the first `n` packages list; no class gains first results. */
  ghost predicate KnownSince(before: Db, after: Db, env: Env, n: nat) {
    && (forall identity ::
          KnownSource(after, identity) <==> KnownSource(before, identity) || IsListed(env, n, identity))
    && (forall identity, cls :: KnownInput(after, identity, cls)
                                <==> KnownInput(before, identity, cls) || IsListedInput(env, n, identity, cls))
    && (forall cls :: HasResults(after, cls) <==> HasResults(before, cls))
  }

  /** A class has results exactly if one of its members has a history. */
  lemma HasResultsIff(db: Db, cls: Class)
    ensures HasResults(db, cls) <==> exists i: nat :: InClass(db.inputs, i, cls) && HistoryOf(db, i) != multiset{}
  {
    if r :| 0 <= r < |db.rebuilds| && InClass(db.inputs, db.rebuilds[r].input, cls) {
      SomeRebuildSomeHistory(db, r);
    } else {
      forall i: nat | InClass(db.inputs, i, cls) ensures HistoryOf(db, i) == multiset{} {
        NoClassRebuildNoHistory(db, cls, i);
      }
    }
  }

  lemma ImportOneKeepsResults(db: Db, env: Env, p: PackageReport, c: Choice, cls: Class)
    requires Valid(db) && LegalChoice(db, env, p, c)
    ensures HasResults(ImportOne(db, env, p, c), cls) <==> HasResults(db, cls)
  {
    hide ImportOne, LegalChoice, HistoryOf, AddsJob, HasResults;
    var out, n := ImportOne(db, env, p, c), |db.inputs|;
    ImportOneInputs(db, env, p, c);
    ImportOneEffect(db, env, p, c);
    HasResultsIff(db, cls);
    HasResultsIff(out, cls);
    if i: nat :| InClass(db.inputs, i, cls) && HistoryOf(db, i) != multiset{} {
      OldInputHistory(db, env, p, c, i);
      assert InClass(out.inputs, i, cls);
    }
    if i: nat :| InClass(out.inputs, i, cls) && HistoryOf(out, i) != multiset{} {
      if i < n {
        OldInputHistory(db, env, p, c, i);
        assert InClass(db.inputs, i, cls);
      } else {
        var f := FirstHistory(db, env, p, c);
      }
    }
  }

  /** A new input with a history has it from a friend. */
  lemma FirstHistory(db: Db, env: Env, p: PackageReport, c: Choice) returns (f: nat)
    requires Valid(db) && LegalChoice(db, env, p, c)
    requires HistoryOf(ImportOne(db, env, p, c), |db.inputs|) != multiset{}
    ensures InClass(db.inputs, f, ClassOf(env, p)) && HistoryOf(db, f) != multiset{}
  {
    hide ImportOne, LegalChoice, HistoryOf, AddsJob;
    var n := |db.inputs|;
    f := LowestFriend(Registered(db, env, p).inputs, ClassOf(env, p), n);
    ImportOneHistories(db, env, p, c, n);
    RegisteredHistories(db, env, p, n);
  }

  lemma KnownBefore(db: Db, env: Env, p: PackageReport)
    requires Valid(db)
    ensures IsNewPackage(db, env, p) <==> !KnownSource(db, IdentityOf(env, p))
    ensures InputOf(db, env, p) == |db.inputs| <==> !KnownInput(db, IdentityOf(env, p), ClassOf(env, p))
  {
    hide FindSource, FindInput;
    var s, i := SourceOf(db, env, p), InputOf(db, env, p);
    if i < |db.inputs| {
      assert IsInputOf(db, i, IdentityOf(env, p), ClassOf(env, p));
    }
  }

  lemma ImportOneKnows(before: Db, db: Db, env: Env, n: nat, c: Choice)
    requires Valid(db) && n < |env.report.packages| && KnownSince(before, db, env, n)
    requires LegalChoice(db, env, env.report.packages[n], c)
    ensures KnownSince(before, ImportOne(db, env, env.report.packages[n], c), env, n + 1)
  {
    hide ImportOne, LegalChoice, HasResults;
    var p := env.report.packages[n];
    var out := ImportOne(db, env, p, c);
    ImportOneOrigins(db, env, p, c);
    ImportOneTables(db, env, p, c);
    forall cls ensures HasResults(out, cls) <==> HasResults(db, cls) {
      ImportOneKeepsResults(db, env, p, c, cls);
    }
    forall identity
      ensures KnownSource(out, identity) <==> KnownSource(before, identity) || IsListed(env, n + 1, identity)
    {
      SourceBecomesKnown(db, out, env, p, identity);
      ListedOneMore(env, n, identity);
    }
    forall identity, cls
      ensures KnownInput(out, identity, cls) <==>
                KnownInput(before, identity, cls) || IsListedInput(env, n + 1, identity, cls)
    {
      InputBecomesKnown(db, out, env, p, identity, cls);
      ListedInputOneMore(env, n, identity, cls);
    }
  }

  lemma SourceBecomesKnown(db: Db, out: Db, env: Env, p: PackageReport, identity: Identity)
    requires SameOrigins(db, out)
    requires out.sources == Put(db.sources, SourceOf(db, env, p), SourceRow(env, p))
    ensures KnownSource(out, identity) <==> KnownSource(db, identity) || IdentityOf(env, p) == identity
  {
    if s :| 0 <= s < |db.sources| && db.sources[s].identity == identity {
      assert out.sources[s].identity == identity;
    }
    if s :| 0 <= s < |out.sources| && out.sources[s].identity == identity {
      assert s < |db.sources| ==> db.sources[s].identity == identity;
    }
  }

  lemma InputBecomesKnown(db: Db, out: Db, env: Env, p: PackageReport, identity: Identity, cls: Class)
    requires ReferencesHold(db) && SameOrigins(db, out) && SourceOf(db, env, p) < |out.sources|
    requires out.sources[SourceOf(db, env, p)].identity == IdentityOf(env, p)
    requires InputOf(db, env, p) < |out.inputs|
    requires out.inputs[InputOf(db, env, p)].source == SourceOf(db, env, p)
    requires out.inputs[InputOf(db, env, p)].cls == ClassOf(env, p)
    requires |out.inputs| > |db.inputs| ==> InputOf(db, env, p) == |db.inputs| == |out.inputs| - 1
    ensures KnownInput(out, identity, cls) <==>
              KnownInput(db, identity, cls) || (IdentityOf(env, p) == identity && ClassOf(env, p) == cls)
  {
    if i: nat :| IsInputOf(db, i, identity, cls) {
      assert IsInputOf(out, i, identity, cls);
    }
    if IdentityOf(env, p) == identity && ClassOf(env, p) == cls {
      assert IsInputOf(out, InputOf(db, env, p), identity, cls);
    }
    if i: nat :| IsInputOf(out, i, identity, cls) {
      assert i < |db.inputs| ==> IsInputOf(db, i, identity, cls);
    }
  }

  lemma ListedOneMore(env: Env, n: nat, identity: Identity)
    requires n < |env.report.packages|
    ensures IsListed(env, n + 1, identity)
            <==> IsListed(env, n, identity) || IdentityOf(env, env.report.packages[n]) == identity
  {
  }

  lemma ListedInputOneMore(env: Env, n: nat, identity: Identity, cls: Class)
    requires n < |env.report.packages|
    ensures IsListedInput(env, n + 1, identity, cls)
            <==> || IsListedInput(env, n, identity, cls)
                 || (IdentityOf(env, env.report.packages[n]) == identity && ClassOf(env, env.report.packages[n]) == cls)
  {
  }

  lemma {:induction false} ImportAllKnows(db: Db, env: Env, choices: seq<Choice>)
    requires Valid(db) && |choices| <= |env.report.packages| && LegalChoices(db, env, choices)
    ensures KnownSince(db, ImportAll(db, env, choices), env, |choices|)
  {
    hide Valid, ImportOne, LegalChoice, KnownSource, KnownInput, HasResults;
    if |choices| > 0 {
      var n := |choices| - 1;
      ImportAllIsValid(db, env, choices[..n]);
      ImportAllKnows(db, env, choices[..n]);
      ImportOneKnows(db, ImportAll(db, env, choices[..n]), env, n, choices[n]);
    }
  }

  lemma LegalChoicesPrefix(db: Db, env: Env, choices: seq<Choice>, n: nat)
    requires n <= |choices| <= |env.report.packages| && LegalChoices(db, env, choices)
    ensures LegalChoices(db, env, choices[..n])
    decreases |choices|
  {
    hide ImportAll, LegalChoice;
    if n < |choices| {
      var m := |choices| - 1;
      LegalChoicesPrefix(db, env, choices[..m], n);
      assert choices[..m][..n] == choices[..n];
    } else {
      assert choices[..n] == choices;
    }
  }

  /** What can be seen before the import decides whether a package joins late during it. */
  lemma JoinsLateIff(db: Db, env: Env, choices: seq<Choice>, n: nat)
    requires Valid(db) && n < |choices| <= |env.report.packages| && LegalChoices(db, env, choices)
    ensures JoinsLate(ImportAll(db, env, choices[..n]), env, env.report.packages[n]) <==> PackageJoinsLate(db, env, n)
  {
    hide Valid, ImportAll, HasResults, KnownSource, KnownInput, IsListed, IsListedInput, InputOf, IsNewPackage;
    LegalChoicesPrefix(db, env, choices, n);
    ImportAllIsValid(db, env, choices[..n]);
    ImportAllKnows(db, env, choices[..n]);
    KnownBefore(ImportAll(db, env, choices[..n]), env, env.report.packages[n]);
  }

  /**
   An import keeps the histories of all classes equal exactly if none of its packages is known under other URLs only
   while the class of its URL has results.
   */
  lemma ImportKeepsHistoriesIff(db: Db, env: Env, choices: seq<Choice>)
    requires Valid(db) && EqualHistories(db) && LegalImport(db, env, choices)
    ensures EqualHistories(Imported(db, env, choices)) <==> !ReportJoinsLate(db, env)
  {
    hide ImportAll, LegalChoices, JoinsLate, PackageJoinsLate, EqualHistories, Valid;
    var marked := MarkUnseen(db, env.report);
    var all := ImportAll(marked, env, choices);
    MarkUnseenIsValid(db, env.report);
    SameRebuildsSameHistories(db, marked);
    ImportAllKeepsHistoriesIff(marked, env, choices);
    forall n: nat
      ensures n < |choices| ==>
                (JoinsLate(ImportAll(marked, env, choices[..n]), env, env.report.packages[n])
                 <==> PackageJoinsLate(db, env, n))
      ensures n >= |choices| ==> !PackageJoinsLate(db, env, n)
    {
      if n < |choices| {
        JoinsLateIff(marked, env, choices, n);
      }
      MarkingKeepsLateJoins(db, env, n);
    }
    SameRebuildsSameHistoriesIff(all, Imported(db, env, choices));
  }

  lemma MarkingKeepsLateJoins(db: Db, env: Env, n: nat)
    ensures PackageJoinsLate(MarkUnseen(db, env.report), env, n) <==> PackageJoinsLate(db, env, n)
    ensures n >= |env.report.packages| ==> !PackageJoinsLate(db, env, n)
  {
    var marked := MarkUnseen(db, env.report);
    forall identity ensures KnownSource(marked, identity) <==> KnownSource(db, identity) {
      if s :| 0 <= s < |db.sources| && db.sources[s].identity == identity {
        assert marked.sources[s].identity == identity;
      }
    }
    forall identity, cls ensures KnownInput(marked, identity, cls) <==> KnownInput(db, identity, cls) {
      assert forall i: nat :: IsInputOf(marked, i, identity, cls) <==> IsInputOf(db, i, identity, cls);
    }
  }
}
