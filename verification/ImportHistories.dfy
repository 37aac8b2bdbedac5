/** Which rebuilds the packages of an import take over. */
module ImportHistories {
  import opened Rows
  import opened PackageImport
  import opened ImportFacts
  import opened Invariants
  import opened ImportFlags
  import opened Coverage
  import opened Histories
  import opened LateJoins

  /**
   Build input `j` is the first one of a source package that the import has added, and `f` is the first build input of
   its class.
   */
  ghost predicate TakesOver(db: Db, out: Db, j: nat, f: nat) {
    && f < j < |out.inputs|
    && IsFirstOfNewSource(db, out, j)
    && out.inputs[f].cls == out.inputs[j].cls && forall e :: 0 <= e < f ==> out.inputs[e].cls != out.inputs[j].cls
  }

  predicate IsFirstOfNewSource(db: Db, out: Db, j: nat)
    requires j < |out.inputs|
  {
    |db.sources| <= out.inputs[j].source && forall i :: 0 <= i < j ==> out.inputs[i].source != out.inputs[j].source
  }

  ghost predicate HasItsInput(out: Db, s: nat) {
    exists i :: 0 <= i < |out.inputs| && out.inputs[i].source == s
  }

  /**
   Build inputs keep their histories.  The first one of a new package starts with the history of the first build input
   of its class, if there is one; all other new ones start without.
   */
  ghost predicate HistoriesAre(db: Db, out: Db) {
    && |db.inputs| <= |out.inputs|
    && (forall i: nat :: i < |db.inputs| ==> HistoryOf(out, i) == HistoryOf(db, i))
    && (forall j: nat, f: nat :: |db.inputs| <= j && TakesOver(db, out, j, f) ==> HistoryOf(out, j) == HistoryOf(out, f))
    && (forall j: nat :: |db.inputs| <= j < |out.inputs| && (forall f: nat :: !TakesOver(db, out, j, f)) ==>
          HistoryOf(out, j) == multiset{})
    && (forall s: nat :: |db.sources| <= s < |out.sources| ==> HasItsInput(out, s))
  }

  lemma TakesOverStays(db: Db, before: Db, out: Db, j: nat)
    requires SameOrigins(before, out) && j < |before.inputs|
    ensures forall f: nat :: TakesOver(db, out, j, f) <==> TakesOver(db, before, j, f)
  {
  }

  /** A new build input is the first of a new source package exactly if its package was not known. */
  lemma FirstOfNewSourceIff(db: Db, before: Db, env: Env, p: PackageReport, c: Choice)
    requires Valid(before) && SameOrigins(db, before) && InputOf(before, env, p) == |before.inputs|
    requires forall s: nat :: |db.sources| <= s < |before.sources| ==> HasItsInput(before, s)
    ensures |ImportOne(before, env, p, c).inputs| == |before.inputs| + 1
    ensures IsFirstOfNewSource(db, ImportOne(before, env, p, c), |before.inputs|) <==> IsNewPackage(before, env, p)
  {
    hide ImportOne, KeysUnique;
    ImportOneOrigins(before, env, p, c);
    ImportOneInputs(before, env, p, c);
    var s := SourceOf(before, env, p);
    if |db.sources| <= s < |before.sources| {
      assert HasItsInput(before, s);
    }
  }

  /** The first other member of the class is the first of all, for an input behind all others. */
  lemma LowestFriendIff(inputs: seq<Input>, cls: Class, j: nat, f: nat)
    requires |inputs| == j + 1 && inputs[j].cls == cls
    ensures f < j && inputs[f].cls == cls && (forall e :: 0 <= e < f ==> inputs[e].cls != cls)
            <==> f == LowestFriend(inputs, cls, j) && f < |inputs|
  {
  }

  lemma NewHistory(db: Db, before: Db, env: Env, p: PackageReport, c: Choice)
    requires Valid(before) && LegalChoice(before, env, p, c) && SameOrigins(db, before)
    requires InputOf(before, env, p) == |before.inputs|
    requires forall s: nat :: |db.sources| <= s < |before.sources| ==> HasItsInput(before, s)
    ensures var out, j := ImportOne(before, env, p, c), |before.inputs|;
            && (forall f: nat :: TakesOver(db, out, j, f) ==> HistoryOf(out, j) == HistoryOf(before, f))
            && ((forall f: nat :: !TakesOver(db, out, j, f)) ==> HistoryOf(out, j) == multiset{})
  {
    hide ImportOne, LegalChoice, HistoryOf, Valid, LowestFriend, IsFirstOfNewSource, IsNewPackage, InputOf, SourceOf;
    var out, j, cls := ImportOne(before, env, p, c), |before.inputs|, ClassOf(env, p);
    var registered := Registered(before, env, p).inputs;
    FirstOfNewSourceIff(db, before, env, p, c);
    ImportOneTables(before, env, p, c);
    RegisteredIsValid(before, env, p);
    ImportOneHistories(before, env, p, c, j);
    RegisteredHistories(before, env, p, j);
    forall f: nat {
      LowestFriendIff(registered, cls, j, f);
    }
    var f := LowestFriend(registered, cls, j);
    assert IsNewPackage(before, env, p) && f < |registered| ==> TakesOver(db, out, j, f);
  }

  lemma ImportOneHistoriesAre(db: Db, before: Db, env: Env, p: PackageReport, c: Choice)
    requires Valid(before) && LegalChoice(before, env, p, c) && SameOrigins(db, before) && HistoriesAre(db, before)
    ensures HistoriesAre(db, ImportOne(before, env, p, c))
  {
    hide ImportOne, LegalChoice, HistoryOf, Valid, TakesOver, InputOf, SourceOf;
    var out := ImportOne(before, env, p, c);
    ImportOneOrigins(before, env, p, c);
    ImportOneInputs(before, env, p, c);
    forall i: nat | i < |before.inputs|
      ensures HistoryOf(out, i) == HistoryOf(before, i)
      ensures forall f: nat :: TakesOver(db, out, i, f) <==> TakesOver(db, before, i, f)
    {
      OldInputHistory(before, env, p, c, i);
      TakesOverStays(db, before, out, i);
    }
    if |out.inputs| > |before.inputs| {
      NewHistory(db, before, env, p, c);
    }
    forall j: nat, f: nat | TakesOver(db, out, j, f) ensures f < j < |out.inputs| {
      TakesOverLower(db, out, j, f);
    }
    forall s: nat | |db.sources| <= s < |out.sources| ensures HasItsInput(out, s) {
      if s != SourceOf(before, env, p) {
        var row := out.sources[s];
        assert s < |before.sources| && HasItsInput(before, s);
        var i :| 0 <= i < |before.inputs| && before.inputs[i].source == s;
        assert out.inputs[i].source == s;
      }
    }
  }

  lemma TakesOverLower(db: Db, out: Db, j: nat, f: nat)
    requires TakesOver(db, out, j, f)
    ensures f < j < |out.inputs|
  {
  }

  lemma {:induction false} ImportAllHistoriesAre(db: Db, env: Env, choices: seq<Choice>)
    requires Valid(db) && |choices| <= |env.report.packages| && LegalChoices(db, env, choices)
    ensures HistoriesAre(db, ImportAll(db, env, choices))
  {
    hide Valid, ImportOne, LegalChoice, HistoriesAre;
    if |choices| > 0 {
      var n := |choices| - 1;
      ImportAllIsValid(db, env, choices[..n]);
      ImportAllListsJobs(db, env, choices[..n]);
      ImportAllHistoriesAre(db, env, choices[..n]);
      ImportOneHistoriesAre(db, ImportAll(db, env, choices[..n]), env, env.report.packages[n], choices[n]);
    } else {
      NobodyTakesOver(db);
    }
  }

  lemma NobodyTakesOver(db: Db)
    ensures HistoriesAre(db, db)
  {
  }

  lemma ImportGivesHistories(db: Db, env: Env, choices: seq<Choice>)
    requires Valid(db) && LegalImport(db, env, choices)
    ensures HistoriesAre(db, Imported(db, env, choices))
  {
    hide ImportAll, LegalChoices, Valid, HistoryOf;
    var marked := MarkUnseen(db, env.report);
    var all, out := ImportAll(marked, env, choices), Imported(db, env, choices);
    MarkUnseenIsValid(db, env.report);
    ImportAllHistoriesAre(marked, env, choices);
    forall i: nat ensures HistoryOf(marked, i) == HistoryOf(db, i) && HistoryOf(out, i) == HistoryOf(all, i) {
      SameTablesSameHistory(db, marked, i);
      SameTablesSameHistory(all, out, i);
    }
    forall j: nat, f: nat ensures TakesOver(db, out, j, f) <==> TakesOver(marked, all, j, f) {
    }
    forall s: nat ensures HasItsInput(out, s) <==> HasItsInput(all, s) {
    }
  }
}
