/** SQL pattern matching, as name searches use it. */
module Search {
  function Lower(c: char): char {
    if 'A' <= c <= 'Z' then c - 'A' + 'a' else c
  }

  /** Two characters match if they are the same, or the same letter in different cases. */
  lemma SameLetterIff(c: char, d: char)
    ensures Lower(c) == Lower(d) <==>
              || c == d
              || ('A' <= c <= 'Z' && d as int == c as int + 32)
              || ('A' <= d <= 'Z' && c as int == d as int + 32)
  {
  }

  /** The LIKE operator: ASCII letters match in either case, `_` any character, `%` any text. */
  predicate Like(pattern: string, text: string)
    decreases |pattern| + |text|
  {
    if pattern == "" then text == ""
    else if pattern[0] == '%' then Like(pattern[1..], text) || (text != "" && Like(pattern, text[1..]))
    else
      && text != ""
      && (pattern[0] == '_' || Lower(pattern[0]) == Lower(text[0]))
      && Like(pattern[1..], text[1..])
  }

  predicate NoWildcards(name: string) {
    '%' !in name && '_' !in name
  }

  /** The text begins with the name, up to the case of letters. */
  predicate BeginsWith(text: string, name: string) {
    |name| <= |text| && forall i :: 0 <= i < |name| ==> Lower(text[i]) == Lower(name[i])
  }

  /** A pattern without wildcards matches the text itself only, up to the case of letters. */
  lemma {:induction false} LikeExactIff(name: string, text: string)
    requires NoWildcards(name)
    ensures Like(name, text) <==> |text| == |name| && BeginsWith(text, name)
  {
    if name != "" && text != "" {
      assert name[0] in name && forall c :: c in name[1..] ==> c in name;
      LikeExactIff(name[1..], text[1..]);
      assert forall i :: 0 < i < |name| ==> name[i] == name[1..][i - 1];
      assert forall i :: 0 < i < |text| ==> text[i] == text[1..][i - 1];
    }
  }

  lemma {:induction false} AnythingMatches(text: string)
    ensures Like("%", text)
  {
    if text != "" {
      AnythingMatches(text[1..]);
    } else {
      assert "%"[1..] == "";
    }
  }

  /** A search for a beginning finds exactly the texts that begin with the name. */
  lemma {:induction false} LikePrefixIff(name: string, text: string)
    requires NoWildcards(name)
    ensures Like(name + "%", text) <==> BeginsWith(text, name)
  {
    if name == "" {
      assert name + "%" == "%";
      AnythingMatches(text);
    } else {
      assert name[0] in name && (name + "%")[0] == name[0] && (name + "%")[1..] == name[1..] + "%";
      assert forall c :: c in name[1..] ==> c in name;
      if text != "" {
        LikePrefixIff(name[1..], text[1..]);
        assert BeginsWith(text[1..], name[1..]) && Lower(text[0]) == Lower(name[0]) ==> BeginsWith(text, name) by {
          assert forall i :: 0 < i < |name| ==> name[i] == name[1..][i - 1];
          assert forall i :: 0 < i < |text| ==> text[i] == text[1..][i - 1];
        }
      }
    }
  }

  /** The name occurs in the text, up to the case of letters. */
  predicate HasPart(text: string, name: string) {
    exists i | 0 <= i <= |text| :: BeginsWith(text[i..], name)
  }

  /** A search for a part finds exactly the texts that contain the name. */
  lemma {:induction false} LikePartIff(name: string, text: string)
    requires NoWildcards(name)
    ensures Like("%" + name + "%", text) <==> HasPart(text, name)
  {
    var pattern := "%" + name + "%";
    assert pattern[0] == '%' && pattern[1..] == name + "%";
    LikePrefixIff(name, text);
    assert text[0..] == text;
    if text != "" {
      LikePartIff(name, text[1..]);
      if i :| 0 <= i <= |text[1..]| && BeginsWith(text[1..][i..], name) {
        assert text[i + 1..] == text[1..][i..];
      }
      if i :| 0 <= i <= |text| && BeginsWith(text[i..], name) {
        assert i > 0 ==> text[i..] == text[1..][i - 1..] && BeginsWith(text[1..][i - 1..], name);
      }
    }
  }

  // ----- wildcards -----

  /** The characters match one by one. */
  predicate MatchesEach(pattern: string, text: string) {
    |pattern| == |text|
    && forall i :: 0 <= i < |pattern| ==>
         pattern[i] == '%' || pattern[i] == '_' || Lower(pattern[i]) == Lower(text[i])
  }

  lemma {:induction false} LikeEach(name: string, text: string)
    requires MatchesEach(name, text)
    ensures Like(name + "%", text)
  {
    if name == "" {
      assert name + "%" == "%" && "%"[1..] == "";
    } else {
      assert (name + "%")[0] == name[0] && (name + "%")[1..] == name[1..] + "%";
      LikeEach(name[1..], text[1..]);
    }
  }

  /** A percent sign can match nothing. */
  lemma {:induction false} LikeWithoutPercent(name: string, i: nat)
    requires i < |name| && name[i] == '%'
    ensures Like(name + "%", name[..i] + name[i + 1..])
  {
    var text := name[..i] + name[i + 1..];
    assert (name + "%")[0] == name[0] && (name + "%")[1..] == name[1..] + "%";
    if i == 0 {
      assert text == name[1..];
      LikeEach(name[1..], name[1..]);
    } else {
      assert text[1..] == name[1..][..i - 1] + name[1..][i..];
      LikeWithoutPercent(name[1..], i - 1);
    }
  }

  /** A name with a wildcard also finds a text that does not contain it. */
  lemma WildcardFindsMore(name: string) returns (text: string)
    requires !NoWildcards(name)
    ensures Like(name + "%", text) && Like("%" + name + "%", text)
    ensures !BeginsWith(text, name) && !HasPart(text, name)
  {
    if i :| 0 <= i < |name| && name[i] == '%' {
      text := name[..i] + name[i + 1..];
      LikeWithoutPercent(name, i);
    } else {
      var i :| 0 <= i < |name| && name[i] == '_';
      text := name[i := 'x'];
      LikeEach(name, text);
      assert Lower(text[i]) != Lower(name[i]);
      assert forall k :: 0 < k <= |text| ==> !BeginsWith(text[k..], name);
      assert text[0..] == text;
    }
    var pattern := "%" + name + "%";
    assert pattern[0] == '%' && pattern[1..] == name + "%";
  }

  /** Searches find exactly the texts that begin with, or contain, the name if and only if it has no wildcard. */
  lemma SearchIsExactIff(name: string)
    ensures NoWildcards(name) <==> forall text :: Like(name + "%", text) <==> BeginsWith(text, name)
    ensures NoWildcards(name) <==> forall text :: Like("%" + name + "%", text) <==> HasPart(text, name)
  {
    hide Like;
    if NoWildcards(name) {
      forall text
        ensures Like(name + "%", text) <==> BeginsWith(text, name)
        ensures Like("%" + name + "%", text) <==> HasPart(text, name)
      {
        LikePrefixIff(name, text);
        LikePartIff(name, text);
      }
    } else {
      var text := WildcardFindsMore(name);
    }
  }
}
