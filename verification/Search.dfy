/** Searching names: the escaped pattern under LIKE ... ESCAPE '\' finds exactly the contiguous occurrences. */
module Search {
  function Replace(s: string, c: char, replacement: string): string {
    if s == "" then "" else (if s[0] == c then replacement else [s[0]]) + Replace(s[1..], c, replacement)
  }

  function Escaped(query: string): string {
    Replace(Replace(Replace(query, '\\', "\\\\"), '%', "\\%"), '_', "\\_")
  }

  function SearchPattern(query: string): string { "%" + Escaped(query) + "%" }

  predicate Special(c: char) { c == '\\' || c == '%' || c == '_' }

  /** Escaping in one pass. */
  function EscapeOnce(query: string): string {
    if query == "" then "" else (if Special(query[0]) then ['\\', query[0]] else [query[0]]) + EscapeOnce(query[1..])
  }

  /** SQL LIKE with escape character '\', characters compared up to `fold`. */
  predicate Like(pattern: string, text: string, fold: char -> char)
    decreases |pattern| + |text|
  {
    if pattern == "" then text == ""
    else if pattern[0] == '%' then
      Like(pattern[1..], text, fold) || (text != "" && Like(pattern, text[1..], fold))
    else if pattern[0] == '_' then text != "" && Like(pattern[1..], text[1..], fold)
    else if pattern[0] == '\\' then
      |pattern| > 1 && text != "" && fold(pattern[1]) == fold(text[0]) && Like(pattern[2..], text[1..], fold)
    else text != "" && fold(pattern[0]) == fold(text[0]) && Like(pattern[1..], text[1..], fold)
  }

  predicate StartsWith(text: string, query: string, fold: char -> char) {
    |query| <= |text| && forall j :: 0 <= j < |query| ==> fold(query[j]) == fold(text[j])
  }

  predicate OccursAt(text: string, query: string, i: nat, fold: char -> char) {
    i <= |text| && StartsWith(text[i..], query, fold)
  }

  lemma {:induction false} ReplaceConcat(a: string, b: string, c: char, replacement: string)
    ensures Replace(a + b, c, replacement) == Replace(a, c, replacement) + Replace(b, c, replacement)
  {
    if a == "" {
      assert a + b == b;
    } else {
      assert (a + b)[1..] == a[1..] + b;
      ReplaceConcat(a[1..], b, c, replacement);
    }
  }

  lemma ReplaceShort(s: string, c: char, replacement: string)
    requires |s| <= 2
    ensures |s| == 1 ==> Replace(s, c, replacement) == if s[0] == c then replacement else s
    ensures |s| == 2 && s[0] != c && s[1] != c ==> Replace(s, c, replacement) == s
    ensures |s| == 2 && s[0] != c && s[1] == c ==> Replace(s, c, replacement) == [s[0]] + replacement
  {
    if |s| >= 1 { assert s == [s[0]] + s[1..]; }
    if |s| == 2 { assert s[1..] == [s[1]] && s[1..][1..] == ""; }
    if |s| == 1 { assert s[1..] == ""; }
  }

  /** The order of the three replacements is right: they amount to one pass. */
  lemma {:induction false} EscapingIsOnePass(query: string)
    ensures Escaped(query) == EscapeOnce(query)
  {
    if query != "" {
      var c, rest := query[0], query[1..];
      EscapingIsOnePass(rest);
      assert query == [c] + rest;
      var one := if c == '\\' then "\\\\" else [c];
      var two := if c == '%' then "\\%" else one;
      var three := if c == '_' then "\\_" else two;
      ReplaceConcat([c], rest, '\\', "\\\\");
      ReplaceShort([c], '\\', "\\\\");
      ReplaceConcat(one, Replace(rest, '\\', "\\\\"), '%', "\\%");
      ReplaceShort(one, '%', "\\%");
      ReplaceConcat(two, Replace(Replace(rest, '\\', "\\\\"), '%', "\\%"), '_', "\\_");
      ReplaceShort(two, '_', "\\_");
      assert three == if Special(c) then ['\\', c] else [c];
    }
  }

  /** An escaped query matches itself and nothing else, and then the rest of the pattern goes on. */
  lemma {:induction false} LikeEscaped(query: string, rest: string, text: string, fold: char -> char)
    ensures Like(EscapeOnce(query) + rest, text, fold) <==>
            StartsWith(text, query, fold) && Like(rest, text[|query|..], fold)
  {
    if query == "" {
      assert EscapeOnce(query) + rest == rest && text[0..] == text;
    } else {
      var head := if Special(query[0]) then ['\\', query[0]] else [query[0]];
      var pattern := EscapeOnce(query) + rest;
      assert pattern == head + (EscapeOnce(query[1..]) + rest);
      if text != "" {
        LikeEscaped(query[1..], rest, text[1..], fold);
        assert pattern[|head|..] == EscapeOnce(query[1..]) + rest;
        assert StartsWith(text, query, fold) <==>
               fold(query[0]) == fold(text[0]) && StartsWith(text[1..], query[1..], fold) by {
          assert forall j :: 0 <= j < |query| - 1 ==> query[1..][j] == query[j + 1];
          assert forall j :: 0 <= j < |text| - 1 ==> text[1..][j] == text[j + 1];
          if fold(query[0]) == fold(text[0]) && StartsWith(text[1..], query[1..], fold) {
            forall j | 0 <= j < |query| ensures fold(query[j]) == fold(text[j]) {
              if j > 0 { assert query[1..][j - 1] == query[j] && text[1..][j - 1] == text[j]; }
            }
          }
        }
        if |query| <= |text| { assert text[1..][|query| - 1..] == text[|query|..]; }
      }
    }
  }

  lemma {:induction false} PercentMatchesAll(text: string, fold: char -> char)
    ensures Like("%", text, fold)
  {
    assert "%"[1..] == "";
    if text != "" { PercentMatchesAll(text[1..], fold); }
  }

  /** A leading '%' tries every suffix. */
  lemma {:induction false} LikePercent(pattern: string, text: string, fold: char -> char)
    requires pattern != "" && pattern[0] == '%'
    ensures Like(pattern, text, fold) <==> exists i :: 0 <= i <= |text| && Like(pattern[1..], text[i..], fold)
    decreases |text|
  {
    assert text[0..] == text;
    if text != "" {
      LikePercent(pattern, text[1..], fold);
      if Like(pattern, text[1..], fold) {
        var i :| 0 <= i <= |text[1..]| && Like(pattern[1..], text[1..][i..], fold);
        assert text[1..][i..] == text[i + 1..];
      }
      forall i | 0 < i <= |text| ensures text[i..] == text[1..][i - 1..] {}
    }
  }

  /** A name matches the search pattern exactly when the query occurs in it as a contiguous substring. */
  lemma PatternFindsSubstrings(query: string, text: string, fold: char -> char)
    ensures Like(SearchPattern(query), text, fold) <==> exists i: nat :: OccursAt(text, query, i, fold)
  {
    EscapingIsOnePass(query);
    var pattern := SearchPattern(query);
    assert pattern[1..] == EscapeOnce(query) + "%";
    LikePercent(pattern, text, fold);
    forall i: nat | i <= |text|
      ensures Like(pattern[1..], text[i..], fold) <==> OccursAt(text, query, i, fold)
    {
      LikeEscaped(query, "%", text[i..], fold);
      if StartsWith(text[i..], query, fold) { PercentMatchesAll(text[i..][|query|..], fold); }
    }
  }
}
