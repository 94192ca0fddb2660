/** SQL LIKE with a backslash escape, and the pattern the chat search builds (db/services/chat-library.ts). */
module LikePattern {
  /** `fold` is the comparison's case folding, character by character. */
  type Fold = char -> char

  predicate Meta(c: char) { c == '\\' || c == '%' || c == '_' }

  function Escape(query: string): string {
    if query == "" then ""
    else (if Meta(query[0]) then ['\\', query[0]] else [query[0]]) + Escape(query[1..])
  }

  function Pattern(query: string): string {
    "%" + Escape(query) + "%"
  }

  /** A pattern that ends in its escape character is an error in SQL; it matches nothing here. */
  predicate Like(fold: Fold, pattern: string, text: string)
    decreases |pattern| + |text|
  {
    if pattern == "" then text == ""
    else if pattern[0] == '%' then
      Like(fold, pattern[1..], text) || (text != "" && Like(fold, pattern, text[1..]))
    else if pattern[0] == '\\' then
      |pattern| >= 2 && text != "" && fold(text[0]) == fold(pattern[1]) && Like(fold, pattern[2..], text[1..])
    else
      text != "" && (pattern[0] == '_' || fold(text[0]) == fold(pattern[0])) && Like(fold, pattern[1..], text[1..])
  }

  predicate StartsWith(fold: Fold, query: string, text: string) {
    |query| <= |text| && forall k | 0 <= k < |query| :: fold(query[k]) == fold(text[k])
  }

  predicate Contains(fold: Fold, query: string, text: string) {
    exists i | 0 <= i <= |text| :: StartsWith(fold, query, text[i..])
  }

  lemma {:induction false} PercentMatchesAll(fold: Fold, text: string)
    ensures Like(fold, "%", text)
  {
    if text != "" {
      PercentMatchesAll(fold, text[1..]);
    }
  }

  /** An escaped query has no wildcards left. */
  lemma {:induction false} EscapedMatchesPrefix(fold: Fold, query: string, text: string)
    ensures Like(fold, Escape(query) + "%", text) <==> StartsWith(fold, query, text)
    decreases |query|
  {
    if query == "" {
      assert Escape(query) + "%" == "%";
      PercentMatchesAll(fold, text);
    } else {
      var pattern := Escape(query) + "%";
      var rest := Escape(query[1..]) + "%";
      assert if Meta(query[0]) then pattern == ['\\', query[0]] + rest else pattern == [query[0]] + rest;
      assert if Meta(query[0]) then pattern[2..] == rest else pattern[1..] == rest;
      if text != "" {
        EscapedMatchesPrefix(fold, query[1..], text[1..]);
        StartsWithHead(fold, query, text);
      }
    }
  }

  lemma StartsWithHead(fold: Fold, query: string, text: string)
    requires query != "" && text != ""
    ensures StartsWith(fold, query, text)
            <==> fold(query[0]) == fold(text[0]) && StartsWith(fold, query[1..], text[1..])
  {
    if fold(query[0]) == fold(text[0]) && StartsWith(fold, query[1..], text[1..]) {
      forall k | 0 <= k < |query| ensures fold(query[k]) == fold(text[k]) {
        if k > 0 {
          assert query[1..][k - 1] == query[k] && text[1..][k - 1] == text[k];
        }
      }
    }
  }

  /** The pattern of a query matches a title exactly when the query, read literally, occurs in it. */
  lemma {:induction false} PatternMeansContains(fold: Fold, query: string, text: string)
    ensures Like(fold, Pattern(query), text) <==> Contains(fold, query, text)
    decreases |text|
  {
    var pattern := Pattern(query);
    assert pattern[1..] == Escape(query) + "%";
    EscapedMatchesPrefix(fold, query, text);
    assert text[0..] == text;
    if text != "" {
      PatternMeansContains(fold, query, text[1..]);
      if Contains(fold, query, text) && !StartsWith(fold, query, text) {
        var i :| 0 <= i <= |text| && StartsWith(fold, query, text[i..]);
        assert text[1..][i - 1..] == text[i..];
      }
      if Contains(fold, query, text[1..]) {
        var i :| 0 <= i <= |text[1..]| && StartsWith(fold, query, text[1..][i..]);
        assert text[1..][i..] == text[i + 1..];
      }
    }
  }

  /** Leaving the filter out for an empty query changes nothing. */
  lemma EmptyQueryMatchesAll(fold: Fold, text: string)
    ensures Like(fold, Pattern(""), text)
  {
    PatternMeansContains(fold, "", text);
    assert StartsWith(fold, "", text[0..]);
  }
}
