/**
  The statement classifier of the query route: the first-keyword test
  `/^[\s]*(select|with|explain|pragma)\b/i`. A match makes the statement a
  data query, whose rows are materialised; anything else is run as a mutation.
 */
module Classifier {
  import opened JsText

  datatype Kind = DataQuery | Mutation

  const Keywords: seq<string> := ["select", "with", "explain", "pragma"]

  /** `s` begins with `kw`, compared ignoring ASCII case, and the keyword ends
      at a word boundary: the text ends there or the next character is not a
      word character. Without the `u` flag, `/i` never lets a non-ASCII
      character match an ASCII one, so ASCII case folding is exact here. */
  predicate StartsWithKeyword(s: string, kw: string) {
    && |kw| <= |s|
    && (forall i :: 0 <= i < |kw| ==> AsciiLower(s[i]) == kw[i])
    && (|kw| == |s| || !IsWordChar(s[|kw|]))
  }

  /** The classification the route computes (app/api/query/route.ts, line 36):
      skip the leading white space, then look for one of the four keywords. */
  function Classify(sql: string): Kind {
    var rest := sql[LeadingWhiteSpace(sql)..];
    if StartsWithKeyword(rest, "select") || StartsWithKeyword(rest, "with")
       || StartsWithKeyword(rest, "explain") || StartsWithKeyword(rest, "pragma")
    then DataQuery
    else Mutation
  }

  /** The regular expression read literally: some number `k` of white-space
      characters from the start, then the keyword `kw`, then a boundary. */
  predicate MatchesAt(sql: string, k: nat, kw: string) {
    k + |kw| <= |sql| && AllWhiteSpace(sql[..k]) && StartsWithKeyword(sql[k..], kw)
  }

  ghost predicate RegexMatches(sql: string) {
    exists k: nat, kw :: kw in Keywords && MatchesAt(sql, k, kw)
  }

  lemma KeywordStartsWithLetter(kw: string)
    requires kw in Keywords
    ensures |kw| > 0 && 'a' <= kw[0] <= 'z'
  {
  }

  /** A character that lower-cases to a lower-case ASCII letter is not white space. */
  lemma LetterNotWhiteSpace(c: char)
    requires 'a' <= AsciiLower(c) <= 'z'
    ensures !IsWhiteSpace(c)
  {
  }

  /** Any match of the regular expression starts its keyword exactly where the
      leading white space ends: `[\s]*` cannot stop early, because the keyword's
      first letter is not white space, nor run past a character that is not. */
  lemma MatchStartsAfterWhiteSpace(sql: string, k: nat, kw: string)
    requires kw in Keywords && MatchesAt(sql, k, kw)
    ensures k == LeadingWhiteSpace(sql)
  {
    var n := LeadingWhiteSpace(sql);
    KeywordStartsWithLetter(kw);
    assert sql[k..][0] == sql[k];
    LetterNotWhiteSpace(sql[k]);
  }

  /** A keyword right after the leading white space is a match of the regular expression. */
  lemma KeywordAfterWhiteSpace(sql: string, kw: string)
    requires StartsWithKeyword(sql[LeadingWhiteSpace(sql)..], kw)
    ensures MatchesAt(sql, LeadingWhiteSpace(sql), kw)
  {
  }

  /** The classifier is exactly the regular expression: a data query if and
      only if the text is white space, a keyword, and a word boundary. */
  lemma ClassifyIsRegex(sql: string)
    ensures Classify(sql) == DataQuery <==> RegexMatches(sql)
  {
    var rest := sql[LeadingWhiteSpace(sql)..];
    if StartsWithKeyword(rest, "select") {
      KeywordAfterWhiteSpace(sql, "select");
    } else if StartsWithKeyword(rest, "with") {
      KeywordAfterWhiteSpace(sql, "with");
    } else if StartsWithKeyword(rest, "explain") {
      KeywordAfterWhiteSpace(sql, "explain");
    } else if StartsWithKeyword(rest, "pragma") {
      KeywordAfterWhiteSpace(sql, "pragma");
    }
    if RegexMatches(sql) {
      var k: nat, kw :| kw in Keywords && MatchesAt(sql, k, kw);
      MatchStartsAfterWhiteSpace(sql, k, kw);
    }
  }

  /** A text whose first character is not white space is examined from its start. */
  lemma NoLeadingWhiteSpace(sql: string)
    requires sql != [] && !IsWhiteSpace(sql[0])
    ensures sql[LeadingWhiteSpace(sql)..] == sql
  {
  }

  /** A text whose first letter differs from the keyword's does not start with it. */
  lemma FirstLetterDiffers(s: string, kw: string)
    requires s != [] && kw != [] && AsciiLower(s[0]) != kw[0]
    ensures !StartsWithKeyword(s, kw)
  {
  }

  /** A text that spells the keyword and goes on with a word character is not a match. */
  lemma WordCharAfterKeyword(s: string, kw: string)
    requires |kw| < |s| && IsWordChar(s[|kw|])
    ensures !StartsWithKeyword(s, kw)
  {
  }

  /** A text that spells the keyword, ignoring case, and ends or goes on with
      a non-word character is a match. */
  lemma KeywordThenBoundary(s: string, kw: string)
    requires |kw| <= |s| && (forall i :: 0 <= i < |kw| ==> AsciiLower(s[i]) == kw[i])
    requires |kw| == |s| || !IsWordChar(s[|kw|])
    ensures StartsWithKeyword(s, kw)
  {
  }

  /** The boundary is what separates "select" from "selection": a keyword
      followed by a letter, digit or underscore is not a keyword. */
  lemma SelectionIsMutation()
    ensures Classify("selection x") == Mutation
    ensures Classify("select1") == Mutation
    ensures Classify("pragma_x") == Mutation
  {
    var a, b, c := "selection x", "select1", "pragma_x";
    NoLeadingWhiteSpace(a);
    NoLeadingWhiteSpace(b);
    NoLeadingWhiteSpace(c);
    WordCharAfterKeyword(a, "select");
    WordCharAfterKeyword(b, "select");
    WordCharAfterKeyword(c, "pragma");
    FirstLetterDiffers(a, "with");
    FirstLetterDiffers(a, "explain");
    FirstLetterDiffers(a, "pragma");
    FirstLetterDiffers(b, "with");
    FirstLetterDiffers(b, "explain");
    FirstLetterDiffers(b, "pragma");
    FirstLetterDiffers(c, "select");
    FirstLetterDiffers(c, "with");
    FirstLetterDiffers(c, "explain");
  }

  /** Punctuation is a boundary, and case does not matter. */
  lemma PunctuationIsBoundary()
    ensures Classify("SELECT*") == DataQuery
  {
    NoLeadingWhiteSpace("SELECT*");
    KeywordThenBoundary("SELECT*", "select");
  }

  /** The end of the text is a boundary. */
  lemma EndIsBoundary()
    ensures Classify("Explain") == DataQuery
  {
    NoLeadingWhiteSpace("Explain");
    FirstLetterDiffers("Explain", "select");
    FirstLetterDiffers("Explain", "with");
    KeywordThenBoundary("Explain", "explain");
  }

  /** Leading white space of any kind is skipped. */
  lemma WhiteSpaceSkipped()
    ensures Classify("  \n\tWith t") == DataQuery
  {
    var w := "  \n\tWith t";
    assert LeadingWhiteSpace(w[4..]) == 0;
    assert LeadingWhiteSpace(w) == 4;
    assert w[4..] == "With t";
    FirstLetterDiffers("With t", "select");
    KeywordThenBoundary("With t", "with");
  }

  /** Statements that begin with any other word, including destructive ones,
      are run as mutations: the classifier is not an allow-list. A leading
      comment hides a query's keyword. */
  lemma OtherStatementsAreMutations()
    ensures Classify("DROP TABLE employees") == Mutation
    ensures Classify("-- note\nSELECT 1") == Mutation
  {
    var a, b := "DROP TABLE employees", "-- note\nSELECT 1";
    NoLeadingWhiteSpace(a);
    NoLeadingWhiteSpace(b);
    FirstLetterDiffers(a, "select");
    FirstLetterDiffers(a, "with");
    FirstLetterDiffers(a, "explain");
    FirstLetterDiffers(a, "pragma");
    FirstLetterDiffers(b, "select");
    FirstLetterDiffers(b, "with");
    FirstLetterDiffers(b, "explain");
    FirstLetterDiffers(b, "pragma");
  }
}
