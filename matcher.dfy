/**
 * `match_line`: does a log line contain any of the identifier tokens? Either
 * as a plain substring, or, in exact mode, as the literal token surrounded by
 * regular-expression word boundaries (`\b` + escaped token + `\b`). Unless the
 * search is case-sensitive, line and token are both lower-cased first.
 */
module Matcher {
  import opened PyStr

  /** The three check boxes of the tool; each defaults to off. */
  datatype MatchConfig = MatchConfig(caseSensitive: bool, exactMatch: bool, exclude: bool)

  const DefaultConfig := MatchConfig(false, false, false)

  /** `\w` restricted to ASCII: letters, digits and underscore. */
  predicate IsWordChar(c: char) {
    'a' <= c <= 'z' || 'A' <= c <= 'Z' || '0' <= c <= '9' || c == '_'
  }

  /** There is a word character at position `p` of `s` (positions outside `s` have none). */
  predicate WordAt(s: string, p: int) {
    0 <= p < |s| && IsWordChar(s[p])
  }

  /** `\b` holds at position `p`: a word character on exactly one side. */
  predicate BoundaryAt(s: string, p: int) {
    WordAt(s, p - 1) != WordAt(s, p)
  }

  /** `tok` occurs in `line` starting at position `i`. */
  predicate OccursAt(line: string, tok: string, i: int) {
    0 <= i && i + |tok| <= |line| && line[i..i + |tok|] == tok
  }

  /** An occurrence at `i` that the search accepts: any occurrence, or in exact mode one with `\b` on both ends. */
  predicate HitAt(line: string, tok: string, i: int, exact: bool) {
    OccursAt(line, tok, i) && (exact ==> BoundaryAt(line, i) && BoundaryAt(line, i + |tok|))
  }

  /** The search's specification: some position holds an accepted occurrence. */
  ghost predicate Occurs(line: string, tok: string, exact: bool) {
    exists i :: HitAt(line, tok, i, exact)
  }

  /** Left-to-right scan from position `i`, as `tok in line` and `re.search` perform it (see `SearchFromSpec`). */
  function SearchFrom(line: string, tok: string, exact: bool, i: nat): bool
    decreases |line| - i
  {
    if i + |tok| > |line| then false
    else HitAt(line, tok, i, exact) || SearchFrom(line, tok, exact, i + 1)
  }

  /** The scan from `i` succeeds exactly when an accepted occurrence starts at `i` or later. */
  lemma {:induction false} SearchFromSpec(line: string, tok: string, exact: bool, i: nat)
    decreases |line| - i
    ensures SearchFrom(line, tok, exact, i) <==> exists j :: i <= j && HitAt(line, tok, j, exact)
  {
    if i + |tok| <= |line| {
      SearchFromSpec(line, tok, exact, i + 1);
      if exists j :: i <= j && HitAt(line, tok, j, exact) {
        var j :| i <= j && HitAt(line, tok, j, exact);
        assert j == i || i + 1 <= j;
      }
    }
  }

  /** `tok in line` (not exact) or `re.search(r'\b' + re.escape(tok) + r'\b', line)` (exact). */
  function Search(line: string, tok: string, exact: bool): bool {
    SearchFrom(line, tok, exact, 0)
  }

  /** The search succeeds exactly when the token occurs, word-bounded in exact mode. */
  lemma SearchSpec(line: string, tok: string, exact: bool)
    ensures Search(line, tok, exact) <==> Occurs(line, tok, exact)
  {
    SearchFromSpec(line, tok, exact, 0);
  }

  /** The case normalisation applied to both line and token. */
  function Normalize(s: string, cfg: MatchConfig): string {
    if cfg.caseSensitive then s else Lower(s)
  }

  /** The loop of `match_line` over the tokens, on the already normalised line. */
  function AnyTokenMatches(normLine: string, tokens: seq<string>, cfg: MatchConfig): bool {
    if tokens == [] then false
    else Search(normLine, Normalize(tokens[0], cfg), cfg.exactMatch)
         || AnyTokenMatches(normLine, tokens[1..], cfg)
  }

  /** The token loop succeeds exactly when the search succeeds for some token. */
  lemma {:induction false} AnyTokenMatchesSpec(normLine: string, tokens: seq<string>, cfg: MatchConfig)
    ensures AnyTokenMatches(normLine, tokens, cfg)
            <==> exists k :: 0 <= k < |tokens| && Search(normLine, Normalize(tokens[k], cfg), cfg.exactMatch)
  {
    if tokens != [] {
      AnyTokenMatchesSpec(normLine, tokens[1..], cfg);
      if exists k :: 0 <= k < |tokens| && Search(normLine, Normalize(tokens[k], cfg), cfg.exactMatch) {
        var k :| 0 <= k < |tokens| && Search(normLine, Normalize(tokens[k], cfg), cfg.exactMatch);
        if k > 0 {
          assert tokens[1..][k - 1] == tokens[k];
        }
      }
      if AnyTokenMatches(normLine, tokens[1..], cfg) {
        var m :| 0 <= m < |tokens[1..]| && Search(normLine, Normalize(tokens[1..][m], cfg), cfg.exactMatch);
        assert tokens[1..][m] == tokens[m + 1];
      }
    }
  }

  /** `match_line` (see `MatchLineSpec`). */
  function MatchLine(line: string, tokens: seq<string>, cfg: MatchConfig): bool {
    AnyTokenMatches(Normalize(line, cfg), tokens, cfg)
  }

  /**
   * A line matches exactly when some token, normalised like the line, occurs
   * in the normalised line in the configured sense.
   */
  lemma MatchLineSpec(line: string, tokens: seq<string>, cfg: MatchConfig)
    ensures MatchLine(line, tokens, cfg)
            <==> exists k :: 0 <= k < |tokens| && Occurs(Normalize(line, cfg), Normalize(tokens[k], cfg), cfg.exactMatch)
  {
    var norm := Normalize(line, cfg);
    AnyTokenMatchesSpec(norm, tokens, cfg);
    forall k | 0 <= k < |tokens|
      ensures Search(norm, Normalize(tokens[k], cfg), cfg.exactMatch) <==> Occurs(norm, Normalize(tokens[k], cfg), cfg.exactMatch)
    {
      SearchSpec(norm, Normalize(tokens[k], cfg), cfg.exactMatch);
    }
  }

  /** The token loop does not read the exclude flag. */
  lemma {:induction false} AnyTokenMatchesIgnoresExclude(normLine: string, tokens: seq<string>, cfg: MatchConfig, exclude: bool)
    ensures AnyTokenMatches(normLine, tokens, cfg.(exclude := exclude)) == AnyTokenMatches(normLine, tokens, cfg)
  {
    if tokens != [] {
      AnyTokenMatchesIgnoresExclude(normLine, tokens[1..], cfg, exclude);
    }
  }

  /** Whether a line matches does not depend on exclude mode, which only inverts the selection. */
  lemma MatchLineIgnoresExclude(line: string, tokens: seq<string>, cfg: MatchConfig, exclude: bool)
    ensures MatchLine(line, tokens, cfg.(exclude := exclude)) == MatchLine(line, tokens, cfg)
  {
    AnyTokenMatchesIgnoresExclude(Normalize(line, cfg), tokens, cfg, exclude);
  }

  /** An exact (word-bounded) occurrence is in particular a substring occurrence. */
  lemma ExactImpliesSubstring(line: string, tok: string)
    ensures Search(line, tok, true) ==> Search(line, tok, false)
  {
    SearchSpec(line, tok, true);
    SearchSpec(line, tok, false);
    if Search(line, tok, true) {
      var i :| HitAt(line, tok, i, true);
      assert HitAt(line, tok, i, false);
    }
  }

  /** Switching exact mode on can only lose matches. */
  lemma MatchLineExactImpliesSubstring(line: string, tokens: seq<string>, cfg: MatchConfig)
    ensures MatchLine(line, tokens, cfg.(exactMatch := true)) ==> MatchLine(line, tokens, cfg.(exactMatch := false))
  {
    var exact, plain := cfg.(exactMatch := true), cfg.(exactMatch := false);
    MatchLineSpec(line, tokens, exact);
    MatchLineSpec(line, tokens, plain);
    if MatchLine(line, tokens, exact) {
      var k :| 0 <= k < |tokens| && Occurs(Normalize(line, exact), Normalize(tokens[k], exact), true);
      var norm, tok := Normalize(line, cfg), Normalize(tokens[k], cfg);
      SearchSpec(norm, tok, true);
      SearchSpec(norm, tok, false);
      ExactImpliesSubstring(norm, tok);
      assert Occurs(Normalize(line, plain), Normalize(tokens[k], plain), false);
    }
  }

  /** More tokens never turn a match into a non-match. */
  lemma MatchMonotone(line: string, tokens: seq<string>, more: seq<string>, cfg: MatchConfig)
    requires forall t :: t in tokens ==> t in more
    ensures MatchLine(line, tokens, cfg) ==> MatchLine(line, more, cfg)
  {
    MatchLineSpec(line, tokens, cfg);
    MatchLineSpec(line, more, cfg);
    if MatchLine(line, tokens, cfg) {
      var k :| 0 <= k < |tokens| && Occurs(Normalize(line, cfg), Normalize(tokens[k], cfg), cfg.exactMatch);
      assert tokens[k] in more;
      var m :| 0 <= m < |more| && more[m] == tokens[k];
      assert Occurs(Normalize(line, cfg), Normalize(more[m], cfg), cfg.exactMatch);
    }
  }

  /** Case-insensitive matching does not see whether the line was lower-cased beforehand. */
  lemma LowerLineInvariant(line: string, tokens: seq<string>, cfg: MatchConfig)
    requires !cfg.caseSensitive
    ensures MatchLine(Lower(line), tokens, cfg) == MatchLine(line, tokens, cfg)
  {
    LowerIdempotent(line);
  }

  /** Case-insensitive matching does not see whether the tokens were lower-cased beforehand. */
  lemma LowerTokensInvariant(line: string, tokens: seq<string>, cfg: MatchConfig)
    requires !cfg.caseSensitive
    ensures MatchLine(line, seq(|tokens|, k requires 0 <= k < |tokens| => Lower(tokens[k])), cfg)
            == MatchLine(line, tokens, cfg)
  {
    var lowered := seq(|tokens|, k requires 0 <= k < |tokens| => Lower(tokens[k]));
    forall k | 0 <= k < |tokens|
      ensures Normalize(lowered[k], cfg) == Normalize(tokens[k], cfg)
    {
      LowerIdempotent(tokens[k]);
    }
    AnyTokenMatchesSpec(Normalize(line, cfg), lowered, cfg);
    AnyTokenMatchesSpec(Normalize(line, cfg), tokens, cfg);
  }

  /** Case-sensitive matching compares the raw line and tokens. */
  lemma CaseSensitiveRaw(line: string, tokens: seq<string>, cfg: MatchConfig)
    requires cfg.caseSensitive
    ensures MatchLine(line, tokens, cfg) <==> exists k :: 0 <= k < |tokens| && Occurs(line, tokens[k], cfg.exactMatch)
  {
    MatchLineSpec(line, tokens, cfg);
    assert forall k :: 0 <= k < |tokens| ==> Normalize(tokens[k], cfg) == tokens[k];
  }

  /**
   * For a token that begins and ends with a word character, `\b` on both
   * ends means exactly: no word character right before or right after.
   */
  lemma WholeWord(line: string, tok: string)
    requires tok != [] && IsWordChar(tok[0]) && IsWordChar(tok[|tok| - 1])
    ensures Occurs(line, tok, true)
            <==> exists i :: OccursAt(line, tok, i) && !WordAt(line, i - 1) && !WordAt(line, i + |tok|)
  {
    forall i | OccursAt(line, tok, i)
      ensures HitAt(line, tok, i, true) <==> !WordAt(line, i - 1) && !WordAt(line, i + |tok|)
    {
      assert line[i] == tok[0];
      assert line[i + |tok| - 1] == tok[|tok| - 1];
      assert WordAt(line, i) && WordAt(line, i + |tok| - 1);
    }
  }

  /** In substring mode, one occurrence of the normalised token in the normalised line makes the line match. */
  lemma OccurrenceMatches(line: string, tok: string, i: int, cfg: MatchConfig)
    requires !cfg.exactMatch && OccursAt(Normalize(line, cfg), Normalize(tok, cfg), i)
    ensures MatchLine(line, [tok], cfg)
  {
    MatchLineSpec(line, [tok], cfg);
    assert HitAt(Normalize(line, cfg), Normalize([tok][0], cfg), i, false);
  }

  /** Exact mode: `1` is not a word inside `100`, but is one on its own, in `(1)` and in `1,2`. */
  lemma ExactMatchExamples()
    ensures !MatchLine("100", ["1"], DefaultConfig.(exactMatch := true))
    ensures MatchLine("1", ["1"], DefaultConfig.(exactMatch := true))
    ensures MatchLine("(1)", ["1"], DefaultConfig.(exactMatch := true))
    ensures MatchLine("1,2", ["1"], DefaultConfig.(exactMatch := true))
  {
    var exact := DefaultConfig.(exactMatch := true);
    assert Lower("100") == "100" && Lower("1") == "1" && Lower("(1)") == "(1)" && Lower("1,2") == "1,2";
    assert !SearchFrom("100", "1", true, 0) by {
      assert !HitAt("100", "1", 0, true) by { assert WordAt("100", 1); }
      assert !HitAt("100", "1", 1, true) by { assert "100"[1..2] != "1"; }
      assert !HitAt("100", "1", 2, true) by { assert "100"[2..3] != "1"; }
    }
    assert HitAt("1", "1", 0, true);
    assert HitAt("(1)", "1", 1, true) by { assert "(1)"[1..2] == "1"; }
    assert HitAt("1,2", "1", 0, true) by { assert "1,2"[0..1] == "1"; }
  }

  /** Substring mode: `1` matches inside `100`. */
  lemma SubstringMatchExample()
    ensures MatchLine("100", ["1"], DefaultConfig)
  {
    assert Lower("100") == "100" && Lower("1") == "1";
    assert HitAt("100", "1", 0, false);
  }

  /** `ABC` matches `abc123` by default, but not when matching is case-sensitive. */
  lemma CaseExamples()
    ensures MatchLine("abc123", ["ABC"], DefaultConfig)
    ensures !MatchLine("abc123", ["ABC"], DefaultConfig.(caseSensitive := true))
  {
    assert Lower("ABC") == "abc";
    assert HitAt(Lower("abc123"), "abc", 0, false) by { assert Lower("abc123")[0..3] == "abc"; }
    var line := "abc123";
    forall i | 0 <= i && i + 3 <= |line|
      ensures !OccursAt(line, "ABC", i)
    {
      assert line[i] != 'A';
      assert line[i..i + 3][0] == line[i];
    }
  }

  /**
   * A token that starts with a non-word character needs a word character
   * before it for `\b` to hold: in exact mode `(1)` is found in `x(1)y`.
   */
  lemma PunctuationTokenExactHit(line: string)
    requires line == "x(1)y"
    ensures MatchLine(line, ["(1)"], DefaultConfig.(exactMatch := true))
  {
    LowerOfLowercase(line);
    LowerOfLowercase("(1)");
    assert line[1..4] == "(1)";
    assert HitAt(line, "(1)", 1, true);
    MatchLineSpec(line, ["(1)"], DefaultConfig.(exactMatch := true));
  }

  /** ... but not in `x (1) y`, where a space precedes it, ... */
  lemma PunctuationTokenExactMiss(line: string)
    requires line == "x (1) y"
    ensures !MatchLine(line, ["(1)"], DefaultConfig.(exactMatch := true))
  {
    LowerOfLowercase(line);
    LowerOfLowercase("(1)");
    MatchLineSpec(line, ["(1)"], DefaultConfig.(exactMatch := true));
    NoBoundaryBeforeNonWord(line, "(1)");
  }

  /**
   * A token that starts with a non-word character has no `\b` in front of
   * it wherever its first character follows a non-word character.
   */
  lemma NoBoundaryBeforeNonWord(line: string, tok: string)
    requires |tok| >= 1 && !IsWordChar(tok[0])
    requires forall i :: 0 < i < |line| && line[i] == tok[0] ==> !IsWordChar(line[i - 1])
    ensures forall i :: OccursAt(line, tok, i) ==> !BoundaryAt(line, i)
  {
    forall i | OccursAt(line, tok, i)
      ensures !BoundaryAt(line, i)
    {
      assert line[i] == line[i..i + |tok|][0];
    }
  }

  /** ... although it occurs there as a substring. */
  lemma PunctuationTokenSubstringHit(line: string)
    requires line == "x (1) y"
    ensures MatchLine(line, ["(1)"], DefaultConfig)
  {
    LowerOfLowercase(line);
    LowerOfLowercase("(1)");
    assert line[2..5] == "(1)";
    OccurrenceMatches(line, "(1)", 2, DefaultConfig);
  }
}
