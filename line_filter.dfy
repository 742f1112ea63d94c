/**
 * The two line loops of the tool: the full run (`filter_can_ids`), which
 * counts every line and writes out the selected ones, and the preview
 * (`preview_results`), which stops after the first 250 selected lines. A line
 * is selected when it matches and exclude mode is off, or it does not match
 * and exclude mode is on.
 */
module LineFilter {
  import opened Wrappers
  import opened Seqs
  import opened CanIds
  import opened Matcher
  import opened PyStr

  /** The preview shows at most this many selected lines. */
  const PreviewLimit: nat := 250

  /** `(match and not exclude) or (not match and exclude)` */
  predicate IsSelected(line: string, tokens: seq<string>, cfg: MatchConfig) {
    var m := MatchLine(line, tokens, cfg);
    (m && !cfg.exclude) || (!m && cfg.exclude)
  }

  /** The selected lines, verbatim and in file order. */
  function Selected(lines: seq<string>, tokens: seq<string>, cfg: MatchConfig): seq<string> {
    Filter(lines, line => IsSelected(line, tokens, cfg))
  }

  /** The lines that a run leaves out. */
  function Unselected(lines: seq<string>, tokens: seq<string>, cfg: MatchConfig): seq<string> {
    Filter(lines, line => !IsSelected(line, tokens, cfg))
  }

  /** The numbers reported at the end of a full run. */
  datatype FilterSummary = FilterSummary(totalLines: nat, matchedLines: nat, percentage: real)

  /** Why a run did not start: no token at all, or every token was invalid hex. */
  datatype RunError = NoCanIds | NoValidCanIds

  /** `matched / total * 100`, or 0 for an empty input. */
  function Percentage(matched: nat, total: nat): (pct: real)
    ensures total == 0 ==> pct == 0.0
    ensures total > 0 ==> pct * (total as real) == (matched as real) * 100.0
    ensures matched <= total ==> 0.0 <= pct <= 100.0
  {
    if total > 0 then (matched as real) / (total as real) * 100.0 else 0.0
  }

  /** Reading one more line extends the selection by that line exactly when it is selected. */
  lemma SelectedStep(lines: seq<string>, i: nat, tokens: seq<string>, cfg: MatchConfig)
    requires i < |lines|
    ensures Selected(lines[..i + 1], tokens, cfg)
            == Selected(lines[..i], tokens, cfg) + (if IsSelected(lines[i], tokens, cfg) then [lines[i]] else [])
  {
    assert lines[..i + 1] == lines[..i] + [lines[i]];
    FilterSnoc(lines[..i], lines[i], l => IsSelected(l, tokens, cfg));
  }

  /**
   * The loop of the full run: every line is counted, and every selected line
   * is written out and counted as matched.
   */
  method FilterLines(lines: seq<string>, tokens: seq<string>, cfg: MatchConfig)
    returns (written: seq<string>, totalLines: nat, matchedLines: nat)
    ensures totalLines == |lines|
    ensures written == Selected(lines, tokens, cfg)
    ensures matchedLines == |written|
  {
    written, totalLines, matchedLines := [], 0, 0;
    for i := 0 to |lines|
      invariant totalLines == i
      invariant written == Selected(lines[..i], tokens, cfg)
      invariant matchedLines == |written|
    {
      var line := lines[i];
      totalLines := totalLines + 1;
      var matchFound := MatchLine(line, tokens, cfg);
      SelectedStep(lines, i, tokens, cfg);
      if (matchFound && !cfg.exclude) || (!matchFound && cfg.exclude) {
        matchedLines := matchedLines + 1;
        written := written + [line];
      }
    }
    assert lines[..|lines|] == lines;
  }

  /**
   * The loop of the preview: collects selected lines and stops reading once
   * `PreviewLimit` of them are collected. `linesRead` is how many lines it
   * consumed. Unless it reaches the end of the input, it has collected the
   * limit; and once it has collected the limit it has stopped on the line
   * that brought the count there: the lines before that one hold fewer
   * selected lines than the limit.
   */
  method PreviewLines(lines: seq<string>, tokens: seq<string>, cfg: MatchConfig)
    returns (shown: seq<string>, linesRead: nat)
    ensures linesRead <= |lines|
    ensures shown == Selected(lines[..linesRead], tokens, cfg)
    ensures |shown| <= PreviewLimit
    ensures linesRead < |lines| ==> 0 < linesRead && |shown| == PreviewLimit
    ensures |shown| == PreviewLimit ==> 0 < linesRead && |Selected(lines[..linesRead - 1], tokens, cfg)| < PreviewLimit
  {
    shown, linesRead := [], 0;
    var count := 0;
    while linesRead < |lines|
      invariant linesRead <= |lines|
      invariant shown == Selected(lines[..linesRead], tokens, cfg)
      invariant count == |shown| < PreviewLimit
    {
      var line := lines[linesRead];
      var matchFound := MatchLine(line, tokens, cfg);
      SelectedStep(lines, linesRead, tokens, cfg);
      linesRead := linesRead + 1;
      if (matchFound && !cfg.exclude) || (!matchFound && cfg.exclude) {
        shown := shown + [line];
        count := count + 1;
        if count >= PreviewLimit {
          break;
        }
      }
    }
  }

  /**
   * What the preview loop guarantees, that it collects selected lines from a
   * prefix and stops early only at the limit, means it shows the first
   * `min(250, #selected)` selected lines in file order.
   */
  lemma PreviewIsPrefix(lines: seq<string>, tokens: seq<string>, cfg: MatchConfig, shown: seq<string>, linesRead: nat)
    requires linesRead <= |lines|
    requires shown == Selected(lines[..linesRead], tokens, cfg)
    requires |shown| <= PreviewLimit
    requires linesRead < |lines| ==> |shown| == PreviewLimit
    ensures shown == PreviewOf(lines, tokens, cfg)
  {
    FilterPrefix(lines, linesRead, l => IsSelected(l, tokens, cfg));
    if linesRead == |lines| {
      assert lines[..linesRead] == lines;
    }
  }

  /** The output is a subsequence of the input, so at most as many lines are matched as read. */
  lemma SelectedIsSubsequence(lines: seq<string>, tokens: seq<string>, cfg: MatchConfig)
    ensures IsSubsequence(Selected(lines, tokens, cfg), lines)
    ensures |Selected(lines, tokens, cfg)| <= |lines|
  {
    FilterIsSubsequence(lines, l => IsSelected(l, tokens, cfg));
  }

  /** A line is written iff it is one of the input lines and it is selected. */
  lemma SelectedMembership(lines: seq<string>, tokens: seq<string>, cfg: MatchConfig, line: string)
    ensures line in Selected(lines, tokens, cfg) <==> line in lines && IsSelected(line, tokens, cfg)
  {
    FilterMembership(lines, l => IsSelected(l, tokens, cfg), line);
  }

  /** Total lines are the selected plus the unselected lines. */
  lemma SelectedUnselectedCount(lines: seq<string>, tokens: seq<string>, cfg: MatchConfig)
    ensures |Selected(lines, tokens, cfg)| + |Unselected(lines, tokens, cfg)| == |lines|
  {
    FilterPartition(lines, l => IsSelected(l, tokens, cfg), l => !IsSelected(l, tokens, cfg));
  }

  /** Flipping exclude mode selects exactly the lines the original run left out. */
  lemma {:induction false} ExcludeComplement(lines: seq<string>, tokens: seq<string>, cfg: MatchConfig)
    ensures Selected(lines, tokens, cfg.(exclude := !cfg.exclude)) == Unselected(lines, tokens, cfg)
  {
    if lines != [] {
      ExcludeComplement(lines[..|lines| - 1], tokens, cfg);
      var flipped := cfg.(exclude := !cfg.exclude);
      var last := lines[|lines| - 1];
      MatchLineIgnoresExclude(last, tokens, cfg, !cfg.exclude);
    }
  }

  /** What the preview shows: the first `min(250, #selected)` selected lines. */
  function PreviewOf(lines: seq<string>, tokens: seq<string>, cfg: MatchConfig): (shown: seq<string>)
    ensures |shown| <= PreviewLimit
  {
    var all := Selected(lines, tokens, cfg);
    all[..if |all| < PreviewLimit then |all| else PreviewLimit]
  }

  /**
   * `filter_can_ids` after its file checks: validate the identifier text, and
   * unless that leaves no token, run the line loop and report the counts.
   * Nothing is written when validation fails.
   */
  method FilterCanIds(idsText: string, lines: seq<string>, cfg: MatchConfig)
    returns (result: Result<FilterSummary, RunError>, written: seq<string>, warnings: seq<string>)
    ensures CleanTokens(idsText) == [] ==> result == Failure(NoCanIds) && written == [] && warnings == []
    ensures CleanTokens(idsText) != [] ==> warnings == Dropped(CleanTokens(idsText))
    ensures CleanTokens(idsText) != [] && Validated(CleanTokens(idsText)) == []
            ==> result == Failure(NoValidCanIds) && written == []
    ensures var tokens := Validated(CleanTokens(idsText));
            tokens != [] ==>
              && written == Selected(lines, tokens, cfg)
              && result == Success(FilterSummary(|lines|, |written|, Percentage(|written|, |lines|)))
  {
    var validated;
    validated, warnings := ValidateCanIds(idsText);
    if validated.None? {
      return Failure(NoCanIds), [], warnings;
    }
    var tokens := validated.value;
    if tokens == [] {
      return Failure(NoValidCanIds), [], warnings;
    }
    var totalLines, matchedLines;
    written, totalLines, matchedLines := FilterLines(lines, tokens, cfg);
    var percentage := Percentage(matchedLines, totalLines);
    result := Success(FilterSummary(totalLines, matchedLines, percentage));
  }

  /**
   * `preview_results` after its file checks: validate the identifier text and,
   * unless that leaves no token, collect the preview.
   */
  method PreviewResults(idsText: string, lines: seq<string>, cfg: MatchConfig)
    returns (result: Result<seq<string>, RunError>, warnings: seq<string>)
    ensures CleanTokens(idsText) == [] ==> result == Failure(NoCanIds) && warnings == []
    ensures CleanTokens(idsText) != [] ==> warnings == Dropped(CleanTokens(idsText))
    ensures CleanTokens(idsText) != [] && Validated(CleanTokens(idsText)) == [] ==> result == Failure(NoValidCanIds)
    ensures var tokens := Validated(CleanTokens(idsText));
            tokens != [] ==> result == Success(PreviewOf(lines, tokens, cfg))
  {
    var validated;
    validated, warnings := ValidateCanIds(idsText);
    if validated.None? {
      return Failure(NoCanIds), warnings;
    }
    var tokens := validated.value;
    if tokens == [] {
      return Failure(NoValidCanIds), warnings;
    }
    var shown, linesRead := PreviewLines(lines, tokens, cfg);
    PreviewIsPrefix(lines, tokens, cfg, shown, linesRead);
    result := Success(shown);
  }

  const ExampleLines: seq<string> := ["id 100 data", "id 200 data", "id 100 retry"]

  /** Token `100` occurs at position 3 of a lower-case line that has it there. */
  lemma ExampleHit(line: string)
    requires line == "id 100 data" || line == "id 100 retry"
    ensures MatchLine(line, ["100"], DefaultConfig)
  {
    if line == "id 100 data" {
      HitAtThree(line);
    } else {
      HitAtThree(line);
    }
  }

  lemma HitAtThree(line: string)
    requires |line| >= 6 && line[3..6] == "100"
    requires forall i :: 0 <= i < |line| ==> !('A' <= line[i] <= 'Z')
    ensures MatchLine(line, ["100"], DefaultConfig)
  {
    LowerOfLowercase(line);
    LowerOfLowercase("100");
    OccurrenceMatches(line, "100", 3, DefaultConfig);
  }

  /** Token `100` does not occur in the second example line. */
  lemma ExampleMiss(line: string)
    requires line == "id 200 data"
    ensures !MatchLine(line, ["100"], DefaultConfig)
  {
    MatchLineSpec(line, ["100"], DefaultConfig);
    LowerOfLowercase(line);
    LowerOfLowercase("100");
    forall i | OccursAt(line, "100", i)
      ensures false
    {
    }
  }

  /** Of three lines, the first and third selected and the second not, the selection keeps the first and third. */
  lemma SelectedOfThree(lines: seq<string>, tokens: seq<string>, cfg: MatchConfig)
    requires |lines| == 3
    requires IsSelected(lines[0], tokens, cfg) && !IsSelected(lines[1], tokens, cfg) && IsSelected(lines[2], tokens, cfg)
    ensures Selected(lines, tokens, cfg) == [lines[0], lines[2]]
  {
    FilterOfThree(lines, line => IsSelected(line, tokens, cfg));
  }

  /**
   * The worked example: with token `100` in substring mode, the first and third
   * of three lines are selected, and the reported percentage is 200/3 (66.67%).
   */
  lemma ExampleRun(lines: seq<string>)
    requires lines == ExampleLines
    ensures Selected(lines, ["100"], DefaultConfig) == [lines[0], lines[2]]
    ensures Percentage(2, |lines|) == 200.0 / 3.0
  {
    ExampleHit(lines[0]);
    ExampleMiss(lines[1]);
    ExampleHit(lines[2]);
    SelectedOfThree(lines, ["100"], DefaultConfig);
  }
}
