# CAN ID filter and UDS seed-to-key: a Dafny model

This project models two pieces of an automotive diagnostics tool set.

**The CAN ID filter tool.** It reads a CAN bus log (for example a Vector
`.asc` trace) line by line. It keeps the lines that mention any identifier
from a comma-separated list, or with exclude mode on, the lines that mention
none of them. The model covers these parts:

- The parsing and validation of the identifier list, in modules `PyStr` and
  `CanIds`. This needs Python's `split`, `strip` and `lower`, written out in
  `PyStr`.
- The per-line matcher, in module `Matcher`. It does either substring search
  or whole-word search with regular-expression `\b` boundaries, and it is
  case-insensitive unless configured otherwise.
- The two line loops, in module `LineFilter`. The full run counts every line
  and writes out the selected ones. The preview stops after 250 selected
  lines.
- The preset store, in module `Presets`. It is a JSON map from preset name to
  identifier text, and the window's preset panel is a class whose fields the
  operations update.

**The Security Access (service 0x27 of ISO 14229-1, UDS) seed-to-key routine
of a diagnostic DLL.** It is modelled in module `SecurityAccess`.
`GenerateKeyEx` does four things:

- it checks its arguments;
- it picks a secret 128-bit key by security level (1 or 3);
- it computes AES-CMAC under that key over at most 16 seed bytes;
- it copies the 16-byte MAC into the caller's buffer.

AES-CMAC itself is a parameter `cmac` of the model. It is a function that
returns a 16-byte block, or `None` where the call reports failure.

Module `Seqs` holds the order-preserving `Filter` that both the validator and
the line loops are stated with, and the facts about it. Module `Wrappers`
holds `Option`, `Result` and `Outcome`.

Points where the code decides something a reader might expect otherwise:

- **Invalid hex tokens are dropped.** A `0x`/`0X` token that `int(t, 16)`
  rejects is reported with a warning and is not kept
  (CAN_ID_Filter_Tool.py:121-126). One might expect it to be kept as literal
  text, as non-numeric tokens without the prefix are (line 132); the code
  drops it, and so does the model.
- **Hex literals follow Python's rules, on ASCII.** "Parses as base 16"
  means Python's rule restricted to ASCII digits: hex digits, each optionally
  preceded by a single `_`, after the prefix. So `0x_1` is accepted, while
  `0x`, `0x1_` and `0x1__2` are not. Non-ASCII decimal digits, which Python
  also accepts, are left out (see below).
- **Non-numeric text is kept.** Every token without the prefix is kept,
  whether or not `int(t)` accepts it.
- **An all-invalid list aborts quietly.** When every token is invalid hex,
  validation returns an empty list and both runs stop without an error
  dialog, after the warnings. The model reports this as
  `RunError.NoValidCanIds`, separately from `NoCanIds` (nothing to parse at
  all, which shows an error dialog).
- **Exact mode uses real `\b` boundaries.** A boundary holds where exactly one
  side is a word character, so a token that starts or ends with punctuation
  needs a word character next to it. `(1)` is found in `x(1)y` but not in
  `x (1) y`.
- **The preset name is stripped on save but not on load.** Saving strips the
  name and the identifier text. Loading uses the drop-down's text as it
  stands.

## Model

Paths are relative to the repository root.

| member | source | states |
|---|---|---|
| PyStr.TrimStart | CAN_ID_Filter_Tool/CAN_ID_Filter_Tool.py:112 | the leading part of `strip()`: the result is a suffix of the input, everything removed is whitespace (Python's `isspace` set), and the result does not start with whitespace |
| PyStr.TrimEnd | CAN_ID_Filter_Tool/CAN_ID_Filter_Tool.py:112 | the trailing part of `strip()`: the result is a prefix of the input, everything removed is whitespace, and the result does not end with whitespace |
| PyStr.Strip | CAN_ID_Filter_Tool/CAN_ID_Filter_Tool.py:112 | `strip()` never lengthens a string, and a non-empty result neither starts nor ends with whitespace |
| PyStr.StripRemovesSpace | CAN_ID_Filter_Tool/CAN_ID_Filter_Tool.py:112 | `strip()` yields exactly the slice of the input that starts where the leading whitespace ends, with only whitespace before and after it |
| PyStr.StripEmpty | CAN_ID_Filter_Tool/CAN_ID_Filter_Tool.py:112 | `p.strip()` is empty (the piece is dropped) exactly when `p` is all whitespace |
| PyStr.StripFixpoint | CAN_ID_Filter_Tool/CAN_ID_Filter_Tool.py:112 | a string without surrounding whitespace is unchanged by `strip()` |
| PyStr.StripIdempotent | CAN_ID_Filter_Tool/CAN_ID_Filter_Tool.py:299-300 | stripping twice is stripping once |
| PyStr.StripChars | CAN_ID_Filter_Tool/CAN_ID_Filter_Tool.py:112 | `strip()` introduces no character, so a stripped piece of a comma split still has no comma |
| PyStr.Split | CAN_ID_Filter_Tool/CAN_ID_Filter_Tool.py:112 | `split(',')` yields at least one piece, no piece holds a comma, and joining the pieces with commas gives the input back |
| PyStr.SplitNoSeparator | CAN_ID_Filter_Tool/CAN_ID_Filter_Tool.py:112 | a comma-free string splits into itself alone |
| PyStr.SplitAtFirstSeparator | CAN_ID_Filter_Tool/CAN_ID_Filter_Tool.py:112 | splitting `a,b`, where `a` has no comma, yields `a` followed by the pieces of `b` |
| PyStr.SplitJoin | CAN_ID_Filter_Tool/CAN_ID_Filter_Tool.py:112 | join then split is the identity on comma-free pieces (the inverse of `Split`'s join property) |
| PyStr.Lower | CAN_ID_Filter_Tool/CAN_ID_Filter_Tool.py:139-142 | `lower()` keeps the length and maps each character by itself, ASCII capitals to small letters |
| PyStr.LowerOfLowercase | CAN_ID_Filter_Tool/CAN_ID_Filter_Tool.py:139-142 | a string without capitals is its own lower-case form |
| PyStr.LowerIdempotent | CAN_ID_Filter_Tool/CAN_ID_Filter_Tool.py:139-142 | lower-casing twice is lower-casing once |
| Seqs.Filter | CAN_ID_Filter_Tool/CAN_ID_Filter_Tool.py:118-135 | keeping the elements that pass a test never lengthens a sequence |
| Seqs.FilterIsSubsequence | CAN_ID_Filter_Tool/CAN_ID_Filter_Tool.py:118-135 | what is kept is an order-preserving subsequence |
| Seqs.FilterMembership | CAN_ID_Filter_Tool/CAN_ID_Filter_Tool.py:118-135 | an element is kept iff it is in the input and passes the test |
| Seqs.FilterPartition | CAN_ID_Filter_Tool/CAN_ID_Filter_Tool.py:118-135 | for complementary tests, the two filtered sequences together are as long as the input |
| Seqs.FilterPrefix | CAN_ID_Filter_Tool/CAN_ID_Filter_Tool.py:274-284 | filtering a prefix of the input gives a prefix of the filtered whole, which is what a loop that stops early collects |
| CanIds.StrippedNonEmpty | CAN_ID_Filter_Tool/CAN_ID_Filter_Tool.py:112 | the list comprehension keeps at most as many tokens as there were pieces |
| CanIds.CleanTokens | CAN_ID_Filter_Tool/CAN_ID_Filter_Tool.py:112 | the token list of the user's text, split on commas, stripped and without empty pieces; no ensures of its own: `CleanTokensWellFormed` and `CleanTokensOfJoin` state what it yields |
| CanIds.StrippedNonEmptyTokens | CAN_ID_Filter_Tool/CAN_ID_Filter_Tool.py:112 | stripping comma-free pieces and dropping empty ones yields only non-empty, comma-free, stripped tokens |
| CanIds.StrippedPieceToken | CAN_ID_Filter_Tool/CAN_ID_Filter_Tool.py:112 | a non-empty stripped piece of the comma split is a well-formed token |
| CanIds.CleanTokensWellFormed | CAN_ID_Filter_Tool/CAN_ID_Filter_Tool.py:112 | every token parsed from the user's text is non-empty, comma-free and stripped |
| CanIds.StrippedNonEmptyOfTokens | CAN_ID_Filter_Tool/CAN_ID_Filter_Tool.py:112 | well-formed tokens pass through the stripping comprehension unchanged |
| CanIds.CleanTokensOfJoin | CAN_ID_Filter_Tool/CAN_ID_Filter_Tool.py:112 | round trip: well-formed tokens joined with commas parse back to the same list, in order |
| CanIds.HasHexPrefix | CAN_ID_Filter_Tool/CAN_ID_Filter_Tool.py:121 | `t.lower().startswith('0x')`: the token is at least two characters long, starts with `0` and then `x` or `X`; no ensures of its own, used by `ValidatedMembership` |
| CanIds.IsHexLiteral | CAN_ID_Filter_Tool/CAN_ID_Filter_Tool.py:121-126 | when `int(t, 16)` succeeds on a prefixed token; no ensures of its own: `HexLiteralExamples` pins it down on accepted and rejected examples |
| CanIds.KeepToken | CAN_ID_Filter_Tool/CAN_ID_Filter_Tool.py:119-133 | which tokens validation keeps; no ensures of its own: `ValidatedMembership` and `ValidatedDroppedPartition` state its effect |
| CanIds.ValidateCanIds | CAN_ID_Filter_Tool/CAN_ID_Filter_Tool.py:110-135 | `None` exactly when no token remains after split, strip and dropping empties; otherwise the kept tokens are the parsed tokens that pass `KeepToken`, and the warnings are the ones that fail it, both in input order |
| CanIds.ValidatedIsSubsequence | CAN_ID_Filter_Tool/CAN_ID_Filter_Tool.py:118-133 | the validated list is an order-preserving subsequence of the parsed tokens |
| CanIds.ValidatedMembership | CAN_ID_Filter_Tool/CAN_ID_Filter_Tool.py:119-133 | a token is kept iff it was parsed and either lacks the `0x`/`0X` prefix or is a valid hex literal |
| CanIds.ValidatedDroppedPartition | CAN_ID_Filter_Tool/CAN_ID_Filter_Tool.py:119-133 | every parsed token is either kept or warned about, never both, and the two counts add up to the number of tokens |
| CanIds.HexLiteralExamples | CAN_ID_Filter_Tool/CAN_ID_Filter_Tool.py:121-126 | `0x1F`, `0X7ff`, `0x_1` are hex literals; `0x`, `0xZZ`, `0x1_`, `0x1__2` are not; `100` and `x10` have no hex prefix |
| Matcher.SearchFromSpec | CAN_ID_Filter_Tool/CAN_ID_Filter_Tool.py:144-152 | the left-to-right scan from position `i` succeeds iff an accepted occurrence starts at `i` or later |
| Matcher.Search | CAN_ID_Filter_Tool/CAN_ID_Filter_Tool.py:146-147 | the search that `re.search` (exact mode) or `in` (line 151) performs; no ensures of its own: `SearchSpec` states that it succeeds iff an accepted occurrence exists |
| Matcher.SearchSpec | CAN_ID_Filter_Tool/CAN_ID_Filter_Tool.py:144-152 | `tok in line` and `re.search(r'\b' + re.escape(tok) + r'\b', line)` succeed iff the token occurs somewhere, with `\b` on both ends in exact mode |
| Matcher.AnyTokenMatchesSpec | CAN_ID_Filter_Tool/CAN_ID_Filter_Tool.py:141-154 | the token loop with its early return succeeds iff the search succeeds for some token |
| Matcher.MatchLine | CAN_ID_Filter_Tool/CAN_ID_Filter_Tool.py:137-154 | `match_line`; no ensures of its own: `MatchLineSpec` states its meaning, and the other Matcher lemmas its properties |
| Matcher.MatchLineSpec | CAN_ID_Filter_Tool/CAN_ID_Filter_Tool.py:137-154 | a line matches iff some token, normalised like the line, occurs in the normalised line in the configured sense |
| Matcher.AnyTokenMatchesIgnoresExclude | CAN_ID_Filter_Tool/CAN_ID_Filter_Tool.py:141-154 | the token loop does not depend on the exclude flag |
| Matcher.MatchLineIgnoresExclude | CAN_ID_Filter_Tool/CAN_ID_Filter_Tool.py:137-154 | whether a line matches does not depend on exclude mode |
| Matcher.ExactImpliesSubstring | CAN_ID_Filter_Tool/CAN_ID_Filter_Tool.py:144-152 | a word-bounded occurrence is a substring occurrence |
| Matcher.MatchLineExactImpliesSubstring | CAN_ID_Filter_Tool/CAN_ID_Filter_Tool.py:144-152 | a line that matches in exact mode also matches in substring mode |
| Matcher.MatchMonotone | CAN_ID_Filter_Tool/CAN_ID_Filter_Tool.py:141-154 | a larger token list never turns a match into a non-match |
| Matcher.LowerLineInvariant | CAN_ID_Filter_Tool/CAN_ID_Filter_Tool.py:139 | case-insensitive matching gives the same answer on the lower-cased line |
| Matcher.LowerTokensInvariant | CAN_ID_Filter_Tool/CAN_ID_Filter_Tool.py:142 | case-insensitive matching gives the same answer on lower-cased tokens |
| Matcher.CaseSensitiveRaw | CAN_ID_Filter_Tool/CAN_ID_Filter_Tool.py:139-142 | case-sensitive matching compares the raw line against the raw tokens |
| Matcher.WholeWord | CAN_ID_Filter_Tool/CAN_ID_Filter_Tool.py:146-147 | for a token that starts and ends with a word character, exact mode finds it iff it occurs with no word character right before or after |
| Matcher.OccurrenceMatches | CAN_ID_Filter_Tool/CAN_ID_Filter_Tool.py:151 | in substring mode one occurrence of the normalised token in the normalised line makes the line match |
| Matcher.NoBoundaryBeforeNonWord | CAN_ID_Filter_Tool/CAN_ID_Filter_Tool.py:146-147 | a token starting with a non-word character has no `\b` in front of any occurrence that follows a non-word character |
| Matcher.ExactMatchExamples | CAN_ID_Filter_Tool/CAN_ID_Filter_Tool.py:144-148 | in exact mode `1` is not found in `100` but is found in `1`, `(1)` and `1,2` |
| Matcher.SubstringMatchExample | CAN_ID_Filter_Tool/CAN_ID_Filter_Tool.py:149-152 | in substring mode `1` is found in `100` |
| Matcher.CaseExamples | CAN_ID_Filter_Tool/CAN_ID_Filter_Tool.py:139-142 | `ABC` matches `abc123` by default but not case-sensitively |
| Matcher.PunctuationTokenExactHit | CAN_ID_Filter_Tool/CAN_ID_Filter_Tool.py:146-147 | in exact mode `(1)` is found in `x(1)y` |
| Matcher.PunctuationTokenExactMiss | CAN_ID_Filter_Tool/CAN_ID_Filter_Tool.py:146-147 | in exact mode `(1)` is not found in `x (1) y` |
| Matcher.PunctuationTokenSubstringHit | CAN_ID_Filter_Tool/CAN_ID_Filter_Tool.py:151 | in substring mode `(1)` is found in `x (1) y` |
| LineFilter.Percentage | CAN_ID_Filter_Tool/CAN_ID_Filter_Tool.py:211 | 0 for an empty input; otherwise percentage times total equals matched times 100; between 0 and 100 when matched is at most total |
| LineFilter.IsSelected | CAN_ID_Filter_Tool/CAN_ID_Filter_Tool.py:203-204 | match XOR exclude; no ensures of its own: `SelectedMembership` and `ExcludeComplement` state its effect |
| LineFilter.Selected | CAN_ID_Filter_Tool/CAN_ID_Filter_Tool.py:200-206 | the lines a full run writes; no ensures of its own: `FilterLines` is proved to compute it, and `SelectedIsSubsequence`, `SelectedMembership` and `SelectedUnselectedCount` state its properties |
| LineFilter.FilterLines | CAN_ID_Filter_Tool/CAN_ID_Filter_Tool.py:186-206 | the total line count is the number of input lines, the written lines are exactly the selected lines in order, and the matched count is their number |
| LineFilter.SelectedIsSubsequence | CAN_ID_Filter_Tool/CAN_ID_Filter_Tool.py:191-206 | the output is an order-preserving subsequence of the input, so matched lines never exceed total lines |
| LineFilter.SelectedMembership | CAN_ID_Filter_Tool/CAN_ID_Filter_Tool.py:200-206 | a line is written iff it is an input line for which match XOR exclude holds |
| LineFilter.SelectedUnselectedCount | CAN_ID_Filter_Tool/CAN_ID_Filter_Tool.py:191-206 | selected and unselected lines together account for every input line |
| LineFilter.ExcludeComplement | CAN_ID_Filter_Tool/CAN_ID_Filter_Tool.py:202-204 | flipping exclude mode selects exactly the lines the original run left out, in order |
| LineFilter.PreviewLines | CAN_ID_Filter_Tool/CAN_ID_Filter_Tool.py:274-284 | the shown lines are the selected lines of the consumed prefix, at most 250; reading stops before the end only once 250 are shown, and once 250 are shown the last line read is the one that reached 250 |
| LineFilter.PreviewIsPrefix | CAN_ID_Filter_Tool/CAN_ID_Filter_Tool.py:274-284 | what the preview loop guarantees implies that it shows the first `min(250, #selected)` selected lines |
| LineFilter.PreviewOf | CAN_ID_Filter_Tool/CAN_ID_Filter_Tool.py:226-227 | the preview holds at most 250 lines |
| LineFilter.FilterCanIds | CAN_ID_Filter_Tool/CAN_ID_Filter_Tool.py:156-211 | no token: error and nothing written; only invalid hex tokens: quiet abort and nothing written; otherwise the written lines are the selection under the validated tokens and the summary holds the input length, the output length and their percentage |
| LineFilter.PreviewResults | CAN_ID_Filter_Tool/CAN_ID_Filter_Tool.py:226-284 | the same two error cases; otherwise the result is the first `min(250, #selected)` selected lines |
| LineFilter.ExampleHit | CAN_ID_Filter_Tool/CAN_ID_Filter_Tool.py:200 | the lines `id 100 data` and `id 100 retry` match token `100` under the default settings |
| LineFilter.ExampleMiss | CAN_ID_Filter_Tool/CAN_ID_Filter_Tool.py:200 | the line `id 200 data` does not match token `100` |
| LineFilter.ExampleRun | CAN_ID_Filter_Tool/CAN_ID_Filter_Tool.py:191-211 | on those three lines the run selects the first and third and reports 200/3 percent |
| Presets.WithPreset | CAN_ID_Filter_Tool/CAN_ID_Filter_Tool.py:297-311 | empty stripped name: `EmptyPresetName`; otherwise empty stripped text: `EmptyCanIds`; success iff both are non-empty, and the new map's names are the old ones plus the stripped name |
| Presets.Lookup | CAN_ID_Filter_Tool/CAN_ID_Filter_Tool.py:324-339 | empty selection: `NoPresetSelected`; otherwise success iff the name is stored, with the stored text |
| Presets.LoadPresets | CAN_ID_Filter_Tool/CAN_ID_Filter_Tool.py:341-349 | `load_presets_from_file`: a missing or unreadable file reads as no presets; no ensures of its own: `SaveIntoMissingFile` and the contracts of `WithPreset` and `Lookup` state its effect |
| Presets.SaveThenLoad | CAN_ID_Filter_Tool/CAN_ID_Filter_Tool.py:310-311 | after a successful save, looking up the stripped name yields the stripped identifier text |
| Presets.SaveKeepsOthers | CAN_ID_Filter_Tool/CAN_ID_Filter_Tool.py:310-311 | a save leaves every other name's lookup as it was, whether present or absent |
| Presets.SaveIntoMissingFile | CAN_ID_Filter_Tool/CAN_ID_Filter_Tool.py:341-349 | saving into a missing or unreadable file yields a store holding only the new preset |
| Presets.SaveIdempotent | CAN_ID_Filter_Tool/CAN_ID_Filter_Tool.py:310-311 | saving the same entries a second time changes nothing further |
| Presets.SaveStripsEntries | CAN_ID_Filter_Tool/CAN_ID_Filter_Tool.py:299-300 | surrounding whitespace in the entries does not change what is saved or refused |
| Presets.PresetPanel.constructor | CAN_ID_Filter_Tool/CAN_ID_Filter_Tool.py:31-34 | the window starts with empty entries and the drop-down filled with the stored names |
| Presets.PresetPanel.LoadPresetList | CAN_ID_Filter_Tool/CAN_ID_Filter_Tool.py:351-354 | the drop-down offers exactly the names in the file; nothing else changes |
| Presets.PresetPanel.SavePreset | CAN_ID_Filter_Tool/CAN_ID_Filter_Tool.py:297-322 | invalid entries or a failing write: the error and no change; otherwise the file holds the updated map, the drop-down its names, and the name entry is cleared |
| Presets.PresetPanel.LoadPreset | CAN_ID_Filter_Tool/CAN_ID_Filter_Tool.py:324-339 | a failed lookup: the error and no change; otherwise the CAN-ID entry holds the preset's text and nothing else changes |
| SecurityAccess.SelectKey | how_to_build_DLL_for_UDS_0x27/securityDLL.cpp:72-79 | a key exists iff the level is 1 or 3: `KEY_LEVEL_1` for 1, `KEY_LEVEL_2` for 3 |
| SecurityAccess.SeedInput | how_to_build_DLL_for_UDS_0x27/securityDLL.cpp:85-86 | the CMAC input is the first `min(seedSize, 16)` seed bytes |
| SecurityAccess.ArgumentsValid | how_to_build_DLL_for_UDS_0x27/securityDLL.cpp:63-66 | the argument check; no ensures of its own: `GeneratedKeyCharacterization` spells it out inside its iff |
| SecurityAccess.GeneratedKey | how_to_build_DLL_for_UDS_0x27/securityDLL.cpp:63-96 | the key the routine hands back, or `None` for each error return; no ensures of its own: `GeneratedKeyCharacterization` states when it exists and what it is, and `GenerateKeyEx` is proved to produce it |
| SecurityAccess.GeneratedKeyCharacterization | how_to_build_DLL_for_UDS_0x27/securityDLL.cpp:63-96 | a key is produced iff both pointers are non-null, the seed size is non-zero, the buffer holds at least 16 bytes, the level is 1 or 3 and the CMAC succeeds; the key is then the CMAC of the level's secret over the truncated seed |
| SecurityAccess.UnsupportedLevelRefused | how_to_build_DLL_for_UDS_0x27/securityDLL.cpp:76-79 | any level other than 1 and 3 is refused whatever the other arguments |
| SecurityAccess.SeedTailIgnored | how_to_build_DLL_for_UDS_0x27/securityDLL.cpp:86-91 | seeds of 16 or more bytes that agree on their first 16 bytes give the same result |
| SecurityAccess.SeedBeyondSizeIgnored | how_to_build_DLL_for_UDS_0x27/securityDLL.cpp:86-91 | buffer bytes beyond the declared seed size do not affect the result |
| SecurityAccess.LevelKeysDiffer | how_to_build_DLL_for_UDS_0x27/securityDLL.cpp:34-42 | the two security levels use different secrets |
| SecurityAccess.GenerateKeyEx | how_to_build_DLL_for_UDS_0x27/securityDLL.cpp:51-107 | on any failure it returns 2 and leaves the buffer and the size as they were; on success it returns 0, sets the size to 16, writes the key to buffer bytes 0..15 and leaves the rest of the buffer unchanged; the variant string plays no part |

## Left out

- The Tk window: the dialogs, the status label, the progress bar and its
  byte counting, the window geometry, and the preview's text widget. These
  are user interface only; warnings and errors are returned as values instead.
- The Windows DPI-awareness call at start-up: a foreign call with no effect
  on the logic.
- The commented-out earlier copy of the tool class at the end of the file:
  it is not live code.
- File I/O. The log is given as a sequence of lines, and the output file as
  the sequence of lines written. The UTF-8 decoding with `errors='ignore'` is
  not modelled, so a line is whatever text the reader yields, newline
  included.
- The checks on input and output paths, which are file-system queries. The
  model covers the run in which they pass. The empty-path and missing-input
  checks come before validation, so the model starts after them. The
  output-directory check comes after validation (lines 169-177): when the
  directory is not writable the tool still shows the validation warnings or
  error and then stops without reading the log. That outcome is not modelled.
- I/O errors during a run, which the tool reports in a dialog: the model's
  runs always complete.
- JSON: the presets file is an `Option<PresetMap>`, with `None` for a file
  that is missing or does not parse. A file that parses to something other
  than an object is not modelled.
- Presets.PresetPanel.SavePreset: a failing write is the parameter
  `writeSucceeds`, and it is modelled as leaving the file unchanged; a write
  that fails half-way and truncates the file is not modelled.
- Presets.PresetPanel.LoadPreset: the status text "Loaded preset: …" is
  not modelled.
- Presets.PresetPanel.LoadPresetList: the drop-down's values are a set of
  names; the order of `list(presets.keys())` is not modelled.
- PyStr.Lower: only ASCII capitals are lowered, where Python lower-cases
  all of Unicode.
- CanIds.IsHexLiteral: only ASCII hex digits are accepted after the prefix.
  Python's `int(t, 16)` first maps Unicode decimal digits (such as U+0663 or
  U+FF13) to ASCII, so the tool keeps `0x٣` where the model drops it with a
  warning.
- Matcher.IsWordChar: `\w` is taken as ASCII letters, digits and `_`, where
  Python's `re` also counts other Unicode letters and digits.
- `re.escape` is not modelled as a transformation: the token is matched as
  literal text, which is what escaping achieves.
- LineFilter.Percentage: computed as an exact real; the floating-point
  division and the two-decimal formatting are not modelled.
- SecurityAccess.GenerateKeyEx: AES-CMAC (the file `aes_cmac.cpp` and
  OpenSSL) is the parameter `cmac`, and its algorithm is not modelled. The
  null pointers are `null` arrays. The seed buffer is assumed to hold the
  `seedSize` bytes it is said to hold, and the key buffer the
  `maxKeySize` bytes, since C gives no way to check either.
- The DLL export macros and calling conventions of the Windows build: not
  part of the logic.
