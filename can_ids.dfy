/**
 * Parsing and validation of the comma-separated CAN identifier list
 * (`validate_can_ids`): split on commas, strip, drop empty pieces, then keep
 * every token except a `0x`/`0X` token that is not a hexadecimal literal.
 */
module CanIds {
  import opened Wrappers
  import opened Seqs
  import opened PyStr

  /** A token as parsing leaves it: non-empty, comma-free, without surrounding whitespace. */
  predicate IsToken(t: string) {
    t != [] && ',' !in t && !IsSpace(t[0]) && !IsSpace(t[|t| - 1])
  }

  /** `[p.strip() for p in pieces if p.strip()]` */
  function StrippedNonEmpty(pieces: seq<string>): (tokens: seq<string>)
    ensures |tokens| <= |pieces|
  {
    if pieces == [] then []
    else
      var t := Strip(pieces[0]);
      (if t != [] then [t] else []) + StrippedNonEmpty(pieces[1..])
  }

  /** The user's identifier text, split on commas, stripped, with empty pieces dropped. */
  function CleanTokens(text: string): seq<string> {
    StrippedNonEmpty(Split(text, ','))
  }

  /** Stripping comma-free pieces yields well-formed tokens. */
  lemma {:induction false} StrippedNonEmptyTokens(pieces: seq<string>)
    requires forall i :: 0 <= i < |pieces| ==> ',' !in pieces[i]
    ensures forall i :: 0 <= i < |StrippedNonEmpty(pieces)| ==> IsToken(StrippedNonEmpty(pieces)[i])
  {
    if pieces != [] {
      var rest := pieces[1..];
      StrippedNonEmptyTokens(rest);
      var t := Strip(pieces[0]);
      StrippedPieceToken(pieces[0]);
      TokensCons(t, StrippedNonEmpty(rest));
      assert StrippedNonEmpty(pieces) == (if t != [] then [t] else []) + StrippedNonEmpty(rest);
    }
  }

  lemma StrippedPieceToken(p: string)
    requires ',' !in p
    ensures Strip(p) != [] ==> IsToken(Strip(p))
  {
    StripChars(p, ',');
  }

  lemma TokensCons(t: string, tail: seq<string>)
    requires t != [] ==> IsToken(t)
    requires forall i :: 0 <= i < |tail| ==> IsToken(tail[i])
    ensures var r := (if t != [] then [t] else []) + tail; forall i :: 0 <= i < |r| ==> IsToken(r[i])
  {
  }

  /** Every token that parsing yields is non-empty, comma-free and stripped. */
  lemma CleanTokensWellFormed(text: string)
    ensures forall t :: t in CleanTokens(text) ==> IsToken(t)
  {
    StrippedNonEmptyTokens(Split(text, ','));
  }

  /** Pieces that are already tokens pass through stripping unchanged. */
  lemma {:induction false} StrippedNonEmptyOfTokens(tokens: seq<string>)
    requires forall i :: 0 <= i < |tokens| ==> IsToken(tokens[i])
    ensures StrippedNonEmpty(tokens) == tokens
  {
    if tokens != [] {
      var t, rest := tokens[0], tokens[1..];
      assert tokens == [t] + rest;
      assert forall i :: 0 <= i < |rest| ==> IsToken(rest[i]) by {
        forall i | 0 <= i < |rest| ensures IsToken(rest[i]) {
          assert rest[i] == tokens[i + 1];
        }
      }
      StrippedNonEmptyOfTokens(rest);
      TokenStripsToItself(t);
      assert StrippedNonEmpty(tokens) == [t] + StrippedNonEmpty(rest);
    }
  }

  lemma TokenStripsToItself(t: string)
    requires IsToken(t)
    ensures Strip(t) == t && Strip(t) != []
  {
    StripFixpoint(t);
  }

  /** Round trip: joining well-formed tokens with commas and parsing gives the tokens back. */
  lemma CleanTokensOfJoin(tokens: seq<string>)
    requires |tokens| >= 1
    requires forall t :: t in tokens ==> IsToken(t)
    ensures CleanTokens(Join(tokens, ',')) == tokens
  {
    SplitJoin(tokens, ',');
    StrippedNonEmptyOfTokens(tokens);
  }

  predicate IsHexDigit(c: char) {
    '0' <= c <= '9' || 'a' <= c <= 'f' || 'A' <= c <= 'F'
  }

  /** Python's digit part of a hexadecimal literal: hex digits, each optionally preceded by one `_`. */
  predicate HexDigitGroups(s: string)
    decreases |s|
  {
    s == []
    || (IsHexDigit(s[0]) && HexDigitGroups(s[1..]))
    || (|s| >= 2 && s[0] == '_' && IsHexDigit(s[1]) && HexDigitGroups(s[2..]))
  }

  /** `t.lower().startswith('0x')` */
  predicate HasHexPrefix(t: string) {
    |t| >= 2 && t[0] == '0' && LowerChar(t[1]) == 'x'
  }

  /** `int(t, 16)` succeeds on a stripped token that carries the `0x`/`0X` prefix. */
  predicate IsHexLiteral(t: string) {
    HasHexPrefix(t) && |t| > 2 && HexDigitGroups(t[2..])
  }

  /** Whether validation keeps a token: decimal and free-text tokens always, hex ones only when valid. */
  predicate KeepToken(t: string) {
    !HasHexPrefix(t) || IsHexLiteral(t)
  }

  /** Whether validation drops a token with a warning. */
  predicate DropToken(t: string) {
    !KeepToken(t)
  }

  /** The tokens validation keeps, in order. */
  function Validated(tokens: seq<string>): seq<string> {
    Filter(tokens, KeepToken)
  }

  /** The tokens validation warns about and drops, in order. */
  function Dropped(tokens: seq<string>): seq<string> {
    Filter(tokens, DropToken)
  }

  /**
   * `validate_can_ids`: `None` when the text holds no token at all (the error
   * dialog); otherwise the kept tokens, with the dropped ones reported as
   * warnings. The kept list may be empty when every token was invalid hex.
   */
  method ValidateCanIds(text: string) returns (validated: Option<seq<string>>, warnings: seq<string>)
    ensures validated.None? <==> CleanTokens(text) == []
    ensures validated.None? ==> warnings == []
    ensures validated.Some? ==> validated.value == Validated(CleanTokens(text))
    ensures validated.Some? ==> warnings == Dropped(CleanTokens(text))
  {
    var tokens := CleanTokens(text);
    if tokens == [] {
      return None, [];
    }
    var kept: seq<string> := [];
    warnings := [];
    var i := 0;
    while i < |tokens|
      invariant 0 <= i <= |tokens|
      invariant kept == Filter(tokens[..i], KeepToken)
      invariant warnings == Filter(tokens[..i], DropToken)
    {
      var t := tokens[i];
      assert tokens[..i + 1] == tokens[..i] + [t];
      FilterSnoc(tokens[..i], t, KeepToken);
      FilterSnoc(tokens[..i], t, DropToken);
      if HasHexPrefix(t) {
        if IsHexLiteral(t) {
          kept := kept + [t];
        } else {
          warnings := warnings + [t];
        }
      } else {
        // decimal or not a number: kept either way
        kept := kept + [t];
      }
      i := i + 1;
    }
    assert tokens[..|tokens|] == tokens;
    return Some(kept), warnings;
  }

  /** The kept tokens are an order-preserving subsequence of the parsed tokens. */
  lemma ValidatedIsSubsequence(tokens: seq<string>)
    ensures IsSubsequence(Validated(tokens), tokens)
  {
    FilterIsSubsequence(tokens, KeepToken);
  }

  /** A token is kept iff it was parsed and is either not `0x`-prefixed or a valid hex literal. */
  lemma ValidatedMembership(tokens: seq<string>, t: string)
    ensures t in Validated(tokens) <==> t in tokens && (!HasHexPrefix(t) || IsHexLiteral(t))
  {
    FilterMembership(tokens, KeepToken, t);
  }

  /** Every parsed token is either kept or warned about, never both. */
  lemma ValidatedDroppedPartition(tokens: seq<string>)
    ensures |Validated(tokens)| + |Dropped(tokens)| == |tokens|
    ensures forall t :: t in Dropped(tokens) ==> t !in Validated(tokens)
  {
    FilterPartition(tokens, KeepToken, DropToken);
    forall t | t in Dropped(tokens)
      ensures t !in Validated(tokens)
    {
      FilterMembership(tokens, DropToken, t);
      FilterMembership(tokens, KeepToken, t);
    }
  }

  /** Python accepts underscores between hex digits and after the prefix, but not a bare prefix or a trailing `_`. */
  lemma HexLiteralExamples()
    ensures IsHexLiteral("0x1F") && IsHexLiteral("0X7ff") && IsHexLiteral("0x_1")
    ensures !IsHexLiteral("0x") && !IsHexLiteral("0xZZ") && !IsHexLiteral("0x1_") && !IsHexLiteral("0x1__2")
    ensures !HasHexPrefix("100") && !HasHexPrefix("x10")
  {
    assert HexDigitGroups("1F"[1..]);
    assert HexDigitGroups("7ff"[1..]);
    assert !HexDigitGroups("1_"[1..]);
    assert !HexDigitGroups("1__2"[1..]);
  }
}
