/** The narration filter of the summary formatter (`isNotNarration`):
    a line is kept only if it is non-empty and none of a fixed table of
    case-insensitive regular expressions matches it. */
module Narration {
  import opened JsString

  /** One element of a narration regular expression. */
  datatype Token =
    | Lit(alternatives: seq<string>) // literal text up to case; `(three|3)` and `words?` have two alternatives
    | Spaces                         // `\s+`
    | Digits                         // `\d+`

  /** A regular expression built from tokens; `anchored` is a leading `^`. */
  datatype Pattern = Pattern(anchored: bool, tokens: seq<Token>)

  /** The eleven patterns, in the order of the source table. An optional
      trailing `s` is written as the two alternatives with and without it. */
  const NarrationPatterns: seq<Pattern> := [
    Pattern(true,  [Lit(["here"]), Spaces, Lit(["is"])]),
    Pattern(true,  [Lit(["this"]), Spaces, Lit(["is"])]),
    Pattern(true,  [Lit(["the"]), Spaces, Lit(["following"])]),
    Pattern(false, [Lit(["summary"]), Spaces, Lit(["of"])]),
    Pattern(false, [Lit(["bullet"]), Spaces, Lit(["points", "point"])]),
    Pattern(false, [Lit(["three"]), Spaces, Lit(["bullet"])]),
    Pattern(false, [Lit(["each"]), Spaces, Lit(["under"])]),
    Pattern(true,  [Lit(["in"]), Spaces, Lit(["three", "3"])]),
    Pattern(true,  [Digits, Spaces, Lit(["words", "word"])]),
    Pattern(true,  [Digits, Spaces, Lit(["bullet"])]),
    Pattern(false, [Lit(["under"]), Spaces, Digits, Spaces, Lit(["words", "word"])])
  ]

  // ---------------------------------------------------------------------
  // Reference semantics: a backtracking regular-expression match.

  /** The tokens match some prefix of `s`; a `\s+` or `\d+` may take any
      non-empty run, as in a backtracking matcher. */
  ghost predicate MatchesPrefix(tokens: seq<Token>, s: string)
    decreases |tokens|
  {
    if tokens == [] then true
    else match tokens[0]
      case Lit(alts) =>
        exists a :: a in alts && StartsWithFold(s, a) && MatchesPrefix(tokens[1..], s[|a|..])
      case Spaces =>
        exists n :: 1 <= n <= |s| && AllSpace(s[..n]) && MatchesPrefix(tokens[1..], s[n..])
      case Digits =>
        exists n :: 1 <= n <= |s| && AllDigits(s[..n]) && MatchesPrefix(tokens[1..], s[n..])
  }

  /** `pattern.test(s)`: an anchored pattern matches at the start, an
      unanchored one at some position. */
  ghost predicate RegexTest(p: Pattern, s: string) {
    if p.anchored then MatchesPrefix(p.tokens, s)
    else exists i :: 0 <= i <= |s| && MatchesPrefix(p.tokens, s[i..])
  }

  // ---------------------------------------------------------------------
  // The matcher: runs of spaces and digits are taken greedily.

  /** Length of the run of digits at the start of `s`. */
  function DigitRun(s: string): (n: nat)
    ensures n <= |s|
    ensures AllDigits(s[..n])
    ensures n < |s| ==> !IsDigit(s[n])
  {
    if s == [] || !IsDigit(s[0]) then 0
    else
      var n := 1 + DigitRun(s[1..]);
      assert s[..n] == [s[0]] + s[1..][..n - 1];
      n
  }

  function MatchAt(tokens: seq<Token>, s: string): bool
    decreases |tokens|
  {
    if tokens == [] then true
    else match tokens[0]
      case Lit(alts) =>
        exists a | a in alts :: StartsWithFold(s, a) && MatchAt(tokens[1..], s[|a|..])
      case Spaces =>
        s != [] && IsSpace(s[0]) && MatchAt(tokens[1..], s[LeadingSpaces(s)..])
      case Digits =>
        s != [] && IsDigit(s[0]) && MatchAt(tokens[1..], s[DigitRun(s)..])
  }

  /** Try every start position, as an unanchored `test` does. */
  function Search(tokens: seq<Token>, s: string): bool {
    MatchAt(tokens, s) || (s != [] && Search(tokens, s[1..]))
  }

  function Test(p: Pattern, s: string): bool {
    if p.anchored then MatchAt(p.tokens, s) else Search(p.tokens, s)
  }

  /** `isNotNarration(line)`. */
  function IsNotNarration(line: string): bool {
    line != "" && !exists p | p in NarrationPatterns :: Test(p, line)
  }

  // ---------------------------------------------------------------------
  // The greedy matcher agrees with the backtracking semantics.

  predicate IsAsciiLetter(c: char) {
    'a' <= c <= 'z' || 'A' <= c <= 'Z'
  }

  /** A token that may follow `\s+`: `\d+` or a literal starting with a letter or digit. */
  predicate MayFollowSpaces(t: Token) {
    || t.Digits?
    || (t.Lit? && forall a :: a in t.alternatives ==> a != [] && (IsAsciiLetter(a[0]) || IsDigit(a[0])))
  }

  /** A token that may follow `\d+`: `\s+` or a literal starting with a letter. */
  predicate MayFollowDigits(t: Token) {
    || t.Spaces?
    || (t.Lit? && forall a :: a in t.alternatives ==> a != [] && IsAsciiLetter(a[0]))
  }

  /** Greedy runs are exact when no token can start inside the run of the
      token before it, and no literal is empty. */
  predicate WellFormed(tokens: seq<Token>) {
    && (forall k :: 0 <= k < |tokens| && tokens[k].Lit? ==>
          forall a :: a in tokens[k].alternatives ==> a != [])
    && (forall k :: 0 <= k < |tokens| - 1 && tokens[k].Spaces? ==> MayFollowSpaces(tokens[k + 1]))
    && (forall k :: 0 <= k < |tokens| - 1 && tokens[k].Digits? ==> MayFollowDigits(tokens[k + 1]))
  }

  lemma WellFormedTail(tokens: seq<Token>)
    requires tokens != [] && WellFormed(tokens)
    ensures WellFormed(tokens[1..])
  {
    var rest := tokens[1..];
    forall k | 0 <= k < |rest| ensures rest[k] == tokens[k + 1] { }
  }

  /** A match of a token list that may follow a run cannot start inside that run. */
  lemma {:induction false} FirstChar(tokens: seq<Token>, s: string)
    requires tokens != [] && WellFormed(tokens) && MatchesPrefix(tokens, s)
    ensures s != []
    ensures MayFollowSpaces(tokens[0]) ==> !IsSpace(s[0])
    ensures MayFollowDigits(tokens[0]) ==> !IsDigit(s[0])
  {
    match tokens[0]
    case Lit(alts) =>
      var a :| a in alts && StartsWithFold(s, a) && MatchesPrefix(tokens[1..], s[|a|..]);
      assert a != [] && Lower(s[0]) == Lower(a[0]);
    case Spaces =>
      var n :| 1 <= n <= |s| && AllSpace(s[..n]) && MatchesPrefix(tokens[1..], s[n..]);
      assert s[..n][0] == s[0];
    case Digits =>
      var n :| 1 <= n <= |s| && AllDigits(s[..n]) && MatchesPrefix(tokens[1..], s[n..]);
      assert s[..n][0] == s[0];
  }

  /** A run of spaces that the next part of a match does not continue is the greedy run. */
  lemma SpaceRunIsGreedy(s: string, n: nat)
    requires 1 <= n <= |s| && AllSpace(s[..n]) && (n < |s| ==> !IsSpace(s[n]))
    ensures n == LeadingSpaces(s)
  {
    var m := LeadingSpaces(s);
    assert forall j :: 0 <= j < n ==> IsSpace(s[j]) by {
      forall j | 0 <= j < n ensures IsSpace(s[j]) { assert s[..n][j] == s[j]; }
    }
    assert forall j :: 0 <= j < m ==> IsSpace(s[j]) by {
      forall j | 0 <= j < m ensures IsSpace(s[j]) { assert s[..m][j] == s[j]; }
    }
  }

  lemma DigitRunIsGreedy(s: string, n: nat)
    requires 1 <= n <= |s| && AllDigits(s[..n]) && (n < |s| ==> !IsDigit(s[n]))
    ensures n == DigitRun(s)
  {
    var m := DigitRun(s);
    assert forall j :: 0 <= j < n ==> IsDigit(s[j]) by {
      forall j | 0 <= j < n ensures IsDigit(s[j]) { assert s[..n][j] == s[j]; }
    }
    assert forall j :: 0 <= j < m ==> IsDigit(s[j]) by {
      forall j | 0 <= j < m ensures IsDigit(s[j]) { assert s[..m][j] == s[j]; }
    }
  }

  lemma {:induction false} MatchAtIsRegex(tokens: seq<Token>, s: string)
    requires WellFormed(tokens)
    ensures MatchAt(tokens, s) == MatchesPrefix(tokens, s)
    decreases |tokens|
  {
    if tokens != [] {
      var rest := tokens[1..];
      WellFormedTail(tokens);
      match tokens[0]
      case Lit(alts) =>
        forall a | a in alts && StartsWithFold(s, a)
          ensures MatchAt(rest, s[|a|..]) == MatchesPrefix(rest, s[|a|..])
        {
          MatchAtIsRegex(rest, s[|a|..]);
        }
      case Spaces =>
        var m := LeadingSpaces(s);
        MatchAtIsRegex(rest, s[m..]);
        if MatchesPrefix(tokens, s) {
          var n :| 1 <= n <= |s| && AllSpace(s[..n]) && MatchesPrefix(rest, s[n..]);
          assert s[..n][0] == s[0];
          if rest != [] {
            FirstChar(rest, s[n..]);
            if n < |s| { assert s[n..][0] == s[n]; }
            SpaceRunIsGreedy(s, n);
          }
        }
      case Digits =>
        var m := DigitRun(s);
        MatchAtIsRegex(rest, s[m..]);
        if MatchesPrefix(tokens, s) {
          var n :| 1 <= n <= |s| && AllDigits(s[..n]) && MatchesPrefix(rest, s[n..]);
          assert s[..n][0] == s[0];
          if rest != [] {
            FirstChar(rest, s[n..]);
            if n < |s| { assert s[n..][0] == s[n]; }
            DigitRunIsGreedy(s, n);
          }
        }
    }
  }

  lemma {:induction false} SearchIsRegex(tokens: seq<Token>, s: string)
    requires WellFormed(tokens)
    ensures Search(tokens, s) <==> exists i :: 0 <= i <= |s| && MatchesPrefix(tokens, s[i..])
  {
    MatchAtIsRegex(tokens, s);
    assert s[0..] == s;
    if s != [] {
      SearchIsRegex(tokens, s[1..]);
      if exists i :: 0 <= i <= |s| && MatchesPrefix(tokens, s[i..]) {
        var i :| 0 <= i <= |s| && MatchesPrefix(tokens, s[i..]);
        if i > 0 { assert s[1..][i - 1..] == s[i..]; }
      }
      if Search(tokens, s[1..]) {
        var i :| 0 <= i <= |s| - 1 && MatchesPrefix(tokens, s[1..][i..]);
        assert s[1..][i..] == s[i + 1..];
      }
    }
  }

  lemma TestIsRegex(p: Pattern, s: string)
    requires WellFormed(p.tokens)
    ensures Test(p, s) == RegexTest(p, s)
  {
    if p.anchored { MatchAtIsRegex(p.tokens, s); } else { SearchIsRegex(p.tokens, s); }
  }

  predicate StartsAlnum(alts: seq<string>) {
    forall a :: a in alts ==> a != [] && (IsAsciiLetter(a[0]) || IsDigit(a[0]))
  }

  predicate StartsLetter(alts: seq<string>) {
    forall a :: a in alts ==> a != [] && IsAsciiLetter(a[0])
  }

  lemma PhraseWellFormed(x: seq<string>, y: seq<string>)
    requires StartsAlnum(x) && StartsAlnum(y)
    ensures WellFormed([Lit(x), Spaces, Lit(y)])
  {
  }

  lemma CountPhraseWellFormed(y: seq<string>)
    requires StartsLetter(y)
    ensures WellFormed([Digits, Spaces, Lit(y)])
  {
  }

  lemma UnderCountWellFormed(x: seq<string>, y: seq<string>)
    requires StartsAlnum(x) && StartsLetter(y)
    ensures WellFormed([Lit(x), Spaces, Digits, Spaces, Lit(y)])
  {
    var t := [Lit(x), Spaces, Digits, Spaces, Lit(y)];
    assert forall k :: 0 <= k < |t| - 1 && t[k].Spaces? ==> k == 1 || k == 3;
  }

  lemma NarrationPatternsWellFormed()
    ensures forall p :: p in NarrationPatterns ==> WellFormed(p.tokens)
  {
    NarrationPatternsWellFormedAt();
  }

  lemma NarrationPatternsWellFormedAt()
    ensures forall i :: 0 <= i < |NarrationPatterns| ==> WellFormed(NarrationPatterns[i].tokens)
  {
    forall i | 0 <= i < |NarrationPatterns| ensures WellFormed(NarrationPatterns[i].tokens) {
      PatternWellFormed(i);
    }
  }

  lemma PatternWellFormed(i: nat)
    requires i < |NarrationPatterns|
    ensures WellFormed(NarrationPatterns[i].tokens)
  {
    var t := NarrationPatterns[i].tokens;
    if i <= 7 {
      var x, y := t[0].alternatives, t[2].alternatives;
      assert t == [Lit(x), Spaces, Lit(y)];
      PhraseWellFormed(x, y);
    } else if i <= 9 {
      var y := t[2].alternatives;
      assert t == [Digits, Spaces, Lit(y)];
      CountPhraseWellFormed(y);
    } else {
      var x, y := t[0].alternatives, t[4].alternatives;
      assert t == [Lit(x), Spaces, Digits, Spaces, Lit(y)];
      UnderCountWellFormed(x, y);
    }
  }

  /** `isNotNarration` keeps exactly the non-empty lines that no regular
      expression of the table matches. */
  lemma IsNotNarrationSpec(line: string)
    ensures IsNotNarration(line) <==> line != "" && forall p :: p in NarrationPatterns ==> !RegexTest(p, line)
  {
    NarrationPatternsWellFormed();
    forall p | p in NarrationPatterns ensures Test(p, line) == RegexTest(p, line) {
      TestIsRegex(p, line);
    }
  }

  predicate HasSpace(s: string) {
    exists i :: 0 <= i < |s| && IsSpace(s[i])
  }

  lemma {:induction false} MatchAtNeedsSpace(tokens: seq<Token>, s: string)
    requires Spaces in tokens && MatchAt(tokens, s)
    ensures HasSpace(s)
    decreases |tokens|
  {
    var rest := tokens[1..];
    if tokens[0] == Spaces {
      assert IsSpace(s[0]);
    } else {
      assert tokens == [tokens[0]] + rest;
      assert Spaces in rest;
      var skip: nat;
      if tokens[0].Lit? {
        var a :| a in tokens[0].alternatives && StartsWithFold(s, a) && MatchAt(rest, s[|a|..]);
        skip := |a|;
      } else {
        assert tokens[0].Digits?;
        skip := DigitRun(s);
        assert MatchAt(rest, s[skip..]);
      }
      MatchAtNeedsSpace(rest, s[skip..]);
      var i :| 0 <= i < |s[skip..]| && IsSpace(s[skip..][i]);
      assert s[skip + i] == s[skip..][i];
    }
  }

  lemma {:induction false} SearchNeedsSpace(tokens: seq<Token>, s: string)
    requires Spaces in tokens && Search(tokens, s)
    ensures HasSpace(s)
  {
    if MatchAt(tokens, s) {
      MatchAtNeedsSpace(tokens, s);
    } else {
      SearchNeedsSpace(tokens, s[1..]);
      var i :| 0 <= i < |s[1..]| && IsSpace(s[1..][i]);
      assert s[i + 1] == s[1..][i];
    }
  }

  /** Every pattern of the table needs a whitespace character, so a
      non-empty line without whitespace is always kept. */
  lemma WordIsNotNarration(line: string)
    requires !HasSpace(line)
    ensures IsNotNarration(line) <==> line != ""
  {
    forall p | p in NarrationPatterns ensures !Test(p, line) {
      assert Spaces in p.tokens;
      if Test(p, line) {
        if p.anchored { MatchAtNeedsSpace(p.tokens, line); } else { SearchNeedsSpace(p.tokens, line); }
      }
    }
  }
}
