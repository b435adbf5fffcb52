// Worked inputs of the summary formatter: a list with a narration header,
// a list whose only content line is lost to the sentence fallback, a
// narration line carried into the output by that fallback, prose with a
// narration-led first sentence, and numbered items.
module SummaryExamples {
  import opened JsString
  import opened Narration
  import opened SummaryFormat

  // ---------------------------------------------------------------------
  // Deciding the narration filter on concrete lines.

  function Upper(c: char): char
    requires 'a' <= c <= 'z'
  {
    (c as int - 32) as char
  }

  /** The lower-case letter `c` occurs in `s` in either case. */
  predicate HasLetter(s: string, c: char)
    requires 'a' <= c <= 'z'
  {
    c in s || Upper(c) in s
  }

  /** Some letter of `w` is absent from `s` in both cases. */
  predicate LacksLetterOf(s: string, w: string) {
    exists j :: 0 <= j < |w| && 'a' <= w[j] <= 'z' && !HasLetter(s, w[j])
  }

  /** A pattern that starts with the literal `w` can only be found where all of `w`'s letters are. */
  lemma {:induction false} SearchNeedsLetter(tokens: seq<Token>, w: string, s: string, j: nat)
    requires tokens != [] && tokens[0] == Lit([w])
    requires j < |w| && 'a' <= w[j] <= 'z'
    requires Search(tokens, s)
    ensures HasLetter(s, w[j])
  {
    if MatchAt(tokens, s) {
      assert StartsWithFold(s, w);
      assert Lower(s[j]) == Lower(w[j]);
    } else {
      SearchNeedsLetter(tokens, w, s[1..], j);
      if w[j] in s[1..] {
        var i :| 0 <= i < |s[1..]| && s[1..][i] == w[j];
        assert s[i + 1] == w[j];
      } else {
        var i :| 0 <= i < |s[1..]| && s[1..][i] == Upper(w[j]);
        assert s[i + 1] == Upper(w[j]);
      }
    }
  }

  lemma UnanchoredMiss(p: Pattern, w: string, s: string)
    requires p.tokens != [] && p.tokens[0] == Lit([w])
    requires LacksLetterOf(s, w)
    ensures !Search(p.tokens, s)
  {
    var j :| 0 <= j < |w| && 'a' <= w[j] <= 'z' && !HasLetter(s, w[j]);
    if Search(p.tokens, s) {
      SearchNeedsLetter(p.tokens, w, s, j);
    }
  }

  /** An anchored literal whose first letter differs from the line's cannot match. */
  lemma HeadMiss(tokens: seq<Token>, w: string, s: string)
    requires tokens != [] && tokens[0] == Lit([w])
    requires s != [] && w != [] && Lower(s[0]) != Lower(w[0])
    ensures !MatchAt(tokens, s)
  {
  }

  /** `w\s+…` cannot match where `w` is not followed by whitespace. */
  lemma NoSpaceAfter(tokens: seq<Token>, w: string, s: string)
    requires |tokens| >= 2 && tokens[0] == Lit([w]) && tokens[1] == Spaces
    requires |w| < |s| && !IsSpace(s[|w|])
    ensures !MatchAt(tokens, s)
  {
    assert s[|w|..][0] == s[|w|];
  }

  /** The conditions of `KeptLine`. */
  predicate PlainLine(line: string) {
    && line != [] && !IsDigit(line[0])
    && Lower(line[0]) != 'h' && Lower(line[0]) != 't'
    && (Lower(line[0]) == 'i' ==> |line| > 2 && !IsSpace(line[2]))
    && LacksLetterOf(line, "summary") && LacksLetterOf(line, "bullet") && LacksLetterOf(line, "three")
    && LacksLetterOf(line, "each") && LacksLetterOf(line, "under")
  }

  /** Pattern `k` of the table fails on a plain line. */
  lemma MissesAt(line: string, k: nat)
    requires PlainLine(line) && k < |NarrationPatterns|
    ensures !Test(NarrationPatterns[k], line)
  {
    var p := NarrationPatterns[k];
    if k == 0 {
      HeadMiss(p.tokens, "here", line);
    } else if k == 1 {
      HeadMiss(p.tokens, "this", line);
    } else if k == 2 {
      HeadMiss(p.tokens, "the", line);
    } else if k == 3 {
      UnanchoredMiss(p, "summary", line);
    } else if k == 4 {
      UnanchoredMiss(p, "bullet", line);
    } else if k == 5 {
      UnanchoredMiss(p, "three", line);
    } else if k == 6 {
      UnanchoredMiss(p, "each", line);
    } else if k == 7 {
      if Lower(line[0]) == 'i' {
        NoSpaceAfter(p.tokens, "in", line);
      } else {
        HeadMiss(p.tokens, "in", line);
      }
    } else if k == 10 {
      UnanchoredMiss(p, "under", line);
    }
  }

  /**
   * A line is kept when it is non-empty, cannot start any of the anchored
   * patterns, and lacks a letter of each unanchored pattern's first word.
   */
  lemma KeptLine(line: string)
    requires PlainLine(line)
    ensures IsNotNarration(line)
  {
    forall k | 0 <= k < |NarrationPatterns| ensures !Test(NarrationPatterns[k], line) {
      MissesAt(line, k);
    }
  }

  /** `w\s+v` matches at the start of a line that begins with `w`, one whitespace character and `v`. */
  lemma PhraseMatches(w: string, v: string, s: string)
    requires |w| + 1 < |s| && StartsWithFold(s, w)
    requires IsSpace(s[|w|]) && !IsSpace(s[|w| + 1])
    requires StartsWithFold(s[|w| + 1..], v)
    ensures MatchAt([Lit([w]), Spaces, Lit([v])], s)
  {
    var t := s[|w|..];
    var n := LeadingSpaces(t);
    assert t[0] == s[|w|] && t[1] == s[|w| + 1];
    assert n == 1;
    assert t[1..] == s[|w| + 1..];
    var u := s[|w| + 1..];
    assert MatchAt([Lit([v])], u) by {
      assert v in [v] && StartsWithFold(u, v) && MatchAt([], u[|v|..]);
    }
    assert [Lit([w]), Spaces, Lit([v])][1..] == [Spaces, Lit([v])];
    assert [Spaces, Lit([v])][1..] == [Lit([v])];
    assert MatchAt([Spaces, Lit([v])], t);
    assert w in [w];
  }

  /** A line caught by one of the anchored two-word patterns is dropped. */
  lemma PhraseIsNarration(k: nat, w: string, v: string, line: string)
    requires k < |NarrationPatterns| && NarrationPatterns[k] == Pattern(true, [Lit([w]), Spaces, Lit([v])])
    requires |w| + 1 < |line| && StartsWithFold(line, w)
    requires IsSpace(line[|w|]) && !IsSpace(line[|w| + 1])
    requires StartsWithFold(line[|w| + 1..], v)
    ensures !IsNotNarration(line)
  {
    PhraseMatches(w, v, line);
    assert Test(NarrationPatterns[k], line);
  }

  // ---------------------------------------------------------------------
  // Small steps of the pipeline, stated over variables so that the worked
  // inputs below can be reasoned about one step at a time.

  lemma NormalizeClean(s: string)
    requires '\r' !in s
    requires s == [] || (!IsSpace(s[0]) && !IsSpace(s[|s| - 1]))
    ensures Normalize(s) == s
  {
    TrimOfTrimmed(s);
  }

  lemma SplitThree(a: string, b: string, c: string, sep: char)
    requires sep !in a && sep !in b && sep !in c
    ensures SplitOn(a + [sep] + b + [sep] + c, {sep}) == [a, b, c]
  {
    SplitOnNoSeparator(a, {sep});
    SplitOnNoSeparator(b, {sep});
    SplitOnNoSeparator(c, {sep});
    SplitOnConcat(b, sep, c, {sep});
    SplitOnConcat(a, sep, b + [sep] + c, {sep});
    assert a + [sep] + b + [sep] + c == a + [sep] + (b + [sep] + c);
  }

  /** A marker followed by exactly one space loses both. */
  lemma StripMarkerSpace(line: string)
    requires |line| >= 3 && IsMarker(line[0]) && IsSpace(line[1]) && !IsSpace(line[2])
    ensures StripMarker(line) == line[2..]
  {
  }

  lemma CleanItem(item: string, text: string)
    requires |item| >= 3 && IsMarker(item[0]) && IsSpace(item[1]) && text == item[2..]
    requires !IsSpace(text[0]) && !IsSpace(text[|text| - 1])
    ensures CleanLine(item) == text
  {
    StripMarkerSpace(item);
    TrimOfTrimmed(text);
  }

  lemma MapThree<A, B>(f: A -> B, x: A, y: A, z: A)
    ensures Map(f, [x, y, z]) == [f(x), f(y), f(z)]
  {
    assert [z][1..] == [];
    assert [y, z][1..] == [z];
    assert [x, y, z][1..] == [y, z];
  }

  lemma FilterThree<A>(p: A -> bool, x: A, y: A, z: A)
    ensures Filter(p, [x, y, z]) ==
      (if p(x) then [x] else []) + (if p(y) then [y] else []) + (if p(z) then [z] else [])
  {
    assert [z][1..] == [];
    assert Filter(p, [z]) == (if p(z) then [z] else []);
    assert [y, z][1..] == [z];
    assert Filter(p, [y, z]) == (if p(y) then [y] else []) + Filter(p, [z]);
    assert [x, y, z][1..] == [y, z];
    assert Filter(p, [x, y, z]) == (if p(x) then [x] else []) + Filter(p, [y, z]);
  }

  lemma ComposeTwo(a: string, b: string)
    ensures Compose([a, b]) == BulletPrefix + a + "\n" + BulletPrefix + b
  {
    var bullets := Bullets([a, b]);
    assert [a, b][..2] == [a, b];
    assert bullets == [BulletPrefix + a, BulletPrefix + b];
    assert bullets[1..] == [BulletPrefix + b];
  }

  // ---------------------------------------------------------------------
  // A list under a narration header.

  /** Any line that opens with "Here is" is caught by `^here\s+is`. */
  lemma HereIsNarration(h: string)
    requires |h| >= 7 && h[..7] == "Here is"
    ensures !IsNotNarration(h)
  {
    assert h[0] == 'H' && h[1] == 'e' && h[2] == 'r' && h[3] == 'e';
    assert h[4] == ' ' && h[5] == 'i' && h[6] == 's';
    PhraseIsNarration(0, "here", "is", h);
  }

  lemma BuyMilkKept(line: string)
    requires line == "Buy milk"
    ensures IsNotNarration(line)
  {
    assert !HasLetter(line, "summary"[0]) && !HasLetter(line, "bullet"[4]);
    assert !HasLetter(line, "three"[0]) && !HasLetter(line, "each"[0]);
    assert !HasLetter(line, "under"[1]);
    KeptLine(line);
  }

  lemma CallMomKept(line: string)
    requires line == "Call mom"
    ensures IsNotNarration(line)
  {
    assert !HasLetter(line, "summary"[0]) && !HasLetter(line, "bullet"[0]);
    assert !HasLetter(line, "three"[0]) && !HasLetter(line, "each"[0]);
    assert !HasLetter(line, "under"[0]);
    KeptLine(line);
  }

  lemma UnmarkedClean(line: string)
    requires line != [] && !IsMarker(line[0]) && !IsSpace(line[0]) && !IsSpace(line[|line| - 1])
    ensures CleanLine(line) == line
  {
    TrimOfTrimmed(line);
  }

  /** A line with no surrounding blanks and no line break or carriage return. */
  predicate Tidy(t: string) {
    t != [] && !IsSpace(t[0]) && !IsSpace(t[|t| - 1]) && '\n' !in t && '\r' !in t
  }

  /** The input is already normalised. */
  lemma HeaderedInput(h: string, x: string, y: string)
    requires Tidy(h) && Tidy(x) && Tidy(y)
    ensures var s := h + "\n- " + x + "\n- " + y; Normalize(s) == s
  {
    var s := h + "\n- " + x + "\n- " + y;
    assert s[0] == h[0] && s[|s| - 1] == y[|y| - 1];
    forall i | 0 <= i < |s| ensures s[i] != '\r' {
      if i < |h| { assert s[i] == h[i]; }
      else if |h| + 3 <= i < |h| + 3 + |x| { assert s[i] == x[i - |h| - 3]; }
      else if |h| + |x| + 6 <= i { assert s[i] == y[i - |h| - |x| - 6]; }
    }
    NormalizeClean(s);
  }

  /** A dash item is one line and cleans to its text. */
  lemma DashItem(x: string)
    requires Tidy(x)
    ensures '\n' !in "- " + x && CleanLine("- " + x) == x
  {
    var dx := "- " + x;
    assert forall i :: 2 <= i < |dx| ==> dx[i] == x[i - 2];
    CleanItem(dx, x);
  }

  lemma CleanThreeLines(h: string, dx: string, dy: string, a: string, b: string, c: string)
    requires '\n' !in h && '\n' !in dx && '\n' !in dy
    requires CleanLine(h) == a && CleanLine(dx) == b && CleanLine(dy) == c
    ensures Map(CleanLine, SplitOn(h + ['\n'] + dx + ['\n'] + dy, LineSeparators)) == [a, b, c]
  {
    SplitThree(h, dx, dy, '\n');
    assert LineSeparators == {'\n'};
    MapThree(CleanLine, h, dx, dy);
  }

  lemma DropFirstOfThree(s: string, h: string, x: string, y: string)
    requires Map(CleanLine, SplitOn(s, LineSeparators)) == [h, x, y]
    requires !IsNotNarration(h) && IsNotNarration(x) && IsNotNarration(y)
    ensures LineCandidates(s) == [x, y]
  {
    FilterThree(IsNotNarration, h, x, y);
  }

  lemma DashLayout(h: string, x: string, y: string)
    ensures h + "\n- " + x + "\n- " + y == h + ['\n'] + ("- " + x) + ['\n'] + ("- " + y)
  {
    assert "\n- " == ['\n'] + "- ";
  }

  lemma HeaderedLines(h: string, x: string, y: string)
    requires Tidy(h) && !IsMarker(h[0]) && !IsNotNarration(h)
    requires Tidy(x) && IsNotNarration(x) && Tidy(y) && IsNotNarration(y)
    ensures LineCandidates(h + "\n- " + x + "\n- " + y) == [x, y]
  {
    var dx, dy := "- " + x, "- " + y;
    DashLayout(h, x, y);
    DashItem(x);
    DashItem(y);
    UnmarkedClean(h);
    CleanThreeLines(h, dx, dy, h, x, y);
    DropFirstOfThree(h + "\n- " + x + "\n- " + y, h, x, y);
  }

  /**
   * A narration header over two dash items: the header is dropped and the
   * items become two bullet lines, when they fit.
   */
  lemma HeaderedList(h: string, x: string, y: string, maxChars: nat)
    requires Tidy(h) && !IsMarker(h[0]) && !IsNotNarration(h)
    requires Tidy(x) && IsNotNarration(x) && Tidy(y) && IsNotNarration(y)
    requires |x| + |y| + 2 * |BulletPrefix| + 1 <= maxChars
    ensures FormatSummary(h + "\n- " + x + "\n- " + y, maxChars) == BulletPrefix + x + "\n" + BulletPrefix + y
  {
    HeaderedInput(h, x, y);
    HeaderedLines(h, x, y);
    FormatTwo(h + "\n- " + x + "\n- " + y, x, y, maxChars);
  }

  /** Two candidates that fit are joined as two bullet lines. */
  lemma FormatTwo(s: string, x: string, y: string, maxChars: nat)
    requires Candidates(Normalize(s)) == [x, y]
    requires |x| + |y| + 2 * |BulletPrefix| + 1 <= maxChars
    ensures FormatSummary(s, maxChars) == BulletPrefix + x + "\n" + BulletPrefix + y
  {
    ComposeTwo(x, y);
  }

  lemma HeaderTidy(h: string)
    requires h == "Here is a summary:"
    ensures Tidy(h) && !IsMarker(h[0])
  {
  }

  lemma ItemsTidy(x: string, y: string)
    requires x == "Buy milk" && y == "Call mom"
    ensures Tidy(x) && Tidy(y) && |x| + |y| + 2 * |BulletPrefix| + 1 <= 150
  {
  }

  /** "Here is a summary:" over "- Buy milk" and "- Call mom" gives the two bullets alone. */
  lemma ListWithNarrationHeader(h: string, x: string, y: string)
    requires h == "Here is a summary:" && x == "Buy milk" && y == "Call mom"
    ensures FormatSummary(h + "\n- " + x + "\n- " + y, 150) == BulletPrefix + x + "\n" + BulletPrefix + y
  {
    HeaderTidy(h);
    ItemsTidy(x, y);
    HereIsNarration(h);
    BuyMilkKept(x);
    CallMomKept(y);
    HeaderedList(h, x, y, 150);
  }

  // ---------------------------------------------------------------------
  // A content line lost to the sentence fallback.

  lemma MapTwo<A, B>(f: A -> B, x: A, y: A)
    ensures Map(f, [x, y]) == [f(x), f(y)]
  {
    assert [y][1..] == [];
    assert [x, y][1..] == [y];
  }

  lemma FilterTwo<A>(p: A -> bool, x: A, y: A)
    ensures Filter(p, [x, y]) == (if p(x) then [x] else []) + (if p(y) then [y] else [])
  {
    assert [y][1..] == [];
    assert Filter(p, [y]) == (if p(y) then [y] else []);
    assert [x, y][1..] == [y];
  }

  predicate NoTerminator(t: string) {
    '.' !in t && '!' !in t && '?' !in t
  }

  lemma NoTerminatorAcross(h: string, x: string)
    requires NoTerminator(h) && NoTerminator(x)
    ensures NoTerminator(h + "\n" + x)
  {
    var s := h + "\n" + x;
    forall i | 0 <= i < |s| ensures s[i] != '.' && s[i] != '!' && s[i] != '?' {
      if i < |h| { assert s[i] == h[i]; }
      else if |h| < i { assert s[i] == x[i - |h| - 1]; }
    }
  }

  /** An anchored two-word pattern that catches a line catches it with anything appended. */
  lemma PhraseLeads(k: nat, w: string, v: string, h: string, rest: string)
    requires k < |NarrationPatterns| && NarrationPatterns[k] == Pattern(true, [Lit([w]), Spaces, Lit([v])])
    requires |w| + 1 < |h| && StartsWithFold(h, w)
    requires IsSpace(h[|w|]) && !IsSpace(h[|w| + 1])
    requires StartsWithFold(h[|w| + 1..], v)
    ensures !IsNotNarration(h + rest)
  {
    var s := h + rest;
    assert forall i :: 0 <= i < |h| ==> s[i] == h[i];
    var t, u := s[|w| + 1..], h[|w| + 1..];
    assert forall i :: 0 <= i < |v| ==> t[i] == u[i];
    PhraseIsNarration(k, w, v, s);
  }

  lemma TwoLinesInput(h: string, x: string)
    requires Tidy(h) && Tidy(x)
    ensures var s := h + "\n" + x; Normalize(s) == s && Tidy(h + x) && s[0] == h[0]
  {
    var s := h + "\n" + x;
    assert s[0] == h[0] && s[|s| - 1] == x[|x| - 1];
    forall i | 0 <= i < |s| ensures s[i] != '\r' {
      if i < |h| { assert s[i] == h[i]; }
      else if |h| < i { assert s[i] == x[i - |h| - 1]; }
    }
    NormalizeClean(s);
    var t := h + x;
    assert t[0] == h[0] && t[|t| - 1] == x[|x| - 1];
    forall i | 0 <= i < |t| ensures t[i] != '\r' && t[i] != '\n' {
      if i < |h| { assert t[i] == h[i]; } else { assert t[i] == x[i - |h|]; }
    }
  }

  /** The newline path finds exactly the second line. */
  lemma SecondLineOnly(h: string, x: string)
    requires Tidy(h) && !IsMarker(h[0]) && !IsNotNarration(h)
    requires Tidy(x) && !IsMarker(x[0]) && IsNotNarration(x)
    ensures LineCandidates(h + "\n" + x) == [x]
  {
    SplitOnConcat(h, '\n', x, LineSeparators);
    SplitOnNoSeparator(h, LineSeparators);
    SplitOnNoSeparator(x, LineSeparators);
    assert h + ['\n'] + x == h + "\n" + x;
    MapTwo(CleanLine, h, x);
    UnmarkedClean(h);
    UnmarkedClean(x);
    FilterTwo(IsNotNarration, h, x);
  }

  /** Text without `.`, `!` or `?` is one sentence, dropped when it reads as narration. */
  lemma NarratedSentence(s: string)
    requires NoTerminator(s) && !IsNotNarration(s)
    requires s != [] && !IsSpace(s[0]) && !IsSpace(s[|s| - 1])
    ensures SentenceCandidates(s) == []
  {
    SplitOnNoSeparator(s, SentenceTerminators);
    TrimOfTrimmed(s);
    assert Map(Trim, [s]) == [s];
  }

  /**
   * A narration header over one content line: the newline path keeps only
   * that line, so the sentence path takes over and drops the whole text,
   * content and all.
   */
  lemma FallbackDropsContent(h: string, x: string, maxChars: nat)
    requires Tidy(h) && !IsMarker(h[0]) && !IsNotNarration(h)
    requires Tidy(x) && !IsMarker(x[0]) && IsNotNarration(x)
    requires NoTerminator(h + "\n" + x) && !IsNotNarration(h + "\n" + x)
    ensures LineCandidates(h + "\n" + x) == [x]
    ensures FormatSummary(h + "\n" + x, maxChars) == Unavailable
  {
    var s := h + "\n" + x;
    TwoLinesInput(h, x);
    SecondLineOnly(h, x);
    NarratedSentence(s);
  }

  lemma HereIsTidy(h: string)
    requires h == "Here is:"
    ensures Tidy(h) && !IsMarker(h[0]) && NoTerminator(h)
  {
  }

  lemma HereIsLeads(h: string)
    requires h == "Here is:"
    ensures forall x :: !IsNotNarration(h + "\n" + x)
  {
    forall x ensures !IsNotNarration(h + "\n" + x) {
      PhraseLeads(0, "here", "is", h, "\n" + x);
      assert h + "\n" + x == h + ("\n" + x);
    }
  }

  lemma MilkTidy(x: string)
    requires x == "milk"
    ensures Tidy(x) && !IsMarker(x[0]) && NoTerminator(x)
  {
  }

  lemma MilkKept(x: string)
    requires x == "milk"
    ensures IsNotNarration(x)
  {
    assert !HasLetter(x, "summary"[0]) && !HasLetter(x, "bullet"[0]);
    assert !HasLetter(x, "three"[0]) && !HasLetter(x, "each"[0]);
    assert !HasLetter(x, "under"[0]);
    KeptLine(x);
  }

  /** "Here is:" over "milk": the newline path finds "milk", yet the summary is the placeholder. */
  lemma FallbackLosesContent(h: string, x: string)
    requires h == "Here is:" && x == "milk"
    ensures LineCandidates(h + "\n" + x) == [x]
    ensures FormatSummary(h + "\n" + x, 150) == Unavailable
  {
    HereIsTidy(h);
    HereIsNarration(h);
    HereIsLeads(h);
    MilkTidy(x);
    MilkKept(x);
    NoTerminatorAcross(h, x);
    FallbackDropsContent(h, x, 150);
  }

  // ---------------------------------------------------------------------
  // Narration carried into the output by the sentence fallback. Without
  // the `m` flag `^` anchors at the start of the candidate only, and the
  // sentence path splits on `.`, `!` and `?` alone, so a narration line
  // after a content line rides along inside one multi-line candidate.

  /** The newline path finds exactly the first line. */
  lemma FirstLineOnly(x: string, n: string)
    requires Tidy(x) && !IsMarker(x[0]) && IsNotNarration(x)
    requires Tidy(n) && !IsMarker(n[0]) && !IsNotNarration(n)
    ensures LineCandidates(x + "\n" + n) == [x]
  {
    SplitOnConcat(x, '\n', n, LineSeparators);
    SplitOnNoSeparator(x, LineSeparators);
    SplitOnNoSeparator(n, LineSeparators);
    assert x + ['\n'] + n == x + "\n" + n;
    MapTwo(CleanLine, x, n);
    UnmarkedClean(x);
    UnmarkedClean(n);
    FilterTwo(IsNotNarration, x, n);
  }

  /** Text without `.`, `!` or `?` that the filter keeps is one sentence candidate. */
  lemma KeptSentence(s: string)
    requires NoTerminator(s) && IsNotNarration(s)
    requires !IsSpace(s[0]) && !IsSpace(s[|s| - 1])
    ensures SentenceCandidates(s) == [s]
  {
    SplitOnNoSeparator(s, SentenceTerminators);
    TrimOfTrimmed(s);
    assert Map(Trim, [s]) == [s];
  }

  lemma ComposeOne(s: string)
    ensures Compose([s]) == BulletPrefix + s
  {
    assert [s][..1] == [s];
    assert Bullets([s]) == [BulletPrefix + s];
  }

  /**
   * A content line followed by a narration line: the newline path keeps
   * one line, so the sentence path runs, and the whole two-line text is
   * its one candidate. The narration line reaches the output, unbulleted.
   */
  lemma NarrationAfterContent(x: string, n: string, maxChars: nat)
    requires Tidy(x) && !IsMarker(x[0]) && NoTerminator(x) && IsNotNarration(x)
    requires Tidy(n) && !IsMarker(n[0]) && NoTerminator(n) && !IsNotNarration(n)
    requires IsNotNarration(x + "\n" + n)
    ensures LineCandidates(x + "\n" + n) == [x]
    ensures FormatSummary(x + "\n" + n, maxChars) == Truncate(BulletPrefix + (x + "\n" + n), maxChars)
  {
    var s := x + "\n" + n;
    TwoLinesInput(x, n);
    FirstLineOnly(x, n);
    NoTerminatorAcross(x, n);
    KeptSentence(s);
    ComposeOne(s);
  }

  lemma BulletLayout(x: string, n: string)
    ensures BulletPrefix + (x + "\n" + n) == BulletPrefix + x + "\n" + n
  {
  }

  /** When the two lines fit the limit, they are printed as they are under a single bullet. */
  lemma NarrationAfterContentFits(x: string, n: string, maxChars: nat)
    requires Tidy(x) && !IsMarker(x[0]) && NoTerminator(x) && IsNotNarration(x)
    requires Tidy(n) && !IsMarker(n[0]) && NoTerminator(n) && !IsNotNarration(n)
    requires IsNotNarration(x + "\n" + n)
    requires |BulletPrefix| + |x| + 1 + |n| <= maxChars
    ensures FormatSummary(x + "\n" + n, maxChars) == BulletPrefix + x + "\n" + n
  {
    var t := BulletPrefix + (x + "\n" + n);
    assert |t| <= maxChars;
    assert Truncate(t, maxChars) == t;
    NarrationAfterContent(x, n, maxChars);
    BulletLayout(x, n);
  }

  lemma ThisIsItTidy(n: string)
    requires n == "This is it"
    ensures Tidy(n) && !IsMarker(n[0]) && NoTerminator(n)
  {
  }

  /** Two lines that lack `u`, `b`, `r` and `e` and whose first letter starts no anchored pattern are kept as one. */
  lemma JoinedKept(x: string, n: string)
    requires x != [] && !IsDigit(x[0]) && Lower(x[0]) != 'h' && Lower(x[0]) != 't' && Lower(x[0]) != 'i'
    requires !HasLetter(x, 'u') && !HasLetter(x, 'b') && !HasLetter(x, 'r') && !HasLetter(x, 'e')
    requires !HasLetter(n, 'u') && !HasLetter(n, 'b') && !HasLetter(n, 'r') && !HasLetter(n, 'e')
    ensures IsNotNarration(x + "\n" + n)
  {
    var s := x + "\n" + n;
    assert s[0] == x[0];
    assert !HasLetter(s, 'u') && !HasLetter(s, 'b') && !HasLetter(s, 'r') && !HasLetter(s, 'e');
    assert "summary"[1] == 'u' && "bullet"[0] == 'b' && "three"[2] == 'r';
    assert "each"[0] == 'e' && "under"[0] == 'u';
    KeptLine(s);
  }

  lemma MilkLetters(x: string)
    requires x == "milk"
    ensures !IsDigit(x[0]) && Lower(x[0]) != 'h' && Lower(x[0]) != 't' && Lower(x[0]) != 'i'
    ensures !HasLetter(x, 'u') && !HasLetter(x, 'b') && !HasLetter(x, 'r') && !HasLetter(x, 'e')
  {
  }

  lemma ThisIsItLetters(n: string)
    requires n == "This is it"
    ensures !HasLetter(n, 'u') && !HasLetter(n, 'b') && !HasLetter(n, 'r') && !HasLetter(n, 'e')
  {
  }

  /** "milk\nThis is it" formats to "• milk\nThis is it": "This is it" is narration on its own, yet it is printed. */
  lemma NarrationLineSurvives(x: string, n: string)
    requires x == "milk" && n == "This is it"
    ensures FormatSummary(x + "\n" + n, 150) == BulletPrefix + x + "\n" + n
  {
    MilkTidy(x);
    MilkKept(x);
    ThisIsItTidy(n);
    ThisIsIt(n);
    MilkLetters(x);
    ThisIsItLetters(n);
    JoinedKept(x, n);
    NarrationAfterContentFits(x, n, 150);
  }

  // ---------------------------------------------------------------------
  // Prose whose first sentence is narration.

  lemma ProseLayout(a: string, x: string, y: string)
    ensures a + ". " + x + ". " + y == a + ['.'] + (" " + x + ['.'] + (" " + y))
  {
  }

  lemma ProseInput(a: string, x: string, y: string)
    requires Tidy(a) && Tidy(x) && Tidy(y)
    ensures var s := a + ". " + x + ". " + y; Normalize(s) == s && '\n' !in s
  {
    var s := a + ". " + x + ". " + y;
    assert s[0] == a[0] && s[|s| - 1] == y[|y| - 1];
    forall i | 0 <= i < |s| ensures s[i] != '\r' && s[i] != '\n' {
      if i < |a| { assert s[i] == a[i]; }
      else if |a| + 2 <= i < |a| + 2 + |x| { assert s[i] == x[i - |a| - 2]; }
      else if |a| + |x| + 4 <= i { assert s[i] == y[i - |a| - |x| - 4]; }
    }
    NormalizeClean(s);
  }

  /** A sentence after `. ` trims back to itself. */
  lemma SpacedSentence(x: string)
    requires Tidy(x) && NoTerminator(x)
    ensures NoTerminator(" " + x) && Trim(" " + x) == x
  {
    var t := " " + x;
    assert forall i :: 1 <= i < |t| ==> t[i] == x[i - 1];
    assert LeadingSpaces(t) == 1 by {
      assert t[1..] == x;
    }
    TrimOfTrimmed(x);
    assert TrimStart(t) == x;
  }

  lemma SplitSentence(a: string, rest: string)
    requires NoTerminator(a)
    ensures SplitOn(a + ['.'] + rest, SentenceTerminators) == [a] + SplitOn(rest, SentenceTerminators)
  {
    SplitOnConcat(a, '.', rest, SentenceTerminators);
    SplitOnNoSeparator(a, SentenceTerminators);
  }

  lemma ProseSplit(a: string, x: string, y: string)
    requires NoTerminator(a) && NoTerminator(" " + x) && NoTerminator(" " + y)
    ensures SplitOn(a + ". " + x + ". " + y, SentenceTerminators) == [a, " " + x, " " + y]
  {
    var sx, sy := " " + x, " " + y;
    ProseLayout(a, x, y);
    SplitOnNoSeparator(sy, SentenceTerminators);
    SplitSentence(sx, sy);
    SplitSentence(a, sx + ['.'] + sy);
  }

  lemma ProseSentences(a: string, x: string, y: string)
    requires Tidy(a) && Tidy(x) && Tidy(y)
    requires NoTerminator(a) && NoTerminator(x) && NoTerminator(y)
    requires !IsNotNarration(a) && IsNotNarration(x) && IsNotNarration(y)
    ensures SentenceCandidates(a + ". " + x + ". " + y) == [x, y]
  {
    SpacedSentence(x);
    SpacedSentence(y);
    TrimOfTrimmed(a);
    ProseSplit(a, x, y);
    MapThree(Trim, a, " " + x, " " + y);
    FilterThree(IsNotNarration, a, x, y);
  }

  /** Prose is split into sentences, a narration sentence is dropped and the rest become bullets. */
  lemma NarratedProse(a: string, x: string, y: string, maxChars: nat)
    requires Tidy(a) && Tidy(x) && Tidy(y)
    requires NoTerminator(a) && NoTerminator(x) && NoTerminator(y)
    requires !IsNotNarration(a) && IsNotNarration(x) && IsNotNarration(y)
    requires |x| + |y| + 2 * |BulletPrefix| + 1 <= maxChars
    ensures FormatSummary(a + ". " + x + ". " + y, maxChars) == BulletPrefix + x + "\n" + BulletPrefix + y
  {
    var s := a + ". " + x + ". " + y;
    ProseInput(a, x, y);
    NoNewlineUsesSentences(s);
    ProseSentences(a, x, y);
    FormatTwo(s, x, y, maxChars);
  }

  /** The same prose with a final full stop: the empty last piece is dropped. */
  lemma FinalStopInput(a: string, x: string, y: string)
    requires Tidy(a) && Tidy(x) && Tidy(y)
    ensures var t := a + ". " + x + ". " + y + "."; Normalize(t) == t && '\n' !in t
  {
    var s := a + ". " + x + ". " + y;
    ProseInput(a, x, y);
    var t := s + ".";
    assert t[0] == a[0] && t[|t| - 1] == '.';
    assert '\r' !in t by {
      assert '\r' !in s;
      forall i | 0 <= i < |t| ensures t[i] != '\r' {
        if i < |s| { assert t[i] == s[i]; }
      }
    }
    assert '\n' !in t by {
      forall i | 0 <= i < |t| ensures t[i] != '\n' {
        if i < |s| { assert t[i] == s[i]; }
      }
    }
    NormalizeClean(t);
  }

  /** A final terminator adds one empty piece to the split. */
  lemma SplitFinalStop(s: string)
    ensures SplitOn(s + ".", SentenceTerminators) == SplitOn(s, SentenceTerminators) + [""]
  {
    SplitOnConcat(s, '.', "", SentenceTerminators);
    assert s + "." == s + ['.'] + "";
  }

  lemma {:induction false} MapConcat<A, B>(f: A -> B, xs: seq<A>, ys: seq<A>)
    ensures Map(f, xs + ys) == Map(f, xs) + Map(f, ys)
  {
    if xs == [] {
      assert xs + ys == ys;
    } else {
      assert (xs + ys)[0] == xs[0];
      assert (xs + ys)[1..] == xs[1..] + ys;
      MapConcat(f, xs[1..], ys);
    }
  }

  /** The empty piece is trimmed to itself and never survives the filter. */
  lemma DropEmptyPiece(xs: seq<string>)
    ensures Filter(IsNotNarration, Map(Trim, xs + [""])) == Filter(IsNotNarration, Map(Trim, xs))
  {
    MapConcat(Trim, xs, [""]);
    var e := Map(Trim, [""]);
    assert e == [Trim("")];
    assert !IsNotNarration(Trim(""));
    FilterConcat(IsNotNarration, Map(Trim, xs), e);
    assert e[1..] == [];
  }

  lemma FinalStopSentences(a: string, x: string, y: string)
    requires Tidy(a) && Tidy(x) && Tidy(y)
    requires NoTerminator(a) && NoTerminator(x) && NoTerminator(y)
    requires !IsNotNarration(a) && IsNotNarration(x) && IsNotNarration(y)
    ensures SentenceCandidates(a + ". " + x + ". " + y + ".") == [x, y]
  {
    var s := a + ". " + x + ". " + y;
    SplitFinalStop(s);
    ProseSentences(a, x, y);
    DropEmptyPiece(SplitOn(s, SentenceTerminators));
  }

  /** Prose that ends in a full stop formats as the same prose without it. */
  lemma NarratedProseFinalStop(a: string, x: string, y: string, maxChars: nat)
    requires Tidy(a) && Tidy(x) && Tidy(y)
    requires NoTerminator(a) && NoTerminator(x) && NoTerminator(y)
    requires !IsNotNarration(a) && IsNotNarration(x) && IsNotNarration(y)
    requires |x| + |y| + 2 * |BulletPrefix| + 1 <= maxChars
    ensures FormatSummary(a + ". " + x + ". " + y + ".", maxChars) == BulletPrefix + x + "\n" + BulletPrefix + y
  {
    var t := a + ". " + x + ". " + y + ".";
    FinalStopInput(a, x, y);
    NoNewlineUsesSentences(t);
    FinalStopSentences(a, x, y);
    FormatTwo(t, x, y, maxChars);
  }

  lemma ThisIsIt(a: string)
    requires a == "This is it"
    ensures !IsNotNarration(a)
  {
    PhraseIsNarration(1, "this", "is", a);
  }

  lemma SaveKept(x: string)
    requires x == "Save"
    ensures IsNotNarration(x)
  {
    assert !HasLetter(x, "summary"[1]) && !HasLetter(x, "bullet"[0]);
    assert !HasLetter(x, "three"[0]) && !HasLetter(x, "each"[2]);
    assert !HasLetter(x, "under"[0]);
    KeptLine(x);
  }

  lemma InvestKept(y: string)
    requires y == "Invest"
    ensures IsNotNarration(y)
  {
    assert !HasLetter(y, "summary"[1]) && !HasLetter(y, "bullet"[0]);
    assert !HasLetter(y, "three"[1]) && !HasLetter(y, "each"[2]);
    assert !HasLetter(y, "under"[0]);
    KeptLine(y);
  }

  lemma ProseTidy(a: string, x: string, y: string)
    requires a == "This is it" && x == "Save" && y == "Invest"
    ensures Tidy(a) && Tidy(x) && Tidy(y)
  {
  }

  lemma ProseNoTerminator(a: string, x: string, y: string)
    requires a == "This is it" && x == "Save" && y == "Invest"
    ensures NoTerminator(a) && NoTerminator(x) && NoTerminator(y)
    ensures |x| + |y| + 2 * |BulletPrefix| + 1 <= 150
  {
  }

  /** "This is it. Save. Invest" gives the last two sentences as bullets. */
  lemma ProseWithNarrationLead(a: string, x: string, y: string)
    requires a == "This is it" && x == "Save" && y == "Invest"
    ensures FormatSummary(a + ". " + x + ". " + y, 150) == BulletPrefix + x + "\n" + BulletPrefix + y
  {
    ThisIsIt(a);
    SaveKept(x);
    InvestKept(y);
    ProseTidy(a, x, y);
    ProseNoTerminator(a, x, y);
    NarratedProse(a, x, y, 150);
  }

  lemma ProseWithFinalStop(a: string, x: string, y: string)
    requires a == "This is it" && x == "Save" && y == "Invest"
    ensures FormatSummary(a + ". " + x + ". " + y + ".", 150) == BulletPrefix + x + "\n" + BulletPrefix + y
  {
    ThisIsIt(a);
    SaveKept(x);
    InvestKept(y);
    ProseTidy(a, x, y);
    ProseNoTerminator(a, x, y);
    NarratedProseFinalStop(a, x, y, 150);
  }

  // ---------------------------------------------------------------------
  // Numbered items.

  /** Only the digit of `1. item` is a marker: the dot stays on the line. */
  lemma NumberedItemKeepsDot(d: char, x: string)
    requires IsDigit(d) && x != [] && !IsSpace(x[0]) && !IsSpace(x[|x| - 1])
    ensures CleanLine([d] + ". " + x) == ". " + x
  {
    var line := [d] + ". " + x;
    MarkerIsOneCharacter(line);
    assert line[1..] == ". " + x;
    var t := ". " + x;
    assert t[|t| - 1] == x[|x| - 1];
    TrimOfTrimmed(t);
  }

  /** Of a two-digit number only the first digit is stripped. */
  lemma TwoDigitItemKeepsDigit(d: char, e: char, x: string)
    requires IsDigit(d) && IsDigit(e) && x != [] && !IsSpace(x[0]) && !IsSpace(x[|x| - 1])
    ensures CleanLine([d, e] + ". " + x) == [e] + ". " + x
  {
    var line := [d, e] + ". " + x;
    MarkerIsOneCharacter(line);
    assert line[1..] == [e] + ". " + x;
    var t := [e] + ". " + x;
    assert t[|t| - 1] == x[|x| - 1];
    TrimOfTrimmed(t);
  }
}
