/** The deterministic post-processor applied to the model's reply
    (`formatSummary`): normalise, extract candidate lines, drop narration,
    keep at most three, prefix each with a bullet, join with newlines and
    cut long output with an ellipsis. */
module SummaryFormat {
  import opened JsString
  import opened Narration

  const Unavailable: string := "• Summary unavailable"
  const BulletPrefix: string := "• "
  const Ellipsis: string := "..."
  const MaxBullets: nat := 3
  /** A last space at this index or before is not used as the cut point. */
  const MinCutIndex: nat := 10
  const LineSeparators: set<char> := {'\n'}
  const SentenceTerminators: set<char> := {'.', '!', '?'}

  // ---------------------------------------------------------------------
  // `map` and `filter` of JavaScript arrays.

  function Map<A, B>(f: A -> B, xs: seq<A>): (r: seq<B>)
    ensures |r| == |xs|
    ensures forall i :: 0 <= i < |xs| ==> r[i] == f(xs[i])
  {
    if xs == [] then [] else [f(xs[0])] + Map(f, xs[1..])
  }

  function Filter<A>(p: A -> bool, xs: seq<A>): (r: seq<A>)
    ensures |r| <= |xs|
    ensures forall i :: 0 <= i < |r| ==> p(r[i]) && r[i] in xs
  {
    if xs == [] then []
    else
      var rest := Filter(p, xs[1..]);
      assert forall i :: 0 <= i < |rest| ==> rest[i] in xs by {
        forall i | 0 <= i < |rest| ensures rest[i] in xs {
          var j :| 0 <= j < |xs[1..]| && xs[1..][j] == rest[i];
          assert xs[j + 1] == rest[i];
        }
      }
      if p(xs[0]) then [xs[0]] + rest else rest
  }

  /** `filter` keeps the order: it distributes over concatenation. */
  lemma {:induction false} FilterConcat<A>(p: A -> bool, xs: seq<A>, ys: seq<A>)
    ensures Filter(p, xs + ys) == Filter(p, xs) + Filter(p, ys)
  {
    if xs == [] {
      assert xs + ys == ys;
    } else {
      assert (xs + ys)[0] == xs[0];
      assert (xs + ys)[1..] == xs[1..] + ys;
      FilterConcat(p, xs[1..], ys);
      if p(xs[0]) {
        assert Filter(p, xs + ys) == [xs[0]] + Filter(p, xs[1..] + ys);
        assert Filter(p, xs) == [xs[0]] + Filter(p, xs[1..]);
        assert [xs[0]] + (Filter(p, xs[1..]) + Filter(p, ys)) == ([xs[0]] + Filter(p, xs[1..])) + Filter(p, ys);
      } else {
        assert Filter(p, xs + ys) == Filter(p, xs[1..] + ys);
        assert Filter(p, xs) == Filter(p, xs[1..]);
      }
    }
  }

  // ---------------------------------------------------------------------
  // Candidate extraction.

  /** The class `[-*•0-9.]` of list markers. */
  predicate IsMarker(c: char) {
    c == '-' || c == '*' || c == '•' || c == '.' || IsDigit(c)
  }

  /** `line.replace(/^[-*•0-9.]\s*\/, '')`: one leading marker character and
      the whitespace after it; a line that does not start with a marker is
      left alone. */
  function StripMarker(line: string): (r: string)
    ensures |r| <= |line| && r == line[|line| - |r|..]
    ensures !(line != [] && IsMarker(line[0])) ==> r == line
    ensures line != [] && IsMarker(line[0]) ==>
      |r| < |line| && AllSpace(line[1..|line| - |r|]) && (r == [] || !IsSpace(r[0]))
  {
    if line != [] && IsMarker(line[0]) then
      var tail := line[1..];
      assert line[1..1 + LeadingSpaces(tail)] == tail[..LeadingSpaces(tail)];
      TrimStart(tail)
    else line
  }

  /** The cleaning step applied to each line of the newline path. */
  function CleanLine(line: string): string {
    Trim(StripMarker(line))
  }

  /** Candidates of the newline path. */
  function LineCandidates(s: string): seq<string> {
    Filter(IsNotNarration, Map(CleanLine, SplitOn(s, LineSeparators)))
  }

  /** Candidates of the sentence path: split on `/[.!?]/`, trim, filter. */
  function SentenceCandidates(s: string): seq<string> {
    Filter(IsNotNarration, Map(Trim, SplitOn(s, SentenceTerminators)))
  }

  /** The sentence path replaces the newline path when the latter yields at
      most one candidate, whatever the sentence path yields. */
  function Candidates(s: string): seq<string> {
    var byLine := LineCandidates(s);
    if |byLine| <= 1 then SentenceCandidates(s) else byLine
  }

  // ---------------------------------------------------------------------
  // Composition and the length cap.

  function Bullets(xs: seq<string>): (r: seq<string>)
    ensures |r| == |xs|
    ensures forall i :: 0 <= i < |xs| ==> r[i] == BulletPrefix + xs[i]
  {
    Map((x: string) => BulletPrefix + x, xs)
  }

  /** The first `MaxBullets` candidates, bulleted and joined with newlines. */
  function Compose(cands: seq<string>): string {
    Join(Bullets(cands[..if |cands| < MaxBullets then |cands| else MaxBullets]), "\n")
  }

  /** Where an over-long text is cut: at the last space of its first
      `maxChars` characters when that space lies beyond index `MinCutIndex`,
      at `maxChars` otherwise. */
  function CutPoint(text: string, maxChars: nat): (k: nat)
    requires maxChars <= |text|
    ensures k <= maxChars
    ensures k < maxChars ==> MinCutIndex < k && text[k] == ' ' && forall j :: k < j < maxChars ==> text[j] != ' '
    ensures k == maxChars ==> forall j :: MinCutIndex < j < maxChars ==> text[j] != ' '
  {
    var head := text[..maxChars];
    var space := LastIndexOf(head, ' ');
    assert forall j :: space < j < maxChars ==> text[j] == head[j];
    if space > MinCutIndex then space else maxChars
  }

  /** The character limit: a text within the limit is returned unchanged;
      a longer one is cut, trimmed and given an ellipsis. */
  function Truncate(text: string, maxChars: nat): (r: string)
    ensures |text| <= maxChars ==> r == text
    ensures |text| > maxChars ==> r == Trim(text[..CutPoint(text, maxChars)]) + Ellipsis
    ensures |text| > maxChars ==> |r| <= maxChars + |Ellipsis| && r[|r| - |Ellipsis|..] == Ellipsis
  {
    if |text| <= maxChars then text
    else Trim(text[..CutPoint(text, maxChars)]) + Ellipsis
  }

  /** The text the formatter works on: carriage returns removed, trimmed. */
  function Normalize(summary: string): (s: string)
    ensures '\r' !in s
    ensures s == [] || (!IsSpace(s[0]) && !IsSpace(s[|s| - 1]))
    ensures TrimmedFrom(s, RemoveChar(summary, '\r'))
  {
    var t := RemoveChar(summary, '\r');
    var s := Trim(t);
    assert '\r' !in s by { if '\r' in s { TrimChars(t, '\r'); } }
    TrimIsTrimmedFrom(t);
    s
  }

  /** `formatSummary(summary, maxChars)`. */
  function FormatSummary(summary: string, maxChars: nat): string {
    var cands := Candidates(Normalize(summary));
    if |cands| == 0 then Unavailable else Truncate(Compose(cands), maxChars)
  }

  // ---------------------------------------------------------------------
  // Properties of the formatter.

  /** Every candidate that reaches composition is non-empty and matched by
      no narration pattern. */
  lemma CandidatesAreContent(s: string)
    ensures forall i :: 0 <= i < |Candidates(s)| ==>
      Candidates(s)[i] != "" && forall p :: p in NarrationPatterns ==> !RegexTest(p, Candidates(s)[i])
  {
    var cands := Candidates(s);
    forall i | 0 <= i < |cands|
      ensures cands[i] != "" && forall p :: p in NarrationPatterns ==> !RegexTest(p, cands[i])
    {
      IsNotNarrationSpec(cands[i]);
    }
  }

  /** Text without a newline always takes the sentence path. */
  lemma NoNewlineUsesSentences(s: string)
    requires '\n' !in s
    ensures Candidates(s) == SentenceCandidates(s)
  {
    SplitOnNoSeparator(s, LineSeparators);
  }

  /** A marker is a single character: a second marker character stays. */
  lemma MarkerIsOneCharacter(line: string)
    requires |line| >= 2 && IsMarker(line[0]) && !IsSpace(line[1])
    ensures StripMarker(line) == line[1..]
  {
  }

  /** The marker must be the first character: an indented list item keeps
      its marker. */
  lemma IndentedMarkerKept(line: string)
    requires line != [] && IsSpace(line[0])
    ensures CleanLine(line) == Trim(line)
  {
  }

  lemma CleanLineChars(line: string, c: char)
    requires c in CleanLine(line)
    ensures c in line
  {
    TrimChars(StripMarker(line), c);
    var r := StripMarker(line);
    var j :| 0 <= j < |r| && r[j] == c;
    assert line[|line| - |r| + j] == r[j];
  }

  /** Candidates of the newline path are single lines. */
  lemma LineCandidatesAreLines(s: string)
    ensures forall i :: 0 <= i < |LineCandidates(s)| ==> '\n' !in LineCandidates(s)[i]
  {
    var parts := SplitOn(s, LineSeparators);
    var cleaned := Map(CleanLine, parts);
    forall i | 0 <= i < |cleaned| ensures '\n' !in cleaned[i] {
      if '\n' in cleaned[i] {
        CleanLineChars(parts[i], '\n');
      }
    }
  }

  /** Before the length cap, the lines of the output are the first
      `MaxBullets` candidates, in order, each behind a bullet. */
  lemma ComposeLines(cands: seq<string>)
    requires cands != []
    requires forall i :: 0 <= i < |cands| ==> '\n' !in cands[i]
    ensures SplitOn(Compose(cands), LineSeparators) ==
      Bullets(cands[..if |cands| < MaxBullets then |cands| else MaxBullets])
  {
    var kept := cands[..if |cands| < MaxBullets then |cands| else MaxBullets];
    var bullets := Bullets(kept);
    forall k | 0 <= k < |bullets| ensures '\n' !in bullets[k] {
      assert bullets[k] == BulletPrefix + kept[k];
    }
    SplitJoin(bullets, '\n');
  }

  /** When the newline path yields several candidates and their bullets fit
      the limit, the output lines are exactly the first three candidates. */
  lemma FormatListOutput(summary: string, maxChars: nat)
    requires |LineCandidates(Normalize(summary))| >= 2
    requires |Compose(LineCandidates(Normalize(summary)))| <= maxChars
    ensures var cands := LineCandidates(Normalize(summary));
      SplitOn(FormatSummary(summary, maxChars), LineSeparators) ==
        Bullets(cands[..if |cands| < MaxBullets then |cands| else MaxBullets])
  {
    LineCandidatesAreLines(Normalize(summary));
    ComposeLines(LineCandidates(Normalize(summary)));
  }

  /** Empty or blank model output gives exactly the sentinel bullet. */
  lemma FormatBlank(summary: string)
    requires AllSpace(RemoveChar(summary, '\r'))
    ensures forall maxChars: nat :: FormatSummary(summary, maxChars) == Unavailable
  {
    TrimEmpty(RemoveChar(summary, '\r'));
    assert Normalize(summary) == "";
    NothingInEmpty(Normalize(summary));
  }

  lemma NothingInEmpty(e: string)
    requires e == []
    ensures Candidates(e) == []
  {
    assert SplitOn(e, LineSeparators) == [e] && SplitOn(e, SentenceTerminators) == [e];
    assert StripMarker(e) == e;
    TrimOfTrimmed(e);
    assert Map(CleanLine, [e]) == [e] && Map(Trim, [e]) == [e];
    assert !IsNotNarration(e);
    assert Filter(IsNotNarration, [e]) == [];
  }

  lemma JoinStartsWithFirst(parts: seq<string>, sep: string)
    requires parts != [] && parts[0] != []
    ensures Join(parts, sep) != [] && Join(parts, sep)[0] == parts[0][0]
  {
  }

  lemma ComposeStartsWithBullet(cands: seq<string>)
    requires cands != []
    ensures Compose(cands) != [] && Compose(cands)[0] == '•'
  {
    var kept := cands[..if |cands| < MaxBullets then |cands| else MaxBullets];
    var bullets := Bullets(kept);
    assert bullets[0] == BulletPrefix + kept[0];
    JoinStartsWithFirst(bullets, "\n");
  }

  lemma TruncateKeepsBullet(text: string, maxChars: nat)
    requires text != [] && text[0] == '•' && maxChars >= 1
    ensures Truncate(text, maxChars) != [] && Truncate(text, maxChars)[0] == '•'
  {
    if |text| > maxChars {
      var k := CutPoint(text, maxChars);
      assert text[..k][0] == '•';
      TrimKeepsFirst(text[..k]);
    }
  }

  /** The output is never empty, begins with the bullet character whenever
      the limit allows one character, and is either the sentinel or at most
      `maxChars + 3` long. */
  lemma FormatShape(summary: string, maxChars: nat)
    ensures var r := FormatSummary(summary, maxChars);
      && r != []
      && (maxChars >= 1 ==> r[0] == '•')
      && (r == Unavailable || |r| <= maxChars + |Ellipsis|)
  {
    var cands := Candidates(Normalize(summary));
    var r := FormatSummary(summary, maxChars);
    if cands == [] {
      assert r == Unavailable;
      SentinelShape(r);
    } else {
      assert r == Truncate(Compose(cands), maxChars);
      CappedShape(cands, maxChars);
    }
  }

  lemma SentinelShape(u: string)
    requires u == Unavailable
    ensures u != [] && u[0] == '•'
  {
  }

  lemma CappedShape(cands: seq<string>, maxChars: nat)
    requires cands != []
    ensures var r := Truncate(Compose(cands), maxChars);
      r != [] && (maxChars >= 1 ==> r[0] == '•') && |r| <= maxChars + |Ellipsis|
  {
    var text := Compose(cands);
    ComposeStartsWithBullet(cands);
    if maxChars >= 1 { TruncateKeepsBullet(text, maxChars); }
    if |text| > maxChars {
      TruncatedLength(text, maxChars);
    }
  }

  lemma TruncatedLength(text: string, maxChars: nat)
    requires |text| > maxChars
    ensures |Truncate(text, maxChars)| <= maxChars + |Ellipsis|
  {
  }

  /** With the limit of 150 used by the service, output is at most 153 long. */
  lemma FormatAtMost153(summary: string)
    ensures |FormatSummary(summary, 150)| <= 153
  {
    FormatShape(summary, 150);
  }

  lemma NoSpaceHasNo(w: string, c: char)
    requires !HasSpace(w) && IsSpace(c)
    ensures c !in w
  {
  }

  lemma WordCandidates(w: string)
    requires w != [] && !IsMarker(w[0])
    requires !HasSpace(w)
    requires forall c :: c in SentenceTerminators ==> c !in w
    ensures Normalize(w) == w
    ensures Candidates(w) == [w]
  {
    NoSpaceHasNo(w, '\r');
    NoSpaceHasNo(w, '\n');
    TrimOfTrimmed(w);
    SplitOnNoSeparator(w, LineSeparators);
    SplitOnNoSeparator(w, SentenceTerminators);
    assert CleanLine(w) == w;
    WordIsNotNarration(w);
    assert Map(Trim, [w]) == [w];
    assert SentenceCandidates(w) == [w];
  }

  /** A single word is its own only candidate on both paths. */
  lemma SingleWordSummary(w: string, maxChars: nat)
    requires w != [] && !IsMarker(w[0])
    requires !HasSpace(w)
    requires forall c :: c in SentenceTerminators ==> c !in w
    ensures FormatSummary(w, maxChars) == Truncate(BulletPrefix + w, maxChars)
  {
    WordCandidates(w);
    assert Bullets([w]) == [BulletPrefix + w];
  }

  /** Without a space beyond index `MinCutIndex`, the text is cut at the limit. */
  lemma CutAtLimit(text: string, maxChars: nat)
    requires maxChars <= |text|
    requires forall j :: MinCutIndex < j < maxChars ==> text[j] != ' '
    ensures CutPoint(text, maxChars) == maxChars
  {
  }

  /** A text with no space to cut at beyond index `MinCutIndex`, and with
      no whitespace at either end of its first `maxChars` characters, gets
      the ellipsis after all `maxChars` of them. */
  lemma TruncateUncut(text: string, maxChars: nat)
    requires 1 <= maxChars < |text|
    requires forall j :: MinCutIndex < j < maxChars ==> text[j] != ' '
    requires !IsSpace(text[0]) && !IsSpace(text[maxChars - 1])
    ensures |Truncate(text, maxChars)| == maxChars + |Ellipsis|
  {
    CutAtLimit(text, maxChars);
    var head := text[..maxChars];
    assert head[0] == text[0] && head[maxChars - 1] == text[maxChars - 1];
    TrimOfTrimmed(head);
  }

  /** A single word of 149 or more characters comes out at 153 characters:
      the documented bound of 150 does not hold. */
  lemma LongWordExceeds150(w: string)
    requires |w| >= 149 && !IsMarker(w[0])
    requires !HasSpace(w)
    requires forall c :: c in SentenceTerminators ==> c !in w
    ensures |FormatSummary(w, 150)| == 153
  {
    var text := BulletPrefix + w;
    assert |BulletPrefix| == 2;
    assert forall j :: MinCutIndex < j < 150 ==> text[j] != ' ' by {
      forall j | MinCutIndex < j < 150 ensures text[j] != ' ' {
        assert text[j] == w[j - 2];
        assert !IsSpace(w[j - 2]);
      }
    }
    assert text[149] == w[147];
    assert !IsSpace(w[147]);
    TruncateUncut(text, 150);
    SingleWordSummary(w, 150);
  }

  lemma DocumentedBoundDoesNotHold()
    ensures exists summary :: |FormatSummary(summary, 150)| > 150
  {
    var w := seq(149, _ => 'a');
    assert !HasSpace(w);
    LongWordExceeds150(w);
  }
}
