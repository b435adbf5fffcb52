/** The JavaScript `String` built-ins the core relies on, over `seq<char>`:
    `trim`, `split`, `join`, `includes`, `lastIndexOf`, `replace(/c/g, '')`
    and ASCII case folding for the `/i` flag. */
module JsString {
  import opened Wrappers

  /** The code points ECMAScript counts as WhiteSpace or LineTerminator:
      exactly the set `String.prototype.trim` removes and `\s` matches. */
  predicate IsSpace(c: char) {
    || c == '\t' || c == '\n' || c == '\U{000B}' || c == '\U{000C}' || c == '\r'
    || c == ' ' || c == '\U{00A0}' || c == '\U{1680}'
    || ('\U{2000}' <= c <= '\U{200A}')
    || c == '\U{2028}' || c == '\U{2029}' || c == '\U{202F}' || c == '\U{205F}'
    || c == '\U{3000}' || c == '\U{FEFF}'
  }

  /** `\d` of a JavaScript regular expression. */
  predicate IsDigit(c: char) {
    '0' <= c <= '9'
  }

  predicate AllSpace(s: string) {
    forall i :: 0 <= i < |s| ==> IsSpace(s[i])
  }

  predicate AllDigits(s: string) {
    forall i :: 0 <= i < |s| ==> IsDigit(s[i])
  }

  /** Number of whitespace code points at the start of `s`. */
  function LeadingSpaces(s: string): (n: nat)
    ensures n <= |s|
    ensures AllSpace(s[..n])
    ensures n < |s| ==> !IsSpace(s[n])
  {
    if s == [] || !IsSpace(s[0]) then 0
    else
      var n := 1 + LeadingSpaces(s[1..]);
      assert s[..n] == [s[0]] + s[1..][..n - 1];
      n
  }

  /** Number of whitespace code points at the end of `s`. */
  function TrailingSpaces(s: string): (n: nat)
    ensures n <= |s|
    ensures AllSpace(s[|s| - n..])
    ensures n < |s| ==> !IsSpace(s[|s| - n - 1])
  {
    if s == [] || !IsSpace(s[|s| - 1]) then 0
    else
      var init := s[..|s| - 1];
      var n := 1 + TrailingSpaces(init);
      assert s[|s| - n..] == init[|init| - (n - 1)..] + [s[|s| - 1]];
      n
  }

  /** `String.prototype.trimStart`. */
  function TrimStart(s: string): (r: string)
    ensures r == s[LeadingSpaces(s)..]
    ensures r == [] || !IsSpace(r[0])
  {
    s[LeadingSpaces(s)..]
  }

  /** `String.prototype.trim`: the slice of `s` left once the whitespace
      at both ends is removed. */
  function Trim(s: string): (r: string)
    ensures LeadingSpaces(s) + |r| <= |s|
    ensures r == s[LeadingSpaces(s)..LeadingSpaces(s) + |r|]
    ensures AllSpace(s[LeadingSpaces(s) + |r|..])
    ensures r != [] ==> !IsSpace(r[0]) && !IsSpace(r[|r| - 1])
  {
    var k := LeadingSpaces(s);
    var t := s[k..];
    var n := TrailingSpaces(t);
    var r := t[..|t| - n];
    assert |r| == |t| - n;
    assert r == s[k..k + |r|];
    assert s[k + |r|..] == t[|t| - n..];
    assert r != [] ==> r[0] == t[0] && r[|r| - 1] == t[|t| - n - 1];
    r
  }

  /** `r` is `t` with exactly its leading and trailing white-space runs cut off. */
  predicate TrimmedFrom(r: string, t: string) {
    var i := LeadingSpaces(t);
    i + |r| <= |t| && r == t[i..i + |r|] && AllSpace(t[..i]) && AllSpace(t[i + |r|..])
  }

  lemma TrimIsTrimmedFrom(t: string)
    ensures TrimmedFrom(Trim(t), t)
  {
  }

  /** Trimming leaves nothing exactly when the string is all whitespace. */
  lemma TrimEmpty(s: string)
    ensures Trim(s) == [] <==> AllSpace(s)
  {
    var k := LeadingSpaces(s);
    var r := Trim(s);
    if r == [] {
      assert s[..k] == s;
    }
  }

  lemma TrimOfTrimmed(s: string)
    requires s == [] || (!IsSpace(s[0]) && !IsSpace(s[|s| - 1]))
    ensures Trim(s) == s
  {
    if s != [] {
      assert LeadingSpaces(s) == 0;
    }
  }

  lemma TrimIdempotent(s: string)
    ensures Trim(Trim(s)) == Trim(s)
  {
    TrimOfTrimmed(Trim(s));
  }

  /** `s.split(c)` for a separator set `seps`: JavaScript's `split` with a
      one-character string, or with a character class such as `/[.!?]/`.
      There is always one more part than separators, so `"".split(c)` is `[""]`. */
  function SplitOn(s: string, seps: set<char>): (parts: seq<string>)
    ensures |parts| >= 1
    ensures forall k :: 0 <= k < |parts| ==> forall j :: 0 <= j < |parts[k]| ==> parts[k][j] !in seps
  {
    if s == [] then [""]
    else
      var rest := SplitOn(s[1..], seps);
      if s[0] in seps then [""] + rest
      else [[s[0]] + rest[0]] + rest[1..]
  }

  /** A string without separators is not split. */
  lemma {:induction false} SplitOnNoSeparator(s: string, seps: set<char>)
    requires forall c :: c in seps ==> c !in s
    ensures SplitOn(s, seps) == [s]
  {
    if s != [] {
      assert s[0] in s;
      SplitOnNoSeparator(s[1..], seps);
      assert [s[0]] + s[1..] == s;
    }
  }

  /** Splitting distributes over a separator: the parts of `a + [c] + b` are the
      parts of `a` followed by the parts of `b`. */
  lemma {:induction false} SplitOnConcat(a: string, c: char, b: string, seps: set<char>)
    requires c in seps
    ensures SplitOn(a + [c] + b, seps) == SplitOn(a, seps) + SplitOn(b, seps)
  {
    if a == [] {
      assert a + [c] + b == [c] + b;
      assert ([c] + b)[1..] == b;
    } else {
      var s := a + [c] + b;
      assert s[0] == a[0];
      assert s[1..] == a[1..] + [c] + b;
      SplitOnConcat(a[1..], c, b, seps);
    }
  }

  /** `parts.join(sep)`. */
  function Join(parts: seq<string>, sep: string): (r: string)
    ensures |parts| == 1 ==> r == parts[0]
  {
    if parts == [] then ""
    else if |parts| == 1 then parts[0]
    else parts[0] + sep + Join(parts[1..], sep)
  }

  /** `split` and `join` on the same one-character separator are inverse. */
  lemma {:induction false} JoinSplit(s: string, c: char)
    ensures Join(SplitOn(s, {c}), [c]) == s
  {
    if s != [] {
      JoinSplit(s[1..], c);
      var rest := SplitOn(s[1..], {c});
      if s[0] == c {
        assert SplitOn(s, {c}) == [""] + rest;
        assert ([""] + rest)[1..] == rest;
      } else {
        var parts := SplitOn(s, {c});
        assert parts == [[s[0]] + rest[0]] + rest[1..];
        if |rest| == 1 {
          assert [s[0]] + s[1..] == s;
        } else {
          assert parts[1..] == rest[1..];
          assert Join(rest, [c]) == rest[0] + [c] + Join(rest[1..], [c]);
          assert [s[0]] + s[1..] == s;
        }
      }
    }
  }

  /** Joining parts without the separator and splitting again gives the parts back. */
  lemma {:induction false} SplitJoin(parts: seq<string>, c: char)
    requires |parts| >= 1
    requires forall k :: 0 <= k < |parts| ==> c !in parts[k]
    ensures SplitOn(Join(parts, [c]), {c}) == parts
  {
    var head := parts[0];
    SplitOnNoSeparator(head, {c});
    if |parts| > 1 {
      var tail := parts[1..];
      var rest := Join(tail, [c]);
      assert Join(parts, [c]) == head + [c] + rest;
      SplitJoin(tail, c);
      SplitOnConcat(head, c, rest, {c});
      assert parts == [head] + tail;
    }
  }

  /** Every character of `Trim(s)` is a character of `s`. */
  lemma TrimChars(s: string, c: char)
    requires c in Trim(s)
    ensures c in s
  {
    var r := Trim(s);
    var k := LeadingSpaces(s);
    var j :| 0 <= j < |r| && r[j] == c;
    assert s[k + j] == r[j];
  }

  /** Trimming a string that starts with a non-space keeps its first character. */
  lemma TrimKeepsFirst(s: string)
    requires s != [] && !IsSpace(s[0])
    ensures Trim(s) != [] && Trim(s)[0] == s[0]
  {
    TrimEmpty(s);
  }

  /** `s` with every occurrence of `c` removed: `s.replace(/c/g, '')`. */
  function RemoveChar(s: string, c: char): (r: string)
    ensures c !in r
    ensures multiset(r) == multiset(s)[c := 0]
    ensures c !in s ==> r == s
  {
    if s == [] then ""
    else
      assert s == [s[0]] + s[1..];
      if s[0] == c then RemoveChar(s[1..], c) else [s[0]] + RemoveChar(s[1..], c)
  }

  /** Removal works character by character: it distributes over concatenation. */
  lemma {:induction false} RemoveCharConcat(a: string, b: string, c: char)
    ensures RemoveChar(a + b, c) == RemoveChar(a, c) + RemoveChar(b, c)
  {
    if a == [] {
      assert a + b == b;
    } else {
      assert (a + b)[0] == a[0] && (a + b)[1..] == a[1..] + b;
      RemoveCharConcat(a[1..], b, c);
    }
  }

  /** A single character is dropped exactly when it is `c`; with `RemoveCharConcat` this fixes the order of the result. */
  lemma RemoveCharSingle(x: char, c: char)
    ensures RemoveChar([x], c) == if x == c then [] else [x]
  {
    assert [x][1..] == [];
  }

  /** `s.lastIndexOf(c)`: the largest index holding `c`, or -1. */
  function LastIndexOf(s: string, c: char): (r: int)
    ensures -1 <= r < |s|
    ensures r == -1 ==> c !in s
    ensures r >= 0 ==> s[r] == c
    ensures forall k :: r < k < |s| ==> s[k] != c
  {
    if s == [] then -1
    else if s[|s| - 1] == c then |s| - 1
    else LastIndexOf(s[..|s| - 1], c)
  }

  predicate OccursAt(s: string, t: string, i: nat) {
    i + |t| <= |s| && s[i..i + |t|] == t
  }

  /** `s.includes(t)`. */
  predicate Contains(s: string, t: string) {
    exists i: nat :: i <= |s| && OccursAt(s, t, i)
  }

  /** A string contains every character of each of its substrings. */
  lemma ContainsChars(s: string, t: string, c: char)
    requires Contains(s, t) && c in t
    ensures c in s
  {
    var i: nat :| i <= |s| && OccursAt(s, t, i);
    var j :| 0 <= j < |t| && t[j] == c;
    assert s[i + j] == s[i..i + |t|][j];
  }

  /** An occurrence of `t` starting inside `a` puts `t[j]` in `a`, or `t[0]` among `a`'s last `j` characters. */
  lemma OccurrenceInPrefix(a: string, b: string, t: string, i: nat, j: nat)
    requires OccursAt(a + b, t, i) && j < |t| && j <= |a|
    ensures i < |a| ==> t[j] in a || t[0] in a[|a| - j..]
  {
    var s := a + b;
    if i < |a| {
      assert s[i..i + |t|][j] == t[j] && s[i..i + |t|][0] == t[0];
      if i + j < |a| {
        assert a[i + j] == t[j];
      } else {
        assert a[|a| - j..][i - (|a| - j)] == t[0];
      }
    }
  }

  /**
   * No occurrence of `t` in `a + b` can start inside `a` when `a` lacks
   * `t[j]` and its last `j` characters lack `t[0]`: then `a + b` contains
   * `t` exactly when `b` does.
   */
  lemma ContainsAcross(a: string, b: string, t: string, j: nat)
    requires j < |t| && j <= |a|
    requires t[j] !in a && t[0] !in a[|a| - j..]
    ensures Contains(a + b, t) <==> Contains(b, t)
  {
    if Contains(b, t) {
      var i: nat :| i <= |b| && OccursAt(b, t, i);
      ShiftedOccurrence(a, b, t, |a| + i);
    }
    if Contains(a + b, t) {
      var i: nat :| i <= |a + b| && OccursAt(a + b, t, i);
      OccurrenceInPrefix(a, b, t, i, j);
      ShiftedOccurrence(a, b, t, i);
    }
  }

  /** An occurrence in `a + b` past `a` is an occurrence in `b`. */
  lemma ShiftedOccurrence(a: string, b: string, t: string, i: nat)
    requires i >= |a|
    ensures OccursAt(a + b, t, i) <==> OccursAt(b, t, i - |a|)
  {
    var s := a + b;
    if i + |t| <= |s| {
      assert s[i..i + |t|] == b[i - |a|..i - |a| + |t|];
    }
  }

  /** `s || fallback` for a string that may be missing: an absent or empty string falls through. */
  function OrElse(s: Option<string>, fallback: string): (r: string)
    ensures s.Some? && s.value != "" ==> r == s.value
    ensures !(s.Some? && s.value != "") ==> r == fallback
  {
    if s.Some? && s.value != "" then s.value else fallback
  }

  /** Case folding under the `/i` flag for an ASCII pattern: without the `u`
      flag no non-ASCII code point folds onto an ASCII letter, so folding the
      ASCII upper-case letters is exact. */
  function Lower(c: char): (r: char)
    ensures 'A' <= c <= 'Z' ==> r as int == c as int + 32
    ensures !('A' <= c <= 'Z') ==> r == c
  {
    if 'A' <= c <= 'Z' then (c as int + 32) as char else c
  }

  /** `s` begins with `w` up to case. */
  predicate StartsWithFold(s: string, w: string) {
    |w| <= |s| && forall i :: 0 <= i < |w| ==> Lower(s[i]) == Lower(w[i])
  }
}
