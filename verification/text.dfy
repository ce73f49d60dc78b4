/**
 * String helpers with JavaScript's meaning: the `\s` character class and
 * `String.prototype.trim`, `Array.prototype.join`, `String.prototype.split`
 * on a single character, `startsWith` and `slice`.
 */
module Text {
  import opened Wrappers

  /** The characters of `\s` in a JavaScript regular expression; `trim` strips the same set. */
  predicate IsSpace(c: char) {
    || c == ' ' || c == '\t' || c == '\n' || c == '\r' || c == '\U{000B}' || c == '\U{000C}'
    || c == '\U{00A0}' || c == '\U{1680}' || ('\U{2000}' <= c <= '\U{200A}')
    || c == '\U{2028}' || c == '\U{2029}' || c == '\U{202F}' || c == '\U{205F}'
    || c == '\U{3000}' || c == '\U{FEFF}'
  }

  /** The class `[a-zA-Z0-9\-_]` that the command grammars use for one word. */
  predicate IsWordChar(c: char) {
    ('a' <= c <= 'z') || ('A' <= c <= 'Z') || ('0' <= c <= '9') || c == '-' || c == '_'
  }

  predicate NoSpace(s: string) {
    forall i :: 0 <= i < |s| ==> !IsSpace(s[i])
  }

  predicate AllSpace(s: string) {
    forall i :: 0 <= i < |s| ==> IsSpace(s[i])
  }

  predicate StartsWith(s: string, prefix: string) {
    |prefix| <= |s| && s[..|prefix|] == prefix
  }

  /** `s.slice(n)` for a non-negative `n`. */
  function Slice(s: string, n: nat): (r: string)
    ensures n <= |s| ==> s == s[..n] + r
    ensures n >= |s| ==> r == ""
  {
    if n <= |s| then s[n..] else ""
  }

  /** The first position at or after `i` that is not white space, or `|s|`. */
  function SkipSpace(s: string, i: nat): (r: nat)
    requires i <= |s|
    ensures i <= r <= |s| && (r == |s| || !IsSpace(s[r]))
    ensures forall k :: i <= k < r ==> IsSpace(s[k])
    decreases |s| - i
  {
    if i < |s| && IsSpace(s[i]) then SkipSpace(s, i + 1) else i
  }

  /** The position where the white space that ends `s[..hi]` starts, not below `lo`. */
  function BackSpace(s: string, lo: nat, hi: nat): (r: nat)
    requires lo <= hi <= |s|
    ensures lo <= r <= hi && (r == lo || !IsSpace(s[r - 1]))
    ensures forall k :: r <= k < hi ==> IsSpace(s[k])
    decreases hi - lo
  {
    if lo < hi && IsSpace(s[hi - 1]) then BackSpace(s, lo, hi - 1) else hi
  }

  /**
   * `s.trim()`: the infix of `s` left once the white space at both ends is
   * removed; neither end of the result is white space, and what was removed
   * is white space only.
   */
  function Trim(s: string): (r: string)
    ensures |r| <= |s|
    ensures r == [] || (!IsSpace(r[0]) && !IsSpace(r[|r| - 1]))
    ensures var lo := SkipSpace(s, 0);
            && AllSpace(s[..lo]) && lo + |r| <= |s| && r == s[lo..lo + |r|] && AllSpace(s[lo + |r|..])
  {
    var lo := SkipSpace(s, 0);
    var hi := BackSpace(s, lo, |s|);
    assert lo < hi ==> s[lo..hi][0] == s[lo] && s[lo..hi][hi - lo - 1] == s[hi - 1];
    s[lo..hi]
  }

  /** A string with no white space at either end is its own trim. */
  lemma TrimUnchanged(s: string)
    requires s == [] || (!IsSpace(s[0]) && !IsSpace(s[|s| - 1]))
    ensures Trim(s) == s
  {
    assert SkipSpace(s, 0) == 0;
    assert BackSpace(s, 0, |s|) == |s|;
    assert s[0..|s|] == s;
  }

  /** `parts.join(sep)`. */
  function Join(parts: seq<string>, sep: string): (r: string)
    ensures |parts| == 1 ==> r == parts[0]
  {
    if parts == [] then ""
    else if |parts| == 1 then parts[0]
    else parts[0] + (sep + Join(parts[1..], sep))
  }

  /** Joining a non-empty tail after a first part puts one separator between them. */
  lemma JoinCons(a: string, rest: seq<string>, sep: string)
    requires rest != []
    ensures Join([a] + rest, sep) == a + (sep + Join(rest, sep))
  {
    assert ([a] + rest)[1..] == rest;
  }

  /** Every part occurs in the joined text. */
  lemma {:induction false} JoinHasParts(parts: seq<string>, sep: string)
    ensures forall i :: 0 <= i < |parts| ==> Contains(Join(parts, sep), parts[i])
  {
    if |parts| == 1 {
      assert OccursAt(Join(parts, sep), parts[0], 0);
    } else if |parts| > 1 {
      var rest := Join(parts[1..], sep);
      JoinHasParts(parts[1..], sep);
      forall i | 0 <= i < |parts|
        ensures Contains(Join(parts, sep), parts[i])
      {
        if i == 0 {
          assert OccursAt(parts[0], parts[0], 0);
          OccursInMiddle([], parts[0], sep + rest, parts[0], 0);
          assert [] + parts[0] + (sep + rest) == Join(parts, sep);
          assert OccursAt(Join(parts, sep), parts[i], 0);
        } else {
          assert Contains(rest, parts[1..][i - 1]);
          var j: nat :| OccursAt(rest, parts[1..][i - 1], j);
          OccursInMiddle(parts[0] + sep, rest, [], parts[i], j);
          assert parts[0] + sep + rest + [] == Join(parts, sep);
          assert OccursAt(Join(parts, sep), parts[i], |parts[0] + sep| + j);
        }
      }
    }
  }

  /** A text that occurs in the middle part occurs in the whole, shifted by the first part. */
  lemma OccursInMiddle(a: string, b: string, c: string, t: string, j: nat)
    requires OccursAt(b, t, j)
    ensures OccursAt(a + b + c, t, |a| + j)
  {
    assert (a + b + c)[|a| + j..|a| + j + |t|] == b[j..j + |t|];
  }

  predicate Excludes(s: string, c: char) {
    forall i :: 0 <= i < |s| ==> s[i] != c
  }

  function Count(s: string, c: char): (n: nat)
    ensures n <= |s|
  {
    if s == [] then 0 else (if s[0] == c then 1 else 0) + Count(s[1..], c)
  }

  /** Index of the first occurrence of `c`, if any. */
  function IndexOf(s: string, c: char): (r: Option<nat>)
    ensures r.None? ==> Excludes(s, c)
    ensures r.Some? ==> r.value < |s| && s[r.value] == c && Excludes(s[..r.value], c)
  {
    if s == [] then None
    else if s[0] == c then Some(0)
    else match IndexOf(s[1..], c)
      case None => None
      case Some(i) => Some(i + 1)
  }

  /**
   * `s.split(c)` for a one-character separator: the pieces between the
   * occurrences of `c`; one more piece than there are separators, none holding
   * `c`, and joining them back with `c` gives `s`.
   */
  function Split(s: string, c: char): (parts: seq<string>)
    ensures |parts| == 1 + Count(s, c)
    ensures forall i :: 0 <= i < |parts| ==> Excludes(parts[i], c)
    ensures Join(parts, [c]) == s
    decreases |s|
  {
    match IndexOf(s, c)
    case None =>
      CountExcluded(s, c);
      [s]
    case Some(i) =>
      var rest := Split(s[i + 1..], c);
      CountSplit(s, c, i);
      assert s == s[..i] + [c] + s[i + 1..];
      [s[..i]] + rest
  }

  lemma {:induction false} CountExcluded(s: string, c: char)
    requires Excludes(s, c)
    ensures Count(s, c) == 0
  {
    if s != [] {
      CountExcluded(s[1..], c);
    }
  }

  lemma {:induction false} CountSplit(s: string, c: char, i: nat)
    requires i < |s| && s[i] == c && Excludes(s[..i], c)
    ensures Count(s, c) == 1 + Count(s[i + 1..], c)
  {
    if i > 0 {
      assert s[1..][..i - 1] == s[..i][1..];
      CountSplit(s[1..], c, i - 1);
      assert s[1..][i..] == s[i + 1..];
    }
  }

  /**
   * Splitting on a character that separates two pieces free of it gives back
   * exactly those two pieces.
   */
  lemma {:induction false} SplitTwo(a: string, b: string, c: char)
    requires Excludes(a, c) && Excludes(b, c)
    ensures Split(a + [c] + b, c) == [a, b]
  {
    var s := a + [c] + b;
    assert s[..|a|] == a;
    assert IndexOf(s, c) == Some(|a|) by {
      IndexOfFirst(s, c, |a|);
    }
    assert s[|a| + 1..] == b;
    assert IndexOf(b, c).None?;
  }

  /** A first piece free of the separator comes off whole, and the rest splits on its own. */
  lemma SplitCons(a: string, rest: string, c: char)
    requires Excludes(a, c)
    ensures Split(a + [c] + rest, c) == [a] + Split(rest, c)
  {
    var s := a + [c] + rest;
    assert s[..|a|] == a;
    IndexOfFirst(s, c, |a|);
    assert s[|a| + 1..] == rest;
  }

  lemma {:induction false} IndexOfFirst(s: string, c: char, i: nat)
    requires i < |s| && s[i] == c && Excludes(s[..i], c)
    ensures IndexOf(s, c) == Some(i)
  {
    if i > 0 {
      assert s[0] == s[..i][0];
      assert s[1..][..i - 1] == s[..i][1..];
      IndexOfFirst(s[1..], c, i - 1);
    }
  }

  /** `t` occurs in `s` at position `j`. */
  predicate OccursAt(s: string, t: string, j: nat) {
    j + |t| <= |s| && s[j..j + |t|] == t
  }

  /** `t` occurs somewhere in `s`. */
  ghost predicate Contains(s: string, t: string) {
    exists j: nat :: OccursAt(s, t, j)
  }

  /** A text that occurs in a part occurs in that part with anything before or after it. */
  lemma ContainsWithin(a: string, b: string, t: string)
    ensures Contains(a, t) ==> Contains(a + b, t)
    ensures Contains(b, t) ==> Contains(a + b, t)
  {
    if Contains(a, t) {
      var j: nat :| OccursAt(a, t, j);
      OccursInMiddle([], a, b, t, j);
      assert [] + a + b == a + b;
    }
    if Contains(b, t) {
      var j: nat :| OccursAt(b, t, j);
      OccursInMiddle(a, b, [], t, j);
      assert a + b + [] == a + b;
    }
  }

  /** Every text contains itself. */
  lemma ContainsItself(t: string)
    ensures Contains(t, t)
  {
    assert OccursAt(t, t, 0);
  }

  /** `s.indexOf(t)`: the first position at which `t` occurs in `s`, or -1. */
  function IndexOfText(s: string, t: string): (r: int)
    ensures -1 <= r <= |s|
    ensures r >= 0 ==> OccursAt(s, t, r)
    ensures forall j: nat :: (r < 0 || j < r) ==> !OccursAt(s, t, j)
    decreases |s|
  {
    if StartsWith(s, t) then 0
    else if s == [] then
      assert forall j: nat :: !OccursAt(s, t, j);
      -1
    else
      var k := IndexOfText(s[1..], t);
      assert !OccursAt(s, t, 0) by {
        if |t| <= |s| {
          assert s[0..|t|] == s[..|t|];
        }
      }
      forall j: nat | 1 <= j
        ensures OccursAt(s, t, j) <==> OccursAt(s[1..], t, j - 1)
      {
        if j + |t| <= |s| {
          var a, b := s[j..j + |t|], s[1..][j - 1..j - 1 + |t|];
          assert |a| == |b| && forall i :: 0 <= i < |a| ==> a[i] == b[i];
        }
      }
      if k < 0 then -1 else k + 1
  }
}
