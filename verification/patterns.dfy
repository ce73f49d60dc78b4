/**
 * The regular expressions the command matchers use, as a small pattern
 * language: a sequence of literal characters and one-or-more repetitions of a
 * character class, searched for anywhere in a string as `String.prototype.match`
 * does for an unanchored expression without flags.
 *
 * `Search` is the executable backtracking matcher; `Matches`/`Occurs` are the
 * declarative meaning; `SearchCorrect` proves the two agree.
 */
module Patterns {
  import Text

  /** The character classes that occur in the command patterns. */
  datatype CharClass =
    | Word       // [a-zA-Z0-9\-_]
    | WordDot    // [a-zA-Z0-9\-_.]
    | Space      // \s
    | AnyChar    // . (anything but a line terminator)

  predicate InClass(k: CharClass, c: char) {
    match k
    case Word => Text.IsWordChar(c)
    case WordDot => Text.IsWordChar(c) || c == '.'
    case Space => Text.IsSpace(c)
    case AnyChar => c != '\n' && c != '\r' && c != '\U{2028}' && c != '\U{2029}'
  }

  datatype Elem = Lit(c: char) | Plus(k: CharClass)

  type Pattern = seq<Elem>

  /** A pattern that matches exactly the characters of `t`. */
  function Lits(t: string): (p: Pattern)
    ensures |p| == |t|
    ensures forall i :: 0 <= i < |t| ==> p[i] == Lit(t[i])
  {
    seq(|t|, i requires 0 <= i < |t| => Lit(t[i]))
  }

  /** Every character of `s[i..j]` is in class `k`. */
  predicate AllIn(k: CharClass, s: string, i: nat, j: nat)
    requires i <= j <= |s|
  {
    forall m :: i <= m < j ==> InClass(k, s[m])
  }

  /** Declarative meaning: `p` matches exactly the characters `s[i..j]`. */
  ghost predicate Matches(p: Pattern, s: string, i: nat, j: nat)
    requires i <= j <= |s|
    decreases |p|
  {
    if p == [] then i == j
    else match p[0]
      case Lit(c) => i < j && s[i] == c && Matches(p[1..], s, i + 1, j)
      case Plus(k) => exists n :: i < n <= j && AllIn(k, s, i, n) && Matches(p[1..], s, n, j)
  }

  /** `p` matches some stretch of `s`. */
  ghost predicate Occurs(p: Pattern, s: string) {
    exists a, b :: 0 <= a <= b <= |s| && Matches(p, s, a, b)
  }

  /** Backtracking: does `p` match a stretch of `s` that starts at `i`? */
  function MatchFrom(p: Pattern, s: string, i: nat): bool
    requires i <= |s|
    decreases |p|, |s| - i
  {
    if p == [] then true
    else match p[0]
      case Lit(c) => i < |s| && s[i] == c && MatchFrom(p[1..], s, i + 1)
      case Plus(k) => i < |s| && InClass(k, s[i]) && PlusFrom(k, p[1..], s, i + 1)
  }

  /**
   * Inside a repetition of `k` that has taken at least one character: either
   * the rest `q` matches from `i`, or the repetition takes `s[i]` as well.
   */
  function PlusFrom(k: CharClass, q: Pattern, s: string, i: nat): bool
    requires i <= |s|
    decreases |q| + 1, |s| - i
  {
    MatchFrom(q, s, i) || (i < |s| && InClass(k, s[i]) && PlusFrom(k, q, s, i + 1))
  }

  /** `s.match(p)` is non-null: try every start position from `i` on. */
  function Search(p: Pattern, s: string, i: nat): bool
    requires i <= |s|
    decreases |s| - i
  {
    MatchFrom(p, s, i) || (i < |s| && Search(p, s, i + 1))
  }

  // ---------------------------------------------------------------------
  // The matcher agrees with the declarative meaning
  // ---------------------------------------------------------------------

  lemma {:induction false} MatchFromSound(p: Pattern, s: string, i: nat)
    requires i <= |s| && MatchFrom(p, s, i)
    ensures exists j :: i <= j <= |s| && Matches(p, s, i, j)
    decreases |p|, |s| - i
  {
    if p == [] {
      assert Matches(p, s, i, i);
    } else {
      match p[0]
      case Lit(c) =>
        MatchFromSound(p[1..], s, i + 1);
        var j :| i + 1 <= j <= |s| && Matches(p[1..], s, i + 1, j);
        assert Matches(p, s, i, j);
      case Plus(k) =>
        PlusFromSound(k, p[1..], s, i + 1);
        var n, j :| i + 1 <= n <= j <= |s| && AllIn(k, s, i + 1, n) && Matches(p[1..], s, n, j);
        assert AllIn(k, s, i, n);
        assert Matches(p, s, i, j);
    }
  }

  lemma {:induction false} PlusFromSound(k: CharClass, q: Pattern, s: string, i: nat)
    requires i <= |s| && PlusFrom(k, q, s, i)
    ensures exists n, j :: i <= n <= j <= |s| && AllIn(k, s, i, n) && Matches(q, s, n, j)
    decreases |q| + 1, |s| - i
  {
    if MatchFrom(q, s, i) {
      MatchFromSound(q, s, i);
      var j :| i <= j <= |s| && Matches(q, s, i, j);
      assert AllIn(k, s, i, i);
    } else {
      PlusFromSound(k, q, s, i + 1);
      var n, j :| i + 1 <= n <= j <= |s| && AllIn(k, s, i + 1, n) && Matches(q, s, n, j);
      assert AllIn(k, s, i, n);
    }
  }

  lemma {:induction false} MatchFromComplete(p: Pattern, s: string, i: nat, j: nat)
    requires i <= j <= |s| && Matches(p, s, i, j)
    ensures MatchFrom(p, s, i)
    decreases |p|, 0
  {
    if p != [] {
      match p[0]
      case Lit(c) =>
        MatchFromComplete(p[1..], s, i + 1, j);
      case Plus(k) =>
        var n :| i < n <= j && AllIn(k, s, i, n) && Matches(p[1..], s, n, j);
        PlusFromComplete(k, p[1..], s, i + 1, n, j);
    }
  }

  lemma {:induction false} PlusFromComplete(k: CharClass, q: Pattern, s: string, i: nat, n: nat, j: nat)
    requires i <= n <= j <= |s| && AllIn(k, s, i, n) && Matches(q, s, n, j)
    ensures PlusFrom(k, q, s, i)
    decreases |q|, 1 + n - i
  {
    if i == n {
      MatchFromComplete(q, s, n, j);
    } else {
      PlusFromComplete(k, q, s, i + 1, n, j);
    }
  }

  lemma {:induction false} SearchSound(p: Pattern, s: string, i: nat)
    requires i <= |s| && Search(p, s, i)
    ensures exists a, b :: i <= a <= b <= |s| && Matches(p, s, a, b)
    decreases |s| - i
  {
    if MatchFrom(p, s, i) {
      MatchFromSound(p, s, i);
      var b :| i <= b <= |s| && Matches(p, s, i, b);
      assert i <= i <= b <= |s| && Matches(p, s, i, b);
    } else {
      SearchSound(p, s, i + 1);
    }
  }

  lemma {:induction false} SearchComplete(p: Pattern, s: string, i: nat, a: nat, b: nat)
    requires i <= a <= b <= |s| && Matches(p, s, a, b)
    ensures Search(p, s, i)
    decreases a - i
  {
    if i == a {
      MatchFromComplete(p, s, a, b);
    } else {
      SearchComplete(p, s, i + 1, a, b);
    }
  }

  /** The backtracking search finds a match exactly when one exists. */
  lemma SearchCorrect(p: Pattern, s: string)
    ensures Search(p, s, 0) <==> Occurs(p, s)
  {
    if Search(p, s, 0) {
      SearchSound(p, s, 0);
    }
    if Occurs(p, s) {
      var a, b :| 0 <= a <= b <= |s| && Matches(p, s, a, b);
      SearchComplete(p, s, 0, a, b);
    }
  }

  // ---------------------------------------------------------------------
  // Building matches, and a necessary condition for one
  // ---------------------------------------------------------------------

  /** A literal run matches the same characters in the string. */
  lemma {:induction false} LitsMatch(t: string, q: Pattern, s: string, i: nat, j: nat)
    requires i + |t| <= j <= |s| && s[i..i + |t|] == t && Matches(q, s, i + |t|, j)
    ensures Matches(Lits(t) + q, s, i, j)
    decreases |t|
  {
    if t != [] {
      var p := Lits(t) + q;
      assert s[i] == s[i..i + |t|][0] == t[0];
      assert s[i + 1..i + 1 + |t[1..]|] == s[i..i + |t|][1..] == t[1..];
      LitsMatch(t[1..], q, s, i + 1, j);
      assert p[0] == Lit(t[0]);
      assert Lits(t)[1..] == Lits(t[1..]);
      assert p[1..] == Lits(t[1..]) + q;
      assert Matches(p[1..], s, i + 1, j);
    } else {
      assert Lits(t) + q == q;
    }
  }

  /** A non-empty run of class `k` followed by a match of `q`. */
  lemma PlusMatch(k: CharClass, q: Pattern, s: string, i: nat, n: nat, j: nat)
    requires i < n <= j <= |s| && AllIn(k, s, i, n) && Matches(q, s, n, j)
    ensures Matches([Plus(k)] + q, s, i, j)
  {
    assert ([Plus(k)] + q)[1..] == q;
  }

  /** A match stays a match when characters are put in front of the string. */
  lemma {:induction false} Shift(p: Pattern, u: string, x: string, i: nat, j: nat)
    requires i <= j <= |u| && Matches(p, u, i, j)
    ensures Matches(p, x + u, |x| + i, |x| + j)
    decreases |p|
  {
    var t := x + u;
    if p != [] {
      match p[0]
      case Lit(c) =>
        assert t[|x| + i] == u[i];
        Shift(p[1..], u, x, i + 1, j);
      case Plus(k) =>
        var n :| i < n <= j && AllIn(k, u, i, n) && Matches(p[1..], u, n, j);
        Shift(p[1..], u, x, n, j);
        forall m | |x| + i <= m < |x| + n ensures InClass(k, t[m]) {
          assert t[m] == u[m - |x|];
        }
        assert Matches(p, t, |x| + i, |x| + j);
    }
  }

  /** A whole-string match of `q`, preceded by a non-empty run of class `k`. */
  lemma PrependRun(k: CharClass, q: Pattern, x: string, u: string)
    requires x != [] && AllIn(k, x, 0, |x|) && Matches(q, u, 0, |u|)
    ensures Matches([Plus(k)] + q, x + u, 0, |x + u|)
  {
    var t := x + u;
    Shift(q, u, x, 0, |u|);
    assert forall m :: 0 <= m < |x| ==> t[m] == x[m];
    PlusMatch(k, q, t, 0, |x|, |t|);
  }

  /** A whole-string match of `q`, preceded by the literal `w`. */
  lemma PrependLits(w: string, q: Pattern, u: string)
    requires Matches(q, u, 0, |u|)
    ensures Matches(Lits(w) + q, w + u, 0, |w + u|)
  {
    var t := w + u;
    Shift(q, u, w, 0, |u|);
    assert t[0..|w|] == w;
    LitsMatch(w, q, t, 0, |t|);
  }

  /** A non-empty run of class `k` is matched by `Plus(k)` alone. */
  lemma RunAlone(k: CharClass, x: string)
    requires x != [] && AllIn(k, x, 0, |x|)
    ensures Matches([Plus(k)], x, 0, |x|)
  {
    assert Matches([], x, |x|, |x|);
    PlusMatch(k, [], x, 0, |x|, |x|);
    assert [Plus(k)] + [] == [Plus(k)];
  }

  /** The literal `w` is matched by `Lits(w)` alone. */
  lemma LitsAlone(w: string)
    ensures Matches(Lits(w), w, 0, |w|)
  {
    assert Matches([], w, |w|, |w|);
    assert w[0..|w|] == w;
    LitsMatch(w, [], w, 0, |w|);
    assert Lits(w) + [] == Lits(w);
  }

  /** A pattern that matches the whole string is found by the search. */
  lemma WholeFound(p: Pattern, t: string)
    requires Matches(p, t, 0, |t|)
    ensures Search(p, t, 0)
  {
    SearchComplete(p, t, 0, 0, |t|);
  }

  /** Any match of a pattern that contains `Plus(Space)` covers a white-space character. */
  lemma {:induction false} SpaceNeeded(p: Pattern, s: string, i: nat, j: nat)
    requires i <= j <= |s| && Matches(p, s, i, j) && Plus(Space) in p
    ensures exists m :: i <= m < j && Text.IsSpace(s[m])
    decreases |p|
  {
    match p[0]
    case Lit(c) =>
      assert Plus(Space) in p[1..];
      SpaceNeeded(p[1..], s, i + 1, j);
      var m :| i + 1 <= m < j && Text.IsSpace(s[m]);
    case Plus(k) =>
      var n :| i < n <= j && AllIn(k, s, i, n) && Matches(p[1..], s, n, j);
      if k == Space {
        assert InClass(k, s[i]);
      } else {
        assert Plus(Space) in p[1..];
        SpaceNeeded(p[1..], s, n, j);
        var m :| n <= m < j && Text.IsSpace(s[m]);
      }
  }

  /** Whenever the search succeeds on a pattern that needs white space, `s` holds some. */
  lemma MatchNeedsSpace(p: Pattern, s: string)
    requires Plus(Space) in p
    ensures Search(p, s, 0) ==> exists m :: 0 <= m < |s| && Text.IsSpace(s[m])
  {
    if Search(p, s, 0) {
      SearchSound(p, s, 0);
      var a, b :| 0 <= a <= b <= |s| && Matches(p, s, a, b);
      SpaceNeeded(p, s, a, b);
    }
  }

  /** A string without white space holds no match of a pattern that needs some. */
  lemma NoSpaceNoMatch(p: Pattern, s: string)
    requires Plus(Space) in p && Text.NoSpace(s)
    ensures !Search(p, s, 0)
  {
    MatchNeedsSpace(p, s);
  }
}
