/**
 * Operations on strings (sequences of characters) that the generator relies on:
 * substring occurrence, suffix tests and the global replace used for template
 * placeholders.
 */
module Strings {

  /** `pat` occurs as a contiguous block somewhere in `s`. */
  predicate Occurs(pat: string, s: string)
    decreases |s|
  {
    pat <= s || (|s| > 0 && Occurs(pat, s[1..]))
  }

  /** `s` ends with `suffix`, as JavaScript's `String.prototype.endsWith`. */
  predicate EndsWith(s: string, suffix: string)
  {
    |suffix| <= |s| && s[|s| - |suffix|..] == suffix
  }

  /**
   * Replaces every occurrence of `pat` in `s` by `rep`, scanning from the left and
   * resuming after each match, as `s.replace(/pat/g, rep)` does for a literal
   * pattern.
   */
  function ReplaceAll(s: string, pat: string, rep: string): string
    requires |pat| > 0
    decreases |s|
  {
    if |s| == 0 then ""
    else if pat <= s then rep + ReplaceAll(s[|pat|..], pat, rep)
    else [s[0]] + ReplaceAll(s[1..], pat, rep)
  }

  /** Text without an occurrence of the pattern comes back unchanged. */
  lemma {:induction false} ReplaceAllWithoutOccurrence(s: string, pat: string, rep: string)
    requires |pat| > 0
    requires !Occurs(pat, s)
    ensures ReplaceAll(s, pat, rep) == s
    decreases |s|
  {
    if |s| > 0 {
      ReplaceAllWithoutOccurrence(s[1..], pat, rep);
      assert s == [s[0]] + s[1..];
    }
  }

  /** An occurrence in a suffix of `s` is an occurrence in `s`. */
  lemma {:induction false} OccursInSuffix(pat: string, s: string, k: nat)
    requires k <= |s|
    requires Occurs(pat, s[k..])
    ensures Occurs(pat, s)
    decreases k
  {
    if k > 0 {
      assert s[1..][k - 1..] == s[k..];
      OccursInSuffix(pat, s[1..], k - 1);
    }
  }

  /** `q` occurs in any text that contains it between two other texts. */
  lemma {:induction false} OccursBetween(q: string, a: string, b: string)
    ensures Occurs(q, a + q + b)
    decreases |a|
  {
    if |a| == 0 {
      assert a + q + b == q + b;
      assert q <= q + b;
    } else {
      assert (a + q + b)[1..] == a[1..] + q + b;
      OccursBetween(q, a[1..], b);
    }
  }

  /**
   * A text `a` without the first character of `pat` cannot hold the start of an
   * occurrence, so every occurrence in `a + b` lies inside `b`.
   */
  lemma {:induction false} OccursPastPrefix(pat: string, a: string, b: string)
    requires |pat| > 0
    requires pat[0] !in a
    requires Occurs(pat, a + b)
    ensures Occurs(pat, b)
    decreases |a|
  {
    if |a| > 0 {
      assert (a + b)[0] == a[0];
      assert !(pat <= a + b);
      assert (a + b)[1..] == a[1..] + b;
      OccursPastPrefix(pat, a[1..], b);
    } else {
      assert a + b == b;
    }
  }

  /**
   * Output that contains no first character of the replacement was copied verbatim:
   * a prefix `w` of the replaced text free of `rep[0]` is also a prefix of the input.
   */
  lemma {:induction false} CopiedPrefix(t: string, pat: string, rep: string, w: string)
    requires |pat| > 0 && |rep| > 0
    requires w <= ReplaceAll(t, pat, rep)
    requires rep[0] !in w
    ensures w <= t
    decreases |t|
  {
    if |w| > 0 {
      var r := ReplaceAll(t, pat, rep);
      assert |t| > 0;
      assert w[0] in w && r[0] == w[0];
      assert r == [t[0]] + ReplaceAll(t[1..], pat, rep);
      assert w[1..] <= ReplaceAll(t[1..], pat, rep);
      assert forall c :: c in w[1..] ==> c in w;
      CopiedPrefix(t[1..], pat, rep, w[1..]);
      assert w == [t[0]] + w[1..];
    }
  }

  /**
   * When the replacement cannot begin or end a new occurrence (its first character is
   * not in `pat` and `pat`'s first character is not in it), no occurrence of `pat`
   * survives the global replace.
   */
  lemma {:induction false} NoPatternLeft(s: string, pat: string, rep: string)
    requires |pat| > 0 && |rep| > 0
    requires rep[0] !in pat
    requires pat[0] !in rep
    ensures !Occurs(pat, ReplaceAll(s, pat, rep))
    decreases |s|
  {
    var r := ReplaceAll(s, pat, rep);
    if |s| == 0 {
      assert r == "";
      assert !(pat <= r);
    } else if pat <= s {
      var rest := ReplaceAll(s[|pat|..], pat, rep);
      assert r == rep + rest;
      NoPatternLeft(s[|pat|..], pat, rep);
      if Occurs(pat, r) {
        OccursPastPrefix(pat, rep, rest);
      }
    } else {
      var rest := ReplaceAll(s[1..], pat, rep);
      assert r == [s[0]] + rest;
      NoPatternLeft(s[1..], pat, rep);
      if pat <= r && |pat| > 1 {
        assert pat[1..] <= rest;
        assert forall c :: c in pat[1..] ==> c in pat;
        CopiedPrefix(s[1..], pat, rep, pat[1..]);
      }
      assert r[1..] == rest;
    }
  }

  /**
   * A prefix `w` of the replaced text was copied from the input when the replacement
   * cannot supply `w`'s last character and does not occur in the rest of `w`: no
   * replacement can then lie wholly or partly inside `w`.
   */
  lemma {:induction false} CopiedPrefixUpTo(t: string, pat: string, rep: string, w: string)
    requires |pat| > 0 && |rep| > 0 && |w| > 0
    requires w <= ReplaceAll(t, pat, rep)
    requires w[|w| - 1] !in rep
    requires !Occurs(rep, w[..|w| - 1])
    ensures w <= t
    decreases |t|
  {
    var r := ReplaceAll(t, pat, rep);
    assert |t| > 0;
    // A replacement at the front would either end inside `w` or cover its last character.
    assert !(pat <= t);
    assert r == [t[0]] + ReplaceAll(t[1..], pat, rep);
    if |w| > 1 {
      assert w[1..] <= ReplaceAll(t[1..], pat, rep);
      assert w[1..][..|w| - 2] == w[..|w| - 1][1..];
      CopiedPrefixUpTo(t[1..], pat, rep, w[1..]);
      assert w == [t[0]] + w[1..];
    }
  }

  /**
   * No occurrence of `pat` survives the global replace when the replacement can
   * supply neither `pat`'s first nor its last character and does not occur strictly
   * inside `pat`. Unlike `NoPatternLeft`, the replacement may begin with a character
   * of `pat`.
   */
  lemma {:induction false} NoPatternLeftInside(s: string, pat: string, rep: string)
    requires |pat| > 1 && |rep| > 0
    requires pat[0] !in rep && pat[|pat| - 1] !in rep
    requires !Occurs(rep, pat[1..|pat| - 1])
    ensures !Occurs(pat, ReplaceAll(s, pat, rep))
    decreases |s|
  {
    var r := ReplaceAll(s, pat, rep);
    if |s| == 0 {
      assert r == "";
      assert !(pat <= r);
    } else if pat <= s {
      var rest := ReplaceAll(s[|pat|..], pat, rep);
      assert r == rep + rest;
      NoPatternLeftInside(s[|pat|..], pat, rep);
      if Occurs(pat, r) {
        OccursPastPrefix(pat, rep, rest);
      }
    } else {
      var rest := ReplaceAll(s[1..], pat, rep);
      assert r == [s[0]] + rest;
      NoPatternLeftInside(s[1..], pat, rep);
      if pat <= r {
        var w := pat[1..];
        assert w <= rest;
        assert w[..|w| - 1] == pat[1..|pat| - 1];
        CopiedPrefixUpTo(s[1..], pat, rep, w);
        assert false;
      }
      assert r[1..] == rest;
    }
  }

  /**
   * Replacing `pat` creates no occurrence of another token `q` when the replacement
   * can neither begin nor end an occurrence of `q`.
   */
  lemma {:induction false} NoNewOccurrence(s: string, pat: string, rep: string, q: string)
    requires |pat| > 0 && |rep| > 0 && |q| > 0
    requires rep[0] !in q
    requires q[0] !in rep
    requires !Occurs(q, s)
    ensures !Occurs(q, ReplaceAll(s, pat, rep))
    decreases |s|
  {
    var r := ReplaceAll(s, pat, rep);
    if |s| == 0 {
      assert r == "";
      assert !(q <= r);
    } else if pat <= s {
      var rest := ReplaceAll(s[|pat|..], pat, rep);
      assert r == rep + rest;
      if Occurs(q, s[|pat|..]) {
        OccursInSuffix(q, s, |pat|);
      }
      NoNewOccurrence(s[|pat|..], pat, rep, q);
      if Occurs(q, r) {
        OccursPastPrefix(q, rep, rest);
      }
    } else {
      var rest := ReplaceAll(s[1..], pat, rep);
      assert r == [s[0]] + rest;
      assert !Occurs(q, s[1..]);
      NoNewOccurrence(s[1..], pat, rep, q);
      if q <= r && |q| > 1 {
        assert q[1..] <= rest;
        assert forall c :: c in q[1..] ==> c in q;
        CopiedPrefix(s[1..], pat, rep, q[1..]);
      }
      assert r[1..] == rest;
    }
  }

  /**
   * The leftmost occurrence is replaced by `rep` and the text before it is kept:
   * when `x` holds no occurrence, not even one that would run into the following
   * `pat`, replacing in `x + pat + y` gives `x + rep` followed by the replaced `y`.
   */
  lemma {:induction false} ReplaceAllAtFirstOccurrence(x: string, pat: string, y: string, rep: string)
    requires |pat| > 0
    requires !Occurs(pat, x + pat[..|pat| - 1])
    ensures ReplaceAll(x + pat + y, pat, rep) == x + rep + ReplaceAll(y, pat, rep)
    decreases |x|
  {
    var s := x + pat + y;
    var rest := ReplaceAll(y, pat, rep);
    if |x| == 0 {
      assert s == pat + y && x + rep + rest == rep + rest;
      ReplaceAllMatches(pat, y, rep);
    } else {
      var tail := x[1..] + rep + rest;
      assert ReplaceAll(s, pat, rep) == [x[0]] + ReplaceAll(x[1..] + pat + y, pat, rep) by {
        NoMatchBeforeFirstOccurrence(x, pat, y);
        assert s[1..] == x[1..] + pat + y && s[0] == x[0];
        ReplaceAllSkips(s, pat, rep);
      }
      assert ReplaceAll(x[1..] + pat + y, pat, rep) == tail by {
        NoMatchBeforeFirstOccurrence(x, pat, y);
        ReplaceAllAtFirstOccurrence(x[1..], pat, y, rep);
      }
      assert x + rep + rest == [x[0]] + tail by {
        assert x == [x[0]] + x[1..];
      }
    }
  }

  /** Where the scan matches, it emits the replacement and resumes after the match. */
  lemma ReplaceAllMatches(pat: string, y: string, rep: string)
    requires |pat| > 0
    ensures ReplaceAll(pat + y, pat, rep) == rep + ReplaceAll(y, pat, rep)
  {
    assert pat <= pat + y;
    assert (pat + y)[|pat|..] == y;
  }

  /** Where the scan does not match, it copies the first character and moves on. */
  lemma ReplaceAllSkips(s: string, pat: string, rep: string)
    requires |pat| > 0 && |s| > 0 && !(pat <= s)
    ensures ReplaceAll(s, pat, rep) == [s[0]] + ReplaceAll(s[1..], pat, rep)
  {
  }

  /** The scan does not match at the start of a non-empty `x` and still finds no occurrence in the rest of it. */
  lemma NoMatchBeforeFirstOccurrence(x: string, pat: string, y: string)
    requires |pat| > 0 && |x| > 0
    requires !Occurs(pat, x + pat[..|pat| - 1])
    ensures !(pat <= x + pat + y)
    ensures !Occurs(pat, x[1..] + pat[..|pat| - 1])
  {
    var head := x + pat[..|pat| - 1];
    assert (x + pat + y)[..|pat|] == head[..|pat|];
    assert head[1..] == x[1..] + pat[..|pat| - 1];
  }

  /** The parts laid end to end. */
  function Concat(parts: seq<string>): string
  {
    if |parts| == 0 then "" else parts[0] + Concat(parts[1..])
  }

  /** Every part occurs in the concatenation of the parts. */
  lemma {:induction false} OccursInConcat(parts: seq<string>, i: nat)
    requires i < |parts|
    ensures Occurs(parts[i], Concat(parts))
    decreases i
  {
    var rest := Concat(parts[1..]);
    assert Concat(parts) == parts[0] + rest;
    if i == 0 {
      OccursBetween(parts[0], "", rest);
      assert "" + parts[0] + rest == parts[0] + rest;
    } else {
      OccursInConcat(parts[1..], i - 1);
      assert (parts[0] + rest)[|parts[0]|..] == rest;
      OccursInSuffix(parts[i], parts[0] + rest, |parts[0]|);
    }
  }

  /** An occurrence brings all its characters, with their multiplicities, into the text. */
  lemma {:induction false} OccursNeedsChars(pat: string, s: string)
    requires Occurs(pat, s)
    ensures multiset(pat) <= multiset(s)
    decreases |s|
  {
    if pat <= s {
      assert s == pat + s[|pat|..];
      assert multiset(s) == multiset(pat) + multiset(s[|pat|..]);
    } else {
      OccursNeedsChars(pat, s[1..]);
      assert s == [s[0]] + s[1..];
      assert multiset(s) == multiset([s[0]]) + multiset(s[1..]);
    }
  }

  /** A token holding some character more often than a text does cannot occur in it. */
  lemma CharCountRulesOut(pat: string, s: string, c: char)
    requires multiset(pat)[c] > multiset(s)[c]
    ensures !Occurs(pat, s)
  {
    if Occurs(pat, s) {
      OccursNeedsChars(pat, s);
    }
  }

  /** A token with a character the text lacks cannot occur in it. */
  lemma CharAbsentRulesOut(pat: string, s: string, c: char)
    requires c in pat && c !in s
    ensures !Occurs(pat, s)
  {
    assert multiset(pat)[c] > 0;
    assert multiset(s)[c] == 0;
    CharCountRulesOut(pat, s, c);
  }

  /** An occurrence inside a prefix of a text is an occurrence in the text. */
  lemma {:induction false} OccursWithinPrefix(p: string, q: string, s: string)
    requires Occurs(p, q) && q <= s
    ensures Occurs(p, s)
    decreases |q|
  {
    if !(p <= q) {
      assert q[1..] <= s[1..];
      OccursWithinPrefix(p, q[1..], s[1..]);
    }
  }

  /** Occurrence is transitive: a token inside a token inside a text is inside the text. */
  lemma {:induction false} OccursTransitive(p: string, q: string, s: string)
    requires Occurs(p, q) && Occurs(q, s)
    ensures Occurs(p, s)
    decreases |s|
  {
    if q <= s {
      OccursWithinPrefix(p, q, s);
    } else {
      OccursTransitive(p, q, s[1..]);
    }
  }
}
