/**
 * Text handling of the converter page: the whitespace normaliser applied to
 * the whole input, and `String.prototype.trim` applied to every chunk.
 * Text is a sequence of characters; both operations use one notion of
 * whitespace, ECMAScript's `\s` class, which is also the set `trim` strips.
 */
module Text {
  import opened Types

  /** ECMAScript WhiteSpace and LineTerminator code points (the `\s` class). */
  predicate IsWs(c: char) {
    c == '\t' || c == '\n' || c == '\U{000B}' || c == '\U{000C}' || c == '\r' || c == ' '
    || c == '\U{00A0}' || c == '\U{1680}' || ('\U{2000}' <= c <= '\U{200A}')
    || c == '\U{2028}' || c == '\U{2029}' || c == '\U{202F}' || c == '\U{205F}'
    || c == '\U{3000}' || c == '\U{FEFF}'
  }

  /** No two neighbouring characters of `s` are both whitespace. */
  predicate NoAdjacentWs(s: string) {
    forall k :: 0 < k < |s| ==> !(IsWs(s[k - 1]) && IsWs(s[k]))
  }

  /** The length of the whitespace run that starts `s`. */
  function LeadingWs(s: string): (n: nat)
    ensures n <= |s|
    ensures forall k :: 0 <= k < n ==> IsWs(s[k])
    ensures n < |s| ==> !IsWs(s[n])
  {
    if |s| == 0 || !IsWs(s[0]) then 0 else 1 + LeadingWs(s[1..])
  }

  /** The length of the whitespace run that ends `s`. */
  function TrailingWs(s: string): (n: nat)
    ensures n <= |s|
    ensures forall k :: |s| - n <= k < |s| ==> IsWs(s[k])
    ensures n < |s| ==> !IsWs(s[|s| - 1 - n])
  {
    if |s| == 0 || !IsWs(s[|s| - 1]) then 0 else 1 + TrailingWs(s[..|s| - 1])
  }

  /**
   * `text.replace(/\s{2,}/g, ' ')`: the leftmost-longest matches of two or more
   * whitespace characters are exactly the maximal whitespace runs of length at
   * least two, and each becomes one space; a lone whitespace character stays.
   */
  function Normalize(s: string): (r: string)
    ensures |r| <= |s|
    ensures |s| > 0 ==> |r| > 0 && (IsWs(r[0]) <==> IsWs(s[0]))
    ensures |s| > 0 && !IsWs(s[0]) ==> r[0] == s[0]
    ensures NoAdjacentWs(r)
    decreases |s|
  {
    if |s| == 0 then []
    else
      var n := LeadingWs(s);
      if n >= 2 then [' '] + Normalize(s[n..])
      else [s[0]] + Normalize(s[1..])
  }

  /** The non-whitespace characters of `s`, in order. */
  function NonWs(s: string): (r: string)
    ensures |r| <= |s|
  {
    if |s| == 0 then [] else (if IsWs(s[0]) then [] else [s[0]]) + NonWs(s[1..])
  }

  /** `s.trim()`: strips the leading and the trailing whitespace run. */
  function Trim(s: string): (r: string)
    ensures LeadingWs(s) + |r| <= |s|
    ensures r == s[LeadingWs(s)..LeadingWs(s) + |r|]
    ensures forall k :: LeadingWs(s) + |r| <= k < |s| ==> IsWs(s[k])
    ensures |r| > 0 ==> !IsWs(r[0]) && !IsWs(r[|r| - 1])
    ensures |r| == 0 ==> forall k :: 0 <= k < |s| ==> IsWs(s[k])
  {
    var rest := s[LeadingWs(s)..];
    rest[..|rest| - TrailingWs(rest)]
  }

  // ---------------------------------------------------------------------
  // Properties of the normaliser

  /** A string with no adjacent whitespace is a fixed point, and only such a string. */
  lemma {:induction false} NormalizeFixedPoint(s: string)
    ensures Normalize(s) == s <==> NoAdjacentWs(s)
    decreases |s|
  {
    if |s| > 0 && NoAdjacentWs(s) {
      assert |s| > 1 ==> !(IsWs(s[0]) && IsWs(s[1]));
      assert NoAdjacentWs(s[1..]) by {
        forall k | 0 < k < |s[1..]| ensures !(IsWs(s[1..][k - 1]) && IsWs(s[1..][k])) {
          assert s[1..][k - 1] == s[k] && s[1..][k] == s[k + 1];
        }
      }
      NormalizeFixedPoint(s[1..]);
      assert s == [s[0]] + s[1..];
    }
  }

  /** Normalising twice is normalising once. */
  lemma NormalizeIdempotent(s: string)
    ensures Normalize(Normalize(s)) == Normalize(s)
  {
    NormalizeFixedPoint(Normalize(s));
  }

  lemma {:induction false} NonWsSkipsWhitespace(s: string, n: nat)
    requires n <= |s|
    requires forall k :: 0 <= k < n ==> IsWs(s[k])
    ensures NonWs(s) == NonWs(s[n..])
    decreases n
  {
    if n > 0 {
      assert s[1..][n - 1..] == s[n..];
      NonWsSkipsWhitespace(s[1..], n - 1);
    }
  }

  /** Normalising changes whitespace only: every other character survives, in order. */
  lemma {:induction false} NormalizeKeepsNonWs(s: string)
    ensures NonWs(Normalize(s)) == NonWs(s)
    decreases |s|
  {
    if |s| > 0 {
      var n := LeadingWs(s);
      if n >= 2 {
        NormalizeKeepsNonWs(s[n..]);
        NonWsSkipsWhitespace(s, n);
        assert ([' '] + Normalize(s[n..]))[1..] == Normalize(s[n..]);
      } else {
        NormalizeKeepsNonWs(s[1..]);
        assert ([s[0]] + Normalize(s[1..]))[1..] == Normalize(s[1..]);
      }
    }
  }

  lemma {:induction false} LeadingWsAppend(a: string, t: string)
    requires |a| > 0 && !IsWs(a[|a| - 1])
    ensures LeadingWs(a + t) == LeadingWs(a)
    decreases |a|
  {
    if IsWs(a[0]) {
      assert |a| > 1;
      assert (a + t)[1..] == a[1..] + t;
      LeadingWsAppend(a[1..], t);
    }
  }

  /** Normalisation splits at a boundary that follows a non-whitespace character. */
  lemma {:induction false} NormalizeAppend(a: string, t: string)
    requires |a| == 0 || !IsWs(a[|a| - 1])
    ensures Normalize(a + t) == Normalize(a) + Normalize(t)
    decreases |a|
  {
    if |a| > 0 {
      LeadingWsAppend(a, t);
      var n := LeadingWs(a);
      var m := if n >= 2 then n else 1;
      var h := if n >= 2 then [' '] else [a[0]];
      var r := a[m..];
      assert (a + t)[m..] == r + t;
      assert |r| == 0 || r[|r| - 1] == a[|a| - 1];
      NormalizeAppend(r, t);
      assert Normalize(a + t) == h + Normalize(r + t);
      assert Normalize(a) == h + Normalize(r);
      ConcatAssoc(h, Normalize(r), Normalize(t));
    } else {
      assert a + t == t;
    }
  }

  /**
   * The three equations that determine the normaliser, for a piece `w` placed
   * between non-whitespace neighbours: a whitespace run of two or more becomes
   * one space, a lone whitespace character and a non-whitespace character stay.
   */
  lemma NormalizeRun(a: string, w: string, b: string)
    requires |a| == 0 || !IsWs(a[|a| - 1])
    requires |b| == 0 || !IsWs(b[0])
    requires |w| > 0 && forall k :: 0 <= k < |w| ==> IsWs(w[k])
    ensures Normalize(a + w + b) == Normalize(a) + (if |w| >= 2 then " " else w) + Normalize(b)
  {
    var t := w + b;
    var x := if |w| >= 2 then " " else w;
    NormalizeAppend(a, t);
    NormalizeRunHead(w, b);
    ConcatAssoc(a, w, b);
    ConcatAssoc(Normalize(a), x, Normalize(b));
  }


  lemma NormalizeRunHead(w: string, b: string)
    requires |b| == 0 || !IsWs(b[0])
    requires |w| > 0 && forall k :: 0 <= k < |w| ==> IsWs(w[k])
    ensures Normalize(w + b) == (if |w| >= 2 then " " else w) + Normalize(b)
  {
    LeadingWsRun(w, b);
    if |w| >= 2 {
      assert (w + b)[|w|..] == b;
    } else {
      assert (w + b)[1..] == b;
      assert [(w + b)[0]] == w;
    }
  }

  lemma {:induction false} LeadingWsRun(w: string, b: string)
    requires |b| == 0 || !IsWs(b[0])
    requires forall k :: 0 <= k < |w| ==> IsWs(w[k])
    ensures LeadingWs(w + b) == |w|
    decreases |w|
  {
    if |w| > 0 {
      assert (w + b)[1..] == w[1..] + b;
      LeadingWsRun(w[1..], b);
    } else {
      assert w + b == b;
    }
  }

  /** A lone non-whitespace character is its own normal form. */
  lemma NormalizeChar(c: char)
    requires !IsWs(c)
    ensures Normalize([c]) == [c]
  {
    assert [c][1..] == [];
  }

  /**
   * Runs of two or more whitespace characters become one space; a lone tab
   * stays a tab: `"a   b\tb  c"` becomes `"a b\tb c"`, and so for any three
   * non-whitespace characters in place of `a`, `b` and `c`.
   */
  lemma NormalizeExample(a: char, b: char, c: char)
    requires !IsWs(a) && !IsWs(b) && !IsWs(c)
    ensures Normalize([a] + "   " + ([b] + "\t" + ([b] + "  " + [c])))
         == [a] + " " + ([b] + "\t" + ([b] + " " + [c]))
  {
    NormalizeChar(a);
    NormalizeChar(b);
    NormalizeChar(c);
    NormalizeRun([b], "  ", [c]);
    NormalizeRun([b], "\t", [b] + "  " + [c]);
    NormalizeRun([a], "   ", [b] + "\t" + ([b] + "  " + [c]));
  }
}
