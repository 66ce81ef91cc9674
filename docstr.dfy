/** Docstring clean-up of `Scope.add_docstr` (parsing.py:103-125). */
module Docstr {
  import opened Basics
  import opened Text

  /** The characters the two strip loops remove: quotes, tab and space. */
  predicate IsStripChar(c: char) {
    c == '"' || c == '\'' || c == '\t' || c == ' '
  }

  /** parsing.py:108-112: cut the prefix (`r`, `u`, ...) before the first quote.
      The index is the first `'` only when it comes before the first `"`;
      otherwise it is the first `"`, which is -1 when the string has none, and
      `string[-1:]` keeps only the last character. */
  function DocCut(s: string): string {
    var i1 := Find(s, '\'');
    var i2 := Find(s, '"');
    var index := if i1 < i2 && i1 > -1 then i1 else i2;
    if index == -1 then (if |s| == 0 then "" else s[|s| - 1..]) else s[index..]
  }

  /** parsing.py:116-119: newlines and tabs become spaces, runs of spaces one. */
  function Flatten(d: string): string {
    Collapse(ReplaceChar(ReplaceChar(d, '\n', ' '), '\t', ' '))
  }

  /** `while d[0] in '"\'\t ': d = d[1:]` without the IndexError. */
  function LStrip(d: string): (r: string)
    ensures |r| <= |d| && r == d[|d| - |r|..]
    ensures forall k :: 0 <= k < |d| - |r| ==> IsStripChar(d[k])
    ensures |r| > 0 ==> !IsStripChar(r[0])
    decreases |d|
  {
    if |d| > 0 && IsStripChar(d[0]) then LStrip(d[1..]) else d
  }

  /** `while d[-1] in '"\'\t ': d = d[:-1]` without the IndexError. */
  function RStrip(d: string): (r: string)
    ensures |r| <= |d| && r == d[..|r|]
    ensures forall k :: |r| <= k < |d| ==> IsStripChar(d[k])
    ensures |r| > 0 ==> !IsStripChar(r[|r| - 1])
    ensures |d| > 0 && !IsStripChar(d[0]) ==> |r| > 0
    decreases |d|
  {
    if |d| > 0 && IsStripChar(d[|d| - 1]) then RStrip(d[..|d| - 1]) else d
  }

  /** The two strip loops of `add_docstr` (parsing.py:120-123) on the
      flattened string: None when the first one empties it and `d[0]` raises
      IndexError, else what is left, a slice of `flat`. */
  function StripQuotes(flat: string): (r: Option<string>)
    ensures r.None? <==> forall k :: 0 <= k < |flat| ==> IsStripChar(flat[k])
    ensures r.Some? ==> exists i, j :: StrippedAt(flat, r.value, i, j)
    ensures r.Some? ==> !IsStripChar(r.value[0]) && !IsStripChar(r.value[|r.value| - 1])
  {
    var l := LStrip(flat);
    LStripEmpty(flat);
    if l == "" then None
    else
      var d := RStrip(l);
      assert !IsStripChar(l[0]);
      StrippedSlice(flat, l, d);
      Some(d)
  }

  /** `d` is the slice `flat[i..j]`, not empty, and only quotes, tabs and
      spaces lie before and after it. */
  predicate StrippedAt(flat: string, d: string, i: int, j: int) {
    0 <= i < j <= |flat| && d == flat[i..j]
    && (forall k :: 0 <= k < i ==> IsStripChar(flat[k]))
    && (forall k :: j <= k < |flat| ==> IsStripChar(flat[k]))
  }

  /** Strip characters before a suffix `l` of `flat`, and after a prefix `d`
      of `l`: `d` is a slice of `flat` with strip characters around it. */
  lemma StrippedSlice(flat: string, l: string, d: string)
    requires |l| <= |flat| && l == flat[|flat| - |l|..]
    requires forall k :: 0 <= k < |flat| - |l| ==> IsStripChar(flat[k])
    requires 0 < |d| <= |l| && d == l[..|d|]
    requires forall k :: |d| <= k < |l| ==> IsStripChar(l[k])
    ensures StrippedAt(flat, d, |flat| - |l|, |flat| - |l| + |d|)
  {
    var i := |flat| - |l|;
    SliceOfSuffix(flat, l, d);
    forall k | i + |d| <= k < |flat| ensures IsStripChar(flat[k]) {
      assert IsStripChar(l[k - i]) && flat[k] == l[k - i];
    }
  }

  /** The docstring `add_docstr` stores for the string token `s`. */
  function DocClean(s: string): (r: Option<string>)
    ensures var flat := Flatten(DocCut(s));
      r.None? <==> forall k :: 0 <= k < |flat| ==> IsStripChar(flat[k])
    ensures var flat := Flatten(DocCut(s));
      r.Some? ==> exists i, j :: StrippedAt(flat, r.value, i, j)
    ensures r.Some? ==> !IsStripChar(r.value[0]) && !IsStripChar(r.value[|r.value| - 1])
  {
    StripQuotes(Flatten(DocCut(s)))
  }

  /** A prefix of a suffix is a slice. */
  lemma SliceOfSuffix(s: string, suffix: string, d: string)
    requires |suffix| <= |s| && suffix == s[|s| - |suffix|..]
    requires |d| <= |suffix| && d == suffix[..|d|]
    ensures d == s[|s| - |suffix|..|s| - |suffix| + |d|]
  {
  }

  /** The first strip loop empties a string exactly when every character of
      it is a quote, a tab or a space. */
  lemma {:induction false} LStripEmpty(d: string)
    ensures LStrip(d) == "" <==> forall k :: 0 <= k < |d| ==> IsStripChar(d[k])
    decreases |d|
  {
    if |d| > 0 && IsStripChar(d[0]) {
      LStripEmpty(d[1..]);
      assert forall k :: 1 <= k < |d| ==> d[k] == d[1..][k - 1];
    }
  }

  /** The loops of `add_docstr` (parsing.py:116-123), run on the cut string;
      None where `d[0]` raises IndexError. */
  method CleanDocstring(s: string) returns (r: Option<string>)
    ensures r == DocClean(s)
  {
    var d := DocCut(s);
    d := ReplaceChar(d, '\n', ' ');
    d := ReplaceChar(d, '\t', ' ');
    ghost var flat := d;
    while HasDoubleSpace(d)
      invariant Collapse(d) == Collapse(flat)
      decreases |d|
    {
      ReplaceDoubleShrinks(d);
      d := ReplaceDouble(d);
    }
    assert d == Flatten(DocCut(s));
    ghost var collapsed := d;
    while true
      invariant LStrip(d) == LStrip(collapsed)
      decreases |d|
    {
      if |d| == 0 {
        return None;
      }
      if !IsStripChar(d[0]) {
        break;
      }
      d := d[1..];
    }
    assert d == LStrip(collapsed) && d != "";
    ghost var left := d;
    while IsStripChar(d[|d| - 1])
      invariant |d| > 0 && RStrip(d) == RStrip(left) && !IsStripChar(d[0])
      decreases |d|
    {
      assert |d| >= 2;
      d := d[..|d| - 1];
    }
    r := Some(d);
  }

  // ----- Properties -----

  /** A clean docstring: not empty, no newline, no tab, no two consecutive
      spaces, and neither starting nor ending with a quote, tab or space. */
  predicate IsClean(d: string) {
    |d| > 0 && '\n' !in d && '\t' !in d && !HasDoubleSpace(d)
    && !IsStripChar(d[0]) && !IsStripChar(d[|d| - 1])
  }

  /** What `add_docstr` stores is clean. */
  lemma DocCleanIsClean(s: string)
    requires DocClean(s).Some?
    ensures IsClean(DocClean(s).value)
  {
    StripsAreClean(DocCut(s));
  }

  lemma StripsAreClean(cut: string)
    requires LStrip(Flatten(cut)) != ""
    ensures var d := RStrip(LStrip(Flatten(cut)));
      |d| > 0 && '\n' !in d && '\t' !in d && !HasDoubleSpace(d)
      && !IsStripChar(d[0]) && !IsStripChar(d[|d| - 1])
  {
    var r1 := ReplaceChar(cut, '\n', ' ');
    var r2 := ReplaceChar(r1, '\t', ' ');
    forall i | 0 <= i < |r2| ensures r2[i] != '\n' && r2[i] != '\t' {
      assert r1[i] != '\n';
    }
    CollapseKeeps(r2, '\n');
    CollapseKeeps(r2, '\t');
    StripsKeepClean(Collapse(r2));
  }

  lemma StripsKeepClean(f: string)
    requires '\n' !in f && '\t' !in f && !HasDoubleSpace(f) && LStrip(f) != ""
    ensures var d := RStrip(LStrip(f));
      |d| > 0 && '\n' !in d && '\t' !in d && !HasDoubleSpace(d)
      && !IsStripChar(d[0]) && !IsStripChar(d[|d| - 1])
  {
    StripsKeepChar(f, '\n');
    StripsKeepChar(f, '\t');
    StripsKeepNoDouble(f);
    var l := LStrip(f);
    assert RStrip(l)[0] == l[0];
  }

  lemma StripsKeepChar(f: string, c: char)
    requires c !in f
    ensures c !in RStrip(LStrip(f))
  {
  }

  lemma StripsKeepNoDouble(f: string)
    requires !HasDoubleSpace(f)
    ensures !HasDoubleSpace(RStrip(LStrip(f)))
  {
    var l := LStrip(f);
    var d := RStrip(l);
    var k := |f| - |l|;
    NoDoubleSlice(f, k, |f|);
    assert f[k..|f|] == l;
    NoDoubleSlice(l, 0, |d|);
    assert l[0..|d|] == d;
  }

  /** A docstring written with single quotes only, such as `'''doc'''`, makes
      `add_docstr` raise: the index is -1, only the closing quote survives the
      cut, and the first strip loop runs out of characters. */
  lemma SingleQuotedDocstringRaises(s: string)
    requires |s| > 0 && '"' !in s && s[|s| - 1] == '\''
    ensures DocClean(s).None?
  {
    assert DocCut(s) == ['\''];
    assert Flatten(['\'']) == ['\''] by {
      assert !HasDoubleSpace(['\'']);
    }
  }

  /** A string without double quotes is cut down to its last character, which
      survives cleaning when it is not a quote, tab or space. */
  lemma NoDoubleQuoteKeepsLastChar(d: string)
    requires |d| > 0 && '"' !in d && !IsStripChar(d[|d| - 1]) && d[|d| - 1] != '\n'
    ensures DocClean(d) == Some([d[|d| - 1]])
  {
    var c := [d[|d| - 1]];
    assert DocCut(d) == c;
    assert ReplaceChar(c, '\n', ' ') == c;
    assert ReplaceChar(c, '\t', ' ') == c;
    assert !HasDoubleSpace(c);
  }

  /** A clean string of two or more characters without a double quote does
      not clean to itself. */
  lemma CutShortens(e: string)
    requires IsClean(e) && |e| >= 2 && '"' !in e
    ensures DocClean(e) != Some(e)
  {
    var last := e[|e| - 1];
    assert last in e;
    NoDoubleQuoteKeepsLastChar(e);
    assert |[last]| < |e|;
  }

  /** Cleaning is not idempotent: a cleaned docstring with an apostrophe and no
      double quote, such as `it's`, is cut down to its last character when
      cleaned again. */
  lemma CleanIsNotIdempotent(d: string, e: string)
    requires DocClean(d) == Some(e) && |e| >= 2 && '"' !in e
    ensures DocClean(e) != Some(e)
  {
    DocCleanIsClean(d);
    CutShortens(e);
  }
}
