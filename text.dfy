/** String operations of Python's `str` used by the parser, on `seq<char>`. */
module Text {

  /** `sep.join(parts)`. */
  function Join(parts: seq<string>, sep: string): string
    decreases |parts|
  {
    if |parts| == 0 then ""
    else if |parts| == 1 then parts[0]
    else parts[0] + sep + Join(parts[1..], sep)
  }

  /** `s.split(c)` for a one-character separator: never empty. */
  function Split(s: string, c: char): (r: seq<string>)
    ensures |r| >= 1
    decreases |s|
  {
    if |s| == 0 then [""]
    else
      var rest := Split(s[1..], c);
      if s[0] == c then [""] + rest else [[s[0]] + rest[0]] + rest[1..]
  }

  /** `s.find(c)` for one character: the first index of `c`, or -1. */
  function Find(s: string, c: char): (r: int)
    ensures -1 <= r < |s|
    ensures r == -1 <==> c !in s
    ensures r >= 0 ==> s[r] == c && c !in s[..r]
    decreases |s|
  {
    if |s| == 0 then -1
    else if s[0] == c then 0
    else
      var k := Find(s[1..], c);
      assert s[1..][..if k >= 0 then k else 0] == s[1..1 + if k >= 0 then k else 0];
      if k == -1 then -1 else k + 1
  }

  /** `s.replace(a, b)` for one-character strings. */
  function ReplaceChar(s: string, a: char, b: char): (r: string)
    ensures |r| == |s|
    ensures forall i :: 0 <= i < |s| ==> r[i] == (if s[i] == a then b else s[i])
    decreases |s|
  {
    if |s| == 0 then "" else [if s[0] == a then b else s[0]] + ReplaceChar(s[1..], a, b)
  }

  /** `s.find('  ') > -1`: the string holds two consecutive spaces. */
  predicate HasDoubleSpace(s: string)
    decreases |s|
  {
    |s| >= 2 && ((s[0] == ' ' && s[1] == ' ') || HasDoubleSpace(s[1..]))
  }

  /** `s.replace('  ', ' ')`: every non-overlapping pair of spaces, scanned left to
      right, becomes one space. */
  function ReplaceDouble(s: string): string
    decreases |s|
  {
    if |s| == 0 then ""
    else if |s| >= 2 && s[0] == ' ' && s[1] == ' ' then " " + ReplaceDouble(s[2..])
    else [s[0]] + ReplaceDouble(s[1..])
  }

  lemma {:induction false} ReplaceDoubleShrinks(s: string)
    ensures |ReplaceDouble(s)| <= |s|
    ensures HasDoubleSpace(s) ==> |ReplaceDouble(s)| < |s|
    decreases |s|
  {
    if |s| == 0 {
    } else if |s| >= 2 && s[0] == ' ' && s[1] == ' ' {
      ReplaceDoubleShrinks(s[2..]);
    } else {
      ReplaceDoubleShrinks(s[1..]);
    }
  }

  /** Characters of `s` other than space are kept, in order, by ReplaceDouble. */
  lemma {:induction false} ReplaceDoubleKeeps(s: string, c: char)
    requires c != ' '
    ensures c in ReplaceDouble(s) <==> c in s
    decreases |s|
  {
    if |s| == 0 {
    } else if |s| >= 2 && s[0] == ' ' && s[1] == ' ' {
      ReplaceDoubleKeeps(s[2..], c);
      assert s == [s[0], s[1]] + s[2..];
    } else {
      ReplaceDoubleKeeps(s[1..], c);
      assert s == [s[0]] + s[1..];
    }
  }

  /** The `while d.find('  ') > -1: d = d.replace('  ', ' ')` loop, as a function. */
  function Collapse(s: string): (r: string)
    ensures !HasDoubleSpace(r)
    decreases |s|
  {
    ReplaceDoubleShrinks(s);
    if HasDoubleSpace(s) then Collapse(ReplaceDouble(s)) else s
  }

  lemma {:induction false} CollapseKeeps(s: string, c: char)
    requires c != ' '
    ensures c in Collapse(s) <==> c in s
    decreases |s|
  {
    ReplaceDoubleShrinks(s);
    if HasDoubleSpace(s) {
      ReplaceDoubleKeeps(s, c);
      CollapseKeeps(ReplaceDouble(s), c);
    }
  }

  /** A slice of a string without two consecutive spaces has none either. */
  lemma {:induction false} NoDoubleSlice(s: string, i: nat, j: nat)
    requires i <= j <= |s| && !HasDoubleSpace(s)
    ensures !HasDoubleSpace(s[i..j])
    decreases |s|
  {
    if i > 0 {
      NoDoubleSlice(s[1..], i - 1, j - 1);
      assert s[1..][i - 1..j - 1] == s[i..j];
    } else if j < |s| {
      NoDoublePrefix(s);
      NoDoubleSlice(s[..|s| - 1], 0, j);
      assert s[..|s| - 1][0..j] == s[i..j];
    } else {
      assert s[i..j] == s;
    }
  }

  lemma {:induction false} NoDoublePrefix(s: string)
    requires |s| > 0 && !HasDoubleSpace(s)
    ensures !HasDoubleSpace(s[..|s| - 1])
    decreases |s|
  {
    if |s| > 2 {
      NoDoublePrefix(s[1..]);
      assert s[1..][..|s| - 2] == s[..|s| - 1][1..];
    }
  }
}
