/** `indent_block` (parsing.py:42-48): every line of a text block gets the
    indention in front; the newlines that end the block are kept after the
    last line and get none. */
module Blocks {
  import opened Text
  import Nodes

  /** How many newlines end `text`. */
  function Trailing(text: string): (k: nat)
    ensures k <= |text|
    ensures forall i :: |text| - k <= i < |text| ==> text[i] == '\n'
    ensures k < |text| ==> text[|text| - k - 1] != '\n'
    decreases |text|
  {
    if |text| > 0 && text[|text| - 1] == '\n' then Trailing(text[..|text| - 1]) + 1 else 0
  }

  /** `map(lambda s: indention + s, lines)`. */
  function Prefixed(lines: seq<string>, indention: string): (r: seq<string>)
    ensures |r| == |lines|
    ensures forall i :: 0 <= i < |lines| ==> r[i] == indention + lines[i]
  {
    seq(|lines|, i requires 0 <= i < |lines| => indention + lines[i])
  }

  /** `indent_block(text, indention)`: the newlines that end the text come
      back unchanged at the end, and, for an indention without a newline, the
      lines before them are exactly the lines of the text, each with the
      indention in front. */
  function IndentBlock(text: string, indention: string): (r: string)
    ensures var k := Trailing(text);
      |r| >= k && r[|r| - k..] == text[|text| - k..]
    ensures '\n' !in indention ==>
      var k := Trailing(text);
      Split(r[..|r| - k], '\n') == Prefixed(Split(text[..|text| - k], '\n'), indention)
  {
    var k := Trailing(text);
    var lines := Split(text[..|text| - k], '\n');
    var b := Join(Prefixed(lines, indention), "\n");
    assert (b + text[|text| - k..])[..|b|] == b;
    assert '\n' !in indention ==> Split(b, '\n') == Prefixed(lines, indention) by {
      if '\n' !in indention {
        PrefixedFree(text[..|text| - k], indention);
        Nodes.SplitJoin(Prefixed(lines, indention), '\n');
      }
    }
    b + text[|text| - k..]
  }

  /** Every line without its first `n` characters. */
  function Unprefixed(lines: seq<string>, n: nat): (r: seq<string>)
    ensures |r| == |lines|
    ensures forall i :: 0 <= i < |lines| ==> r[i] == lines[i][if n <= |lines[i]| then n else |lines[i]|..]
  {
    seq(|lines|, i requires 0 <= i < |lines| => lines[i][if n <= |lines[i]| then n else |lines[i]|..])
  }

  /** The inverse reading: take the trailing newlines off, drop the first `n`
      characters of every line, and put the newlines back.  Dropping nothing
      gives the block back. */
  function Unindent(block: string, n: nat): (r: string)
    ensures n == 0 ==> r == block
  {
    var k := Trailing(block);
    var lines := Split(block[..|block| - k], '\n');
    assert n == 0 ==> Unprefixed(lines, n) == lines;
    JoinSplit(block[..|block| - k], '\n');
    assert block[..|block| - k] + block[|block| - k..] == block;
    Join(Unprefixed(lines, n), "\n") + block[|block| - k..]
  }

  /** The loop of `indent_block` that moves the trailing newlines to `temp`,
      then the split, the map and the join. */
  method IndentText(text: string, indention: string) returns (r: string)
    ensures r == IndentBlock(text, indention)
  {
    var temp := "";
    var t := text;
    while |t| > 0 && t[|t| - 1] == '\n'
      invariant t + temp == text && Trailing(text) == Trailing(t) + |temp|
      invariant forall i :: 0 <= i < |temp| ==> temp[i] == '\n'
      decreases |t|
    {
      assert [t[|t| - 1]] + temp == temp + [t[|t| - 1]];
      assert t == t[..|t| - 1] + [t[|t| - 1]];
      temp := temp + [t[|t| - 1]];
      t := t[..|t| - 1];
    }
    assert t == text[..|text| - |temp|] && temp == text[|text| - |temp|..];
    var lines := Split(t, '\n');
    r := Join(seq(|lines|, i requires 0 <= i < |lines| => indention + lines[i]), "\n") + temp;
  }

  // ----- properties -----

  /** No part of a split holds the separator. */
  lemma {:induction false} SplitPartsFree(s: string, c: char)
    ensures forall k :: 0 <= k < |Split(s, c)| ==> c !in Split(s, c)[k]
    decreases |s|
  {
    if |s| > 0 {
      SplitPartsFree(s[1..], c);
    }
  }

  /** Splitting and joining with the same character gives the string back. */
  lemma {:induction false} JoinSplit(s: string, c: char)
    ensures Join(Split(s, c), [c]) == s
    decreases |s|
  {
    if |s| > 0 {
      JoinSplit(s[1..], c);
      var rest := Split(s[1..], c);
      if s[0] == c {
        assert ([""] + rest)[1..] == rest;
        assert s == [c] + s[1..];
      } else {
        var ps := [[s[0]] + rest[0]] + rest[1..];
        assert ps[1..] == rest[1..];
        assert s == [s[0]] + s[1..];
      }
    }
  }

  /** A join ends with the last character of its last part. */
  lemma {:induction false} JoinLast(parts: seq<string>, sep: string)
    requires |parts| > 0 && |parts[|parts| - 1]| > 0
    ensures |Join(parts, sep)| > 0
    ensures Join(parts, sep)[|Join(parts, sep)| - 1] == parts[|parts| - 1][|parts[|parts| - 1]| - 1]
    decreases |parts|
  {
    if |parts| > 1 {
      JoinLast(parts[1..], sep);
    }
  }

  /** Appending newlines to a text that does not end in one counts them. */
  lemma {:induction false} TrailingAppend(body: string, nl: string)
    requires |body| == 0 || body[|body| - 1] != '\n'
    requires forall i :: 0 <= i < |nl| ==> nl[i] == '\n'
    ensures Trailing(body + nl) == |nl|
    decreases |nl|
  {
    if |nl| > 0 {
      assert (body + nl)[..|body + nl| - 1] == body + nl[..|nl| - 1];
      TrailingAppend(body, nl[..|nl| - 1]);
    } else {
      assert body + nl == body;
    }
  }

  /** With no indention the block comes back unchanged. */
  lemma IndentBlockEmpty(text: string)
    ensures IndentBlock(text, "") == text
  {
    var k := Trailing(text);
    var lines := Split(text[..|text| - k], '\n');
    assert forall i :: 0 <= i < |lines| ==> "" + lines[i] == lines[i];
    assert Prefixed(lines, "") == lines;
    JoinSplit(text[..|text| - k], '\n');
    assert text[..|text| - k] + text[|text| - k..] == text;
  }

  /** The indented lines of a body do not end in a newline. */
  lemma IndentedEnd(body: string, indention: string)
    requires |indention| > 0 && '\n' !in indention
    ensures var b := Join(Prefixed(Split(body, '\n'), indention), "\n");
      |b| > 0 && b[|b| - 1] != '\n'
  {
    var lines := Split(body, '\n');
    var ps := Prefixed(lines, indention);
    SplitPartsFree(body, '\n');
    var last := ps[|ps| - 1];
    JoinLast(ps, "\n");
    if |lines[|lines| - 1]| > 0 {
      assert last[|last| - 1] == lines[|lines| - 1][|lines[|lines| - 1]| - 1];
      assert lines[|lines| - 1][|lines[|lines| - 1]| - 1] in lines[|lines| - 1];
    } else {
      assert last[|last| - 1] == indention[|indention| - 1];
      assert indention[|indention| - 1] in indention;
    }
  }

  /** The lines of a body, each with an indention without newlines in front,
      hold no newline. */
  lemma PrefixedFree(body: string, indention: string)
    requires '\n' !in indention
    ensures forall i :: 0 <= i < |Split(body, '\n')| ==> '\n' !in Prefixed(Split(body, '\n'), indention)[i]
  {
    SplitPartsFree(body, '\n');
  }

  /** Dropping the indention from every indented line gives the lines back. */
  lemma UnprefixPrefixed(lines: seq<string>, indention: string)
    ensures Unprefixed(Prefixed(lines, indention), |indention|) == lines
  {
    var u := Unprefixed(Prefixed(lines, indention), |indention|);
    forall i | 0 <= i < |lines| ensures u[i] == lines[i] {
      assert (indention + lines[i])[|indention|..] == lines[i];
    }
  }

  lemma UnindentAt(block: string, n: nat, k: nat)
    requires Trailing(block) == k
    ensures Unindent(block, n) == Join(Unprefixed(Split(block[..|block| - k], '\n'), n), "\n") + block[|block| - k..]
  {
  }

  /** Indenting by a non-empty indention without newlines keeps the number of
      trailing newlines. */
  lemma IndentBlockTrailing(text: string, indention: string)
    requires |indention| > 0 && '\n' !in indention
    ensures Trailing(IndentBlock(text, indention)) == Trailing(text)
  {
    var k := Trailing(text);
    var body := text[..|text| - k];
    var nl := text[|text| - k..];
    var b := Join(Prefixed(Split(body, '\n'), indention), "\n");
    IndentedEnd(body, indention);
    TrailingAppend(b, nl);
    assert b + nl == IndentBlock(text, indention);
  }

  /** An indention without newlines is undone by Unindent: every line of the
      block is the indention followed by the line it came from, and the
      trailing newlines are exactly those of the text. */
  lemma IndentBlockRoundTrip(text: string, indention: string)
    requires |indention| > 0 && '\n' !in indention
    ensures Trailing(IndentBlock(text, indention)) == Trailing(text)
    ensures Unindent(IndentBlock(text, indention), |indention|) == text
  {
    var k := Trailing(text);
    var body := text[..|text| - k];
    var lines := Split(body, '\n');
    var nl := text[|text| - k..];
    var out := IndentBlock(text, indention);
    IndentBlockTrailing(text, indention);
    UnindentAt(out, |indention|, k);
    var outLines := Split(out[..|out| - k], '\n');
    assert outLines == Prefixed(lines, indention);
    UnprefixPrefixed(lines, indention);
    JoinSplit(body, '\n');
    calc {
      Unindent(out, |indention|);
      Join(Unprefixed(outLines, |indention|), "\n") + out[|out| - k..];
      Join(lines, "\n") + nl;
      body + nl;
      { assert body + nl == text; }
      text;
    }
  }
}
