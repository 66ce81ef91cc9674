/** The token stream the parser consumes.  Python's `tokenize` module is not
    modelled: its output is an abstract sequence of tokens, and "the generator
    is exhausted" is the cursor reaching the end of that sequence. */
module Tokens {
  import opened Basics

  /** The token types of Python's `tokenize` module. */
  datatype TokKind =
    | NameTok | NumberTok | StringTok | OpTok | NewlineTok | NlTok
    | CommentTok | IndentTok | DedentTok | EndMarkerTok | ErrorTok

  /** A token: its type, its text and its start position (line, column). */
  datatype Token = Token(kind: TokKind, text: string, line: int, col: int)

  /** The triple `(type, tok, indent)` that the cursor keeps as `current`. */
  datatype Cur = Cur(kind: TokKind, text: string, indent: int)

  function CurOf(t: Token): Cur {
    Cur(t.kind, t.text, t.col)
  }

  /** `current` after `q` tokens have been consumed; None before the first. */
  function CurrentAt(toks: seq<Token>, q: nat): (r: Option<Cur>)
    ensures r.Some? <==> 0 < q <= |toks|
  {
    if 0 < q <= |toks| then Some(CurOf(toks[q - 1])) else None
  }

  /** `line_nr` after `q` tokens have been consumed: the line of the last one. */
  function LineAt(toks: seq<Token>, q: nat): int {
    if 0 < q <= |toks| then toks[q - 1].line else 0
  }

  /** Text of the last consumed token (`tok` after `q` tokens). */
  function TextAt(toks: seq<Token>, q: nat): string {
    if 0 < q <= |toks| then toks[q - 1].text else ""
  }
}
