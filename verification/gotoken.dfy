/** The part of go/token and go/scanner the rewriters rely on. The scanner itself
    is not modelled: a source file is given together with the tokens the scanner
    returns for it, in order, the last one being EOF. */
module GoToken {

  /** go/token.Token, grouped the way its predicates group it. */
  datatype Kind =
    | EOF
    | Illegal
    | Comment
    | Ident
    | Int
    | Float
    | Imag
    | Char
    | String
    | Operator(op: string)
    | Keyword(kw: string)

  /** token.IsLiteral: identifiers and basic literals. */
  predicate IsLiteral(k: Kind)
  {
    k.Ident? || k.Int? || k.Float? || k.Imag? || k.Char? || k.String?
  }

  /** token.IsOperator: operators and delimiters, the semicolon included. */
  predicate IsOperator(k: Kind)
  {
    k.Operator?
  }

  predicate IsKeyword(k: Kind)
  {
    k.Keyword?
  }

  const LParen := Operator("(")
  const RParen := Operator(")")
  const LBrack := Operator("[")
  const RBrack := Operator("]")
  const LBrace := Operator("{")
  const RBrace := Operator("}")
  const Comma := Operator(",")
  const Colon := Operator(":")
  const Semicolon := Operator(";")
  const Period := Operator(".")

  /** One result of Scanner.Scan: the byte offset of the token (its token.Pos is
      one more, the file being the first of its file set), its kind and its
      literal text. Operators have an empty literal, except a semicolon, whose
      literal is ";" when written and "\n" when the scanner inserted it. */
  datatype Token = Token(offset: int, kind: Kind, lit: string)

  /** What Scan returns once the tokens are exhausted: EOF at the end of the source. */
  function ScanAt(toks: seq<Token>, srcLen: nat, k: nat): Token
  {
    if k < |toks| then toks[k] else Token(srcLen, EOF, "")
  }

  /** The scanner's output for a source of `srcLen` bytes: offsets never go backwards
      and stay inside the source, and only the last token is EOF. */
  predicate Scanned(toks: seq<Token>, srcLen: nat)
  {
    |toks| > 0 && toks[|toks| - 1] == Token(srcLen, EOF, "") &&
    (forall k :: 0 <= k < |toks| - 1 ==> !toks[k].kind.EOF?) &&
    (forall k :: 0 <= k < |toks| ==> 0 <= toks[k].offset <= srcLen) &&
    (forall j, k :: 0 <= j < k < |toks| ==> toks[j].offset <= toks[k].offset)
  }

  /** An identifier's literal is the source text at its offset. */
  predicate Spelled(src: string, toks: seq<Token>)
  {
    forall k :: 0 <= k < |toks| && toks[k].kind.Ident? ==>
      0 <= toks[k].offset && toks[k].offset + |toks[k].lit| <= |src| &&
      src[toks[k].offset..toks[k].offset + |toks[k].lit|] == toks[k].lit
  }

  /** token.Token.String() for operators and keywords: their spelling. */
  function Spelling(k: Kind): string
    requires IsOperator(k) || IsKeyword(k)
  {
    if k.Operator? then k.op else k.kw
  }
}
