/** The tokens that `gettok` hands to the parser.

    `gettok` returns an `int`: one of the negative `Token` enumerators, or
    (in principle) the code of a single character.  Alongside the code it
    leaves the identifier text in the global `IdStr` and the numeric value in
    `numVal`.  The parser sees both together, so a `Token` here carries the
    text that was in force when it was produced.
 */
module Tokens {

  // The enumerators of `enum Token`.
  const TokEof := -1
  const TokDef := -2
  const TokExtern := -3
  const TokIdentifier := -4
  const TokNumber := -5

  /** A code `gettok` can return: an enumerator or a character code. */
  predicate IsTokenCode(code: int) {
    TokNumber <= code <= TokEof || 0 <= code < 256
  }

  /** A token together with the lexeme it was produced with.  `Number`
      carries the literal text that `strtod` would convert. */
  datatype Token =
    | Eof
    | Def
    | Extern
    | Identifier(name: string)
    | Number(lexeme: string)
    | Char(c: char)

  /** The integer the C program stores in `curTok` for this token. */
  function Code(t: Token): (code: int)
    ensures code < 0 <==> !t.Char?
    ensures !t.Char? ==> TokNumber <= code <= TokEof
    ensures t.Char? ==> code == t.c as int
  {
    match t
    case Eof => TokEof
    case Def => TokDef
    case Extern => TokExtern
    case Identifier(_) => TokIdentifier
    case Number(_) => TokNumber
    case Char(c) => c as int
  }

  /** The token the parser sees after `gettok` returned `code` with the
      globals `IdStr` and `numVal` (here the literal `numText`). */
  function TokenOf(code: int, idStr: string, numText: string): (t: Token)
    requires IsTokenCode(code)
    ensures Code(t) == code
  {
    if code == TokEof then Eof
    else if code == TokDef then Def
    else if code == TokExtern then Extern
    else if code == TokIdentifier then Identifier(idStr)
    else if code == TokNumber then Number(numText)
    else Char(code as char)
  }

  /** Distinct tokens of different kinds have distinct codes, and the code
      together with the globals it was produced with determines the token. */
  lemma TokenOfCode(t: Token)
    requires !t.Char? || t.c as int < 256
    ensures IsTokenCode(Code(t))
    ensures t.Identifier? ==> TokenOf(Code(t), t.name, "") == t
    ensures t.Number? ==> TokenOf(Code(t), "", t.lexeme) == t
    ensures !t.Identifier? && !t.Number? ==> TokenOf(Code(t), "", "") == t
  {
  }
}
