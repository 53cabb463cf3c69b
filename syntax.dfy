/** The abstract syntax tree the parser builds (the `ExprAST` hierarchy,
    `PrototypeAST` and `FunctionAST`).  Ownership through `unique_ptr` is
    what a datatype gives for free, so each class becomes a constructor. */
module Syntax {

  /** An expression.  A number carries the literal text of its token, in
      place of the `double` that `strtod` makes of it. */
  datatype Expr =
    | Number(lexeme: string)
    | Variable(name: string)
    | Binary(op: char, lhs: Expr, rhs: Expr)
    | Call(callee: string, args: seq<Expr>)

  /** A function's name and the names of its parameters; `getname` is
      the field `name`. */
  datatype Prototype = Prototype(name: string, params: seq<string>)

  /** A function definition: its prototype and its body. */
  datatype Function = Function(proto: Prototype, body: Expr)
}
