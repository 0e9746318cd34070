/**
 * The fragment of Python's abstract syntax tree that the migration extractor
 * inspects. Everything the extractor does not look at collapses into
 * `OtherExpr` / `OtherStmt`, and every non-string constant into `NonStr`.
 */
module PySyntax {
  import opened Wrappers

  /** The payload of an `ast.Constant`: a string, or any other constant. */
  datatype Literal = Str(s: string) | NonStr

  datatype Expr =
    | Constant(value: Literal)
    | Name(id: string)
    | Attribute(base: Expr, attr: string)  // `base.attr`; Python calls `base` `value`
    | Call(func: Expr, args: seq<Expr>, keywords: seq<Keyword>)
    | List(elts: seq<Expr>)
    | Tuple(elts: seq<Expr>)
    | OtherExpr

  /** `ast.keyword`; `arg` is `None` for a `**kwargs` argument. */
  datatype Keyword = Keyword(arg: Option<string>, value: Expr)

  datatype Stmt =
    | ClassDef(name: string, body: seq<Stmt>)
    | Assign(targets: seq<Expr>, value: Expr)
    | OtherStmt

  /** `ast.Module`: the parsed file. */
  datatype Module = Module(body: seq<Stmt>)
}
