/** The fragment of a parsed Java compilation unit that the accessor rewriter
    inspects and changes. Everything the rewriter never looks at is folded
    into an `Other…` case. */
module Ast {

  datatype Option<+T> = None | Some(value: T)

  /** The operator of an assignment expression: plain `=` or a compound one
      such as `+=` (both are the same expression kind in the parser). */
  datatype AssignOp = Plain | Compound(symbol: string)

  datatype Expr =
    | This                                              // `this`
    | Name(id: string)                                  // a bare identifier
    | FieldAccess(scope: Expr, field: string)           // `scope.field`
    | Assign(target: Expr, op: AssignOp, value: Expr)   // `target op value`
    | OtherExpr                                         // literals, calls, operators, ...

  datatype Stmt =
    | Return(result: Option<Expr>)                      // `return e;` or `return;`
    | ExprStmt(expr: Expr)                              // `e;`
    | OtherStmt                                         // if, while, blocks, ...

  /** A method declaration: its name, the names of its parameters and its
      body (`None` for an abstract, interface or native method). */
  datatype Method = Method(name: string, params: seq<string>, body: Option<seq<Stmt>>)

  /** A field declaration: the variables it declares (`int a, b;` declares
      two) and the names of its annotations, in source order. */
  datatype Field = Field(vars: seq<string>, annotations: seq<string>)

  /** A class or interface declaration with its own fields and methods. */
  datatype Class = Class(name: string, fields: seq<Field>, methods: seq<Method>)

  /** A compilation unit: every class or interface declaration it contains,
      in the pre-order in which a tree search finds them, and its imports. */
  datatype Unit = Unit(classes: seq<Class>, imports: seq<string>)
}
