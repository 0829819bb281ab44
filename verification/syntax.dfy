/**
  The syntax-tree shapes the rule inspects, as a closed variant type in
  place of untyped ESTree objects. Only the properties the rule reads are
  kept; every other node kind is folded into `OtherExpr` / `OtherStatement`.
 */
module Syntax {
  import opened Wrappers

  datatype Expr =
    | Identifier(name: string)
      /** A literal whose `value` is the string `value`. */
    | Literal(value: string)
      /** A literal whose `value` is not a string (a number, `true`, `null`, a
          regular expression); only its JavaScript truthiness matters to the rule. */
    | NonStringLiteral(truthy: bool)
    | CallExpression(callee: Expr, arguments: seq<Expr>)
      /** `import(source)`. */
    | ImportExpression(source: Expr)
      /** Any node that has a `body`: an arrow, function or class expression.
          A block body or a `ClassBody` is any `body` that is not an
          `ImportExpression`, for example `FunctionExpression(OtherExpr)`. */
    | FunctionExpression(body: Expr)
      /** Any other node. As a lazy loader's argument it is a node without a
          `body`; as a `body` it is any node that is not an `ImportExpression`,
          such as a `BlockStatement` or a `ClassBody`. */
    | OtherExpr

  /** One binding of a `const`/`let`/`var` statement; `init` is absent for `let x;`. */
  datatype Declarator = Declarator(init: Option<Expr>)

  /**
    A statement. `statementSource` is the `source` property read directly
    off an expression statement or variable declaration: ESTree gives
    those node kinds no such property, which is `None` here.
   */
  datatype Statement =
    | ImportDeclaration(source: string)
    | ExpressionStatement(expression: Expr, statementSource: Option<string>)
    | VariableDeclaration(declarations: seq<Declarator>, statementSource: Option<string>)
    | OtherStatement

  /** `e.type === "CallExpression" && e.callee.type === "Identifier" && e.callee.name === name`. */
  predicate IsCallTo(e: Expr, name: string) {
    e.CallExpression? && e.callee.Identifier? && e.callee.name == name
  }

  /** `d.init && <d.init is a call to name>`. */
  predicate InitCalls(d: Declarator, name: string) {
    d.init.Some? && IsCallTo(d.init.value, name)
  }
}
