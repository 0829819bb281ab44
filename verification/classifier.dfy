/**
  The statement classifier (`getImportStatement`, index.js:14-59): decides
  whether one statement loads a module and, if so, which specifier.
  Where the JavaScript reads a property of `undefined` it throws a
  TypeError; that outcome is `Crash` here rather than being ruled out.
 */
module Classifier {
  import opened Wrappers
  import opened Syntax
  import opened Search

  /**
    The classifier's answer: a specifier string, a `value` that is not a
    string (from a non-string literal inside a lazy `import(...)`), "not an
    import" (the `false` or `undefined` the function returns), or a thrown
    TypeError.
   */
  datatype Classification = Specifier(value: string) | NonStringValue(truthy: bool) | NotImport | Crash

  /** Callees recognised as lazy loaders wrapping a dynamic import. */
  const LazyNames: seq<string> := ["lazy", "lazyWithRetry", "lazily", "lazilyWithRetry"]

  /** `node.source.value` on a statement: an absent `source` throws. */
  function ReadSource(source: Option<string>): Classification {
    match source
    case Some(v) => Specifier(v)
    case None => Crash
  }

  /** What the lazy-loader test of `find` makes of one binding. */
  datatype Probe =
      /** The test passes; `importSource` is the `source` of the wrapped `import(...)`. */
    | Hit(importSource: Expr)
      /** The test returns false. */
    | Miss
      /** The test reads `.type` of the missing `body` of the first argument. */
    | Throws

  function LazyProbe(d: Declarator): Probe {
    match d.init
    case Some(CallExpression(Identifier(name), args)) =>
      if name in LazyNames && |args| > 0 then
        match args[0]
        case FunctionExpression(body) =>
          if body.ImportExpression? then Hit(body.source) else Miss
        case _ => Throws
      else Miss
    case _ => Miss
  }

  /** The lazy-loader search stops at a binding: it either matches or throws. */
  predicate StopsSearch(d: Declarator) {
    !LazyProbe(d).Miss?
  }

  /** `.source.value` of the wrapped import: only a literal source has a `value`. */
  function ImportedValue(source: Expr): Classification {
    match source
    case Literal(v) => Specifier(v)
    case NonStringLiteral(truthy) => NonStringValue(truthy)
    case _ => NotImport
  }

  /** What the classifier returns once the search has stopped at a binding. */
  function StopOutcome(p: Probe): Classification {
    match p
    case Hit(source) => ImportedValue(source)
    case Throws => Crash
    case Miss => NotImport
  }

  /**
    `declarations.find(<lazy test>)` followed by `dec?.init.arguments[0].body.source.value`
    (index.js:49-56): the first binding, in declaration order, at which the
    test passes or throws decides; with no such binding the result is
    `undefined`.
   */
  function LazySearch(decls: seq<Declarator>): (c: Classification)
    ensures NoneSatisfy(decls, StopsSearch) ==> c == NotImport
    ensures forall i | IsFirst(decls, StopsSearch, i) :: c == StopOutcome(LazyProbe(decls[i]))
    ensures c.Specifier? ==>
      exists i | 0 <= i < |decls| :: LazyProbe(decls[i]) == Hit(Literal(c.value))
    ensures c.Crash? ==> exists i | 0 <= i < |decls| :: LazyProbe(decls[i]).Throws?
    ensures c.NonStringValue? ==>
      exists i | 0 <= i < |decls| :: LazyProbe(decls[i]) == Hit(NonStringLiteral(c.truthy))
  {
    if |decls| == 0 then NotImport
    else
      match LazyProbe(decls[0])
      case Miss =>
        assert forall i | IsFirst(decls, StopsSearch, i) :: IsFirst(decls[1..], StopsSearch, i - 1);
        LazySearch(decls[1..])
      case Throws => Crash
      case Hit(source) => ImportedValue(source)
  }

  /** Some binding is initialised by a call to the bare identifier `require` or `import`. */
  predicate HasLoaderBinding(decls: seq<Declarator>) {
    exists i | 0 <= i < |decls| :: InitCalls(decls[i], "require") || InitCalls(decls[i], "import")
  }

  /** `getImportStatement(node)`. */
  function Classify(node: Statement): (c: Classification)
    // A static import yields its own source; unrecognised statements are not imports.
    ensures node.ImportDeclaration? ==> c == Specifier(node.source)
    ensures node.OtherStatement? ==> c == NotImport
    // A call statement or a loader binding yields the STATEMENT's source,
    // never an argument of the call.
    ensures node.ExpressionStatement? ==>
      if IsCallTo(node.expression, "import") || IsCallTo(node.expression, "require")
      then c == ReadSource(node.statementSource) else c == NotImport
    ensures node.VariableDeclaration? && HasLoaderBinding(node.declarations) ==>
      c == ReadSource(node.statementSource)
    // Otherwise the first lazy-loader binding in declaration order decides.
    ensures node.VariableDeclaration? && !HasLoaderBinding(node.declarations) ==>
      && (NoneSatisfy(node.declarations, StopsSearch) ==> c == NotImport)
      && forall i | IsFirst(node.declarations, StopsSearch, i) ::
           c == StopOutcome(LazyProbe(node.declarations[i]))
    // It throws only on a missing statement source or a lazy argument without a body.
    ensures c.Crash? ==>
      || ((node.ExpressionStatement? || node.VariableDeclaration?) && node.statementSource.None?)
      || (node.VariableDeclaration? &&
          exists i | 0 <= i < |node.declarations| :: LazyProbe(node.declarations[i]).Throws?)
    // The specifier is never invented: it is a source string present in the node.
    ensures c.Specifier? ==>
      || (node.ImportDeclaration? && c.value == node.source)
      || ((node.ExpressionStatement? || node.VariableDeclaration?) && node.statementSource == Some(c.value))
      || (node.VariableDeclaration? &&
          exists i | 0 <= i < |node.declarations| :: LazyProbe(node.declarations[i]) == Hit(Literal(c.value)))
    // A value that is not a string comes only from a lazy loader's literal.
    ensures c.NonStringValue? ==>
      && node.VariableDeclaration?
      && exists i | 0 <= i < |node.declarations| ::
           LazyProbe(node.declarations[i]) == Hit(NonStringLiteral(c.truthy))
  {
    match node
    case ImportDeclaration(source) => Specifier(source)
    case ExpressionStatement(expression, statementSource) =>
      if IsCallTo(expression, "import") then ReadSource(statementSource)
      else if IsCallTo(expression, "require") then ReadSource(statementSource)
      else NotImport
    case VariableDeclaration(decls, statementSource) =>
      if exists i | 0 <= i < |decls| :: InitCalls(decls[i], "require") then ReadSource(statementSource)
      else if exists i | 0 <= i < |decls| :: InitCalls(decls[i], "import") then ReadSource(statementSource)
      else LazySearch(decls)
    case OtherStatement => NotImport
  }

  /**
    An ESTree `require("x");` statement has no statement-level `source`, so the
    classifier throws instead of reporting the specifier "x".
   */
  lemma BareRequireWithoutSourceCrashes()
    ensures Classify(ExpressionStatement(CallExpression(Identifier("require"), [Literal("x")]), None)) == Crash
  {
  }

  /**
    ESTree parses `import("x")` as an `ImportExpression`, not as a call of an
    identifier named `import`. So a top-level dynamic import, as a statement or
    as a binding's initialiser, is not an import and does not throw.
   */
  lemma TopLevelDynamicImportSkipped(spec: string)
    ensures Classify(ExpressionStatement(ImportExpression(Literal(spec)), None)) == NotImport
    ensures Classify(VariableDeclaration([Declarator(Some(ImportExpression(Literal(spec))))], None)) == NotImport
  {
    var decls := [Declarator(Some(ImportExpression(Literal(spec))))];
    assert !HasLoaderBinding(decls);
  }
}
