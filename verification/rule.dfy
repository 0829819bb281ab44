/**
  The `":statement"` handler of the `no-cross-imports` rule
  (index.js:62-99), lifted into a pure function from one statement and
  its context to the rule's outcome for that statement.
 */
module Rule {
  import opened Wrappers
  import opened Syntax
  import opened Classifier
  import opened Domains

  /** What the handler does for one statement: report it, return silently, or throw. */
  datatype Verdict = Reported | Silent | Threw

  /** JavaScript truthiness of an optional string: present and non-empty. */
  predicate Truthy(v: Option<string>) {
    v.Some? && v.value != ""
  }

  /**
    The handler for one statement. `config` is `compilerOptions.paths` of
    tsconfig.json, `None` when the file is missing, unparsable or falsy;
    `ignored` is the rule's single option (an absent option behaves as the
    empty list); `rel` is `path.relative(cwd, _)`.
   */
  function Check(config: Option<seq<Domain>>, node: Statement, filename: string,
                 ignored: seq<string>, rel: string -> string): (v: Verdict)
    // Without a configuration nothing is inspected.
    ensures config.None? ==> v == Silent
    // The handler throws when the classifier does, and when a truthy value that
    // is not a string reaches the first `startsWith` of the domain lookup.
    ensures v == Threw <==>
      && config.Some?
      && (Classify(node).Crash? || (Classify(node) == NonStringValue(true) && |config.value| > 0))
    // A statement that is not an import, or names the empty specifier, is never reported.
    ensures !(Classify(node).Specifier? && Classify(node).value != "") ==> v != Reported
    // Both directions of the report decision, in terms of the two resolved domains.
    ensures config.Some? && Classify(node).Specifier? && Classify(node).value != "" ==>
      var own := OwnDomain(config.value, rel(filename), rel);
      var imported := ImportDomain(config.value, Classify(node).value);
      && (imported.None? ==> v == Silent)
      && (imported == Some("") ==> v == Silent)
      && (imported == own ==> v == Silent)
      && (imported.Some? && imported.value in ignored ==> v == Silent)
      && (Truthy(imported) && imported != own && imported.value !in ignored ==> v == Reported)
  {
    if config.None? then Silent
    else
      match Classify(node)
      case Crash => Threw
      case NotImport => Silent
      case NonStringValue(truthy) =>
        // `importPath.startsWith` is called on the first alias key, or failing
        // that on the first entry's path: any entry at all makes it throw.
        if truthy && |config.value| > 0 then Threw else Silent
      case Specifier(importPath) =>
        if importPath == "" then Silent
        else
          var ownDomain := OwnDomain(config.value, rel(filename), rel);
          var importDomain := ImportDomain(config.value, importPath);
          if Truthy(importDomain) && importDomain != ownDomain && importDomain.value !in ignored
          then Reported
          else Silent
  }

  /**
    ESLint's traversal: `handler` is called on each statement in order, and
    a TypeError thrown by it propagates out of the traversal, so the run of
    outcomes stops at the first `Threw`.
   */
  function Traverse(handler: Statement -> Verdict, nodes: seq<Statement>): seq<Verdict> {
    if |nodes| == 0 then []
    else if handler(nodes[0]) == Threw then [Threw]
    else [handler(nodes[0])] + Traverse(handler, nodes[1..])
  }

  /**
    The traversal lists each visited statement's own outcome, in order; only
    the last one visited may throw, and it ends early only because it did.
   */
  lemma {:induction false} TraverseVisitsUntilThrow(handler: Statement -> Verdict, nodes: seq<Statement>)
    ensures var vs := Traverse(handler, nodes);
      && |vs| <= |nodes|
      && (forall i | 0 <= i < |vs| :: vs[i] == handler(nodes[i]))
      && (forall i | 0 <= i < |vs| - 1 :: vs[i] != Threw)
      && (|vs| < |nodes| ==> 0 < |vs| && vs[|vs| - 1] == Threw)
  {
    if |nodes| > 0 && handler(nodes[0]) != Threw {
      TraverseVisitsUntilThrow(handler, nodes[1..]);
    }
  }

  /** Traversing a run with one more statement in front. */
  lemma TraverseCons(handler: Statement -> Verdict, x: Statement, s: seq<Statement>)
    ensures Traverse(handler, [x] + s)
         == if handler(x) == Threw then [Threw] else [handler(x)] + Traverse(handler, s)
  {
    assert ([x] + s)[0] == x;
    assert ([x] + s)[1..] == s;
  }

  /** A run that does not throw passes its first statement and does not throw afterwards. */
  lemma TraverseHeadPasses(handler: Statement -> Verdict, a: seq<Statement>)
    requires |a| > 0 && Threw !in Traverse(handler, a)
    ensures handler(a[0]) != Threw
    ensures Traverse(handler, a) == [handler(a[0])] + Traverse(handler, a[1..])
    ensures Threw !in Traverse(handler, a[1..])
  {
    assert a == [a[0]] + a[1..];
    TraverseCons(handler, a[0], a[1..]);
    var rest := Traverse(handler, a[1..]);
    assert forall i | 0 <= i < |rest| :: rest[i] == ([handler(a[0])] + rest)[i + 1];
  }

  /** A first run that completes without throwing is followed by the second run. */
  lemma {:induction false} TraverseContinues(handler: Statement -> Verdict, a: seq<Statement>, b: seq<Statement>)
    requires Threw !in Traverse(handler, a)
    ensures Traverse(handler, a + b) == Traverse(handler, a) + Traverse(handler, b)
  {
    if |a| == 0 {
      assert a + b == b;
    } else {
      var x, t := a[0], a[1..];
      TraverseHeadPasses(handler, a);
      assert a + b == [x] + (t + b);
      TraverseCons(handler, x, t + b);
      TraverseContinues(handler, t, b);
      var v, rest := handler(x), Traverse(handler, t);
      assert [v] + rest + Traverse(handler, b) == [v] + (rest + Traverse(handler, b));
    }
  }

  /** A first run that throws ends the traversal: the second run is never visited. */
  lemma {:induction false} TraverseStops(handler: Statement -> Verdict, a: seq<Statement>, b: seq<Statement>)
    requires Threw in Traverse(handler, a)
    ensures Traverse(handler, a + b) == Traverse(handler, a)
  {
    var x, t := a[0], a[1..];
    assert a == [x] + t;
    assert a + b == [x] + (t + b);
    TraverseCons(handler, x, t);
    TraverseCons(handler, x, t + b);
    if handler(x) != Threw {
      TraverseStops(handler, t, b);
    }
  }

  /** The rule's `":statement"` listener for one file, as a function of the statement. */
  function Handler(config: Option<seq<Domain>>, filename: string,
                   ignored: seq<string>, rel: string -> string): Statement -> Verdict {
    node => Check(config, node, filename, ignored, rel)
  }

  /**
    The handler keeps no state between statements: the outcomes for a
    file's statements are each statement's own outcome, in traversal order,
    up to and including the first one that throws.
   */
  function CheckAll(config: Option<seq<Domain>>, nodes: seq<Statement>, filename: string,
                    ignored: seq<string>, rel: string -> string): (vs: seq<Verdict>)
    ensures |vs| <= |nodes|
    ensures forall i | 0 <= i < |vs| :: vs[i] == Check(config, nodes[i], filename, ignored, rel)
    // Only the last statement visited may throw ...
    ensures forall i | 0 <= i < |vs| - 1 :: vs[i] != Threw
    // ... and the traversal ends early only because it did.
    ensures |vs| < |nodes| ==> 0 < |vs| && vs[|vs| - 1] == Threw
  {
    TraverseVisitsUntilThrow(Handler(config, filename, ignored, rel), nodes);
    Traverse(Handler(config, filename, ignored, rel), nodes)
  }

  /**
    Checking two runs of statements one after the other is checking their
    concatenation: the second run is visited only if the first did not throw.
   */
  lemma CheckAllSplits(config: Option<seq<Domain>>, a: seq<Statement>, b: seq<Statement>,
                       filename: string, ignored: seq<string>, rel: string -> string)
    ensures CheckAll(config, a + b, filename, ignored, rel)
         == if Threw in CheckAll(config, a, filename, ignored, rel)
            then CheckAll(config, a, filename, ignored, rel)
            else CheckAll(config, a, filename, ignored, rel) + CheckAll(config, b, filename, ignored, rel)
  {
    var h := Handler(config, filename, ignored, rel);
    if Threw in Traverse(h, a) {
      TraverseStops(h, a, b);
    } else {
      TraverseContinues(h, a, b);
    }
  }
}
