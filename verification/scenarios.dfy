/**
  Worked configurations: the rule's behaviour on small, concrete tsconfig
  path tables. `path.relative` stays a parameter `rel`; each scenario
  states only what it needs of it (that `./src/ui` is `src/ui` relative
  to cwd, say).
 */
module Scenarios {
  import opened Wrappers
  import opened Strings
  import opened Search
  import opened Syntax
  import opened Classifier
  import opened Domains
  import opened Rule

  /** {"@core": ["./src/core"], "@ui": ["./src/ui"]} */
  const CoreAndUi: seq<Domain> :=
    [Domain("@core", "./src/core", []), Domain("@ui", "./src/ui", [])]

  /** `path.relative` from the project root, on the two configured paths. */
  predicate RelativeFromRoot(rel: string -> string) {
    rel("./src/core") == "src/core" && rel("./src/ui") == "src/ui"
  }

  /** The "@core" entry answers "@core" and points at "./src/core". */
  lemma CoreEntry()
    ensures DomainName(CoreAndUi[0]) == "@core"
    ensures StripWildcard(CoreAndUi[0].firstPath) == "./src/core"
  {
    StripWildcardWithoutStar("@core");
    StripWildcardWithoutStar("./src/core");
  }

  /** The "@ui" entry answers "@ui" and points at "./src/ui". */
  lemma UiEntry()
    ensures DomainName(CoreAndUi[1]) == "@ui"
    ensures StripWildcard(CoreAndUi[1].firstPath) == "./src/ui"
  {
    StripWildcardWithoutStar("@ui");
    StripWildcardWithoutStar("./src/ui");
  }

  /** A file whose relative path lies under `src/ui/` is owned by `@ui` and not by `@core`. */
  lemma UiFileOwners(rel: string -> string, own: string)
    requires RelativeFromRoot(rel) && StartsWith(own, "src/ui/")
    ensures !Owns(CoreAndUi[0], own, rel)
    ensures Owns(CoreAndUi[1], own, rel)
  {
    CoreEntry();
    UiEntry();
    DiffersAt(own, "src/core", 4);
    assert own[..6] == "src/ui";
  }

  /** Every file under `src/ui/` belongs to `@ui`, the second declared domain. */
  lemma UiFilesOwnedByUi(rel: string -> string, own: string)
    requires RelativeFromRoot(rel) && StartsWith(own, "src/ui/")
    ensures OwnDomain(CoreAndUi, own, rel) == Some("@ui")
  {
    UiFileOwners(rel, own);
    UiEntry();
    assert IsFirst(CoreAndUi, OwnerTest(own, rel), 1);
  }

  /** Every specifier under the `@core` alias resolves to `@core` in phase 1. */
  lemma CoreSpecifiersInCore(spec: string)
    requires StartsWith(spec, "@core")
    ensures ImportDomain(CoreAndUi, spec) == Some("@core")
  {
    CoreEntry();
    assert AliasMatches(CoreAndUi[0], spec);
    assert IsFirst(CoreAndUi, AliasTest(spec), 0);
  }

  /** `import x from "@core/helpers"` in a file of `@ui` crosses domains. */
  lemma CrossDomainImportReported(rel: string -> string, file: string, spec: string)
    requires RelativeFromRoot(rel) && StartsWith(rel(file), "src/ui/") && StartsWith(spec, "@core")
    ensures Check(Some(CoreAndUi), ImportDeclaration(spec), file, [], rel) == Reported
  {
    UiFilesOwnedByUi(rel, rel(file));
    CoreSpecifiersInCore(spec);
    assert Classify(ImportDeclaration(spec)) == Specifier(spec);
  }

  /** The same crossing is not reported once `@core` is on the ignored list. */
  lemma IgnoredDomainSilent(rel: string -> string, file: string, spec: string)
    requires StartsWith(spec, "@core")
    ensures Check(Some(CoreAndUi), ImportDeclaration(spec), file, ["@core"], rel) == Silent
  {
    CoreSpecifiersInCore(spec);
    assert Classify(ImportDeclaration(spec)) == Specifier(spec);
  }

  /** `./icon` is not under `./src/core`, with or without `src`. */
  lemma IconOutsideCore(spec: string)
    requires StartsWith(spec, "./icon")
    ensures !PathMatches(CoreAndUi[0], spec)
  {
    CoreEntry();
    SourceDirectoryRewrite(CoreAndUi[0], spec);
    DiffersAt(spec, "./src/core", 2);
    DiffersAt(spec, "./" + "./src/core"[6..], 2);
  }

  /** `./icon` is not under `./src/ui`, with or without `src`. */
  lemma IconOutsideUi(spec: string)
    requires StartsWith(spec, "./icon")
    ensures !PathMatches(CoreAndUi[1], spec)
  {
    UiEntry();
    SourceDirectoryRewrite(CoreAndUi[1], spec);
    DiffersAt(spec, "./src/ui", 2);
    DiffersAt(spec, "./" + "./src/ui"[6..], 2);
  }

  /** `./icon` is under neither `./src/core` nor `./src/ui`, even with `src` dropped. */
  lemma IconUnderNoPath(spec: string)
    requires StartsWith(spec, "./icon")
    ensures NoneSatisfy(CoreAndUi, PathTest(spec))
  {
    IconOutsideCore(spec);
    IconOutsideUi(spec);
  }

  /** `import x from "./icon"` resolves to no domain, so it is never reported. */
  lemma RelativeImportSilent(rel: string -> string, file: string, spec: string)
    requires StartsWith(spec, "./icon")
    ensures ImportDomain(CoreAndUi, spec) == None
    ensures Check(Some(CoreAndUi), ImportDeclaration(spec), file, [], rel) == Silent
  {
    DiffersAt(spec, "@", 0);
    RelativeSpecifierSkipsAliases(CoreAndUi, spec);
    IconUnderNoPath(spec);
    assert Classify(ImportDeclaration(spec)) == Specifier(spec);
  }

  /** `const Page = lazy(() => import(spec))` classifies to `spec`, for every string `spec`. */
  lemma LazyImportYieldsSpecifier(spec: string)
    ensures Classify(VariableDeclaration([Declarator(Some(CallExpression(Identifier("lazy"),
      [FunctionExpression(ImportExpression(Literal(spec)))])))], None)) == Specifier(spec)
  {
    var node := VariableDeclaration([Declarator(Some(CallExpression(Identifier("lazy"),
      [FunctionExpression(ImportExpression(Literal(spec)))])))], None);
    assert !HasLoaderBinding(node.declarations);
    assert IsFirst(node.declarations, StopsSearch, 0);
  }

  /**
    `const C = lazy(class {})`: the argument has a `body`, but it is a
    `ClassBody`, so the lazy-loader test misses and the statement is no import.
   */
  lemma LazyClassIsNotImport()
    ensures Classify(VariableDeclaration([Declarator(Some(CallExpression(Identifier("lazy"),
      [FunctionExpression(OtherExpr)])))], None)) == NotImport
  {
    var node := VariableDeclaration([Declarator(Some(CallExpression(Identifier("lazy"),
      [FunctionExpression(OtherExpr)])))], None);
    assert !HasLoaderBinding(node.declarations);
  }

  /** `const Page = lazy(() => import("@core/page"))` in a file of `@ui` is reported. */
  lemma LazyCrossDomainReported(rel: string -> string, file: string, spec: string)
    requires RelativeFromRoot(rel) && StartsWith(rel(file), "src/ui/") && StartsWith(spec, "@core")
    ensures Check(Some(CoreAndUi),
      VariableDeclaration([Declarator(Some(CallExpression(Identifier("lazy"),
        [FunctionExpression(ImportExpression(Literal(spec)))])))], None),
      file, [], rel) == Reported
  {
    LazyImportYieldsSpecifier(spec);
    UiFilesOwnedByUi(rel, rel(file));
    CoreSpecifiersInCore(spec);
  }

  /** {"A": ["./src/foo"], "B": ["./src/foo/bar"]}: B's files are also under A's prefix. */
  const Overlapping: seq<Domain> := [Domain("A", "./src/foo", []), Domain("B", "./src/foo/bar", [])]

  lemma OverlappingFirstEntry()
    ensures DomainName(Overlapping[0]) == "A"
    ensures StripWildcard(Overlapping[0].firstPath) == "./src/foo"
  {
    StripWildcardWithoutStar("A");
    StripWildcardWithoutStar("./src/foo");
  }

  /** With overlapping prefixes the earlier-declared domain owns the file, even one under `src/foo/bar/`. */
  lemma OverlapFirstDeclaredWins(rel: string -> string, own: string)
    requires rel("./src/foo") == "src/foo" && StartsWith(own, "src/foo/bar/")
    ensures OwnDomain(Overlapping, own, rel) == Some("A")
  {
    OverlappingFirstEntry();
    assert own[..7] == "src/foo";
    assert IsFirst(Overlapping, OwnerTest(own, rel), 0);
  }

  /** A path-style entry declared first whose path also prefixes "@shared/...". */
  const LegacyAndShared: seq<Domain> :=
    [Domain("legacy", "@shared", []), Domain("@shared", "./src/shared", [])]

  lemma LegacyAndSharedNames()
    ensures DomainName(LegacyAndShared[0]) == "legacy"
    ensures DomainName(LegacyAndShared[1]) == "@shared"
    ensures !IsAliasKey(LegacyAndShared[0].key)
  {
    StripWildcardWithoutStar("legacy");
    StripWildcardWithoutStar("@shared");
    DiffersAt("legacy", "@", 0);
  }

  /** An alias match in phase 1 wins over an earlier-declared path match in phase 2. */
  lemma AliasPhaseWinsOverPathPhase(spec: string)
    requires StartsWith(spec, "@shared")
    ensures ImportDomain(LegacyAndShared, spec) == Some("@shared")
  {
    LegacyAndSharedNames();
    assert !AliasMatches(LegacyAndShared[0], spec);
    assert AliasMatches(LegacyAndShared[1], spec);
    assert IsFirst(LegacyAndShared, AliasTest(spec), 1);
  }

  /** {"feature": ["./src/feature"]} */
  const Feature: seq<Domain> := [Domain("feature", "./src/feature", [])]

  lemma FeatureEntry()
    ensures DomainName(Feature[0]) == "feature"
    ensures StripWildcard(Feature[0].firstPath) == "./src/feature"
  {
    StripWildcardWithoutStar("feature");
    StripWildcardWithoutStar("./src/feature");
  }

  /** Rewriting `./src/` to `./` turns the feature path into `./feature`. */
  lemma FeaturePathFlattened()
    ensures ReplaceFirst("./src/feature", "./src/", "./") == "./feature"
  {
    ReplaceFirstAtStart("./src/feature", "./src/", "./");
  }

  /** A specifier written against the source tree, `./src/feature...`, resolves to `feature`. */
  lemma SourceTreeSpecifier(rest: string)
    ensures ImportDomain(Feature, "./src/feature" + rest) == Some("feature")
  {
    var spec := "./src/feature" + rest;
    DiffersAt(spec, "@", 0);
    RelativeSpecifierSkipsAliases(Feature, spec);
    FeatureEntry();
    assert spec[..13] == "./src/feature";
    assert IsFirst(Feature, PathTest(spec), 0);
  }

  /** `./feature...` matches the `./src/feature` path once `./src/` is rewritten to `./`. */
  lemma FlattenedSpecifierMatchesPath(rest: string)
    ensures PathMatches(Feature[0], "./feature" + rest)
  {
    var spec := "./feature" + rest;
    FeatureEntry();
    FeaturePathFlattened();
    assert spec[..9] == "./feature";
  }

  /** The same module written with `src` dropped, `./feature...`, resolves to `feature` as well. */
  lemma FlattenedSpecifier(rest: string)
    ensures ImportDomain(Feature, "./feature" + rest) == Some("feature")
  {
    var spec := "./feature" + rest;
    DiffersAt(spec, "@", 0);
    RelativeSpecifierSkipsAliases(Feature, spec);
    FlattenedSpecifierMatchesPath(rest);
    FeatureEntry();
    assert IsFirst(Feature, PathTest(spec), 0);
  }

  /** Phase 1 wants no separator after the key: `@foo` claims `@foobar/x`. */
  lemma AliasKeyMatchesLongerName()
    ensures ImportDomain([Domain("@foo", "./src/foo", [])], "@foobar/x") == Some("@foo")
  {
    var domains := [Domain("@foo", "./src/foo", [])];
    StripWildcardWithoutStar("@foo");
    assert IsFirst(domains, AliasTest("@foobar/x"), 0);
  }

  /** `const P = lazy(() => import(n))` for a literal `n` that is not a string. */
  function LazyNonString(truthy: bool): Statement {
    VariableDeclaration([Declarator(Some(CallExpression(Identifier("lazy"),
      [FunctionExpression(ImportExpression(NonStringLiteral(truthy)))])))], None)
  }

  /** The lazy loader hands back the literal's value, string or not. */
  lemma LazyNonStringValue(truthy: bool)
    ensures Classify(LazyNonString(truthy)) == NonStringValue(truthy)
  {
    var node := LazyNonString(truthy);
    assert !HasLoaderBinding(node.declarations);
    assert IsFirst(node.declarations, StopsSearch, 0);
  }

  /**
    `lazy(() => import(1))` yields the truthy value 1, whose missing
    `startsWith` throws once the path table has any entry; `import(0)` is
    falsy and silent, and so is any value against an empty table.
   */
  lemma NonStringLazyImport(rel: string -> string, file: string, ignored: seq<string>)
    ensures Check(Some(CoreAndUi), LazyNonString(true), file, ignored, rel) == Threw
    ensures Check(Some(CoreAndUi), LazyNonString(false), file, ignored, rel) == Silent
    ensures Check(Some([]), LazyNonString(true), file, ignored, rel) == Silent
  {
    LazyNonStringValue(true);
    LazyNonStringValue(false);
    assert |CoreAndUi| > 0;
  }
}
