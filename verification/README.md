# no-cross-imports, modelled in Dafny

The `no-cross-imports` ESLint rule splits a code base into *domains*. A
domain is one entry of `compilerOptions.paths` in `tsconfig.json`, such as
`"@core/*": ["./src/core/*"]`. The rule reports every statement that imports
from a domain other than the one the linted file lives in.

The rule's logic has two parts:

- the statement classifier `getImportStatement`, which picks the module
  specifier out of an import, `require`, or a dynamic import wrapped in a
  lazy-loader binding;
- the body of the `":statement"` handler, which resolves two domains and
  decides whether to report:
  - the *own domain* is the first key whose first path prefixes the file;
  - the *import domain* comes from phase 1 (`@`-alias keys prefixing the
    specifier) or, failing that, phase 2 (path prefixes, with `./src/`
    optionally dropped).

The model lifts both parts into pure functions:

| file | module | what it holds |
|---|---|---|
| `wrappers.dfy` | `Wrappers` | `Option` |
| `strings.dfy` | `Strings` | `startsWith`, `indexOf`, and string-pattern `replace`, which rewrites only the first occurrence |
| `search.dfy` | `Search` | `Array.prototype.find` as a first-match search |
| `syntax.dfy` | `Syntax` | the syntax-tree shapes the rule reads, as a closed datatype |
| `classifier.dfy` | `Classifier` | `getImportStatement` |
| `domains.dfy` | `Domains` | own-domain and import-domain resolution |
| `rule.dfy` | `Rule` | the report decision for one statement and for a run of statements |
| `scenarios.dfy` | `Scenarios` | the rule on small concrete path tables |

The configuration is the ordered list of path-table entries that
`Object.keys` walks. Each entry is a key, its first path and its remaining
paths, so the list of paths is never empty.

`path.relative(cwd, _)` is a function parameter `rel`, and the model
assumes nothing about it. A scenario states only the values of `rel` it
needs.

Where the JavaScript reads a property of `undefined`, or calls a method the
value lacks, it throws a TypeError.
The model keeps that outcome as `Crash` in the classifier and `Threw` in the
handler, rather than ruling it out by a precondition. This happens in three
places:

- `node.source.value` on an expression statement or variable declaration;
- `.body.type` of a lazy loader's first argument when that argument has no
  body;
- `importPath.startsWith` when a lazy loader wraps `import(1)` or another
  literal that is truthy but not a string, and the path table has any entry.

The model follows the code where a plain reading of the rule's purpose
would expect something else:

- **No separator after an alias key.** Phase 1 is a plain `startsWith`, so
  `@foo` claims `@foobar/x` (`AliasKeyMatchesLongerName`).
- **Only the first path counts.** Of each key's list of paths, only the
  first is consulted. The others are carried but never read.
- **The statement's own `source` is read.** For the `require`/`import`
  call shapes, the classifier reads `source` off the statement itself, not
  off the call's argument. An ESTree `require("x");` statement has no such
  property, so the classifier throws (`BareRequireWithoutSourceCrashes`).
  Only static imports and lazy loaders yield a specifier from real ESTree
  input.
- **Only the first `"/*"` is removed.** The string form of `replace` removes
  only the first occurrence (`StripWildcardOnlyFirst`).
- **Top-level dynamic imports are skipped.** ESTree parses `import("x")` as
  an `ImportExpression`, never as a call of an identifier named `import`, so
  the checks for an `import` call never match. `import("@core/x");` and
  `const m = import("@core/x")` are not imports: they are never reported and
  never throw (`TopLevelDynamicImportSkipped`). Only a dynamic import inside
  a lazy loader is checked.
- **A single option.** The rule takes one option, the list of ignored
  domains. There is no option for shared domains, allowed crossings,
  reporting outside any domain, or choosing the configuration file.

## Model

| member | source | states |
|---|---|---|
| `Strings.IndexOfFromIsLeftmost` | index.js:87 | The occurrence search behind `replace` returns the leftmost occurrence at or after its start. It returns none only when there is no occurrence at all. |
| `Strings.ReplaceFirst` | index.js:87 | `replace` with a string pattern leaves a string without the pattern unchanged. Otherwise it splices the replacement in at the first occurrence and nowhere else. |
| `Strings.ReplaceFirstAtStart` | index.js:86-87 | A string that starts with the pattern has exactly that prefix replaced. |
| `Strings.StripTrailingWildcard` | index.js:73 | A key or path written `name/*`, where `name` contains no `/*`, becomes `name` once its wildcard is stripped. |
| `Strings.StripWildcardWithoutStar` | index.js:77 | A string containing no `*` has no `/*` to strip and comes back unchanged. |
| `Strings.StripWildcardOnlyFirst` | index.js:79 | Stripping removes only the first `/*`: `a/*/*` becomes `a/*`. |
| `Search.FindIndex` | index.js:76-81 | The search returns the first index whose element passes the test. It returns none exactly when no element passes. |
| `Search.Find` | index.js:76 | `find` returns the element at the first passing index. It returns `undefined` exactly when no element passes. |
| `Search.FindCons` | index.js:80 | `find` on a list with one more element in front returns that element if it passes the test, and otherwise searches the rest. |
| `Classifier.Classify` | index.js:14-59 | A static import yields its own source. Other statement kinds are not imports. A call statement whose callee is the identifier `import` or `require`, or a declaration with any binding making such a call, yields the statement-level source, and throws when that is absent. Any other declaration is decided by the first lazy-loader binding. A crash has only those two causes. A specifier is always a source string present in the node, and a value that is not a string comes only from a lazy loader's literal. |
| `Classifier.LazySearch` | index.js:48-56 | The first binding, in declaration order, at which the lazy-loader test passes or throws decides the result: the nested import's literal value (a string, or a value that is not a string together with its truthiness), "not an import" for a non-literal source, or a crash. With no such binding the result is "not an import". |
| `Classifier.BareRequireWithoutSourceCrashes` | index.js:26-31 | `require("x");` as a plain ESTree statement has no statement-level source, so it throws. |
| `Classifier.TopLevelDynamicImportSkipped` | index.js:19-58 | `import(spec);` as a statement and `const m = import(spec)` as a declaration are both "not an import", for every string `spec`: neither call check matches an `ImportExpression`, no lazy loader is present, and nothing throws. |
| `Domains.OwnDomain` | index.js:75-79 | The own domain is absent exactly when no entry's stripped, relativised first path prefixes the file path. Otherwise it is the stripped key of the first entry whose path does. |
| `Domains.OwnDomainNoLaterThanAnyOwner` | index.js:76-78 | If some entry prefixes the file, the own domain is that entry or one declared before it. With overlapping prefixes, the earlier declaration wins. |
| `Domains.AliasKeys` | index.js:73-74 | Every surviving stripped key starts with `@` and is not `*`. Every stripped key with that property survives. Every surviving key is the stripped key of some entry. There are no more keys than entries. |
| `Domains.AliasKeysInDeclarationOrder` | index.js:73-74 | The filtered list is exactly the stripped keys of the entries that pass the filter, one per passing entry, in declaration order: an increasing list of positions picks out precisely the passing entries. |
| `Domains.AliasDomainIsFirstAliasMatch` | index.js:73-80 | Phase 1 over the filtered key list answers with the first entry, in declaration order, whose stripped key is an alias key prefixing the specifier. |
| `Domains.RelativeSpecifierSkipsAliases` | index.js:74-80 | A specifier that does not start with `@` matches no alias key. |
| `Domains.SourceDirectoryRewrite` | index.js:82-90 | Phase 2 matches a path under `./src/` either literally or with `./src/` replaced by `./`. Any other path matches only literally. |
| `Domains.ImportDomain` | index.js:80-91 | The first alias match wins outright. Only when there is none does the first phase-2 path match decide. The result is absent exactly when both phases find nothing. |
| `Rule.Check` | index.js:63-97 | Nothing is reported without a configuration. The handler throws exactly when the classifier does, or when a truthy value that is not a string meets a non-empty path table. Non-imports and the empty specifier are never reported. Otherwise the statement is reported exactly when the import domain is defined and non-empty, differs from the own domain, and is not ignored. |
| `Rule.TraverseVisitsUntilThrow` | index.js:62 | Calling a listener over a file's statements yields each visited statement's own outcome in order. Only the last visited may throw, and the run ends early only because it did. |
| `Rule.TraverseContinues` | index.js:62 | A first run of statements that does not throw is followed by the second run's outcomes. |
| `Rule.TraverseStops` | index.js:62 | A first run of statements that throws ends the traversal: nothing after it is visited. |
| `Rule.CheckAll` | index.js:62 | Checking a file's statements yields, for each statement in order, that statement's own verdict, up to and including the first one that throws. No state carries over between statements. |
| `Rule.CheckAllSplits` | index.js:62 | Checking the concatenation of two runs of statements gives the first run's verdicts, followed by the second run's only when the first did not throw. |
| `Scenarios.UiFileOwners` | index.js:77-78 | Under the core/ui table, a file under `src/ui/` is owned by the `@ui` entry and not by the `@core` entry. |
| `Scenarios.UiFilesOwnedByUi` | index.js:75-79 | Every file under `src/ui/` has own domain `@ui`, the second declared entry. |
| `Scenarios.CoreSpecifiersInCore` | index.js:80 | Every specifier starting with `@core` resolves to `@core` in phase 1. |
| `Scenarios.CrossDomainImportReported` | index.js:92-97 | `import ... from "@core/..."` in a file under `src/ui/` is reported. |
| `Scenarios.IgnoredDomainSilent` | index.js:93 | The same import is silent once `@core` is ignored. |
| `Scenarios.IconUnderNoPath` | index.js:81-91 | `./icon...` matches neither `./src/core` nor `./src/ui`, even with `src` dropped. |
| `Scenarios.RelativeImportSilent` | index.js:80-92 | `import ... from "./icon..."` resolves to no domain and is never reported. |
| `Scenarios.LazyImportYieldsSpecifier` | index.js:48-56 | `const Page = lazy(() => import(spec))` classifies to `spec`, for every string `spec`. |
| `Scenarios.LazyClassIsNotImport` | index.js:50-56 | `lazy(class {})` passes every part of the lazy-loader test up to `body.type`, whose `ClassBody` is not an `ImportExpression`, so the statement is not an import and nothing throws. |
| `Scenarios.LazyCrossDomainReported` | index.js:48-97 | A lazy loader importing `@core/...` from a file under `src/ui/` is reported. |
| `Scenarios.OverlapFirstDeclaredWins` | index.js:76-79 | With `A` on `./src/foo` declared before `B` on `./src/foo/bar`, a file under `src/foo/bar/` belongs to `A`. |
| `Scenarios.AliasPhaseWinsOverPathPhase` | index.js:80-81 | An alias match on `@shared` wins over the earlier-declared entry `legacy`, whose path `@shared` would match in phase 2. |
| `Scenarios.FeaturePathFlattened` | index.js:87 | Rewriting `./src/` to `./` turns `./src/feature` into `./feature`. |
| `Scenarios.SourceTreeSpecifier` | index.js:83-85 | `./src/feature...` resolves to `feature` by a literal path match. |
| `Scenarios.FlattenedSpecifierMatchesPath` | index.js:86-88 | `./feature...` matches the `./src/feature` path after the rewrite. |
| `Scenarios.FlattenedSpecifier` | index.js:81-91 | `./feature...` resolves to `feature`. |
| `Scenarios.AliasKeyMatchesLongerName` | index.js:80 | The alias key `@foo` claims the specifier `@foobar/x`, because no separator is required. |
| `Scenarios.LazyNonStringValue` | index.js:48-56 | `lazy(() => import(n))` for a literal `n` that is not a string yields that value, with its truthiness. |
| `Scenarios.NonStringLazyImport` | index.js:56-83 | `lazy(() => import(1))` throws against the core/ui table. `import(0)` is falsy and silent. Against an empty table, even `import(1)` is silent. |

## Left out

- Reading `tsconfig.json` (`path.join`, `readJSON`, `readFileSync`, `JSON.parse`, index.js:6-12, 64) is file I/O and is not modelled. The configuration arrives as `Option<seq<Domain>>`. `None` stands for a missing, unparsable or falsy file. The source reads the file again for every statement (index.js:64), while `Rule.CheckAll` uses one configuration for the whole file, so a file that changes during a run is not modelled.
- `path.relative` (index.js:4, 75, 77) is a Node library call. It becomes the uninterpreted parameter `rel`.
- A JavaScript string is a sequence of UTF-16 code units, and a lone surrogate is a valid one. Dafny's `string` holds Unicode scalar values and cannot hold a lone surrogate, so specifiers, keys and paths containing one are not modelled.
- The ESLint plumbing is not modelled: `context`, `context.options`, `context.getFilename`, `context.report`, the `meta`/`schema` object and `module.exports` (index.js:61-63, 94-125). The handler's effect is the verdict `Reported`, `Silent` or `Threw`. The ignored list is a plain sequence, and an absent option behaves as the empty list, as `ignored?.includes` does.
- A configuration without `compilerOptions`, or with a missing or null `paths` (index.js:72-73), throws in the source once a truthy specifier is found. The model's configuration type cannot express this.
- An entry whose first path is not a string (a number or a nested list), an entry with an empty path list, and an entry whose value is the empty string `""` all make `pathObj[k][0].replace` throw (index.js:77, 82). Each throws only when one of the two searches over `Object.keys` reaches that entry: the own-domain search (index.js:76-79) reaches it unless an earlier entry owns the file, and the phase-2 search (index.js:81-91) runs only when phase 1 finds nothing and then reaches it unless an earlier entry matches. For example, with `"@a/*": ["./src/a/*"]` declared before `"@b/*": [5]`, importing `@a/z` from a file under `src/a/` never reads `@b/*` and does not throw. The `Domain` type requires a string first path, so none of these entries can be expressed.
- An entry whose value is a non-empty plain string rather than a list of paths does not throw. `pathObj[k][0]` is then the string's first character, usually `"."`, which relativises to `""` and so owns every file. The model covers this case when that character is given as the entry's first path; it takes no string-valued entries directly.
- `Object.keys` lists integer-like keys before the others, whatever their order in the file. The model takes the configuration as the already-ordered list `Object.keys` returns.
- The node kinds the rule never inspects are folded into `OtherStatement` and `OtherExpr`. Every node with a `body` (an arrow, function or class expression) is a `FunctionExpression`; `lazy(class {})` is `FunctionExpression(OtherExpr)`, whose `ClassBody` is a miss. As a lazy loader's argument, `OtherExpr` is a node without a `body`; as a `body`, it is any node that is not an `ImportExpression`, such as a `BlockStatement` or a `ClassBody`. Only the node properties the rule reads are kept. Of a literal's `value`, only what the rule depends on is kept: the string itself, or, for a value that is not a string, its truthiness.
- `Domains.AliasKeys`: its own contract gives membership and provenance but not the order of the list. The order is stated by `Domains.AliasKeysInDeclarationOrder`, and phase 1's first match by `Domains.AliasDomainIsFirstAliasMatch`. Stating the index list inside the recursive function would bring that proof into every use of it.
- What ESLint does once a listener throws is host behaviour: `Linter#verify` rethrows the error with the file name and rule id appended, so the whole lint run aborts, not only that file. The model only ends `CheckAll`'s run of verdicts at the first `Threw`.
- Determinism and statelessness hold by construction, because every member is a pure function. `Rule.CheckAll` states the per-statement form.
