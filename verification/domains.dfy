/**
  The domain resolver (index.js:72-91): which configured domain the
  linted file belongs to, and which domain an import specifier points
  into. The configuration is `compilerOptions.paths` of tsconfig.json,
  kept as the ordered list `Object.keys` walks.
 */
module Domains {
  import opened Wrappers
  import opened Strings
  import opened Search

  /**
    One entry of `compilerOptions.paths`: a key such as `@core` followed by a
    wildcard segment, and its list of paths. The list is non-empty by
    construction; the rule only ever reads its first element.
   */
  datatype Domain = Domain(key: string, firstPath: string, otherPaths: seq<string>)

  /** The name a lookup answers with: the key with its first wildcard segment removed. */
  function DomainName(d: Domain): string {
    StripWildcard(d.key)
  }

  /*---------------------------------------------------------------------
    Own domain (index.js:75-79). `rel` stands for `path.relative(cwd, _)`,
    which the model leaves uninterpreted; `ownPath` is `rel` of the file.
   ---------------------------------------------------------------------*/

  /** The relativised first path of `d`, wildcard removed, prefixes the file path. */
  predicate Owns(d: Domain, ownPath: string, rel: string -> string) {
    StartsWith(ownPath, rel(StripWildcard(d.firstPath)))
  }

  function OwnerTest(ownPath: string, rel: string -> string): Domain -> bool {
    d => Owns(d, ownPath, rel)
  }

  function OwnDomain(domains: seq<Domain>, ownPath: string, rel: string -> string): (r: Option<string>)
    ensures r.None? <==> forall i | 0 <= i < |domains| :: !Owns(domains[i], ownPath, rel)
    ensures forall i | IsFirst(domains, OwnerTest(ownPath, rel), i) ::
      r == Some(DomainName(domains[i]))
  {
    match Find(domains, OwnerTest(ownPath, rel))
    case Some(d) => Some(DomainName(d))
    case None => None
  }

  /** On overlapping prefixes an earlier-declared domain wins: any owner bounds the answer. */
  lemma OwnDomainNoLaterThanAnyOwner(domains: seq<Domain>, ownPath: string, rel: string -> string, i: int)
    requires 0 <= i < |domains| && Owns(domains[i], ownPath, rel)
    ensures exists k | 0 <= k <= i :: OwnDomain(domains, ownPath, rel) == Some(DomainName(domains[k]))
  {
    var k := FindIndex(domains, OwnerTest(ownPath, rel));
    assert !NoneSatisfy(domains, OwnerTest(ownPath, rel)) by {
      assert OwnerTest(ownPath, rel)(domains[i]);
    }
    assert IsFirst(domains, OwnerTest(ownPath, rel), k.value);
    assert k.value <= i;
  }

  /*---------------------------------------------------------------------
    Import domain, phase 1 (index.js:73-74, 80): alias keys.
   ---------------------------------------------------------------------*/

  /** A stripped key kept by the filter: not the catch-all `*`, and starting with `@`. */
  predicate IsAliasKey(k: string) {
    k != "*" && StartsWith(k, "@")
  }

  /** `Object.keys(pathObj).map(strip).filter(IsAliasKey)`, map and filter fused. */
  function AliasKeys(domains: seq<Domain>): (r: seq<string>)
    ensures forall k | k in r :: IsAliasKey(k)
    ensures forall i | 0 <= i < |domains| && IsAliasKey(DomainName(domains[i])) ::
      DomainName(domains[i]) in r
    ensures forall k | k in r :: exists i | 0 <= i < |domains| :: DomainName(domains[i]) == k
    ensures |r| <= |domains|
  {
    if |domains| == 0 then []
    else
      var k := DomainName(domains[0]);
      assert forall i | 0 <= i < |domains| - 1 :: domains[1..][i] == domains[i + 1];
      (if IsAliasKey(k) then [k] else []) + AliasKeys(domains[1..])
  }

  /**
    `m` lists, in increasing order, exactly the positions of the entries
    whose stripped key is an alias key, and `r` holds those entries' keys.
   */
  predicate SelectsAliasKeys(domains: seq<Domain>, r: seq<string>, m: seq<nat>) {
    && |m| == |r|
    && (forall j | 0 <= j < |m| :: m[j] < |domains| && r[j] == DomainName(domains[m[j]]))
    && (forall j | 0 < j < |m| :: m[j - 1] < m[j])
    && (forall i | 0 <= i < |domains| :: IsAliasKey(DomainName(domains[i])) <==> i in m)
  }

  /** Every position moved one place on. */
  function Shift(m: seq<nat>): (r: seq<nat>)
    ensures |r| == |m|
    ensures forall j | 0 <= j < |m| :: r[j] == m[j] + 1
  {
    seq(|m|, j requires 0 <= j < |m| => m[j] + 1)
  }

  /** A selection for the tail, with a dropped head entry in front. */
  lemma SelectsAliasKeysDropHead(domains: seq<Domain>, rr: seq<string>, m': seq<nat>)
    requires |domains| > 0 && !IsAliasKey(DomainName(domains[0]))
    requires SelectsAliasKeys(domains[1..], rr, m')
    ensures SelectsAliasKeys(domains, rr, Shift(m'))
  {
    var rest, m := domains[1..], Shift(m');
    forall j | 0 <= j < |m|
      ensures m[j] < |domains| && rr[j] == DomainName(domains[m[j]])
    {
      assert domains[m'[j] + 1] == rest[m'[j]];
    }
    forall i | 0 <= i < |domains|
      ensures IsAliasKey(DomainName(domains[i])) <==> i in m
    {
      if i > 0 {
        assert domains[i] == rest[i - 1];
        if i - 1 in m' {
          var j :| 0 <= j < |m'| && m'[j] == i - 1;
          assert m[j] == i;
        }
      }
    }
  }

  /** Position 0 followed by every position moved one place on. */
  function Cons0(m: seq<nat>): (r: seq<nat>)
    ensures |r| == |m| + 1 && r[0] == 0
    ensures forall j | 0 <= j < |m| :: r[j + 1] == m[j] + 1
  {
    [0] + Shift(m)
  }

  // The three parts of SelectsAliasKeysKeepHead, one lemma each.
  lemma KeepHeadEntries(domains: seq<Domain>, rr: seq<string>, m': seq<nat>)
    requires |domains| > 0 && SelectsAliasKeys(domains[1..], rr, m')
    ensures var r, m := [DomainName(domains[0])] + rr, Cons0(m');
      forall j | 0 <= j < |m| :: m[j] < |domains| && r[j] == DomainName(domains[m[j]])
  {
    var rest, r, m := domains[1..], [DomainName(domains[0])] + rr, Cons0(m');
    forall j | 0 <= j < |m|
      ensures m[j] < |domains| && r[j] == DomainName(domains[m[j]])
    {
      if j > 0 {
        assert m[j] == m'[j - 1] + 1 && r[j] == rr[j - 1];
        assert domains[m'[j - 1] + 1] == rest[m'[j - 1]];
      }
    }
  }

  lemma KeepHeadIncreasing(m': seq<nat>)
    requires forall j | 0 < j < |m'| :: m'[j - 1] < m'[j]
    ensures var m := Cons0(m'); forall j | 0 < j < |m| :: m[j - 1] < m[j]
  {
    var m := Cons0(m');
    forall j | 0 < j < |m|
      ensures m[j - 1] < m[j]
    {
      assert m[j] == m'[j - 1] + 1;
      if j > 1 {
        assert m[j - 1] == m'[j - 2] + 1;
      }
    }
  }

  lemma KeepHeadMembership(domains: seq<Domain>, m': seq<nat>)
    requires |domains| > 0 && IsAliasKey(DomainName(domains[0]))
    requires forall i | 0 <= i < |domains| - 1 :: IsAliasKey(DomainName(domains[1..][i])) <==> i in m'
    ensures var m := Cons0(m');
      forall i | 0 <= i < |domains| :: IsAliasKey(DomainName(domains[i])) <==> i in m
  {
    var rest, m := domains[1..], Cons0(m');
    forall i | 0 <= i < |domains|
      ensures IsAliasKey(DomainName(domains[i])) <==> i in m
    {
      if i > 0 {
        assert domains[i] == rest[i - 1];
        if i - 1 in m' {
          var j :| 0 <= j < |m'| && m'[j] == i - 1;
          assert m[j + 1] == i;
        }
        if i in m {
          var j :| 0 <= j < |m| && m[j] == i;
          assert m'[j - 1] == i - 1;
        }
      }
    }
  }

  /** A selection for the tail, with a kept head entry in front. */
  lemma SelectsAliasKeysKeepHead(domains: seq<Domain>, rr: seq<string>, m': seq<nat>)
    requires |domains| > 0 && IsAliasKey(DomainName(domains[0]))
    requires SelectsAliasKeys(domains[1..], rr, m')
    ensures SelectsAliasKeys(domains, [DomainName(domains[0])] + rr, Cons0(m'))
  {
    KeepHeadEntries(domains, rr, m');
    KeepHeadIncreasing(m');
    KeepHeadMembership(domains, m');
  }

  /** The filtered key list is the alias keys in declaration order, each once, and nothing else. */
  lemma {:induction false} AliasKeysInDeclarationOrder(domains: seq<Domain>)
    ensures exists m :: SelectsAliasKeys(domains, AliasKeys(domains), m)
  {
    if |domains| == 0 {
      assert SelectsAliasKeys(domains, AliasKeys(domains), []);
    } else {
      AliasKeysInDeclarationOrder(domains[1..]);
      var rr := AliasKeys(domains[1..]);
      var m' :| SelectsAliasKeys(domains[1..], rr, m');
      var k := DomainName(domains[0]);
      if IsAliasKey(k) {
        assert AliasKeys(domains) == [k] + rr;
        SelectsAliasKeysKeepHead(domains, rr, m');
        assert SelectsAliasKeys(domains, AliasKeys(domains), Cons0(m'));
      } else {
        assert AliasKeys(domains) == rr;
        SelectsAliasKeysDropHead(domains, rr, m');
        assert SelectsAliasKeys(domains, AliasKeys(domains), Shift(m'));
      }
    }
  }

  /** `importPath.startsWith(k)`: no separator is required after the key. */
  function PrefixTest(spec: string): string -> bool {
    k => StartsWith(spec, k)
  }

  /** `paths.find(p => importPath.startsWith(p))`. */
  function AliasDomain(domains: seq<Domain>, spec: string): Option<string> {
    Find(AliasKeys(domains), PrefixTest(spec))
  }

  /** A domain that phase 1 accepts for `spec`, judged on the domain itself. */
  predicate AliasMatches(d: Domain, spec: string) {
    IsAliasKey(DomainName(d)) && StartsWith(spec, DomainName(d))
  }

  function AliasTest(spec: string): Domain -> bool {
    d => AliasMatches(d, spec)
  }

  /** Phase 1 answers with the first domain, in declaration order, whose alias key prefixes `spec`. */
  lemma {:induction false} AliasDomainIsFirstAliasMatch(domains: seq<Domain>, spec: string)
    ensures AliasDomain(domains, spec) ==
      match Find(domains, AliasTest(spec))
      case Some(d) => Some(DomainName(d))
      case None => None
  {
    if |domains| > 0 {
      var d, rest := domains[0], domains[1..];
      AliasDomainIsFirstAliasMatch(rest, spec);
      assert domains == [d] + rest;
      FindCons(d, rest, AliasTest(spec));
      var k := DomainName(d);
      if IsAliasKey(k) {
        assert AliasKeys(domains) == [k] + AliasKeys(rest);
        FindCons(k, AliasKeys(rest), PrefixTest(spec));
      } else {
        assert AliasKeys(domains) == AliasKeys(rest);
      }
    }
  }

  /** A specifier that does not start with `@` (a relative path, say) never matches in phase 1. */
  lemma RelativeSpecifierSkipsAliases(domains: seq<Domain>, spec: string)
    requires !StartsWith(spec, "@")
    ensures NoneSatisfy(domains, AliasTest(spec))
  {
    forall i | 0 <= i < |domains|
      ensures !AliasMatches(domains[i], spec)
    {
    }
  }

  /*---------------------------------------------------------------------
    Import domain, phase 2 (index.js:81-91): path prefixes.
   ---------------------------------------------------------------------*/

  /** The phase-2 test of index.js:82-90 on one domain. */
  predicate PathMatches(d: Domain, spec: string) {
    var loc := StripWildcard(d.firstPath);
    || StartsWith(spec, loc)
    || (StartsWith(loc, "./src/") && StartsWith(spec, ReplaceFirst(loc, "./src/", "./")))
  }

  function PathTest(spec: string): Domain -> bool {
    d => PathMatches(d, spec)
  }

  /** A path under `./src/` also matches with that directory dropped; other paths match only literally. */
  lemma SourceDirectoryRewrite(d: Domain, spec: string)
    ensures var loc := StripWildcard(d.firstPath);
      PathMatches(d, spec) <==>
        || StartsWith(spec, loc)
        || (StartsWith(loc, "./src/") && StartsWith(spec, "./" + loc[|"./src/"|..]))
  {
    var loc := StripWildcard(d.firstPath);
    if StartsWith(loc, "./src/") {
      ReplaceFirstAtStart(loc, "./src/", "./");
    }
  }

  /** `paths.find(...) ?? Object.keys(pathObj).find(...)`, the found key stripped of its wildcard. */
  function ImportDomain(domains: seq<Domain>, spec: string): (r: Option<string>)
    // Phase 1 short-circuits: the first alias match wins outright.
    ensures forall i | IsFirst(domains, AliasTest(spec), i) :: r == Some(DomainName(domains[i]))
    // Phase 2 is consulted only when no alias key matches.
    ensures NoneSatisfy(domains, AliasTest(spec)) ==>
      forall i | IsFirst(domains, PathTest(spec), i) :: r == Some(DomainName(domains[i]))
    ensures r.None? <==> NoneSatisfy(domains, AliasTest(spec)) && NoneSatisfy(domains, PathTest(spec))
  {
    AliasDomainIsFirstAliasMatch(domains, spec);
    match AliasDomain(domains, spec)
    case Some(k) => Some(k)
    case None =>
      match Find(domains, PathTest(spec))
      case Some(d) => Some(DomainName(d))
      case None => None
  }
}
