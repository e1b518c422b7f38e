/**
  Connection declarations in plugin manifests: pattern admission, manifest validation, and the grant
  that an owner's exports give to a consumer's requirement.
 */
module Connections {

  import opened Wrappers

  datatype ConnectionExport = ConnectionExport(operations: seq<string>, resourceTypes: seq<string>)

  datatype ConnectionRequirement =
    ConnectionRequirement(plugin: string, operations: seq<string>, resourceTypes: seq<string>)

  /** `None` is a nil pointer or a nil slice; an empty slice is `Some([])`. */
  datatype ExportsSpec = ExportsSpec(connections: Option<ConnectionExport>)
  datatype RequiresSpec = RequiresSpec(connections: Option<seq<ConnectionRequirement>>)
  datatype PluginMeta = PluginMeta(id: string, exports: Option<ExportsSpec>, requires_: Option<RequiresSpec>)

  datatype ConnectionGrant = ConnectionGrant(operations: seq<string>, patterns: seq<string>)

  datatype Error =
    | EmptyLists
    | UnknownOperation(operation: string)
    | DuplicateOperation(operation: string)
    | InvalidPattern(pattern: string)
    | DuplicatePattern(pattern: string)
    | EmptyRequirements
    | InvalidOwner(plugin: string)
    | DuplicateOwner(plugin: string)
    | GrantMissing
    | RequirementMissing
    | OperationNotExported
    | PatternNotExported

  // ---------- patterns ----------

  predicate HasSuffix(s: string, suffix: string) {
    |s| >= |suffix| && s[|s| - |suffix|..] == suffix
  }

  function Count(s: string, c: char): nat {
    if s == [] then 0 else Count(s[..|s| - 1], c) + if s[|s| - 1] == c then 1 else 0
  }

  /** A nonempty literal, or a nonempty literal with a slash and a star after it. */
  ghost predicate IsPattern(p: string) {
    p != "" && ('*' !in p || exists q :: q != "" && '*' !in q && p == q + "/*")
  }

  predicate ValidPattern(p: string) {
    if p == "" then false
    else if '*' !in p then true
    else HasSuffix(p, "/*") && |p| > 2 && Count(p, '*') == 1
  }

  predicate PatternCovers(export_: string, required: string) {
    if export_ == required then true
    else if !HasSuffix(export_, "/*") then false
    else
      var prefix := export_[..|export_| - 1];
      if HasSuffix(required, "/*") then prefix <= required[..|required| - 1]
      else prefix <= required && |required| > |prefix|
  }

  /** A literal resource type. */
  predicate Literal(t: string) {
    t != "" && '*' !in t
  }

  /** The set of literals a pattern stands for: itself, or everything strictly below its prefix. */
  ghost predicate Denotes(p: string, t: string) {
    Literal(t) && if '*' in p then p[..|p| - 1] < t else t == p
  }

  ghost predicate DenotedByAny(ps: seq<string>, t: string) {
    exists i :: 0 <= i < |ps| && Denotes(ps[i], t)
  }

  ghost predicate AllValid(ps: seq<string>) {
    forall i | 0 <= i < |ps| :: IsPattern(ps[i])
  }

  lemma {:induction false} CountZero(s: string, c: char)
    ensures Count(s, c) == 0 <==> c !in s
  {
    if s != [] {
      CountZero(s[..|s| - 1], c);
      assert s == s[..|s| - 1] + [s[|s| - 1]];
    }
  }

  lemma {:induction false} CountConcatenates(s: string, t: string, c: char)
    ensures Count(s + t, c) == Count(s, c) + Count(t, c)
  {
    if t == [] {
      assert s + t == s;
    } else {
      CountConcatenates(s, t[..|t| - 1], c);
      assert (s + t)[..|s + t| - 1] == s + t[..|t| - 1];
    }
  }

  /** The test by suffix, length and count admits exactly the patterns. */
  lemma ValidPatternIsPattern(p: string)
    ensures ValidPattern(p) <==> IsPattern(p)
  {
    var tail := "/*";
    assert Count(tail, '*') == 1 by {
      assert tail[..1] == "/" && "/"[..0] == [];
    }
    if HasSuffix(p, tail) {
      var q := p[..|p| - 2];
      assert p == q + tail;
      CountConcatenates(q, tail, '*');
      CountZero(q, '*');
    }
    if q :| q != "" && '*' !in q && p == q + tail {
      assert p[|p| - 2..] == tail;
      CountConcatenates(q, tail, '*');
      CountZero(q, '*');
    }
  }

  /** The star of a wildcard is its last character, after a slash, and nowhere else. */
  lemma WildcardShape(p: string)
    requires IsPattern(p)
    ensures '*' in p <==> HasSuffix(p, "/*")
    ensures '*' in p ==> |p| > 2 && p[|p| - 2] == '/' && '*' !in p[..|p| - 1]
  {
    if HasSuffix(p, "/*") {
      assert p[|p| - 2..][0] == '/' && p[|p| - 2..][1] == '*';
    }
    if '*' in p {
      var q :| q != "" && '*' !in q && p == q + "/*";
      assert p[..|p| - 1] == q + "/" && p[|p| - 2..] == "/*";
    }
  }

  function Longest(ps: seq<string>): (n: nat)
    ensures forall i | 0 <= i < |ps| :: |ps[i]| <= n
  {
    if ps == [] then 0
    else var n := Longest(ps[1..]); if |ps[0]| > n then |ps[0]| else n
  }

  /** A literal below wildcard r whose slash-free tail is longer than every pattern of es. */
  ghost function Escape(es: seq<string>, r: string): string
    requires |r| > 0
  {
    r[..|r| - 1] + seq(Longest(es) + 1, _ => 'a')
  }

  lemma EscapeIsDenoted(es: seq<string>, r: string)
    requires IsPattern(r) && '*' in r
    ensures Denotes(r, Escape(es, r))
  {
    WildcardShape(r);
    var t := Escape(es, r);
    assert r[..|r| - 1] < t by { assert t[..|r| - 1] == r[..|r| - 1]; }
  }

  /** Whatever pattern denotes the escaping literal already covers the whole wildcard. */
  lemma EscapeIsCoveredWhole(es: seq<string>, i: nat, r: string)
    requires i < |es| && IsPattern(es[i]) && IsPattern(r) && '*' in r
    requires Denotes(es[i], Escape(es, r))
    ensures PatternCovers(es[i], r)
  {
    var e, t := es[i], Escape(es, r);
    WildcardShape(r);
    WildcardShape(e);
    if '*' in e {
      var prefix := e[..|e| - 1];
      assert t[|prefix| - 1] == prefix[|prefix| - 1] == '/';
      assert |prefix| <= |r| - 1;
      assert prefix == t[..|prefix|] == r[..|r| - 1][..|prefix|];
    }
  }

  lemma CoverDenotes(e: string, r: string, t: string)
    requires IsPattern(e) && IsPattern(r) && PatternCovers(e, r) && Denotes(r, t)
    ensures Denotes(e, t)
  {
    WildcardShape(e);
    WildcardShape(r);
    if e != r {
      var prefix := e[..|e| - 1];
      if '*' in r {
        assert prefix <= r[..|r| - 1] < t;
      }
    }
  }

  /**
    The syntactic test against each pattern decides inclusion in the union of all of them: the
    literals r denotes lie in the union exactly when one pattern alone covers r.
   */
  lemma CoverageDecidesUnion(es: seq<string>, r: string)
    requires AllValid(es) && IsPattern(r)
    ensures (exists i :: 0 <= i < |es| && PatternCovers(es[i], r))
       <==> (forall t | Denotes(r, t) :: DenotedByAny(es, t))
  {
    if i :| 0 <= i < |es| && PatternCovers(es[i], r) {
      forall t | Denotes(r, t) ensures DenotedByAny(es, t) {
        CoverDenotes(es[i], r, t);
      }
    }
    if forall t | Denotes(r, t) :: DenotedByAny(es, t) {
      if '*' in r {
        EscapeIsDenoted(es, r);
        var i :| 0 <= i < |es| && Denotes(es[i], Escape(es, r));
        EscapeIsCoveredWhole(es, i, r);
      } else {
        assert Denotes(r, r);
        var i :| 0 <= i < |es| && Denotes(es[i], r);
        WildcardShape(es[i]);
        WildcardShape(r);
      }
    }
  }

  /** The test on one pattern decides inclusion of the denoted sets. */
  lemma CoverageDecidesInclusion(e: string, r: string)
    requires IsPattern(e) && IsPattern(r)
    ensures PatternCovers(e, r) <==> forall t | Denotes(r, t) :: Denotes(e, t)
  {
    CoverageDecidesUnion([e], r);
    assert PatternCovers(e, r) <==> exists i :: 0 <= i < |[e]| && PatternCovers([e][i], r) by {
      assert [e][0] == e;
    }
    forall t ensures DenotedByAny([e], t) <==> Denotes(e, t) {
      assert [e][0] == e;
    }
  }

  lemma CoverageIsPartialOrder(a: string, b: string, c: string)
    requires IsPattern(a) && IsPattern(b) && IsPattern(c)
    ensures PatternCovers(a, a)
    ensures PatternCovers(a, b) && PatternCovers(b, c) ==> PatternCovers(a, c)
    ensures PatternCovers(a, b) && PatternCovers(b, a) ==> a == b
  {
    CoverageDecidesInclusion(a, b);
    CoverageDecidesInclusion(b, c);
    CoverageDecidesInclusion(a, c);
    if PatternCovers(a, b) && PatternCovers(b, a) {
      WildcardShape(a);
      WildcardShape(b);
      if '*' in a && '*' in b {
        assert a[..|a| - 1] == b[..|b| - 1];
        assert a == a[..|a| - 1] + "*" && b == b[..|b| - 1] + "*";
      }
    }
  }

  // ---------- manifests ----------

  predicate KnownOperation(op: string) {
    op == "catalog" || op == "get" || op == "enumerate" || op == "update"
  }

  ghost predicate Distinct(xs: seq<string>) {
    forall i, j | 0 <= i < j < |xs| :: xs[i] != xs[j]
  }

  ghost predicate ValidLists(operations: seq<string>, patterns: seq<string>) {
    && operations != [] && patterns != []
    && GoodOperations(operations)
    && AllValid(patterns) && Distinct(patterns)
  }

  /** White space as Unicode defines it. */
  predicate IsSpace(c: char) {
    || c in "\t\n\r " || c == '\U{000B}' || c == '\U{000C}' || c == '\U{0085}' || c == '\U{00A0}'
    || c == '\U{1680}' || '\U{2000}' <= c <= '\U{200A}' || c == '\U{2028}' || c == '\U{2029}'
    || c == '\U{202F}' || c == '\U{205F}' || c == '\U{3000}'
  }

  lemma SpaceCodePoints(c: char)
    ensures var n := c as int;
      IsSpace(c) <==>
        || 9 <= n <= 13 || 0x2000 <= n <= 0x200A
        || n in {0x20, 0x85, 0xA0, 0x1680, 0x2028, 0x2029, 0x202F, 0x205F, 0x3000}
  {}

  ghost predicate Blank(s: string) {
    forall i | 0 <= i < |s| :: IsSpace(s[i])
  }

  function TrimSpace(s: string): string {
    if s == "" then s
    else if IsSpace(s[0]) then TrimSpace(s[1..])
    else if IsSpace(s[|s| - 1]) then TrimSpace(s[..|s| - 1])
    else s
  }

  lemma {:induction false} TrimmedIsBlank(s: string)
    ensures TrimSpace(s) == "" <==> Blank(s)
  {
    if s != "" && IsSpace(s[0]) {
      TrimmedIsBlank(s[1..]);
      assert s == [s[0]] + s[1..];
    } else if s != "" && IsSpace(s[|s| - 1]) {
      TrimmedIsBlank(s[..|s| - 1]);
    }
  }

  ghost predicate ValidRequirement(id: string, r: ConnectionRequirement) {
    !Blank(r.plugin) && r.plugin != id && ValidLists(r.operations, r.resourceTypes)
  }

  ghost predicate ValidRequirements(id: string, rs: seq<ConnectionRequirement>) {
    && (forall i | 0 <= i < |rs| :: ValidRequirement(id, rs[i]))
    && (forall i, j | 0 <= i < j < |rs| :: rs[i].plugin != rs[j].plugin)
  }

  ghost predicate ValidManifest(m: PluginMeta) {
    && (m.exports.Some? && m.exports.value.connections.Some? ==>
          var c := m.exports.value.connections.value; ValidLists(c.operations, c.resourceTypes))
    && (m.requires_.Some? && m.requires_.value.connections.Some? ==>
          var rs := m.requires_.value.connections.value; rs != [] && ValidRequirements(m.id, rs))
  }

  /** The first offence in reading order: operations before patterns, unknown before duplicate. */
  ghost predicate FirstOffence(operations: seq<string>, patterns: seq<string>, e: Error) {
    match e
    case EmptyLists => operations == [] || patterns == []
    case UnknownOperation(op) =>
      exists n :: 0 <= n < |operations| && operations[n] == op && !KnownOperation(op) && GoodOperations(operations[..n])
    case DuplicateOperation(op) =>
      exists n :: 0 <= n < |operations| && operations[n] == op && KnownOperation(op) && op in operations[..n]
               && GoodOperations(operations[..n])
    case InvalidPattern(p) =>
      && GoodOperations(operations)
      && exists n :: 0 <= n < |patterns| && patterns[n] == p && !IsPattern(p)
                  && AllValid(patterns[..n]) && Distinct(patterns[..n])
    case DuplicatePattern(p) =>
      && GoodOperations(operations)
      && exists n :: 0 <= n < |patterns| && patterns[n] == p && IsPattern(p) && p in patterns[..n]
                  && AllValid(patterns[..n]) && Distinct(patterns[..n])
    case _ => false
  }

  ghost predicate GoodOperations(operations: seq<string>) {
    (forall i | 0 <= i < |operations| :: KnownOperation(operations[i])) && Distinct(operations)
  }

  method ValidateConnectionLists(operations: seq<string>, patterns: seq<string>) returns (err: Option<Error>)
    ensures err.None? <==> ValidLists(operations, patterns)
    ensures err.Some? ==> FirstOffence(operations, patterns, err.value) && !AboutGrant(err.value)
  {
    if |operations| == 0 || |patterns| == 0 {
      return Some(EmptyLists);
    }
    var seen: set<string> := {};
    for n := 0 to |operations|
      invariant seen == set i | 0 <= i < n :: operations[i]
      invariant GoodOperations(operations[..n])
    {
      var op := operations[n];
      if op != "catalog" && op != "get" && op != "enumerate" && op != "update" {
        assert GoodOperations(operations[..n]);
        return Some(UnknownOperation(op));
      }
      if op in seen {
        assert op in operations[..n] && GoodOperations(operations[..n]);
        return Some(DuplicateOperation(op));
      }
      seen := seen + {op};
    }
    assert operations[..|operations|] == operations;
    seen := {};
    for n := 0 to |patterns|
      invariant seen == set i | 0 <= i < n :: patterns[i]
      invariant AllValid(patterns[..n]) && Distinct(patterns[..n])
    {
      var p := patterns[n];
      ValidPatternIsPattern(p);
      if !ValidPattern(p) {
        assert AllValid(patterns[..n]) && Distinct(patterns[..n]);
        return Some(InvalidPattern(p));
      }
      if p in seen {
        assert p in patterns[..n] && AllValid(patterns[..n]);
        return Some(DuplicatePattern(p));
      }
      seen := seen + {p};
    }
    assert patterns[..|patterns|] == patterns;
    return None;
  }

  predicate AboutGrant(e: Error) {
    e.GrantMissing? || e.RequirementMissing? || e.OperationNotExported? || e.PatternNotExported?
  }

  /** What is wrong with one requirement, given the valid ones before it. */
  ghost predicate RequirementOffence(
    id: string, before: seq<ConnectionRequirement>, r: ConnectionRequirement, e: Error)
  {
    if Blank(r.plugin) || r.plugin == id then e == InvalidOwner(r.plugin)
    else if exists i :: 0 <= i < |before| && before[i].plugin == r.plugin then e == DuplicateOwner(r.plugin)
    else !ValidLists(r.operations, r.resourceTypes) && FirstOffence(r.operations, r.resourceTypes, e)
  }

  /** The first offence of a manifest: its export's, then that of the first requirement that has one. */
  ghost predicate ManifestOffence(m: PluginMeta, e: Error) {
    if m.exports.Some? && m.exports.value.connections.Some?
       && !ValidLists(m.exports.value.connections.value.operations, m.exports.value.connections.value.resourceTypes) then
      var c := m.exports.value.connections.value;
      FirstOffence(c.operations, c.resourceTypes, e)
    else
      && m.requires_.Some? && m.requires_.value.connections.Some?
      && var rs := m.requires_.value.connections.value;
         if rs == [] then e == EmptyRequirements
         else exists n :: 0 <= n < |rs| && ValidRequirements(m.id, rs[..n]) && RequirementOffence(m.id, rs[..n], rs[n], e)
  }

  method Validate(m: PluginMeta) returns (err: Option<Error>)
    ensures err.None? <==> ValidManifest(m)
    ensures err.Some? ==> ManifestOffence(m, err.value) && !AboutGrant(err.value)
  {
    hide ValidLists, FirstOffence, Blank;
    if m.exports.Some? && m.exports.value.connections.Some? {
      var c := m.exports.value.connections.value;
      err := ValidateConnectionLists(c.operations, c.resourceTypes);
      if err.Some? {
        return;
      }
    }
    if m.requires_.Some? && m.requires_.value.connections.Some? {
      var rs := m.requires_.value.connections.value;
      if |rs| == 0 {
        return Some(EmptyRequirements);
      }
      var seen: set<string> := {};
      for n := 0 to |rs|
        invariant seen == set i | 0 <= i < n :: rs[i].plugin
        invariant ValidRequirements(m.id, rs[..n])
      {
        var r := rs[n];
        TrimmedIsBlank(r.plugin);
        if TrimSpace(r.plugin) == "" || r.plugin == m.id {
          assert !ValidRequirement(m.id, rs[n]);
          assert RequirementOffence(m.id, rs[..n], rs[n], InvalidOwner(r.plugin));
          return Some(InvalidOwner(r.plugin));
        }
        if r.plugin in seen {
          ghost var i :| 0 <= i < n && rs[i].plugin == r.plugin;
          assert rs[..n][i].plugin == r.plugin;
          assert RequirementOffence(m.id, rs[..n], rs[n], DuplicateOwner(r.plugin));
          return Some(DuplicateOwner(r.plugin));
        }
        seen := seen + {r.plugin};
        err := ValidateConnectionLists(r.operations, r.resourceTypes);
        if err.Some? {
          assert !ValidRequirement(m.id, rs[n]);
          assert RequirementOffence(m.id, rs[..n], rs[n], err.value) by {
            assert forall i | 0 <= i < n :: rs[..n][i] == rs[i];
          }
          return;
        }
        assert ValidRequirement(m.id, r) && rs[..n + 1] == rs[..n] + [r];
      }
      assert rs[..|rs|] == rs;
    }
    return None;
  }

  // ---------- grants ----------

  /** The requirement of `consumer` that names `owner`, if there is one. */
  ghost predicate Requires(consumer: PluginMeta, owner: PluginMeta, r: ConnectionRequirement) {
    && consumer.requires_.Some? && consumer.requires_.value.connections.Some?
    && r in consumer.requires_.value.connections.value
    && r.plugin == owner.id
  }

  ghost predicate Exports(owner: PluginMeta, x: ConnectionExport) {
    owner.exports == Some(ExportsSpec(Some(x)))
  }

  /** Every operation and every literal the requirement asks for is offered. */
  ghost predicate Offers(x: ConnectionExport, r: ConnectionRequirement) {
    && (forall op | op in r.operations :: op in x.operations)
    && (forall t | DenotedByAny(r.resourceTypes, t) :: DenotedByAny(x.resourceTypes, t))
  }

  ghost predicate Permits(r: ConnectionRequirement, op: string, t: string) {
    op in r.operations && DenotedByAny(r.resourceTypes, t)
  }

  method Allows(g: ConnectionGrant, operation: string, resourceType: string) returns (ok: bool)
    requires AllValid(g.patterns)
    ensures ok <==> operation in g.operations && DenotedByAny(g.patterns, resourceType)
  {
    var found := false;
    for n := 0 to |g.operations|
      invariant !found && operation !in g.operations[..n]
    {
      if g.operations[n] == operation {
        found := true;
        break;
      }
    }
    if !found {
      return false;
    }
    for n := 0 to |g.patterns|
      invariant forall i | 0 <= i < n :: !Denotes(g.patterns[i], resourceType)
    {
      LiteralCoverage(g.patterns[n], resourceType);
      ValidPatternIsPattern(resourceType);
      if ValidPattern(resourceType) && '*' !in resourceType && PatternCovers(g.patterns[n], resourceType) {
        return true;
      }
    }
    return false;
  }

  lemma LiteralCoverage(p: string, t: string)
    requires IsPattern(p)
    ensures Denotes(p, t) <==> IsPattern(t) && '*' !in t && PatternCovers(p, t)
  {
    WildcardShape(p);
    if Literal(t) {
      WildcardShape(t);
    }
  }

  lemma RequirementIsValid(consumer: PluginMeta, owner: PluginMeta, r: ConnectionRequirement, s: ConnectionRequirement)
    requires ValidManifest(consumer) && Requires(consumer, owner, r) && Requires(consumer, owner, s)
    ensures r == s && AllValid(r.resourceTypes)
  {
    var declared := consumer.requires_.value.connections.value;
    var i :| 0 <= i < |declared| && declared[i] == r;
    var j :| 0 <= j < |declared| && declared[j] == s;
    assert ValidRequirement(consumer.id, declared[i]);
  }

  lemma ExportIsValid(owner: PluginMeta, x: ConnectionExport)
    requires ValidManifest(owner) && Exports(owner, x)
    ensures AllValid(x.resourceTypes)
  {}

  /** Why there is no grant: an invalid manifest first, then a missing side, then what is not offered. */
  ghost predicate Explains(consumer: PluginMeta, owner: PluginMeta, e: Error) {
    match e
    case GrantMissing =>
      && ValidManifest(consumer) && ValidManifest(owner)
      && (consumer.requires_.None? || forall x :: !Exports(owner, x))
    case RequirementMissing =>
      ValidManifest(consumer) && ValidManifest(owner) && forall r :: !Requires(consumer, owner, r)
    case OperationNotExported =>
      && ValidManifest(consumer) && ValidManifest(owner)
      && exists r, x, op :: Requires(consumer, owner, r) && Exports(owner, x) && op in r.operations && op !in x.operations
    case PatternNotExported =>
      && ValidManifest(consumer) && ValidManifest(owner)
      && exists r, x, t :: Requires(consumer, owner, r) && Exports(owner, x)
           && (forall op | op in r.operations :: op in x.operations)
           && DenotedByAny(r.resourceTypes, t) && !DenotedByAny(x.resourceTypes, t)
    case _ =>
      if !ValidManifest(consumer) then ManifestOffence(consumer, e)
      else !ValidManifest(owner) && ManifestOffence(owner, e)
  }

  method ExportsAll(operations: seq<string>, exported: seq<string>) returns (ok: bool)
    ensures ok <==> forall op | op in operations :: op in exported
  {
    for n := 0 to |operations|
      invariant forall i | 0 <= i < n :: operations[i] in exported
    {
      var op, found := operations[n], false;
      for k := 0 to |exported|
        invariant !found && op !in exported[..k]
      {
        if exported[k] == op {
          found := true;
          break;
        }
      }
      if !found {
        assert op in operations && op !in exported;
        return false;
      }
    }
    return true;
  }

  /** Each pattern is tested against each exported one; together the tests decide inclusion of the unions. */
  method CoversAll(patterns: seq<string>, exported: seq<string>) returns (ok: bool)
    requires AllValid(patterns) && AllValid(exported)
    ensures ok <==> forall t | DenotedByAny(patterns, t) :: DenotedByAny(exported, t)
  {
    for n := 0 to |patterns|
      invariant forall i, t | 0 <= i < n && Denotes(patterns[i], t) :: DenotedByAny(exported, t)
    {
      var p, found := patterns[n], false;
      CoverageDecidesUnion(exported, p);
      for k := 0 to |exported|
        invariant !found && forall i | 0 <= i < k :: !PatternCovers(exported[i], p)
      {
        if PatternCovers(exported[k], p) {
          found := true;
          break;
        }
      }
      if !found {
        ghost var t :| Denotes(p, t) && !DenotedByAny(exported, t);
        assert DenotedByAny(patterns, t);
        return false;
      }
    }
    return true;
  }

  method GrantConnections(consumer: PluginMeta, owner: PluginMeta)
    returns (grant: ConnectionGrant, err: Option<Error>)
    ensures err.None? <==>
      && ValidManifest(consumer) && ValidManifest(owner)
      && exists r, x :: Requires(consumer, owner, r) && Exports(owner, x) && Offers(x, r)
    ensures err.None? ==> AllValid(grant.patterns) && forall r | Requires(consumer, owner, r) ::
      forall op, t :: (op in grant.operations && DenotedByAny(grant.patterns, t)) <==> Permits(r, op, t)
    ensures err.Some? ==> grant == ConnectionGrant([], []) && Explains(consumer, owner, err.value)
  {
    hide ValidManifest, ManifestOffence;
    grant := ConnectionGrant([], []);
    err := Validate(consumer);
    if err.Some? {
      return;
    }
    err := Validate(owner);
    if err.Some? {
      return;
    }
    if consumer.requires_.None? || owner.exports.None? || owner.exports.value.connections.None? {
      return grant, Some(GrantMissing);
    }
    var declared := if consumer.requires_.value.connections.Some? then consumer.requires_.value.connections.value else [];
    var at := 0;
    while at < |declared| && declared[at].plugin != owner.id
      invariant 0 <= at <= |declared|
      invariant forall i | 0 <= i < at :: declared[i].plugin != owner.id
    {
      at := at + 1;
    }
    if at == |declared| {
      return grant, Some(RequirementMissing);
    }
    var requirement, x := declared[at], owner.exports.value.connections.value;
    assert Requires(consumer, owner, requirement) && Exports(owner, x);
    ExportIsValid(owner, x);
    forall r | Requires(consumer, owner, r) ensures r == requirement && AllValid(r.resourceTypes) {
      RequirementIsValid(consumer, owner, r, requirement);
    }
    var ok := ExportsAll(requirement.operations, x.operations);
    if !ok {
      return grant, Some(OperationNotExported);
    }
    ok := CoversAll(requirement.resourceTypes, x.resourceTypes);
    if !ok {
      return grant, Some(PatternNotExported);
    }
    assert Offers(x, requirement);
    return ConnectionGrant(requirement.operations, requirement.resourceTypes), None;
  }

  /**
    Asking for a grant and then for one access: it is allowed exactly when the manifests are valid,
    the owner's exports offer the whole requirement, and the access lies within the requirement --
    never a part of a requirement that was only partly covered.
   */
  method GrantThenAllow(consumer: PluginMeta, owner: PluginMeta, operation: string, resourceType: string)
    returns (ok: bool)
    ensures ok <==>
      && ValidManifest(consumer) && ValidManifest(owner)
      && exists r, x :: Requires(consumer, owner, r) && Exports(owner, x) && Offers(x, r)
                     && Permits(r, operation, resourceType)
  {
    var grant, err := GrantConnections(consumer, owner);
    ok := Allows(grant, operation, resourceType);
  }

}
