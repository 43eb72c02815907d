/**
 The alias CRs a ModelDiscovery generates: every rule renames the children its patterns match, a
 later rule takes over a name, and the resulting map is cut into CRs of at most 128 entries. The
 aggregator of `AliasAggregate` puts the map back together.
 */
module DiscoveryAliases {
  import opened Text
  import opened AliasAggregate

  datatype Rule = Rule(prefix: string, suffix: string, patterns: seq<string>)

  /** Regular expressions are kept abstract: whether "^" + p compiles, and whether it then matches. */
  datatype Regex = Regex(compiles: string -> bool, matches: (string, string) -> bool)

  datatype Built = Built(crs: seq<AliasCr>) | BadPattern(rule: nat, pattern: nat)

  // ----- The map -----

  /** Some pattern matches, or there are none. */
  predicate Included(re: Regex, rule: Rule, child: string) {
    rule.patterns == [] || exists p :: 0 <= p < |rule.patterns| && re.matches(rule.patterns[p], child)
  }

  function Renamed(rule: Rule, child: string): string {
    rule.prefix + child + rule.suffix
  }

  /** The rule gives this name to the child: prefix, child, suffix, for a child some pattern matches or with no patterns. */
  ghost predicate Yields(re: Regex, rule: Rule, child: string, name: string) {
    && name == rule.prefix + child + rule.suffix
    && (rule.patterns == [] || exists p :: p in rule.patterns && re.matches(p, child))
  }

  ghost predicate YieldedBy(re: Regex, rule: Rule, children: seq<string>, name: string) {
    exists child :: child in children && Yields(re, rule, child, name)
  }

  /** The specification of the map: each yielded name, with the child of the last rule that yields it. */
  ghost predicate LaterRuleWins(re: Regex, rules: seq<Rule>, children: seq<string>, byName: map<string, string>) {
    && (forall name :: name in byName <==>
          exists r :: 0 <= r < |rules| && YieldedBy(re, rules[r], children, name))
    && (forall name :: name in byName ==> FromLastRule(re, rules, children, name, byName[name]))
  }

  ghost predicate FromLastRule(re: Regex, rules: seq<Rule>, children: seq<string>, name: string, value: string) {
    exists r :: 0 <= r < |rules| && value in children && Yields(re, rules[r], value, name)
                && forall later :: r < later < |rules| ==> !YieldedBy(re, rules[later], children, name)
  }

  lemma YieldsIs(re: Regex, rule: Rule, child: string, name: string)
    ensures Yields(re, rule, child, name) <==> Included(re, rule, child) && Renamed(rule, child) == name
  {
    if rule.patterns != [] && Included(re, rule, child) {
      var p :| 0 <= p < |rule.patterns| && re.matches(rule.patterns[p], child);
      assert rule.patterns[p] in rule.patterns;
    }
  }

  /** A rule cannot give one name to two children. */
  lemma RenamedInjective(rule: Rule, a: string, b: string)
    requires Renamed(rule, a) == Renamed(rule, b)
    ensures a == b
  {
    var n, p := Renamed(rule, a), |rule.prefix|;
    assert |a| == |b|;
    assert n[p..p + |a|] == a && n[p..p + |b|] == b;
  }

  /** The specification leaves no choice. */
  lemma LaterRuleWinsUnique(re: Regex, rules: seq<Rule>, children: seq<string>, a: map<string, string>, b: map<string, string>)
    requires LaterRuleWins(re, rules, children, a) && LaterRuleWins(re, rules, children, b)
    ensures a == b
  {
    assert a.Keys == b.Keys;
    forall name | name in a ensures a[name] == b[name] {
      assert FromLastRule(re, rules, children, name, a[name]);
      assert FromLastRule(re, rules, children, name, b[name]);
      SameSource(re, rules, children, name, a[name], b[name]);
    }
  }

  lemma SameSource(re: Regex, rules: seq<Rule>, children: seq<string>, name: string, a: string, b: string)
    requires FromLastRule(re, rules, children, name, a) && FromLastRule(re, rules, children, name, b)
    ensures a == b
  {
    var r :| 0 <= r < |rules| && a in children && Yields(re, rules[r], a, name)
             && forall later :: r < later < |rules| ==> !YieldedBy(re, rules[later], children, name);
    var s :| 0 <= s < |rules| && b in children && Yields(re, rules[s], b, name)
             && forall later :: s < later < |rules| ==> !YieldedBy(re, rules[later], children, name);
    assert YieldedBy(re, rules[r], children, name) && YieldedBy(re, rules[s], children, name);
    assert r == s;
    RenamedInjective(rules[r], a, b);
  }

  // ----- The loops -----

  predicate Compiles(re: Regex, rule: Rule) {
    forall p :: 0 <= p < |rule.patterns| ==> re.compiles(rule.patterns[p])
  }

  /** The first pattern of the rule that does not compile, or the number of patterns. */
  method CompileRule(re: Regex, rule: Rule) returns (bad: nat)
    ensures bad <= |rule.patterns|
    ensures forall p :: 0 <= p < bad ==> re.compiles(rule.patterns[p])
    ensures bad < |rule.patterns| ==> !re.compiles(rule.patterns[bad])
  {
    bad := 0;
    while bad < |rule.patterns| && re.compiles(rule.patterns[bad])
      invariant bad <= |rule.patterns|
      invariant forall p :: 0 <= p < bad ==> re.compiles(rule.patterns[p])
    {
      bad := bad + 1;
    }
  }

  method MatchesRule(re: Regex, rule: Rule, child: string) returns (ok: bool)
    ensures ok == Included(re, rule, child)
  {
    if rule.patterns == [] { return true; }
    for p := 0 to |rule.patterns|
      invariant forall q :: 0 <= q < p ==> !re.matches(rule.patterns[q], child)
    {
      if re.matches(rule.patterns[p], child) { return true; }
    }
    return false;
  }

  /** One rule over the map so far: it overwrites what it yields and leaves the rest. */
  ghost predicate Overlaid(re: Regex, rule: Rule, children: seq<string>, before: map<string, string>, after: map<string, string>) {
    forall name :: OverlaidAt(re, rule, children, before, after, name)
  }

  ghost predicate OverlaidAt(re: Regex, rule: Rule, children: seq<string>,
                             before: map<string, string>, after: map<string, string>, name: string) {
    if YieldedBy(re, rule, children, name) then
      name in after && after[name] in children && Yields(re, rule, after[name], name)
    else
      (name in after <==> name in before) && (name in after ==> after[name] == before[name])
  }

  method ApplyRule(re: Regex, rule: Rule, children: seq<string>, before: map<string, string>)
    returns (byName: map<string, string>)
    ensures Overlaid(re, rule, children, before, byName)
  {
    byName := before;
    for c := 0 to |children|
      invariant Overlaid(re, rule, children[..c], before, byName)
    {
      var child := children[c];
      var matched := MatchesRule(re, rule, child);
      ghost var mid := byName;
      if matched {
        byName := byName[Renamed(rule, child) := child];
      }
      OverlayStep(re, rule, children, c, before, mid, byName);
    }
    assert children[..|children|] == children;
  }

  lemma OverlayStep(re: Regex, rule: Rule, children: seq<string>, c: nat,
                    before: map<string, string>, mid: map<string, string>, after: map<string, string>)
    requires c < |children| && Overlaid(re, rule, children[..c], before, mid)
    requires after == if Included(re, rule, children[c]) then mid[Renamed(rule, children[c]) := children[c]] else mid
    ensures Overlaid(re, rule, children[..c + 1], before, after)
  {
    var more := children[..c + 1];
    forall name ensures OverlaidAt(re, rule, more, before, after, name) {
      assert OverlaidAt(re, rule, children[..c], before, mid, name);
      YieldedByOneMore(re, rule, children, c, name);
      YieldsIs(re, rule, children[c], name);
    }
  }

  lemma YieldedByOneMore(re: Regex, rule: Rule, children: seq<string>, c: nat, name: string)
    requires c < |children|
    ensures YieldedBy(re, rule, children[..c + 1], name) <==>
              YieldedBy(re, rule, children[..c], name) || Yields(re, rule, children[c], name)
    ensures forall x :: x in children[..c] ==> x in children[..c + 1]
    ensures children[c] in children[..c + 1]
  {
    assert children[..c + 1] == children[..c] + [children[c]];
    YieldsIs(re, rule, children[c], name);
    if Yields(re, rule, children[c], name) { assert children[c] in children[..c + 1]; }
  }

  lemma RuleStep(re: Regex, rules: seq<Rule>, r: nat, children: seq<string>, before: map<string, string>, after: map<string, string>)
    requires r < |rules|
    requires LaterRuleWins(re, rules[..r], children, before) && Overlaid(re, rules[r], children, before, after)
    ensures LaterRuleWins(re, rules[..r + 1], children, after)
  {
    var was, now := rules[..r], rules[..r + 1];
    assert now == was + [rules[r]];
    forall name ensures name in after <==> exists s :: 0 <= s < |now| && YieldedBy(re, now[s], children, name) {
      assert OverlaidAt(re, rules[r], children, before, after, name);
      YieldedOneMore(re, was, rules[r], children, name);
    }
    forall name | name in after ensures FromLastRule(re, now, children, name, after[name]) {
      ValueStep(re, was, rules[r], children, name, before, after);
    }
  }

  lemma ValueStep(re: Regex, was: seq<Rule>, rule: Rule, children: seq<string>, name: string,
                  before: map<string, string>, after: map<string, string>)
    requires LaterRuleWins(re, was, children, before) && Overlaid(re, rule, children, before, after) && name in after
    ensures FromLastRule(re, was + [rule], children, name, after[name])
  {
    assert OverlaidAt(re, rule, children, before, after, name);
    if YieldedBy(re, rule, children, name) {
      assert (was + [rule])[|was|] == rule;
    } else {
      StillFromLastRule(re, was, rule, children, name, after[name]);
    }
  }

  lemma YieldedOneMore(re: Regex, rules: seq<Rule>, rule: Rule, children: seq<string>, name: string)
    ensures (exists s :: 0 <= s < |rules + [rule]| && YieldedBy(re, (rules + [rule])[s], children, name)) <==>
            (exists s :: 0 <= s < |rules| && YieldedBy(re, rules[s], children, name)) || YieldedBy(re, rule, children, name)
  {
    var now := rules + [rule];
    if YieldedBy(re, rule, children, name) { assert now[|rules|] == rule; }
    forall s | 0 <= s < |rules| ensures now[s] == rules[s] {}
  }

  lemma StillFromLastRule(re: Regex, rules: seq<Rule>, rule: Rule, children: seq<string>, name: string, value: string)
    requires FromLastRule(re, rules, children, name, value) && !YieldedBy(re, rule, children, name)
    ensures FromLastRule(re, rules + [rule], children, name, value)
  {
    var now := rules + [rule];
    var s :| 0 <= s < |rules| && value in children && Yields(re, rules[s], value, name)
             && forall later :: s < later < |rules| ==> !YieldedBy(re, rules[later], children, name);
    assert now[s] == rules[s];
    forall later | s < later < |now| ensures !YieldedBy(re, now[later], children, name) {
      if later < |rules| { assert now[later] == rules[later]; }
    }
  }

  // ----- The chunks -----

  /** The position of the first name of chunk k: an alias CR holds at most 128 entries. */
  function Offset(k: nat): nat {
    128 * k
  }

  function Least(a: nat, b: nat): nat {
    if a < b then a else b
  }

  function ChunkCount(n: nat): nat {
    (n + 128 - 1) / 128
  }

  /** The names of chunk k. */
  function Slice(names: seq<string>, k: nat): seq<string> {
    names[Least(Offset(k), |names|)..Least(Offset(k + 1), |names|)]
  }

  function ChunkCr(discovery: string, namespace: string, names: seq<string>, byName: map<string, string>, k: nat): AliasCr {
    AliasCr(namespace, ChunkName(discovery, k), EntriesOf(Slice(names, k), byName))
  }

  function ChunksOf(discovery: string, namespace: string, names: seq<string>, byName: map<string, string>): seq<AliasCr> {
    seq(ChunkCount(|names|), k requires 0 <= k => ChunkCr(discovery, namespace, names, byName, k))
  }

  function ChunkName(discovery: string, k: nat): string {
    discovery + "-aliases-" + Decimal(k)
  }

  function EntriesOf(names: seq<string>, byName: map<string, string>): seq<Entry> {
    seq(|names|, j requires 0 <= j < |names| =>
      Entry(names[j], if names[j] in byName then byName[names[j]] else ""))
  }

  ghost function Chunks(discovery: string, namespace: string, byName: map<string, string>): seq<AliasCr> {
    ChunksOf(discovery, namespace, Ordered(byName.Keys), byName)
  }

  method EntryLoop(chunk: seq<string>, byName: map<string, string>) returns (entries: seq<Entry>)
    ensures entries == EntriesOf(chunk, byName)
  {
    entries := [];
    for j := 0 to |chunk|
      invariant |entries| == j
      invariant forall e :: 0 <= e < j ==> entries[e] == EntriesOf(chunk, byName)[e]
    {
      var value := if chunk[j] in byName then byName[chunk[j]] else "";
      entries := entries + [Entry(chunk[j], value)];
    }
  }

  /** Another chunk is due exactly while its first name exists. */
  lemma ChunkDue(n: nat, k: nat)
    requires k <= ChunkCount(n)
    ensures Offset(k) < n <==> k < ChunkCount(n)
    ensures Offset(k + 1) == Offset(k) + 128
  {
  }

  method ChunkLoop(discovery: string, namespace: string, names: seq<string>, byName: map<string, string>) returns (out: seq<AliasCr>)
    ensures out == ChunksOf(discovery, namespace, names, byName)
  {
    ghost var all := ChunksOf(discovery, namespace, names, byName);
    out := [];
    var i := 0;
    while i < |names|
      invariant i == Offset(|out|)
      invariant |out| <= |all| && out == all[..|out|]
    {
      ChunkDue(|names|, |out|);
      var chunk := names[i..Least(i + 128, |names|)];
      assert chunk == Slice(names, |out|);
      var entries := EntryLoop(chunk, byName);
      var cr := AliasCr(namespace, ChunkName(discovery, |out|), entries);
      assert cr == all[|out|];
      out := out + [cr];
      i := i + 128;
    }
    ChunkDue(|names|, |out|);
  }

  ghost predicate AllCompile(re: Regex, rules: seq<Rule>) {
    forall r :: 0 <= r < |rules| ==> Compiles(re, rules[r])
  }

  method BuildDiscoveryAliases(re: Regex, rules: seq<Rule>, children: seq<string>, discovery: string, namespace: string)
    returns (built: Built, ghost byName: map<string, string>)
    ensures built.Built? <==> AllCompile(re, rules)
    ensures built.Built? ==> LaterRuleWins(re, rules, children, byName)
                             && built.crs == Chunks(discovery, namespace, byName)
    ensures built.BadPattern? ==>
              && built.rule < |rules| && AllCompile(re, rules[..built.rule])
              && built.pattern < |rules[built.rule].patterns|
              && !re.compiles(rules[built.rule].patterns[built.pattern])
              && forall p :: 0 <= p < built.pattern ==> re.compiles(rules[built.rule].patterns[p])
  {
    var found: map<string, string> := map[];
    byName := found;
    for r := 0 to |rules|
      invariant AllCompile(re, rules[..r])
      invariant LaterRuleWins(re, rules[..r], children, found)
    {
      var bad := CompileRule(re, rules[r]);
      if bad < |rules[r].patterns| {
        return BadPattern(r, bad), found;
      }
      var next := ApplyRule(re, rules[r], children, found);
      RuleStep(re, rules, r, children, found, next);
      found := next;
    }
    assert rules[..|rules|] == rules;
    var names := SortedKeys(found);
    var crs := ChunkLoop(discovery, namespace, names, found);
    return Built(crs), found;
  }

  // ----- Nothing is lost -----

  /** Every chunk is a CR the schema admits: between 1 and 128 entries. */
  lemma ChunkSizes(discovery: string, namespace: string, byName: map<string, string>, k: nat)
    requires k < |Chunks(discovery, namespace, byName)|
    ensures 1 <= |Chunks(discovery, namespace, byName)[k].entries| <= 128
  {
    ChunkSpan(Ordered(byName.Keys), k);
  }

  /** Chunk k begins inside the names and holds at most 128 of them, in place. */
  lemma ChunkSpan(names: seq<string>, k: nat)
    requires k < ChunkCount(|names|)
    ensures 1 <= |Slice(names, k)| <= 128 && Offset(k) + |Slice(names, k)| <= |names|
    ensures forall i :: 0 <= i < |Slice(names, k)| ==> Slice(names, k)[i] == names[Offset(k) + i]
  {
  }

  /** Name n is entry n % 128 of chunk n / 128. */
  lemma ChunkOfName(names: seq<string>, n: nat)
    requires n < |names|
    ensures n / 128 < ChunkCount(|names|)
    ensures n % 128 < |Slice(names, n / 128)| && Slice(names, n / 128)[n % 128] == names[n]
  {
    assert Offset(n / 128) + n % 128 == n;
  }

  lemma ChunkKeysDistinct(discovery: string, namespace: string, byName: map<string, string>)
    ensures DistinctKeys(Chunks(discovery, namespace, byName), Key)
  {
    var crs := Chunks(discovery, namespace, byName);
    forall k, l | 0 <= k < l < |crs| ensures Key(crs[k]) != Key(crs[l]) {
      ChunkKeysDiffer(namespace, discovery, k, l, crs[k], crs[l]);
    }
  }

  lemma ChunkKeysDiffer(namespace: string, discovery: string, k: nat, l: nat, a: AliasCr, b: AliasCr)
    requires a.namespace == b.namespace == namespace
    requires a.name == ChunkName(discovery, k) && b.name == ChunkName(discovery, l)
    requires k != l
    ensures Key(a) != Key(b)
  {
    if Key(a) == Key(b) {
      var stem := |namespace| + 1 + |discovery| + |"-aliases-"|;
      assert Key(a)[stem..] == Decimal(k) && Key(b)[stem..] == Decimal(l);
      DecimalInjective(k, l);
    }
  }

  /** Entry i of chunk k is the name at position 128k + i of the sorted names. */
  lemma ChunkEntry(discovery: string, namespace: string, byName: map<string, string>, k: nat, i: nat)
    requires k < |Chunks(discovery, namespace, byName)|
    requires i < |Chunks(discovery, namespace, byName)[k].entries|
    ensures var names, e := Ordered(byName.Keys), Chunks(discovery, namespace, byName)[k].entries[i];
            && Offset(k) + i < |names| && i < 128 && e.name == names[Offset(k) + i]
            && e.name in byName && e.value == byName[e.name]
  {
    var names := Ordered(byName.Keys);
    ChunkSpan(names, k);
    assert names[Offset(k) + i] in Elements(names);
  }

  lemma SamePlace(names: seq<string>, k: nat, i: nat, l: nat, j: nat)
    requires Ascending(names) && i < 128 && j < 128
    requires Offset(k) + i < |names| && Offset(l) + j < |names|
    requires names[Offset(k) + i] == names[Offset(l) + j]
    ensures k == l && i == j
  {
    var a, b := Offset(k) + i, Offset(l) + j;
    if a < b { AscendingDistinct(names, a, b); }
    if b < a { AscendingDistinct(names, b, a); }
  }

  /** No name stands in two CRs, nor twice in one. */
  lemma NamesAppearOnce(discovery: string, namespace: string, byName: map<string, string>, k: nat, i: nat, l: nat, j: nat)
    requires var crs := Chunks(discovery, namespace, byName);
             && k < |crs| && l < |crs| && i < |crs[k].entries| && j < |crs[l].entries|
             && crs[k].entries[i].name == crs[l].entries[j].name
    ensures k == l && i == j
  {
    ChunkEntry(discovery, namespace, byName, k, i);
    ChunkEntry(discovery, namespace, byName, l, j);
    SamePlace(Ordered(byName.Keys), k, i, l, j);
  }

  lemma EveryNameInAChunk(discovery: string, namespace: string, byName: map<string, string>, name: string)
    returns (k: nat, i: nat)
    requires name in byName
    ensures Names(Chunks(discovery, namespace, byName), k, i, name)
  {
    var names := Ordered(byName.Keys);
    assert name in Elements(names);
    var n :| 0 <= n < |names| && names[n] == name;
    k, i := n / 128, n % 128;
    ChunkOfName(names, n);
    assert Chunks(discovery, namespace, byName)[k] == ChunkCr(discovery, namespace, names, byName, k);
  }

  /**
   Aggregating the generated CRs, listed in any order and whatever order their names sort in,
   gives back exactly the map, and no entry loses its slot to another.
   */
  lemma ChunkingIsLossless(discovery: string, namespace: string, byName: map<string, string>, items: seq<AliasCr>)
    requires multiset(items) == multiset(Chunks(discovery, namespace, byName))
    ensures Aggregated(items).desired == byName
    ensures forall alias :: Losers(Aggregated(items), alias) == []
  {
    var crs := Chunks(discovery, namespace, byName);
    ChunkKeysDistinct(discovery, namespace, byName);
    OrderIndependent(crs, items);
    var a := Aggregated(crs);
    forall name ensures name in a.desired <==> name in byName
                ensures name in a.desired ==> a.desired[name] == byName[name] {
      ChunkedDesired(discovery, namespace, byName, name);
    }
    forall alias ensures Losers(a, alias) == [] {
      NoLosers(discovery, namespace, byName, alias);
    }
  }

  lemma ChunkedDesired(discovery: string, namespace: string, byName: map<string, string>, name: string)
    ensures var desired := Aggregated(Chunks(discovery, namespace, byName)).desired;
            (name in desired <==> name in byName) && (name in desired ==> desired[name] == byName[name])
  {
    var crs := Chunks(discovery, namespace, byName);
    DesiredExactlyNamed(crs, name);
    if name in byName {
      var k, i := EveryNameInAChunk(discovery, namespace, byName, name);
    }
    if name in Aggregated(crs).desired {
      var k, i := DesiredFromEntry(crs, name);
      ChunkEntry(discovery, namespace, byName, k, i);
    }
  }

  lemma NoLosers(discovery: string, namespace: string, byName: map<string, string>, alias: string)
    ensures Losers(Aggregated(Chunks(discovery, namespace, byName)), alias) == []
  {
    var crs := Chunks(discovery, namespace, byName);
    var claims := Claims(crs, alias);
    FoldByAlias(Flat(Sort(crs, Key)), alias);
    ChunkKeysDistinct(discovery, namespace, byName);
    ClaimsInOrder(crs, alias);
    if |claims| > 1 {
      var k, i := ClaimIs(crs, alias, claims[0]);
      var l, j := ClaimIs(crs, alias, claims[1]);
      NamesAppearOnce(discovery, namespace, byName, k, i, l, j);
      assert Before(claims[0], claims[1]);
      IdsDiffer(claims[0], claims[1]);
    }
    assert |Ids(claims)| == |claims| <= 1;
  }
}
