/**
 The alias pipeline end to end: the CRs a ModelDiscovery generates, aggregated by the alias
 reconciler and written to router_settings, arrive there as the later-rule-wins map.
 */
module AliasPipeline {
  import opened Wrappers
  import opened RouterSettings
  import opened AliasAggregate
  import opened DiscoveryAliases
  import opened AliasController

  /** In the pass that stands at its POST, the living CRs are the generated ones, in some order. */
  ghost predicate Generated(list: seq<AliasObj>, discovery: string, namespace: string, byName: map<string, string>) {
    multiset(Crs(Alive(list))) == multiset(Chunks(discovery, namespace, byName))
  }

  /** Whatever went before and whatever else stands in router_settings, the POST that lands writes the map and keeps the rest as read. */
  lemma PostPublishes(w: World, acked: bool, discovery: string, namespace: string, byName: map<string, string>)
    requires Enabled(w, Post(true, acked)) && Generated(w.phase.list, discovery, namespace, byName)
    ensures var after := Step(w, Post(true, acked)).remote;
            Readable(after) && Split(after) == Parts(w.phase.read - {ALIAS}, byName)
  {
    var list := w.phase.list;
    ChunkingIsLossless(discovery, namespace, byName, Crs(Alive(list)));
    SplitMerge(Parts(Split(w.phase.read).extra, Desired(list)));
    assert Split(w.phase.read).extra - {ALIAS} == w.phase.read - {ALIAS};
  }

  /**
   A clean pass over a cluster whose living alias CRs are those the rules generate leaves LiteLLM with
   exactly the aliases the rules yield, each with the child of the last rule that yields it.
   */
  lemma RulesReachLiteLLM(w: World, list: seq<AliasObj>, re: Regex, rules: seq<Rule>, children: seq<string>,
                          discovery: string, namespace: string, byName: map<string, string>)
    requires w.hist != [] && w.phase.Idle? && ListsCache(w, list) && AliveFinalized(list) && Readable(w.remote)
    requires LaterRuleWins(re, rules, children, byName) && Generated(list, discovery, namespace, byName)
    ensures var acts := [List(list), Get, Post(true, true)];
            && Runs(w, acts)
            && Readable(Run(w, acts).remote)
            && LaterRuleWins(re, rules, children, Split(Run(w, acts).remote).alias)
            && Run(w, acts).remote - {ALIAS} == w.remote - {ALIAS}
  {
    var acts := [List(list), Get, Post(true, true)];
    var w1 := Step(w, List(list));
    var w2 := Step(w1, Get);
    var w3 := Step(w2, Post(true, true));
    PostPublishes(w2, true, discovery, namespace, byName);
    assert acts[1..] == [Get, Post(true, true)] && acts[1..][1..] == [Post(true, true)] && acts[1..][1..][1..] == [];
    assert Runs(w3, []) && Runs(w2, [Post(true, true)]) && Run(w2, [Post(true, true)]) == w3;
    assert Runs(w1, acts[1..]) && Run(w1, acts[1..]) == w3;
    assert Split(w3.remote).extra == w3.remote - {ALIAS};
  }
}
