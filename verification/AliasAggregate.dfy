/**
 The aggregation of all LiteLLMModelAlias CRs into one map: CRs in key order, entries in declared
 order, the last write wins. `Fold` is the loop's effect over the flattened entries; the lemmas
 say what it amounts to without mentioning an order of evaluation.
 */
module AliasAggregate {
  import opened Text

  datatype Entry = Entry(name: string, value: string)

  datatype AliasCr = AliasCr(namespace: string, name: string, entries: seq<Entry>)

  function Key(cr: AliasCr): string {
    cr.namespace + "/" + cr.name
  }

  function EntryId(key: string, index: nat): string {
    key + "#" + Decimal(index)
  }

  /** One entry of one CR. */
  datatype Slot = Slot(key: string, index: nat, entry: Entry) {
    function Id(): string { EntryId(key, index) }
  }

  datatype Aggregate = Aggregate(
    desired: map<string, string>,
    winners: map<string, string>,
    losers: map<string, seq<string>>)

  const EMPTY := Aggregate(map[], map[], map[])

  function Losers(a: Aggregate, alias: string): seq<string> {
    if alias in a.losers then a.losers[alias] else []
  }

  // ----- The loop -----

  function Absorb(a: Aggregate, s: Slot): Aggregate {
    var n := s.entry.name;
    Aggregate(
      a.desired[n := s.entry.value],
      a.winners[n := s.Id()],
      if n in a.winners then a.losers[n := Losers(a, n) + [a.winners[n]]] else a.losers)
  }

  function Fold(slots: seq<Slot>): Aggregate {
    if slots == [] then EMPTY else Absorb(Fold(slots[..|slots| - 1]), slots[|slots| - 1])
  }

  function Slots(cr: AliasCr): seq<Slot> {
    seq(|cr.entries|, i requires 0 <= i < |cr.entries| => Slot(Key(cr), i, cr.entries[i]))
  }

  function Flat(crs: seq<AliasCr>): seq<Slot> {
    if crs == [] then [] else Flat(crs[..|crs| - 1]) + Slots(crs[|crs| - 1])
  }

  method AggregateModelAliases(items: seq<AliasCr>) returns (out: Aggregate)
    ensures out == Aggregated(items)
  {
    var sorted := Sort(items, Key);
    out := EMPTY;
    var done := 0;
    while done < |sorted|
      invariant 0 <= done <= |sorted|
      invariant out == Fold(Flat(sorted[..done]))
    {
      out := AbsorbEntries(out, sorted[done], Flat(sorted[..done]));
      assert sorted[..done + 1][..done] == sorted[..done];
      done := done + 1;
    }
    assert sorted[..done] == sorted;
  }

  /** The inner loop: one CR's entries, in declared order. */
  method AbsorbEntries(start: Aggregate, cr: AliasCr, ghost before: seq<Slot>) returns (out: Aggregate)
    requires start == Fold(before)
    ensures out == Fold(before + Slots(cr))
  {
    out := start;
    var i := 0;
    assert before + Slots(cr)[..0] == before;
    while i < |cr.entries|
      invariant 0 <= i <= |cr.entries|
      invariant out == Fold(before + Slots(cr)[..i])
    {
      out := AbsorbEntry(out, cr, i);
      FoldStep(before, Slots(cr), i);
      i := i + 1;
    }
    assert Slots(cr)[..i] == Slots(cr);
  }

  method AbsorbEntry(start: Aggregate, cr: AliasCr, i: nat) returns (out: Aggregate)
    requires i < |cr.entries|
    ensures out == Absorb(start, Slots(cr)[i])
  {
    var e := cr.entries[i];
    var owner := EntryId(Key(cr), i);
    var losers := start.losers;
    if e.name in start.winners {
      var before := if e.name in losers then losers[e.name] else [];
      losers := losers[e.name := before + [start.winners[e.name]]];
    }
    out := Aggregate(start.desired[e.name := e.value], start.winners[e.name := owner], losers);
  }

  lemma FoldStep(before: seq<Slot>, slots: seq<Slot>, i: nat)
    requires i < |slots|
    ensures Fold(before + slots[..i + 1]) == Absorb(Fold(before + slots[..i]), slots[i])
  {
    var so := before + slots[..i + 1];
    assert so[..|so| - 1] == before + slots[..i];
  }

  // ----- What it computes -----

  /** The slots naming an alias, in order. */
  function Named(slots: seq<Slot>, alias: string): seq<Slot> {
    if slots == [] then []
    else
      var rest, last := Named(slots[..|slots| - 1], alias), slots[|slots| - 1];
      if last.entry.name == alias then rest + [last] else rest
  }

  function Ids(slots: seq<Slot>): seq<string> {
    seq(|slots|, i requires 0 <= i < |slots| => slots[i].Id())
  }

  /** Losers followed by the winner are exactly the slots naming the alias; the winner's value is desired. */
  lemma {:induction false} FoldByAlias(slots: seq<Slot>, alias: string)
    ensures var a, named := Fold(slots), Named(slots, alias);
            && (alias in a.desired <==> named != [])
            && (alias in a.winners <==> named != [])
            && (named == [] ==> Losers(a, alias) == [])
            && (named != [] ==>
                  && a.desired[alias] == named[|named| - 1].entry.value
                  && a.winners[alias] == named[|named| - 1].Id()
                  && Losers(a, alias) + [a.winners[alias]] == Ids(named))
  {
    if slots != [] {
      var front, last := slots[..|slots| - 1], slots[|slots| - 1];
      FoldByAlias(front, alias);
      if last.entry.name == alias {
        var named := Named(front, alias);
        assert Ids(named + [last]) == Ids(named) + [last.Id()];
      }
    }
  }

  lemma {:induction false} NamedMembers(slots: seq<Slot>, alias: string, s: Slot)
    ensures s in Named(slots, alias) <==> s in slots && s.entry.name == alias
  {
    if slots != [] {
      NamedMembers(slots[..|slots| - 1], alias, s);
      assert slots == slots[..|slots| - 1] + [slots[|slots| - 1]];
    }
  }

  predicate Before(a: Slot, b: Slot) {
    Less(a.key, b.key) || (a.key == b.key && a.index < b.index)
  }

  ghost predicate InOrder(slots: seq<Slot>) {
    forall i, j :: 0 <= i < j < |slots| ==> Before(slots[i], slots[j])
  }

  lemma {:induction false} FlatMembers(crs: seq<AliasCr>, s: Slot)
    ensures s in Flat(crs) <==>
            exists c :: 0 <= c < |crs| && s in Slots(crs[c])
  {
    if crs != [] {
      var front := crs[..|crs| - 1];
      FlatMembers(front, s);
      if s in Flat(front) {
        var c :| 0 <= c < |front| && s in Slots(front[c]);
        assert crs[c] == front[c];
      }
      if exists c :: 0 <= c < |crs| && s in Slots(crs[c]) {
        var c :| 0 <= c < |crs| && s in Slots(crs[c]);
        if c < |front| { assert front[c] == crs[c]; }
      }
    }
  }

  lemma {:induction false} FlatInOrder(crs: seq<AliasCr>)
    requires SortedBy(crs, Key)
    ensures InOrder(Flat(crs))
  {
    if crs != [] {
      var front, last := crs[..|crs| - 1], crs[|crs| - 1];
      FlatInOrder(front);
      forall i, j | 0 <= i < j < |Flat(crs)| ensures Before(Flat(crs)[i], Flat(crs)[j]) {
        var n := |Flat(front)|;
        if i < n <= j {
          FlatMembers(front, Flat(front)[i]);
          var c :| 0 <= c < |front| && Flat(front)[i] in Slots(front[c]);
          assert Less(Key(crs[c]), Key(crs[|crs| - 1]));
        }
      }
    }
  }

  lemma {:induction false} NamedInOrder(slots: seq<Slot>, alias: string)
    requires InOrder(slots)
    ensures InOrder(Named(slots, alias))
  {
    if slots != [] {
      var front, last := slots[..|slots| - 1], slots[|slots| - 1];
      NamedInOrder(front, alias);
      var named := Named(front, alias);
      forall i | 0 <= i < |named| ensures Before(named[i], last) {
        NamedMembers(front, alias, named[i]);
        var k :| 0 <= k < |front| && front[k] == named[i];
        assert slots[k] == front[k];
      }
    }
  }

  function Aggregated(items: seq<AliasCr>): Aggregate {
    Fold(Flat(Sort(items, Key)))
  }

  // ----- In terms of the CRs, in whatever order they are listed -----

  /** Entry i of CR c names the alias. */
  ghost predicate Names(items: seq<AliasCr>, c: nat, i: nat, alias: string) {
    c < |items| && i < |items[c].entries| && items[c].entries[i].name == alias
  }

  function SlotOf(cr: AliasCr, i: nat): Slot
    requires i < |cr.entries|
  {
    Slot(Key(cr), i, cr.entries[i])
  }

  lemma SortedMembers(items: seq<AliasCr>, s: Slot)
    ensures s in Flat(Sort(items, Key)) <==> exists c :: 0 <= c < |items| && s in Slots(items[c])
  {
    var sorted := Sort(items, Key);
    SortSorts(items, Key);
    FlatMembers(sorted, s);
    if exists c :: 0 <= c < |sorted| && s in Slots(sorted[c]) {
      var c :| 0 <= c < |sorted| && s in Slots(sorted[c]);
      assert sorted[c] in multiset(items);
      var d :| 0 <= d < |items| && items[d] == sorted[c];
    }
    if exists c :: 0 <= c < |items| && s in Slots(items[c]) {
      var c :| 0 <= c < |items| && s in Slots(items[c]);
      assert items[c] in multiset(sorted);
      var d :| 0 <= d < |sorted| && sorted[d] == items[c];
    }
  }

  /** The slots naming an alias, in the order the aggregation meets them. */
  function Claims(items: seq<AliasCr>, alias: string): seq<Slot> {
    Named(Flat(Sort(items, Key)), alias)
  }

  lemma ClaimOf(items: seq<AliasCr>, alias: string, c: nat, i: nat)
    requires Names(items, c, i, alias)
    ensures SlotOf(items[c], i) in Claims(items, alias)
  {
    var s := SlotOf(items[c], i);
    assert Slots(items[c])[i] == s;
    SortedMembers(items, s);
    NamedMembers(Flat(Sort(items, Key)), alias, s);
  }

  lemma ClaimIs(items: seq<AliasCr>, alias: string, s: Slot) returns (c: nat, i: nat)
    requires s in Claims(items, alias)
    ensures Names(items, c, i, alias) && SlotOf(items[c], i) == s
  {
    NamedMembers(Flat(Sort(items, Key)), alias, s);
    SortedMembers(items, s);
    c :| 0 <= c < |items| && s in Slots(items[c]);
    i :| 0 <= i < |Slots(items[c])| && Slots(items[c])[i] == s;
  }

  lemma ClaimsInOrder(items: seq<AliasCr>, alias: string)
    requires DistinctKeys(items, Key)
    ensures InOrder(Claims(items, alias))
  {
    SortSorts(items, Key);
    FlatInOrder(Sort(items, Key));
    NamedInOrder(Flat(Sort(items, Key)), alias);
  }

  /** An alias is desired exactly when some entry names it. */
  lemma DesiredExactlyNamed(items: seq<AliasCr>, alias: string)
    ensures alias in Aggregated(items).desired <==> exists c: nat, i: nat :: Names(items, c, i, alias)
    ensures alias in Aggregated(items).desired <==> alias in Aggregated(items).winners
  {
    FoldByAlias(Flat(Sort(items, Key)), alias);
    var claims := Claims(items, alias);
    if claims != [] {
      var c, i := ClaimIs(items, alias, claims[0]);
    }
    forall c: nat, i: nat | Names(items, c, i, alias) ensures claims != [] {
      ClaimOf(items, alias, c, i);
    }
  }

  lemma DesiredFromEntry(items: seq<AliasCr>, alias: string) returns (c: nat, i: nat)
    requires alias in Aggregated(items).desired
    ensures Names(items, c, i, alias) && Aggregated(items).desired[alias] == items[c].entries[i].value
  {
    FoldByAlias(Flat(Sort(items, Key)), alias);
    var claims := Claims(items, alias);
    c, i := ClaimIs(items, alias, claims[|claims| - 1]);
  }

  /** Its value and its owner are those of the greatest (CR key, entry index) naming it. */
  lemma GreatestWins(items: seq<AliasCr>, alias: string) returns (c: nat, i: nat)
    requires DistinctKeys(items, Key)
    requires alias in Aggregated(items).desired
    ensures alias in Aggregated(items).winners
    ensures Names(items, c, i, alias)
    ensures Aggregated(items).desired[alias] == items[c].entries[i].value
    ensures Aggregated(items).winners[alias] == items[c].namespace + "/" + items[c].name + "#" + Decimal(i)
    ensures forall d: nat, j: nat :: Names(items, d, j, alias) ==>
              var mine, other := items[c].namespace + "/" + items[c].name, items[d].namespace + "/" + items[d].name;
              Less(other, mine) || (other == mine && j <= i)
  {
    FoldByAlias(Flat(Sort(items, Key)), alias);
    ClaimsInOrder(items, alias);
    var claims := Claims(items, alias);
    c, i := ClaimIs(items, alias, claims[|claims| - 1]);
    forall d: nat, j: nat | Names(items, d, j, alias)
      ensures SlotOf(items[d], j) == SlotOf(items[c], i) || Before(SlotOf(items[d], j), SlotOf(items[c], i))
    {
      ClaimOf(items, alias, d, j);
      var k :| 0 <= k < |claims| && claims[k] == SlotOf(items[d], j);
    }
  }

  /** The identifier determines the entry: digits hold no '#'. */
  lemma EntryIdInjective(k: string, i: nat, l: string, j: nat)
    requires EntryId(k, i) == EntryId(l, j)
    ensures k == l && i == j
  {
    if |k| < |l| { HashPlace(k, i, l, j); }
    if |l| < |k| { HashPlace(l, j, k, i); }
    var id := EntryId(k, i);
    assert id[..|k|] == k && id[..|l|] == l;
    assert id[|k| + 1..] == Decimal(i) && id[|l| + 1..] == Decimal(j);
    DecimalInjective(i, j);
  }

  lemma HashPlace(k: string, i: nat, l: string, j: nat)
    requires EntryId(k, i) == EntryId(l, j)
    ensures |k| >= |l|
  {
    if |k| < |l| {
      assert EntryId(l, j)[|l|] == '#';
      DecimalDigits(i, |l| - |k| - 1);
    }
  }

  /** Losers and winner together list every entry naming the alias, and nothing else, exactly once. */
  lemma EveryClaimListedOnce(items: seq<AliasCr>, alias: string, id: string)
    requires DistinctKeys(items, Key)
    requires alias in Aggregated(items).desired
    ensures alias in Aggregated(items).winners
    ensures var listed := Losers(Aggregated(items), alias) + [Aggregated(items).winners[alias]];
            && multiset(listed)[id] <= 1
            && (id in listed <==> exists c: nat, i: nat :: Names(items, c, i, alias) && EntryId(Key(items[c]), i) == id)
  {
    FoldByAlias(Flat(Sort(items, Key)), alias);
    ClaimsInOrder(items, alias);
    var claims := Claims(items, alias);
    forall a, b | 0 <= a < b < |Ids(claims)| ensures Ids(claims)[a] != Ids(claims)[b] {
      assert Before(claims[a], claims[b]);
      IdsDiffer(claims[a], claims[b]);
    }
    DistinctOnce(Ids(claims), Itself, id);
    if id in Ids(claims) {
      var k :| 0 <= k < |Ids(claims)| && Ids(claims)[k] == id;
      var c, i := ClaimIs(items, alias, claims[k]);
      assert Names(items, c, i, alias) && EntryId(Key(items[c]), i) == id;
    }
    forall c: nat, i: nat | Names(items, c, i, alias) && EntryId(Key(items[c]), i) == id ensures id in Ids(claims) {
      ClaimOf(items, alias, c, i);
      var k :| 0 <= k < |claims| && claims[k] == SlotOf(items[c], i);
      assert Ids(claims)[k] == id;
    }
  }

  lemma IdsDiffer(a: Slot, b: Slot)
    requires Before(a, b)
    ensures a.Id() != b.Id()
  {
    if a.Id() == b.Id() {
      EntryIdInjective(a.key, a.index, b.key, b.index);
      LessIrreflexive(a.key);
    }
  }

  /** The order in which the CRs are listed does not matter. */
  lemma OrderIndependent(items: seq<AliasCr>, others: seq<AliasCr>)
    requires DistinctKeys(items, Key)
    requires multiset(items) == multiset(others)
    ensures Aggregated(items) == Aggregated(others)
  {
    PermutedDistinct(items, others, Key);
    SortSorts(items, Key);
    SortSorts(others, Key);
    var a, b := Sort(items, Key), Sort(others, Key);
    forall x ensures x in a <==> x in b {
      assert x in a <==> x in multiset(a);
      assert x in b <==> x in multiset(b);
    }
    SortedUnique(a, b, Key);
  }

  // ----- Status rows -----

  datatype Row = Row(name: string, applied: bool, appliedValue: string, conflictsWith: string)

  function WinnerOf(a: Aggregate, alias: string): string {
    if alias in a.winners then a.winners[alias] else ""
  }

  method ResolveCr(a: Aggregate, cr: AliasCr) returns (out: seq<Row>)
    ensures |out| == |cr.entries|
    ensures forall i :: 0 <= i < |out| ==>
              && out[i].name == cr.entries[i].name
              && (out[i].applied <==> WinnerOf(a, out[i].name) == EntryId(Key(cr), i))
              && out[i].appliedValue == (if out[i].applied then cr.entries[i].value else "")
              && out[i].conflictsWith == (if out[i].applied then "" else WinnerOf(a, out[i].name))
  {
    out := [];
    for i := 0 to |cr.entries|
      invariant |out| == i
      invariant forall j :: 0 <= j < i ==> out[j] == RowOf(a, cr, j)
    {
      var e := cr.entries[i];
      var owner := EntryId(Key(cr), i);
      var winner := WinnerOf(a, e.name);
      if winner == owner {
        out := out + [Row(e.name, true, e.value, "")];
      } else {
        out := out + [Row(e.name, false, "", winner)];
      }
    }
  }

  function RowOf(a: Aggregate, cr: AliasCr, i: nat): Row
    requires i < |cr.entries|
  {
    var e := cr.entries[i];
    if WinnerOf(a, e.name) == EntryId(Key(cr), i) then Row(e.name, true, e.value, "")
    else Row(e.name, false, "", WinnerOf(a, e.name))
  }

  /**
   Of the entries naming an alias exactly one is marked applied, with the value that is written;
   every other one points at it.
   */
  lemma ExactlyOneApplied(items: seq<AliasCr>, alias: string) returns (c: nat, i: nat)
    requires DistinctKeys(items, Key)
    requires exists d: nat, j: nat :: Names(items, d, j, alias)
    ensures var a := Aggregated(items);
            && Names(items, c, i, alias)
            && alias in a.desired
            && RowOf(a, items[c], i) == Row(alias, true, a.desired[alias], "")
            && forall d: nat, j: nat :: Names(items, d, j, alias) && (d, j) != (c, i) ==>
                 RowOf(a, items[d], j) == Row(alias, false, "", EntryId(Key(items[c]), i))
  {
    var a := Aggregated(items);
    DesiredExactlyNamed(items, alias);
    c, i := GreatestWins(items, alias);
    forall d: nat, j: nat | Names(items, d, j, alias) && (d, j) != (c, i)
      ensures EntryId(Key(items[d]), j) != EntryId(Key(items[c]), i)
    {
      if EntryId(Key(items[d]), j) == EntryId(Key(items[c]), i) {
        EntryIdInjective(Key(items[d]), j, Key(items[c]), i);
      }
    }
  }
}
