/**
 The closed grant of a team. POST /team/update merges: a grant field that is omitted or null keeps
 its stale value. The render therefore sends every field on every write, and the drift hash of the
 rendered body decides whether there is anything to write.
 */
module TeamGrant {
  import opened Wrappers
  import opened Text
  import opened CanonicalJson

  const NO_MODELS := "no-default-models"
  const NO_AGENTS := "00000000-0000-0000-0000-000000000000"

  type Row = map<string, Json>

  datatype Group = Group(name: string, id: string, models: seq<string>)

  // ----- Resolving the attached groups -----

  function NameToId(groups: seq<Group>): map<string, string> {
    if groups == [] then map[]
    else NameToId(groups[..|groups| - 1])[groups[|groups| - 1].name := groups[|groups| - 1].id]
  }

  function NameToModels(groups: seq<Group>): map<string, seq<string>> {
    if groups == [] then map[]
    else NameToModels(groups[..|groups| - 1])[groups[|groups| - 1].name := groups[|groups| - 1].models]
  }

  method IndexGroups(groups: seq<Group>) returns (ids: map<string, string>, models: map<string, seq<string>>)
    ensures ids == NameToId(groups) && models == NameToModels(groups)
  {
    ids, models := map[], map[];
    for i := 0 to |groups|
      invariant ids == NameToId(groups[..i]) && models == NameToModels(groups[..i])
    {
      assert groups[..i + 1][..i] == groups[..i];
      ids := ids[groups[i].name := groups[i].id];
      models := models[groups[i].name := groups[i].models];
    }
    assert groups[..|groups|] == groups;
  }

  /** A group resolves exactly when some listed row carries its name. */
  lemma {:induction false} ResolvesIff(groups: seq<Group>, name: string)
    ensures name in NameToId(groups) <==> exists i :: 0 <= i < |groups| && groups[i].name == name
    ensures NameToModels(groups).Keys == NameToId(groups).Keys
  {
    if groups != [] {
      var front := groups[..|groups| - 1];
      ResolvesIff(front, name);
      assert forall i :: 0 <= i < |front| ==> front[i] == groups[i];
      SameKeys(front);
    }
  }

  lemma {:induction false} SameKeys(groups: seq<Group>)
    ensures NameToModels(groups).Keys == NameToId(groups).Keys
  {
    if groups != [] { SameKeys(groups[..|groups| - 1]); }
  }

  /** Row i is the last listed one of its name. */
  ghost predicate LastNamed(groups: seq<Group>, i: nat, name: string) {
    i < |groups| && groups[i].name == name && forall j :: i < j < |groups| ==> groups[j].name != name
  }

  /** Id and models of a name are those of the last row listed under it. */
  lemma {:induction false} IndexedIsLast(groups: seq<Group>, name: string) returns (i: nat)
    ensures name in NameToId(groups) <==> LastNamed(groups, i, name)
    ensures name in NameToModels(groups) <==> LastNamed(groups, i, name)
    ensures name in NameToId(groups) ==> NameToId(groups)[name] == groups[i].id
    ensures name in NameToModels(groups) ==> NameToModels(groups)[name] == groups[i].models
    ensures forall j: nat :: LastNamed(groups, j, name) ==> j == i
  {
    i := 0;
    if groups != [] {
      var last := |groups| - 1;
      if groups[last].name == name {
        i := last;
      } else {
        i := IndexedIsLast(groups[..last], name);
        LastNamedFront(groups, name);
      }
    }
  }

  lemma LastNamedFront(groups: seq<Group>, name: string)
    requires groups != [] && groups[|groups| - 1].name != name
    ensures forall j: nat :: LastNamed(groups, j, name) <==> LastNamed(groups[..|groups| - 1], j, name)
  {
    var front := groups[..|groups| - 1];
    assert forall j :: 0 <= j < |front| ==> front[j] == groups[j];
  }

  function Resolved(names: seq<string>, ids: map<string, string>): seq<string> {
    if names == [] then []
    else
      var rest, last := Resolved(names[..|names| - 1], ids), names[|names| - 1];
      if last in ids then rest + [ids[last]] else rest
  }

  function Missing(names: seq<string>, ids: map<string, string>): seq<string> {
    if names == [] then []
    else
      var rest, last := Missing(names[..|names| - 1], ids), names[|names| - 1];
      if last in ids then rest else rest + [last]
  }

  method ResolveNames(names: seq<string>, ids: map<string, string>) returns (resolved: seq<string>, missing: seq<string>)
    ensures resolved == Resolved(names, ids) && missing == Missing(names, ids)
    ensures |resolved| + |missing| == |names|
  {
    resolved, missing := [], [];
    for i := 0 to |names|
      invariant resolved == Resolved(names[..i], ids) && missing == Missing(names[..i], ids)
      invariant |resolved| + |missing| == i
    {
      assert names[..i + 1][..i] == names[..i];
      if names[i] in ids {
        resolved := resolved + [ids[names[i]]];
      } else {
        missing := missing + [names[i]];
      }
    }
    assert names[..|names|] == names;
  }

  /** Every name is either resolved or reported missing. */
  lemma {:induction false} ResolvedCount(names: seq<string>, ids: map<string, string>)
    ensures |Resolved(names, ids)| + |Missing(names, ids)| == |names|
    ensures Missing(names, ids) == [] <==> forall n :: n in names ==> n in ids
  {
    if names != [] {
      var front := names[..|names| - 1];
      ResolvedCount(front, ids);
      assert names == front + [names[|names| - 1]];
    }
  }

  // ----- The mirrored models -----

  /** A model name that may be copied: not empty, not a sentinel, not a wildcard. */
  predicate Plain(m: string) {
    m != "" && m != NO_MODELS && m != "all-proxy-models" && '*' !in m
  }

  /** The plain models of the named groups. */
  function Mirrored(names: seq<string>, byName: map<string, seq<string>>): set<string> {
    set n, m | n in names && n in byName && m in byName[n] && Plain(m) :: m
  }

  method AttachedGroupModels(names: seq<string>, byName: map<string, seq<string>>) returns (out: seq<string>)
    ensures out == Ordered(Mirrored(names, byName))
  {
    var found: seq<string> := [];
    for i := 0 to |names|
      invariant Elements(found) == Mirrored(names[..i], byName)
      invariant DistinctKeys(found, Itself)
    {
      assert names[..i + 1] == names[..i] + [names[i]];
      if names[i] in byName {
        found := AddModels(found, byName[names[i]]);
      }
      assert Elements(found) == Mirrored(names[..i + 1], byName);
    }
    assert names[..|names|] == names;
    out := Sort(found, Itself);
    SortSorts(found, Itself);
    SameElements(out, found);
    OrderedUnique(Mirrored(names, byName), out);
  }

  function PlainOf(models: seq<string>): set<string> {
    set m | m in models && Plain(m)
  }

  /** The inner loop: what is plain and not yet seen. */
  method AddModels(start: seq<string>, models: seq<string>) returns (found: seq<string>)
    requires DistinctKeys(start, Itself)
    ensures DistinctKeys(found, Itself)
    ensures Elements(found) == Elements(start) + PlainOf(models)
  {
    found := start;
    for j := 0 to |models|
      invariant DistinctKeys(found, Itself)
      invariant Elements(found) == Elements(start) + PlainOf(models[..j])
    {
      var m := models[j];
      assert models[..j + 1] == models[..j] + [m];
      assert PlainOf(models[..j + 1]) == PlainOf(models[..j]) + if Plain(m) then {m} else {};
      assert m in found <==> m in Elements(found);
      if Plain(m) && m !in found {
        assert Elements(found + [m]) == Elements(found) + {m};
        found := found + [m];
      }
    }
    assert models[..|models|] == models;
  }

  // ----- The render -----

  function Strs(s: seq<string>): Json {
    Arr(seq(|s|, i requires 0 <= i < |s| => Str(s[i])))
  }

  function EmptyIfNil(s: Option<seq<string>>): Json {
    Strs(if s.Some? then s.value else [])
  }

  const PERMISSIONS: Row := map[
    "mcp_servers" := Arr([]),
    "mcp_access_groups" := Arr([]),
    "agents" := Arr([Str(NO_AGENTS)]),
    "agent_access_groups" := Arr([]),
    "mcp_toolsets" := Arr([])]

  function ClosedTeamGrant(ids: Option<seq<string>>, models: seq<string>): Row {
    map["models" := Strs([NO_MODELS] + models),
        "object_permission" := Obj(PERMISSIONS),
        "access_group_ids" := EmptyIfNil(ids)]
  }

  ghost function GroupIds(names: seq<string>, groups: seq<Group>): seq<string> {
    Sort(Resolved(names, NameToId(groups)), Itself)
  }

  ghost function Grant(names: seq<string>, groups: seq<Group>): Row {
    ClosedTeamGrant(if names == [] then None else Some(GroupIds(names, groups)),
                    Ordered(Mirrored(names, NameToModels(groups))))
  }

  /** Step 7b: the grant keys over whatever else the body holds. */
  method RenderBody(base: Row, names: seq<string>, groups: seq<Group>) returns (body: Row, missing: seq<string>)
    ensures body == base + Grant(names, groups)
    ensures missing == Missing(names, NameToId(groups))
  {
    var ids: Option<seq<string>> := None;
    var models: seq<string>;
    missing := [];
    if names != [] {
      var nameToId, nameToModels := IndexGroups(groups);
      var resolved;
      resolved, missing := ResolveNames(names, nameToId);
      ids := Some(Sort(resolved, Itself));
      models := AttachedGroupModels(names, nameToModels);
    } else {
      models := [];
      OrderedUnique(Mirrored(names, NameToModels(groups)), []);
    }
    body := base + ClosedTeamGrant(ids, models);
  }

  /** What the render grants: the sentinel, and the plain models of the last listed row of each attached name. */
  lemma GrantedModels(names: seq<string>, groups: seq<Group>, m: string)
    ensures Str(m) in Grant(names, groups)["models"].items <==>
            || m == "no-default-models"
            || (m != "" && m != "all-proxy-models" && '*' !in m && exists i: nat :: i < |groups| && groups[i].name in names && LastNamed(groups, i, groups[i].name) && m in groups[i].models)
  {
    var byName := NameToModels(groups);
    var listed := [NO_MODELS] + Ordered(Mirrored(names, byName));
    var items := Grant(names, groups)["models"].items;
    assert forall i :: 0 <= i < |items| ==> items[i] == Str(listed[i]);
    assert Str(m) in items <==> m in listed by {
      if m in listed {
        var i :| 0 <= i < |listed| && listed[i] == m;
        assert items[i] == Str(m);
      }
    }
    assert m in Ordered(Mirrored(names, byName)) <==> m in Elements(Ordered(Mirrored(names, byName)));
    MirroredMembers(names, groups, m);
  }

  lemma MirroredMembers(names: seq<string>, groups: seq<Group>, m: string)
    ensures m in Mirrored(names, NameToModels(groups)) <==>
            Plain(m) && exists i: nat :: i < |groups| && groups[i].name in names && LastNamed(groups, i, groups[i].name) && m in groups[i].models
  {
    if m in Mirrored(names, NameToModels(groups)) {
      var n :| n in names && n in NameToModels(groups) && m in NameToModels(groups)[n];
      var i := IndexedIsLast(groups, n);
      assert groups[i].name == n;
    }
    if i: nat :| i < |groups| && groups[i].name in names && LastNamed(groups, i, groups[i].name) && m in groups[i].models {
      var k := IndexedIsLast(groups, groups[i].name);
    }
  }

  lemma {:induction false} ResolvedMembers(names: seq<string>, ids: map<string, string>, id: string)
    ensures id in Resolved(names, ids) <==> exists n :: n in names && n in ids && ids[n] == id
  {
    if names != [] {
      var front := names[..|names| - 1];
      ResolvedMembers(front, ids, id);
      assert names == front + [names[|names| - 1]];
    }
  }

  /** And the groups it attaches: exactly the ids of the last listed rows of the attached names. */
  lemma GrantedIds(names: seq<string>, groups: seq<Group>, id: string)
    ensures Str(id) in Grant(names, groups)["access_group_ids"].items <==>
            exists i: nat :: i < |groups| && groups[i].name in names && LastNamed(groups, i, groups[i].name) && groups[i].id == id
  {
    var ids := NameToId(groups);
    var listed := if names == [] then [] else GroupIds(names, groups);
    var items := Grant(names, groups)["access_group_ids"].items;
    assert items == Strs(listed).items;
    assert forall i :: 0 <= i < |items| ==> items[i] == Str(listed[i]);
    assert Str(id) in items <==> id in listed by {
      if id in listed {
        var i :| 0 <= i < |listed| && listed[i] == id;
        assert items[i] == Str(id);
      }
    }
    SortSorts(Resolved(names, ids), Itself);
    assert id in GroupIds(names, groups) <==> id in multiset(GroupIds(names, groups));
    assert id in Resolved(names, ids) <==> id in multiset(Resolved(names, ids));
    ResolvedIds(names, groups, id);
  }

  lemma ResolvedIds(names: seq<string>, groups: seq<Group>, id: string)
    ensures id in Resolved(names, NameToId(groups)) <==>
            exists i: nat :: i < |groups| && groups[i].name in names && LastNamed(groups, i, groups[i].name) && groups[i].id == id
  {
    ResolvedMembers(names, NameToId(groups), id);
    if id in Resolved(names, NameToId(groups)) {
      var n :| n in names && n in NameToId(groups) && NameToId(groups)[n] == id;
      var i := IndexedIsLast(groups, n);
      assert groups[i].name == n;
    }
    if i: nat :| i < |groups| && groups[i].name in names && LastNamed(groups, i, groups[i].name) && groups[i].id == id {
      var k := IndexedIsLast(groups, groups[i].name);
    }
  }

  // ----- Order independence -----

  ghost predicate Weakly(s: seq<string>) {
    forall i, j :: 0 <= i < j < |s| ==> AtMost(s[i], s[j])
  }

  lemma {:induction false} InsertWeakly(x: string, s: seq<string>)
    requires Weakly(s)
    ensures Weakly(Insert(x, s, Itself))
  {
    if s != [] {
      LessTotal(x, s[0]);
      if Less(x, s[0]) {
        forall j | 0 <= j < |s| ensures AtMost(x, s[j]) {
          if j > 0 && s[0] != s[j] { LessTransitive(x, s[0], s[j]); }
        }
      } else {
        var rest := Insert(x, s[1..], Itself);
        InsertWeakly(x, s[1..]);
        InsertContents(x, s[1..], Itself);
        forall j | 0 <= j < |rest| ensures AtMost(s[0], rest[j]) {
          assert rest[j] in multiset(rest);
          assert rest[j] == x || rest[j] in s[1..];
        }
      }
    }
  }

  lemma {:induction false} SortWeakly(s: seq<string>)
    ensures Weakly(Sort(s, Itself))
  {
    if s != [] {
      SortWeakly(s[1..]);
      InsertWeakly(s[0], Sort(s[1..], Itself));
    }
  }

  lemma {:induction false} WeaklyUnique(a: seq<string>, b: seq<string>)
    requires Weakly(a) && Weakly(b) && multiset(a) == multiset(b)
    ensures a == b
  {
    assert |a| == |multiset(a)| && |b| == |multiset(b)|;
    if a != [] {
      HeadsAgree(a, b);
      TailsAgree(a, b, 0);
      assert b[..0] + b[1..] == b[1..];
      TailWeakly(a);
      TailWeakly(b);
      WeaklyUnique(a[1..], b[1..]);
      SameHeadAndTail(a, b);
    }
  }

  lemma TailWeakly(a: seq<string>)
    requires Weakly(a) && a != []
    ensures Weakly(a[1..])
  {
  }

  lemma SameHeadAndTail(a: seq<string>, b: seq<string>)
    requires a != [] && b != [] && a[0] == b[0] && a[1..] == b[1..]
    ensures a == b
  {
    assert a == [a[0]] + a[1..] && b == [b[0]] + b[1..];
  }

  lemma HeadsAgree(a: seq<string>, b: seq<string>)
    requires Weakly(a) && Weakly(b) && a != [] && multiset(a) == multiset(b)
    ensures b != [] && a[0] == b[0]
  {
    assert a[0] in multiset(b);
    assert b != [] && b[0] in multiset(a);
    LeastFirst(a, b[0]);
    LeastFirst(b, a[0]);
    if Less(a[0], b[0]) { LessAsymmetric(a[0], b[0]); }
  }

  lemma TailsAgree(a: seq<string>, b: seq<string>, i: nat)
    requires a != [] && i < |b| && b[i] == a[0] && multiset(a) == multiset(b)
    ensures multiset(a[1..]) == multiset(b[..i] + b[i + 1..])
  {
    var x := a[0];
    assert a == [x] + a[1..];
    assert b == b[..i] + ([x] + b[i + 1..]);
    assert multiset(a) == multiset{x} + multiset(a[1..]);
    assert multiset(b) == multiset(b[..i]) + (multiset{x} + multiset(b[i + 1..]));
    assert multiset(b[..i] + b[i + 1..]) == multiset(b[..i]) + multiset(b[i + 1..]);
    assert multiset(a[1..]) == multiset(a) - multiset{x};
  }

  lemma LeastFirst(a: seq<string>, x: string)
    requires Weakly(a) && x in a
    ensures AtMost(a[0], x)
  {
    var i :| 0 <= i < |a| && a[i] == x;
  }

  lemma {:induction false} ResolvedAppend(a: seq<string>, b: seq<string>, ids: map<string, string>)
    ensures Resolved(a + b, ids) == Resolved(a, ids) + Resolved(b, ids)
    decreases |b|
  {
    if b == [] {
      assert a + b == a;
    } else {
      assert (a + b)[..|a + b| - 1] == a + b[..|b| - 1];
      ResolvedAppend(a, b[..|b| - 1], ids);
    }
  }

  function IdOf(name: string, ids: map<string, string>): multiset<string> {
    if name in ids then multiset{ids[name]} else multiset{}
  }

  lemma ResolvedWithout(a: seq<string>, i: nat, ids: map<string, string>)
    requires i < |a|
    ensures multiset(Resolved(a, ids)) == multiset(Resolved(a[..i] + a[i + 1..], ids)) + IdOf(a[i], ids)
  {
    assert a == a[..i] + [a[i]] + a[i + 1..];
    ResolvedAppend(a[..i] + [a[i]], a[i + 1..], ids);
    ResolvedAppend(a[..i], [a[i]], ids);
    ResolvedAppend(a[..i], a[i + 1..], ids);
    assert [a[i]][..0] == [];
    assert multiset(Resolved([a[i]], ids)) == IdOf(a[i], ids);
  }

  lemma {:induction false} ResolvedPermuted(a: seq<string>, b: seq<string>, ids: map<string, string>)
    requires multiset(a) == multiset(b)
    ensures multiset(Resolved(a, ids)) == multiset(Resolved(b, ids))
    decreases |a|
  {
    if a == [] {
      assert |multiset(b)| == 0;
    } else {
      assert a[0] in multiset(b);
      var i :| 0 <= i < |b| && b[i] == a[0];
      var rest := b[..i] + b[i + 1..];
      assert a[..0] + a[1..] == a[1..];
      TailsAgree(a, b, i);
      ResolvedPermuted(a[1..], rest, ids);
      ResolvedWithout(a, 0, ids);
      ResolvedWithout(b, i, ids);
    }
  }

  /** The order of spec.accessGroups does not reach the body. */
  lemma RenderIgnoresOrder(a: seq<string>, b: seq<string>, groups: seq<Group>)
    requires multiset(a) == multiset(b)
    ensures Grant(a, groups) == Grant(b, groups)
  {
    var ids := NameToId(groups);
    ResolvedPermuted(a, b, ids);
    var ra, rb := Resolved(a, ids), Resolved(b, ids);
    SortSorts(ra, Itself);
    SortSorts(rb, Itself);
    SortWeakly(ra);
    SortWeakly(rb);
    WeaklyUnique(Sort(ra, Itself), Sort(rb, Itself));
    forall n ensures n in a <==> n in b {
      assert n in a <==> n in multiset(a);
      assert n in b <==> n in multiset(b);
    }
    assert Mirrored(a, NameToModels(groups)) == Mirrored(b, NameToModels(groups));
    assert |a| == |multiset(a)| && |b| == |multiset(b)|;
  }

  // ----- The merge update -----

  function Fields(row: Row, key: string): Row {
    if key in row && row[key].Obj? then row[key].fields else map[]
  }

  /** Per field: what is sent and not null replaces, everything else stays. */
  function MergeFields(stored: Row, sent: Row): Row {
    stored + map k | k in sent && !sent[k].Null? :: sent[k]
  }

  const GRANT_KEYS := {"models", "object_permission", "access_group_ids"}

  /** POST /team/update on the grant keys; `rest` is whatever it makes of the others. */
  function Updated(row: Row, body: Row, rest: Row): Row {
    var flat := MergeFields(row, body);
    var merged := if "object_permission" in body && body["object_permission"].Obj?
      then flat["object_permission" := Obj(MergeFields(Fields(row, "object_permission"), body["object_permission"].fields))]
      else flat;
    (rest - GRANT_KEYS) + (map k | k in merged && k in GRANT_KEYS :: merged[k])
  }

  predicate HoldsList(row: Row, body: Row, key: string) {
    key in row && key in body && row[key] == body[key]
  }

  /** The row holds exactly the grant of the body: both lists, and every permission field sent. */
  ghost predicate Holds(row: Row, body: Row) {
    && HoldsList(row, body, "models") && HoldsList(row, body, "access_group_ids")
    && (forall k :: k in PERMISSIONS ==>
          && k in Fields(row, "object_permission") && k in Fields(body, "object_permission")
          && Fields(row, "object_permission")[k] == Fields(body, "object_permission")[k])
  }

  /** Whatever the row held before, a successful update leaves exactly the rendered grant. */
  lemma ExactRevocation(row: Row, base: Row, names: seq<string>, groups: seq<Group>, rest: Row)
    ensures Holds(Updated(row, base + Grant(names, groups), rest), base + Grant(names, groups))
  {
    var body := base + Grant(names, groups);
    BodyGrant(base, names, groups);
    UpdatedList(row, body, rest, "models");
    UpdatedList(row, body, rest, "access_group_ids");
    UpdatedPermissions(row, body, rest);
  }

  /** The grant keys of a body are the rendered ones. */
  lemma BodyGrant(base: Row, names: seq<string>, groups: seq<Group>)
    ensures var body, grant := base + Grant(names, groups), Grant(names, groups);
            && "models" in body && body["models"] == grant["models"] && body["models"].Arr?
            && "access_group_ids" in body && body["access_group_ids"] == grant["access_group_ids"] && body["access_group_ids"].Arr?
            && "object_permission" in body && body["object_permission"] == Obj(PERMISSIONS)
  {
    var grant := Grant(names, groups);
    assert |"models"| == 6 && |"access_group_ids"| == 16 && |"object_permission"| == 17;
    assert "models" in grant && "access_group_ids" in grant && "object_permission" in grant;
  }

  lemma UpdatedList(row: Row, body: Row, rest: Row, key: string)
    requires key in GRANT_KEYS && key != "object_permission" && key in body && !body[key].Null?
    ensures key in Updated(row, body, rest) && Updated(row, body, rest)[key] == body[key]
  {
  }

  lemma UpdatedPermissions(row: Row, body: Row, rest: Row)
    requires "object_permission" in body && body["object_permission"] == Obj(PERMISSIONS)
    ensures forall k :: k in PERMISSIONS ==>
              && k in Fields(Updated(row, body, rest), "object_permission")
              && Fields(Updated(row, body, rest), "object_permission")[k] == PERMISSIONS[k]
  {
    var merged := MergeFields(Fields(row, "object_permission"), PERMISSIONS);
    assert Updated(row, body, rest)["object_permission"] == Obj(merged);
    forall k | k in PERMISSIONS ensures k in merged && merged[k] == PERMISSIONS[k] {
      assert !PERMISSIONS[k].Null?;
    }
  }

  /**
   Whatever the row held, an update never leaves it open: `models` begins with the sentinel and
   `agents` is the sentinel, since LiteLLM reads an empty list there as no filter; the lists that
   fail closed are empty.
   */
  lemma NeverOpen(row: Row, base: Row, names: seq<string>, groups: seq<Group>, rest: Row)
    ensures var after := Updated(row, base + Grant(names, groups), rest);
            var permissions := Fields(after, "object_permission");
            && "models" in after && after["models"].Arr? && after["models"].items != []
            && after["models"].items[0] == Str("no-default-models")
            && "agents" in permissions && permissions["agents"] == Arr([Str("00000000-0000-0000-0000-000000000000")])
            && "mcp_servers" in permissions && permissions["mcp_servers"] == Arr([])
            && "mcp_access_groups" in permissions && permissions["mcp_access_groups"] == Arr([])
            && "agent_access_groups" in permissions && permissions["agent_access_groups"] == Arr([])
            && "mcp_toolsets" in permissions && permissions["mcp_toolsets"] == Arr([])
  {
    var body := base + Grant(names, groups);
    BodyGrant(base, names, groups);
    UpdatedList(row, body, rest, "models");
    UpdatedPermissions(row, body, rest);
    ClosedPermissions();
  }

  lemma ClosedPermissions()
    ensures "agents" in PERMISSIONS && PERMISSIONS["agents"] == Arr([Str("00000000-0000-0000-0000-000000000000")])
    ensures "mcp_servers" in PERMISSIONS && PERMISSIONS["mcp_servers"] == Arr([])
    ensures "mcp_access_groups" in PERMISSIONS && PERMISSIONS["mcp_access_groups"] == Arr([])
    ensures "agent_access_groups" in PERMISSIONS && PERMISSIONS["agent_access_groups"] == Arr([])
    ensures "mcp_toolsets" in PERMISSIONS && PERMISSIONS["mcp_toolsets"] == Arr([])
  {
    assert |"agents"| == 6 && |"mcp_servers"| == 11 && |"mcp_access_groups"| == 17 && |"agent_access_groups"| == 19 && |"mcp_toolsets"| == 12;
  }

  /** Why every key is sent: one that is omitted, or sent as null, leaves whatever stood there. */
  lemma OmittedKeepsStale(row: Row, body: Row, rest: Row, key: string)
    requires key in GRANT_KEYS && (key !in body || body[key].Null?) && key in row
    ensures key in Updated(row, body, rest) && Updated(row, body, rest)[key] == row[key]
  {
  }

  // ----- The drift hash and the steady state -----

  ghost function Hash(body: Row): string {
    Canonical(Obj(body))
  }

  lemma StringsWellFormed(s: seq<string>)
    ensures WellFormed(Strs(s))
  {
  }

  lemma PermissionsWellFormed()
    ensures WellFormed(Obj(PERMISSIONS))
  {
  }

  lemma BodyWellFormed(base: Row, names: seq<string>, groups: seq<Group>)
    requires WellFormed(Obj(base))
    ensures WellFormed(Obj(base + Grant(names, groups)))
  {
    var grant := Grant(names, groups);
    forall k | k in grant ensures WellFormed(grant[k]) {
      if k == "object_permission" { PermissionsWellFormed(); }
    }
  }

  /**
   A render with a missing group and a render with every group resolved never hash alike, whatever
   else changed: the second lists more ids.
   */
  lemma ReturnChangesHash(base: Row, before: seq<Group>, base': Row, after: seq<Group>, names: seq<string>)
    requires WellFormed(Obj(base)) && WellFormed(Obj(base'))
    requires Missing(names, NameToId(before)) != [] && Missing(names, NameToId(after)) == []
    ensures Hash(base + Grant(names, before)) != Hash(base' + Grant(names, after))
  {
    var narrowed, full := base + Grant(names, before), base' + Grant(names, after);
    BodyWellFormed(base, names, before);
    BodyWellFormed(base', names, after);
    Injective(Obj(narrowed), Obj(full));
    IdCount(base, names, before);
    IdCount(base', names, after);
    assert narrowed["access_group_ids"] != full["access_group_ids"];
  }

  /** The body lists one id per name that resolves. */
  lemma IdCount(base: Row, names: seq<string>, groups: seq<Group>)
    ensures var body, missing := base + Grant(names, groups), Missing(names, NameToId(groups));
            && "access_group_ids" in body && body["access_group_ids"].Arr?
            && |body["access_group_ids"].items| + |missing| == |names|
  {
    ResolvedCount(names, NameToId(groups));
    SortSorts(Resolved(names, NameToId(groups)), Itself);
    assert (base + Grant(names, groups))["access_group_ids"] == Grant(names, groups)["access_group_ids"];
  }

  /** Stored: the persisted hash and whether a team id is known. Remote: the team's row. */
  datatype Team = Team(hash: Option<string>, known: bool, row: Row)

  /**
   What one pass meets: the rest of the body, the listed groups, whether the generation was already
   observed, the fate of the write with the rest of the row it leaves, and that of the status write.
   */
  datatype Turn = Turn(base: Row, groups: seq<Group>, observed: bool, fate: Fate, rest: Row, statusKept: bool)

  ghost function BodyOf(names: seq<string>, t: Turn): Row {
    t.base + Grant(names, t.groups)
  }

  predicate Narrowing(names: seq<string>, t: Turn) {
    Missing(names, NameToId(t.groups)) != []
  }

  /** Step 9, or the corresponding test of a team that is parked: nothing is written. */
  ghost predicate Steady(team: Team, names: seq<string>, t: Turn) {
    if Narrowing(names, t) then !team.known || team.hash == Some(Hash(BodyOf(names, t)))
    else team.known && t.observed && team.hash == Some(Hash(BodyOf(names, t)))
  }

  predicate Lands(t: Turn) { t.fate.Lands() }

  predicate Recorded(t: Turn) { t.fate.Works? && t.statusKept }

  /** One pass over an existing or a new team. */
  ghost function Pass(team: Team, names: seq<string>, t: Turn): Team {
    var body := BodyOf(names, t);
    if Steady(team, names, t) then team
    else
      Team(if Recorded(t) then Some(Hash(body)) else team.hash,
           team.known || Recorded(t),
           if Lands(t) then Updated(team.row, body, t.rest) else team.row)
  }

  /** The reconciler's persisted status and the remote row, as the code updates them. */
  class TeamReconciler {
    var team: Team

    constructor (row: Row)
      ensures team == Team(None, false, row)
    {
      team := Team(None, false, row);
    }

    /** POST /team/update, or /team/new onto the empty row; the status write that follows a success may be lost. */
    method Write(body: Row, hash: string, t: Turn)
      modifies this
      ensures team == Team(if Recorded(t) then Some(hash) else old(team.hash),
                           old(team.known) || Recorded(t),
                           if Lands(t) then Updated(old(team.row), body, t.rest) else old(team.row))
    {
      if t.fate.FailsBefore? { return; }
      team := Team(team.hash, team.known, Updated(team.row, body, t.rest));
      if t.fate.FailsAfter? { return; }
      if t.statusKept {
        team := Team(Some(hash), true, team.row);
      }
    }

    method NarrowAndPark(names: seq<string>, body: Row, t: Turn)
      requires Narrowing(names, t) && body == BodyOf(names, t)
      modifies this
      ensures team == Pass(old(team), names, t)
    {
      if team.known {
        var narrowed := CanonicalMarshal(Obj(body));
        if team.hash != Some(narrowed) {
          Write(body, narrowed, t);
        }
      }
    }

    method Reconcile(names: seq<string>, t: Turn)
      modifies this
      ensures team == Pass(old(team), names, t)
    {
      var body, missing := RenderBody(t.base, names, t.groups);
      if missing != [] {
        NarrowAndPark(names, body, t);
        return;
      }
      var hash := CanonicalMarshal(Obj(body));
      if team.hash == Some(hash) && team.known && t.observed { return; }
      Write(body, hash, t);
    }
  }

  /** The stored hash tells the truth: whatever body it stands for, the row holds its grant. */
  ghost predicate Truthful(team: Team) {
    team.known ==> forall b :: WellFormed(Obj(b)) && team.hash == Some(Hash(b)) ==> Holds(team.row, b)
  }

  lemma PassKeepsTruth(team: Team, names: seq<string>, t: Turn)
    requires Truthful(team) && WellFormed(Obj(t.base))
    requires Lands(t) ==> Recorded(t)
    ensures Truthful(Pass(team, names, t))
  {
    var after, body := Pass(team, names, t), BodyOf(names, t);
    if !Steady(team, names, t) && Recorded(t) {
      BodyWellFormed(t.base, names, t.groups);
      ExactRevocation(team.row, t.base, names, t.groups, t.rest);
      forall b | WellFormed(Obj(b)) && after.hash == Some(Hash(b)) ensures Holds(after.row, b) {
        Injective(Obj(b), Obj(body));
      }
    }
  }

  ghost function Passes(team: Team, names: seq<string>, ts: seq<Turn>): Team
    decreases |ts|
  {
    if ts == [] then team else Passes(Pass(team, names, ts[0]), names, ts[1..])
  }

  /**
   Over every sequence of passes in which no landed write goes unrecorded, groups coming and going
   as they like, a pass that finds nothing to do finds the row holding exactly the rendered grant.
   */
  lemma {:induction false} SteadyMeansExact(team: Team, names: seq<string>, ts: seq<Turn>, t: Turn)
    requires Truthful(team) && WellFormed(Obj(t.base))
    requires forall i :: 0 <= i < |ts| ==> WellFormed(Obj(ts[i].base)) && (Lands(ts[i]) ==> Recorded(ts[i]))
    ensures var now := Passes(team, names, ts);
            now.known && Steady(now, names, t) ==> Holds(now.row, BodyOf(names, t))
    decreases |ts|
  {
    if ts == [] {
      BodyWellFormed(t.base, names, t.groups);
    } else {
      PassKeepsTruth(team, names, ts[0]);
      SteadyMeansExact(Pass(team, names, ts[0]), names, ts[1..], t);
    }
  }

  /** The body of the last write that landed, acknowledged or not. */
  ghost function LandedAfter(last: Option<Row>, team: Team, names: seq<string>, ts: seq<Turn>): Option<Row>
    decreases |ts|
  {
    if ts == [] then last
    else
      var landed := if !Steady(team, names, ts[0]) && Lands(ts[0]) then Some(BodyOf(names, ts[0])) else last;
      LandedAfter(landed, Pass(team, names, ts[0]), names, ts[1..])
  }

  /**
   With lost acknowledgements and lost statuses admitted: after any sequence of passes the row holds
   the grant a pass renders, so that a short-circuit there is right, exactly when the last write
   that landed rendered that same grant.
   */
  lemma {:induction false} ExactIffLastLanded(last: Option<Row>, team: Team, names: seq<string>, ts: seq<Turn>, t: Turn)
    requires last.Some? ==> Holds(team.row, last.value)
    ensures var landed := LandedAfter(last, team, names, ts);
            landed.Some? ==>
              (Holds(Passes(team, names, ts).row, BodyOf(names, t)) <==> Holds(landed.value, BodyOf(names, t)))
    decreases |ts|
  {
    if ts != [] {
      var u := ts[0];
      var landed := if !Steady(team, names, u) && Lands(u) then Some(BodyOf(names, u)) else last;
      ExactRevocation(team.row, u.base, names, u.groups, u.rest);
      ExactIffLastLanded(landed, Pass(team, names, u), names, ts[1..], t);
    }
  }

  /** A pass that is not steady and whose write is acknowledged leaves the rendered grant too. */
  lemma ActiveMeansExact(team: Team, names: seq<string>, t: Turn)
    requires !Steady(team, names, t) && Lands(t)
    ensures Holds(Pass(team, names, t).row, BodyOf(names, t))
  {
    ExactRevocation(team.row, t.base, names, t.groups, t.rest);
  }

  /** Once recorded, the same render is not written again, whether it narrows or not. */
  lemma RecordedOnce(team: Team, names: seq<string>, t: Turn)
    requires Recorded(t) && (t.observed || Narrowing(names, t))
    ensures Pass(Pass(team, names, t), names, t) == Pass(team, names, t)
  {
  }

  /**
   After a narrowing that was recorded (in this pass or before it), the pass that sees the group
   again is never steady: it writes.
   */
  lemma ReturnDefeatsShortCircuit(team: Team, names: seq<string>, narrow: Turn, back: Turn)
    requires WellFormed(Obj(narrow.base)) && WellFormed(Obj(back.base))
    requires Narrowing(names, narrow) && !Narrowing(names, back) && team.known
    requires Steady(team, names, narrow) || Recorded(narrow)
    ensures !Steady(Pass(team, names, narrow), names, back)
  {
    ReturnChangesHash(narrow.base, narrow.groups, back.base, back.groups, names);
  }

  /**
   If the narrowing landed but its acknowledgement or its status was lost, the returning render
   short-circuits exactly when it is the one recorded before and the generation was observed; the
   row is then left narrowed.
   */
  lemma UnrecordedNarrowing(team: Team, names: seq<string>, narrow: Turn, back: Turn)
    requires WellFormed(Obj(back.base)) && Narrowing(names, narrow) && !Narrowing(names, back) && team.known
    requires !Steady(team, names, narrow) && Lands(narrow) && !Recorded(narrow)
    ensures var mid := Pass(team, names, narrow);
            && (Steady(mid, names, back) <==> back.observed && team.hash == Some(Hash(BodyOf(names, back))))
            && Holds(mid.row, BodyOf(names, narrow)) && !Holds(mid.row, BodyOf(names, back))
  {
    ExactRevocation(team.row, narrow.base, names, narrow.groups, narrow.rest);
    IdCount(narrow.base, names, narrow.groups);
    IdCount(back.base, names, back.groups);
    assert BodyOf(names, narrow)["access_group_ids"] != BodyOf(names, back)["access_group_ids"];
    assert !HoldsList(BodyOf(names, narrow), BodyOf(names, back), "access_group_ids");
  }

  /** It happens: a team is granted a group, narrowed with the status lost, and stays narrowed when the group is back. */
  lemma NarrowedForGood() returns (names: seq<string>, granted: Turn, narrow: Turn)
    ensures Narrowing(names, narrow) && !Narrowing(names, granted) && Lands(narrow) && !Recorded(narrow)
    ensures var mid := Passes(Team(None, false, map[]), names, [granted, narrow]);
            && mid.known && Steady(mid, names, granted)
            && Passes(Team(None, false, map[]), names, [granted, narrow, granted]) == mid
            && !Holds(mid.row, BodyOf(names, granted))
  {
    names := ["g"];
    var group := Group("g", "1", ["m"]);
    granted := Turn(map[], [group], true, Works, map[], true);
    narrow := Turn(map[], [], true, Works, map[], false);
    var unknown := Team(None, false, map[]);
    OnlyGroupMissing(group);
    var team := Pass(unknown, names, granted);
    ReturnChangesHash(map[], [], map[], [group], names);
    UnrecordedNarrowing(team, names, narrow, granted);
    var mid := Pass(team, names, narrow);
    PassesTwo(unknown, names, granted, narrow);
    PassesThree(unknown, names, granted, narrow, granted);
  }

  lemma OnlyGroupMissing(group: Group)
    ensures Missing([group.name], NameToId([])) != [] && Missing([group.name], NameToId([group])) == []
  {
    ResolvedCount([group.name], NameToId([]));
    ResolvedCount([group.name], NameToId([group]));
    assert [group.name][0] in [group.name];
    ResolvesIff([group], group.name);
    assert [group][0].name == group.name;
  }

  lemma PassesTwo(team: Team, names: seq<string>, a: Turn, b: Turn)
    ensures Passes(team, names, [a, b]) == Pass(Pass(team, names, a), names, b)
  {
    assert [a, b][1..] == [b] && [b][1..] == [];
    assert Passes(Pass(team, names, a), names, [b]) == Passes(Pass(Pass(team, names, a), names, b), names, []);
  }

  lemma PassesThree(team: Team, names: seq<string>, a: Turn, b: Turn, c: Turn)
    ensures Passes(team, names, [a, b, c]) == Pass(Pass(Pass(team, names, a), names, b), names, c)
  {
    assert [a, b, c][1..] == [b, c];
    PassesTwo(Pass(team, names, a), names, b, c);
  }
}
