/**
 The Model reconcile loop against LiteLLM's deployment rows for one model name. LiteLLM allows
 several rows under a name and creating is not idempotent; any call may fail, and a failed one
 may still have taken effect; any status write may be lost. `Pass` is one reconcile under one
 choice of outcomes, `Drain` one pass of the deletion path. Rows are named by their ids.
 */
module ModelRows {
  import opened Wrappers

  type Id = nat

  // ----- LiteLLM -----

  /** litellm_params and model_info, key by key; a value stands for the JSON of its key. */
  datatype Body = Body(params: map<string, nat>, info: map<string, nat>)

  /**
   `bodies` is what each row was given last and `next` the id the next row gets. `acksAbsent` is a
   server that acknowledges deleting a row it has not.
   */
  datatype Remote = Remote(rows: set<Id>, bodies: map<Id, Body>, next: Id, acksAbsent: bool)

  datatype Reply = Ok | Unauthorized | NotFound | Rejected | Transient

  /** A mutating call: the reply the server chooses, and whether a failed one took effect. */
  datatype Call = Call(reply: Reply, effect: bool)

  /** A listing: the reply and the order in which the rows come. */
  datatype Listing = Listing(reply: Reply, order: seq<Id>)

  datatype Answer = Rows(ids: seq<Id>) | Failed(reply: Reply)

  predicate Enumerates(order: seq<Id>, rows: set<Id>) {
    && (set x | x in order) == rows
    && forall i, j :: 0 <= i < j < |order| ==> order[i] != order[j]
  }

  /** LiteLLM lists what it stores: an Ok answer has every row, a 404 means there are none. */
  function Answered(r: Remote, l: Listing): Answer {
    if l.reply.Ok? && Enumerates(l.order, r.rows) then Rows(l.order)
    else if l.reply.NotFound? && r.rows == {} then Rows([])
    else if l.reply.Unauthorized? || l.reply.Rejected? then Failed(l.reply)
    else Failed(Transient)
  }

  function DeleteReply(r: Remote, id: Id, c: Call): Reply {
    if id in r.rows then (if c.reply.NotFound? then Transient else c.reply)
    else if c.reply.Ok? && !r.acksAbsent then NotFound
    else c.reply
  }

  function Deleted(r: Remote, id: Id, c: Call): Remote {
    if c.reply.Ok? || c.effect then r.(rows := r.rows - {id}) else r
  }

  /** POST /model/new stores parameters and info. */
  function Created(r: Remote, c: Call, body: Body): Remote {
    if c.reply.Ok? || c.effect
    then r.(rows := r.rows + {r.next}, bodies := r.bodies[r.next := body], next := r.next + 1)
    else r
  }

  function BodyOf(r: Remote, id: Id): Body {
    if id in r.bodies then r.bodies[id] else Body(map[], map[])
  }

  /** POST /model/update merges the parameters key by key and never stores the info. */
  function Updated(r: Remote, id: Id, c: Call, body: Body): Remote {
    if id in r.rows && (c.reply.Ok? || c.effect)
    then r.(bodies := r.bodies[id := Body(BodyOf(r, id).params + body.params, BodyOf(r, id).info)])
    else r
  }

  /** An update names its row; one that is gone is answered 404. */
  function UpdateReply(r: Remote, id: Id, c: Call): Reply {
    if id in r.rows then (if c.reply.NotFound? then Transient else c.reply)
    else if c.reply.Ok? then NotFound
    else c.reply
  }

  // ----- The CR -----

  /** What the CR renders to. */
  datatype Cr = Cr(generation: nat, spec: Body)

  /** The persisted status; None is an empty string. Equal hashes are equal bodies, so a hash is its body. */
  datatype Status = Status(
    modelId: Option<Id>,
    hash: Option<Body>,
    infoHash: Option<map<string, nat>>,
    paramsKeys: set<string>,
    infoKeys: set<string>,
    observed: nat)

  datatype World = World(remote: Remote, status: Status)

  /** Everything a pass does not decide itself. */
  datatype Env = Env(
    early: bool,
    probe: Listing,
    prune: Id -> Call,
    throttled: bool,
    lookup: Listing,
    update: Call,
    delete: Call,
    create: Call,
    saved: bool)

  /** `clean`: the pass ran to its end, every call it made succeeded and its status was saved. */
  datatype Outcome = Outcome(world: World, clean: bool)

  function KeepPersisted(want: Option<Id>, got: Option<Id>): Option<Id> {
    if want.None? then got else want
  }

  /** writeStatus: the intended fields onto the persisted object, unless the write is lost. */
  function Saved(persisted: Status, wanted: Status, cr: Cr, saved: bool): Status {
    if saved then wanted.(modelId := KeepPersisted(wanted.modelId, persisted.modelId), observed := cr.generation)
    else persisted
  }

  /** classifyMutationError: a transient error leaves the status alone, any other is recorded. */
  function Refused(persisted: Status, remote: Remote, mem: Status, cr: Cr, reply: Reply, saved: bool): Outcome {
    Outcome(World(remote, if reply.Transient? then persisted else Saved(persisted, mem, cr, saved)), false)
  }

  function Success(cr: Cr, id: Id): Status {
    Status(Some(id), Some(cr.spec), Some(cr.spec.info), cr.spec.params.Keys, cr.spec.info.Keys, cr.generation)
  }

  function Finished(persisted: Status, remote: Remote, cr: Cr, id: Id, env: Env, clean: bool): Outcome {
    Outcome(World(remote, Saved(persisted, Success(cr, id), cr, env.saved)), clean && env.saved)
  }

  // ----- One pass -----

  predicate Probes(s: Status) {
    s.modelId.Some? && s.hash.Some?
  }

  /** The duplicate prune: delete every listed row but the tracked one, carrying on after a failure. */
  function Pruned(r: Remote, ids: seq<Id>, keep: Id, prune: Id -> Call): Remote
    decreases |ids|
  {
    if ids == [] then r
    else if ids[0] == keep then Pruned(r, ids[1..], keep, prune)
    else Pruned(Deleted(r, ids[0], prune(ids[0])), ids[1..], keep, prune)
  }

  predicate PruneClean(r: Remote, ids: seq<Id>, keep: Id, prune: Id -> Call)
    decreases |ids|
  {
    if ids == [] then true
    else if ids[0] == keep then PruneClean(r, ids[1..], keep, prune)
    else DeleteReply(r, ids[0], prune(ids[0])).Ok? &&
         PruneClean(Deleted(r, ids[0], prune(ids[0])), ids[1..], keep, prune)
  }

  function Pass(w: World, cr: Cr, env: Env): Outcome {
    if env.early then Outcome(World(w.remote, Saved(w.status, w.status, cr, env.saved)), false)
    else if !Probes(w.status) then Decide(w.status, w.remote, w.status, cr, env, true)
    else
      match Answered(w.remote, env.probe)
      case Failed(reply) =>
        // 401 leaves the tracked id alone; any other error ends the pass.
        if reply.Unauthorized? then Decide(w.status, w.remote, w.status, cr, env, false) else Outcome(w, false)
      case Rows(ids) =>
        var tracked := w.status.modelId.value;
        if tracked !in ids then Decide(w.status, w.remote, w.status.(modelId := None), cr, env, true)
        else if |ids| > 1 then
          Decide(w.status, Pruned(w.remote, ids, tracked, env.prune), w.status, cr, env,
                 PruneClean(w.remote, ids, tracked, env.prune))
        else Decide(w.status, w.remote, w.status, cr, env, true)
  }

  predicate Steady(mem: Status, cr: Cr) {
    mem.hash == Some(cr.spec) && mem.modelId.Some? && mem.observed == cr.generation
  }

  /** Steps 8 to 11, after probe and prune, with the in-memory status `mem`. */
  function Decide(persisted: Status, remote: Remote, mem: Status, cr: Cr, env: Env, clean: bool): Outcome {
    if Steady(mem, cr) then Outcome(World(remote, persisted), clean)
    else if mem.modelId.None? then CreateOrAdopt(persisted, remote, mem, cr, env, clean)
    else UpdateOrRecreate(persisted, remote, mem, cr, env, clean)
  }

  function CreateOrAdopt(persisted: Status, remote: Remote, mem: Status, cr: Cr, env: Env, clean: bool): Outcome {
    var first := mem.observed == 0 || mem.hash.None?;
    if !first && env.throttled then Outcome(World(remote, Saved(persisted, mem, cr, env.saved)), false)
    else
      match Answered(remote, env.lookup)
      case Failed(_) => Outcome(World(remote, persisted), false)
      case Rows(ids) =>
        if ids != [] then
          var reply := UpdateReply(remote, ids[0], env.update);
          var updated := Updated(remote, ids[0], env.update, cr.spec);
          if reply.Ok? then Finished(persisted, updated, cr, ids[0], env, clean)
          else Refused(persisted, updated, mem, cr, reply, env.saved)
        else
          var created := Created(remote, env.create, cr.spec);
          if env.create.reply.Ok? then Finished(persisted, created, cr, remote.next, env, clean)
          else Refused(persisted, created, mem, cr, env.create.reply, env.saved)
  }

  predicate MustRecreate(mem: Status, spec: Body) {
    || mem.paramsKeys - spec.params.Keys != {}
    || mem.infoKeys - spec.info.Keys != {}
    || (mem.infoHash.Some? && mem.infoHash.value != spec.info)
  }

  function UpdateOrRecreate(persisted: Status, remote: Remote, mem: Status, cr: Cr, env: Env, clean: bool): Outcome
    requires mem.modelId.Some?
  {
    var id := mem.modelId.value;
    if !MustRecreate(mem, cr.spec) then
      var reply := UpdateReply(remote, id, env.update);
      var updated := Updated(remote, id, env.update, cr.spec);
      if reply.Ok? then Finished(persisted, updated, cr, id, env, clean)
      else Refused(persisted, updated, mem, cr, reply, env.saved)
    else
      var reply := DeleteReply(remote, id, env.delete);
      var gone := Deleted(remote, id, env.delete);
      if !reply.Ok? then Refused(persisted, gone, mem, cr, reply, env.saved)
      else
        var created := Created(gone, env.create, cr.spec);
        if env.create.reply.Ok? then Finished(persisted, created, cr, gone.next, env, clean)
        else Refused(persisted, created, mem, cr, env.create.reply, env.saved)
  }

  // ----- No duplicate amplification -----

  /** Ids are never reused, so the next one names no row. */
  predicate Valid(r: Remote) {
    forall id :: id in r.rows ==> id < r.next
  }

  function Max(a: nat, b: nat): nat {
    if a < b then b else a
  }

  lemma {:induction false} PrunedShrinks(r: Remote, ids: seq<Id>, keep: Id, prune: Id -> Call)
    ensures var r' := Pruned(r, ids, keep, prune);
            && r'.rows <= r.rows && |r'.rows| <= |r.rows|
            && r'.next == r.next && r'.acksAbsent == r.acksAbsent && r'.bodies == r.bodies
            && (keep in r.rows ==> keep in r'.rows)
    decreases |ids|
  {
    if ids != [] {
      var r1 := if ids[0] == keep then r else Deleted(r, ids[0], prune(ids[0]));
      PrunedShrinks(r1, ids[1..], keep, prune);
    }
  }

  lemma EnumerationEmpty(order: seq<Id>, rows: set<Id>)
    requires Enumerates(order, rows)
    ensures order == [] <==> rows == {}
  {
    if order != [] { assert order[0] in rows; }
  }

  predicate Within(r: Remote, bound: nat) {
    |r.rows| <= bound && Valid(r) && !r.acksAbsent
  }

  lemma CreatedWithin(r: Remote, c: Call, body: Body, bound: nat)
    requires Within(r, bound)
    ensures Within(Created(r, c, body), bound + 1)
  {
  }

  lemma UpdatedWithin(r: Remote, id: Id, c: Call, body: Body, bound: nat)
    requires Within(r, bound)
    ensures Within(Updated(r, id, c, body), bound)
  {
  }

  lemma DeletedWithin(r: Remote, id: Id, c: Call, bound: nat)
    requires Within(r, bound)
    ensures Within(Deleted(r, id, c), bound)
    ensures DeleteReply(r, id, c).Ok? ==> bound > 0 && Within(Deleted(r, id, c), bound - 1)
  {
  }

  lemma CreateOrAdoptBound(persisted: Status, remote: Remote, mem: Status, cr: Cr, env: Env, clean: bool)
    requires Within(remote, |remote.rows|)
    ensures Within(CreateOrAdopt(persisted, remote, mem, cr, env, clean).world.remote, Max(1, |remote.rows|))
  {
    var a, v := Answered(remote, env.lookup), CreateOrAdopt(persisted, remote, mem, cr, env, clean).world.remote;
    if a.Rows? { EnumerationEmpty(a.ids, remote.rows); }
    if a.Rows? && a.ids != [] {
      UpdatedWithin(remote, a.ids[0], env.update, cr.spec, |remote.rows|);
      assert v == remote || v == Updated(remote, a.ids[0], env.update, cr.spec);
    } else {
      CreatedWithin(remote, env.create, cr.spec, |remote.rows|);
      assert v == remote || (a.Rows? && v == Created(remote, env.create, cr.spec));
    }
  }

  lemma UpdateOrRecreateBound(persisted: Status, remote: Remote, mem: Status, cr: Cr, env: Env, clean: bool)
    requires Within(remote, |remote.rows|) && mem.modelId.Some?
    ensures Within(UpdateOrRecreate(persisted, remote, mem, cr, env, clean).world.remote, Max(1, |remote.rows|))
  {
    var id, n := mem.modelId.value, |remote.rows|;
    var v := UpdateOrRecreate(persisted, remote, mem, cr, env, clean).world.remote;
    if !MustRecreate(mem, cr.spec) {
      UpdatedWithin(remote, id, env.update, cr.spec, n);
      assert v == Updated(remote, id, env.update, cr.spec);
    } else {
      var gone := Deleted(remote, id, env.delete);
      DeletedWithin(remote, id, env.delete, n);
      if DeleteReply(remote, id, env.delete).Ok? {
        CreatedWithin(gone, env.create, cr.spec, n - 1);
        assert v == Created(gone, env.create, cr.spec);
      } else {
        assert v == gone;
      }
    }
  }

  lemma DecideBound(persisted: Status, remote: Remote, mem: Status, cr: Cr, env: Env, clean: bool)
    requires Within(remote, |remote.rows|)
    ensures Within(Decide(persisted, remote, mem, cr, env, clean).world.remote, Max(1, |remote.rows|))
  {
    if mem.modelId.None? {
      CreateOrAdoptBound(persisted, remote, mem, cr, env, clean);
    } else {
      UpdateOrRecreateBound(persisted, remote, mem, cr, env, clean);
    }
  }

  lemma PassBound(w: World, cr: Cr, env: Env)
    requires !w.remote.acksAbsent && Valid(w.remote)
    ensures Within(Pass(w, cr, env).world.remote, Max(1, |w.remote.rows|))
  {
    if Probes(w.status) && Answered(w.remote, env.probe).Rows? {
      var ids, tracked := Answered(w.remote, env.probe).ids, w.status.modelId.value;
      PrunedShrinks(w.remote, ids, tracked, env.prune);
      DecideBound(w.status, Pruned(w.remote, ids, tracked, env.prune), w.status, cr, env,
                  PruneClean(w.remote, ids, tracked, env.prune));
      DecideBound(w.status, w.remote, w.status.(modelId := None), cr, env, true);
    }
    DecideBound(w.status, w.remote, w.status, cr, env, true);
    DecideBound(w.status, w.remote, w.status, cr, env, false);
  }

  /** A run: reconciles of any generation under any outcomes, and rows deleted by someone else. */
  datatype Step = Reconcile(cr: Cr, env: Env) | Vanish(id: Id)

  function Run(w: World, steps: seq<Step>): World
    decreases |steps|
  {
    if steps == [] then w
    else
      match steps[0]
      case Reconcile(cr, env) => Run(Pass(w, cr, env).world, steps[1..])
      case Vanish(id) => Run(w.(remote := w.remote.(rows := w.remote.rows - {id})), steps[1..])
  }

  /** The rows under one name never exceed what was there at the start, or one. */
  lemma {:induction false} NoAmplification(w: World, steps: seq<Step>)
    requires !w.remote.acksAbsent && Valid(w.remote)
    ensures |Run(w, steps).remote.rows| <= Max(1, |w.remote.rows|)
    decreases |steps|
  {
    if steps != [] {
      match steps[0]
      case Reconcile(cr, env) =>
        PassBound(w, cr, env);
        NoAmplification(Pass(w, cr, env).world, steps[1..]);
      case Vanish(id) =>
        NoAmplification(w.(remote := w.remote.(rows := w.remote.rows - {id})), steps[1..]);
    }
  }

  // ----- Convergence -----

  /** One row, tracked by a status that is up to date with the CR. */
  predicate Converged(w: World, cr: Cr) {
    Records(w.status, cr) && w.remote.rows == {w.status.modelId.value}
  }

  /** The status names a row and is that of the CR as it now is. */
  predicate Records(s: Status, cr: Cr) {
    s.modelId.Some? && s.hash == Some(cr.spec) && s.observed == cr.generation
  }

  lemma {:induction false} PrunedLeavesOne(r: Remote, ids: seq<Id>, keep: Id, prune: Id -> Call)
    requires !r.acksAbsent && PruneClean(r, ids, keep, prune)
    ensures Pruned(r, ids, keep, prune).rows == r.rows - ((set x | x in ids) - {keep})
    decreases |ids|
  {
    if ids != [] {
      assert (set x | x in ids) == {ids[0]} + set x | x in ids[1..];
      var r1 := if ids[0] == keep then r else Deleted(r, ids[0], prune(ids[0]));
      PrunedLeavesOne(r1, ids[1..], keep, prune);
    }
  }

  /** What a clean pass ends with: a status up to date with the CR, naming a stored row. */
  predicate Tracks(w: World, cr: Cr) {
    Records(w.status, cr) && w.status.modelId.value in w.remote.rows
  }

  /** Step 7b and 7c of a clean pass over a tracked row leave that row alone. */
  lemma CleanPruneLeavesOne(w: World, env: Env, ids: seq<Id>)
    requires !w.remote.acksAbsent && Probes(w.status) && Enumerates(ids, w.remote.rows)
    requires w.status.modelId.value in ids
    requires |ids| > 1 ==> PruneClean(w.remote, ids, w.status.modelId.value, env.prune)
    ensures |ids| > 1 ==> Pruned(w.remote, ids, w.status.modelId.value, env.prune).rows == {w.status.modelId.value}
    ensures |ids| <= 1 ==> w.remote.rows == {w.status.modelId.value}
  {
    var tracked := w.status.modelId.value;
    if |ids| > 1 {
      PrunedLeavesOne(w.remote, ids, tracked, env.prune);
    } else {
      assert ids == [tracked];
    }
  }

  lemma CleanPassTracks(w: World, cr: Cr, env: Env)
    requires !w.remote.acksAbsent && Valid(w.remote) && Pass(w, cr, env).clean
    ensures Tracks(Pass(w, cr, env).world, cr)
    ensures Probes(w.status) && w.status.modelId.value in w.remote.rows ==> |Pass(w, cr, env).world.remote.rows| == 1
  {
    if !Probes(w.status) {
      DecideTracks(w.status, w.remote, w.status, cr, env);
    } else {
      assert Answered(w.remote, env.probe).Rows? by { ProbeAnswered(w, cr, env); }
      var ids, tracked := Answered(w.remote, env.probe).ids, w.status.modelId.value;
      if tracked !in ids {
        DecideTracks(w.status, w.remote, w.status.(modelId := None), cr, env);
      } else {
        CleanPruneLeavesOne(w, env, ids);
        PrunedShrinks(w.remote, ids, tracked, env.prune);
        DecideTracks(w.status, if |ids| > 1 then Pruned(w.remote, ids, tracked, env.prune) else w.remote, w.status, cr, env);
      }
    }
  }

  /** A clean pass that probes got its rows. */
  lemma ProbeAnswered(w: World, cr: Cr, env: Env)
    requires Probes(w.status) && Pass(w, cr, env).clean
    ensures Answered(w.remote, env.probe).Rows?
    ensures w.status.modelId.value in Answered(w.remote, env.probe).ids && |Answered(w.remote, env.probe).ids| > 1 ==>
              PruneClean(w.remote, Answered(w.remote, env.probe).ids, w.status.modelId.value, env.prune)
  {
  }

  lemma DecideTracks(persisted: Status, remote: Remote, mem: Status, cr: Cr, env: Env)
    requires !remote.acksAbsent && Valid(remote) && Decide(persisted, remote, mem, cr, env, true).clean
    requires mem.modelId.None? || mem == persisted
    requires mem == persisted && Probes(mem) ==> mem.modelId.value in remote.rows
    ensures Tracks(Decide(persisted, remote, mem, cr, env, true).world, cr)
    ensures mem.modelId.Some? && remote.rows == {mem.modelId.value} ==>
              |Decide(persisted, remote, mem, cr, env, true).world.remote.rows| == 1
  {
    if Steady(mem, cr) {
    } else if mem.modelId.None? {
      var ids := Answered(remote, env.lookup).ids;
      if ids != [] { assert ids[0] in set x | x in ids; }
    } else {
      var id := mem.modelId.value;
      if MustRecreate(mem, cr.spec) && remote.rows == {id} {
        assert Created(Deleted(remote, id, env.delete), env.create, cr.spec).rows == {remote.next};
      }
    }
  }

  /** From any world a clean pass ends with the status of the CR as it now is: its body, its generation, an id. */
  lemma CleanPassRecords(w: World, cr: Cr, env: Env)
    requires Pass(w, cr, env).clean
    ensures var s := Pass(w, cr, env).world.status;
            && s.hash == Some(cr.spec) && s.observed == cr.generation && s.modelId.Some?
  {
  }

  // ----- What the rows hold -----

  /** The record is the truth about the tracked row: its body, and the keys and info recorded beside the hash. */
  predicate Truthful(w: World) {
    w.status.modelId.Some? ==>
      && w.status.hash.Some? && w.status.modelId.value < w.remote.next
      && w.status.infoHash == Some(w.status.hash.value.info)
      && w.status.paramsKeys == w.status.hash.value.params.Keys && w.status.infoKeys == w.status.hash.value.info.Keys
      && (w.status.modelId.value in w.remote.rows ==> BodyOf(w.remote, w.status.modelId.value) == w.status.hash.value)
  }

  /** The row a pass takes over: none is tracked, or the tracked one is not listed, and the name has rows. */
  function Adoptee(w: World, env: Env): Option<Id> {
    if (w.status.modelId.None? || (Answered(w.remote, env.probe).Rows? && w.status.modelId.value !in w.remote.rows))
       && Answered(w.remote, env.lookup).Rows? && Answered(w.remote, env.lookup).ids != []
    then Some(Answered(w.remote, env.lookup).ids[0]) else None
  }

  /** What the CR's row holds in the end: the rendered body, or over a row taken over what a merge makes of it. */
  function Intended(w: World, cr: Cr, env: Env): Body {
    match Adoptee(w, env)
    case None => cr.spec
    case Some(id) => Body(BodyOf(w.remote, id).params + cr.spec.params, BodyOf(w.remote, id).info)
  }

  lemma ListedIsStored(r: Remote, l: Listing, id: Id)
    requires Answered(r, l).Rows?
    ensures id in Answered(r, l).ids <==> id in r.rows
  {
    assert id in Answered(r, l).ids <==> id in set x | x in Answered(r, l).ids;
  }

  /** An update that leaves no key behind and finds the right info makes the row the rendered body. */
  lemma MergeIsExact(body: Body, spec: Body)
    requires body.params.Keys <= spec.params.Keys && body.info == spec.info
    ensures Body(body.params + spec.params, body.info) == spec
  {
    assert body.params + spec.params == spec.params;
  }

  /** After a clean pass over a truthful world the tracked row holds what was intended. */
  lemma CleanPassStores(w: World, cr: Cr, env: Env)
    requires Truthful(w) && Valid(w.remote) && Pass(w, cr, env).clean
    ensures var v := Pass(w, cr, env).world;
            v.status.modelId.Some? && BodyOf(v.remote, v.status.modelId.value) == Intended(w, cr, env)
  {
    if !Probes(w.status) {
      LostStores(w, w.status, cr, env);
    } else {
      ProbeAnswered(w, cr, env);
      var ids, tracked := Answered(w.remote, env.probe).ids, w.status.modelId.value;
      ListedIsStored(w.remote, env.probe, tracked);
      if tracked !in ids {
        LostStores(w, w.status.(modelId := None), cr, env);
      } else {
        PrunedShrinks(w.remote, ids, tracked, env.prune);
        TrackedStores(w, if |ids| > 1 then Pruned(w.remote, ids, tracked, env.prune) else w.remote, cr, env);
      }
    }
  }

  lemma LostStores(w: World, mem: Status, cr: Cr, env: Env)
    requires mem.modelId.None? && Decide(w.status, w.remote, mem, cr, env, true).clean
    requires w.status.modelId.None? || (Answered(w.remote, env.probe).Rows? && w.status.modelId.value !in w.remote.rows)
    ensures var v := Decide(w.status, w.remote, mem, cr, env, true).world;
            v.status.modelId.Some? && BodyOf(v.remote, v.status.modelId.value) == Intended(w, cr, env)
  {
    var ids := Answered(w.remote, env.lookup).ids;
    if ids != [] { ListedIsStored(w.remote, env.lookup, ids[0]); }
  }

  lemma TrackedStores(w: World, remote: Remote, cr: Cr, env: Env)
    requires Truthful(w) && w.status.modelId.Some? && w.status.modelId.value in w.remote.rows
    requires remote.bodies == w.remote.bodies && w.status.modelId.value in remote.rows
    requires Decide(w.status, remote, w.status, cr, env, true).clean
    ensures var v := Decide(w.status, remote, w.status, cr, env, true).world;
            v.status.modelId.Some? && BodyOf(v.remote, v.status.modelId.value) == cr.spec
  {
    if !Steady(w.status, cr) && !MustRecreate(w.status, cr.spec) {
      KeysKept(w.status.paramsKeys, cr.spec.params.Keys);
      MergeIsExact(BodyOf(remote, w.status.modelId.value), cr.spec);
    }
  }

  lemma KeysKept(a: set<string>, b: set<string>)
    requires a - b == {}
    ensures a <= b
  {
    assert forall k :: k in a && k !in b ==> k in a - b;
  }

  /** So the row is exactly the rendered body, unless a row was taken over that has other keys or another info. */
  lemma StoredExactlyWhen(w: World, cr: Cr, env: Env)
    requires Truthful(w) && Valid(w.remote) && Pass(w, cr, env).clean
    ensures var v := Pass(w, cr, env).world;
            && v.status.modelId.Some?
            && (BodyOf(v.remote, v.status.modelId.value) == cr.spec <==>
                  (Adoptee(w, env).Some? ==>
                    var was := BodyOf(w.remote, Adoptee(w, env).value);
                    was.params.Keys <= cr.spec.params.Keys && was.info == cr.spec.info))
            && forall k :: k in cr.spec.params ==>
                 var params := BodyOf(v.remote, v.status.modelId.value).params; k in params && params[k] == cr.spec.params[k]
  {
    CleanPassStores(w, cr, env);
    if Adoptee(w, env).Some? {
      var was := BodyOf(w.remote, Adoptee(w, env).value);
      if was.params.Keys <= cr.spec.params.Keys && was.info == cr.spec.info {
        MergeIsExact(was, cr.spec);
      } else if was.info == cr.spec.info {
        assert (was.params + cr.spec.params).Keys == was.params.Keys + cr.spec.params.Keys;
      }
    }
  }

  /** A clean pass replaces a stored row by another exactly when a parameter is gone from the render or the info changed. */
  lemma RecreatesExactlyWhen(w: World, cr: Cr, env: Env)
    requires Truthful(w) && Valid(w.remote) && Pass(w, cr, env).clean
    requires w.status.modelId.Some? && w.status.modelId.value in w.remote.rows
    ensures Pass(w, cr, env).world.status.modelId == w.status.modelId <==>
            w.status.hash.value.params.Keys <= cr.spec.params.Keys && w.status.hash.value.info == cr.spec.info
  {
    ProbeAnswered(w, cr, env);
    var ids, tracked := Answered(w.remote, env.probe).ids, w.status.modelId.value;
    ListedIsStored(w.remote, env.probe, tracked);
    PrunedShrinks(w.remote, ids, tracked, env.prune);
    MustRecreateMeans(w.status, cr.spec);
    TrackedIdAfter(w.status, if |ids| > 1 then Pruned(w.remote, ids, tracked, env.prune) else w.remote, cr, env);
  }

  lemma MustRecreateMeans(s: Status, spec: Body)
    requires s.hash.Some? && s.infoHash == Some(s.hash.value.info)
    requires s.paramsKeys == s.hash.value.params.Keys && s.infoKeys == s.hash.value.info.Keys
    ensures MustRecreate(s, spec) <==> !(s.hash.value.params.Keys <= spec.params.Keys && s.hash.value.info == spec.info)
  {
    if s.paramsKeys - spec.params.Keys == {} { KeysKept(s.paramsKeys, spec.params.Keys); }
    assert s.hash.value.info == spec.info ==> s.infoKeys - spec.info.Keys == {};
  }

  lemma TrackedIdAfter(s: Status, remote: Remote, cr: Cr, env: Env)
    requires s.modelId.Some? && s.modelId.value in remote.rows && Valid(remote)
    requires Decide(s, remote, s, cr, env, true).clean
    ensures Decide(s, remote, s, cr, env, true).world.status.modelId == s.modelId <==> Steady(s, cr) || !MustRecreate(s, cr.spec)
  {
    var id := s.modelId.value;
    if !Steady(s, cr) && MustRecreate(s, cr.spec) {
      assert Deleted(remote, id, env.delete).next == remote.next;
      assert id < remote.next;
    }
  }

  /** While the breaker is open, a pass over a CR that has lost its row changes nothing in LiteLLM. */
  lemma OpenBreakerCreatesNothing(w: World, cr: Cr, env: Env)
    requires env.throttled && !w.remote.acksAbsent
    requires w.status.hash.Some? && w.status.observed != 0
    requires w.status.modelId.Some? ==> w.status.modelId.value !in w.remote.rows
    ensures Pass(w, cr, env).world.remote == w.remote
  {
    if w.status.modelId.Some? && Answered(w.remote, env.probe).Rows? {
      ListedIsStored(w.remote, env.probe, w.status.modelId.value);
    }
  }

  /** Without a recorded body the pass does not probe: what the probe would answer has no effect. */
  lemma ProbesOnlyWithRecord(w: World, cr: Cr, env: Env, probe: Listing)
    requires w.status.modelId.None? || w.status.hash.None?
    ensures Pass(w, cr, env) == Pass(w, cr, env.(probe := probe))
  {
  }

  /** A failure before the probe, or a refused first create, records the generation and nothing else; a transient error not even that. */
  lemma FailuresRecordGeneration(w: World, cr: Cr, env: Env)
    requires env.saved
    ensures env.early ==> Pass(w, cr, env).world == World(w.remote, w.status.(observed := cr.generation))
    ensures var refused := env.create.reply;
            !env.early && w.status.modelId.None? && w.status.hash.None? && w.remote.rows == {} && env.lookup.reply.NotFound? && !refused.Ok? ==>
              Pass(w, cr, env).world.status == if refused.Transient? then w.status else w.status.(observed := cr.generation)
  {
  }

  /** While the CR is the one recorded, no pass changes what its row holds: a change of the row alone is not seen. */
  lemma RecordedRowIsLeft(w: World, cr: Cr, env: Env)
    requires Tracks(w, cr)
    ensures var v := Pass(w, cr, env).world;
            v.status.modelId == w.status.modelId && v.remote.bodies == w.remote.bodies
  {
    var a, id := Answered(w.remote, env.probe), w.status.modelId.value;
    if a.Rows? {
      ListedIsStored(w.remote, env.probe, id);
      PrunedShrinks(w.remote, a.ids, id, env.prune);
    }
  }

  /**
   Two clean passes over one CR, from any rows and any status, leave exactly one tracked row; from a
   truthful status that row holds the rendered body, or the merge over the row first taken over.
   */
  lemma TwoPassesConverge(w: World, cr: Cr, e1: Env, e2: Env)
    requires !w.remote.acksAbsent && Valid(w.remote)
    requires Pass(w, cr, e1).clean && Pass(Pass(w, cr, e1).world, cr, e2).clean
    ensures var v := Pass(Pass(w, cr, e1).world, cr, e2).world;
            && v.status.hash == Some(cr.spec) && v.status.observed == cr.generation
            && v.status.modelId.Some? && v.remote.rows == {v.status.modelId.value}
            && (Truthful(w) ==> BodyOf(v.remote, v.status.modelId.value) == Intended(w, cr, e1))
  {
    if Truthful(w) { CleanPassStores(w, cr, e1); }
    CleanPassTracks(w, cr, e1);
    RecordedRowIsLeft(Pass(w, cr, e1).world, cr, e2);
    CleanPassTracks(w, cr, e1);
    PassBound(w, cr, e1);
    var w1 := Pass(w, cr, e1).world;
    CleanPassTracks(w1, cr, e2);
    var w2 := Pass(w1, cr, e2).world;
    OneElement(w2.remote.rows, w2.status.modelId.value);
  }

  lemma OneElement(s: set<Id>, x: Id)
    requires |s| == 1 && x in s
    ensures s == {x}
  {
    assert |s - {x}| == 0;
  }

  lemma TwoRows(order: seq<Id>, rows: set<Id>)
    requires Enumerates(order, rows) && |order| > 1
    ensures |rows| > 1
  {
    assert order[0] in rows && order[1] in rows - {order[0]};
    assert |rows - {order[0]}| == |rows| - 1;
  }

  // ----- Truth over runs -----

  /** No write of this pass lands without being acknowledged and recorded; a delete may do as it likes. */
  predicate Recorded(env: Env) {
    env.saved && (env.update.effect ==> env.update.reply.Ok?) && (env.create.effect ==> env.create.reply.Ok?)
  }

  /** A row taken over has no key the CR does not render, and its info. */
  predicate FitsAdoptee(w: World, cr: Cr, env: Env) {
    Adoptee(w, env).Some? ==>
      var was := BodyOf(w.remote, Adoptee(w, env).value);
      was.params.Keys <= cr.spec.params.Keys && was.info == cr.spec.info
  }

  lemma PassKeepsTruth(w: World, cr: Cr, env: Env)
    requires Truthful(w) && Valid(w.remote) && Recorded(env) && FitsAdoptee(w, cr, env)
    ensures Truthful(Pass(w, cr, env).world) && Valid(Pass(w, cr, env).world.remote)
  {
    if !env.early {
      if w.status.modelId.None? {
        LostKeepsTruth(w, w.status, cr, env, true);
      } else {
        var a, tracked := Answered(w.remote, env.probe), w.status.modelId.value;
        if a.Rows? {
          ListedIsStored(w.remote, env.probe, tracked);
          PrunedShrinks(w.remote, a.ids, tracked, env.prune);
          if tracked !in a.ids {
            LostKeepsTruth(w, w.status.(modelId := None), cr, env, true);
          } else if |a.ids| > 1 {
            TrackedKeepsTruth(w, Pruned(w.remote, a.ids, tracked, env.prune), cr, env, PruneClean(w.remote, a.ids, tracked, env.prune));
          } else {
            TrackedKeepsTruth(w, w.remote, cr, env, true);
          }
        } else if a.reply.Unauthorized? {
          TrackedKeepsTruth(w, w.remote, cr, env, false);
        }
      }
    }
  }

  lemma LostKeepsTruth(w: World, mem: Status, cr: Cr, env: Env, clean: bool)
    requires Truthful(w) && Valid(w.remote) && Recorded(env) && FitsAdoptee(w, cr, env)
    requires mem == w.status.(modelId := None)
    requires w.status.modelId.None? || (Answered(w.remote, env.probe).Rows? && w.status.modelId.value !in w.remote.rows)
    ensures var v := Decide(w.status, w.remote, mem, cr, env, clean).world; Truthful(v) && Valid(v.remote)
  {
    var a := Answered(w.remote, env.lookup);
    if a.Rows? && a.ids != [] {
      ListedIsStored(w.remote, env.lookup, a.ids[0]);
      MergeIsExact(BodyOf(w.remote, a.ids[0]), cr.spec);
    }
  }

  lemma TrackedKeepsTruth(w: World, remote: Remote, cr: Cr, env: Env, clean: bool)
    requires Truthful(w) && w.status.modelId.Some? && Recorded(env) && Valid(remote)
    requires remote.bodies == w.remote.bodies && remote.next == w.remote.next
    requires w.status.modelId.value in remote.rows ==> w.status.modelId.value in w.remote.rows
    ensures var v := Decide(w.status, remote, w.status, cr, env, clean).world; Truthful(v) && Valid(v.remote)
  {
    var id := w.status.modelId.value;
    if Steady(w.status, cr) {
    } else if MustRecreate(w.status, cr.spec) {
      RecreatedKeepsTruth(w, remote, cr, env, clean);
    } else {
      UpdatedKeepsTruth(w, remote, cr, env, clean);
    }
  }

  lemma UpdatedKeepsTruth(w: World, remote: Remote, cr: Cr, env: Env, clean: bool)
    requires Truthful(w) && w.status.modelId.Some? && Recorded(env) && Valid(remote) && !MustRecreate(w.status, cr.spec)
    requires remote.bodies == w.remote.bodies && remote.next == w.remote.next
    requires w.status.modelId.value in remote.rows ==> w.status.modelId.value in w.remote.rows
    ensures var v := UpdateOrRecreate(w.status, remote, w.status, cr, env, clean).world; Truthful(v) && Valid(v.remote)
  {
    var id := w.status.modelId.value;
    if id in remote.rows {
      KeysKept(w.status.paramsKeys, cr.spec.params.Keys);
      MergeIsExact(BodyOf(remote, id), cr.spec);
    }
  }

  lemma RecreatedKeepsTruth(w: World, remote: Remote, cr: Cr, env: Env, clean: bool)
    requires Truthful(w) && w.status.modelId.Some? && Recorded(env) && Valid(remote) && MustRecreate(w.status, cr.spec)
    requires remote.bodies == w.remote.bodies && remote.next == w.remote.next
    requires w.status.modelId.value in remote.rows ==> w.status.modelId.value in w.remote.rows
    ensures var v := UpdateOrRecreate(w.status, remote, w.status, cr, env, clean).world; Truthful(v) && Valid(v.remote)
  {
    var gone := Deleted(remote, w.status.modelId.value, env.delete);
    assert gone.bodies == remote.bodies && gone.next == remote.next && gone.rows <= remote.rows;
  }

  /** Every pass of a run records what it lands, and takes over only rows that fit. */
  ghost predicate Tame(w: World, steps: seq<Step>)
    decreases |steps|
  {
    steps == [] ||
    match steps[0]
    case Reconcile(cr, env) => Recorded(env) && FitsAdoptee(w, cr, env) && Tame(Pass(w, cr, env).world, steps[1..])
    case Vanish(id) => Tame(w.(remote := w.remote.(rows := w.remote.rows - {id})), steps[1..])
  }

  /**
   Over every such run, with calls that fail, rows that vanish and CRs that change at every step, a
   clean pass leaves LiteLLM with exactly the body the CR renders.
   */
  lemma {:induction false} ExactOverRuns(w: World, steps: seq<Step>, cr: Cr, env: Env)
    requires Truthful(w) && Valid(w.remote) && Tame(w, steps + [Reconcile(cr, env)])
    requires Pass(Run(w, steps), cr, env).clean
    ensures var v := Pass(Run(w, steps), cr, env).world;
            v.status.modelId.Some? && BodyOf(v.remote, v.status.modelId.value) == cr.spec
    decreases |steps|
  {
    var all := steps + [Reconcile(cr, env)];
    if steps == [] {
      assert all[0] == Reconcile(cr, env);
      StoredExactlyWhen(w, cr, env);
    } else {
      assert all[0] == steps[0] && all[1..] == steps[1..] + [Reconcile(cr, env)];
      match steps[0]
      case Reconcile(c, e) =>
        PassKeepsTruth(w, c, e);
        ExactOverRuns(Pass(w, c, e).world, steps[1..], cr, env);
      case Vanish(id) =>
        ExactOverRuns(w.(remote := w.remote.(rows := w.remote.rows - {id})), steps[1..], cr, env);
    }
  }

  // ----- Stability -----

  /** Once converged, no outcome of any later pass over the same CR changes rows or status. */
  lemma ConvergedIsStable(w: World, cr: Cr, env: Env)
    requires Converged(w, cr)
    ensures Pass(w, cr, env).world == w
  {
    var id := w.status.modelId.value;
    var a := Answered(w.remote, env.probe);
    if a.Rows? {
      assert id in a.ids by { assert id in w.remote.rows; }
      if |a.ids| > 1 { TwoRows(a.ids, w.remote.rows); }
    }
  }

  /** Whatever fails, a recorded id is never blanked. */
  lemma IdNeverBlanked(w: World, cr: Cr, env: Env)
    requires w.status.modelId.Some?
    ensures Pass(w, cr, env).world.status.modelId.Some?
  {
  }

  function Plain(c: Call): Id -> Call {
    _ => c
  }

  // ----- When the bound fails -----

  /** A status the loop could have written: an id comes with its hashes and was given out by the server. */
  predicate Written(w: World) {
    w.status.modelId.Some? ==> w.status.hash.Some? && w.status.infoHash.Some? && w.status.modelId.value < w.remote.next
  }

  /** A change of model_info, a 401 on the probe, and a recreate whose reply is lost after it took effect. */
  function LostRecreate(s: Status): Step
    requires s.infoHash.Some?
  {
    var ok, no := Call(Ok, true), Listing(Unauthorized, []);
    Reconcile(Cr(s.observed + 1, Body(map[], if s.infoHash.value == map[] then map["mode" := 0] else map[])),
              Env(false, no, Plain(ok), false, no, ok, ok, Call(Transient, true), true))
  }

  /** Such a pass trades the tracked row for a new one, or adds one when the tracked row is gone. */
  lemma LostRecreateAdds(w: World)
    requires w.remote.acksAbsent && Valid(w.remote) && Written(w) && w.status.modelId.Some?
    ensures var step := LostRecreate(w.status);
            var v := Pass(w, step.cr, step.env).world;
            && v.status == w.status && v.remote.acksAbsent && Valid(v.remote) && Written(v)
            && v.remote.rows == w.remote.rows - {w.status.modelId.value} + {w.remote.next}
            && v.status.modelId.value !in v.remote.rows
            && (w.status.modelId.value !in w.remote.rows ==> |v.remote.rows| == |w.remote.rows| + 1)
            && |v.remote.rows| >= |w.remote.rows|
  {
    var step, id := LostRecreate(w.status), w.status.modelId.value;
    var v := Pass(w, step.cr, step.env).world;
    var info := w.status.infoHash.value;
    assert info == map[] ==> "mode" in step.cr.spec.info && "mode" !in info;
    assert step.cr.spec.info != info;
    assert MustRecreate(w.status, step.cr.spec) && !Steady(w.status, step.cr);
    assert |v.remote.rows| == |w.remote.rows - {id}| + 1;
  }

  lemma {:induction false} Enumeration(rows: set<Id>) returns (order: seq<Id>)
    ensures Enumerates(order, rows)
  {
    if rows == {} {
      order := [];
    } else {
      var x :| x in rows;
      var rest := Enumeration(rows - {x});
      assert forall y :: y in rest <==> y in rows - {x} by { assert forall y :: y in rest <==> y in set z | z in rest; }
      order := [x] + rest;
    }
    assert forall y :: y in order <==> y in rows;
    assert (set z | z in order) == rows;
  }

  /** A first pass that works leaves a tracked row and at least as many rows. */
  lemma FirstPass(w: World) returns (step: Step)
    requires Valid(w.remote) && w.status.modelId.None?
    ensures step.Reconcile?
    ensures var v := Pass(w, step.cr, step.env).world;
            && v.status.modelId.Some? && v.remote.acksAbsent == w.remote.acksAbsent && Valid(v.remote) && Written(v)
            && |v.remote.rows| >= Max(1, |w.remote.rows|)
  {
    var order := Enumeration(w.remote.rows);
    EnumerationEmpty(order, w.remote.rows);
    var ok := Call(Ok, true);
    step := Reconcile(Cr(0, Body(map[], map[])), Env(false, Listing(Ok, order), Plain(ok), false, Listing(Ok, order), ok, ok, ok, true));
    if order != [] {
      assert order[0] in w.remote.rows;
      assert |w.remote.rows| >= |{order[0]}|;
    }
  }

  lemma RunCons(w: World, step: Step, rest: seq<Step>)
    requires step.Reconcile?
    ensures Run(w, [step] + rest) == Run(Pass(w, step.cr, step.env).world, rest)
  {
    assert ([step] + rest)[1..] == rest;
  }

  lemma ThreeLostRecreates(w: World) returns (steps: seq<Step>)
    requires w.remote.acksAbsent && Valid(w.remote) && Written(w) && w.status.modelId.Some?
    ensures |Run(w, steps).remote.rows| >= |w.remote.rows| + 2
  {
    var step := LostRecreate(w.status);
    LostRecreateAdds(w);
    var w1 := Pass(w, step.cr, step.env).world;
    LostRecreateAdds(w1);
    var w2 := Pass(w1, step.cr, step.env).world;
    LostRecreateAdds(w2);
    steps := [step] + ([step] + ([step] + []));
    RunCons(w, step, [step] + ([step] + []));
    RunCons(w1, step, [step] + []);
    RunCons(w2, step, []);
  }

  /** Whatever the rows and the status, a server that acknowledges deleting what it has not can be driven over the bound. */
  lemma AmplifiesWhenAbsenceIsAcked(w: World) returns (steps: seq<Step>)
    requires w.remote.acksAbsent && Valid(w.remote) && Written(w)
    ensures |Run(w, steps).remote.rows| > Max(1, |w.remote.rows|)
  {
    if w.status.modelId.Some? {
      steps := ThreeLostRecreates(w);
    } else {
      var first := FirstPass(w);
      var rest := ThreeLostRecreates(Pass(w, first.cr, first.env).world);
      RunCons(w, first, rest);
      steps := [first] + rest;
    }
  }

  /** The bound holds over all runs exactly when the server refuses to delete a row it has not. */
  lemma BoundExactlyWhen(w: World)
    requires Valid(w.remote) && Written(w)
    ensures (forall steps :: |Run(w, steps).remote.rows| <= Max(1, |w.remote.rows|)) <==> !w.remote.acksAbsent
  {
    if w.remote.acksAbsent {
      var steps := AmplifiesWhenAbsenceIsAcked(w);
    } else {
      forall steps ensures |Run(w, steps).remote.rows| <= Max(1, |w.remote.rows|) { NoAmplification(w, steps); }
    }
  }

  // ----- Reconcile itself -----

  class ModelReconciler {
    var remote: Remote
    var status: Status

    ghost function View(): World
      reads this
    {
      World(remote, status)
    }

    constructor (remote: Remote, status: Status)
      ensures View() == World(remote, status)
    {
      this.remote, this.status := remote, status;
    }

    method DeleteModel(id: Id, c: Call) returns (reply: Reply)
      modifies this`remote
      ensures reply == DeleteReply(old(remote), id, c) && remote == Deleted(old(remote), id, c)
    {
      reply := DeleteReply(remote, id, c);
      remote := Deleted(remote, id, c);
    }

    method CreateModel(c: Call, body: Body) returns (reply: Reply, id: Id)
      modifies this`remote
      ensures reply == c.reply && id == old(remote).next && remote == Created(old(remote), c, body)
    {
      reply, id := c.reply, remote.next;
      remote := Created(remote, c, body);
    }

    method UpdateModel(id: Id, c: Call, body: Body) returns (reply: Reply)
      modifies this`remote
      ensures reply == UpdateReply(old(remote), id, c) && remote == Updated(old(remote), id, c, body)
    {
      reply := UpdateReply(remote, id, c);
      remote := Updated(remote, id, c, body);
    }

    method WriteStatus(wanted: Status, cr: Cr, saved: bool)
      modifies this`status
      ensures status == Saved(old(status), wanted, cr, saved)
    {
      if saved {
        var id := if wanted.modelId.None? then status.modelId else wanted.modelId;
        status := wanted.(modelId := id, observed := cr.generation);
      }
    }

    method ClassifyMutationError(reply: Reply, mem: Status, cr: Cr, saved: bool)
      modifies this`status
      ensures status == if reply.Transient? then old(status) else Saved(old(status), mem, cr, saved)
    {
      if !reply.Transient? { WriteStatus(mem, cr, saved); }
    }

    method Prune(ids: seq<Id>, keep: Id, prune: Id -> Call)
      modifies this`remote
      ensures remote == Pruned(old(remote), ids, keep, prune)
    {
      var i := 0;
      while i < |ids|
        invariant 0 <= i <= |ids|
        invariant Pruned(remote, ids[i..], keep, prune) == Pruned(old(remote), ids, keep, prune)
      {
        assert ids[i..][1..] == ids[i + 1..];
        if ids[i] != keep {
          var _ := DeleteModel(ids[i], prune(ids[i]));
        }
        i := i + 1;
      }
    }

    method Reconcile(cr: Cr, env: Env)
      modifies this
      ensures View() == Pass(old(View()), cr, env).world
    {
      if env.early {
        WriteStatus(status, cr, env.saved);
        return;
      }
      var mem := status;
      ghost var clean := true;
      if status.modelId.Some? && status.hash.Some? {
        var answer := Answered(remote, env.probe);
        if answer.Failed? {
          if !answer.reply.Unauthorized? { return; }
          clean := false;
        } else if status.modelId.value !in answer.ids {
          mem := mem.(modelId := None);
        } else if |answer.ids| > 1 {
          clean := PruneClean(remote, answer.ids, status.modelId.value, env.prune);
          Prune(answer.ids, status.modelId.value, env.prune);
        }
      }
      assert Pass(old(View()), cr, env) == Decide(status, remote, mem, cr, env, clean);
      DecideModel(mem, cr, env);
    }

    method DecideModel(mem: Status, cr: Cr, env: Env)
      modifies this
      ensures forall clean :: View() == Decide(old(status), old(remote), mem, cr, env, clean).world
    {
      if Steady(mem, cr) { return; }
      if mem.modelId.None? {
        CreateOrAdoptModel(mem, cr, env);
      } else {
        UpdateOrRecreateModel(mem, cr, env);
      }
    }

    method CreateOrAdoptModel(mem: Status, cr: Cr, env: Env)
      modifies this
      ensures forall clean :: View() == CreateOrAdopt(old(status), old(remote), mem, cr, env, clean).world
    {
      var first := mem.observed == 0 || mem.hash.None?;
      if !first && env.throttled {
        WriteStatus(mem, cr, env.saved);
        return;
      }
      var answer := Answered(remote, env.lookup);
      if answer.Failed? { return; }
      var reply, id;
      if answer.ids != [] {
        id := answer.ids[0];
        reply := UpdateModel(id, env.update, cr.spec);
      } else {
        reply, id := CreateModel(env.create, cr.spec);
      }
      if reply.Ok? {
        WriteStatus(Success(cr, id), cr, env.saved);
      } else {
        ClassifyMutationError(reply, mem, cr, env.saved);
      }
    }

    method UpdateOrRecreateModel(mem: Status, cr: Cr, env: Env)
      requires mem.modelId.Some?
      modifies this
      ensures forall clean :: View() == UpdateOrRecreate(old(status), old(remote), mem, cr, env, clean).world
    {
      var id, reply := mem.modelId.value, Ok;
      if MustRecreate(mem, cr.spec) {
        reply := DeleteModel(id, env.delete);
        if reply.Ok? { reply, id := CreateModel(env.create, cr.spec); }
      } else {
        reply := UpdateModel(id, env.update, cr.spec);
      }
      if reply.Ok? {
        WriteStatus(Success(cr, id), cr, env.saved);
      } else {
        ClassifyMutationError(reply, mem, cr, env.saved);
      }
    }
  }

  // ----- The deletion path -----

  datatype Policy = Delete | Orphan

  /** `permanent` of an unusable connection is its reason being Absent. */
  datatype Connection = Usable | Unusable(absent: bool)

  datatype DrainEnv = DrainEnv(connection: Connection, lookup: Listing, delete: Call, saved: bool)

  /** Why the finalizer may go, or Retained. */
  datatype Verdict = Acked | ConfirmedAbsent | Orphaned | Retained

  datatype Drained = Drained(remote: Remote, verdict: Verdict, removed: bool)

  function AckMissing(policy: Policy, permanent: bool): Verdict {
    if policy.Delete? || !permanent then Retained else Orphaned
  }

  function DeleteVerdict(reply: Reply, policy: Policy): Verdict {
    match reply
    case Ok => Acked
    case Unauthorized => AckMissing(policy, false)
    case NotFound => ConfirmedAbsent
    case Rejected => AckMissing(policy, true)
    case Transient => Retained
  }

  function DrainRow(r: Remote, id: Id, policy: Policy, env: DrainEnv): Drained {
    var verdict := DeleteVerdict(DeleteReply(r, id, env.delete), policy);
    Drained(Deleted(r, id, env.delete), verdict, verdict != Retained && env.saved)
  }

  function Keeping(r: Remote, verdict: Verdict, env: DrainEnv): Drained {
    Drained(r, verdict, verdict != Retained && env.saved)
  }

  /** One reconcile of a deleting CR that still has its finalizer. */
  function Drain(w: World, policy: Policy, env: DrainEnv): Drained {
    if env.connection.Unusable? then Keeping(w.remote, AckMissing(policy, env.connection.absent), env)
    else if w.status.modelId.Some? then DrainRow(w.remote, w.status.modelId.value, policy, env)
    else
      match Answered(w.remote, env.lookup)
      case Failed(reply) =>
        Keeping(w.remote, if reply.Unauthorized? then AckMissing(policy, false) else Retained, env)
      case Rows(ids) =>
        if ids == [] then Keeping(w.remote, ConfirmedAbsent, env)
        else DrainRow(w.remote, ids[0], policy, env)
  }

  /** The row the deletion path is after: the tracked one, else the first listed. */
  function Target(w: World, env: DrainEnv): Option<Id> {
    if w.status.modelId.Some? then w.status.modelId
    else if Answered(w.remote, env.lookup).Rows? && Answered(w.remote, env.lookup).ids != []
    then Some(Answered(w.remote, env.lookup).ids[0]) else None
  }

  /** The connection is being deleted, or the delete was answered with a deterministic non-404 4xx. */
  predicate Permanent(w: World, env: DrainEnv) {
    if env.connection.Unusable? then env.connection.absent else Target(w, env).Some? && env.delete.reply.Rejected?
  }

  /** No row of the name is stored, or at least not the target. */
  predicate TargetGone(w: World, env: DrainEnv, rows: set<Id>) {
    if Target(w, env).Some? then Target(w, env).value !in rows else rows == {}
  }

  /** LiteLLM acknowledges the delete, or reports absent what it does not store. */
  predicate Confirms(w: World, env: DrainEnv) {
    if Target(w, env).Some? then env.delete.reply.Ok? || (env.delete.reply.NotFound? && Target(w, env).value !in w.remote.rows)
    else w.remote.rows == {} && (env.lookup.reply.NotFound? || env.lookup == Listing(Ok, []))
  }

  /**
   A pass removes the finalizer exactly when LiteLLM confirms, or Orphan meets a permanent cause;
   after a confirmation the target row is not stored.
   */
  lemma FinalizerGoesExactlyWhen(w: World, policy: Policy, env: DrainEnv)
    ensures Drain(w, policy, env).removed <==>
              env.saved && ((env.connection.Usable? && Confirms(w, env)) || (policy.Orphan? && Permanent(w, env)))
    ensures env.connection.Usable? && Confirms(w, env) ==> TargetGone(w, env, Drain(w, policy, env).remote.rows)
  {
    if Answered(w.remote, env.lookup).Rows? {
      EnumerationEmpty(Answered(w.remote, env.lookup).ids, w.remote.rows);
    }
    assert Enumerates([], {});
  }

  /** A CR being deleted, and what may happen: a pass of the operator, or others changing the rows at will. */
  datatype Draining = Draining(world: World, finalizer: bool)

  datatype DrainStep = Try(env: DrainEnv) | Disturb(rows: set<Id>)

  function DrainNext(s: Draining, policy: Policy, step: DrainStep): Draining {
    match step
    case Try(env) =>
      if !s.finalizer then s
      else
        var d := Drain(s.world, policy, env);
        Draining(World(d.remote, s.world.status), !d.removed)
    case Disturb(rows) => Draining(World(s.world.remote.(rows := rows), s.world.status), s.finalizer)
  }

  function DrainRun(s: Draining, policy: Policy, steps: seq<DrainStep>): Draining
    decreases |steps|
  {
    if steps == [] then s else DrainNext(DrainRun(s, policy, steps[..|steps| - 1]), policy, steps[|steps| - 1])
  }

  /**
   Finalizer safety over every run: it goes in one pass of the run, and right after that pass the
   target row is not stored, unless the policy is Orphan and that pass met a permanent cause.
   */
  lemma {:induction false} FinalizerSafety(s: Draining, policy: Policy, steps: seq<DrainStep>) returns (k: nat)
    requires s.finalizer && !DrainRun(s, policy, steps).finalizer
    ensures k < |steps| && steps[k].Try?
    ensures var before, after := DrainRun(s, policy, steps[..k]), DrainRun(s, policy, steps[..k + 1]);
            && before.finalizer && !after.finalizer
            && (|| TargetGone(before.world, steps[k].env, after.world.remote.rows)
                || (policy.Orphan? && Permanent(before.world, steps[k].env)))
    decreases |steps|
  {
    var last := |steps| - 1;
    var before := DrainRun(s, policy, steps[..last]);
    if before.finalizer {
      k := last;
      assert steps[..k + 1] == steps;
      FinalizerGoesExactlyWhen(before.world, policy, steps[k].env);
    } else {
      k := FinalizerSafety(s, policy, steps[..last]);
      assert steps[..last][..k] == steps[..k] && steps[..last][..k + 1] == steps[..k + 1];
    }
  }

  /** Nothing but the target can be left to delete. */
  predicate Tidy(w: World) {
    if w.status.modelId.Some? then w.remote.rows <= {w.status.modelId.value} else |w.remote.rows| <= 1
  }

  /** Under Delete, a removed finalizer leaves no row exactly when there was at most the target row. */
  lemma DeleteLeavesNothing(w: World, env: DrainEnv)
    requires Drain(w, Delete, env).removed
    ensures Drain(w, Delete, env).remote.rows == {} <==> Tidy(w)
  {
    var d := Drain(w, Delete, env);
    if w.status.modelId.None? {
      var ids := Answered(w.remote, env.lookup).ids;
      EnumerationEmpty(ids, w.remote.rows);
      if ids != [] {
        assert ids[0] in w.remote.rows;
        assert d.remote.rows == w.remote.rows - {ids[0]};
        assert |d.remote.rows| == |w.remote.rows| - 1;
      }
    }
  }

  /** A converged CR is tidy, so deleting it under Delete leaves no row behind. */
  lemma ConvergedDeletesCleanly(w: World, cr: Cr, env: DrainEnv)
    requires Converged(w, cr) && Drain(w, Delete, env).removed
    ensures Drain(w, Delete, env).remote.rows == {}
  {
    DeleteLeavesNothing(w, env);
  }

  /** A stale tracked id is answered 404 and the finalizer goes while the live row stays. */
  lemma StaleIdLeavesRow() returns (w: World, env: DrainEnv)
    ensures !w.remote.acksAbsent && Drain(w, Delete, env).removed && Drain(w, Delete, env).remote.rows == {1}
  {
    w := World(Remote({1}, map[], 2, false), Status(Some(0), None, None, {}, {}, 1));
    env := DrainEnv(Usable, Listing(Ok, [1]), Call(NotFound, false), true);
  }
}
