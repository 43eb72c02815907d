/**
 The singleton alias reconciler against a cluster it reads through a lagging cache and a
 router_settings object other writers may touch. Every API call is one step; a call may fail, and
 may fail after taking effect. `hist` holds every state the cluster has been in: its length serves
 as the next resourceVersion and the next uid.
 */
module AliasController {
  import opened Wrappers
  import opened CanonicalJson
  import opened AliasAggregate
  import opened RouterSettings

  /** An alias CR as stored: `finalizer` is the operator's own. */
  datatype AliasObj = AliasObj(uid: nat, version: nat, cr: AliasCr, deleting: bool, finalizer: bool)

  type Cluster = map<nat, AliasObj>

  datatype Event =
    | Listed
    | Posted(list: seq<AliasObj>, acked: bool)
    | Stripped(uid: nat)
    | Dropped(uid: nat)
    | ForeignWrite

  /** Where the pass stands. `read` is the router_settings the GET returned. */
  datatype Phase =
    | Idle
    | Finalizing(list: seq<AliasObj>)
    | Got(list: seq<AliasObj>, read: Settings)
    | Written(list: seq<AliasObj>, pos: nat)

  datatype World = World(
    hist: seq<Cluster>,
    seen: map<nat, nat>,
    remote: Settings,
    phase: Phase,
    log: seq<Event>,
    written: Option<seq<AliasObj>>)

  datatype Action =
    | Create(cr: AliasCr, finalizer: bool)
    | Edit(uid: nat, entries: seq<Entry>, finalizer: bool)
    | Delete(uid: nat)
    | Vanish(uid: nat)
    | Observe(uid: nat, at: nat)
    | OtherWriter(settings: Settings)
    | List(list: seq<AliasObj>)
    | AddFinalizer(i: nat, effect: bool, acked: bool)
    | Get
    | Post(effect: bool, acked: bool)
    | Visit(effect: bool)
    | EndPass

  // ----- The parts of a pass -----

  function Now(w: World): Cluster
    requires w.hist != []
  {
    w.hist[|w.hist| - 1]
  }

  function Seen(w: World, uid: nat): nat {
    if uid in w.seen then w.seen[uid] else 0
  }

  /** What the informer cache shows of one object: its state at some earlier moment, never going back. */
  ghost predicate Cached(w: World, o: AliasObj) {
    && Seen(w, o.uid) < |w.hist|
    && o.uid in w.hist[Seen(w, o.uid)] && w.hist[Seen(w, o.uid)][o.uid] == o
  }

  ghost predicate DistinctUids(list: seq<AliasObj>) {
    forall i, j :: 0 <= i < j < |list| ==> list[i].uid != list[j].uid
  }

  ghost predicate ListsCache(w: World, list: seq<AliasObj>) {
    DistinctUids(list) && forall o :: o in list <==> Cached(w, o)
  }

  function Alive(list: seq<AliasObj>): seq<AliasObj> {
    if list == [] then []
    else if list[|list| - 1].deleting then Alive(list[..|list| - 1])
    else Alive(list[..|list| - 1]) + [list[|list| - 1]]
  }

  method FilterAliveAliases(items: seq<AliasObj>) returns (out: seq<AliasObj>)
    ensures out == Alive(items)
  {
    out := [];
    for i := 0 to |items|
      invariant out == Alive(items[..i])
    {
      assert items[..i + 1][..i] == items[..i];
      if !items[i].deleting {
        out := out + [items[i]];
      }
    }
    assert items[..|items|] == items;
  }

  lemma {:induction false} AliveMembers(list: seq<AliasObj>, o: AliasObj)
    ensures o in Alive(list) <==> o in list && !o.deleting
  {
    if list != [] {
      AliveMembers(list[..|list| - 1], o);
      assert list == list[..|list| - 1] + [list[|list| - 1]];
    }
  }

  function Crs(list: seq<AliasObj>): seq<AliasCr> {
    seq(|list|, i requires 0 <= i < |list| => list[i].cr)
  }

  function Desired(list: seq<AliasObj>): map<string, string> {
    Aggregated(Crs(Alive(list))).desired
  }

  // ----- Steps -----

  /** The API server's optimistic lock: an update lands only on the version it was computed from. */
  predicate Current(w: World, o: AliasObj) {
    w.hist != [] && o.uid in Now(w) && Now(w)[o.uid] == o
  }

  ghost predicate Enabled(w: World, a: Action) {
    && w.hist != []
    && match a
       case Create(_, _) => true
       case Edit(uid, _, _) => uid in Now(w)
       case Delete(uid) => uid in Now(w)
       case Vanish(uid) => uid in Now(w) && Now(w)[uid].deleting && !Now(w)[uid].finalizer
       case Observe(uid, at) => Seen(w, uid) <= at < |w.hist|
       case OtherWriter(_) => true
       case List(list) => w.phase.Idle? && ListsCache(w, list)
       case AddFinalizer(i, effect, acked) =>
         && w.phase.Finalizing? && i < |w.phase.list|
         && !w.phase.list[i].deleting && !w.phase.list[i].finalizer
         && (effect ==> Current(w, w.phase.list[i])) && (acked ==> effect)
       case Get =>
         && w.phase.Finalizing? && Readable(w.remote)
         && forall o :: o in w.phase.list && !o.deleting ==> o.finalizer
       case Post(effect, acked) => w.phase.Got? && (acked ==> effect)
       case Visit(effect) =>
         && w.phase.Written? && w.phase.pos < |w.phase.list|
         && var o := w.phase.list[w.phase.pos];
            (effect ==> o.deleting && o.finalizer && Current(w, o))
       case EndPass => true
  }

  /** A write of one object: a new version of it in a new cluster state. */
  function Store(w: World, o: AliasObj): seq<Cluster>
    requires w.hist != []
  {
    w.hist + [Now(w)[o.uid := o]]
  }

  function Finalized(w: World, o: AliasObj): AliasObj {
    AliasObj(o.uid, |w.hist|, o.cr, o.deleting, true)
  }

  function StrippedOf(w: World, o: AliasObj): AliasObj {
    AliasObj(o.uid, |w.hist|, o.cr, o.deleting, false)
  }

  function Rewrite(list: seq<AliasObj>, read: Settings): Settings {
    Merge(Parts(Split(read).extra, Desired(list)))
  }

  function Step(w: World, a: Action): World
    requires Enabled(w, a)
  {
    match a
    case Create(cr, finalizer) =>
      World(Store(w, AliasObj(|w.hist|, |w.hist|, cr, false, finalizer)), w.seen, w.remote, w.phase, w.log, w.written)
    case Edit(uid, entries, finalizer) =>
      var o := Now(w)[uid];
      World(Store(w, AliasObj(uid, |w.hist|, AliasCr(o.cr.namespace, o.cr.name, entries), o.deleting, finalizer)),
            w.seen, w.remote, w.phase, if o.finalizer && !finalizer then w.log + [Dropped(uid)] else w.log, w.written)
    case Delete(uid) =>
      var o := Now(w)[uid];
      World(Store(w, AliasObj(uid, |w.hist|, o.cr, true, o.finalizer)), w.seen, w.remote, w.phase, w.log, w.written)
    case Vanish(uid) =>
      World(w.hist + [Now(w) - {uid}], w.seen, w.remote, w.phase, w.log, w.written)
    case Observe(uid, at) =>
      World(w.hist, w.seen[uid := at], w.remote, w.phase, w.log, w.written)
    case OtherWriter(settings) =>
      World(w.hist, w.seen, settings, w.phase, w.log + [ForeignWrite], None)
    case List(list) =>
      World(w.hist, w.seen, w.remote, Finalizing(list), w.log + [Listed], w.written)
    case AddFinalizer(i, effect, acked) =>
      var o := Finalized(w, w.phase.list[i]);
      World(if effect then Store(w, o) else w.hist, w.seen, w.remote,
            if acked then Finalizing(w.phase.list[i := o]) else Idle, w.log, w.written)
    case Get =>
      World(w.hist, w.seen, w.remote, Got(w.phase.list, w.remote), w.log, w.written)
    case Post(effect, acked) =>
      World(w.hist, w.seen, if effect then Rewrite(w.phase.list, w.phase.read) else w.remote,
            if acked then Written(w.phase.list, 0) else Idle,
            if effect then w.log + [Posted(w.phase.list, acked)] else w.log,
            if effect then Some(Alive(w.phase.list)) else w.written)
    case Visit(effect) =>
      var o := w.phase.list[w.phase.pos];
      World(if effect then Store(w, StrippedOf(w, o)) else w.hist, w.seen, w.remote,
            Written(w.phase.list, w.phase.pos + 1),
            if effect then w.log + [Stripped(o.uid)] else w.log, w.written)
    case EndPass =>
      World(w.hist, w.seen, w.remote, Idle, w.log, w.written)
  }

  // ----- Runs -----

  ghost predicate Runs(w: World, acts: seq<Action>)
    decreases |acts|
  {
    acts == [] || (Enabled(w, acts[0]) && Runs(Step(w, acts[0]), acts[1..]))
  }

  function Run(w: World, acts: seq<Action>): World
    requires Runs(w, acts)
    decreases |acts|
  {
    if acts == [] then w else Run(Step(w, acts[0]), acts[1..])
  }

  /** Any cluster and any router_settings to begin with; the operator has done nothing yet. */
  ghost predicate Initial(w: World) {
    && w.hist == [map[]] && w.seen == map[] && w.phase == Idle && w.log == [] && w.written == None
  }

  // ----- What every step keeps -----

  ghost predicate HistoryOk(w: World) {
    && w.hist != []
    && (forall n, u :: 0 <= n < |w.hist| && u in w.hist[n] ==> w.hist[n][u].uid == u < |w.hist|)
    && (forall n, m, u :: 0 <= n <= m < |w.hist| && u in w.hist[n] && u in w.hist[m] && w.hist[n][u].deleting
          ==> w.hist[m][u].deleting)
    && (forall u :: u in w.seen ==> w.seen[u] < |w.hist|)
  }

  /** Every state of the object from the cached one on is deleting: no later listing shows it alive. */
  ghost predicate Doomed(w: World, uid: nat) {
    uid < |w.hist| && forall m :: Seen(w, uid) <= m < |w.hist| && uid in w.hist[m] ==> w.hist[m][uid].deleting
  }

  /** The object still carries the finalizer, unless somebody took it off. */
  ghost predicate Held(w: World, uid: nat) {
    || (w.hist != [] && uid in Now(w) && Now(w)[uid].finalizer)
    || Dropped(uid) in w.log || Stripped(uid) in w.log
  }

  ghost predicate LedgerOk(w: World) {
    && (forall u :: Stripped(u) in w.log ==> Doomed(w, u))
    && (forall n, u :: 0 <= n < |w.hist| && u in w.hist[n] && w.hist[n][u].finalizer ==> Held(w, u))
  }

  ghost predicate ItemOk(w: World, o: AliasObj) {
    && o.uid < |w.hist|
    && (o.deleting ==> Doomed(w, o.uid))
    && (!o.deleting ==> Stripped(o.uid) !in w.log)
    && (o.finalizer ==> Held(w, o.uid))
  }

  ghost predicate ListOk(w: World, list: seq<AliasObj>) {
    DistinctUids(list) && forall o :: o in list ==> ItemOk(w, o)
  }

  ghost predicate AliveFinalized(list: seq<AliasObj>) {
    forall o :: o in list && !o.deleting ==> o.finalizer
  }

  ghost predicate PhaseOk(w: World) {
    match w.phase
    case Idle => true
    case Finalizing(list) => ListOk(w, list)
    case Got(list, read) => ListOk(w, list) && AliveFinalized(list)
    case Written(list, pos) => ListOk(w, list) && (w.written.None? || w.written == Some(Alive(list)))
  }

  /** The CRs of the last write are held and not stripped, and the remote map is theirs. */
  ghost predicate WrittenOk(w: World) {
    w.written.Some? ==>
      && (forall o :: o in w.written.value ==> Held(w, o.uid) && Stripped(o.uid) !in w.log)
      && Readable(w.remote) && Split(w.remote).alias == Aggregated(Crs(w.written.value)).desired
  }

  ghost predicate Inv(w: World) {
    HistoryOk(w) && LedgerOk(w) && PhaseOk(w) && WrittenOk(w)
  }

  // ----- Steps of the cluster -----

  /** One more cluster state: objects keep their uid, deletion is permanent, a lost finalizer is logged. */
  ghost predicate Grows(w: World, v: World) {
    && w.hist != [] && |v.hist| == |w.hist| + 1 && v.hist[..|w.hist|] == w.hist && v.seen == w.seen
    && (forall u :: u in Now(v) ==> Now(v)[u].uid == u && (u in Now(w) || u == |w.hist|))
    && (forall u :: u in Now(v) && u in Now(w) && Now(w)[u].deleting ==> Now(v)[u].deleting)
    && (forall u :: u in Now(w) && Now(w)[u].finalizer ==> Held(v, u))
    && (forall u :: u in Now(v) && Now(v)[u].finalizer ==> Held(v, u))
    && (forall e :: e in w.log ==> e in v.log)
  }

  lemma GrownHistory(w: World, v: World)
    requires HistoryOk(w) && Grows(w, v)
    ensures HistoryOk(v)
  {
    var last := |w.hist| - 1;
    forall n | 0 <= n <= last ensures v.hist[n] == w.hist[n] { assert v.hist[..|w.hist|][n] == v.hist[n]; }
    forall n, m, u | 0 <= n <= m < |v.hist| && u in v.hist[n] && u in v.hist[m] && v.hist[n][u].deleting
      ensures v.hist[m][u].deleting
    {
      if m == last + 1 && n <= last {
        assert u in w.hist[n];
        assert w.hist[n][u].deleting && u in w.hist[last];
      }
    }
  }

  lemma DoomedStays(w: World, v: World, u: nat)
    requires HistoryOk(w) && Grows(w, v) && Doomed(w, u)
    ensures Doomed(v, u)
  {
    var last := |w.hist| - 1;
    forall m | Seen(v, u) <= m < |v.hist| && u in v.hist[m] ensures v.hist[m][u].deleting {
      if m <= last {
        assert v.hist[..|w.hist|][m] == v.hist[m];
      } else {
        assert u in w.hist[last] && w.hist[last][u].deleting;
      }
    }
  }

  lemma GrownLedger(w: World, v: World)
    requires HistoryOk(w) && LedgerOk(w) && Grows(w, v)
    requires forall u :: Stripped(u) in v.log ==> Stripped(u) in w.log || Doomed(v, u)
    ensures LedgerOk(v)
  {
    forall u | Stripped(u) in v.log ensures Doomed(v, u) {
      if Stripped(u) in w.log { DoomedStays(w, v, u); }
    }
    forall n, u | 0 <= n < |v.hist| && u in v.hist[n] && v.hist[n][u].finalizer ensures Held(v, u) {
      if n < |w.hist| {
        assert v.hist[..|w.hist|][n] == v.hist[n];
        assert Held(w, u);
      }
    }
  }

  lemma GrownList(w: World, v: World, list: seq<AliasObj>)
    requires HistoryOk(w) && ListOk(w, list) && Grows(w, v)
    requires forall o :: o in list && !o.deleting ==> Stripped(o.uid) !in v.log
    ensures ListOk(v, list)
  {
    forall o | o in list ensures ItemOk(v, o) {
      assert ItemOk(w, o);
      if o.deleting { DoomedStays(w, v, o.uid); }
    }
  }

  /** A change of the cluster by anybody else, or the operator's own write of a finalizer. */
  lemma GrowthKeeps(w: World, v: World)
    requires Inv(w) && Grows(w, v) && OnlyCluster(w, v)
    ensures Inv(v)
  {
    GrownHistory(w, v);
    GrownLedger(w, v);
    match w.phase
    case Idle =>
    case Finalizing(list) => GrownList(w, v, list);
    case Got(list, read) => GrownList(w, v, list);
    case Written(list, pos) => GrownList(w, v, list);
  }

  lemma ClusterSteps(w: World, a: Action)
    requires Inv(w) && Enabled(w, a)
    requires a.Create? || a.Edit? || a.Delete? || a.Vanish?
    ensures Inv(Step(w, a))
  {
    if a.Edit? {
      EditGrows(w, a);
    } else {
      WriteGrows(w, a);
    }
    GrowthKeeps(w, Step(w, a));
  }

  /** Only the cluster and perhaps the log change, and no strip is logged. */
  ghost predicate OnlyCluster(w: World, v: World) {
    && v.remote == w.remote && v.phase == w.phase && v.written == w.written
    && forall u :: Stripped(u) in v.log ==> Stripped(u) in w.log
  }

  lemma WriteGrows(w: World, a: Action)
    requires HistoryOk(w) && Enabled(w, a) && (a.Create? || a.Delete? || a.Vanish?)
    ensures Grows(w, Step(w, a)) && OnlyCluster(w, Step(w, a))
  {
  }

  lemma EditGrows(w: World, a: Action)
    requires HistoryOk(w) && Enabled(w, a) && a.Edit?
    ensures Grows(w, Step(w, a)) && OnlyCluster(w, Step(w, a))
  {
  }

  // ----- Steps that leave the cluster alone -----

  /** Same cluster, a cache that may have moved on, and a log without a new strip. */
  ghost predicate Quiet(w: World, v: World) {
    && v.hist == w.hist
    && (forall u :: Seen(w, u) <= Seen(v, u)) && (forall u :: u in v.seen ==> v.seen[u] < |v.hist|)
    && (forall e :: e in w.log ==> e in v.log)
    && (forall u :: Stripped(u) in v.log ==> Stripped(u) in w.log)
  }

  lemma QuietKeeps(w: World, v: World)
    requires Inv(w) && Quiet(w, v)
    ensures HistoryOk(v) && LedgerOk(v)
    ensures forall list :: ListOk(w, list) ==> ListOk(v, list)
    ensures w.written.Some? ==> forall o :: o in w.written.value ==> Held(v, o.uid) && Stripped(o.uid) !in v.log
  {
    forall u | Doomed(w, u) ensures Doomed(v, u) {}
    forall u | Held(w, u) ensures Held(v, u) {}
    forall n, u | 0 <= n < |w.hist| && u in w.hist[n] && w.hist[n][u].finalizer ensures Held(v, u) {
      assert Held(w, u);
    }
    forall list, o | ListOk(w, list) && o in list ensures ItemOk(v, o) {
      assert ItemOk(w, o);
    }
  }

  lemma QuietSteps(w: World, a: Action)
    requires Inv(w) && Enabled(w, a)
    requires a.Observe? || a.OtherWriter? || a.Get? || a.EndPass?
    ensures Inv(Step(w, a))
  {
    QuietKeeps(w, Step(w, a));
  }

  /** What the cache shows alive was never stripped; what it shows deleting stays so. */
  lemma ListKeeps(w: World, list: seq<AliasObj>)
    requires Inv(w) && Enabled(w, List(list))
    ensures Inv(Step(w, List(list)))
  {
    var v := Step(w, List(list));
    QuietKeeps(w, v);
    forall o | o in list ensures ItemOk(v, o) {
      assert Cached(w, o);
    }
  }

  lemma AddFinalizerKeeps(w: World, i: nat, effect: bool, acked: bool)
    requires Inv(w) && Enabled(w, AddFinalizer(i, effect, acked))
    ensures Inv(Step(w, AddFinalizer(i, effect, acked)))
  {
    var v, list := Step(w, AddFinalizer(i, effect, acked)), w.phase.list;
    if effect {
      GrownHistory(w, v);
      GrownLedger(w, v);
      GrownList(w, v, list);
      if acked {
        FinalizedList(v, list, i, v.phase.list[i]);
      }
    } else {
      QuietKeeps(w, v);
    }
  }

  lemma FinalizedList(v: World, list: seq<AliasObj>, i: nat, o: AliasObj)
    requires ListOk(v, list) && i < |list| && !list[i].deleting
    requires o.uid == list[i].uid && !o.deleting && Held(v, o.uid)
    ensures ListOk(v, list[i := o])
  {
    assert list[i] in list && ItemOk(v, list[i]);
  }

  lemma PostKeeps(w: World, effect: bool, acked: bool)
    requires Inv(w) && Enabled(w, Post(effect, acked))
    ensures Inv(Step(w, Post(effect, acked)))
  {
    var v, list := Step(w, Post(effect, acked)), w.phase.list;
    QuietKeeps(w, v);
    if effect {
      SplitMerge(Parts(Split(w.phase.read).extra, Desired(list)));
      forall o | o in Alive(list) ensures Held(v, o.uid) && Stripped(o.uid) !in v.log {
        AliveMembers(list, o);
        assert ItemOk(w, o);
      }
    }
  }

  lemma VisitKeeps(w: World, effect: bool)
    requires Inv(w) && Enabled(w, Visit(effect))
    ensures Inv(Step(w, Visit(effect)))
  {
    var v, list, o := Step(w, Visit(effect)), w.phase.list, w.phase.list[w.phase.pos];
    if effect {
      StripGrows(w);
      assert ItemOk(w, o);
      GrownHistory(w, v);
      DoomedStays(w, v, o.uid);
      GrownLedger(w, v);
      GrownList(w, v, list);
      if w.written.Some? {
        forall p | p in w.written.value ensures p.uid != o.uid && Held(v, p.uid) {
          AliveMembers(list, p);
          assert Held(w, p.uid);
        }
      }
    } else {
      QuietKeeps(w, v);
    }
  }

  lemma StripGrows(w: World)
    requires HistoryOk(w) && Enabled(w, Visit(true))
    ensures Grows(w, Step(w, Visit(true)))
  {
  }

  lemma StepKeeps(w: World, a: Action)
    requires Inv(w) && Enabled(w, a)
    ensures Inv(Step(w, a))
  {
    match a
    case List(list) => ListKeeps(w, list);
    case AddFinalizer(i, effect, acked) => AddFinalizerKeeps(w, i, effect, acked);
    case Post(effect, acked) => PostKeeps(w, effect, acked);
    case Visit(effect) => VisitKeeps(w, effect);
    case Create(_, _) => ClusterSteps(w, a);
    case Edit(_, _, _) => ClusterSteps(w, a);
    case Delete(_) => ClusterSteps(w, a);
    case Vanish(_) => ClusterSteps(w, a);
    case Observe(_, _) => QuietSteps(w, a);
    case OtherWriter(_) => QuietSteps(w, a);
    case Get => QuietSteps(w, a);
    case EndPass => QuietSteps(w, a);
  }

  lemma {:induction false} RunKeeps(w: World, acts: seq<Action>)
    requires Inv(w) && Runs(w, acts)
    ensures Inv(Run(w, acts))
    decreases |acts|
  {
    if acts != [] {
      StepKeeps(w, acts[0]);
      RunKeeps(Step(w, acts[0]), acts[1..]);
    }
  }

  lemma InitialOk(w: World)
    requires Initial(w)
    ensures Inv(w) && LogOk(w)
  {
  }

  // ----- No orphan entries -----

  /**
   Whenever the operator was the last to write router_settings, every alias in it is an entry of a
   CR that is still in the cluster under its finalizer, unless somebody else took the finalizer off.
   */
  lemma NoOrphanEntries(w: World, acts: seq<Action>, alias: string) returns (o: AliasObj)
    requires Initial(w) && Runs(w, acts)
    requires var v := Run(w, acts); v.written.Some? && alias in Split(v.remote).alias
    ensures var v := Run(w, acts);
            && o in v.written.value
            && Entry(alias, Split(v.remote).alias[alias]) in o.cr.entries
            && (|| Dropped(o.uid) in v.log
                || (v.hist != [] && o.uid in Now(v) && Now(v)[o.uid].finalizer))
  {
    InitialOk(w);
    RunKeeps(w, acts);
    var v := Run(w, acts);
    var list := v.written.value;
    var c, i := DesiredFromEntry(Crs(list), alias);
    o := list[c];
    assert o in list && Held(v, o.uid);
    assert o.cr.entries[i] == Entry(alias, Split(v.remote).alias[alias]);
  }

  // ----- The order of writes and finalizers -----

  /** In the same pass an acknowledged write went out, computed without this CR, which it saw deleting. */
  ghost predicate Covers(log: seq<Event>, j: nat, i: nat, uid: nat) {
    && j < i <= |log| && log[j].Posted? && log[j].acked
    && (forall k :: j < k < i ==> !log[k].Listed?)
    && (exists o :: o in log[j].list && o.uid == uid && o.deleting)
    && (forall o :: o in Alive(log[j].list) ==> o.uid != uid)
  }

  ghost predicate Covered(log: seq<Event>, i: nat)
    requires i < |log|
  {
    log[i].Stripped? ==> exists j: nat :: Covers(log, j, i, log[i].uid)
  }

  /** The post at j was not aggregated from a CR stripped before. */
  ghost predicate Afresh(log: seq<Event>, j: nat)
    requires j < |log|
  {
    log[j].Posted? ==> forall i, o :: 0 <= i < j && log[i].Stripped? && o in Alive(log[j].list) ==> o.uid != log[i].uid
  }

  ghost predicate InWriteOrder(log: seq<Event>) {
    forall i :: 0 <= i < |log| ==> Covered(log, i) && Afresh(log, i)
  }

  ghost predicate LogOk(w: World) {
    InWriteOrder(w.log) && (w.phase.Written? ==> exists j: nat :: LastPost(w.log, j, w.phase.list))
  }

  ghost predicate LastPost(log: seq<Event>, j: nat, list: seq<AliasObj>) {
    j < |log| && log[j] == Posted(list, true) && forall k :: j < k < |log| ==> !log[k].Listed?
  }

  lemma WriteOrderGrows(log: seq<Event>, e: Event)
    requires InWriteOrder(log)
    requires Covered(log + [e], |log|) && Afresh(log + [e], |log|)
    ensures InWriteOrder(log + [e])
  {
    var more := log + [e];
    forall i | 0 <= i < |log| ensures Covered(more, i) && Afresh(more, i) {
      assert Covered(log, i) && Afresh(log, i) && more[i] == log[i];
      if log[i].Stripped? {
        var j: nat :| Covers(log, j, i, log[i].uid);
        assert Covers(more, j, i, more[i].uid);
      }
    }
  }

  /** Steps that log nothing, or one event that is neither a post nor a strip. */
  lemma LogQuiet(w: World, v: World)
    requires LogOk(w)
    requires v.log == w.log || exists e :: v.log == w.log + [e] && !e.Stripped? && !e.Posted? && (e.Listed? ==> !v.phase.Written?)
    requires v.phase.Written? ==> w.phase.Written? && v.phase.list == w.phase.list
    ensures LogOk(v)
  {
    if v.log != w.log {
      var e :| v.log == w.log + [e] && !e.Stripped? && !e.Posted? && (e.Listed? ==> !v.phase.Written?);
      WriteOrderGrows(w.log, e);
      if v.phase.Written? {
        var j: nat :| LastPost(w.log, j, w.phase.list);
        assert LastPost(v.log, j, v.phase.list);
      }
    }
  }

  lemma PostLogged(w: World, effect: bool, acked: bool)
    requires Inv(w) && LogOk(w) && Enabled(w, Post(effect, acked))
    ensures LogOk(Step(w, Post(effect, acked)))
  {
    var v, list := Step(w, Post(effect, acked)), w.phase.list;
    if effect {
      forall i, o | 0 <= i < |w.log| && w.log[i].Stripped? && o in Alive(list) ensures o.uid != w.log[i].uid {
        AliveMembers(list, o);
        assert ItemOk(w, o) && w.log[i] == Stripped(w.log[i].uid);
      }
      WriteOrderGrows(w.log, Posted(list, acked));
      if acked { assert LastPost(v.log, |w.log|, list); }
    }
  }

  lemma VisitLogged(w: World, effect: bool)
    requires Inv(w) && LogOk(w) && Enabled(w, Visit(effect))
    ensures LogOk(Step(w, Visit(effect)))
  {
    var v, list, o := Step(w, Visit(effect)), w.phase.list, w.phase.list[w.phase.pos];
    var j: nat :| LastPost(w.log, j, list);
    assert LastPost(v.log, j, list);
    if effect {
      forall p | p in Alive(list) ensures p.uid != o.uid { AliveMembers(list, p); }
      assert Covers(v.log, j, |w.log|, o.uid);
      WriteOrderGrows(w.log, Stripped(o.uid));
    }
  }

  lemma StepLogged(w: World, a: Action)
    requires Inv(w) && LogOk(w) && Enabled(w, a)
    ensures LogOk(Step(w, a))
  {
    match a
    case Post(effect, acked) => PostLogged(w, effect, acked);
    case Visit(effect) => VisitLogged(w, effect);
    case List(_) => LogQuiet(w, Step(w, a));
    case AddFinalizer(_, _, _) => LogQuiet(w, Step(w, a));
    case Create(_, _) => LogQuiet(w, Step(w, a));
    case Edit(_, _, _) => LogQuiet(w, Step(w, a));
    case Delete(_) => LogQuiet(w, Step(w, a));
    case Vanish(_) => LogQuiet(w, Step(w, a));
    case Observe(_, _) => LogQuiet(w, Step(w, a));
    case OtherWriter(_) => LogQuiet(w, Step(w, a));
    case Get => LogQuiet(w, Step(w, a));
    case EndPass => LogQuiet(w, Step(w, a));
  }

  lemma {:induction false} RunLogged(w: World, acts: seq<Action>)
    requires Inv(w) && LogOk(w) && Runs(w, acts)
    ensures LogOk(Run(w, acts))
    decreases |acts|
  {
    if acts != [] {
      StepKeeps(w, acts[0]);
      StepLogged(w, acts[0]);
      RunLogged(Step(w, acts[0]), acts[1..]);
    }
  }

  /**
   A finalizer comes off only after an acknowledged write, in the same pass, of a map aggregated
   without that CR; and no later write is aggregated from it again.
   */
  lemma FinalizerAfterWrite(w: World, acts: seq<Action>, i: nat)
    requires Initial(w) && Runs(w, acts)
    requires i < |Run(w, acts).log| && Run(w, acts).log[i].Stripped?
    ensures var log := Run(w, acts).log;
            && (exists j: nat :: Covers(log, j, i, log[i].uid))
            && forall j, o :: i < j < |log| && log[j].Posted? && o in Alive(log[j].list) ==> o.uid != log[i].uid
  {
    InitialOk(w);
    RunLogged(w, acts);
    var log := Run(w, acts).log;
    assert Covered(log, i);
    forall j, o | i < j < |log| && log[j].Posted? && o in Alive(log[j].list) ensures o.uid != log[i].uid {
      assert Afresh(log, j);
    }
  }

  // ----- The frame -----

  ghost predicate Agree(a: Settings, b: Settings, key: string) {
    (key in a <==> key in b) && (key in a ==> a[key] == b[key])
  }

  /** A write keeps another key exactly when nobody changed that key between the GET and the POST. */
  lemma WriteKeepsKeyIff(w: World, acked: bool, key: string)
    requires Enabled(w, Post(true, acked)) && key != ALIAS
    ensures Agree(Step(w, Post(true, acked)).remote, w.remote, key) <==> Agree(w.phase.read, w.remote, key)
  {
    var after := Step(w, Post(true, acked)).remote;
    assert Agree(after, w.phase.read, key);
  }

  ghost predicate SameFrame(start: Settings, w: World) {
    w.remote - {ALIAS} == start - {ALIAS} && (w.phase.Got? ==> w.phase.read - {ALIAS} == start - {ALIAS})
  }

  /** Over any run in which nobody else writes router_settings, no key but the alias map ever changes. */
  lemma {:induction false} FrameOverRuns(start: Settings, w: World, acts: seq<Action>)
    requires SameFrame(start, w) && Runs(w, acts)
    requires forall i :: 0 <= i < |acts| ==> !acts[i].OtherWriter?
    ensures Run(w, acts).remote - {ALIAS} == start - {ALIAS}
    decreases |acts|
  {
    if acts != [] {
      var v := Step(w, acts[0]);
      if acts[0].Post? {
        assert Rewrite(w.phase.list, w.phase.read) - {ALIAS} == w.phase.read - {ALIAS};
      }
      FrameOverRuns(start, v, acts[1..]);
    }
  }

  /** The race is real: a key another client adds between GET and POST is lost. */
  lemma LostUpdate() returns (w: World, acts: seq<Action>)
    ensures Initial(w) && Runs(w, acts)
    ensures |acts| == 4 && acts[2..] == [OtherWriter(map["timeout" := Num("30")]), Post(true, true)]
    ensures "timeout" !in Run(w, acts).remote
  {
    w := World([map[]], map[], map[], Idle, [], None);
    var other: Settings := map["timeout" := Num("30")];
    acts := [List([]), Get, OtherWriter(other), Post(true, true)];
    var w1 := Step(w, List([]));
    var w2 := Step(w1, Get);
    var w3 := Step(w2, OtherWriter(other));
    var w4 := Step(w3, Post(true, true));
    assert acts[1..] == [Get, OtherWriter(other), Post(true, true)];
    assert acts[1..][1..] == [OtherWriter(other), Post(true, true)];
    assert acts[1..][1..][1..] == [Post(true, true)];
    assert acts[1..][1..][1..][1..] == [];
    assert Runs(w4, []) && Runs(w3, [Post(true, true)]) && Run(w3, [Post(true, true)]) == w4;
    assert Runs(w2, acts[1..][1..]) && Run(w2, acts[1..][1..]) == w4;
  }
}
