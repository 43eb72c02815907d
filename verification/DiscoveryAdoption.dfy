/**
 A Discovery and its children on an API server that others write to at the same time. Reads may be
 arbitrarily stale; what protects a child its user has taken over is the resourceVersion carried
 from the ownership read to the write. `hist` holds every state the cluster has been in, and its
 length serves as the next resourceVersion and the next uid.
 */
module DiscoveryAdoption {
  import opened Wrappers

  datatype OwnerRef = OwnerRef(kind: string, uid: string, controller: bool)

  /** The Discovery, by kind and uid. */
  datatype Parent = Parent(kind: string, uid: string)

  datatype Child = Child(name: string, uid: nat, version: nat, owners: seq<OwnerRef>, labelled: bool, deleting: bool)

  // ----- Ownership -----

  predicate Matches(ref: OwnerRef, me: Parent) {
    ref.controller && ref.kind == me.kind && ref.uid == me.uid
  }

  /** The controller owner is this Discovery. */
  predicate Owned(owners: seq<OwnerRef>, me: Parent) {
    exists i :: 0 <= i < |owners| && Matches(owners[i], me)
  }

  method OwnedByThisDiscovery(child: Child, me: Parent) returns (owned: bool)
    ensures owned == Owned(child.owners, me)
  {
    for i := 0 to |child.owners|
      invariant forall j :: 0 <= j < i ==> !Matches(child.owners[j], me)
    {
      if Matches(child.owners[i], me) { return true; }
    }
    return false;
  }

  /** The weaker test of the vanish step: any reference with the parent's uid. */
  method OwnedByDiscovery(child: Child, uid: string) returns (owned: bool)
    ensures owned <==> exists i :: 0 <= i < |child.owners| && child.owners[i].uid == uid
  {
    for i := 0 to |child.owners|
      invariant forall j :: 0 <= j < i ==> child.owners[j].uid != uid
    {
      if child.owners[i].uid == uid { return true; }
    }
    return false;
  }

  /** The API server admits at most one controller reference. */
  ghost predicate OneController(owners: seq<OwnerRef>) {
    forall i, j :: 0 <= i < j < |owners| ==> !(owners[i].controller && owners[j].controller)
  }

  function Controller(owners: seq<OwnerRef>): Option<OwnerRef> {
    if owners == [] then None
    else if owners[0].controller then Some(owners[0])
    else Controller(owners[1..])
  }

  datatype Class = Absent | Ours(child: Child) | BeingDeleted | Explicit | Conflict

  /** The decision on the object a read of the child's name returned. */
  function Classify(found: Option<Child>, me: Parent): Class {
    match found
    case None => Absent
    case Some(child) =>
      if child.deleting && !Owned(child.owners, me) then BeingDeleted
      else match Controller(child.owners)
           case None => Explicit
           case Some(ref) => if ref.kind == me.kind && ref.uid == me.uid then Ours(child) else Conflict
  }

  method ClassifyAlreadyExists(found: Option<Child>, me: Parent) returns (class_: Class)
    ensures class_ == Classify(found, me)
  {
    if found.None? { return Absent; }
    var child := found.value;
    var owned := OwnedByThisDiscovery(child, me);
    if child.deleting && !owned { return BeingDeleted; }
    var i := 0;
    while i < |child.owners| && !child.owners[i].controller
      invariant i <= |child.owners|
      invariant Controller(child.owners) == Controller(child.owners[i..])
    {
      assert child.owners[i..][1..] == child.owners[i + 1..];
      i := i + 1;
    }
    if i == |child.owners| { return Explicit; }
    if child.owners[i].kind == me.kind && child.owners[i].uid == me.uid { return Ours(child); }
    return Conflict;
  }

  lemma {:induction false} ControllerIs(owners: seq<OwnerRef>)
    ensures Controller(owners).Some? ==> Controller(owners).value in owners && Controller(owners).value.controller
    ensures Controller(owners).None? ==> forall i :: 0 <= i < |owners| ==> !owners[i].controller
  {
    if owners != [] {
      ControllerIs(owners[1..]);
      if !owners[0].controller && Controller(owners).None? {
        forall i | 0 <= i < |owners| ensures !owners[i].controller {
          if i > 0 { assert owners[i] == owners[1..][i - 1]; }
        }
      }
    }
  }

  /** On an admissible object the two ways the code looks for the owner agree. */
  lemma OursExactlyOwned(child: Child, me: Parent)
    requires OneController(child.owners)
    ensures Classify(Some(child), me).Ours? <==> Owned(child.owners, me)
    ensures Classify(Some(child), me).BeingDeleted? <==> child.deleting && !Owned(child.owners, me)
    ensures Classify(Some(child), me).Explicit? <==>
              !child.deleting && forall i :: 0 <= i < |child.owners| ==> !child.owners[i].controller
  {
    ControllerIs(child.owners);
    if Owned(child.owners, me) {
      var i :| 0 <= i < |child.owners| && Matches(child.owners[i], me);
      var j :| 0 <= j < |child.owners| && child.owners[j] == Controller(child.owners).value;
      assert i == j;
    }
    if Classify(Some(child), me).Ours? {
      var j :| 0 <= j < |child.owners| && child.owners[j] == Controller(child.owners).value;
      assert Matches(child.owners[j], me);
    }
  }

  // ----- The cluster and the pass -----

  type Cluster = map<string, Child>

  /** Leave to apply: the name, and the object the ownership read returned, if any. */
  datatype Ticket = Ticket(name: string, read: Option<Child>)

  datatype Phase = Idle | Pass(list: seq<Child>, ticket: Option<Ticket>)

  datatype Event =
    | Applied(name: string, read: Option<Child>, over: Option<Child>)
    | Deleted(target: Child)

  datatype World = World(hist: seq<Cluster>, phase: Phase, log: seq<Event>)

  datatype Action =
    | Put(name: string, owners: seq<OwnerRef>, labelled: bool, deleting: bool)
    | Remove(name: string)
    | List(list: seq<Child>)
    | Read(name: string, at: nat)
    | Apply(effect: bool)
    | VanishDelete(i: nat, effect: bool, finalizers: bool)
    | EndPass

  function Now(w: World): Cluster
    requires w.hist != []
  {
    w.hist[|w.hist| - 1]
  }

  function Lookup(c: Cluster, name: string): Option<Child> {
    if name in c then Some(c[name]) else None
  }

  /** The state of a child at some moment of the past. */
  ghost predicate Past(w: World, c: Child) {
    exists n :: 0 <= n < |w.hist| && c.name in w.hist[n] && w.hist[n][c.name] == c
  }

  ghost predicate AdoptedIn(list: seq<Child>, name: string, me: Parent) {
    exists c :: c in list && c.name == name && !Owned(c.owners, me)
  }

  /** Server-side apply with forced ownership: the parent's reference is added, or replaces those with its uid. */
  function Claim(owners: seq<OwnerRef>, me: Parent): seq<OwnerRef> {
    if owners == [] then [OwnerRef(me.kind, me.uid, true)]
    else if owners[0].uid == me.uid then Claim(owners[1..], me)
    else [owners[0]] + Claim(owners[1..], me)
  }

  /** The resourceVersion precondition, absent when the ownership read found nothing. */
  ghost predicate ApplyLands(w: World, t: Ticket, me: Parent) {
    && w.hist != []
    && (t.read.Some? ==> t.name in Now(w) && Now(w)[t.name].version == t.read.value.version)
    && (t.name in Now(w) ==> OneController(Claim(Now(w)[t.name].owners, me)))
  }

  /** The uid and resourceVersion preconditions of the vanish-delete. */
  predicate DeleteLands(w: World, c: Child) {
    w.hist != [] && c.name in Now(w) && Now(w)[c.name].uid == c.uid && Now(w)[c.name].version == c.version
  }

  ghost predicate Enabled(w: World, a: Action, me: Parent) {
    && w.hist != []
    && match a
       case Put(_, owners, _, _) => OneController(owners)
       case Remove(name) => name in Now(w)
       case List(list) => w.phase.Idle? && forall c :: c in list ==> Past(w, c) && c.labelled
       case Read(name, at) =>
         w.phase.Pass? && w.phase.ticket.None? && at < |w.hist| && !AdoptedIn(w.phase.list, name, me)
       case Apply(effect) =>
         w.phase.Pass? && w.phase.ticket.Some? && (effect ==> ApplyLands(w, w.phase.ticket.value, me))
       case VanishDelete(i, effect, _) =>
         && w.phase.Pass? && w.phase.ticket.None? && i < |w.phase.list|
         && Owned(w.phase.list[i].owners, me) && (effect ==> DeleteLands(w, w.phase.list[i]))
       case EndPass => true
  }

  function Written(w: World, name: string, owners: seq<OwnerRef>, labelled: bool, deleting: bool): Child
    requires w.hist != []
  {
    Child(name, if name in Now(w) then Now(w)[name].uid else |w.hist|, |w.hist|, owners, labelled, deleting)
  }

  function AppliedChild(w: World, name: string, me: Parent): Child
    requires w.hist != []
  {
    var now := Lookup(Now(w), name);
    Written(w, name, Claim(if now.Some? then now.value.owners else [], me), true, now.Some? && now.value.deleting)
  }

  function TicketFor(name: string, class_: Class): Option<Ticket> {
    match class_
    case Absent => Some(Ticket(name, None))
    case Ours(child) => Some(Ticket(name, Some(child)))
    case _ => None
  }

  function Step(w: World, a: Action, me: Parent): World
    requires Enabled(w, a, me)
  {
    match a
    case Put(name, owners, labelled, deleting) =>
      World(w.hist + [Now(w)[name := Written(w, name, owners, labelled, deleting)]], w.phase, w.log)
    case Remove(name) =>
      World(w.hist + [Now(w) - {name}], w.phase, w.log)
    case List(list) =>
      World(w.hist, Pass(list, None), w.log)
    case Read(name, at) =>
      World(w.hist, Pass(w.phase.list, TicketFor(name, Classify(Lookup(w.hist[at], name), me))), w.log)
    case Apply(effect) =>
      var t := w.phase.ticket.value;
      if effect then
        World(w.hist + [Now(w)[t.name := AppliedChild(w, t.name, me)]], Pass(w.phase.list, None),
              w.log + [Applied(t.name, t.read, Lookup(Now(w), t.name))])
      else World(w.hist, Pass(w.phase.list, None), w.log)
    case VanishDelete(i, effect, finalizers) =>
      var name := w.phase.list[i].name;
      if effect then
        var now := Now(w)[name];
        World(w.hist + [if finalizers then Now(w)[name := Written(w, name, now.owners, now.labelled, true)] else Now(w) - {name}],
              w.phase, w.log + [Deleted(now)])
      else w
    case EndPass => World(w.hist, Idle, w.log)
  }

  ghost predicate Runs(w: World, acts: seq<Action>, me: Parent)
    decreases |acts|
  {
    acts == [] || (Enabled(w, acts[0], me) && Runs(Step(w, acts[0], me), acts[1..], me))
  }

  function Run(w: World, acts: seq<Action>, me: Parent): World
    requires Runs(w, acts, me)
    decreases |acts|
  {
    if acts == [] then w else Run(Step(w, acts[0], me), acts[1..], me)
  }

  ghost predicate Initial(w: World) {
    w.hist == [map[]] && w.phase == Idle && w.log == []
  }

  // ----- What every step keeps -----

  ghost predicate NamesOk(c: Cluster) {
    forall a :: a in c ==> c[a].name == a
  }

  /** A version names one state of one child. */
  ghost predicate VersionsOk(w: World) {
    && w.hist != []
    && (forall n :: 0 <= n < |w.hist| ==> NamesOk(w.hist[n]))
    && (forall c :: Past(w, c) ==> c.version < |w.hist| && OneController(c.owners))
    && (forall c, d :: Past(w, c) && Past(w, d) && c.version == d.version ==> c == d)
  }

  ghost predicate TicketOk(w: World, t: Ticket, me: Parent) {
    t.read.Some? ==> Past(w, t.read.value) && t.read.value.name == t.name && Owned(t.read.value.owners, me)
  }

  ghost predicate PhaseOk(w: World, me: Parent) {
    w.phase.Pass? ==>
      && (forall c :: c in w.phase.list ==> Past(w, c))
      && (w.phase.ticket.Some? ==>
            TicketOk(w, w.phase.ticket.value, me) && !AdoptedIn(w.phase.list, w.phase.ticket.value.name, me))
  }

  /** What the log may hold: see AdoptionSafety. */
  ghost predicate Safe(e: Event, me: Parent) {
    match e
    case Applied(name, read, over) => read.Some? ==> over == read && Owned(read.value.owners, me)
    case Deleted(target) => Owned(target.owners, me)
  }

  ghost predicate Inv(w: World, me: Parent) {
    VersionsOk(w) && PhaseOk(w, me) && forall i :: 0 <= i < |w.log| ==> Safe(w.log[i], me)
  }

  /** One more cluster state, differing from the last in at most one freshly written child. */
  ghost predicate Grows(w: World, v: World) {
    && w.hist != [] && |v.hist| == |w.hist| + 1 && (forall n :: 0 <= n < |w.hist| ==> v.hist[n] == w.hist[n])
    && forall a :: a in Now(v) ==>
         || (a in Now(w) && Now(v)[a] == Now(w)[a])
         || (Now(v)[a].name == a && Now(v)[a].version == |w.hist| && OneController(Now(v)[a].owners))
  }

  lemma GrownPast(w: World, v: World, c: Child)
    requires Grows(w, v) && Past(v, c)
    ensures Past(w, c) || (c.version == |w.hist| && OneController(c.owners) && c.name in Now(v) && Now(v)[c.name] == c)
  {
    var n :| 0 <= n < |v.hist| && c.name in v.hist[n] && v.hist[n][c.name] == c;
    if n < |w.hist| {
      assert w.hist[n] == v.hist[n];
    } else if c.name in Now(w) && Now(w)[c.name] == c {
      assert c.name in w.hist[|w.hist| - 1];
    }
  }

  lemma GrownVersions(w: World, v: World)
    requires VersionsOk(w) && Grows(w, v)
    requires forall a, b :: a in Now(v) && b in Now(v) && Now(v)[a].version == Now(v)[b].version == |w.hist| ==> a == b
    ensures VersionsOk(v)
  {
    assert NamesOk(Now(w)) && NamesOk(Now(v));
    forall c | Past(v, c) ensures c.version < |v.hist| && OneController(c.owners) { GrownPast(w, v, c); }
    forall c, d | Past(v, c) && Past(v, d) && c.version == d.version ensures c == d {
      GrownPast(w, v, c);
      GrownPast(w, v, d);
    }
  }

  lemma PastStays(w: World, v: World, c: Child)
    requires Past(w, c) && (v.hist == w.hist || Grows(w, v))
    ensures Past(v, c)
  {
    var n :| 0 <= n < |w.hist| && c.name in w.hist[n] && w.hist[n][c.name] == c;
    assert v.hist[n] == w.hist[n];
  }

  /** The version carried over identifies the object: it is still exactly the one that was read. */
  lemma SameVersionSameChild(w: World, c: Child)
    requires VersionsOk(w) && Past(w, c) && c.name in Now(w) && Now(w)[c.name].version == c.version
    ensures Now(w)[c.name] == c
  {
    NowIsPast(w, c.name);
  }

  lemma NowIsPast(w: World, name: string)
    requires VersionsOk(w) && name in Now(w)
    ensures Past(w, Now(w)[name])
  {
    assert NamesOk(Now(w));
    assert name in w.hist[|w.hist| - 1];
  }

  lemma PhaseStays(w: World, v: World, me: Parent)
    requires PhaseOk(w, me) && (v.hist == w.hist || Grows(w, v))
    requires v.phase == w.phase || (w.phase.Pass? && v.phase == Pass(w.phase.list, None)) || v.phase.Idle?
    ensures PhaseOk(v, me)
  {
    if v.phase.Pass? {
      forall c | c in v.phase.list ensures Past(v, c) { PastStays(w, v, c); }
      if v.phase.ticket.Some? && v.phase.ticket.value.read.Some? {
        PastStays(w, v, v.phase.ticket.value.read.value);
      }
    }
  }

  lemma OutsiderKeeps(w: World, a: Action, me: Parent)
    requires Inv(w, me) && Enabled(w, a, me) && (a.Put? || a.Remove?)
    ensures Inv(Step(w, a, me), me)
  {
    var v := Step(w, a, me);
    assert Grows(w, v);
    FreshOnce(w, v, a.name);
    GrownVersions(w, v);
    PhaseStays(w, v, me);
  }

  /** At most the written name carries the new version. */
  lemma FreshOnce(w: World, v: World, name: string)
    requires VersionsOk(w) && Grows(w, v) && forall a :: a in Now(v) && a != name ==> a in Now(w) && Now(v)[a] == Now(w)[a]
    ensures forall a, b :: a in Now(v) && b in Now(v) && Now(v)[a].version == Now(v)[b].version == |w.hist| ==> a == b
  {
    forall a | a in Now(v) && a != name ensures Now(v)[a].version < |w.hist| {
      NowIsPast(w, a);
    }
  }

  lemma ReadKeeps(w: World, name: string, at: nat, me: Parent)
    requires Inv(w, me) && Enabled(w, Read(name, at), me)
    ensures Inv(Step(w, Read(name, at), me), me)
  {
    var v, found := Step(w, Read(name, at), me), Lookup(w.hist[at], name);
    PhaseStays(w, World(w.hist, Pass(w.phase.list, None), w.log), me);
    if found.Some? {
      assert NamesOk(w.hist[at]);
      assert Past(v, found.value);
      OursExactlyOwned(found.value, me);
    }
    forall c | c in v.phase.list ensures Past(v, c) { PastStays(w, v, c); }
  }

  lemma ApplyKeeps(w: World, effect: bool, me: Parent)
    requires Inv(w, me) && Enabled(w, Apply(effect), me)
    ensures Inv(Step(w, Apply(effect), me), me)
  {
    var v, t := Step(w, Apply(effect), me), w.phase.ticket.value;
    if effect {
      ApplyGrows(w, me);
      FreshOnce(w, v, t.name);
      GrownVersions(w, v);
      if t.read.Some? { SameVersionSameChild(w, t.read.value); }
      assert Safe(v.log[|w.log|], me);
    }
    PhaseStays(w, v, me);
  }

  lemma ApplyGrows(w: World, me: Parent)
    requires Inv(w, me) && Enabled(w, Apply(true), me)
    ensures Grows(w, Step(w, Apply(true), me))
  {
  }

  lemma VanishKeeps(w: World, i: nat, effect: bool, finalizers: bool, me: Parent)
    requires Inv(w, me) && Enabled(w, VanishDelete(i, effect, finalizers), me)
    ensures Inv(Step(w, VanishDelete(i, effect, finalizers), me), me)
  {
    var v := Step(w, VanishDelete(i, effect, finalizers), me);
    if effect {
      var c := w.phase.list[i];
      SameVersionSameChild(w, c);
      VanishGrows(w, i, finalizers, me);
      FreshOnce(w, v, c.name);
      GrownVersions(w, v);
      assert Safe(v.log[|w.log|], me);
      PhaseStays(w, v, me);
    }
  }

  lemma VanishGrows(w: World, i: nat, finalizers: bool, me: Parent)
    requires Inv(w, me) && Enabled(w, VanishDelete(i, true, finalizers), me)
    ensures Grows(w, Step(w, VanishDelete(i, true, finalizers), me))
  {
    NowIsPast(w, w.phase.list[i].name);
  }

  lemma StepKeeps(w: World, a: Action, me: Parent)
    requires Inv(w, me) && Enabled(w, a, me)
    ensures Inv(Step(w, a, me), me)
  {
    match a
    case Put(_, _, _, _) => OutsiderKeeps(w, a, me);
    case Remove(_) => OutsiderKeeps(w, a, me);
    case Read(name, at) => ReadKeeps(w, name, at, me);
    case Apply(effect) => ApplyKeeps(w, effect, me);
    case VanishDelete(i, effect, finalizers) => VanishKeeps(w, i, effect, finalizers, me);
    case List(list) =>
      var v := Step(w, a, me);
      forall c | c in list ensures Past(v, c) { PastStays(w, v, c); }
    case EndPass => PhaseStays(w, Step(w, a, me), me);
  }

  lemma {:induction false} RunKeeps(w: World, acts: seq<Action>, me: Parent)
    requires Inv(w, me) && Runs(w, acts, me)
    ensures Inv(Run(w, acts, me), me)
    decreases |acts|
  {
    if acts != [] {
      StepKeeps(w, acts[0], me);
      RunKeeps(Step(w, acts[0], me), acts[1..], me);
    }
  }

  // ----- The theorems -----

  /**
   In every run, whatever others write and however stale the reads: an apply whose ownership read
   found an object lands on that very object, still owned by this Discovery, and a vanish-delete
   lands only on an object owned by this Discovery. An apply that lands on anything else had read
   "not found".
   */
  lemma AdoptionSafety(w: World, acts: seq<Action>, me: Parent, i: nat)
    requires Initial(w) && Runs(w, acts, me) && i < |Run(w, acts, me).log|
    ensures match Run(w, acts, me).log[i]
            case Applied(name, read, over) =>
              && (read.Some? ==> over == read)
              && (over.Some? && !Owned(over.value.owners, me) ==> read.None?)
            case Deleted(target) => Owned(target.owners, me)
  {
    assert Inv(w, me);
    RunKeeps(w, acts, me);
    assert Safe(Run(w, acts, me).log[i], me);
  }

  lemma {:induction false} ClaimOwns(owners: seq<OwnerRef>, me: Parent)
    ensures Owned(Claim(owners, me), me)
  {
    var claimed := Claim(owners, me);
    if owners == [] {
      assert Matches(claimed[0], me);
    } else {
      ClaimOwns(owners[1..], me);
      if owners[0].uid != me.uid {
        var i :| 0 <= i < |Claim(owners[1..], me)| && Matches(Claim(owners[1..], me)[i], me);
        assert claimed[i + 1] == Claim(owners[1..], me)[i];
      }
    }
  }

  lemma {:induction false} ClaimAdmissible(owners: seq<OwnerRef>, me: Parent)
    requires forall i :: 0 <= i < |owners| && owners[i].controller ==> owners[i].uid == me.uid
    ensures OneController(Claim(owners, me))
    ensures forall i :: 0 <= i < |Claim(owners, me)| && Claim(owners, me)[i].controller ==> i == |Claim(owners, me)| - 1
  {
    if owners != [] {
      assert forall i :: 0 <= i < |owners[1..]| ==> owners[1..][i] == owners[i + 1];
      ClaimAdmissible(owners[1..], me);
      if owners[0].uid != me.uid {
        var rest := Claim(owners[1..], me);
        assert forall i :: 0 < i < |Claim(owners, me)| ==> Claim(owners, me)[i] == rest[i - 1];
      }
    }
  }

  /**
   Safety is not bought by doing nothing: in any state of any run with a pass under way, a current read
   of a child this Discovery owns, and has not seen adopted, is followed by an apply that lands on it.
   */
  lemma OwnedChildIsApplied(start: World, acts: seq<Action>, me: Parent, name: string)
    requires Initial(start) && Runs(start, acts, me)
    requires var w := Run(start, acts, me);
             && w.phase.Pass? && w.phase.ticket.None? && !AdoptedIn(w.phase.list, name, me)
             && w.hist != [] && name in Now(w) && Owned(Now(w)[name].owners, me)
    ensures var w := Run(start, acts, me);
            var read := Read(name, |w.hist| - 1);
            && Enabled(w, read, me)
            && Enabled(Step(w, read, me), Apply(true), me)
            && Step(Step(w, read, me), Apply(true), me).log == w.log + [Applied(name, Some(Now(w)[name]), Some(Now(w)[name]))]
  {
    assert Inv(start, me);
    RunKeeps(start, acts, me);
    OwnedReadApplies(Run(start, acts, me), me, name);
  }

  lemma OwnedReadApplies(w: World, me: Parent, name: string)
    requires Inv(w, me) && w.phase.Pass? && w.phase.ticket.None? && !AdoptedIn(w.phase.list, name, me)
    requires name in Now(w) && Owned(Now(w)[name].owners, me)
    ensures var read := Read(name, |w.hist| - 1);
            && Enabled(w, read, me)
            && Enabled(Step(w, read, me), Apply(true), me)
            && Step(Step(w, read, me), Apply(true), me).log == w.log + [Applied(name, Some(Now(w)[name]), Some(Now(w)[name]))]
  {
    var child := Now(w)[name];
    NowIsPast(w, name);
    OursExactlyOwned(child, me);
    OwnerClaims(child.owners, me);
    assert Lookup(w.hist[|w.hist| - 1], name) == Some(child);
    var v := Step(w, Read(name, |w.hist| - 1), me);
    assert v.hist == w.hist && v.phase.ticket == Some(Ticket(name, Some(child)));
    assert ApplyLands(v, v.phase.ticket.value, me);
  }

  /** And a name nobody holds: a current read of it is followed by an apply that creates an owned, labelled child. */
  lemma AbsentChildIsCreated(w: World, me: Parent, name: string)
    requires Inv(w, me) && w.phase.Pass? && w.phase.ticket.None? && !AdoptedIn(w.phase.list, name, me)
    requires name !in Now(w)
    ensures var read := Read(name, |w.hist| - 1);
            && Enabled(w, read, me)
            && Enabled(Step(w, read, me), Apply(true), me)
            && var v := Step(Step(w, read, me), Apply(true), me);
               v.hist != [] && name in Now(v) && Owned(Now(v)[name].owners, me) && Now(v)[name].labelled && !Now(v)[name].deleting
  {
    var v := Step(w, Read(name, |w.hist| - 1), me);
    assert v.hist == w.hist && v.phase.ticket == Some(Ticket(name, None));
    ClaimOwns([], me);
  }

  lemma OwnerClaims(owners: seq<OwnerRef>, me: Parent)
    requires Owned(owners, me) && OneController(owners)
    ensures OneController(Claim(owners, me))
  {
    var i :| 0 <= i < |owners| && Matches(owners[i], me);
    assert forall j :: 0 <= j < |owners| && owners[j].controller ==> j == i;
    ClaimAdmissible(owners, me);
  }

  /** A name whose listed child is adopted is never applied in that pass, in any run. */
  lemma AdoptedIsNeverApplied(start: World, acts: seq<Action>, me: Parent, name: string)
    requires Initial(start) && Runs(start, acts, me)
    requires var w := Run(start, acts, me); w.phase.Pass? && AdoptedIn(w.phase.list, name, me)
    ensures var w := Run(start, acts, me);
            Enabled(w, Apply(true), me) ==> w.phase.ticket.value.name != name
  {
    assert Inv(start, me);
    RunKeeps(start, acts, me);
  }

  /** The gap is real: an object created after a "not found" read is taken over without a precondition. */
  lemma TakeoverAfterNotFound(me: Parent) returns (w: World, acts: seq<Action>)
    ensures Initial(w) && Runs(w, acts, me)
    ensures var v := Run(w, acts, me);
            && |v.log| == 1 && v.log[0].Applied? && v.log[0].over.Some?
            && !Owned(v.log[0].over.value.owners, me)
            && v.hist != [] && v.log[0].name in Now(v) && Owned(Now(v)[v.log[0].name].owners, me)
  {
    w := World([map[]], Idle, []);
    var put := Put("gpt", [], false, false);
    acts := [List([]), Read("gpt", 0), put, Apply(true)];
    var w1 := Step(w, List([]), me);
    var w2 := Step(w1, Read("gpt", 0), me);
    var w3 := Step(w2, put, me);
    ClaimOwns([], me);
    var w4 := Step(w3, Apply(true), me);
    assert acts[1..] == [Read("gpt", 0), put, Apply(true)];
    assert acts[1..][1..] == [put, Apply(true)];
    assert acts[1..][1..][1..] == [Apply(true)];
    assert acts[1..][1..][1..][1..] == [];
    assert Runs(w4, [], me) && Runs(w3, [Apply(true)], me) && Run(w3, [Apply(true)], me) == w4;
    assert Runs(w2, [put, Apply(true)], me) && Run(w2, [put, Apply(true)], me) == w4;
  }
}
