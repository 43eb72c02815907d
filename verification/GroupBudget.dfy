/**
 A model group's budget. LiteLLM's PUT merges per field and cannot clear one, so an unset field is
 cleared by DELETE before PUT; and of the CRs that name the same group only the oldest may touch it.
 */
module GroupBudget {
  import opened Wrappers
  import opened Text

  datatype Spec = Spec(limit: Option<real>, softLimit: Option<real>, period: string)

  datatype Budget = Budget(max: Option<real>, soft: Option<real>, duration: Option<string>)

  function Deref(s: Option<string>): string {
    if s.None? then "" else s.value
  }

  predicate BudgetMatches(s: Spec, got: Option<Budget>) {
    got.Some? && s.limit == got.value.max && s.softLimit == got.value.soft && s.period == Deref(got.value.duration)
  }

  predicate BudgetNeedsClear(s: Spec, got: Option<Budget>) {
    got.Some? && (|| (s.limit.None? && got.value.max.Some?)
                  || (s.softLimit.None? && got.value.soft.Some?)
                  || (s.period == "" && Deref(got.value.duration) != ""))
  }

  /** The PUT body: a field that is None is not sent. */
  function BudgetRequest(s: Spec): Budget {
    Budget(s.limit, s.softLimit, if s.period == "" then None else Some(s.period))
  }

  // ----- The remote -----

  function Merged<T>(stored: Option<T>, sent: Option<T>): Option<T> {
    if sent.Some? then sent else stored
  }

  function Upsert(b: Option<Budget>, req: Budget): Budget {
    if b.None? then req
    else Budget(Merged(b.value.max, req.max), Merged(b.value.soft, req.soft), Merged(b.value.duration, req.duration))
  }

  /** The fates of the calls of one pass; a tag no model carries makes every GET a 404. */
  datatype Fates = Fates(tagged: bool, get: Fate, delete: Fate, put: Fate)

  datatype Passed = Passed(remote: Option<Budget>, calls: nat, ok: bool)

  /** The remote after the owner's pass, the number of writes sent, and whether it reported Synced. */
  function Pass(s: Spec, remote: Option<Budget>, f: Fates): Passed {
    if !f.tagged || !f.get.Works? then Passed(remote, 0, false)
    else if BudgetMatches(s, remote) then Passed(remote, 0, true)
    else
      var clear := BudgetNeedsClear(s, remote);
      var cleared := if clear && f.delete.Lands() then None else remote;
      if clear && !f.delete.Works? then Passed(cleared, 1, false)
      else
        var put := if f.put.Lands() then Some(Upsert(cleared, BudgetRequest(s))) else cleared;
        Passed(put, if clear then 2 else 1, f.put.Works?)
  }

  datatype Policy = DeleteRemote | Orphan

  /** What the owner's DELETE on the deletion path came to; a failed one may have landed. */
  datatype Answer =
    | Unusable(absent: bool)
    | Acked
    | Unauthorized(landed: bool)
    | Rejected(landed: bool)
    | Transient(landed: bool)
  {
    predicate Clears() { Acked? || (!Unusable? && landed) }
  }

  /** The finalizer may go: acknowledged, or Orphan with a cause retrying cannot cure. */
  predicate MayGo(policy: Policy, answer: Answer) {
    answer.Acked? || (policy.Orphan? && (answer == Unusable(true) || answer.Rejected?))
  }

  datatype Drained = Drained(remote: Option<Budget>, finalizer: bool)

  /** The deletion path; `updated` is the fate of the update that takes the finalizer off. */
  function Finalized(remote: Option<Budget>, finalizer: bool, owner: bool, policy: Policy, answer: Answer, updated: bool): Drained {
    if !finalizer then Drained(remote, false)
    else
      Drained(if owner && answer.Clears() then None else remote,
              !(updated && (!owner || MayGo(policy, answer))))
  }

  class BudgetReconciler {
    var remote: Option<Budget>
    var finalizer: bool
    var calls: nat

    constructor (remote: Option<Budget>)
      ensures this.remote == remote && finalizer && calls == 0
    {
      this.remote := remote;
      finalizer := true;
      calls := 0;
    }

    method Delete(f: Fate) returns (ok: bool)
      modifies this`remote, this`calls
      ensures remote == (if f.Lands() then None else old(remote)) && calls == old(calls) + 1 && ok == f.Works?
    {
      if !f.FailsBefore? { remote := None; }
      calls := calls + 1;
      return f.Works?;
    }

    method Put(req: Budget, f: Fate) returns (ok: bool)
      modifies this`remote, this`calls
      ensures remote == (if f.Lands() then Some(Upsert(old(remote), req)) else old(remote))
      ensures calls == old(calls) + 1 && ok == f.Works?
    {
      if !f.FailsBefore? { remote := Some(Upsert(remote, req)); }
      calls := calls + 1;
      return f.Works?;
    }

    /** The pass of a CR that is not being deleted and carries its finalizer. */
    method Reconcile(s: Spec, owner: bool, usable: bool, f: Fates) returns (synced: bool)
      modifies this`remote, this`calls
      ensures !owner || !usable ==> remote == old(remote) && calls == old(calls) && !synced
      ensures owner && usable ==>
                var p := Pass(s, old(remote), f); remote == p.remote && calls == old(calls) + p.calls && synced == p.ok
    {
      if !owner || !usable { return false; }
      var ok := f.tagged && f.get.Works?;
      var got := remote;
      if ok && !BudgetMatches(s, got) {
        if BudgetNeedsClear(s, got) {
          ok := Delete(f.delete);
        }
        if ok {
          ok := Put(BudgetRequest(s), f.put);
        }
      }
      return ok;
    }

    /** A duplicate drains without a call; the owner needs an acknowledgement or a permanent Orphan cause. */
    method Finalize(owner: bool, policy: Policy, answer: Answer, updated: bool)
      modifies this
      ensures Drained(remote, finalizer) == Finalized(old(remote), old(finalizer), owner, policy, answer, updated)
      ensures calls == old(calls) + if old(finalizer) && owner && !answer.Unusable? then 1 else 0
    {
      if !finalizer { return; }
      if owner {
        if answer.Unusable? {
          if policy.DeleteRemote? || !answer.absent { return; }
        } else {
          var _ := Delete(if answer.Acked? then Works else if answer.landed then FailsAfter else FailsBefore);
          if answer.Unauthorized? || answer.Transient? { return; }
          if answer.Rejected? && policy.DeleteRemote? { return; }
        }
      }
      if updated { finalizer := false; }
    }
  }

  // ----- Convergence -----

  /** The stored budget is the one the spec asks for, field by field. */
  ghost predicate Holds(s: Spec, remote: Option<Budget>) {
    exists b :: remote == Some(b) && b.max == s.limit && b.soft == s.softLimit && Deref(b.duration) == s.period
  }

  /** A PUT alone brings a stored budget to the spec exactly when every field that is set is one the spec sets. */
  lemma PutSufficesIff(s: Spec, b: Budget)
    ensures var after := Upsert(Some(b), BudgetRequest(s));
            (after.max == s.limit && after.soft == s.softLimit && Deref(after.duration) == s.period) <==>
              && (b.max.Some? ==> s.limit.Some?)
              && (b.soft.Some? ==> s.softLimit.Some?)
              && (Deref(b.duration) != "" ==> s.period != "")
  {
  }

  /** A pass that reports success ends with the fields of the spec, from any remote state. */
  lemma CleanPassStores(s: Spec, remote: Option<Budget>, f: Fates)
    requires Pass(s, remote, f).ok
    ensures var r := Pass(s, remote, f).remote;
            && r.Some? && r.value.max == s.limit && r.value.soft == s.softLimit && Deref(r.value.duration) == s.period
  {
    if remote.Some? { PutSufficesIff(s, remote.value); }
  }

  /** A pass that can read the budget sends nothing exactly when the fields are those of the spec already. */
  lemma NoCallExactlyWhen(s: Spec, remote: Option<Budget>, f: Fates)
    requires f.tagged && f.get.Works?
    ensures Pass(s, remote, f).calls == 0 <==>
            && remote.Some? && remote.value.max == s.limit && remote.value.soft == s.softLimit
            && Deref(remote.value.duration) == s.period
    ensures f.delete.Works? && f.put.Works? ==> Pass(s, remote, f).ok
  {
  }

  /** A DELETE that is not acknowledged is not followed by a PUT: the budget is as it was, or gone. */
  lemma FailedDeleteStops(s: Spec, remote: Option<Budget>, f: Fates)
    requires !f.delete.Works? && remote.Some?
    requires (remote.value.max.Some? && s.limit.None?) || (remote.value.soft.Some? && s.softLimit.None?)
    ensures var p := Pass(s, remote, f); !p.ok && p.calls <= 1 && p.remote in {remote, None}
  {
  }

  function Passes(s: Spec, remote: Option<Budget>, fs: seq<Fates>): Option<Budget>
    decreases |fs|
  {
    if fs == [] then remote else Passes(s, Pass(s, remote, fs[0]).remote, fs[1..])
  }

  /** Once the fields are those of the spec, no later pass sends a write or changes the budget, whatever fails. */
  lemma {:induction false} HeldIsStable(s: Spec, remote: Option<Budget>, fs: seq<Fates>)
    requires Holds(s, remote)
    ensures Passes(s, remote, fs) == remote
    ensures forall f :: Pass(s, remote, f).calls == 0 && Pass(s, remote, f).remote == remote
    decreases |fs|
  {
    if fs != [] { HeldIsStable(s, Pass(s, remote, fs[0]).remote, fs[1..]); }
  }

  /** Any history of failed or half-effective passes, a DELETE without its PUT included, is healed by one clean pass. */
  lemma ConvergesAfterFailures(s: Spec, remote: Option<Budget>, fs: seq<Fates>, f: Fates, later: seq<Fates>)
    requires f.tagged && f.get.Works? && f.delete.Works? && f.put.Works?
    ensures var r := Passes(s, remote, fs + [f]);
            && r.Some? && r.value.max == s.limit && r.value.soft == s.softLimit && Deref(r.value.duration) == s.period
            && Passes(s, remote, fs + [f] + later) == r
  {
    PassesAppend(s, remote, fs, [f]);
    var before := Passes(s, remote, fs);
    assert [f][1..] == [];
    assert Passes(s, before, [f]) == Passes(s, Pass(s, before, f).remote, []);
    NoCallExactlyWhen(s, before, f);
    CleanPassStores(s, before, f);
    PassesAppend(s, remote, fs + [f], later);
    var r := Passes(s, remote, fs + [f]);
    assert Holds(s, r) by { assert r == Some(r.value); }
    HeldIsStable(s, r, later);
  }

  lemma {:induction false} PassesAppend(s: Spec, remote: Option<Budget>, a: seq<Fates>, b: seq<Fates>)
    ensures Passes(s, remote, a + b) == Passes(s, Passes(s, remote, a), b)
    decreases |a|
  {
    if a == [] {
      assert a + b == b;
    } else {
      assert (a + b)[0] == a[0] && (a + b)[1..] == a[1..] + b;
      PassesAppend(s, Pass(s, remote, a[0]).remote, a[1..], b);
    }
  }

  // ----- The single owner -----

  datatype Cr = Cr(spec: Spec, policy: Policy, deleting: bool, finalizer: bool)

  /** A CR naming the group: creation time in whole seconds. Deleting ones count too. */
  datatype Peer = Peer(name: string, created: int, cr: Cr)

  predicate Same(p: Peer, q: Peer) {
    p.name == q.name && p.created == q.created
  }

  predicate Older(p: Peer, q: Peer) {
    p.created < q.created || (p.created == q.created && Less(p.name, q.name))
  }

  predicate Owns(peers: seq<Peer>, b: Peer) {
    forall i :: 0 <= i < |peers| ==> !Older(peers[i], b)
  }

  method IsOwner(peers: seq<Peer>, b: Peer) returns (owner: bool)
    ensures owner == Owns(peers, b)
  {
    for i := 0 to |peers|
      invariant forall j :: 0 <= j < i ==> !Older(peers[j], b)
    {
      if Older(peers[i], b) { return false; }
    }
    return true;
  }

  ghost predicate DistinctPeers(peers: seq<Peer>) {
    forall i, j :: 0 <= i < j < |peers| ==> peers[i].name != peers[j].name
  }

  lemma OlderTransitive(p: Peer, q: Peer, r: Peer)
    requires Older(p, q) && Older(q, r)
    ensures Older(p, r)
  {
    if p.created == q.created == r.created { LessTransitive(p.name, q.name, r.name); }
  }

  lemma OlderTotal(p: Peer, q: Peer)
    ensures Older(p, q) || Same(p, q) || Older(q, p)
    ensures !(Older(p, q) && Older(q, p))
  {
    LessTotal(p.name, q.name);
    LessIrreflexive(p.name);
    if Less(p.name, q.name) { LessAsymmetric(p.name, q.name); }
  }

  /** Every non-empty set of CRs for one group has exactly one owner. */
  lemma {:induction false} ExactlyOneOwner(peers: seq<Peer>) returns (k: nat)
    requires peers != [] && DistinctPeers(peers)
    ensures k < |peers| && Owns(peers, peers[k])
    ensures forall j :: 0 <= j < |peers| && Owns(peers, peers[j]) ==> j == k
  {
    k := SomeOwner(peers);
    forall j | 0 <= j < |peers| && Owns(peers, peers[j]) ensures j == k {
      OlderTotal(peers[j], peers[k]);
    }
  }

  lemma {:induction false} SomeOwner(peers: seq<Peer>) returns (k: nat)
    requires peers != []
    ensures k < |peers| && Owns(peers, peers[k])
  {
    var last := |peers| - 1;
    if last == 0 {
      k := 0;
      LessIrreflexive(peers[0].name);
    } else {
      k := SomeOwner(peers[..last]);
      OlderTotal(peers[last], peers[k]);
      if Older(peers[last], peers[k]) {
        forall i | 0 <= i < |peers| ensures !Older(peers[i], peers[last]) {
          OlderTotal(peers[i], peers[last]);
          if i < last { assert !Older(peers[..last][i], peers[k]); }
          if Older(peers[i], peers[last]) { OlderTransitive(peers[i], peers[last], peers[k]); }
        }
        k := last;
      } else {
        forall i | 0 <= i < |peers| ensures !Older(peers[i], peers[k]) {
          if i < last { assert peers[..last][i] == peers[i]; }
        }
      }
    }
  }

  // ----- Over runs -----

  /** A reconcile under way: the CR as it was read, and the peers its ownership check saw. */
  datatype Turn = Resting | Checked(who: Peer, peers: seq<Peer>)

  datatype World = World(peers: seq<Peer>, clock: int, turn: Turn, remote: Option<Budget>)

  datatype Action =
    | Create(name: string, cr: Cr)
    | Change(i: nat, cr: Cr)
    | Gone(i: nat)
    | Tick
    | Check(i: nat)
    | Act(usable: bool, fates: Fates, answer: Answer, updated: bool)

  predicate Enabled(w: World, a: Action) {
    match a
    case Create(name, _) => forall i :: 0 <= i < |w.peers| ==> w.peers[i].name != name
    case Change(i, _) => i < |w.peers|
    case Gone(i) => i < |w.peers|
    case Tick => true
    case Check(i) => w.turn.Resting? && i < |w.peers|
    case Act(_, _, _, _) => w.turn.Checked?
  }

  /** What the rest of the reconcile does, for any CR: remote budget and the CR's finalizer. */
  function Acted(who: Peer, owner: bool, remote: Option<Budget>, a: Action): Drained
    requires a.Act?
  {
    if who.cr.deleting then Finalized(remote, who.cr.finalizer, owner, who.cr.policy, a.answer, a.updated)
    else if !who.cr.finalizer then Drained(remote, a.updated)
    else Drained(if owner && a.usable then Pass(who.cr.spec, remote, a.fates).remote else remote, true)
  }

  function WithFinalizer(peers: seq<Peer>, who: Peer, finalizer: bool): seq<Peer> {
    seq(|peers|, i requires 0 <= i < |peers| =>
      if Same(peers[i], who) then Peer(who.name, who.created, peers[i].cr.(finalizer := finalizer)) else peers[i])
  }

  function Step(w: World, a: Action): World
    requires Enabled(w, a)
  {
    match a
    case Create(name, cr) => World(w.peers + [Peer(name, w.clock, cr)], w.clock, w.turn, w.remote)
    case Change(i, cr) => World(w.peers[i := Peer(w.peers[i].name, w.peers[i].created, cr)], w.clock, w.turn, w.remote)
    case Gone(i) => World(w.peers[..i] + w.peers[i + 1..], w.clock, w.turn, w.remote)
    case Tick => World(w.peers, w.clock + 1, w.turn, w.remote)
    case Check(i) => World(w.peers, w.clock, Checked(w.peers[i], w.peers), w.remote)
    case Act(_, _, _, _) =>
      var d := Acted(w.turn.who, Owns(w.turn.peers, w.turn.who), w.remote, a);
      World(WithFinalizer(w.peers, w.turn.who, d.finalizer), w.clock, Resting, d.remote)
  }

  /** The world after some steps; None when one of them is not enabled. */
  function Reach(w: World, acts: seq<Action>): Option<World>
    decreases |acts|
  {
    if acts == [] then Some(w)
    else
      var v := Reach(w, acts[..|acts| - 1]);
      if v.Some? && Enabled(v.value, acts[|acts| - 1]) then Some(Step(v.value, acts[|acts| - 1])) else None
  }

  ghost predicate Known(peers: seq<Peer>, p: Peer) {
    exists q :: q in peers && Same(p, q)
  }

  /** Who was not seen by the check was created no earlier than the CR it was for. */
  ghost predicate OnlyNewcomers(who: Peer, checked: seq<Peer>, peers: seq<Peer>) {
    forall p :: p in peers ==> Known(checked, p) || who.created <= p.created
  }

  ghost predicate Inv(w: World) {
    && (forall p :: p in w.peers ==> p.created <= w.clock)
    && (w.turn.Checked? ==> w.turn.who.created <= w.clock && OnlyNewcomers(w.turn.who, w.turn.peers, w.peers))
  }

  lemma PeersAfter(w: World, a: Action, p: Peer)
    requires Enabled(w, a) && p in Step(w, a).peers
    ensures Known(w.peers, p) || p.created == w.clock
  {
    match a
    case Create(_, _) => if p in w.peers { assert Same(p, p); }
    case Change(i, cr) =>
      var k :| 0 <= k < |w.peers| && Step(w, a).peers[k] == p;
      assert Same(p, w.peers[k]);
    case Act(_, _, _, _) =>
      var k :| 0 <= k < |w.peers| && Step(w, a).peers[k] == p;
      assert Same(p, w.peers[k]);
    case _ => assert p in w.peers && Same(p, p);
  }

  lemma StepKeeps(w: World, a: Action)
    requires Inv(w) && Enabled(w, a)
    ensures Inv(Step(w, a))
  {
    var v := Step(w, a);
    forall p | p in v.peers
      ensures p.created <= v.clock
      ensures v.turn.Checked? ==> Known(v.turn.peers, p) || v.turn.who.created <= p.created
    {
      PeersAfter(w, a, p);
      if Known(w.peers, p) {
        var q :| q in w.peers && Same(p, q);
        if v.turn.Checked? && a.Check? {
          assert q in v.turn.peers;
        } else if v.turn.Checked? && Known(w.turn.peers, q) {
          var r :| r in w.turn.peers && Same(q, r);
          assert Same(p, r);
        }
      }
    }
  }

  lemma {:induction false} ReachKeeps(w: World, acts: seq<Action>)
    requires Inv(w)
    ensures Reach(w, acts).Some? ==> Inv(Reach(w, acts).value)
    decreases |acts|
  {
    if acts != [] && Reach(w, acts).Some? {
      ReachKeeps(w, acts[..|acts| - 1]);
      StepKeeps(Reach(w, acts[..|acts| - 1]).value, acts[|acts| - 1]);
    }
  }

  /** A peer outranks the writer only if it appeared since the check, in the writer's creation second. */
  ghost predicate Newcomer(w: World, p: Peer)
    requires w.turn.Checked?
  {
    p in w.peers && !Known(w.turn.peers, p) && p.created == w.turn.who.created && Less(p.name, w.turn.who.name)
  }

  /**
   In every run, whatever CRs are reconciled or deleted: a step that changes the remote budget is the
   reconcile of a CR that owned the group at its check, and that still owns it unless a CR sorting
   before it was created since, in the second it was itself created in.
   */
  lemma OnlyOwnerWrites(start: World, acts: seq<Action>, a: Action)
    requires start.turn.Resting? && forall p :: p in start.peers ==> p.created <= start.clock
    requires Reach(start, acts).Some? && Enabled(Reach(start, acts).value, a)
    requires Step(Reach(start, acts).value, a).remote != Reach(start, acts).value.remote
    ensures var w := Reach(start, acts).value;
            && a.Act? && w.turn.Checked? && Owns(w.turn.peers, w.turn.who)
            && (Owns(w.peers, w.turn.who) || exists p :: Newcomer(w, p))
  {
    ReachKeeps(start, acts);
    var w := Reach(start, acts).value;
    if !Owns(w.peers, w.turn.who) {
      var k :| 0 <= k < |w.peers| && Older(w.peers[k], w.turn.who);
      var p := w.peers[k];
      if Known(w.turn.peers, p) {
        NoOlderKnown(w.turn.peers, w.turn.who, p);
      }
      assert Newcomer(w, p);
    }
  }

  lemma NoOlderKnown(peers: seq<Peer>, who: Peer, p: Peer)
    requires Owns(peers, who) && Known(peers, p)
    ensures !Older(p, who)
  {
    var q :| q in peers && Same(p, q);
    var i :| 0 <= i < |peers| && peers[i] == q;
    assert !Older(peers[i], who);
  }

  /**
   The finalizer of a CR being deleted goes, in whatever state a run has reached, exactly when the
   update that takes it off succeeds and the CR is not the owner, or its DELETE was acknowledged, or
   the policy is Orphan and the connection is being deleted or the DELETE was rejected.
   */
  lemma FinalizerGoesExactlyWhen(w: World, a: Action, p: Peer)
    requires Enabled(w, a) && a.Act? && w.turn.who.cr.deleting && w.turn.who.cr.finalizer
    requires p in Step(w, a).peers && Same(p, w.turn.who)
    ensures !p.cr.finalizer <==>
            a.updated && (|| (exists q :: q in w.turn.peers && Older(q, w.turn.who))
                          || a.answer == Acked
                          || (w.turn.who.cr.policy == Orphan && (a.answer == Unusable(true) || a.answer.Rejected?)))
    ensures a.answer == Acked && Owns(w.turn.peers, w.turn.who) ==> Step(w, a).remote == None
  {
    var who := w.turn.who;
    var k :| 0 <= k < |w.peers| && Step(w, a).peers[k] == p;
    if !Owns(w.turn.peers, who) {
      var i :| 0 <= i < |w.turn.peers| && Older(w.turn.peers[i], who);
      assert w.turn.peers[i] in w.turn.peers;
    } else {
      forall q | q in w.turn.peers ensures !Older(q, who) {
        var i :| 0 <= i < |w.turn.peers| && w.turn.peers[i] == q;
      }
    }
  }

  /** A living CR without the finalizer only gets it, if its update succeeds; the budget waits for the next pass. */
  lemma FirstActOnlyMarks(w: World, a: Action, p: Peer)
    requires Enabled(w, a) && a.Act? && !w.turn.who.cr.deleting && !w.turn.who.cr.finalizer
    requires p in Step(w, a).peers && Same(p, w.turn.who)
    ensures p.cr.finalizer == a.updated && Step(w, a).remote == w.remote
  {
    var k :| 0 <= k < |w.peers| && Step(w, a).peers[k] == p;
  }

  /** The exception happens: "b" checks, "a" appears in the same second, and "b" writes. */
  lemma OutrankedWriter() returns (start: World, acts: seq<Action>, a: Action)
    ensures start.turn.Resting? && forall p :: p in start.peers ==> p.created <= start.clock
    ensures Reach(start, acts).Some? && Enabled(Reach(start, acts).value, a)
    ensures var w := Reach(start, acts).value;
            Step(w, a).remote != w.remote && w.turn.Checked? && !Owns(w.peers, w.turn.who)
  {
    var cr := Cr(Spec(Some(1.0), None, ""), DeleteRemote, false, true);
    start := World([Peer("b", 0, cr)], 0, Resting, None);
    acts := [Check(0), Create("a", cr)];
    a := Act(true, Fates(true, Works, Works, Works), Acked, true);
    var w1 := Step(start, Check(0));
    var w2 := Step(w1, Create("a", cr));
    assert acts[..0] == [] && acts[..1] == [Check(0)] && acts[..1][..0] == [];
    assert Reach(start, acts[..1]) == Some(w1);
    assert Reach(start, acts) == Some(w2);
    LessIrreflexive("b");
    assert Owns(w2.turn.peers, w2.turn.who);
    assert w2.peers[1].name == "a" && Less("a", "b") && Older(w2.peers[1], w2.turn.who);
  }
}
