/**
 The connection cache with Rebuild and InvalidateOn401 as atomic operations: the snapshot, the
 last-ready flag and the per-subscriber capacity-one channels. `Apply` is one operation on the
 state value `Hub`, the class updates the fields in place, and the theorems speak about every
 sequence of operations.
 */
module ConnectionFanout {
  import opened Wrappers

  /** A probe result. `client` names the HTTP client it carries. */
  datatype Snapshot = Snapshot(ready: bool, reason: string, client: Option<nat>)

  /** `probe` and each element of `subs` say whether an event sits in that channel; `ended`, that the channels are closed. */
  datatype Hub = Hub(
    snapshot: Option<Snapshot>,
    gate: bool,
    closed: bool,
    ended: bool,
    probe: bool,
    lastReady: bool,
    subs: seq<bool>)

  datatype Op =
    | Rebuild(snap: Snapshot)
    | InvalidateOn401
    | Subscribe
    | ConsumeRebuilt(sub: nat)
    | ConsumeProbe
    | Shutdown

  const ZERO_SNAPSHOT := Snapshot(false, "", None)

  function Current(snapshot: Option<Snapshot>): Snapshot {
    if snapshot.Some? then snapshot.value else ZERO_SNAPSHOT
  }

  /** The snapshot a 401 leaves behind: not ready, with the client it found. */
  function Rejected(client: Option<nat>): Snapshot {
    Snapshot(false, "BadMasterKey", client)
  }

  function Placeholder(snapshot: Option<Snapshot>): Snapshot {
    Rejected(Current(snapshot).client)
  }

  function AllPending(n: nat): seq<bool> {
    seq(n, _ => true)
  }

  const INITIAL := Hub(None, false, false, false, false, false, [])

  function Apply(h: Hub, op: Op): Hub {
    match op
    case Rebuild(snap) =>
      var stored := h.(snapshot := Some(snap), gate := false, lastReady := snap.ready);
      if snap.ready && !h.lastReady && !h.closed then stored.(subs := AllPending(|h.subs|)) else stored
    case InvalidateOn401 =>
      if h.closed || h.gate then h
      else h.(gate := true, snapshot := Some(Placeholder(h.snapshot)), lastReady := false, probe := true)
    case Subscribe => h.(subs := h.subs + [false])
    case ConsumeRebuilt(i) => if i < |h.subs| then h.(subs := h.subs[i := false]) else h
    case ConsumeProbe => h.(probe := false)
    case Shutdown => h.(closed := true, ended := true, subs := [])
  }

  /** The cache's fields, updated in place. */
  class Cache {
    var snapshot: Option<Snapshot>
    var gate: bool
    var closed: bool
    var ended: bool
    var probe: bool
    var lastReady: bool
    var subs: seq<bool>

    ghost function View(): Hub
      reads this
    {
      Hub(snapshot, gate, closed, ended, probe, lastReady, subs)
    }

    constructor ()
      ensures View() == INITIAL
    {
      snapshot, gate, closed, ended, probe, lastReady, subs := None, false, false, false, false, false, [];
    }

    method Read() returns (s: Snapshot)
      ensures s == Current(snapshot)
    {
      if snapshot.Some? { s := snapshot.value; } else { s := ZERO_SNAPSHOT; }
    }

    method Rebuild(snap: Snapshot)
      modifies this
      ensures View() == Apply(old(View()), Op.Rebuild(snap))
    {
      snapshot := Some(snap);
      gate := false;
      if snap.ready {
        var was := lastReady;
        lastReady := true;
        if !was { EmitRebuilt(); }
      } else {
        lastReady := false;
      }
    }

    /** A non-blocking send to every subscriber: a full channel keeps its pending event. */
    method EmitRebuilt()
      modifies this`subs
      ensures subs == if closed then old(subs) else AllPending(|old(subs)|)
    {
      if closed { return; }
      var i := 0;
      while i < |subs|
        invariant 0 <= i <= |subs| == |old(subs)|
        invariant forall k :: 0 <= k < i ==> subs[k]
      {
        if !subs[i] { subs := subs[i := true]; }
        i := i + 1;
      }
      assert subs == AllPending(|subs|);
    }

    method InvalidateOn401()
      modifies this
      ensures View() == Apply(old(View()), Op.InvalidateOn401)
    {
      if closed { return; }
      if !gate {
        gate := true;
        var client := None;
        if snapshot.Some? { client := snapshot.value.client; }
        lastReady := false;
        snapshot := Some(Rejected(client));
        if !probe { probe := true; }
      }
    }

    method Subscribe() returns (sub: nat)
      modifies this
      ensures View() == Apply(old(View()), Op.Subscribe) && sub == |old(subs)|
    {
      sub := |subs|;
      subs := subs + [false];
    }

    method Start()
      modifies this
      ensures View() == Apply(old(View()), Shutdown)
    {
      closed := true;
      ended := true;
      subs := [];
    }
  }

  // ----- Every sequence of operations -----

  function After(ops: seq<Op>): Hub {
    if ops == [] then INITIAL else Apply(After(ops[..|ops| - 1]), ops[|ops| - 1])
  }

  predicate Ready(h: Hub) {
    Current(h.snapshot).ready
  }

  /** The operation takes the snapshot from not ready to ready. */
  predicate RisingEdge(h: Hub, op: Op) {
    !Ready(h) && Ready(Apply(h, op))
  }

  /** The flag the edge detector compares with always agrees with the snapshot readers see. */
  lemma {:induction false} LastReadyAgrees(ops: seq<Op>)
    ensures After(ops).lastReady == Ready(After(ops))
  {
    if ops != [] { LastReadyAgrees(ops[..|ops| - 1]); }
  }

  /** A subscriber's channel gains an event exactly on a rising edge of an open cache. */
  lemma EmitsExactlyOnEdges(ops: seq<Op>, op: Op, sub: nat)
    requires sub < |After(ops).subs| && sub < |After(ops + [op]).subs|
    ensures var h, h' := After(ops), After(ops + [op]);
            && (h'.subs[sub] <==> (RisingEdge(h, op) && !h.closed) || (h.subs[sub] && op != ConsumeRebuilt(sub)))
            && (RisingEdge(h, op) ==> op.Rebuild?)
  {
    LastReadyAgrees(ops);
    assert (ops + [op])[..|ops|] == ops;
  }

  lemma PendingUntilConsumed(h: Hub, op: Op, sub: nat)
    requires sub < |h.subs| && h.subs[sub] && op != ConsumeRebuilt(sub) && op != Shutdown
    ensures sub < |Apply(h, op).subs| && Apply(h, op).subs[sub]
  {
  }

  lemma EdgeReaches(h: Hub, op: Op, sub: nat)
    requires h.lastReady == Ready(h) && RisingEdge(h, op) && !h.closed && sub < |h.subs|
    ensures sub < |Apply(h, op).subs| && Apply(h, op).subs[sub]
  {
  }

  lemma SubscribersStay(h: Hub, op: Op)
    ensures !Apply(h, op).closed ==> !h.closed && |h.subs| <= |Apply(h, op).subs|
    ensures op == Shutdown ==> Apply(h, op).closed
  {
  }

  /** No transition is lost: it is pending for the subscriber, or the subscriber consumed after it. */
  lemma {:induction false} NoTransitionLost(ops: seq<Op>, i: nat, n: nat, sub: nat)
    requires i < n <= |ops|
    requires RisingEdge(After(ops[..i]), ops[i])
    requires sub < |After(ops[..i]).subs|
    requires !After(ops[..n]).closed
    ensures sub < |After(ops[..n]).subs|
    ensures After(ops[..n]).subs[sub] || exists j :: i < j < n && ops[j] == ConsumeRebuilt(sub)
    decreases n
  {
    var h, op := After(ops[..n - 1]), ops[n - 1];
    assert ops[..n][..n - 1] == ops[..n - 1] && After(ops[..n]) == Apply(h, op);
    SubscribersStay(h, op);
    if n == i + 1 {
      LastReadyAgrees(ops[..i]);
      EdgeReaches(h, op, sub);
    } else {
      NoTransitionLost(ops, i, n - 1, sub);
      if op == ConsumeRebuilt(sub) {
        assert ops[n - 1] == ConsumeRebuilt(sub);
      } else if h.subs[sub] {
        PendingUntilConsumed(h, op, sub);
      } else {
        var j :| i < j < n - 1 && ops[j] == ConsumeRebuilt(sub);
      }
    }
  }

  /** A transition at i reached the subscriber, which has not consumed since. */
  ghost predicate Awaits(ops: seq<Op>, i: nat, sub: nat) {
    && i < |ops| && RisingEdge(After(ops[..i]), ops[i]) && sub < |After(ops[..i]).subs|
    && forall j :: i < j < |ops| ==> ops[j] != ConsumeRebuilt(sub)
  }

  lemma AwaitsAfter(ops: seq<Op>, op: Op, i: nat, sub: nat)
    ensures i < |ops| ==> (Awaits(ops + [op], i, sub) <==> Awaits(ops, i, sub) && op != ConsumeRebuilt(sub))
    ensures Awaits(ops + [op], |ops|, sub) <==> RisingEdge(After(ops), op) && sub < |After(ops).subs|
  {
    var more := ops + [op];
    assert more[|ops|] == op && more[..|ops|] == ops;
    if i < |ops| {
      assert more[..i] == ops[..i];
      assert forall j :: 0 <= j < |ops| ==> more[j] == ops[j];
    }
  }

  /** On an open cache a channel holds an event exactly when the subscriber awaits a transition: a new one holds none. */
  lemma {:induction false} PendingExactlyAwaited(ops: seq<Op>, sub: nat)
    requires !After(ops).closed && sub < |After(ops).subs|
    ensures After(ops).subs[sub] <==> exists i: nat :: Awaits(ops, i, sub)
  {
    if ops != [] {
      var front, op := ops[..|ops| - 1], ops[|ops| - 1];
      assert ops == front + [op];
      SubscribersStay(After(front), op);
      LastReadyAgrees(front);
      AwaitsAfter(front, op, 0, sub);
      forall i: nat | i < |front| ensures Awaits(ops, i, sub) <==> Awaits(front, i, sub) && op != ConsumeRebuilt(sub) {
        AwaitsAfter(front, op, i, sub);
      }
      if sub < |After(front).subs| {
        PendingExactlyAwaited(front, sub);
        PendingStep(After(front), op, sub);
      } else {
        forall i: nat | i < |front| ensures !Awaits(front, i, sub) {
          if Awaits(front, i, sub) { SubscribersSince(front, i); }
        }
      }
    }
  }

  lemma PendingStep(h: Hub, op: Op, sub: nat)
    requires h.lastReady == Ready(h) && sub < |h.subs| && !Apply(h, op).closed
    ensures sub < |Apply(h, op).subs|
    ensures Apply(h, op).subs[sub] <==> RisingEdge(h, op) || (h.subs[sub] && op != ConsumeRebuilt(sub))
  {
  }

  lemma {:induction false} SubscribersSince(ops: seq<Op>, i: nat)
    requires !After(ops).closed && i <= |ops|
    ensures |After(ops[..i]).subs| <= |After(ops).subs|
    decreases |ops|
  {
    if i < |ops| {
      var front := ops[..|ops| - 1];
      SubscribersStay(After(front), ops[|ops| - 1]);
      assert front[..i] == ops[..i];
      SubscribersSince(front, i);
    } else {
      assert ops[..i] == ops;
    }
  }

  /** After shutdown no subscriber is ever sent anything. */
  lemma {:induction false} ClosedIsSilent(ops: seq<Op>)
    ensures After(ops).closed ==> forall sub :: 0 <= sub < |After(ops).subs| ==> !After(ops).subs[sub]
  {
    if ops != [] { ClosedIsSilent(ops[..|ops| - 1]); }
  }

  // ----- The 401 path -----

  /** No 401 since the last Rebuild, or none at all. */
  ghost predicate Armed(ops: seq<Op>) {
    forall i :: 0 <= i < |ops| && ops[i].InvalidateOn401? ==> exists j :: i < j < |ops| && ops[j].Rebuild?
  }

  lemma ArmedAfter(ops: seq<Op>, op: Op)
    ensures Armed(ops + [op]) <==> op.Rebuild? || (Armed(ops) && !op.InvalidateOn401?)
  {
    var more, n := ops + [op], |ops|;
    assert more[n] == op && forall i :: 0 <= i < n ==> more[i] == ops[i];
    if op.Rebuild? {
      forall i | 0 <= i < |more| && more[i].InvalidateOn401? ensures exists j :: i < j < |more| && more[j].Rebuild? {
        assert i < n;
      }
    } else if Armed(more) {
      forall i | 0 <= i < n && ops[i].InvalidateOn401? ensures exists j :: i < j < n && ops[j].Rebuild? {
        assert more[i].InvalidateOn401?;
        var j :| i < j < |more| && more[j].Rebuild?;
      }
    } else if Armed(ops) && !op.InvalidateOn401? {
      forall i | 0 <= i < |more| && more[i].InvalidateOn401? ensures exists j :: i < j < |more| && more[j].Rebuild? {
        var j :| i < j < n && ops[j].Rebuild?;
        assert more[j].Rebuild?;
      }
    }
  }

  /** While the cache is open the gate is up exactly between a 401 and the next Rebuild, over a snapshot that is not ready. */
  lemma {:induction false} GateExactlyUnarmed(ops: seq<Op>)
    requires !After(ops).closed
    ensures After(ops).gate <==> !Armed(ops)
    ensures !Armed(ops) ==> !Ready(After(ops))
  {
    if ops != [] {
      var front, op := ops[..|ops| - 1], ops[|ops| - 1];
      assert ops == front + [op];
      ApplyGate(After(front), op);
      GateExactlyUnarmed(front);
      ArmedAfter(front, op);
    }
  }

  lemma ApplyGate(h: Hub, op: Op)
    requires !Apply(h, op).closed
    ensures !h.closed
    ensures Apply(h, op).gate == (if op.Rebuild? then false else h.gate || op.InvalidateOn401?)
    ensures !op.Rebuild? ==> Ready(Apply(h, op)) == (Ready(h) && !(op.InvalidateOn401? && !h.gate))
  {
  }

  /**
   A 401 on an open cache always leaves the snapshot not ready. The first since a Rebuild, or ever,
   also leaves a probe event pending; any other changes nothing.
   */
  lemma First401Probes(ops: seq<Op>)
    requires !After(ops).closed
    ensures var h, v := After(ops), After(ops + [InvalidateOn401]);
            && !Ready(v) && !v.lastReady
            && (Armed(ops) ==> v.probe)
            && (!Armed(ops) ==> v == h)
  {
    assert (ops + [InvalidateOn401])[..|ops|] == ops;
    GateExactlyUnarmed(ops);
    LastReadyAgrees(ops);
  }

  /** The 401 at i was the first since a Rebuild, and its probe has not been received since. */
  ghost predicate Probed(ops: seq<Op>, i: nat) {
    i < |ops| && ops[i].InvalidateOn401? && Armed(ops[..i]) && forall j :: i < j < |ops| ==> ops[j] != ConsumeProbe
  }

  lemma ProbedAfter(ops: seq<Op>, op: Op, i: nat)
    ensures i < |ops| ==> (Probed(ops + [op], i) <==> Probed(ops, i) && op != ConsumeProbe)
    ensures Probed(ops + [op], |ops|) <==> op.InvalidateOn401? && Armed(ops)
  {
    var more := ops + [op];
    assert more[|ops|] == op && more[..|ops|] == ops;
    if i < |ops| {
      assert more[..i] == ops[..i];
      assert forall j :: 0 <= j < |ops| ==> more[j] == ops[j];
    }
  }

  /** On an open cache a probe event is pending exactly when some first 401 has not had its probe received. */
  lemma {:induction false} ProbeExactlyPending(ops: seq<Op>)
    requires !After(ops).closed
    ensures After(ops).probe <==> exists i: nat :: Probed(ops, i)
  {
    if ops != [] {
      var front, op := ops[..|ops| - 1], ops[|ops| - 1];
      assert ops == front + [op];
      ApplyGate(After(front), op);
      GateExactlyUnarmed(front);
      ProbeExactlyPending(front);
      ProbedAfter(front, op, 0);
      forall i: nat | i < |front| ensures Probed(ops, i) <==> Probed(front, i) && op != ConsumeProbe {
        ProbedAfter(front, op, i);
      }
      ApplyProbe(After(front), op);
    }
  }

  lemma ApplyProbe(h: Hub, op: Op)
    requires !Apply(h, op).closed
    ensures Apply(h, op).probe == ((h.probe && op != ConsumeProbe) || (op.InvalidateOn401? && !h.gate))
  {
  }

  function Rebuilds(ops: seq<Op>): nat {
    if ops == [] then 0 else Rebuilds(ops[..|ops| - 1]) + if ops[|ops| - 1].Rebuild? then 1 else 0
  }

  /** The operations that put a probe event into the channel. */
  function Probes(ops: seq<Op>): nat {
    if ops == [] then 0
    else
      Probes(ops[..|ops| - 1]) + if After(ops).probe && !After(ops[..|ops| - 1]).probe then 1 else 0
  }

  /** However many 401s there are, probe events never exceed Rebuilds plus one. */
  lemma {:induction false} ProbesBounded(ops: seq<Op>)
    ensures Probes(ops) + (if After(ops).gate then 0 else 1) <= Rebuilds(ops) + 1
  {
    if ops != [] { ProbesBounded(ops[..|ops| - 1]); }
  }

  // ----- Shutdown and client -----

  /** The flag is raised before the channels close, so an operation that finds it down sends on open ones. */
  lemma {:induction false} ClosedBeforeEnded(ops: seq<Op>)
    ensures After(ops).ended ==> After(ops).closed
  {
    if ops != [] { ClosedBeforeEnded(ops[..|ops| - 1]); }
  }

  /** A 401 never hides the client: the placeholder keeps whatever client the snapshot carried. */
  lemma {:induction false} InvalidationKeepsClient(ops: seq<Op>)
    ensures Current(After(ops + [InvalidateOn401]).snapshot).client == Current(After(ops).snapshot).client
  {
    assert (ops + [InvalidateOn401])[..|ops|] == ops;
  }
}
