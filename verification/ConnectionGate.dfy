/**
 The 401 storm gate of the connection cache at the grain of single atomic operations. Every
 load, store, swap, compare-and-swap and channel operation of InvalidateOn401, Rebuild and
 Start is one step, and any number of callers interleave. A caller is named by the log
 position at which it began.
 */
module ConnectionGate {
  import opened Wrappers
  import opened ConnectionFanout

  /** Where a caller stands. `raisedAt` is the log position of its won compare-and-swap. */
  datatype Pc =
    | Checking
    | Gating
    | Loading(raisedAt: nat)
    | Marking(raisedAt: nat, client: Option<nat>)
    | Storing(raisedAt: nat, client: Option<nat>)
    | Sending(raisedAt: nat, placedAt: nat)
    | RebuildStoring(snap: Snapshot)
    | RebuildResetting(snap: Snapshot)
    | RebuildSwapping(snap: Snapshot)

  datatype Event =
    | Began
    | Raised(caller: nat)
    | Duplicate(caller: nat)
    | Marked(caller: nat)
    | Placed(caller: nat)
    | Tried(caller: nat, landed: bool, placedAt: nat)
    | Stored(caller: nat, ready: bool)
    | GateReset
    | Swapped(caller: nat, ready: bool, emits: bool)
    | Received

  datatype Action =
    | BeginInvalidate
    | BeginRebuild(snap: Snapshot)
    | Advance(caller: nat)
    | Receive
    | MarkClosed
    | CloseChannel

  /** The atomic fields; `pending` says whether the capacity-one probe channel holds an event. */
  datatype Shared = Shared(
    snapshot: Option<Snapshot>,
    gate: bool,
    closed: bool,
    channelClosed: bool,
    pending: bool,
    lastReady: bool)

  datatype World = World(shared: Shared, callers: map<nat, Pc>, log: seq<Event>)

  const INIT := World(Shared(None, false, false, false, false, false), map[], [])

  /** What one atomic operation does: to the fields, to its caller (None: it returns), to the log. */
  datatype Effect = Effect(shared: Shared, next: Option<Pc>, event: Option<Event>)

  /** The next operation of a caller at `pc`, when the log has `at` events. */
  function Operation(s: Shared, c: nat, pc: Pc, at: nat): Effect {
    match pc
    case Checking => Effect(s, if s.closed then None else Some(Gating), None)
    case Gating =>
      if s.gate then Effect(s, None, Some(Duplicate(c)))
      else Effect(s.(gate := true), Some(Loading(at)), Some(Raised(c)))
    case Loading(g) => Effect(s, Some(Marking(g, Current(s.snapshot).client)), None)
    case Marking(g, client) => Effect(s.(lastReady := false), Some(Storing(g, client)), Some(Marked(c)))
    case Storing(g, client) =>
      Effect(s.(snapshot := Some(Rejected(client))), Some(Sending(g, at)), Some(Placed(c)))
    case Sending(_, p) =>
      // A closed channel panics and the panic is recovered; a full one drops the duplicate.
      if s.channelClosed || s.pending then Effect(s, None, Some(Tried(c, false, p)))
      else Effect(s.(pending := true), None, Some(Tried(c, true, p)))
    case RebuildStoring(snap) =>
      Effect(s.(snapshot := Some(snap)), Some(RebuildResetting(snap)), Some(Stored(c, snap.ready)))
    case RebuildResetting(snap) => Effect(s.(gate := false), Some(RebuildSwapping(snap)), Some(GateReset))
    case RebuildSwapping(snap) =>
      Effect(s.(lastReady := snap.ready), None, Some(Swapped(c, snap.ready, snap.ready && !s.lastReady)))
  }

  predicate Enabled(w: World, a: Action) {
    match a
    case Advance(c) => c in w.callers
    case Receive => w.shared.pending
    case CloseChannel => w.shared.closed
    case _ => true
  }

  function Append(log: seq<Event>, e: Option<Event>): seq<Event> {
    if e.Some? then log + [e.value] else log
  }

  function Step(w: World, a: Action): World
    requires Enabled(w, a)
  {
    match a
    case BeginInvalidate => World(w.shared, w.callers[|w.log| := Checking], w.log + [Began])
    case BeginRebuild(snap) => World(w.shared, w.callers[|w.log| := RebuildStoring(snap)], w.log + [Began])
    case Advance(c) =>
      var e := Operation(w.shared, c, w.callers[c], |w.log|);
      World(e.shared,
            if e.next.Some? then w.callers[c := e.next.value] else w.callers - {c},
            Append(w.log, e.event))
    case Receive => World(w.shared.(pending := false), w.callers, w.log + [Received])
    case MarkClosed => World(w.shared.(closed := true), w.callers, w.log)
    case CloseChannel => World(w.shared.(channelClosed := true), w.callers, w.log)
  }

  function Exec(w: World, acts: seq<Action>): Option<World>
    decreases |acts|
  {
    if acts == [] then Some(w)
    else if Enabled(w, acts[0]) then Exec(Step(w, acts[0]), acts[1..])
    else None
  }

  // ----- The storm bound -----

  function Resets(log: seq<Event>): nat {
    if log == [] then 0
    else Resets(log[..|log| - 1]) + if log[|log| - 1] == GateReset then 1 else 0
  }

  function Raises(log: seq<Event>): nat {
    if log == [] then 0
    else Raises(log[..|log| - 1]) + if log[|log| - 1].Raised? then 1 else 0
  }

  /** Probe events that reached the channel. */
  function Sends(log: seq<Event>): nat {
    if log == [] then 0
    else Sends(log[..|log| - 1]) +
         if log[|log| - 1].Tried? && log[|log| - 1].landed then 1 else 0
  }

  predicate Won(pc: Pc) {
    pc.Loading? || pc.Marking? || pc.Storing? || pc.Sending?
  }

  function Winners(callers: map<nat, Pc>): set<nat> {
    set c | c in callers && Won(callers[c])
  }

  function Weight(pc: Pc): nat {
    if Won(pc) then 1 else 0
  }

  lemma WinnersMoved(callers: map<nat, Pc>, c: nat, pc: Pc)
    ensures |Winners(callers[c := pc])| ==
            |Winners(callers)| + Weight(pc) - if c in callers then Weight(callers[c]) else 0
  {
    assert Winners(callers[c := pc]) == if Won(pc) then Winners(callers) + {c} else Winners(callers) - {c};
  }

  lemma WinnersLeft(callers: map<nat, Pc>, c: nat)
    requires c in callers
    ensures |Winners(callers - {c})| == |Winners(callers)| - Weight(callers[c])
  {
    assert Winners(callers - {c}) == Winners(callers) - {c};
  }

  ghost predicate Bounded(w: World) {
    && Raises(w.log) <= Resets(w.log) + (if w.shared.gate then 1 else 0)
    && Sends(w.log) + |Winners(w.callers)| <= Raises(w.log)
    && (forall c :: c in w.callers ==> c < |w.log|)
  }

  lemma StepWinners(w: World, a: Action)
    requires Enabled(w, a) && (forall c :: c in w.callers ==> c < |w.log|)
    ensures |Winners(Step(w, a).callers)| == |Winners(w.callers)| +
              (if a.Advance? && w.callers[a.caller].Gating? && !w.shared.gate then 1 else 0) -
              (if a.Advance? && w.callers[a.caller].Sending? then 1 else 0)
  {
    match a
    case Advance(c) =>
      var e := Operation(w.shared, c, w.callers[c], |w.log|);
      if e.next.Some? {
        WinnersMoved(w.callers, c, e.next.value);
      } else {
        WinnersLeft(w.callers, c);
      }
    case BeginInvalidate => WinnersMoved(w.callers, |w.log|, Checking);
    case BeginRebuild(snap) => WinnersMoved(w.callers, |w.log|, RebuildStoring(snap));
    case _ =>
  }

  lemma Counted(log: seq<Event>, e: Event)
    ensures Resets(log + [e]) == Resets(log) + if e == GateReset then 1 else 0
    ensures Raises(log + [e]) == Raises(log) + if e.Raised? then 1 else 0
    ensures Sends(log + [e]) == Sends(log) + if e.Tried? && e.landed then 1 else 0
  {
    assert (log + [e])[..|log|] == log;
  }

  lemma OperationCounts(s: Shared, c: nat, pc: Pc, log: seq<Event>)
    ensures var e := Operation(s, c, pc, |log|);
            var log' := Append(log, e.event);
            && Resets(log') == Resets(log) + (if pc.RebuildResetting? then 1 else 0)
            && Raises(log') == Raises(log) + (if pc.Gating? && !s.gate then 1 else 0)
            && Sends(log') <= Sends(log) + (if pc.Sending? then 1 else 0)
            && e.shared.gate == (!pc.RebuildResetting? && (s.gate || pc.Gating?))
  {
    var e := Operation(s, c, pc, |log|);
    if e.event.Some? { Counted(log, e.event.value); }
  }

  lemma StepCounts(w: World, a: Action)
    requires Enabled(w, a)
    ensures var w' := Step(w, a);
            var pc := if a.Advance? then w.callers[a.caller] else Checking;
            && Resets(w'.log) == Resets(w.log) + (if pc.RebuildResetting? then 1 else 0)
            && Raises(w'.log) == Raises(w.log) + (if pc.Gating? && !w.shared.gate then 1 else 0)
            && Sends(w'.log) <= Sends(w.log) + (if pc.Sending? then 1 else 0)
            && w'.shared.gate == (!pc.RebuildResetting? && (w.shared.gate || pc.Gating?))
  {
    match a
    case Advance(c) => OperationCounts(w.shared, c, w.callers[c], w.log);
    case Receive => Counted(w.log, Received);
    case MarkClosed =>
    case CloseChannel =>
    case _ => Counted(w.log, Began);
  }

  lemma StepBounded(w: World, a: Action)
    requires Bounded(w) && Enabled(w, a)
    ensures Bounded(Step(w, a))
  {
    StepWinners(w, a);
    StepCounts(w, a);
  }

  lemma {:induction false} RunBounded(w: World, acts: seq<Action>)
    requires Bounded(w)
    ensures Exec(w, acts).Some? ==> Bounded(Exec(w, acts).value)
    decreases |acts|
  {
    if acts != [] && Enabled(w, acts[0]) {
      StepBounded(w, acts[0]);
      RunBounded(Step(w, acts[0]), acts[1..]);
    }
  }

  /** However many callers see a 401, probe events never exceed gate resets plus one. */
  lemma StormBound(acts: seq<Action>)
    requires Exec(INIT, acts).Some?
    ensures var log := Exec(INIT, acts).value.log; Sends(log) <= Resets(log) + 1
  {
    RunBounded(INIT, acts);
  }

  function Receipts(log: seq<Event>): nat {
    if log == [] then 0
    else Receipts(log[..|log| - 1]) + if log[|log| - 1] == Received then 1 else 0
  }

  ghost predicate Balanced(w: World) {
    Sends(w.log) == Receipts(w.log) + if w.shared.pending then 1 else 0
  }

  lemma StepBalanced(w: World, a: Action)
    requires Balanced(w) && Enabled(w, a)
    ensures Balanced(Step(w, a))
  {
    match a
    case Advance(c) =>
      var e := Operation(w.shared, c, w.callers[c], |w.log|);
      OperationSends(w.shared, c, w.callers[c], |w.log|);
      if e.event.Some? { Tallied(w.log, e.event.value); }
    case Receive => Tallied(w.log, Received);
    case MarkClosed =>
    case CloseChannel =>
    case _ => Tallied(w.log, Began);
  }

  lemma Tallied(log: seq<Event>, e: Event)
    ensures Sends(log + [e]) == Sends(log) + if e.Tried? && e.landed then 1 else 0
    ensures Receipts(log + [e]) == Receipts(log) + if e == Received then 1 else 0
  {
    assert (log + [e])[..|log|] == log;
  }

  /** An operation puts an event into the channel exactly when its send lands. */
  lemma OperationSends(s: Shared, c: nat, pc: Pc, at: nat)
    ensures var o := Operation(s, c, pc, at);
            var lands := o.event.Some? && o.event.value.Tried? && o.event.value.landed;
            && (lands ==> !s.pending && o.shared.pending)
            && (!lands ==> o.shared.pending == s.pending)
            && o.event != Some(Received)
  {
  }

  /** The channel holds one event at most: between two that land, one is received. */
  lemma {:induction false} CapacityOne(w: World, acts: seq<Action>)
    requires Balanced(w)
    ensures Exec(w, acts).Some? ==> Balanced(Exec(w, acts).value)
    decreases |acts|
  {
    if acts != [] && Enabled(w, acts[0]) {
      StepBalanced(w, acts[0]);
      CapacityOne(Step(w, acts[0]), acts[1..]);
    }
  }

  // ----- No lost probe -----

  ghost predicate ReceivedAfter(log: seq<Event>, i: nat) {
    exists j :: i < j < |log| && log[j] == Received
  }

  /** A probe is on its way, or has been received since position `i`. */
  ghost predicate Probing(w: World, i: nat) {
    w.shared.closed || w.shared.pending || ReceivedAfter(w.log, i)
  }

  ghost predicate CallerOk(w: World, c: nat, pc: Pc) {
    && (Won(pc) ==> pc.raisedAt < |w.log| && w.log[pc.raisedAt] == Raised(c))
    && (pc.Sending? ==> pc.placedAt < |w.log| && w.log[pc.placedAt] == Placed(c))
  }

  /** A raised gate has its winner still at work, or a probe since. */
  ghost predicate RaiseOk(w: World, g: nat)
    requires g < |w.log|
  {
    w.log[g].Raised? ==>
      || Probing(w, g)
      || (w.log[g].caller in w.callers && Won(w.callers[w.log[g].caller]) &&
          w.callers[w.log[g].caller].raisedAt == g)
  }

  ghost predicate TryOk(w: World, s: nat)
    requires s < |w.log|
  {
    w.log[s].Tried? ==>
      && w.log[s].placedAt < s && w.log[w.log[s].placedAt] == Placed(w.log[s].caller)
      && Probing(w, s)
  }

  /** A raise at `g` with no reset between it and `k`. */
  ghost predicate RaisedSince(log: seq<Event>, g: nat, k: nat) {
    && g < k <= |log| && log[g].Raised?
    && forall j :: g < j < k ==> log[j] != GateReset
  }

  ghost predicate DuplicateOk(log: seq<Event>, k: nat)
    requires k < |log|
  {
    log[k].Duplicate? ==> exists g: nat :: RaisedSince(log, g, k)
  }

  ghost predicate CallersOk(w: World) {
    forall c :: c in w.callers ==> c < |w.log| && CallerOk(w, c, w.callers[c])
  }

  ghost predicate GateOk(w: World) {
    w.shared.gate ==> exists g: nat :: RaisedSince(w.log, g, |w.log|)
  }

  ghost predicate Alert(w: World) {
    && (w.shared.channelClosed ==> w.shared.closed)
    && CallersOk(w)
    && (forall g :: 0 <= g < |w.log| ==> RaiseOk(w, g))
    && (forall s :: 0 <= s < |w.log| ==> TryOk(w, s))
    && (forall k :: 0 <= k < |w.log| ==> DuplicateOk(w.log, k))
    && GateOk(w)
  }

  /** A step appends at most one event. */
  lemma StepLog(w: World, a: Action)
    requires Enabled(w, a)
    ensures var w' := Step(w, a);
            && w.log <= w'.log && |w'.log| <= |w.log| + 1
            && (w'.log != w.log ==> w'.log == w.log + [w'.log[|w.log|]])
  {
  }

  lemma ProbingKept(w: World, a: Action, i: nat)
    requires Enabled(w, a) && i < |w.log| && Probing(w, i)
    ensures Probing(Step(w, a), i)
  {
    var w' := Step(w, a);
    StepLog(w, a);
    if ReceivedAfter(w.log, i) {
      var j :| i < j < |w.log| && w.log[j] == Received;
      assert w'.log[j] == Received;
    } else if a.Receive? {
      assert w'.log[|w.log|] == Received;
    }
  }

  lemma StepCallers(w: World, a: Action)
    requires CallersOk(w) && Enabled(w, a)
    ensures CallersOk(Step(w, a))
  {
    var w' := Step(w, a);
    StepLog(w, a);
    forall c | c in w'.callers ensures c < |w'.log| && CallerOk(w', c, w'.callers[c]) {
      if c in w.callers { assert CallerOk(w, c, w.callers[c]); }
    }
  }

  lemma RaiseKept(w: World, a: Action, g: nat)
    requires CallersOk(w) && (w.shared.channelClosed ==> w.shared.closed) && Enabled(w, a)
    requires g < |w.log| && RaiseOk(w, g)
    ensures g < |Step(w, a).log| && RaiseOk(Step(w, a), g)
  {
    StepLog(w, a);
    if w.log[g].Raised? && Probing(w, g) { ProbingKept(w, a, g); }
  }

  lemma TryKept(w: World, a: Action, s: nat)
    requires Enabled(w, a) && s < |w.log| && TryOk(w, s)
    ensures s < |Step(w, a).log| && TryOk(Step(w, a), s)
  {
    StepLog(w, a);
    if w.log[s].Tried? { ProbingKept(w, a, s); }
  }

  /** The event a step appends is in order. */
  lemma NewEvent(w: World, a: Action)
    requires CallersOk(w) && (w.shared.channelClosed ==> w.shared.closed) && Enabled(w, a)
    requires |w.log| < |Step(w, a).log|
    ensures RaiseOk(Step(w, a), |w.log|) && TryOk(Step(w, a), |w.log|)
  {
  }

  lemma RaisedSinceKept(log: seq<Event>, more: seq<Event>, g: nat, k: nat)
    requires RaisedSince(log, g, k) && log <= more
    ensures RaisedSince(more, g, k)
    ensures k == |log| && |more| == k + 1 && more[k] != GateReset ==> RaisedSince(more, g, k + 1)
  {
  }

  lemma DuplicateKept(w: World, a: Action, k: nat)
    requires k < |w.log| && DuplicateOk(w.log, k) && Enabled(w, a)
    ensures k < |Step(w, a).log| && DuplicateOk(Step(w, a).log, k)
  {
    StepLog(w, a);
    if w.log[k].Duplicate? {
      var g: nat :| RaisedSince(w.log, g, k);
      RaisedSinceKept(w.log, Step(w, a).log, g, k);
    }
  }

  lemma DuplicateNew(w: World, a: Action)
    requires GateOk(w) && Enabled(w, a) && |w.log| < |Step(w, a).log|
    ensures DuplicateOk(Step(w, a).log, |w.log|)
  {
    StepLog(w, a);
    if Step(w, a).log[|w.log|].Duplicate? {
      assert w.shared.gate;
      var g: nat :| RaisedSince(w.log, g, |w.log|);
      RaisedSinceKept(w.log, Step(w, a).log, g, |w.log|);
    }
  }

  lemma StepGate(w: World, a: Action)
    requires GateOk(w) && Enabled(w, a)
    ensures GateOk(Step(w, a))
  {
    var w' := Step(w, a);
    StepLog(w, a);
    if w'.shared.gate && !w.shared.gate {
      assert RaisedSince(w'.log, |w.log|, |w'.log|);
    } else if w'.shared.gate {
      var g: nat :| RaisedSince(w.log, g, |w.log|);
      RaisedSinceKept(w.log, w'.log, g, |w.log|);
    }
  }

  lemma StepAlert(w: World, a: Action)
    requires Alert(w) && Enabled(w, a)
    ensures Alert(Step(w, a))
  {
    var w' := Step(w, a);
    StepLog(w, a);
    StepCallers(w, a);
    StepGate(w, a);
    forall g | 0 <= g < |w'.log| ensures RaiseOk(w', g) && TryOk(w', g) && DuplicateOk(w'.log, g) {
      if g < |w.log| {
        RaiseKept(w, a, g);
        TryKept(w, a, g);
        DuplicateKept(w, a, g);
      } else {
        NewEvent(w, a);
        DuplicateNew(w, a);
      }
    }
  }

  lemma {:induction false} RunAlert(w: World, acts: seq<Action>)
    requires Alert(w)
    ensures Exec(w, acts).Some? ==> Alert(Exec(w, acts).value)
    decreases |acts|
  {
    if acts != [] && Enabled(w, acts[0]) {
      StepAlert(w, acts[0]);
      RunAlert(Step(w, acts[0]), acts[1..]);
    }
  }

  /** While open, a finished invalidator's probe is pending or was received after its placeholder was stored. */
  lemma NoLostProbe(acts: seq<Action>, s: nat)
    requires Exec(INIT, acts).Some?
    requires var w := Exec(INIT, acts).value; s < |w.log| && w.log[s].Tried? && !w.shared.closed
    ensures var w := Exec(INIT, acts).value;
            && w.log[s].placedAt < s && w.log[w.log[s].placedAt] == Placed(w.log[s].caller)
            && (w.shared.pending || ReceivedAfter(w.log, w.log[s].placedAt))
  {
    RunAlert(INIT, acts);
    var w := Exec(INIT, acts).value;
    assert TryOk(w, s);
    if ReceivedAfter(w.log, s) {
      var j :| s < j < |w.log| && w.log[j] == Received;
      assert w.log[s].placedAt < j;
    }
  }

  /**
   A caller turned away by the raised gate is covered: the raise that turned it away has its
   winner still at work, or its probe is pending or received.
   */
  lemma DuplicateIsCovered(acts: seq<Action>, k: nat)
    requires Exec(INIT, acts).Some?
    requires var w := Exec(INIT, acts).value; k < |w.log| && w.log[k].Duplicate? && !w.shared.closed
    ensures var w := Exec(INIT, acts).value;
            exists g: nat :: RaisedSince(w.log, g, k) &&
              (|| w.shared.pending || ReceivedAfter(w.log, g)
               || (w.log[g].caller in w.callers && Won(w.callers[w.log[g].caller])))
  {
    RunAlert(INIT, acts);
    var w := Exec(INIT, acts).value;
    assert DuplicateOk(w.log, k);
    var g: nat :| RaisedSince(w.log, g, k);
    assert RaiseOk(w, g);
  }

  // ----- What fails at this grain -----

  lemma {:induction false} ExecAppend(w: World, a: seq<Action>, b: seq<Action>)
    requires Exec(w, a).Some?
    ensures Exec(w, a + b) == Exec(Exec(w, a).value, b)
    decreases |a|
  {
    if a == [] {
      assert a + b == b;
    } else {
      assert (a + b)[1..] == a[1..] + b;
      ExecAppend(Step(w, a[0]), a[1..], b);
    }
  }

  /** The readiness of the snapshot a store event stores, and of the flag a mark event writes. */
  predicate StoresSnapshot(e: Event) { e.Placed? || e.Stored? }
  predicate SetsFlag(e: Event) { e.Marked? || e.Swapped? }
  predicate Says(e: Event) { (e.Stored? || e.Swapped?) && e.ready }

  /** The store and the flag write of one operation: a Rebuild stores first, an InvalidateOn401 marks first. */
  ghost predicate Pair(log: seq<Event>, s: nat, f: nat) {
    && s < |log| && f < |log|
    && (|| (log[s].Stored? && log[f].Swapped? && s < f && log[s].caller == log[f].caller && log[s].ready == log[f].ready)
        || (log[s].Placed? && log[f].Marked? && f < s && log[s].caller == log[f].caller))
  }

  ghost predicate LastStore(log: seq<Event>, s: nat) {
    s < |log| && StoresSnapshot(log[s]) && forall i :: s < i < |log| ==> !StoresSnapshot(log[i])
  }

  ghost predicate LastFlag(log: seq<Event>, f: nat) {
    f < |log| && SetsFlag(log[f]) && forall i :: f < i < |log| ==> !SetsFlag(log[i])
  }

  /** The fields hold what the last writes said. */
  ghost predicate FieldsOk(w: World) {
    && (Current(w.shared.snapshot).ready ==> exists s: nat :: LastStore(w.log, s))
    && (w.shared.lastReady ==> exists f: nat :: LastFlag(w.log, f))
    && (forall s: nat :: LastStore(w.log, s) ==> Says(w.log[s]) == Current(w.shared.snapshot).ready)
    && (forall f: nat :: LastFlag(w.log, f) ==> Says(w.log[f]) == w.shared.lastReady)
  }

  predicate BetweenWrites(pc: Pc) {
    pc.Storing? || pc.RebuildResetting? || pc.RebuildSwapping?
  }

  /** The first write of an operation has its second, or the operation is still between them. */
  ghost predicate WriteOk(w: World, i: nat)
    requires i < |w.log|
  {
    match w.log[i]
    case Stored(c, ready) =>
      || (exists f: nat :: Pair(w.log, i, f))
      || (c in w.callers && (w.callers[c].RebuildResetting? || w.callers[c].RebuildSwapping?) && w.callers[c].snap.ready == ready)
    case Marked(c) =>
      || (exists s: nat :: Pair(w.log, s, i))
      || (c in w.callers && w.callers[c].Storing?)
    case Placed(c) => exists f: nat :: Pair(w.log, i, f)
    case Swapped(c, _, _) => exists s: nat :: Pair(w.log, s, i)
    case _ => true
  }

  /** A caller between its writes has made the first. */
  ghost predicate HalfDone(w: World, c: nat, pc: Pc) {
    && (pc.Storing? ==> exists f: nat :: f < |w.log| && w.log[f] == Marked(c))
    && (pc.RebuildResetting? || pc.RebuildSwapping? ==>
          exists s: nat :: s < |w.log| && w.log[s] == Stored(c, pc.snap.ready))
  }

  ghost predicate Traced(w: World) {
    FieldsOk(w) && HalvesOk(w) && WritesOk(w)
  }

  ghost predicate HalvesOk(w: World) {
    forall c :: c in w.callers ==> c < |w.log| && HalfDone(w, c, w.callers[c])
  }

  ghost predicate WritesOk(w: World) {
    forall i: nat :: i < |w.log| ==> WriteOk(w, i)
  }

  lemma PairKept(log: seq<Event>, more: seq<Event>, s: nat, f: nat)
    requires Pair(log, s, f) && log <= more
    ensures Pair(more, s, f)
  {
  }

  lemma HalfDoneKept(w: World, a: Action, c: nat)
    requires Traced(w) && Enabled(w, a) && c in Step(w, a).callers
    ensures c < |Step(w, a).log| && HalfDone(Step(w, a), c, Step(w, a).callers[c])
  {
    var w' := Step(w, a);
    StepLog(w, a);
    if c in w.callers {
      var pc := w.callers[c];
      assert HalfDone(w, c, pc);
      if pc.Storing? {
        var f: nat :| f < |w.log| && w.log[f] == Marked(c);
        assert w'.log[f] == Marked(c);
      } else if pc.RebuildResetting? || pc.RebuildSwapping? {
        var s: nat :| s < |w.log| && w.log[s] == Stored(c, pc.snap.ready);
        assert w'.log[s] == Stored(c, pc.snap.ready);
      } else if a == Advance(c) && (pc.Marking? || pc.RebuildStoring?) {
        assert w'.log[|w.log|] == if pc.Marking? then Marked(c) else Stored(c, pc.snap.ready);
      }
    }
  }

  /** A step by some caller completes its own pairs. */
  lemma Completes(w: World, c: nat, i: nat)
    requires Traced(w) && c in w.callers && i < |w.log|
    requires (w.log[i] == Marked(c) && w.callers[c].Storing?)
          || (w.callers[c].RebuildSwapping? && w.log[i] == Stored(c, w.callers[c].snap.ready))
    ensures var log := Step(w, Advance(c)).log;
            |log| == |w.log| + 1 && (Pair(log, i, |w.log|) || Pair(log, |w.log|, i))
  {
  }

  lemma WriteKept(w: World, a: Action, i: nat)
    requires Traced(w) && Enabled(w, a) && i < |w.log|
    ensures i < |Step(w, a).log| && WriteOk(Step(w, a), i)
  {
    var w' := Step(w, a);
    StepLog(w, a);
    assert WriteOk(w, i) && w'.log[i] == w.log[i];
    if f: nat :| Pair(w.log, i, f) {
      PairKept(w.log, w'.log, i, f);
    } else if s: nat :| Pair(w.log, s, i) {
      PairKept(w.log, w'.log, s, i);
    } else if w.log[i].Stored? || w.log[i].Marked? {
      var c := w.log[i].caller;
      if a == Advance(c) && !w.callers[c].RebuildResetting? { Completes(w, c, i); }
    }
  }

  lemma WriteNew(w: World, a: Action)
    requires Traced(w) && Enabled(w, a) && |w.log| < |Step(w, a).log|
    ensures WriteOk(Step(w, a), |w.log|)
  {
    if a.Advance? {
      var c := a.caller;
      var pc := w.callers[c];
      assert HalfDone(w, c, pc);
      if pc.Storing? {
        var f: nat :| f < |w.log| && w.log[f] == Marked(c);
        Completes(w, c, f);
      } else if pc.RebuildSwapping? {
        var s: nat :| s < |w.log| && w.log[s] == Stored(c, pc.snap.ready);
        Completes(w, c, s);
      }
    }
  }

  lemma LastKept(log: seq<Event>, e: Event, i: nat)
    ensures !StoresSnapshot(e) ==> (LastStore(log + [e], i) <==> LastStore(log, i))
    ensures StoresSnapshot(e) ==> (LastStore(log + [e], i) <==> i == |log|)
    ensures !SetsFlag(e) ==> (LastFlag(log + [e], i) <==> LastFlag(log, i))
    ensures SetsFlag(e) ==> (LastFlag(log + [e], i) <==> i == |log|)
  {
    var more := log + [e];
    assert more[|log|] == e && forall k :: 0 <= k < |log| ==> more[k] == log[k];
  }

  /** What a step's event says is what it leaves in the fields. */
  lemma StepSays(w: World, a: Action)
    requires Enabled(w, a)
    ensures var w' := Step(w, a);
            var e := if |w'.log| > |w.log| then w'.log[|w.log|] else Began;
            && Current(w'.shared.snapshot).ready == (if StoresSnapshot(e) then Says(e) else Current(w.shared.snapshot).ready)
            && w'.shared.lastReady == (if SetsFlag(e) then Says(e) else w.shared.lastReady)
  {
    match a
    case Advance(c) => OperationSays(w.shared, c, w.callers[c], |w.log|);
    case _ =>
  }

  lemma OperationSays(s: Shared, c: nat, pc: Pc, at: nat)
    ensures var o := Operation(s, c, pc, at);
            var e := if o.event.Some? then o.event.value else Began;
            && Current(o.shared.snapshot).ready == (if StoresSnapshot(e) then Says(e) else Current(s.snapshot).ready)
            && o.shared.lastReady == (if SetsFlag(e) then Says(e) else s.lastReady)
  {
  }

  lemma StepFields(w: World, a: Action)
    requires FieldsOk(w) && Enabled(w, a)
    ensures FieldsOk(Step(w, a))
  {
    var w' := Step(w, a);
    StepLog(w, a);
    StepSays(w, a);
    if |w'.log| > |w.log| {
      var e := w'.log[|w.log|];
      forall i: nat ensures
        && (LastStore(w'.log, i) <==> if StoresSnapshot(e) then i == |w.log| else LastStore(w.log, i))
        && (LastFlag(w'.log, i) <==> if SetsFlag(e) then i == |w.log| else LastFlag(w.log, i))
      {
        LastKept(w.log, e, i);
      }
      SomeLast(w, w', e);
    }
  }

  lemma SomeLast(w: World, w': World, e: Event)
    requires FieldsOk(w)
    requires forall i: nat :: LastStore(w'.log, i) <==> if StoresSnapshot(e) then i == |w.log| else LastStore(w.log, i)
    requires forall i: nat :: LastFlag(w'.log, i) <==> if SetsFlag(e) then i == |w.log| else LastFlag(w.log, i)
    ensures StoresSnapshot(e) || Current(w.shared.snapshot).ready ==> exists s: nat :: LastStore(w'.log, s)
    ensures SetsFlag(e) || w.shared.lastReady ==> exists f: nat :: LastFlag(w'.log, f)
  {
    if StoresSnapshot(e) {
      assert LastStore(w'.log, |w.log|);
    } else if Current(w.shared.snapshot).ready {
      var s: nat :| LastStore(w.log, s);
      assert LastStore(w'.log, s);
    }
    if SetsFlag(e) {
      assert LastFlag(w'.log, |w.log|);
    } else if w.shared.lastReady {
      var f: nat :| LastFlag(w.log, f);
      assert LastFlag(w'.log, f);
    }
  }

  lemma StepTraced(w: World, a: Action)
    requires Traced(w) && Enabled(w, a)
    ensures Traced(Step(w, a))
  {
    StepFields(w, a);
    StepHalves(w, a);
    StepWrites(w, a);
  }

  lemma StepHalves(w: World, a: Action)
    requires Traced(w) && Enabled(w, a)
    ensures HalvesOk(Step(w, a))
  {
    forall c | c in Step(w, a).callers ensures c < |Step(w, a).log| && HalfDone(Step(w, a), c, Step(w, a).callers[c]) {
      HalfDoneKept(w, a, c);
    }
  }

  lemma StepWrites(w: World, a: Action)
    requires Traced(w) && Enabled(w, a)
    ensures WritesOk(Step(w, a))
  {
    StepLog(w, a);
    forall i: nat | i < |Step(w, a).log| ensures WriteOk(Step(w, a), i) {
      if i < |w.log| { WriteKept(w, a, i); } else { WriteNew(w, a); }
    }
  }

  lemma {:induction false} RunTraced(w: World, acts: seq<Action>)
    requires Traced(w)
    ensures Exec(w, acts).Some? ==> Traced(Exec(w, acts).value)
    decreases |acts|
  {
    if acts != [] && Enabled(w, acts[0]) {
      StepTraced(w, acts[0]);
      RunTraced(Step(w, acts[0]), acts[1..]);
    }
  }

  predicate Agrees(w: World) {
    w.shared.lastReady == Current(w.shared.snapshot).ready
  }

  predicate Quiescent(w: World) {
    forall c :: c in w.callers ==> !BetweenWrites(w.callers[c])
  }

  /**
   Two operations of different readiness whose writes cross: the one stores last, the other writes
   the flag last, and nobody writes either field after them.
   */
  ghost predicate Crossed(log: seq<Event>, s: nat, f: nat, s': nat, f': nat) {
    && Pair(log, s, f) && Pair(log, s', f')
    && s' < s && f < f' && Says(log[s]) != Says(log[f'])
    && LastStore(log, s) && LastFlag(log, f')
  }

  /**
   With no caller between its two writes, flag and snapshot disagree exactly when the last store and
   the last flag write belong to two operations of different readiness that crossed.
   */
  lemma AgreesExactlyUncrossed(acts: seq<Action>)
    requires Exec(INIT, acts).Some? && Quiescent(Exec(INIT, acts).value)
    ensures var w := Exec(INIT, acts).value;
            Agrees(w) <==> !exists s: nat, f: nat, s': nat, f': nat :: Crossed(w.log, s, f, s', f')
  {
    RunTraced(INIT, acts);
    var w := Exec(INIT, acts).value;
    if !Agrees(w) {
      var s, f, s', f' := FindCrossing(w);
    }
  }

  lemma FindCrossing(w: World) returns (s: nat, f: nat, s': nat, f': nat)
    requires Traced(w) && Quiescent(w) && !Agrees(w)
    ensures Crossed(w.log, s, f, s', f')
  {
    if w.shared.lastReady {
      f' :| LastFlag(w.log, f');
      s' := StoreOf(w, f');
      s := SomeLastStore(w.log, s');
      f := FlagOf(w, s);
    } else {
      s :| LastStore(w.log, s);
      f := FlagOf(w, s);
      f' := SomeLastFlag(w.log, f);
      s' := StoreOf(w, f');
    }
  }

  lemma StoreOf(w: World, f: nat) returns (s: nat)
    requires Traced(w) && Quiescent(w) && f < |w.log| && SetsFlag(w.log[f])
    ensures Pair(w.log, s, f)
  {
    assert WriteOk(w, f);
    s :| Pair(w.log, s, f);
  }

  lemma FlagOf(w: World, s: nat) returns (f: nat)
    requires Traced(w) && Quiescent(w) && s < |w.log| && StoresSnapshot(w.log[s])
    ensures Pair(w.log, s, f)
  {
    assert WriteOk(w, s);
    f :| Pair(w.log, s, f);
  }

  lemma {:induction false} SomeLastStore(log: seq<Event>, i: nat) returns (s: nat)
    requires i < |log| && StoresSnapshot(log[i])
    ensures LastStore(log, s)
    decreases |log| - i
  {
    if j :| i < j < |log| && StoresSnapshot(log[j]) {
      s := SomeLastStore(log, j);
    } else {
      s := i;
    }
  }

  lemma {:induction false} SomeLastFlag(log: seq<Event>, i: nat) returns (f: nat)
    requires i < |log| && SetsFlag(log[i])
    ensures LastFlag(log, f)
    decreases |log| - i
  {
    if j :| i < j < |log| && SetsFlag(log[j]) {
      f := SomeLastFlag(log, j);
    } else {
      f := i;
    }
  }

  function Earlier(i: nat, j: nat): nat { if i < j then i else j }
  function Later(i: nat, j: nat): nat { if i < j then j else i }

  /** The stretches from first to second write lie apart. */
  predicate Apart(s: nat, f: nat, s': nat, f': nat) {
    Later(s, f) < Earlier(s', f') || Later(s', f') < Earlier(s, f)
  }

  /**
   Operations that cross overlap, and the one that wrote the flag last is a Rebuild to ready, the
   other's store coming after its own, or a Rebuild around another Rebuild.
   */
  lemma CrossingOverlaps(log: seq<Event>, s: nat, f: nat, s': nat, f': nat)
    requires Crossed(log, s, f, s', f')
    ensures log[s'].Stored? && log[f'].Swapped? && !Apart(s, f, s', f')
    ensures log[s].Placed? ==> log[f'].ready
    ensures log[s].Stored? ==> s' < s < f < f'
  {
  }

  /** So when the write stretches of no two operations overlap, flag and snapshot always agree at rest. */
  lemma SerialWritesAgree(acts: seq<Action>)
    requires Exec(INIT, acts).Some? && Quiescent(Exec(INIT, acts).value)
    requires var log := Exec(INIT, acts).value.log;
             forall s: nat, f: nat, s': nat, f': nat :: Pair(log, s, f) && Pair(log, s', f') && s != s' ==> Apart(s, f, s', f')
    ensures Agrees(Exec(INIT, acts).value)
  {
    AgreesExactlyUncrossed(acts);
    var w := Exec(INIT, acts).value;
    if s: nat, f: nat, s': nat, f': nat :| Crossed(w.log, s, f, s', f') {
      CrossingOverlaps(w.log, s, f, s', f');
    }
  }

  lemma ExecCons(w: World, a: Action, rest: seq<Action>)
    requires Enabled(w, a)
    ensures Exec(w, [a] + rest) == Exec(Step(w, a), rest)
  {
    assert ([a] + rest)[1..] == rest;
  }

  lemma ExecTwo(w: World, a: Action, b: Action)
    requires Enabled(w, a) && Enabled(Step(w, a), b)
    ensures Exec(w, [a, b]) == Some(Step(Step(w, a), b))
  {
    assert [a, b] == [a] + [b] && [b] == [b] + [];
    ExecCons(w, a, [b]);
    ExecCons(Step(w, a), b, []);
  }

  lemma ExecThree(w: World, a: Action, b: Action, c: Action)
    requires Enabled(w, a) && Enabled(Step(w, a), b) && Enabled(Step(Step(w, a), b), c)
    ensures Exec(w, [a, b, c]) == Some(Step(Step(Step(w, a), b), c))
  {
    assert [a, b, c] == [a] + [b, c];
    ExecCons(w, a, [b, c]);
    ExecTwo(Step(w, a), b, c);
  }

  // ----- Without interleaving: the whole operations -----

  /** The fields as the coarse model has them, beside the given subscriber channels. */
  function HubOf(s: Shared, subs: seq<bool>): Hub {
    Hub(s.snapshot, s.gate, s.closed, s.channelClosed, s.pending, s.lastReady, subs)
  }

  /** A Rebuild that runs alone does to the fields what `Apply` does, and emits exactly when `Apply` fans out. */
  lemma RebuildAlone(w: World, snap: Snapshot, subs: seq<bool>) returns (w': World)
    requires |w.log| !in w.callers
    ensures var c := |w.log|;
            Exec(w, [BeginRebuild(snap), Advance(c)] + [Advance(c), Advance(c)]) == Some(w')
    ensures w'.callers == w.callers
    ensures var after := Apply(HubOf(w.shared, subs), Rebuild(snap)); HubOf(w'.shared, after.subs) == after
    ensures |w'.log| > 0 && w'.log[|w'.log| - 1].Swapped? && w'.log[|w'.log| - 1].emits == (snap.ready && !w.shared.lastReady)
  {
    var c := |w.log|;
    ExecTwo(w, BeginRebuild(snap), Advance(c));
    var v := Step(Step(w, BeginRebuild(snap)), Advance(c));
    ExecTwo(v, Advance(c), Advance(c));
    w' := Step(Step(v, Advance(c)), Advance(c));
    ExecAppend(w, [BeginRebuild(snap), Advance(c)], [Advance(c), Advance(c)]);
  }

  /** An InvalidateOn401 that runs alone does to the fields what `Apply` does. */
  lemma InvalidateAlone(w: World, subs: seq<bool>) returns (acts: seq<Action>, w': World)
    requires |w.log| !in w.callers && (w.shared.channelClosed ==> w.shared.closed)
    ensures Exec(w, acts) == Some(w') && w'.callers == w.callers
    ensures acts != [] && acts[0] == BeginInvalidate && forall i :: 0 < i < |acts| ==> acts[i] == Advance(|w.log|)
    ensures HubOf(w'.shared, subs) == Apply(HubOf(w.shared, subs), InvalidateOn401)
  {
    var c := |w.log|;
    ExecTwo(w, BeginInvalidate, Advance(c));
    var v := Step(Step(w, BeginInvalidate), Advance(c));
    if w.shared.closed {
      acts, w' := [BeginInvalidate, Advance(c)], v;
    } else if w.shared.gate {
      ExecThree(w, BeginInvalidate, Advance(c), Advance(c));
      acts, w' := [BeginInvalidate, Advance(c), Advance(c)], Step(v, Advance(c));
    } else {
      w' := WinsAlone(v, c);
      ExecAppend(w, [BeginInvalidate, Advance(c)], [Advance(c), Advance(c), Advance(c)] + [Advance(c), Advance(c)]);
      acts := [BeginInvalidate, Advance(c)] + ([Advance(c), Advance(c), Advance(c)] + [Advance(c), Advance(c)]);
    }
  }

  lemma WinsAlone(w: World, c: nat) returns (w': World)
    requires c in w.callers && w.callers[c] == Gating && !w.shared.gate && !w.shared.channelClosed
    ensures Exec(w, [Advance(c), Advance(c), Advance(c)] + [Advance(c), Advance(c)]) == Some(w')
    ensures w'.callers == w.callers - {c}
    ensures w'.shared == Shared(Some(Placeholder(w.shared.snapshot)), true, w.shared.closed, false, true, false)
  {
    ExecThree(w, Advance(c), Advance(c), Advance(c));
    var v := Step(Step(Step(w, Advance(c)), Advance(c)), Advance(c));
    ExecTwo(v, Advance(c), Advance(c));
    w' := Step(Step(v, Advance(c)), Advance(c));
    ExecAppend(w, [Advance(c), Advance(c), Advance(c)], [Advance(c), Advance(c)]);
  }

  // ----- Two ways to cross -----

  const GOOD := Snapshot(true, "Synced", Some(0))

  /** An invalidator that has marked and not stored. */
  const MARKED := World(Shared(None, true, false, false, false, false), map[0 := Storing(1, None)], [Began, Raised(0), Marked(0)])

  lemma ReachMarked()
    ensures Exec(INIT, [BeginInvalidate, Advance(0), Advance(0)] + [Advance(0), Advance(0)]) == Some(MARKED)
  {
    var w := Step(Step(Step(INIT, BeginInvalidate), Advance(0)), Advance(0));
    ExecThree(INIT, BeginInvalidate, Advance(0), Advance(0));
    assert w.callers == map[0 := Loading(1)] && w.log == [Began, Raised(0)];
    ExecTwo(w, Advance(0), Advance(0));
    var v := Step(Step(w, Advance(0)), Advance(0));
    assert v.callers == map[0 := Storing(1, None)] && v.log == [Began, Raised(0), Marked(0)];
    ExecAppend(INIT, [BeginInvalidate, Advance(0), Advance(0)], [Advance(0), Advance(0)]);
  }

  /** A whole Rebuild meanwhile. */
  const REBUILT := World(
    Shared(Some(GOOD), false, false, false, false, true),
    map[0 := Storing(1, None)],
    [Began, Raised(0), Marked(0), Began, Stored(3, true), GateReset, Swapped(3, true, true)])

  lemma ReachRebuilt()
    ensures Exec(MARKED, [BeginRebuild(GOOD), Advance(3)] + [Advance(3), Advance(3)]) == Some(REBUILT)
  {
    ExecTwo(MARKED, BeginRebuild(GOOD), Advance(3));
    var w := Step(Step(MARKED, BeginRebuild(GOOD)), Advance(3));
    assert w.callers == map[0 := Storing(1, None), 3 := RebuildResetting(GOOD)];
    assert w.log == [Began, Raised(0), Marked(0), Began, Stored(3, true)];
    ExecTwo(w, Advance(3), Advance(3));
    var v := Step(Step(w, Advance(3)), Advance(3));
    assert v.callers == map[0 := Storing(1, None)] && v.log == REBUILT.log;
    ExecAppend(MARKED, [BeginRebuild(GOOD), Advance(3)], [Advance(3), Advance(3)]);
  }

  /**
   A placeholder store may land after a Rebuild's swap: at rest lastReady then says ready while the
   snapshot does not, and the Rebuild that recovers emits nothing to the subscribers.
   */
  lemma PlaceholderAfterSwap() returns (acts: seq<Action>, w: World, w': World)
    ensures Exec(INIT, acts) == Some(w) && w.callers == map[] && w.shared.lastReady && !Current(w.shared.snapshot).ready
    ensures Step(Step(Step(Step(w, BeginRebuild(GOOD)), Advance(|w.log|)), Advance(|w.log|)), Advance(|w.log|)) == w'
    ensures Current(w'.shared.snapshot).ready
    ensures w'.log == w.log + [Began, Stored(|w.log|, true), GateReset, Swapped(|w.log|, true, false)]
  {
    ReachMarked();
    ReachRebuilt();
    var first := [BeginInvalidate, Advance(0), Advance(0)] + [Advance(0), Advance(0)];
    var second := [BeginRebuild(GOOD), Advance(3)] + [Advance(3), Advance(3)];
    var third := [Advance(0), Advance(0)];
    ExecTwo(REBUILT, Advance(0), Advance(0));
    w := Step(Step(REBUILT, Advance(0)), Advance(0));
    ExecAppend(MARKED, second, third);
    ExecAppend(INIT, first, second + third);
    acts := first + (second + third);
    w' := Recovers(w);
  }

  lemma Recovers(w: World) returns (w': World)
    requires w.shared.lastReady && |w.log| !in w.callers
    ensures Step(Step(Step(Step(w, BeginRebuild(GOOD)), Advance(|w.log|)), Advance(|w.log|)), Advance(|w.log|)) == w'
    ensures Current(w'.shared.snapshot).ready
    ensures w'.log == w.log + [Began, Stored(|w.log|, true), GateReset, Swapped(|w.log|, true, false)]
  {
    var v0 := Step(w, BeginRebuild(GOOD));
    var v1 := Step(v0, Advance(|w.log|));
    var v2 := Step(v1, Advance(|w.log|));
    w' := Step(v2, Advance(|w.log|));
  }

  /** A Rebuild that has stored and lowered the gate, and not swapped. */
  const LOWERED := World(
    Shared(Some(GOOD), false, false, false, false, false),
    map[0 := RebuildSwapping(GOOD)],
    [Began, Stored(0, true), GateReset])

  /** A whole InvalidateOn401 meanwhile, up to its load and then to its end. */
  const RAISED := World(
    Shared(Some(GOOD), true, false, false, false, false),
    map[0 := RebuildSwapping(GOOD), 3 := Loading(4)],
    [Began, Stored(0, true), GateReset, Began, Raised(3)])

  const INVALIDATED := World(
    Shared(Some(Rejected(Some(0))), true, false, false, true, false),
    map[0 := RebuildSwapping(GOOD)],
    [Began, Stored(0, true), GateReset, Began, Raised(3), Marked(3), Placed(3), Tried(3, true, 6)])

  lemma ReachRaised()
    ensures Exec(INIT, [BeginRebuild(GOOD), Advance(0), Advance(0)] + [BeginInvalidate, Advance(3), Advance(3)]) == Some(RAISED)
  {
    ExecThree(INIT, BeginRebuild(GOOD), Advance(0), Advance(0));
    var w := Step(Step(Step(INIT, BeginRebuild(GOOD)), Advance(0)), Advance(0));
    assert w.callers == LOWERED.callers && w.log == LOWERED.log;
    ExecThree(LOWERED, BeginInvalidate, Advance(3), Advance(3));
    var v := Step(Step(Step(LOWERED, BeginInvalidate), Advance(3)), Advance(3));
    assert v.callers == RAISED.callers && v.log == RAISED.log;
    ExecAppend(INIT, [BeginRebuild(GOOD), Advance(0), Advance(0)], [BeginInvalidate, Advance(3), Advance(3)]);
  }

  lemma ReachInvalidated()
    ensures Exec(RAISED, [Advance(3), Advance(3)] + [Advance(3), Advance(3)]) == Some(INVALIDATED)
  {
    ExecTwo(RAISED, Advance(3), Advance(3));
    var w := Step(Step(RAISED, Advance(3)), Advance(3));
    assert w.callers == map[0 := RebuildSwapping(GOOD), 3 := Storing(4, Some(0))];
    assert w.log == RAISED.log + [Marked(3)];
    ExecTwo(w, Advance(3), Advance(3));
    var v := Step(Step(w, Advance(3)), Advance(3));
    assert v.callers == INVALIDATED.callers && v.log == INVALIDATED.log;
    ExecAppend(RAISED, [Advance(3), Advance(3)], [Advance(3), Advance(3)]);
  }

  /** A whole InvalidateOn401 between a Rebuild's gate reset and its swap ends the same way, after an emit. */
  lemma InvalidationInsideRebuild() returns (acts: seq<Action>, w: World)
    ensures Exec(INIT, acts) == Some(w) && w.callers == map[] && w.shared.lastReady && !Current(w.shared.snapshot).ready
    ensures |w.log| > 0 && w.log[|w.log| - 1] == Swapped(0, true, true)
  {
    ReachRaised();
    ReachInvalidated();
    var first := [BeginRebuild(GOOD), Advance(0), Advance(0)] + [BeginInvalidate, Advance(3), Advance(3)];
    var second := [Advance(3), Advance(3)] + [Advance(3), Advance(3)];
    w := Step(INVALIDATED, Advance(0));
    assert [Advance(0)] + [] == [Advance(0)];
    ExecCons(INVALIDATED, Advance(0), []);
    ExecAppend(RAISED, second, [Advance(0)]);
    ExecAppend(INIT, first, second + [Advance(0)]);
    acts := first + (second + [Advance(0)]);
  }
}
