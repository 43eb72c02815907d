/**
 The LIST cache of the LiteLLM client: a TTL entry, a single-flight marker and an invalidation
 epoch behind one mutex. `Store` holds the guarded fields; each function on it is one critical
 section. `World` adds the goroutines, the closed channels and a log of what happened, and
 `Exec` runs any interleaving of their steps. A call is named by the log position at which it
 started and a fetch by the position at which it began, so "after" is a comparison of numbers.
 */
module ListCache {
  import opened Wrappers

  /** What one upstream LIST saw: how many of the operator's own writes it reflects, or an error. */
  datatype Outcome = Listed(version: nat) | Errored

  datatype Fetched = Fetched(fetch: nat, outcome: Outcome)

  datatype Entry = Entry(result: Fetched, fetchedAt: nat)

  datatype Store = Store(ttl: nat, entry: Option<Entry>, inflight: Option<nat>, epoch: nat)

  datatype Admission = Hit(result: Fetched) | Wait(channel: nat) | Lead(epoch: nat)

  // ----- The critical sections -----

  predicate Fresh(s: Store, now: nat) {
    s.entry.Some? && now - s.entry.value.fetchedAt < s.ttl
  }

  function Admit(s: Store, now: nat): Admission {
    if Fresh(s, now) then Hit(s.entry.value.result)
    else if s.inflight.Some? then Wait(s.inflight.value)
    else Lead(s.epoch)
  }

  function Admitted(s: Store, now: nat, me: nat): Store {
    if Admit(s, now).Lead? then s.(inflight := Some(me)) else s
  }

  function Dropped(s: Store): Store {
    s.(entry := None, epoch := s.epoch + 1)
  }

  function Published(s: Store, startEpoch: nat, r: Fetched, now: nat): Store {
    if s.epoch == startEpoch then s.(entry := Some(Entry(r, now))) else s
  }

  function Released(s: Store): Store {
    s.(inflight := None)
  }

  /** The mutex-guarded fields, updated in place; every method is one critical section. */
  class ListCacheStore {
    const ttl: nat
    var entry: Option<Entry>
    var inflight: Option<nat>
    var epoch: nat

    ghost function View(): Store
      reads this
    {
      Store(ttl, entry, inflight, epoch)
    }

    constructor (ttl: nat)
      ensures View() == Store(ttl, None, None, 0)
    {
      this.ttl := ttl;
      entry, inflight, epoch := None, None, 0;
    }

    method Invalidate()
      modifies this
      ensures View() == Dropped(old(View()))
    {
      entry := None;
      epoch := epoch + 1;
    }

    method Enter(now: nat, me: nat) returns (a: Admission)
      modifies this
      ensures a == Admit(old(View()), now)
      ensures View() == Admitted(old(View()), now, me)
    {
      if entry.Some? && now - entry.value.fetchedAt < ttl {
        return Hit(entry.value.result);
      }
      if inflight.Some? {
        return Wait(inflight.value);
      }
      inflight := Some(me);
      return Lead(epoch);
    }

    method Publish(startEpoch: nat, r: Fetched, now: nat)
      modifies this
      ensures View() == Published(old(View()), startEpoch, r, now)
    {
      if epoch == startEpoch {
        entry := Some(Entry(r, now));
      }
    }

    method Release()
      modifies this
      ensures View() == Released(old(View()))
    {
      inflight := None;
    }
  }

  // ----- Goroutines -----

  datatype Return = Served(result: Fetched) | ContextError | Panicked

  /** Where a cached LIST call stands; `channel` is the call whose flight it waited on. */
  datatype Pc =
    | Entering
    | Leading(epoch: nat)
    | LeaderFetching(epoch: nat, fetch: nat)
    | LeaderFetched(epoch: nat, result: Fetched)
    | Unwinding(ret: Return)
    | Closing(ret: Return)
    | Waiting(channel: nat)
    | Woken(channel: nat)
    | Direct(channel: nat)
    | DirectFetching(channel: nat, fetch: nat)
    | Returning(ret: Return)

  datatype Event =
    | Called
    | FetchBegan(call: nat, waitedOn: Option<nat>)
    | FetchPanicked(call: nat)
    | Wrote
    | Invalidated
    | Returned(call: nat, ret: Return)

  datatype Action =
    | Call
    | Enter(call: nat)
    | BeginFetch(call: nat)
    | EndFetch(call: nat, outcome: Outcome)
    | PanicFetch(call: nat)
    | Publish(call: nat)
    | Reset(call: nat)
    | Close(call: nat)
    | Wake(call: nat)
    | Cancel(call: nat)
    | Recheck(call: nat)
    | Finish(call: nat)
    | Write
    | Invalidate
    | Tick

  datatype World = World(
    store: Store,
    calls: map<nat, Pc>,
    closed: set<nat>,
    log: seq<Event>,
    clock: nat)

  function Init(ttl: nat): World {
    World(Store(ttl, None, None, 0), map[], {}, [], 0)
  }

  /** The operator's own writes among some events. */
  function Writes(log: seq<Event>): nat {
    if log == [] then 0
    else Writes(log[..|log| - 1]) + if log[|log| - 1] == Wrote then 1 else 0
  }

  /** An upstream LIST reads at some moment between its begin and its end. */
  ghost predicate Plausible(log: seq<Event>, fetch: nat, o: Outcome) {
    fetch <= |log| && (o.Listed? ==> Writes(log[..fetch]) <= o.version <= Writes(log))
  }

  ghost predicate Enabled(w: World, a: Action) {
    match a
    case Call | Write | Invalidate | Tick => true
    case Enter(c) => c in w.calls && w.calls[c].Entering?
    case BeginFetch(c) => c in w.calls && (w.calls[c].Leading? || w.calls[c].Direct?)
    case EndFetch(c, o) =>
      c in w.calls && (w.calls[c].LeaderFetching? || w.calls[c].DirectFetching?) &&
      Plausible(w.log, w.calls[c].fetch, o)
    case PanicFetch(c) => c in w.calls && (w.calls[c].LeaderFetching? || w.calls[c].DirectFetching?)
    case Publish(c) => c in w.calls && w.calls[c].LeaderFetched?
    case Reset(c) => c in w.calls && w.calls[c].Unwinding?
    case Close(c) => c in w.calls && w.calls[c].Closing?
    case Wake(c) => c in w.calls && w.calls[c].Waiting? && w.calls[c].channel in w.closed
    case Cancel(c) => c in w.calls && w.calls[c].Waiting?
    case Recheck(c) => c in w.calls && w.calls[c].Woken?
    case Finish(c) => c in w.calls && w.calls[c].Returning?
  }

  ghost function Step(w: World, a: Action): World
    requires Enabled(w, a)
  {
    match a
    case Call => w.(calls := w.calls[|w.log| := Entering], log := w.log + [Called])
    case Enter(c) =>
      var s := Admitted(w.store, w.clock, c);
      (match Admit(w.store, w.clock)
       case Hit(r) => w.(calls := w.calls[c := Returning(Served(r))])
       case Wait(ch) => w.(calls := w.calls[c := Waiting(ch)])
       case Lead(e) => w.(store := s, calls := w.calls[c := Leading(e)]))
    case BeginFetch(c) =>
      (match w.calls[c]
       case Leading(e) =>
         w.(calls := w.calls[c := LeaderFetching(e, |w.log|)], log := w.log + [FetchBegan(c, None)])
       case Direct(ch) =>
         w.(calls := w.calls[c := DirectFetching(ch, |w.log|)], log := w.log + [FetchBegan(c, Some(ch))]))
    case EndFetch(c, o) =>
      (match w.calls[c]
       case LeaderFetching(e, f) => w.(calls := w.calls[c := LeaderFetched(e, Fetched(f, o))])
       case DirectFetching(ch, f) => w.(calls := w.calls[c := Returning(Served(Fetched(f, o)))]))
    case PanicFetch(c) =>
      var next := if w.calls[c].LeaderFetching? then Unwinding(Panicked) else Returning(Panicked);
      w.(calls := w.calls[c := next], log := w.log + [FetchPanicked(c)])
    case Publish(c) =>
      var LeaderFetched(e, r) := w.calls[c];
      w.(store := Published(w.store, e, r, w.clock), calls := w.calls[c := Unwinding(Served(r))])
    case Reset(c) => w.(store := Released(w.store), calls := w.calls[c := Closing(w.calls[c].ret)])
    case Close(c) => w.(closed := w.closed + {c}, calls := w.calls[c := Returning(w.calls[c].ret)])
    case Wake(c) => w.(calls := w.calls[c := Woken(w.calls[c].channel)])
    case Cancel(c) => w.(calls := w.calls[c := Returning(ContextError)])
    case Recheck(c) =>
      if w.store.entry.Some? then w.(calls := w.calls[c := Returning(Served(w.store.entry.value.result))])
      else w.(calls := w.calls[c := Direct(w.calls[c].channel)])
    case Finish(c) => w.(calls := w.calls - {c}, log := w.log + [Returned(c, w.calls[c].ret)])
    case Write => w.(log := w.log + [Wrote])
    case Invalidate => w.(store := Dropped(w.store), log := w.log + [Invalidated])
    case Tick => w.(clock := w.clock + 1)
  }

  /** Running a schedule; None when some step is not enabled. */
  ghost function Exec(w: World, acts: seq<Action>): Option<World>
    decreases |acts|
  {
    if acts == [] then Some(w)
    else if Enabled(w, acts[0]) then Exec(Step(w, acts[0]), acts[1..])
    else None
  }

  // ----- What every step keeps -----

  ghost predicate Quiet(log: seq<Event>, from: nat) {
    forall k :: from <= k < |log| ==> log[k] != Invalidated
  }

  /** Every invalidation before position `c` lies before the fetch. */
  ghost predicate Follows(log: seq<Event>, c: nat, fetch: nat) {
    forall i :: 0 <= i < c && i < |log| && log[i] == Invalidated ==> i < fetch
  }

  ghost predicate Genuine(log: seq<Event>, r: Fetched) {
    && r.fetch < |log|
    && log[r.fetch].FetchBegan?
    && (r.outcome.Listed? ==> Writes(log[..r.fetch]) <= r.outcome.version)
  }

  ghost predicate Sound(log: seq<Event>, c: nat, ret: Return) {
    ret.Served? ==> Genuine(log, ret.result) && Follows(log, c, ret.result.fetch)
  }

  ghost predicate CallOk(w: World, c: nat, pc: Pc) {
    && c < |w.log| && w.log[c] == Called
    && match pc {
         case Leading(e) => e <= w.store.epoch
         case LeaderFetching(e, f) =>
           c < f < |w.log| && w.log[f].FetchBegan? && e <= w.store.epoch &&
           (e == w.store.epoch ==> Quiet(w.log, f))
         case LeaderFetched(e, r) =>
           c < r.fetch && Genuine(w.log, r) && e <= w.store.epoch &&
           (e == w.store.epoch ==> Quiet(w.log, r.fetch))
         case DirectFetching(_, f) => c < f < |w.log| && w.log[f].FetchBegan?
         case Unwinding(ret) => Sound(w.log, c, ret)
         case Closing(ret) => Sound(w.log, c, ret)
         case Returning(ret) => Sound(w.log, c, ret)
         case _ => true
       }
  }

  /** The stored entry was fetched after the last invalidation. */
  ghost predicate EntryOk(w: World) {
    w.store.entry.Some? ==>
      Genuine(w.log, w.store.entry.value.result) && Quiet(w.log, w.store.entry.value.result.fetch)
  }

  ghost predicate ReturnOk(log: seq<Event>, k: nat)
    requires k < |log|
  {
    log[k].Returned? ==>
      && log[k].call < k && log[log[k].call] == Called
      && Sound(log[..k], log[k].call, log[k].ret)
  }

  ghost predicate Consistent(w: World) {
    && EntryOk(w)
    && (forall c :: c in w.calls ==> CallOk(w, c, w.calls[c]))
    && (forall k :: 0 <= k < |w.log| ==> ReturnOk(w.log, k))
  }

  predicate HoldsMarker(pc: Pc) {
    pc.Leading? || pc.LeaderFetching? || pc.LeaderFetched? || pc.Unwinding?
  }

  /** The in-flight marker names exactly the call that leads, whose channel is still open. */
  ghost predicate Marked(w: World) {
    && (forall c :: c in w.calls && HoldsMarker(w.calls[c]) ==> w.store.inflight == Some(c))
    && (w.store.inflight.Some? ==>
          w.store.inflight.value in w.calls && HoldsMarker(w.calls[w.store.inflight.value]))
  }

  ghost predicate Numbered(w: World) {
    && (forall c :: c in w.calls ==> c < |w.log|)
    && (forall c :: c in w.closed ==> c < |w.log|)
    && (forall c :: c in w.calls && c in w.closed ==> w.calls[c].Returning?)
  }

  ghost predicate WaiterOk(w: World, pc: Pc) {
    && (pc.Waiting? ==> Attended(w, pc.channel))
    && (pc.Woken? || pc.Direct? || pc.DirectFetching? ==> pc.channel in w.closed)
  }

  ghost predicate SingleFlight(w: World) {
    && Marked(w)
    && Numbered(w)
    && (forall c :: c in w.calls ==> WaiterOk(w, w.calls[c]))
  }

  /** A waiter's channel is closed, or its leader is in flight, or about to close it. */
  ghost predicate Attended(w: World, ch: nat) {
    ch in w.closed || (ch in w.calls && (HoldsMarker(w.calls[ch]) || w.calls[ch].Closing?))
  }

  /** An invalidation landed after call `ch` started, or its fetch panicked. */
  ghost predicate Excused(log: seq<Event>, ch: nat) {
    exists k :: ch < k < |log| && (log[k] == Invalidated || log[k] == FetchPanicked(ch))
  }

  ghost predicate ExcuseOk(w: World, c: nat, pc: Pc) {
    match pc
    case Leading(e) => e < w.store.epoch ==> Excused(w.log, c)
    case LeaderFetching(e, _) => e < w.store.epoch ==> Excused(w.log, c)
    case LeaderFetched(e, _) => e < w.store.epoch ==> Excused(w.log, c)
    case Unwinding(_) => w.store.entry.Some? || Excused(w.log, c)
    case Closing(_) => w.store.entry.Some? || Excused(w.log, c)
    case Direct(ch) => Excused(w.log, ch)
    case DirectFetching(ch, _) => Excused(w.log, ch)
    case _ => true
  }

  /** Nobody fetches for itself without a reason. */
  ghost predicate Excuses(w: World) {
    && (forall ch :: ch in w.closed ==> w.store.entry.Some? || Excused(w.log, ch))
    && (forall c :: c in w.calls ==> ExcuseOk(w, c, w.calls[c]))
    && (forall k :: 0 <= k < |w.log| && w.log[k].FetchBegan? && w.log[k].waitedOn.Some? ==>
          Excused(w.log[..k], w.log[k].waitedOn.value))
  }

  ghost predicate Inv(w: World) {
    Consistent(w) && SingleFlight(w) && Excuses(w)
  }

  // ----- Appending to the log -----

  /** What a step may do to the log and the epoch. */
  ghost predicate Grown(w: World, w': World) {
    || (w'.log == w.log && w'.store.epoch == w.store.epoch)
    || (exists e :: w'.log == w.log + [e] &&
          w'.store.epoch == w.store.epoch + if e == Invalidated then 1 else 0)
  }

  lemma StepGrows(w: World, a: Action)
    requires Enabled(w, a)
    ensures Grown(w, Step(w, a))
  {
    var w' := Step(w, a);
    if w'.log != w.log {
      assert w'.log == w.log + [w'.log[|w.log|]];
    }
  }

  lemma GrownLog(w: World, w': World)
    requires Grown(w, w')
    ensures |w.log| <= |w'.log| && w.store.epoch <= w'.store.epoch
    ensures forall k :: 0 <= k < |w.log| ==> w'.log[k] == w.log[k]
    ensures forall k :: 0 <= k <= |w.log| ==> w'.log[..k] == w.log[..k]
    ensures w'.store.epoch == w.store.epoch ==>
              forall k :: |w.log| <= k < |w'.log| ==> w'.log[k] != Invalidated
  {
    if w'.log != w.log {
      var e :| w'.log == w.log + [e] &&
               w'.store.epoch == w.store.epoch + if e == Invalidated then 1 else 0;
      assert forall k :: 0 <= k <= |w.log| ==> w'.log[..k] == w.log[..k];
    }
  }

  lemma ExcusedGrows(w: World, w': World, ch: nat)
    requires Grown(w, w') && Excused(w.log, ch)
    ensures Excused(w'.log, ch)
  {
    GrownLog(w, w');
    var k :| ch < k < |w.log| && (w.log[k] == Invalidated || w.log[k] == FetchPanicked(ch));
    assert w'.log[k] == w.log[k];
  }

  /** A call that does not move stays consistent. */
  lemma CallKept(w: World, w': World, c: nat, pc: Pc)
    requires Grown(w, w') && CallOk(w, c, pc)
    ensures CallOk(w', c, pc)
  {
    GrownLog(w, w');
  }

  lemma EntryKept(w: World, w': World)
    requires Grown(w, w') && EntryOk(w)
    requires w'.store.entry == w.store.entry && w'.store.epoch == w.store.epoch
    ensures EntryOk(w')
  {
    GrownLog(w, w');
  }

  /** The call a step moves ends up consistent. */
  lemma CallMoved(w: World, a: Action, c: nat)
    requires Consistent(w) && Enabled(w, a)
    requires c in Step(w, a).calls && !(c in w.calls && w.calls[c] == Step(w, a).calls[c])
    ensures CallOk(Step(w, a), c, Step(w, a).calls[c])
  {
    StepGrows(w, a);
    GrownLog(w, Step(w, a));
    if c in w.calls { assert CallOk(w, c, w.calls[c]); }
  }

  lemma ReturnsKept(w: World, a: Action, k: nat)
    requires Consistent(w) && Enabled(w, a) && k < |Step(w, a).log|
    ensures ReturnOk(Step(w, a).log, k)
  {
    var w' := Step(w, a);
    StepGrows(w, a);
    GrownLog(w, w');
    if k < |w.log| {
      assert ReturnOk(w.log, k);
      assert w'.log[..k] == w.log[..k];
    } else {
      assert w'.log[..k] == w.log[..|w.log|] == w.log;
      if a.Finish? { assert CallOk(w, a.call, w.calls[a.call]); }
    }
  }

  lemma StepConsistent(w: World, a: Action)
    requires Consistent(w) && Enabled(w, a)
    ensures Consistent(Step(w, a))
  {
    var w' := Step(w, a);
    StepGrows(w, a);
    assert EntryOk(w') by {
      if w'.store.entry == w.store.entry && w'.store.epoch == w.store.epoch {
        EntryKept(w, w');
      } else if a.Publish? {
        assert CallOk(w, a.call, w.calls[a.call]);
      }
    }
    forall c | c in w'.calls ensures CallOk(w', c, w'.calls[c]) {
      if c in w.calls && w.calls[c] == w'.calls[c] {
        CallKept(w, w', c, w.calls[c]);
      } else {
        CallMoved(w, a, c);
      }
    }
    forall k | 0 <= k < |w'.log| ensures ReturnOk(w'.log, k) {
      ReturnsKept(w, a, k);
    }
  }

  lemma StepNumbered(w: World, a: Action)
    requires Numbered(w) && Enabled(w, a)
    ensures Numbered(Step(w, a))
  {
    StepGrows(w, a);
    GrownLog(w, Step(w, a));
  }

  lemma StepMarked(w: World, a: Action)
    requires Marked(w) && Numbered(w) && Enabled(w, a)
    ensures Marked(Step(w, a))
  {
    match a
    case Call =>
    case Enter(_) =>
    case BeginFetch(_) =>
    case EndFetch(_, _) =>
    case PanicFetch(_) =>
    case Publish(_) =>
    case Reset(_) =>
    case _ =>
  }

  /** Whoever attends a channel keeps attending it until it is closed. */
  lemma AttendedKept(w: World, a: Action, ch: nat)
    requires Numbered(w) && Enabled(w, a) && Attended(w, ch)
    ensures Attended(Step(w, a), ch)
  {
  }

  lemma StepSingleFlight(w: World, a: Action)
    requires SingleFlight(w) && Enabled(w, a)
    ensures SingleFlight(Step(w, a))
  {
    var w' := Step(w, a);
    StepNumbered(w, a);
    StepMarked(w, a);
    forall c | c in w'.calls ensures WaiterOk(w', w'.calls[c]) {
      if c in w.calls {
        assert WaiterOk(w, w.calls[c]);
        if w.calls[c].Waiting? { AttendedKept(w, a, w.calls[c].channel); }
        if a == Enter(c) && w'.calls[c].Waiting? {
          assert Attended(w, w'.calls[c].channel);
          AttendedKept(w, a, w'.calls[c].channel);
        }
      }
    }
  }

  lemma InvalidationExcuses(w: World, ch: nat)
    requires ch < |w.log|
    ensures Excused(Step(w, Invalidate).log, ch)
  {
    assert Step(w, Invalidate).log[|w.log|] == Invalidated;
  }

  /** A call that does not move keeps its excuse. */
  lemma ExcuseKept(w: World, a: Action, c: nat)
    requires Enabled(w, a) && c in w.calls && c < |w.log| && ExcuseOk(w, c, w.calls[c])
    ensures ExcuseOk(Step(w, a), c, w.calls[c])
  {
    var w' := Step(w, a);
    StepGrows(w, a);
    if Excused(w.log, c) { ExcusedGrows(w, w', c); }
    if w.calls[c].Direct? || w.calls[c].DirectFetching? { ExcusedGrows(w, w', w.calls[c].channel); }
    if a.Invalidate? { InvalidationExcuses(w, c); }
  }

  lemma ExcuseMoved(w: World, a: Action, c: nat)
    requires Inv(w) && Enabled(w, a) && c in Step(w, a).calls
    requires !(c in w.calls && w.calls[c] == Step(w, a).calls[c])
    ensures ExcuseOk(Step(w, a), c, Step(w, a).calls[c])
  {
    var w' := Step(w, a);
    StepGrows(w, a);
    if c in w.calls {
      assert ExcuseOk(w, c, w.calls[c]) && CallOk(w, c, w.calls[c]) && WaiterOk(w, w.calls[c]);
      if Excused(w.log, c) { ExcusedGrows(w, w', c); }
      if w.calls[c].Direct? { ExcusedGrows(w, w', w.calls[c].channel); }
      if a == PanicFetch(c) { assert w'.log[|w.log|] == FetchPanicked(c); }
    }
  }

  lemma StepExcuses(w: World, a: Action)
    requires Inv(w) && Enabled(w, a)
    ensures Excuses(Step(w, a))
  {
    var w' := Step(w, a);
    StepGrows(w, a);
    GrownLog(w, w');
    forall ch | ch in w'.closed ensures w'.store.entry.Some? || Excused(w'.log, ch) {
      if a.Close? && ch == a.call { assert ExcuseOk(w, ch, w.calls[ch]); }
      if Excused(w.log, ch) { ExcusedGrows(w, w', ch); }
      if a.Invalidate? { InvalidationExcuses(w, ch); }
    }
    forall c | c in w'.calls ensures ExcuseOk(w', c, w'.calls[c]) {
      if c in w.calls && w.calls[c] == w'.calls[c] {
        ExcuseKept(w, a, c);
      } else {
        ExcuseMoved(w, a, c);
      }
    }
    forall k | 0 <= k < |w'.log| && w'.log[k].FetchBegan? && w'.log[k].waitedOn.Some?
      ensures Excused(w'.log[..k], w'.log[k].waitedOn.value)
    {
      if k < |w.log| {
        assert w'.log[..k] == w.log[..k];
      } else {
        assert w'.log[..k] == w.log[..|w.log|] == w.log;
        assert ExcuseOk(w, a.call, w.calls[a.call]);
      }
    }
  }

  lemma {:induction false} RunKeeps(w: World, acts: seq<Action>)
    requires Inv(w)
    ensures Exec(w, acts).Some? ==> Inv(Exec(w, acts).value)
    decreases |acts|
  {
    if acts != [] && Enabled(w, acts[0]) {
      StepConsistent(w, acts[0]);
      StepSingleFlight(w, acts[0]);
      StepExcuses(w, acts[0]);
      RunKeeps(Step(w, acts[0]), acts[1..]);
    }
  }

  lemma Reachable(ttl: nat, acts: seq<Action>)
    ensures Exec(Init(ttl), acts).Some? ==> Inv(Exec(Init(ttl), acts).value)
  {
    RunKeeps(Init(ttl), acts);
  }

  // ----- The theorems -----

  lemma {:induction false} WritesMonotone(log: seq<Event>, i: nat, j: nat)
    requires i <= j <= |log|
    ensures Writes(log[..i]) <= Writes(log[..j])
    decreases j
  {
    if i < j {
      WritesMonotone(log, i, j - 1);
      assert log[..j][..j - 1] == log[..j - 1];
    }
  }

  /**
   Read-your-writes: a call that starts after an invalidation and is served a result gets one
   whose fetch began after that invalidation and reflects every write made before it.
   */
  lemma ReadYourWrites(ttl: nat, acts: seq<Action>, i: nat, k: nat)
    requires Exec(Init(ttl), acts).Some?
    requires var log := Exec(Init(ttl), acts).value.log;
             && k < |log| && log[k].Returned? && log[k].ret.Served?
             && i < log[k].call && i < |log| && log[i] == Invalidated
    ensures var log := Exec(Init(ttl), acts).value.log;
            var r := log[k].ret.result;
            && i < r.fetch < k && log[r.fetch].FetchBegan?
            && (r.outcome.Listed? ==> Writes(log[..i]) <= r.outcome.version)
  {
    Reachable(ttl, acts);
    var log := Exec(Init(ttl), acts).value.log;
    var r := log[k].ret.result;
    assert ReturnOk(log, k);
    assert log[..k][i] == Invalidated;
    WritesMonotone(log, i, r.fetch);
    assert log[..k][..r.fetch] == log[..r.fetch];
  }

  /** At most one leader has a fetch in flight, or is between taking and resetting the marker. */
  lemma OneLeader(ttl: nat, acts: seq<Action>, c: nat, d: nat)
    requires Exec(Init(ttl), acts).Some?
    requires var w := Exec(Init(ttl), acts).value;
             && c in w.calls && HoldsMarker(w.calls[c])
             && d in w.calls && HoldsMarker(w.calls[d])
    ensures c == d
  {
    Reachable(ttl, acts);
  }

  /** A waiter that goes upstream itself was let down by an invalidation or by its leader's panic. */
  lemma SelfFetchHasCause(ttl: nat, acts: seq<Action>, k: nat)
    requires Exec(Init(ttl), acts).Some?
    requires var log := Exec(Init(ttl), acts).value.log;
             k < |log| && log[k].FetchBegan? && log[k].waitedOn.Some?
    ensures var log := Exec(Init(ttl), acts).value.log;
            var ch := log[k].waitedOn.value;
            exists j :: ch < j < k && (log[j] == Invalidated || log[j] == FetchPanicked(ch))
  {
    Reachable(ttl, acts);
    var log := Exec(Init(ttl), acts).value.log;
    var ch := log[k].waitedOn.value;
    assert Excused(log[..k], ch);
    var j :| ch < j < |log[..k]| && (log[..k][j] == Invalidated || log[..k][j] == FetchPanicked(ch));
    assert log[j] == log[..k][j];
  }

  /** The leader's own remaining steps, whatever point it has reached. */
  ghost function LeaderRest(pc: Pc, me: nat): seq<Action> {
    match pc
    case Leading(_) => [BeginFetch(me), EndFetch(me, Errored), Publish(me), Reset(me), Close(me)]
    case LeaderFetching(_, _) => [EndFetch(me, Errored), Publish(me), Reset(me), Close(me)]
    case LeaderFetched(_, _) => [Publish(me), Reset(me), Close(me)]
    case Unwinding(_) => [Reset(me), Close(me)]
    case Closing(_) => [Close(me)]
    case _ => []
  }

  lemma {:induction false} LeaderCloses(w: World, ch: nat)
    requires Consistent(w)
    requires ch in w.calls && (HoldsMarker(w.calls[ch]) || w.calls[ch].Closing?)
    ensures Exec(w, LeaderRest(w.calls[ch], ch)).Some?
    ensures ch in Exec(w, LeaderRest(w.calls[ch], ch)).value.closed
    decreases |LeaderRest(w.calls[ch], ch)|
  {
    var rest := LeaderRest(w.calls[ch], ch);
    assert CallOk(w, ch, w.calls[ch]);
    assert Enabled(w, rest[0]);
    var w' := Step(w, rest[0]);
    StepConsistent(w, rest[0]);
    if w.calls[ch].Closing? {
      assert rest[1..] == [];
    } else {
      assert rest[1..] == LeaderRest(w'.calls[ch], ch);
      LeaderCloses(w', ch);
    }
  }

  /** No stranding: from any reachable state a waiter's channel is closed, or its leader's steps close it. */
  lemma NoStrandedWaiter(ttl: nat, acts: seq<Action>, c: nat)
    requires Exec(Init(ttl), acts).Some?
    requires var w := Exec(Init(ttl), acts).value; c in w.calls && w.calls[c].Waiting?
    ensures var w := Exec(Init(ttl), acts).value;
            var ch := w.calls[c].channel;
            || ch in w.closed
            || (&& ch in w.calls
                && Exec(w, LeaderRest(w.calls[ch], ch)).Some?
                && ch in Exec(w, LeaderRest(w.calls[ch], ch)).value.closed)
  {
    Reachable(ttl, acts);
    var w := Exec(Init(ttl), acts).value;
    var ch := w.calls[c].channel;
    assert Attended(w, ch);
    if ch !in w.closed { LeaderCloses(w, ch); }
  }

  /** A waiter's channel is the in-flight one or closed, exactly unless its leader stands between reset and close. */
  lemma InFlightOrClosedIff(ttl: nat, acts: seq<Action>, c: nat)
    requires Exec(Init(ttl), acts).Some?
    requires var w := Exec(Init(ttl), acts).value; c in w.calls && w.calls[c].Waiting?
    ensures var w := Exec(Init(ttl), acts).value;
            var ch := w.calls[c].channel;
            (w.store.inflight == Some(ch) || ch in w.closed) <==> !(ch in w.calls && w.calls[ch].Closing?)
  {
    Reachable(ttl, acts);
    var w := Exec(Init(ttl), acts).value;
    assert WaiterOk(w, w.calls[c]);
  }

  /**
   Between resetting the marker and closing the channel a waiter's channel is neither the
   in-flight one nor closed, so that shorter claim is false of the code.
   */
  lemma ChannelBetweenResetAndClose(ttl: nat)
    ensures var acts := [Call, Enter(0), Call, Enter(1), BeginFetch(0), EndFetch(0, Errored), Publish(0), Reset(0)];
            && Exec(Init(ttl), acts).Some?
            && var w := Exec(Init(ttl), acts).value;
               && 1 in w.calls && w.calls[1] == Waiting(0)
               && 0 !in w.closed && w.store.inflight == None
  {
    TwoJoin(ttl);
    var w := Exec(Init(ttl), TWO_JOIN).value;
    var rest := [BeginFetch(0), EndFetch(0, Errored), Publish(0), Reset(0)];
    var w1 := Step(w, rest[0]);
    var w2 := Step(w1, rest[1]);
    var w3 := Step(w2, rest[2]);
    var w4 := Step(w3, rest[3]);
    assert Exec(w4, []) == Some(w4);
    assert rest[3..] == [Reset(0)] && rest[3..][1..] == [] && Exec(w3, rest[3..]) == Some(w4);
    assert rest[2..][1..] == rest[3..] && Exec(w2, rest[2..]) == Some(w4);
    assert rest[1..][1..] == rest[2..] && Exec(w1, rest[1..]) == Some(w4);
    assert Exec(w, rest) == Some(w4);
    ExecJoin(Init(ttl), TWO_JOIN, rest);
    assert TWO_JOIN + rest == [Call, Enter(0), Call, Enter(1), BeginFetch(0), EndFetch(0, Errored), Publish(0), Reset(0)];
  }

  const TWO_JOIN := [Call, Enter(0), Call, Enter(1)]

  /** The first caller leads, the second waits on its channel. */
  lemma TwoJoin(ttl: nat)
    ensures Exec(Init(ttl), TWO_JOIN).Some?
    ensures Exec(Init(ttl), TWO_JOIN).value == Step(Step(Step(Step(Init(ttl), Call), Enter(0)), Call), Enter(1))
  {
    var w0 := Init(ttl);
    var w1 := Step(w0, Call);
    var w2 := Step(w1, Enter(0));
    var w3 := Step(w2, Call);
    var w4 := Step(w3, Enter(1));
    assert Exec(w4, []) == Some(w4);
    assert TWO_JOIN[3..] == [Enter(1)] && TWO_JOIN[3..][1..] == [] && Exec(w3, TWO_JOIN[3..]) == Some(w4);
    assert TWO_JOIN[2..][1..] == TWO_JOIN[3..] && Exec(w2, TWO_JOIN[2..]) == Some(w4);
    assert TWO_JOIN[1..][1..] == TWO_JOIN[2..] && Exec(w1, TWO_JOIN[1..]) == Some(w4);
  }

  lemma {:induction false} ExecJoin(w: World, a: seq<Action>, b: seq<Action>)
    requires Exec(w, a).Some?
    ensures Exec(w, a + b) == Exec(Exec(w, a).value, b)
    decreases |a|
  {
    if a == [] {
      assert a + b == b;
    } else {
      assert (a + b)[0] == a[0] && (a + b)[1..] == a[1..] + b;
      ExecJoin(Step(w, a[0]), a[1..], b);
    }
  }

  // ----- Age -----

  /** What a run shows of the cache, with clock readings: results stored, drops, and calls served at entry or not. */
  datatype Stamp =
    | StoredAt(result: Fetched, at: nat)
    | Emptied
    | ServedAt(result: Fetched, at: nat)
    | PassedAt(at: nat)

  ghost function StampOf(w: World, a: Action): Option<Stamp>
    requires Enabled(w, a)
  {
    match a
    case Enter(c) =>
      (match Step(w, a).calls[c]
       case Returning(ret) => if ret.Served? then Some(ServedAt(ret.result, w.clock)) else None
       case _ => Some(PassedAt(w.clock)))
    case Publish(c) =>
      if w.calls[c].epoch == w.store.epoch then Some(StoredAt(w.calls[c].result, w.clock)) else None
    case Invalidate => Some(Emptied)
    case _ => None
  }

  ghost function Stamps(w: World, acts: seq<Action>): seq<Stamp>
    decreases |acts|
  {
    if acts == [] || !Enabled(w, acts[0]) then []
    else
      var rest := Stamps(Step(w, acts[0]), acts[1..]);
      var s := StampOf(w, acts[0]);
      if s.Some? then [s.value] + rest else rest
  }

  predicate Changes(s: Stamp) { s.StoredAt? || s.Emptied? }

  /** The result stored at j is still the stored one when stamp i is made. */
  ghost predicate Stands(stamps: seq<Stamp>, i: nat, j: nat) {
    j < i <= |stamps| && stamps[j].StoredAt? && forall k :: j < k < i ==> !Changes(stamps[k])
  }

  /** A call is served at entry exactly while the result that stands is younger than the TTL, and gets that result. */
  ghost predicate AgeOk(ttl: nat, stamps: seq<Stamp>, i: nat)
    requires i < |stamps|
  {
    && (stamps[i].ServedAt? ==>
          exists j: nat :: Stands(stamps, i, j) && stamps[i].at < stamps[j].at + ttl && stamps[i].result == stamps[j].result)
    && (stamps[i].PassedAt? ==> forall j: nat :: Stands(stamps, i, j) ==> stamps[i].at >= stamps[j].at + ttl)
  }

  /** The entry is the result that stands, with the clock at which it was stored. */
  ghost predicate Kept(ttl: nat, w: World, past: seq<Stamp>) {
    && w.store.ttl == ttl
    && (w.store.entry.Some? ==>
          exists j: nat :: Stands(past, |past|, j) && past[j] == StoredAt(w.store.entry.value.result, w.store.entry.value.fetchedAt))
    && (w.store.entry.None? ==> forall j: nat :: !Stands(past, |past|, j))
    && (forall i: nat :: i < |past| ==> AgeOk(ttl, past, i))
  }

  lemma StandsOnce(stamps: seq<Stamp>, i: nat, j: nat, k: nat)
    requires Stands(stamps, i, j) && Stands(stamps, i, k)
    ensures j == k
  {
  }

  lemma StandsKept(past: seq<Stamp>, s: Stamp, i: nat, j: nat)
    ensures i <= |past| ==> (Stands(past + [s], i, j) <==> Stands(past, i, j))
    ensures Stands(past + [s], |past| + 1, j) <==> if Changes(s) then j == |past| && s.StoredAt? else Stands(past, |past|, j)
  {
    var more := past + [s];
    assert more[|past|] == s && forall k :: 0 <= k < |past| ==> more[k] == past[k];
  }

  lemma AgeKept(ttl: nat, past: seq<Stamp>, s: Stamp, i: nat)
    requires i < |past| && AgeOk(ttl, past, i)
    ensures AgeOk(ttl, past + [s], i)
  {
    var more := past + [s];
    assert more[i] == past[i];
    if past[i].ServedAt? {
      var j: nat :| Stands(past, i, j) && past[i].at < past[j].at + ttl && past[i].result == past[j].result;
      StandsKept(past, s, i, j);
      assert more[j] == past[j];
    } else if past[i].PassedAt? {
      forall j: nat | Stands(more, i, j) ensures more[i].at >= more[j].at + ttl {
        StandsKept(past, s, i, j);
        assert more[j] == past[j];
      }
    }
  }

  /** The stamp a step makes is right. */
  lemma NewAge(ttl: nat, w: World, a: Action, past: seq<Stamp>)
    requires Kept(ttl, w, past) && Enabled(w, a) && StampOf(w, a).Some?
    ensures AgeOk(ttl, past + [StampOf(w, a).value], |past|)
  {
    var s := StampOf(w, a).value;
    var more := past + [s];
    if a.Enter? {
      if w.store.entry.Some? {
        var j: nat :| Stands(past, |past|, j) && past[j] == StoredAt(w.store.entry.value.result, w.store.entry.value.fetchedAt);
        StandsKept(past, s, |past|, j);
        assert more[j] == past[j];
        forall k: nat | Stands(more, |past|, k) ensures k == j { StandsOnce(more, |past|, j, k); }
      } else {
        forall k: nat ensures !Stands(more, |past|, k) { StandsKept(past, s, |past|, k); }
      }
    }
  }

  /** What stands after a step is what the step leaves in the entry. */
  lemma NewEntry(ttl: nat, w: World, a: Action, past: seq<Stamp>)
    requires Kept(ttl, w, past) && Enabled(w, a) && StampOf(w, a).Some?
    ensures var more, e := past + [StampOf(w, a).value], Step(w, a).store.entry;
            && (e.Some? ==> exists j: nat :: Stands(more, |more|, j) && more[j] == StoredAt(e.value.result, e.value.fetchedAt))
            && (e.None? ==> forall j: nat :: !Stands(more, |more|, j))
  {
    var s, e := StampOf(w, a).value, Step(w, a).store.entry;
    var more := past + [s];
    forall j: nat ensures Stands(more, |more|, j) <==> if Changes(s) then j == |past| && s.StoredAt? else Stands(past, |past|, j) {
      StandsKept(past, s, |past|, j);
    }
    if s.StoredAt? {
      assert Stands(more, |more|, |past|) && more[|past|] == s;
    } else if s.ServedAt? || s.PassedAt? {
      assert e == w.store.entry;
      if e.Some? {
        var j: nat :| Stands(past, |past|, j) && past[j] == StoredAt(e.value.result, e.value.fetchedAt);
        assert Stands(more, |more|, j) && more[j] == past[j];
      }
    }
  }

  lemma StepKept(ttl: nat, w: World, a: Action, past: seq<Stamp>)
    requires Kept(ttl, w, past) && Enabled(w, a)
    ensures Kept(ttl, Step(w, a), if StampOf(w, a).Some? then past + [StampOf(w, a).value] else past)
  {
    if StampOf(w, a).Some? {
      var s := StampOf(w, a).value;
      var more := past + [s];
      NewEntry(ttl, w, a, past);
      forall i: nat | i < |more| ensures AgeOk(ttl, more, i) {
        if i < |past| { AgeKept(ttl, past, s, i); } else { NewAge(ttl, w, a, past); }
      }
    } else {
      SilentStep(w, a);
    }
  }

  lemma SilentStep(w: World, a: Action)
    requires Enabled(w, a) && StampOf(w, a).None?
    ensures Step(w, a).store.entry == w.store.entry && Step(w, a).store.ttl == w.store.ttl
  {
  }

  lemma {:induction false} RunKept(ttl: nat, w: World, acts: seq<Action>, past: seq<Stamp>)
    requires Kept(ttl, w, past)
    ensures forall i: nat :: i < |past + Stamps(w, acts)| ==> AgeOk(ttl, past + Stamps(w, acts), i)
    decreases |acts|
  {
    if acts == [] || !Enabled(w, acts[0]) {
      assert past + Stamps(w, acts) == past;
    } else {
      var s, rest := StampOf(w, acts[0]), Stamps(Step(w, acts[0]), acts[1..]);
      var more := if s.Some? then past + [s.value] else past;
      StepKept(ttl, w, acts[0], past);
      RunKept(ttl, Step(w, acts[0]), acts[1..], more);
      assert past + Stamps(w, acts) == more + rest;
    }
  }

  /**
   The staleness bound, over every run: a call is served at entry exactly when the last result stored
   and not dropped since was stored less than the TTL ago, and it is served that result.
   */
  lemma ServedExactlyWhileYoung(ttl: nat, acts: seq<Action>, i: nat)
    requires i < |Stamps(Init(ttl), acts)|
    requires Stamps(Init(ttl), acts)[i].ServedAt? || Stamps(Init(ttl), acts)[i].PassedAt?
    ensures var st := Stamps(Init(ttl), acts);
            && (st[i].ServedAt? <==> exists j: nat :: Stands(st, i, j) && st[i].at < st[j].at + ttl)
            && (st[i].ServedAt? ==> forall j: nat :: Stands(st, i, j) ==> st[i].result == st[j].result)
  {
    RunKept(ttl, Init(ttl), acts, []);
    var st := Stamps(Init(ttl), acts);
    assert [] + st == st;
    assert AgeOk(ttl, st, i);
    if st[i].ServedAt? {
      var j: nat :| Stands(st, i, j) && st[i].at < st[j].at + ttl && st[i].result == st[j].result;
      forall k: nat | Stands(st, i, k) ensures st[i].result == st[k].result { StandsOnce(st, i, j, k); }
    }
  }
}
