/**
 The Model reconcile loop with its recreate breaker: before a CR that has lost its row creates
 another, it asks the churn guard, and a create that succeeds is recorded there.
 */
module RecreateBreaker {
  import opened Wrappers
  import M = ModelRows
  import C = ChurnGuard

  /** One pass over a CR, with the clock at its check and at its record. */
  datatype Occasion = Occasion(cr: M.Cr, env: M.Env, check: int, record: int)

  /** The pass reaches the create arm for a CR that has had a row. */
  predicate Asks(w: M.World, env: M.Env) {
    && !env.early && w.status.hash.Some? && w.status.observed != 0
    && (w.status.modelId.None? || (M.Answered(w.remote, env.probe).Rows? && w.status.modelId.value !in w.remote.rows))
  }

  predicate Succeeds(w: M.World, env: M.Env) {
    M.Answered(w.remote, env.lookup) == M.Rows([]) && env.create.reply.Ok?
  }

  /** The world, and the attempts the guard has seen; the guard itself is `C.Performed` of them. */
  datatype Guarded = Guarded(world: M.World, attempts: seq<C.Attempt>)

  function Environment(g: Guarded, o: Occasion, limit: int): M.Env {
    var checked := C.Performed(g.attempts, limit) + [C.Count(o.check)];
    o.env.(throttled := |C.Kept(checked)| >= limit)
  }

  function Reached(w: M.World, occasions: seq<Occasion>, limit: int): Guarded {
    if occasions == [] then Guarded(w, [])
    else
      var g, o := Reached(w, occasions[..|occasions| - 1], limit), occasions[|occasions| - 1];
      var env := Environment(g, o, limit);
      Guarded(M.Pass(g.world, o.cr, env).world,
              if Asks(g.world, env) then g.attempts + [C.Attempt(o.check, o.record, Succeeds(g.world, env))] else g.attempts)
  }

  /** When rows were recreated: a CR that has had a row got a new one, acknowledged. */
  function Recreated(w: M.World, occasions: seq<Occasion>, limit: int): seq<int> {
    if occasions == [] then []
    else
      var before := Recreated(w, occasions[..|occasions| - 1], limit);
      var g, o := Reached(w, occasions[..|occasions| - 1], limit), occasions[|occasions| - 1];
      var env := Environment(g, o, limit);
      if Asks(g.world, env) && env.create.reply.Ok? && M.Pass(g.world, o.cr, env).world.remote.next > g.world.remote.next
      then before + [o.record] else before
  }

  ghost predicate InTime(occasions: seq<Occasion>) {
    && (forall i :: 0 <= i < |occasions| ==> occasions[i].check <= occasions[i].record)
    && (forall i, j :: 0 <= i < j < |occasions| ==> occasions[i].record <= occasions[j].check)
  }

  /** A pass that asks creates exactly when the breaker is closed, the name has no row, and the create goes out. */
  lemma CreatesExactlyWhen(w: M.World, cr: M.Cr, env: M.Env)
    requires Asks(w, env) && env.create.reply.Ok?
    ensures M.Pass(w, cr, env).world.remote.next > w.remote.next <==> !env.throttled && Succeeds(w, env)
  {
    if w.status.modelId.Some? {
      M.ListedIsStored(w.remote, env.probe, w.status.modelId.value);
    }
  }

  ghost predicate AllBy(attempts: seq<C.Attempt>, t: int) {
    forall i :: 0 <= i < |attempts| ==> attempts[i].record <= t
  }

  lemma OrderedAppend(attempts: seq<C.Attempt>, a: C.Attempt)
    requires C.Ordered(attempts) && AllBy(attempts, a.check) && a.check <= a.record
    ensures C.Ordered(attempts + [a]) && AllBy(attempts + [a], a.record)
  {
  }

  lemma {:induction false} AttemptsInTime(w: M.World, occasions: seq<Occasion>, limit: int, now: int)
    requires InTime(occasions) && (occasions != [] ==> occasions[|occasions| - 1].record <= now)
    ensures C.Ordered(Reached(w, occasions, limit).attempts) && AllBy(Reached(w, occasions, limit).attempts, now)
  {
    if occasions != [] {
      var last := |occasions| - 1;
      var front, o := occasions[..last], occasions[last];
      if last > 0 { assert front[last - 1] == occasions[last - 1]; }
      AttemptsInTime(w, front, limit, o.check);
      var g := Reached(w, front, limit);
      OrderedAppend(g.attempts, C.Attempt(o.check, o.record, Succeeds(g.world, Environment(g, o, limit))));
    }
  }

  lemma {:induction false} GuardSawThem(w: M.World, occasions: seq<Occasion>, limit: int)
    ensures Recreated(w, occasions, limit) == C.History(C.Performed(Reached(w, occasions, limit).attempts, limit))
  {
    if occasions != [] {
      var front, o := occasions[..|occasions| - 1], occasions[|occasions| - 1];
      GuardSawThem(w, front, limit);
      var g := Reached(w, front, limit);
      var env := Environment(g, o, limit);
      if Asks(g.world, env) {
        if env.create.reply.Ok? { CreatesExactlyWhen(g.world, o.cr, env); }
        GuardStep(g.attempts, C.Attempt(o.check, o.record, Succeeds(g.world, env)), limit);
      }
    }
  }

  /** One more attempt adds its record to the history exactly when it is let through and succeeds. */
  lemma GuardStep(attempts: seq<C.Attempt>, a: C.Attempt, limit: int)
    ensures var before := C.Performed(attempts, limit);
            C.History(C.Performed(attempts + [a], limit)) ==
              if |C.Kept(before + [C.Count(a.check)])| < limit && a.creates then C.History(before) + [a.record] else C.History(before)
  {
    var before := C.Performed(attempts, limit);
    var checked := before + [C.Count(a.check)];
    assert (attempts + [a])[..|attempts|] == attempts;
    assert checked[..|before|] == before;
    assert (checked + [C.Record(a.record)])[..|checked|] == checked;
  }

  /**
   Over every run of the loop with its breaker, whatever fails or vanishes, no window of sixty
   seconds sees more than `limit` rows recreated for the CR.
   */
  lemma RecreatesAreBounded(w: M.World, occasions: seq<Occasion>, limit: int, start: int)
    requires InTime(occasions) && limit > 0
    ensures C.Within(Recreated(w, occasions, limit), start) <= limit
  {
    AttemptsInTime(w, occasions, limit, if occasions == [] then 0 else occasions[|occasions| - 1].record);
    GuardSawThem(w, occasions, limit);
    C.RateBound(Reached(w, occasions, limit).attempts, limit, start);
  }
}
