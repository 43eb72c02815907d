/**
 The recreate circuit breaker: a sliding-window counter per CR, pruned in place whenever it is
 read or written. The class keeps the map of event lists; the lemmas show that pruning loses
 nothing the window can still see, and that check-then-record bounds the rate of recreates.
 Times are nanoseconds.
 */
module ChurnGuard {

  const WINDOW: int := 60_000_000_000

  const DEFAULT_LIMIT: int := 10

  /** The configured ceiling; an absent or non-positive one falls back to the default. */
  function Limit(configured: int): (n: int)
    ensures n > 0 && (configured > 0 ==> n == configured)
  {
    if configured <= 0 then DEFAULT_LIMIT else configured
  }

  /** The events strictly after a cutoff, in order. */
  function Since(events: seq<int>, cutoff: int): seq<int> {
    if events == [] then []
    else
      var rest, last := Since(events[..|events| - 1], cutoff), events[|events| - 1];
      if last > cutoff then rest + [last] else rest
  }

  /** The filter over the slice's own backing array: kept events move to the front, never past the reader. */
  method FilterInPlace(ev: array<int>, cutoff: int) returns (n: nat)
    modifies ev
    ensures n <= ev.Length && ev[..n] == Since(old(ev[..]), cutoff)
  {
    ghost var was := ev[..];
    n := 0;
    var i := 0;
    while i < ev.Length
      invariant 0 <= n <= i <= ev.Length
      invariant ev[..n] == Since(was[..i], cutoff)
      invariant ev[i..] == was[i..]
    {
      assert was[..i + 1][..i] == was[..i];
      var t := ev[i];
      assert t == was[i..][0] == was[i];
      ghost var rest := ev[i + 1..];
      assert rest == ev[i..][1..] == was[i..][1..] == was[i + 1..];
      if t > cutoff {
        ev[n] := t;
        assert ev[..n + 1] == ev[..n] + [t];
        n := n + 1;
      }
      assert ev[i + 1..] == rest;
      i := i + 1;
    }
    assert was[..i] == was;
  }

  // ----- The guard -----

  class Guard<Key(==)> {
    var events: map<Key, seq<int>>

    /** The recorded events of a key; none when the key is absent. */
    function Of(key: Key): seq<int>
      reads this
    {
      if key in events then events[key] else []
    }

    constructor ()
      ensures events == map[]
    {
      events := map[];
    }

    method PruneLocked(key: Key, cutoff: int) returns (n: nat)
      modifies this
      ensures Of(key) == Since(old(Of(key)), cutoff) && n == |Of(key)|
      ensures key in events <==> n > 0
      ensures events - {key} == old(events) - {key}
    {
      var ev := Of(key);
      var backing := new int[|ev|](i requires 0 <= i < |ev| => ev[i]);
      assert backing[..] == ev;
      n := FilterInPlace(backing, cutoff);
      if n == 0 {
        events := events - {key};
      } else {
        events := events[key := backing[..n]];
      }
    }

    method Count(key: Key, now: int) returns (n: nat)
      modifies this
      ensures Of(key) == Since(old(Of(key)), now - WINDOW) && n == |Of(key)|
      ensures events - {key} == old(events) - {key}
    {
      n := PruneLocked(key, now - WINDOW);
    }

    method Record(key: Key, now: int) returns (n: nat)
      modifies this
      ensures Of(key) == Since(old(Of(key)), now - WINDOW) + [now] && n == |Of(key)|
      ensures events - {key} == old(events) - {key}
    {
      var _ := PruneLocked(key, now - WINDOW);
      events := events[key := Of(key) + [now]];
      n := |events[key]|;
    }

    method Forget(key: Key)
      modifies this
      ensures Of(key) == [] && events - {key} == old(events) - {key}
    {
      events := events - {key};
    }
  }

  // ----- Pruning loses nothing -----

  datatype Op = Count(now: int) | Record(now: int) | Forget

  /** The pruned list of one key after some operations on it. */
  function Kept(ops: seq<Op>): seq<int> {
    if ops == [] then []
    else
      var before := Kept(ops[..|ops| - 1]);
      match ops[|ops| - 1]
      case Count(now) => Since(before, now - WINDOW)
      case Record(now) => Since(before, now - WINDOW) + [now]
      case Forget => []
  }

  /** Every recreate recorded since the last Forget. */
  function History(ops: seq<Op>): seq<int> {
    if ops == [] then []
    else
      var before := History(ops[..|ops| - 1]);
      match ops[|ops| - 1]
      case Count(_) => before
      case Record(now) => before + [now]
      case Forget => []
  }

  /** The clock never goes back, and has reached `now`. */
  predicate Monotone(ops: seq<Op>, now: int) {
    ops == [] ||
    var front, op := ops[..|ops| - 1], ops[|ops| - 1];
    if op.Forget? then Monotone(front, now) else op.now <= now && Monotone(front, op.now)
  }

  lemma {:induction false} SinceAppend(events: seq<int>, t: int, cutoff: int)
    ensures Since(events + [t], cutoff) == Since(events, cutoff) + if t > cutoff then [t] else []
  {
    assert (events + [t])[..|events|] == events;
  }

  lemma {:induction false} SinceTwice(events: seq<int>, c: int, d: int)
    requires c <= d
    ensures Since(Since(events, c), d) == Since(events, d)
  {
    if events != [] {
      var front, last := events[..|events| - 1], events[|events| - 1];
      SinceTwice(front, c, d);
      if last > c { SinceAppend(Since(front, c), last, d); }
    }
  }

  /** What the window can still see of the list is what it can see of the history. */
  lemma {:induction false} KeptIsRecentHistory(ops: seq<Op>, now: int)
    requires Monotone(ops, now)
    ensures Since(Kept(ops), now - WINDOW) == Since(History(ops), now - WINDOW)
  {
    if ops != [] && !ops[|ops| - 1].Forget? {
      var front, op := ops[..|ops| - 1], ops[|ops| - 1];
      KeptIsRecentHistory(front, op.now);
      var c, d := op.now - WINDOW, now - WINDOW;
      PrunedSince(Kept(front), History(front), c, d, op.now);
      if op.Record? {
        assert Kept(ops) == Since(Kept(front), c) + [op.now] && History(ops) == History(front) + [op.now];
      } else {
        assert Kept(ops) == Since(Kept(front), c) && History(ops) == History(front);
      }
    }
  }

  /** Pruning at c, and then recording t, changes nothing the later cutoff d can see. */
  lemma PrunedSince(kept: seq<int>, history: seq<int>, c: int, d: int, t: int)
    requires c <= d && Since(kept, c) == Since(history, c)
    ensures Since(Since(kept, c), d) == Since(history, d)
    ensures Since(Since(kept, c) + [t], d) == Since(history + [t], d)
  {
    SinceTwice(history, c, d);
    SinceAppend(Since(kept, c), t, d);
    SinceAppend(history, t, d);
  }

  /** Counting on the pruned list is counting over the full history since the last Forget. */
  lemma CountIsExact(ops: seq<Op>, now: int)
    requires Monotone(ops, now)
    ensures Kept(ops + [Count(now)]) == Since(History(ops), now - WINDOW)
  {
    assert (ops + [Count(now)])[..|ops|] == ops;
    KeptIsRecentHistory(ops, now);
  }

  // ----- The rate bound -----

  /**
   A reconcile that wants to recreate: it checks at one time and, if let through and its create
   succeeds, records at a later one.
   */
  datatype Attempt = Attempt(check: int, record: int, creates: bool)

  /** The operations that a sequence of attempts performs: an attempt refused or failed only counts. */
  function Performed(attempts: seq<Attempt>, limit: int): seq<Op> {
    if attempts == [] then []
    else
      var before := Performed(attempts[..|attempts| - 1], limit);
      var a := attempts[|attempts| - 1];
      var checked := before + [Count(a.check)];
      if |Kept(checked)| < limit && a.creates then checked + [Record(a.record)] else checked
  }

  ghost predicate Ordered(attempts: seq<Attempt>) {
    && (forall i :: 0 <= i < |attempts| ==> attempts[i].check <= attempts[i].record)
    && (forall i, j :: 0 <= i < j < |attempts| ==> attempts[i].record <= attempts[j].check)
  }

  /** Recreates inside the window that opens at `start`. */
  function Within(history: seq<int>, start: int): nat {
    if history == [] then 0
    else
      var t := history[|history| - 1];
      Within(history[..|history| - 1], start) + if start < t <= start + WINDOW then 1 else 0
  }

  lemma {:induction false} WithinIsSeen(history: seq<int>, start: int, cutoff: int)
    requires cutoff <= start
    ensures Within(history, start) <= |Since(history, cutoff)|
  {
    if history != [] { WithinIsSeen(history[..|history| - 1], start, cutoff); }
  }

  lemma {:induction false} PerformedMonotone(attempts: seq<Attempt>, limit: int, now: int)
    requires Ordered(attempts)
    requires attempts != [] ==> attempts[|attempts| - 1].record <= now
    ensures Monotone(Performed(attempts, limit), now)
  {
    if attempts != [] {
      var front, a := attempts[..|attempts| - 1], attempts[|attempts| - 1];
      var checked := Performed(front, limit) + [Count(a.check)];
      PerformedMonotone(front, limit, a.check);
      assert checked[..|checked| - 1] == Performed(front, limit);
      assert (checked + [Record(a.record)])[..|checked|] == checked;
    }
  }

  /** Between Forgets, no window of sixty seconds holds more than `limit` recreates. */
  lemma {:induction false} RateBound(attempts: seq<Attempt>, limit: int, start: int)
    requires Ordered(attempts) && limit > 0
    ensures Within(History(Performed(attempts, limit)), start) <= limit
  {
    if attempts != [] {
      var front, a := attempts[..|attempts| - 1], attempts[|attempts| - 1];
      var before := Performed(front, limit);
      var checked := before + [Count(a.check)];
      RateBound(front, limit, start);
      PerformedMonotone(front, limit, a.check);
      CountIsExact(before, a.check);
      assert checked[..|before|] == before && History(checked) == History(before);
      if |Kept(checked)| < limit && a.creates {
        assert (checked + [Record(a.record)])[..|checked|] == checked;
        assert (History(before) + [a.record])[..|History(before)|] == History(before);
        if start < a.record <= start + WINDOW {
          WithinIsSeen(History(before), start, a.check - WINDOW);
        }
      }
    }
  }
}
