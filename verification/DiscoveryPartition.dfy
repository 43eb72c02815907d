/**
 One refresh of a Discovery after its source was read: which children count as adopted, what becomes
 of each candidate, and which listed children are then vanish-deleted. The answers of the API server
 are inputs, so the statements hold for every combination of them.
 */
module DiscoveryPartition {
  import opened Wrappers
  import opened Text
  import opened DiscoveryAdoption

  /** The two reconcilers differ where noted. */
  datatype Kind = ModelDiscovery | McpServerDiscovery

  datatype Reading = ReadError | Answer(found: Option<Child>)

  datatype ApplyResult = Accepted | VersionConflict | AlreadyExists | Refused

  /** A candidate with what its name, its rendering and the API server have in store for it. */
  datatype Candidate = Candidate(
    name: string,
    validName: bool,
    renders: bool,
    first: Reading,
    apply: ApplyResult,
    second: Reading)

  datatype Bucket = Adopted | Skipped | Generated | Pending | Failed | Dropped

  datatype Verdict = Proceed | Skip | Deleting | Unreadable

  /** The MCP reconciler does not look at deletion; a foreign object is a skip there either way. */
  function VerdictOf(kind: Kind, me: Parent, r: Reading): Verdict {
    match r
    case ReadError => Unreadable
    case Answer(found) =>
      match Classify(found, me)
      case Absent => Proceed
      case Ours(_) => Proceed
      case BeingDeleted => if kind.ModelDiscovery? then Deleting else Skip
      case Explicit => Skip
      case Conflict => Skip
  }

  /** Where a candidate ends. Dropped: in no list at all, to be met again on the next pass. */
  function BucketOf(kind: Kind, me: Parent, adopted: set<string>, c: Candidate): Bucket {
    if c.name in adopted then Adopted
    else if kind.ModelDiscovery? && !c.validName then Skipped
    else if kind.ModelDiscovery? && !c.renders then Failed
    else match VerdictOf(kind, me, c.first)
      case Deleting => Dropped
      case Unreadable => Failed
      case Skip => Skipped
      case Proceed =>
        match c.apply
        case Accepted => Generated
        case VersionConflict => Pending
        case Refused => Failed
        case AlreadyExists => AfterAlreadyExists(kind, VerdictOf(kind, me, c.second))
  }

  /** Only the MCP reconciler keeps a retryable candidate among the desired names. */
  function AfterAlreadyExists(kind: Kind, v: Verdict): Bucket {
    match v
    case Deleting => Dropped
    case Unreadable => Failed
    case Skip => Skipped
    case Proceed => if kind.McpServerDiscovery? then Pending else Dropped
  }

  datatype Outcome = Outcome(
    adopted: set<string>,
    skipped: seq<string>,
    generated: seq<string>,
    pending: set<string>,
    failed: seq<string>,
    deletes: seq<Child>)

  // ----- The loops -----

  /** The names of the candidates that end in a bucket, in order. */
  function Select(kind: Kind, me: Parent, adopted: set<string>, cs: seq<Candidate>, b: Bucket): seq<string>
    decreases |cs|
  {
    if cs == [] then []
    else
      var rest, last := Select(kind, me, adopted, cs[..|cs| - 1], b), cs[|cs| - 1];
      if BucketOf(kind, me, adopted, last) == b then rest + [last.name] else rest
  }

  function AdoptedNames(listed: seq<Child>, me: Parent): seq<string> {
    if listed == [] then []
    else
      var rest, last := AdoptedNames(listed[..|listed| - 1], me), listed[|listed| - 1];
      if Owned(last.owners, me) then rest else rest + [last.name]
  }

  /** The listed children the vanish step tries to delete. */
  function Vanished(listed: seq<Child>, me: Parent, keep: set<string>): seq<Child> {
    if listed == [] then []
    else
      var rest, last := Vanished(listed[..|listed| - 1], me, keep), listed[|listed| - 1];
      if last.name !in keep && Owned(last.owners, me) then rest + [last] else rest
  }

  /** The adoption scan: one skip entry per child that is labelled but no longer owned. */
  method ScanAdopted(listed: seq<Child>, me: Parent) returns (adopted: set<string>, entries: seq<string>)
    ensures entries == AdoptedNames(listed, me) && adopted == Elements(entries)
  {
    adopted, entries := {}, [];
    for i := 0 to |listed|
      invariant entries == AdoptedNames(listed[..i], me) && adopted == Elements(entries)
    {
      assert listed[..i + 1][..i] == listed[..i];
      var owned := OwnedByThisDiscovery(listed[i], me);
      if !owned {
        adopted, entries := adopted + {listed[i].name}, entries + [listed[i].name];
      }
    }
    assert listed[..|listed|] == listed;
  }

  method Attempt(kind: Kind, me: Parent, adopted: set<string>, c: Candidate) returns (b: Bucket)
    ensures b == BucketOf(kind, me, adopted, c)
  {
    if c.name in adopted { return Adopted; }
    if kind.ModelDiscovery? {
      if !c.validName { return Skipped; }
      if !c.renders { return Failed; }
    }
    var v := VerdictOf(kind, me, c.first);
    if v.Deleting? { return Dropped; }
    if v.Unreadable? { return Failed; }
    if v.Skip? { return Skipped; }
    if c.apply.VersionConflict? { return Pending; }
    if c.apply.AlreadyExists? {
      var again := VerdictOf(kind, me, c.second);
      if again.Deleting? { return Dropped; }
      if again.Unreadable? { return Failed; }
      if again.Proceed? { return if kind.McpServerDiscovery? then Pending else Dropped; }
      return Skipped;
    }
    return if c.apply.Refused? then Failed else Generated;
  }

  /** The guard before a delete: ModelDiscovery only asks for some reference with its uid. */
  method GuardsOwnership(kind: Kind, child: Child, me: Parent, adopted: set<string>, ghost listed: seq<Child>) returns (ok: bool)
    requires adopted == Elements(AdoptedNames(listed, me)) && child in listed && child.name !in adopted
    ensures ok == Owned(child.owners, me)
  {
    AdoptedMembers(listed, me, child.name);
    if kind.ModelDiscovery? {
      ok := OwnedByDiscovery(child, me.uid);
    } else {
      ok := OwnedByThisDiscovery(child, me);
    }
  }

  method VanishLoop(kind: Kind, listed: seq<Child>, me: Parent, desired: set<string>, adopted: set<string>) returns (deletes: seq<Child>)
    requires adopted == Elements(AdoptedNames(listed, me))
    ensures deletes == Vanished(listed, me, desired + adopted)
  {
    deletes := [];
    for i := 0 to |listed|
      invariant deletes == Vanished(listed[..i], me, desired + adopted)
    {
      assert listed[..i + 1][..i] == listed[..i];
      if listed[i].name !in desired && listed[i].name !in adopted {
        var owned := GuardsOwnership(kind, listed[i], me, adopted, listed);
        if owned {
          deletes := deletes + [listed[i]];
        }
      }
    }
    assert listed[..|listed|] == listed;
  }

  /** What each list of a refresh holds; `skipped` starts with the names the source step skipped. */
  ghost predicate Outcomes(kind: Kind, me: Parent, listed: seq<Child>, preSkipped: seq<string>, cs: seq<Candidate>, out: Outcome) {
    && out.adopted == Elements(AdoptedNames(listed, me))
    && out.skipped == Sort(preSkipped + AdoptedNames(listed, me) + Select(kind, me, out.adopted, cs, Skipped), Itself)
    && out.generated == Sort(Select(kind, me, out.adopted, cs, Generated), Itself)
    && out.pending == Elements(Select(kind, me, out.adopted, cs, Pending))
    && out.failed == Sort(Select(kind, me, out.adopted, cs, Failed), Itself)
    && out.deletes == Vanished(listed, me, Elements(out.generated) + Elements(out.skipped) + out.pending + out.adopted)
  }

  method Refresh(kind: Kind, me: Parent, listed: seq<Child>, preSkipped: seq<string>, cs: seq<Candidate>) returns (out: Outcome)
    ensures Outcomes(kind, me, listed, preSkipped, cs, out)
  {
    var adopted, entries := ScanAdopted(listed, me);
    var skips, generated, failed: seq<string> := [], [], [];
    var pending: set<string> := {};
    for i := 0 to |cs|
      invariant skips == Select(kind, me, adopted, cs[..i], Skipped)
      invariant generated == Select(kind, me, adopted, cs[..i], Generated)
      invariant failed == Select(kind, me, adopted, cs[..i], Failed)
      invariant pending == Elements(Select(kind, me, adopted, cs[..i], Pending))
    {
      assert cs[..i + 1][..i] == cs[..i];
      var b := Attempt(kind, me, adopted, cs[i]);
      match b
      case Skipped => skips := skips + [cs[i].name];
      case Generated => generated := generated + [cs[i].name];
      case Failed => failed := failed + [cs[i].name];
      case Pending => pending := pending + {cs[i].name};
      case Adopted =>
      case Dropped =>
    }
    assert cs[..|cs|] == cs;
    generated := Sort(generated, Itself);
    failed := Sort(failed, Itself);
    var skipped := Sort(preSkipped + entries + skips, Itself);
    var desired := Elements(generated) + Elements(skipped) + pending;
    var deletes := VanishLoop(kind, listed, me, desired, adopted);
    out := Outcome(adopted, skipped, generated, pending, failed, deletes);
  }

  // ----- What the lists mean -----

  ghost predicate DistinctNames(cs: seq<Candidate>) {
    forall i, j :: 0 <= i < j < |cs| ==> cs[i].name != cs[j].name
  }

  ghost predicate DistinctChildren(listed: seq<Child>) {
    forall i, j :: 0 <= i < j < |listed| ==> listed[i].name != listed[j].name
  }

  lemma {:induction false} SelectMembers(kind: Kind, me: Parent, adopted: set<string>, cs: seq<Candidate>, b: Bucket, x: string)
    ensures x in Select(kind, me, adopted, cs, b) <==>
            exists i :: 0 <= i < |cs| && cs[i].name == x && BucketOf(kind, me, adopted, cs[i]) == b
    decreases |cs|
  {
    if cs != [] {
      var front := cs[..|cs| - 1];
      SelectMembers(kind, me, adopted, front, b, x);
      assert forall i :: 0 <= i < |front| ==> front[i] == cs[i];
    }
  }

  lemma {:induction false} AdoptedMembers(listed: seq<Child>, me: Parent, x: string)
    ensures x in AdoptedNames(listed, me) <==>
            exists i :: 0 <= i < |listed| && listed[i].name == x && !Owned(listed[i].owners, me)
  {
    if listed != [] {
      var front := listed[..|listed| - 1];
      AdoptedMembers(front, me, x);
      assert forall i :: 0 <= i < |front| ==> front[i] == listed[i];
    }
  }

  lemma {:induction false} VanishedMembers(listed: seq<Child>, me: Parent, keep: set<string>, d: Child)
    ensures d in Vanished(listed, me, keep) <==> d in listed && d.name !in keep && Owned(d.owners, me)
  {
    if listed != [] {
      var front := listed[..|listed| - 1];
      VanishedMembers(front, me, keep, d);
      assert listed == front + [listed[|listed| - 1]];
    }
  }

  lemma SortedElements(s: seq<string>, x: string)
    ensures x in Sort(s, Itself) <==> x in s
  {
    SortSorts(s, Itself);
    assert x in Sort(s, Itself) <==> x in multiset(Sort(s, Itself));
    assert x in s <==> x in multiset(s);
  }

  /** With distinct names a candidate is in the list of its own bucket and in no other. */
  lemma NameInOwnBucket(kind: Kind, me: Parent, adopted: set<string>, cs: seq<Candidate>, k: nat, b: Bucket)
    requires DistinctNames(cs) && k < |cs|
    ensures cs[k].name in Select(kind, me, adopted, cs, b) <==> BucketOf(kind, me, adopted, cs[k]) == b
  {
    SelectMembers(kind, me, adopted, cs, b, cs[k].name);
    if cs[k].name in Select(kind, me, adopted, cs, b) {
      var i :| 0 <= i < |cs| && cs[i].name == cs[k].name && BucketOf(kind, me, adopted, cs[i]) == b;
      assert i == k;
    }
  }

  function Count(b: bool): nat { if b then 1 else 0 }

  /**
   Each candidate ends in exactly one of adopted, skipped, generated, pending and failed; for a
   ModelDiscovery the sixth possibility is to be in none. (A candidate's name can also be among
   those skipped before, when another source object lost it to this one.)
   */
  lemma ExactlyOneBucket(kind: Kind, me: Parent, listed: seq<Child>, preSkipped: seq<string>, cs: seq<Candidate>, out: Outcome, k: nat)
    requires Outcomes(kind, me, listed, preSkipped, cs, out) && DistinctNames(cs) && k < |cs| && cs[k].name !in preSkipped
    ensures var n := cs[k].name;
            Count(n in out.adopted) + Count(n in out.skipped && n !in out.adopted) + Count(n in out.generated)
            + Count(n in out.pending) + Count(n in out.failed)
            == if BucketOf(kind, me, out.adopted, cs[k]).Dropped? then 0 else 1
    ensures kind.McpServerDiscovery? ==> !BucketOf(kind, me, out.adopted, cs[k]).Dropped?
  {
    var n := cs[k].name;
    NameInOwnBucket(kind, me, out.adopted, cs, k, Skipped);
    NameInOwnBucket(kind, me, out.adopted, cs, k, Generated);
    NameInOwnBucket(kind, me, out.adopted, cs, k, Pending);
    NameInOwnBucket(kind, me, out.adopted, cs, k, Failed);
    SortedElements(preSkipped + AdoptedNames(listed, me) + Select(kind, me, out.adopted, cs, Skipped), n);
    SortedElements(Select(kind, me, out.adopted, cs, Generated), n);
    SortedElements(Select(kind, me, out.adopted, cs, Failed), n);
  }

  /** A candidate of the same name gives the child no protection. */
  predicate Unprotected(b: Bucket) {
    b.Failed? || b.Dropped?
  }

  lemma VanishedByBucket(kind: Kind, me: Parent, listed: seq<Child>, preSkipped: seq<string>, cs: seq<Candidate>, out: Outcome, d: Child)
    requires Outcomes(kind, me, listed, preSkipped, cs, out) && DistinctNames(cs) && DistinctChildren(listed)
    requires d in listed && Owned(d.owners, me)
    ensures d in out.deletes <==>
            && d.name !in preSkipped
            && forall k :: 0 <= k < |cs| && cs[k].name == d.name ==> Unprotected(BucketOf(kind, me, out.adopted, cs[k]))
  {
    var keep := Elements(out.generated) + Elements(out.skipped) + out.pending + out.adopted;
    VanishedMembers(listed, me, keep, d);
    AdoptedMembers(listed, me, d.name);
    assert d.name !in out.adopted;
    SortedElements(preSkipped + AdoptedNames(listed, me) + Select(kind, me, out.adopted, cs, Skipped), d.name);
    SortedElements(Select(kind, me, out.adopted, cs, Generated), d.name);
    SelectMembers(kind, me, out.adopted, cs, Skipped, d.name);
    SelectMembers(kind, me, out.adopted, cs, Generated, d.name);
    SelectMembers(kind, me, out.adopted, cs, Pending, d.name);
  }

  /** The API server's answers are admissible objects. */
  ghost predicate Admissible(c: Candidate) {
    forall r :: r in {c.first, c.second} && r.Answer? && r.found.Some? ==> OneController(r.found.value.owners)
  }

  /** The read found nothing, or an object of this Discovery. */
  predicate Free(r: Reading, me: Parent) {
    r.Answer? && (r.found.None? || Owned(r.found.value.owners, me))
  }

  /** The read found an object of somebody else, being deleted or not. */
  predicate Foreign(r: Reading, me: Parent, deleting: bool) {
    r.Answer? && r.found.Some? && !Owned(r.found.value.owners, me) && r.found.value.deleting == deleting
  }

  /**
   The answers under which a candidate leaves the child of its name to the vanish step. An MCP
   candidate does so on API errors only; a Model candidate also when it does not render, when a
   foreign object is being deleted, and after AlreadyExists unless a living foreign object is found.
   */
  predicate Exposes(kind: Kind, me: Parent, c: Candidate) {
    match kind
    case McpServerDiscovery =>
      || c.first.ReadError?
      || (Free(c.first, me) && (c.apply.Refused? || (c.apply.AlreadyExists? && c.second.ReadError?)))
    case ModelDiscovery =>
      && c.validName
      && (|| !c.renders
          || c.first.ReadError?
          || Foreign(c.first, me, true)
          || (Free(c.first, me) && (c.apply.Refused? || (c.apply.AlreadyExists? && !Foreign(c.second, me, false)))))
  }

  lemma VerdictMeans(kind: Kind, me: Parent, r: Reading)
    requires r.Answer? && r.found.Some? ==> OneController(r.found.value.owners)
    ensures VerdictOf(kind, me, r).Unreadable? <==> r.ReadError?
    ensures VerdictOf(kind, me, r).Proceed? <==> Free(r, me)
    ensures VerdictOf(kind, me, r).Deleting? <==> kind.ModelDiscovery? && Foreign(r, me, true)
    ensures VerdictOf(kind, me, r).Skip? <==> Foreign(r, me, false) || (kind.McpServerDiscovery? && Foreign(r, me, true))
  {
    if r.Answer? && r.found.Some? { OursExactlyOwned(r.found.value, me); }
  }

  lemma ExposedExactly(kind: Kind, me: Parent, adopted: set<string>, c: Candidate)
    requires Admissible(c) && c.name !in adopted
    ensures Unprotected(BucketOf(kind, me, adopted, c)) <==> Exposes(kind, me, c)
  {
    assert c.first in {c.first, c.second} && c.second in {c.first, c.second};
    VerdictMeans(kind, me, c.first);
    VerdictMeans(kind, me, c.second);
  }

  /**
   An owned listed child is vanish-deleted exactly when its name was not skipped at the source and
   the candidate of that name, if there is one, got answers that leave it exposed.
   */
  lemma VanishedIff(kind: Kind, me: Parent, listed: seq<Child>, preSkipped: seq<string>, cs: seq<Candidate>, out: Outcome, d: Child)
    requires Outcomes(kind, me, listed, preSkipped, cs, out) && DistinctNames(cs) && DistinctChildren(listed)
    requires forall k :: 0 <= k < |cs| ==> Admissible(cs[k])
    requires d in listed && Owned(d.owners, me)
    ensures d in out.deletes <==>
            d.name !in preSkipped && forall k :: 0 <= k < |cs| && cs[k].name == d.name ==> Exposes(kind, me, cs[k])
  {
    VanishedByBucket(kind, me, listed, preSkipped, cs, out, d);
    AdoptedMembers(listed, me, d.name);
    forall k | 0 <= k < |cs| && cs[k].name == d.name
      ensures Unprotected(BucketOf(kind, me, out.adopted, cs[k])) <==> Exposes(kind, me, cs[k])
    {
      ExposedExactly(kind, me, out.adopted, cs[k]);
    }
  }

  /** Deletes go only to owned listed children, never to a name generated, skipped, pending or adopted. */
  lemma DeletesAreOwned(kind: Kind, me: Parent, listed: seq<Child>, preSkipped: seq<string>, cs: seq<Candidate>, out: Outcome, d: Child)
    requires Outcomes(kind, me, listed, preSkipped, cs, out) && d in out.deletes
    ensures d in listed && Owned(d.owners, me)
    ensures d.name !in out.generated && d.name !in out.skipped && d.name !in out.pending && d.name !in out.adopted
  {
    VanishedMembers(listed, me, Elements(out.generated) + Elements(out.skipped) + out.pending + out.adopted, d);
  }

  /**
   A name is reported generated exactly when its candidate was applied: no adopted child of the name
   was listed, its name is valid and it rendered (where that is checked), the object read was absent
   or this Discovery's, and the API server accepted.
   */
  lemma GeneratedExactlyApplied(kind: Kind, me: Parent, listed: seq<Child>, preSkipped: seq<string>, cs: seq<Candidate>, out: Outcome, k: nat)
    requires Outcomes(kind, me, listed, preSkipped, cs, out) && DistinctNames(cs) && k < |cs|
    requires cs[k].first.Answer? && cs[k].first.found.Some? ==> OneController(cs[k].first.found.value.owners)
    ensures cs[k].name in out.generated <==>
            && !AdoptedIn(listed, cs[k].name, me)
            && (kind.ModelDiscovery? ==> cs[k].validName && cs[k].renders)
            && cs[k].first.Answer?
            && (cs[k].first.found.None? || Owned(cs[k].first.found.value.owners, me))
            && cs[k].apply.Accepted?
  {
    var c := cs[k];
    NameInOwnBucket(kind, me, out.adopted, cs, k, Generated);
    SortedElements(Select(kind, me, out.adopted, cs, Generated), c.name);
    AdoptedMembers(listed, me, c.name);
    if c.first.Answer? && c.first.found.Some? { OursExactlyOwned(c.first.found.value, me); }
  }

  /** An owned MCP child with a candidate is vanish-deleted exactly on an API error that candidate met. */
  lemma McpVanishIsAnError(me: Parent, listed: seq<Child>, preSkipped: seq<string>, cs: seq<Candidate>, out: Outcome, d: Child, k: nat)
    requires Outcomes(McpServerDiscovery, me, listed, preSkipped, cs, out) && DistinctNames(cs) && DistinctChildren(listed)
    requires forall j :: 0 <= j < |cs| ==> Admissible(cs[j])
    requires d in listed && Owned(d.owners, me) && k < |cs| && cs[k].name == d.name && d.name !in preSkipped
    ensures d in out.deletes <==>
            || cs[k].first.ReadError?
            || (&& (cs[k].first.found.None? || Owned(cs[k].first.found.value.owners, me))
                && (cs[k].apply.Refused? || (cs[k].apply.AlreadyExists? && cs[k].second.ReadError?)))
  {
    VanishedIff(McpServerDiscovery, me, listed, preSkipped, cs, out, d);
  }

  /**
   The ModelDiscovery gap: an owned child whose candidate is alive, whose apply met AlreadyExists
   and whose second read confirms the ownership, is vanish-deleted in the same pass; with the same
   answers the MCP reconciler keeps it.
   */
  lemma RetryableModelChildIsVanished(me: Parent, d: Child, c: Candidate)
    requires Owned(d.owners, me) && OneController(d.owners)
    requires c == Candidate(d.name, true, true, Answer(Some(d)), AlreadyExists, Answer(Some(d)))
    ensures forall out :: Outcomes(ModelDiscovery, me, [d], [], [c], out) ==> d in out.deletes
    ensures forall out :: Outcomes(McpServerDiscovery, me, [d], [], [c], out) ==> d !in out.deletes
  {
    OursExactlyOwned(d, me);
    assert Admissible(c);
    assert [c][0].name == d.name;
    forall out | Outcomes(ModelDiscovery, me, [d], [], [c], out) ensures d in out.deletes {
      VanishedIff(ModelDiscovery, me, [d], [], [c], out, d);
    }
    forall out | Outcomes(McpServerDiscovery, me, [d], [], [c], out) ensures d !in out.deletes {
      VanishedIff(McpServerDiscovery, me, [d], [], [c], out, d);
    }
  }
}
