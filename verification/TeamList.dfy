/**
 Looking a team up by alias: every page of a listing whose server-side filter is only a
 substring match, filtered to the exact alias, and the least team_id among the matches.
 */
module TeamList {
  import opened Text

  datatype Team = Team(id: string, alias: string)

  datatype Page = Page(teams: seq<Team>, totalPages: int)

  datatype Response = Served(page: Page) | Refused

  datatype Listing = Teams(teams: seq<Team>) | Error

  const PAGE_SIZE := 100

  const MAX_PAGES := 1000

  function Matching(alias: string, teams: seq<Team>): seq<Team> {
    if teams == [] then []
    else
      var rest, last := Matching(alias, teams[..|teams| - 1]), teams[|teams| - 1];
      if last.alias == alias then rest + [last] else rest
  }

  /** The total is authoritative when present; a short page ends the listing only when it is absent. */
  predicate Last(number: nat, page: Page) {
    if page.totalPages > 0 then number >= page.totalPages else |page.teams| < PAGE_SIZE
  }

  /** The rows of pages one to k. */
  function RowsThrough(serve: nat -> Response, k: nat): seq<Team>
    requires forall p :: 1 <= p <= k ==> serve(p).Served?
  {
    if k == 0 then [] else RowsThrough(serve, k - 1) + serve(k).page.teams
  }

  /** Page k is the first that ends the listing, and everything up to it was served. */
  ghost predicate EndsAt(serve: nat -> Response, k: nat) {
    && 1 <= k <= MAX_PAGES
    && (forall p :: 1 <= p <= k ==> serve(p).Served?)
    && Last(k, serve(k).page)
    && forall p :: 1 <= p < k ==> !Last(p, serve(p).page)
  }

  lemma {:induction false} MatchingAppend(alias: string, a: seq<Team>, b: seq<Team>)
    ensures Matching(alias, a + b) == Matching(alias, a) + Matching(alias, b)
  {
    if b == [] {
      assert a + b == a;
    } else {
      var front := b[..|b| - 1];
      assert (a + b)[..|a + b| - 1] == a + front && (a + b)[|a + b| - 1] == b[|b| - 1];
      MatchingAppend(alias, a, front);
    }
  }

  /** A listing ends on one page only. */
  lemma EndsOnce(serve: nat -> Response, number: nat)
    requires EndsAt(serve, number)
    ensures forall k :: EndsAt(serve, k) ==> k == number
  {
  }

  /** The client-side exact-alias filter, appending to what earlier pages gave. */
  method KeepMatching(alias: string, teams: seq<Team>, found: seq<Team>) returns (out: seq<Team>)
    ensures out == found + Matching(alias, teams)
  {
    out := found;
    var i := 0;
    while i < |teams|
      invariant 0 <= i <= |teams|
      invariant out == found + Matching(alias, teams[..i])
    {
      assert teams[..i + 1][..i] == teams[..i];
      if teams[i].alias == alias { out := out + [teams[i]]; }
      i := i + 1;
    }
    assert teams[..i] == teams;
  }

  method ListTeamsByAlias(alias: string, serve: nat -> Response) returns (r: Listing)
    ensures forall k :: EndsAt(serve, k) ==> r == Teams(Matching(alias, RowsThrough(serve, k)))
    ensures r.Teams? ==> exists k :: EndsAt(serve, k)
  {
    var out: seq<Team> := [];
    var number := 1;
    while number <= MAX_PAGES
      invariant 1 <= number <= MAX_PAGES + 1
      invariant forall p :: 1 <= p < number ==> serve(p).Served? && !Last(p, serve(p).page)
      invariant out == Matching(alias, RowsThrough(serve, number - 1))
    {
      if serve(number).Refused? { return Error; }
      var page := serve(number).page;
      out := KeepMatching(alias, page.teams, out);
      MatchingAppend(alias, RowsThrough(serve, number - 1), page.teams);
      if Last(number, page) {
        assert EndsAt(serve, number);
        EndsOnce(serve, number);
        return Teams(out);
      }
      number := number + 1;
    }
    return Error;
  }

  // ----- Complete or an error -----

  /** What a server holds for the alias, page by page. */
  ghost predicate Pages(serve: nat -> Response, pages: seq<seq<Team>>) {
    pages != [] && forall p :: 1 <= p <= |pages| ==> serve(p).Served? && serve(p).page.teams == pages[p - 1]
  }

  /** Every page reports the number of pages, however full it is. */
  ghost predicate ReportsTotal(serve: nat -> Response, pages: seq<seq<Team>>) {
    Pages(serve, pages) && forall p :: 1 <= p <= |pages| ==> serve(p).page.totalPages == |pages|
  }

  /** No page reports a total; all are full but the last. */
  ghost predicate EndsShort(serve: nat -> Response, pages: seq<seq<Team>>) {
    && Pages(serve, pages)
    && (forall p :: 1 <= p <= |pages| ==> serve(p).page.totalPages <= 0)
    && (forall p :: 1 <= p < |pages| ==> |serve(p).page.teams| >= PAGE_SIZE)
    && |pages[|pages| - 1]| < PAGE_SIZE
  }

  function Joined(pages: seq<seq<Team>>): seq<Team> {
    if pages == [] then [] else Joined(pages[..|pages| - 1]) + pages[|pages| - 1]
  }

  lemma {:induction false} RowsAreJoined(serve: nat -> Response, pages: seq<seq<Team>>, k: nat)
    requires Pages(serve, pages) && k <= |pages|
    ensures RowsThrough(serve, k) == Joined(pages[..k])
  {
    if k > 0 {
      RowsAreJoined(serve, pages, k - 1);
      assert pages[..k][..k - 1] == pages[..k - 1];
    }
  }

  /** For a consistent server the answer is every exact match, and a listing over the cap is an error. */
  method ListConsistent(alias: string, serve: nat -> Response, ghost pages: seq<seq<Team>>) returns (r: Listing)
    requires ReportsTotal(serve, pages) || EndsShort(serve, pages)
    ensures r == if |pages| <= MAX_PAGES then Teams(Matching(alias, Joined(pages))) else Error
  {
    r := ListTeamsByAlias(alias, serve);
    RowsAreJoined(serve, pages, |pages|);
    assert pages[..|pages|] == pages;
    assert |pages| <= MAX_PAGES ==> EndsAt(serve, |pages|);
    assert |pages| > MAX_PAGES ==> forall k :: !EndsAt(serve, k);
  }

  // ----- The update target -----

  function IdOf(t: Team): string { t.id }

  lemma {:induction false} FirstIsLeast(teams: seq<Team>)
    requires teams != []
    ensures |Sort(teams, IdOf)| == |teams| && Sort(teams, IdOf)[0] in teams
    ensures forall t :: t in teams ==> AtMost(Sort(teams, IdOf)[0].id, t.id)
  {
    var rest := Sort(teams[1..], IdOf);
    SortSorts(teams, IdOf);
    SortSorts(teams[1..], IdOf);
    if |teams| > 1 {
      FirstIsLeast(teams[1..]);
      LessTotal(teams[0].id, rest[0].id);
      forall t | t in teams ensures AtMost(Sort(teams, IdOf)[0].id, t.id) {
        if t != teams[0] {
          assert t in teams[1..];
          if Less(teams[0].id, rest[0].id) && Less(rest[0].id, t.id) {
            LessTransitive(teams[0].id, rest[0].id, t.id);
          }
        }
      }
    }
  }

  lemma {:induction false} MatchingMembers(alias: string, teams: seq<Team>, t: Team)
    ensures t in Matching(alias, teams) <==> t in teams && t.alias == alias
  {
    if teams != [] {
      MatchingMembers(alias, teams[..|teams| - 1], t);
      assert teams == teams[..|teams| - 1] + [teams[|teams| - 1]];
    }
  }

  datatype Target = Create | Update(team: Team) | Unknown

  /** The arm the team reconcile takes: update the least matching team_id over all pages, else create. */
  method ChooseTarget(alias: string, serve: nat -> Response, ghost pages: seq<seq<Team>>) returns (target: Target)
    requires ReportsTotal(serve, pages) || EndsShort(serve, pages)
    ensures target.Unknown? <==> |pages| > MAX_PAGES
    ensures target.Create? ==> forall t :: t in Joined(pages) ==> t.alias != alias
    ensures target.Update? ==>
              && target.team in Joined(pages) && target.team.alias == alias
              && forall t :: t in Joined(pages) && t.alias == alias ==> AtMost(target.team.id, t.id)
  {
    var r := ListConsistent(alias, serve, pages);
    if r.Error? { return Unknown; }
    forall t ensures t in r.teams <==> t in Joined(pages) && t.alias == alias {
      MatchingMembers(alias, Joined(pages), t);
    }
    if r.teams == [] { return Create; }
    FirstIsLeast(r.teams);
    return Update(Sort(r.teams, IdOf)[0]);
  }
}
