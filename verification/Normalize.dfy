/**
 The five-step rewriting of a provider's model id into a Kubernetes name, and when its result is a
 DNS-1123 subdomain. Lower-casing is a parameter: any map of characters that leaves the allowed
 ones alone.
 */
module Normalize {

  predicate Alnum(c: char) {
    'a' <= c <= 'z' || '0' <= c <= '9'
  }

  predicate Allowed(c: char) {
    Alnum(c) || c == '.' || c == '-'
  }

  function Each(s: string, f: char -> char): string {
    seq(|s|, i requires 0 <= i < |s| => f(s[i]))
  }

  function DashSeparator(c: char): char {
    if c == '/' || c == ':' || c == '_' || c == ' ' then '-' else c
  }

  function DashInvalid(c: char): char {
    if Allowed(c) then c else '-'
  }

  /** Runs of dashes become one dash. */
  function Collapse(s: string): string {
    if s == "" then ""
    else if |s| > 1 && s[0] == '-' && s[1] == '-' then Collapse(s[1..])
    else [s[0]] + Collapse(s[1..])
  }

  function TrimLeft(s: string): string {
    if s == "" || Alnum(s[0]) then s else TrimLeft(s[1..])
  }

  function TrimRight(s: string): string {
    if s == "" || Alnum(s[|s| - 1]) then s else TrimRight(s[..|s| - 1])
  }

  /** Steps 1 to 3, character by character. */
  function Mapped(rawId: string, lower: char -> char): string {
    Each(Each(Each(rawId, lower), DashSeparator), DashInvalid)
  }

  function Normalize(rawId: string, lower: char -> char): string {
    TrimRight(TrimLeft(Collapse(Mapped(rawId, lower))))
  }

  /** Character by character: lower-cased where that is allowed, a dash otherwise. */
  lemma MappedAt(rawId: string, lower: char -> char, i: nat)
    requires i < |rawId|
    ensures |Mapped(rawId, lower)| == |rawId|
    ensures var c := lower(rawId[i]);
            Mapped(rawId, lower)[i] == if 'a' <= c <= 'z' || '0' <= c <= '9' || c == '.' || c == '-' then c else '-'
  {
    var lowered := Each(rawId, lower);
    var dashed := Each(lowered, DashSeparator);
    assert lowered[i] == lower(rawId[i]) && dashed[i] == DashSeparator(lowered[i]);
    assert Mapped(rawId, lower)[i] == DashInvalid(dashed[i]);
  }

  // ----- The normal form -----

  ghost predicate AllAllowed(s: string) {
    forall i :: 0 <= i < |s| ==> Allowed(s[i])
  }

  ghost predicate NoDoubleDash(s: string) {
    forall i :: 0 <= i < |s| - 1 ==> !(s[i] == '-' && s[i + 1] == '-')
  }

  ghost predicate Normal(s: string) {
    AllAllowed(s) && NoDoubleDash(s) && (s != "" ==> Alnum(s[0]) && Alnum(s[|s| - 1]))
  }

  ghost predicate Lowers(lower: char -> char) {
    forall c :: Allowed(c) ==> lower(c) == c
  }

  lemma SliceKeeps(s: string, a: nat, b: nat)
    requires a <= b <= |s|
    ensures AllAllowed(s) ==> AllAllowed(s[a..b])
    ensures NoDoubleDash(s) ==> NoDoubleDash(s[a..b])
  {
    var t := s[a..b];
    forall i | 0 <= i < |t| ensures t[i] == s[a + i] {}
    if NoDoubleDash(s) {
      forall i | 0 <= i < |t| - 1 ensures !(t[i] == '-' && t[i + 1] == '-') {
        assert s[a + i + 1] == t[i + 1];
      }
    }
  }

  lemma {:induction false} CollapseShape(s: string)
    ensures NoDoubleDash(Collapse(s))
    ensures AllAllowed(s) ==> AllAllowed(Collapse(s))
    ensures s != "" ==> Collapse(s) != "" && Collapse(s)[0] == s[0]
    ensures NoDoubleDash(s) ==> Collapse(s) == s
  {
    if s != "" {
      CollapseShape(s[1..]);
      assert s == [s[0]] + s[1..];
      if |s| > 1 { assert s[1] == s[1..][0]; }
      if NoDoubleDash(s) { SliceKeeps(s, 1, |s|); }
    }
  }

  lemma {:induction false} TrimLeftShape(s: string) returns (k: nat)
    ensures k <= |s| && TrimLeft(s) == s[k..]
    ensures TrimLeft(s) != "" ==> Alnum(TrimLeft(s)[0])
  {
    if s == "" || Alnum(s[0]) {
      k := 0;
    } else {
      k := TrimLeftShape(s[1..]);
      k := k + 1;
    }
  }

  lemma {:induction false} TrimRightShape(s: string) returns (k: nat)
    ensures k <= |s| && TrimRight(s) == s[..k]
    ensures TrimRight(s) != "" ==> Alnum(TrimRight(s)[|TrimRight(s)| - 1])
  {
    if s == "" || Alnum(s[|s| - 1]) {
      k := |s|;
    } else {
      k := TrimRightShape(s[..|s| - 1]);
    }
  }

  /** The result holds only allowed characters, no double dash, and begins and ends alphanumeric. */
  lemma NormalizeIsNormal(rawId: string, lower: char -> char)
    ensures Normal(Normalize(rawId, lower))
  {
    var mapped := Mapped(rawId, lower);
    MappedAllowed(rawId, lower);
    CollapseShape(mapped);
    TrimmedIsNormal(Collapse(mapped));
  }

  lemma MappedAllowed(rawId: string, lower: char -> char)
    ensures AllAllowed(Mapped(rawId, lower))
  {
    var dashed := Each(Each(rawId, lower), DashSeparator);
    forall i | 0 <= i < |Mapped(rawId, lower)| ensures Allowed(Mapped(rawId, lower)[i]) {
      assert Mapped(rawId, lower)[i] == DashInvalid(dashed[i]);
    }
  }

  lemma TrimmedIsNormal(s: string)
    requires AllAllowed(s) && NoDoubleDash(s)
    ensures Normal(TrimRight(TrimLeft(s)))
  {
    var k := TrimLeftShape(s);
    var left := TrimLeft(s);
    assert left == s[k..|s|];
    SliceKeeps(s, k, |s|);
    var n := TrimRightShape(left);
    assert TrimRight(left) == left[0..n];
    SliceKeeps(left, 0, n);
    if n > 0 { assert TrimRight(left)[0] == left[0]; }
  }

  lemma EachSame(s: string, f: char -> char)
    requires forall i :: 0 <= i < |s| ==> f(s[i]) == s[i]
    ensures Each(s, f) == s
  {
  }

  /** An id is left alone exactly when it is in normal form already. */
  lemma FixedExactlyNormal(rawId: string, lower: char -> char)
    requires Lowers(lower)
    ensures Normalize(rawId, lower) == rawId <==> Normal(rawId)
  {
    NormalizeIsNormal(rawId, lower);
    if Normal(rawId) {
      EachSame(rawId, lower);
      EachSame(rawId, DashSeparator);
      EachSame(rawId, DashInvalid);
      CollapseShape(rawId);
    }
  }

  lemma Idempotent(rawId: string, lower: char -> char)
    requires Lowers(lower)
    ensures Normalize(Normalize(rawId, lower), lower) == Normalize(rawId, lower)
  {
    NormalizeIsNormal(rawId, lower);
    FixedExactlyNormal(Normalize(rawId, lower), lower);
  }

  // ----- Nothing that can be kept is lost -----

  /** The alphanumeric characters of a string, in order. */
  function Core(s: string): string {
    if s == "" then "" else Kept(s[0]) + Core(s[1..])
  }

  function Kept(c: char): string {
    if Alnum(c) then [c] else ""
  }

  lemma Joined(a: string, b: string, c: string)
    ensures a + (b + c) == (a + b) + c
  {
  }

  lemma {:induction false} CoreAppend(s: string, t: string)
    ensures Core(s + t) == Core(s) + Core(t)
  {
    if s == "" {
      assert s + t == t;
    } else {
      assert (s + t)[1..] == s[1..] + t;
      CoreAppend(s[1..], t);
      Joined(Kept(s[0]), Core(s[1..]), Core(t));
    }
  }

  lemma {:induction false} CoreEach(s: string, f: char -> char)
    requires forall c :: if Alnum(c) then f(c) == c else !Alnum(f(c))
    ensures Core(Each(s, f)) == Core(s)
  {
    if s != "" {
      assert Each(s, f)[1..] == Each(s[1..], f);
      CoreEach(s[1..], f);
    }
  }

  lemma {:induction false} CoreCollapse(s: string)
    ensures Core(Collapse(s)) == Core(s)
  {
    if s != "" {
      CoreCollapse(s[1..]);
      if !(|s| > 1 && s[0] == '-' && s[1] == '-') {
        assert Collapse(s)[1..] == Collapse(s[1..]);
      }
    }
  }

  lemma {:induction false} CoreTrimLeft(s: string)
    ensures Core(TrimLeft(s)) == Core(s)
  {
    if s != "" && !Alnum(s[0]) { CoreTrimLeft(s[1..]); }
  }

  lemma {:induction false} CoreTrimRight(s: string)
    ensures Core(TrimRight(s)) == Core(s)
  {
    if s != "" && !Alnum(s[|s| - 1]) {
      var last := |s| - 1;
      CoreTrimRight(s[..last]);
      assert s == s[..last] + [s[last]];
      CoreAppend(s[..last], [s[last]]);
      assert [s[last]][1..] == "" && Core([s[last]]) == "";
    }
  }

  /** The letters and digits of the lower-cased id all survive, in order. */
  lemma CoreSurvives(rawId: string, lower: char -> char)
    ensures Core(Normalize(rawId, lower)) == Core(Each(rawId, lower))
  {
    var lowered := Each(rawId, lower);
    var dashed := Each(lowered, DashSeparator);
    var mapped := Each(dashed, DashInvalid);
    CoreEach(lowered, DashSeparator);
    CoreEach(dashed, DashInvalid);
    CoreCollapse(mapped);
    CoreTrimLeft(Collapse(mapped));
    CoreTrimRight(TrimLeft(Collapse(mapped)));
  }

  // ----- DNS-1123 subdomains -----

  predicate Label(l: string) {
    l != "" && Alnum(l[0]) && Alnum(l[|l| - 1]) && forall i :: 0 <= i < |l| ==> Alnum(l[i]) || l[i] == '-'
  }

  function FirstDot(s: string): (i: nat)
    ensures i <= |s| && (i < |s| ==> s[i] == '.') && forall j :: 0 <= j < i ==> s[j] != '.'
  {
    if s == "" || s[0] == '.' then 0 else 1 + FirstDot(s[1..])
  }

  /** Labels separated by single dots. */
  predicate Dotted(s: string)
    decreases |s|
  {
    var i := FirstDot(s);
    Label(s[..i]) && (i < |s| ==> Dotted(s[i + 1..]))
  }

  predicate Subdomain(s: string) {
    |s| <= 253 && Dotted(s)
  }

  /** Every dot stands between two alphanumeric characters. */
  predicate DotsSeparate(s: string) {
    forall i :: 0 <= i < |s| && s[i] == '.' ==> 0 < i < |s| - 1 && Alnum(s[i - 1]) && Alnum(s[i + 1])
  }

  ghost predicate Ends(s: string) {
    s != "" && Alnum(s[0]) && Alnum(s[|s| - 1])
  }

  lemma {:induction false} DottedIff(s: string)
    ensures Dotted(s) <==> Ends(s) && AllAllowed(s) && DotsSeparate(s)
    decreases |s|
  {
    var i := FirstDot(s);
    if i < |s| {
      DottedIff(s[i + 1..]);
      if Dotted(s) { Join(s, i); }
      if Ends(s) && AllAllowed(s) && DotsSeparate(s) { Cut(s, i); }
    } else {
      assert s[..i] == s;
    }
  }

  lemma Join(s: string, i: nat)
    requires i < |s| && s[i] == '.' && Label(s[..i])
    requires var t := s[i + 1..]; Ends(t) && AllAllowed(t) && DotsSeparate(t)
    ensures Ends(s) && AllAllowed(s) && DotsSeparate(s)
  {
    var t := s[i + 1..];
    forall j | 0 <= j < |s| ensures s[j] == if j <= i then (if j < i then s[..i][j] else '.') else t[j - i - 1] {}
    assert t[|t| - 1] == s[|s| - 1];
    assert s[i - 1] == s[..i][i - 1] && s[i + 1] == t[0];
  }

  lemma Cut(s: string, i: nat)
    requires i < |s| && s[i] == '.' && Ends(s) && AllAllowed(s) && DotsSeparate(s)
    requires forall j :: 0 <= j < i ==> s[j] != '.'
    ensures Label(s[..i])
    ensures var t := s[i + 1..]; Ends(t) && AllAllowed(t) && DotsSeparate(t)
  {
    var t := s[i + 1..];
    assert forall j :: 0 <= j < |t| ==> t[j] == s[i + 1 + j];
  }

  // ----- Validity, read off the id -----

  lemma {:induction false} CollapseTrimLeft(s: string)
    ensures TrimLeft(Collapse(s)) == Collapse(TrimLeft(s))
  {
    if s != "" {
      CollapseShape(s);
      if !Alnum(s[0]) {
        CollapseTrimLeft(s[1..]);
        if !(|s| > 1 && s[0] == '-' && s[1] == '-') { assert Collapse(s)[1..] == Collapse(s[1..]); }
      }
    }
  }

  /** Collapsing from the right: a dash after a dash goes, anything else is kept. */
  lemma {:induction false} CollapseLast(s: string, c: char)
    ensures Collapse(s + [c]) == if s != "" && s[|s| - 1] == '-' && c == '-' then Collapse(s) else Collapse(s) + [c]
    ensures Collapse(s + [c]) != "" && Collapse(s + [c])[|Collapse(s + [c])| - 1] == c
  {
    var t := s + [c];
    if s == "" {
      assert t == [c] && t[1..] == "" && Collapse(t) == [c] + "";
    } else {
      assert t[1..] == s[1..] + [c] && t[0] == s[0];
      CollapseLast(s[1..], c);
      if |s| > 1 { assert t[1] == s[1]; }
      if |s| == 1 { assert s[1..] == "" && Collapse(s) == s; }
    }
  }

  lemma TrimRightLast(s: string, c: char)
    ensures TrimRight(s + [c]) == if Alnum(c) then s + [c] else TrimRight(s)
  {
    assert (s + [c])[..|s|] == s;
  }

  lemma {:induction false} CollapseTrimRight(s: string)
    ensures TrimRight(Collapse(s)) == Collapse(TrimRight(s))
  {
    if s != "" {
      var front, last := s[..|s| - 1], s[|s| - 1];
      assert s == front + [last];
      CollapseLast(front, last);
      CollapseTrimRight(front);
      TrimRightLast(front, last);
      TrimRightLast(Collapse(front), last);
    }
  }

  /** The part of a string from its first to its last alphanumeric character. */
  function Inner(s: string): string {
    TrimRight(TrimLeft(s))
  }

  /** Trimming may as well come before collapsing. */
  lemma NormalizeInner(rawId: string, lower: char -> char)
    ensures Normalize(rawId, lower) == Collapse(Inner(Mapped(rawId, lower)))
  {
    var m := Mapped(rawId, lower);
    CollapseTrimLeft(m);
    CollapseTrimRight(TrimLeft(m));
  }

  predicate Beside(a: char, b: char) {
    (a == '.' ==> Alnum(b)) && (b == '.' ==> Alnum(a))
  }

  ghost predicate AllBeside(s: string) {
    forall i :: 0 <= i < |s| - 1 ==> Beside(s[i], s[i + 1])
  }

  lemma BesideCons(s: string)
    requires |s| > 1
    ensures AllBeside(s) <==> Beside(s[0], s[1]) && AllBeside(s[1..])
  {
    var t := s[1..];
    assert forall i :: 0 <= i < |t| ==> t[i] == s[i + 1];
    if Beside(s[0], s[1]) && AllBeside(t) {
      forall i | 0 <= i < |s| - 1 ensures Beside(s[i], s[i + 1]) {
        if i > 0 { assert Beside(t[i - 1], t[i]); }
      }
    }
    if AllBeside(s) {
      forall i | 0 <= i < |t| - 1 ensures Beside(t[i], t[i + 1]) {
        assert Beside(s[i + 1], s[i + 2]);
      }
    }
  }

  lemma {:induction false} CollapseBeside(s: string)
    ensures AllBeside(Collapse(s)) <==> AllBeside(s)
  {
    if |s| > 1 {
      CollapseBeside(s[1..]);
      BesideCons(s);
      CollapseShape(s[1..]);
      if !(s[0] == '-' && s[1] == '-') {
        assert Collapse(s)[1..] == Collapse(s[1..]);
        BesideCons(Collapse(s));
      }
    } else if s != "" {
      assert s[1..] == "" && Collapse(s) == s;
    }
  }

  lemma SeparateIsBeside(s: string)
    requires Ends(s)
    ensures DotsSeparate(s) <==> AllBeside(s)
  {
    if DotsSeparate(s) {
      forall i | 0 <= i < |s| - 1 ensures Beside(s[i], s[i + 1]) {}
    }
    if AllBeside(s) {
      forall i | 0 <= i < |s| && s[i] == '.' ensures 0 < i < |s| - 1 && Alnum(s[i - 1]) && Alnum(s[i + 1]) {
        assert 0 < i < |s| - 1;
        assert Beside(s[i - 1], s[i]) && Beside(s[i], s[i + 1]);
      }
    }
  }

  /** Position i stands strictly between two alphanumeric characters of the string. */
  ghost predicate Inside(s: string, i: nat) {
    (exists a :: 0 <= a < i < |s| && Alnum(s[a])) && (exists b :: i < b < |s| && Alnum(s[b]))
  }

  /** Every dot inside the string has alphanumeric neighbours. */
  ghost predicate InnerDotsSeparate(s: string) {
    forall i :: 0 < i < |s| - 1 && s[i] == '.' && Inside(s, i) ==> Alnum(s[i - 1]) && Alnum(s[i + 1])
  }

  /** Where the inner part lies. */
  lemma InnerIs(s: string) returns (a: nat, b: nat)
    ensures a <= b <= |s| && Inner(s) == s[a..b]
    ensures forall i :: 0 <= i < |s| && Alnum(s[i]) ==> a <= i < b
    ensures a < b ==> Alnum(s[a]) && Alnum(s[b - 1])
  {
    a := TrimLeftShape(s);
    var left := TrimLeft(s);
    var k := TrimRightShape(left);
    b := a + k;
    assert left[..k] == s[a..b];
    TrimLeftDrops(s, a);
    TrimRightDrops(left, k);
    forall i | 0 <= i < |s| && Alnum(s[i]) ensures a <= i < b {
      if i >= a { assert left[i - a] == s[i]; }
    }
  }

  lemma {:induction false} TrimLeftDrops(s: string, k: nat)
    requires k <= |s| && TrimLeft(s) == s[k..]
    ensures forall i :: 0 <= i < k ==> !Alnum(s[i])
  {
    if k > 0 {
      assert |TrimLeft(s)| < |s|;
      assert s[1..][k - 1..] == s[k..];
      TrimLeftDrops(s[1..], k - 1);
      forall i | 0 <= i < k ensures !Alnum(s[i]) {
        if i > 0 { assert s[1..][i - 1] == s[i]; }
      }
    }
  }

  lemma {:induction false} TrimRightDrops(s: string, k: nat)
    requires k <= |s| && TrimRight(s) == s[..k]
    ensures forall i :: k <= i < |s| ==> !Alnum(s[i])
  {
    if k < |s| {
      assert |TrimRight(s)| < |s|;
      assert s[..|s| - 1][..k] == s[..k];
      TrimRightDrops(s[..|s| - 1], k);
    }
  }

  lemma InnerDots(s: string)
    requires Inner(s) != ""
    ensures DotsSeparate(Inner(s)) <==> InnerDotsSeparate(s)
  {
    var a, b := InnerIs(s);
    var t := Inner(s);
    assert forall j :: 0 <= j < |t| ==> t[j] == s[a + j];
    if DotsSeparate(t) {
      forall i | 0 < i < |s| - 1 && s[i] == '.' && Inside(s, i) ensures Alnum(s[i - 1]) && Alnum(s[i + 1]) {
        assert t[i - a] == '.';
        assert t[i - a - 1] == s[i - 1] && t[i - a + 1] == s[i + 1];
      }
    }
    if InnerDotsSeparate(s) {
      forall j | 0 <= j < |t| && t[j] == '.' ensures 0 < j < |t| - 1 && Alnum(t[j - 1]) && Alnum(t[j + 1]) {
        assert s[a + j] == '.' && 0 < j < |t| - 1;
        assert Inside(s, a + j) by { assert Alnum(s[a]) && Alnum(s[b - 1]); }
        assert t[j - 1] == s[a + j - 1] && t[j + 1] == s[a + j + 1];
      }
    }
  }

  /** The dashes that follow a dash. */
  function Repeats(s: string): nat {
    if |s| < 2 then 0 else (if s[0] == '-' && s[1] == '-' then 1 else 0) + Repeats(s[1..])
  }

  lemma {:induction false} CollapsedLength(s: string)
    ensures |Collapse(s)| + Repeats(s) == |s|
  {
    if s != "" { CollapsedLength(s[1..]); }
  }

  /**
   Read off the id: it gets a valid name exactly when it holds a letter or digit, its inner part less
   repeated dashes fits 253 characters, and every dot inside has alphanumeric neighbours.
   */
  lemma ValidExactlyWhen(rawId: string, lower: char -> char)
    ensures var m := Mapped(rawId, lower);
            Subdomain(Normalize(rawId, lower)) <==>
              && Core(Each(rawId, lower)) != ""
              && |Inner(m)| - Repeats(Inner(m)) <= 253
              && InnerDotsSeparate(m)
  {
    var m, n := Mapped(rawId, lower), Normalize(rawId, lower);
    NormalizeInner(rawId, lower);
    NormalizeIsNormal(rawId, lower);
    CoreSurvives(rawId, lower);
    DottedIff(n);
    CollapsedLength(Inner(m));
    if n != "" {
      assert Core(n) != "";
      InnerEnds(m);
      InnerDots(m);
      SeparateIsBeside(Inner(m));
      SeparateIsBeside(n);
      CollapseBeside(Inner(m));
    }
  }

  lemma InnerEnds(s: string)
    ensures Inner(s) != "" ==> Ends(Inner(s))
  {
    var a, b := InnerIs(s);
  }

  /** Which it may fail to be: the pipeline does not look at dots. */
  lemma NotAlwaysSubdomain(lower: char -> char)
    requires Lowers(lower)
    ensures Normalize("a..b", lower) == "a..b" && !Subdomain("a..b")
  {
    FixedExactlyNormal("a..b", lower);
    DottedIff("a..b");
    assert "a..b"[1] == '.' && !Alnum("a..b"[2]);
  }
}
