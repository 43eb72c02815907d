/**
 Strings as the operator uses them: the bytewise order behind `sort.Strings`, the sorted
 form of a set of strings or of a keyed sequence, and the decimal rendering of an index.
 A string is a sequence of code points; UTF-8 keeps the code-point order, so comparing
 code points is comparing bytes.
 */
module Text {

  // ----- The order -----

  predicate Less(a: string, b: string) {
    if b == "" then false
    else if a == "" then true
    else if a[0] != b[0] then a[0] < b[0]
    else Less(a[1..], b[1..])
  }

  predicate AtMost(a: string, b: string) {
    a == b || Less(a, b)
  }

  lemma {:induction false} LessIrreflexive(a: string)
    ensures !Less(a, a)
  {
    if a != "" { LessIrreflexive(a[1..]); }
  }

  lemma {:induction false} LessTransitive(a: string, b: string, c: string)
    requires Less(a, b) && Less(b, c)
    ensures Less(a, c)
  {
    if a != "" && a[0] == b[0] && b[0] == c[0] {
      LessTransitive(a[1..], b[1..], c[1..]);
    }
  }

  lemma {:induction false} LessTotal(a: string, b: string)
    ensures Less(a, b) || a == b || Less(b, a)
  {
    if a != "" && b != "" && a[0] == b[0] {
      LessTotal(a[1..], b[1..]);
      assert a == [a[0]] + a[1..] && b == [b[0]] + b[1..];
    }
  }

  lemma LessAsymmetric(a: string, b: string)
    requires Less(a, b)
    ensures !Less(b, a) && a != b
  {
    LessIrreflexive(a);
    if Less(b, a) { LessTransitive(a, b, a); }
  }

  // ----- Sequences sorted by a key -----

  ghost predicate SortedBy<T>(s: seq<T>, key: T -> string) {
    forall i, j :: 0 <= i < j < |s| ==> Less(key(s[i]), key(s[j]))
  }

  ghost predicate DistinctKeys<T>(s: seq<T>, key: T -> string) {
    forall i, j :: 0 <= i < j < |s| ==> key(s[i]) != key(s[j])
  }

  function Insert<T>(x: T, s: seq<T>, key: T -> string): seq<T> {
    if s == [] then [x]
    else if Less(key(x), key(s[0])) then [x] + s
    else [s[0]] + Insert(x, s[1..], key)
  }

  /** The result of `sort.Slice(s, key(i) < key(j))`. */
  function Sort<T>(s: seq<T>, key: T -> string): seq<T> {
    if s == [] then [] else Insert(s[0], Sort(s[1..], key), key)
  }

  lemma {:induction false} InsertContents<T>(x: T, s: seq<T>, key: T -> string)
    ensures multiset(Insert(x, s, key)) == multiset{x} + multiset(s)
    ensures |Insert(x, s, key)| == |s| + 1
  {
    if s != [] {
      assert s == [s[0]] + s[1..];
      if !Less(key(x), key(s[0])) { InsertContents(x, s[1..], key); }
    }
  }

  lemma {:induction false} InsertSorted<T>(x: T, s: seq<T>, key: T -> string)
    requires SortedBy(s, key)
    requires forall i :: 0 <= i < |s| ==> key(s[i]) != key(x)
    ensures SortedBy(Insert(x, s, key), key)
  {
    if s != [] {
      LessTotal(key(x), key(s[0]));
      if Less(key(x), key(s[0])) {
        forall j | 0 <= j < |s| ensures Less(key(x), key(s[j])) {
          if j > 0 { LessTransitive(key(x), key(s[0]), key(s[j])); }
        }
      } else {
        var rest := Insert(x, s[1..], key);
        InsertSorted(x, s[1..], key);
        InsertContents(x, s[1..], key);
        forall j | 0 <= j < |rest| ensures Less(key(s[0]), key(rest[j])) {
          assert rest[j] in multiset(rest);
          assert rest[j] == x || rest[j] in s[1..];
        }
      }
    }
  }

  /** Sorting permutes the sequence, and orders it strictly when the keys are distinct. */
  lemma {:induction false} SortSorts<T>(s: seq<T>, key: T -> string)
    ensures multiset(Sort(s, key)) == multiset(s)
    ensures |Sort(s, key)| == |s|
    ensures DistinctKeys(s, key) ==> SortedBy(Sort(s, key), key)
  {
    if s != [] {
      assert s == [s[0]] + s[1..];
      SortSorts(s[1..], key);
      var rest := Sort(s[1..], key);
      InsertContents(s[0], rest, key);
      if DistinctKeys(s, key) {
        forall i | 0 <= i < |rest| ensures key(rest[i]) != key(s[0]) {
          assert rest[i] in multiset(rest);
          assert rest[i] in s[1..];
        }
        InsertSorted(s[0], rest, key);
      }
    }
  }

  lemma {:induction false} DistinctOnce<T>(s: seq<T>, key: T -> string, x: T)
    requires DistinctKeys(s, key)
    ensures multiset(s)[x] <= 1
  {
    if s != [] {
      DistinctOnce(s[1..], key, x);
      assert s == [s[0]] + s[1..];
      if s[0] == x { assert x !in s[1..]; }
    }
  }

  lemma TwiceCounted<T>(s: seq<T>, i: nat, j: nat)
    requires i < j < |s| && s[i] == s[j]
    ensures multiset(s)[s[i]] >= 2
  {
    assert s == s[..j] + s[j..];
    assert s[i] == s[..j][i];
    assert s[j] == s[j..][0];
  }

  /** Distinctness of the keys survives any reordering. */
  lemma PermutedDistinct<T>(a: seq<T>, b: seq<T>, key: T -> string)
    requires DistinctKeys(a, key) && multiset(a) == multiset(b)
    ensures DistinctKeys(b, key)
  {
    forall i, j | 0 <= i < j < |b| ensures key(b[i]) != key(b[j]) {
      if b[i] == b[j] {
        TwiceCounted(b, i, j);
        DistinctOnce(a, key, b[i]);
      } else {
        assert b[i] in multiset(a) && b[j] in multiset(a);
        var k :| 0 <= k < |a| && a[k] == b[i];
        var l :| 0 <= l < |a| && a[l] == b[j];
      }
    }
  }

  /** A strictly sorted sequence is determined by its elements. */
  lemma {:induction false} SortedUnique<T>(a: seq<T>, b: seq<T>, key: T -> string)
    requires SortedBy(a, key) && SortedBy(b, key)
    requires forall x :: x in a <==> x in b
    ensures a == b
  {
    assert a != [] ==> a[0] in b;
    assert b != [] ==> b[0] in a;
    if a != [] && b != [] {
      var i :| 0 <= i < |b| && b[i] == a[0];
      var j :| 0 <= j < |a| && a[j] == b[0];
      if i > 0 && j > 0 { LessAsymmetric(key(b[0]), key(a[0])); }
      assert a[0] == b[0];
      forall x ensures x in a[1..] <==> x in b[1..] {
        TailMembership(a, x, key);
        TailMembership(b, x, key);
      }
      SortedUnique(a[1..], b[1..], key);
      assert a == [a[0]] + a[1..] && b == [b[0]] + b[1..];
    }
  }

  lemma TailMembership<T>(a: seq<T>, x: T, key: T -> string)
    requires a != [] && SortedBy(a, key)
    ensures x in a[1..] <==> x in a && x != a[0]
  {
    if x in a[1..] {
      var i :| 0 <= i < |a[1..]| && a[1..][i] == x;
      assert a[i + 1] == x;
      LessIrreflexive(key(x));
    }
  }

  // ----- Sorted sets of strings -----

  function Itself(s: string): string { s }

  ghost predicate Ascending(s: seq<string>) {
    SortedBy(s, Itself)
  }

  function Elements(s: seq<string>): set<string> {
    set x | x in s
  }

  /** Some sequence enumerating a set: the order of a Go map iteration. */
  ghost function Enumerate(s: set<string>): (r: seq<string>)
    ensures Elements(r) == s
    ensures forall i, j :: 0 <= i < j < |r| ==> r[i] != r[j]
  {
    if s == {} then [] else
      var x :| x in s;
      var rest := Enumerate(s - {x});
      assert forall i :: 0 <= i < |rest| ==> rest[i] in Elements(rest);
      assert Elements([x] + rest) == {x} + Elements(rest);
      [x] + rest
  }

  /** The ascending sequence of a set of strings, as `slices.Sorted(maps.Keys(m))` gives it. */
  ghost function Ordered(s: set<string>): (r: seq<string>)
    ensures Ascending(r) && Elements(r) == s
  {
    var e := Enumerate(s);
    SortSorts(e, Itself);
    assert Elements(Sort(e, Itself)) == s by { SameElements(Sort(e, Itself), e); }
    Sort(e, Itself)
  }

  lemma SameElements(a: seq<string>, b: seq<string>)
    requires multiset(a) == multiset(b)
    ensures Elements(a) == Elements(b)
  {
    forall x ensures x in a <==> x in b {
      assert x in a <==> x in multiset(a);
      assert x in b <==> x in multiset(b);
    }
  }

  lemma OrderedUnique(s: set<string>, r: seq<string>)
    requires Ascending(r) && Elements(r) == s
    ensures r == Ordered(s)
  {
    forall x ensures x in r <==> x in Ordered(s) {
      assert x in r <==> x in Elements(r);
      assert x in Ordered(s) <==> x in Elements(Ordered(s));
    }
    SortedUnique(r, Ordered(s), Itself);
  }

  /** Collects the keys in whatever order the map iteration yields them, then sorts. */
  method SortedKeys<V>(fields: map<string, V>) returns (keys: seq<string>)
    ensures keys == Ordered(fields.Keys)
  {
    var found: seq<string>, left := [], fields.Keys;
    while left != {}
      invariant Elements(found) + left == fields.Keys && Elements(found) !! left
      invariant forall i, j :: 0 <= i < j < |found| ==> found[i] != found[j]
    {
      var k :| k in left;
      assert forall i :: 0 <= i < |found| ==> found[i] in Elements(found);
      assert Elements(found + [k]) == Elements(found) + {k};
      found, left := found + [k], left - {k};
    }
    keys := Sort(found, Itself);
    SortSorts(found, Itself);
    SameElements(keys, found);
    OrderedUnique(fields.Keys, keys);
  }

  lemma AscendingDistinct(s: seq<string>, i: nat, j: nat)
    requires Ascending(s) && i < j < |s|
    ensures s[i] != s[j]
  {
    LessIrreflexive(s[i]);
    assert Less(Itself(s[i]), Itself(s[j]));
  }

  // ----- Decimal rendering, as fmt's %d -----

  function Digit(d: nat): char
    requires d < 10
  {
    (d as char) + '0'
  }

  function Decimal(n: nat): (r: string)
    ensures r != ""
  {
    if n < 10 then [Digit(n)] else Decimal(n / 10) + [Digit(n % 10)]
  }

  lemma {:induction false} DecimalInjective(a: nat, b: nat)
    requires Decimal(a) == Decimal(b)
    ensures a == b
  {
    var da, db := Decimal(a), Decimal(b);
    assert da[|da| - 1] == Digit(a % 10) && db[|db| - 1] == Digit(b % 10);
    assert a % 10 == b % 10;
    if a >= 10 && b >= 10 {
      assert Decimal(a / 10) == da[..|da| - 1] && Decimal(b / 10) == db[..|db| - 1];
      DecimalInjective(a / 10, b / 10);
    }
  }

  lemma {:induction false} DecimalDigits(n: nat, i: nat)
    requires i < |Decimal(n)|
    ensures '0' <= Decimal(n)[i] <= '9'
  {
    if n >= 10 && i < |Decimal(n)| - 1 { DecimalDigits(n / 10, i); }
  }
}
