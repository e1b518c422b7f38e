/** Sorted listings of key sets, as a sorting encoder produces them, and sums that do not depend on order. */
module KeyOrder {

  predicate Le(a: string, b: string) {
    a == [] || (b != [] && (a[0] < b[0] || (a[0] == b[0] && Le(a[1..], b[1..]))))
  }

  ghost predicate DiffersAt(a: string, b: string, i: nat) {
    i < |a| && i < |b| && a[..i] == b[..i] && a[i] < b[i]
  }

  lemma DifferenceMoves(c: char, a: string, b: string, i: nat)
    ensures DiffersAt([c] + a, [c] + b, i + 1) <==> DiffersAt(a, b, i)
  {
    if i < |a| && i < |b| {
      assert ([c] + a)[..i + 1] == [c] + a[..i] && ([c] + b)[..i + 1] == [c] + b[..i];
      assert a[..i] == ([c] + a)[..i + 1][1..] && b[..i] == ([c] + b)[..i + 1][1..];
    }
  }

  lemma DifferenceIsFirst(a: string, b: string, i: nat)
    requires DiffersAt(a, b, i)
    ensures a[0] < b[0] || (i > 0 && a[0] == b[0])
  {
    if i > 0 {
      assert a[..i][0] == a[0] && b[..i][0] == b[0];
    }
  }

  /** Byte order: where the texts first differ the smaller character decides, and a prefix comes first. */
  lemma {:induction false} LeIsLexicographic(a: string, b: string)
    ensures Le(a, b) <==> a <= b || exists i: nat :: DiffersAt(a, b, i)
  {
    if a != [] && b != [] {
      var a', b' := a[1..], b[1..];
      LeIsLexicographic(a', b');
      assert a == [a[0]] + a' && b == [b[0]] + b';
      if a[0] < b[0] {
        assert DiffersAt(a, b, 0);
      }
      hide DiffersAt;
      if i: nat :| DiffersAt(a', b', i) {
        DifferenceMoves(a[0], a', b', i);
        assert a[0] == b[0] ==> DiffersAt(a, b, i + 1);
      }
      if i: nat :| DiffersAt(a, b, i) {
        DifferenceIsFirst(a, b, i);
        if a[0] == b[0] {
          DifferenceMoves(a[0], a', b', i - 1);
        }
      }
    }
  }

  lemma {:induction false} LeIsTotal(a: string, b: string)
    ensures Le(a, b) || Le(b, a)
    ensures Le(a, b) && Le(b, a) ==> a == b
  {
    if a != [] && b != [] {
      LeIsTotal(a[1..], b[1..]);
      assert a == [a[0]] + a[1..] && b == [b[0]] + b[1..];
    }
  }

  lemma {:induction false} LeIsTransitive(a: string, b: string, c: string)
    requires Le(a, b) && Le(b, c)
    ensures Le(a, c)
  {
    if a != [] && a[0] == b[0] && b[0] == c[0] {
      LeIsTransitive(a[1..], b[1..], c[1..]);
    }
  }

  ghost predicate Sorted(ks: seq<string>) {
    forall i, j | 0 <= i < j < |ks| :: Le(ks[i], ks[j]) && ks[i] != ks[j]
  }

  ghost function Range(ks: seq<string>): set<string> {
    set i | 0 <= i < |ks| :: ks[i]
  }

  /** A key set has one sorted listing, so sorting forgets the order keys were collected in. */
  lemma {:induction false} SortedIsUnique(a: seq<string>, b: seq<string>)
    requires Sorted(a) && Sorted(b) && Range(a) == Range(b)
    ensures a == b
  {
    assert forall i | 0 <= i < |b| :: b[i] in Range(b);
    if a != [] {
      assert a[0] in Range(a);
      var j :| 0 <= j < |b| && b[j] == a[0];
      assert b[0] in Range(b);
      var i :| 0 <= i < |a| && a[i] == b[0];
      LeIsTotal(a[0], b[0]);
      assert a[0] == b[0];
      forall k ensures k in Range(a[1..]) <==> k in Range(b[1..]) {
        RangeOfTail(a, k);
        RangeOfTail(b, k);
      }
      SortedIsUnique(a[1..], b[1..]);
      assert a == [a[0]] + a[1..] && b == [b[0]] + b[1..];
    }
  }

  lemma RangeOfTail(a: seq<string>, k: string)
    requires a != [] && Sorted(a)
    ensures k in Range(a[1..]) <==> k in Range(a) && k != a[0]
  {
    if k in Range(a) && k != a[0] {
      var i :| 0 <= i < |a| && a[i] == k;
      assert a[1..][i - 1] == k;
    }
    if k in Range(a[1..]) {
      var i :| 0 <= i < |a[1..]| && a[1..][i] == k;
      assert a[i + 1] == k;
    }
  }

  /** The position at which a new key keeps the listing sorted. */
  method InsertSorted(ks: seq<string>, k: string) returns (out: seq<string>)
    requires Sorted(ks) && k !in Range(ks)
    ensures Sorted(out) && Range(out) == Range(ks) + {k} && |out| == |ks| + 1
  {
    var at := 0;
    while at < |ks| && Le(ks[at], k)
      invariant 0 <= at <= |ks|
      invariant forall i | 0 <= i < at :: Le(ks[i], k)
    {
      at := at + 1;
    }
    out := ks[..at] + [k] + ks[at..];
    SortedAfterInsert(ks, k, at);
  }

  lemma SortedAfterInsert(ks: seq<string>, k: string, at: nat)
    requires Sorted(ks) && k !in Range(ks) && at <= |ks|
    requires forall i | 0 <= i < at :: Le(ks[i], k)
    requires at < |ks| ==> !Le(ks[at], k)
    ensures var out := ks[..at] + [k] + ks[at..]; Sorted(out) && Range(out) == Range(ks) + {k}
  {
    hide Le;
    assert forall i | 0 <= i < |ks| :: ks[i] in Range(ks);
    forall i | at <= i < |ks| ensures Le(k, ks[i]) {
      LeIsTotal(k, ks[at]);
      if i > at {
        LeIsTransitive(k, ks[at], ks[i]);
      }
    }
    RangeOfInsert(ks, k, at);
  }

  lemma RangeOfInsert(ks: seq<string>, k: string, at: nat)
    requires at <= |ks|
    ensures Range(ks[..at] + [k] + ks[at..]) == Range(ks) + {k}
  {
    var out := ks[..at] + [k] + ks[at..];
    forall x ensures x in Range(out) <==> x in Range(ks) + {k} {
      if x in Range(ks) {
        var i :| 0 <= i < |ks| && ks[i] == x;
        assert out[if i < at then i else i + 1] == x;
      }
      assert out[at] == k;
      if x in Range(out) {
        var i :| 0 <= i < |out| && out[i] == x;
        assert i != at ==> x == ks[if i < at then i else i - 1];
      }
    }
  }

  /** Collects the keys in an arbitrary order and sorts them. */
  method SortedKeys(keys: set<string>) returns (ks: seq<string>)
    ensures Sorted(ks) && Range(ks) == keys && |ks| == |keys|
  {
    ks := [];
    var todo := keys;
    while todo != {}
      invariant Sorted(ks) && Range(ks) == keys - todo && todo <= keys && |ks| + |todo| == |keys|
      decreases todo
    {
      var k :| k in todo;
      ks := InsertSorted(ks, k);
      todo := todo - {k};
    }
  }

  /** Every key set has a sorted listing. */
  lemma {:induction false} ListingExists(keys: set<string>)
    ensures exists ks :: Sorted(ks) && Range(ks) == keys
    decreases |keys|
  {
    hide Le, Sorted, Range;
    if keys == {} {
      EmptyListing();
    } else {
      var k :| k in keys;
      ListingExists(keys - {k});
      var ks :| Sorted(ks) && Range(ks) == keys - {k};
      var at := Place(ks, k);
      SortedAfterInsert(ks, k, at);
    }
  }

  lemma EmptyListing()
    ensures Sorted([]) && Range([]) == {}
  {}

  lemma Place(ks: seq<string>, k: string) returns (at: nat)
    ensures at <= |ks| && (forall i | 0 <= i < at :: Le(ks[i], k)) && (at < |ks| ==> !Le(ks[at], k))
  {
    at := 0;
    while at < |ks| && Le(ks[at], k)
      invariant at <= |ks| && forall i | 0 <= i < at :: Le(ks[i], k)
    {
      at := at + 1;
    }
  }

  ghost function Listing(keys: set<string>): (ks: seq<string>)
    ensures Sorted(ks) && Range(ks) == keys
  {
    ListingExists(keys);
    var ks :| Sorted(ks) && Range(ks) == keys;
    ks
  }

  /** The sum of the weights of the listed keys; unlisted keys weigh nothing. */
  function Sum(weights: map<string, nat>, ks: seq<string>): nat {
    if ks == [] then 0
    else Sum(weights, ks[..|ks| - 1]) + if ks[|ks| - 1] in weights then weights[ks[|ks| - 1]] else 0
  }

  ghost predicate Unique(ks: seq<string>) {
    forall i, j | 0 <= i < j < |ks| :: ks[i] != ks[j]
  }

  lemma {:induction false} SumConcatenates(weights: map<string, nat>, a: seq<string>, b: seq<string>)
    ensures Sum(weights, a + b) == Sum(weights, a) + Sum(weights, b)
  {
    if b == [] {
      assert a + b == a;
    } else {
      SumConcatenates(weights, a, b[..|b| - 1]);
      assert (a + b)[..|a + b| - 1] == a + b[..|b| - 1];
    }
  }

  function Removed(ks: seq<string>, j: nat): (rest: seq<string>)
    requires j < |ks|
    ensures |rest| == |ks| - 1 && forall i | 0 <= i < |rest| :: rest[i] == ks[if i < j then i else i + 1]
  {
    ks[..j] + ks[j + 1..]
  }

  lemma RemovedKey(ks: seq<string>, j: nat)
    requires Unique(ks) && j < |ks|
    ensures Unique(Removed(ks, j)) && Range(Removed(ks, j)) == Range(ks) - {ks[j]}
  {
    var rest := Removed(ks, j);
    hide Removed;
    forall k ensures k in Range(rest) <==> k in Range(ks) && k != ks[j] {
      if k in Range(ks) && k != ks[j] {
        var i :| 0 <= i < |ks| && ks[i] == k;
        assert rest[if i < j then i else i - 1] == k;
      }
    }
  }

  lemma RemovedSum(weights: map<string, nat>, ks: seq<string>, j: nat)
    requires j < |ks|
    ensures Sum(weights, ks) == Sum(weights, Removed(ks, j)) + if ks[j] in weights then weights[ks[j]] else 0
  {
    var one := [ks[j]];
    assert one[..0] == [] && Sum(weights, one) == Sum(weights, []) + if ks[j] in weights then weights[ks[j]] else 0;
    assert Sum(weights, []) == 0;
    hide Sum;
    assert ks == ks[..j] + (one + ks[j + 1..]);
    SumConcatenates(weights, ks[..j], one + ks[j + 1..]);
    SumConcatenates(weights, one, ks[j + 1..]);
    SumConcatenates(weights, ks[..j], ks[j + 1..]);
  }

  /** Two listings of one key set have one sum. */
  lemma {:induction false} SumIgnoresOrder(weights: map<string, nat>, a: seq<string>, b: seq<string>)
    requires Unique(a) && Unique(b) && Range(a) == Range(b)
    ensures Sum(weights, a) == Sum(weights, b) && |a| == |b|
    decreases |a|
  {
    assert |b| > 0 ==> b[0] in Range(b);
    if a != [] {
      assert a[0] in Range(a);
      var j :| 0 <= j < |b| && b[j] == a[0];
      hide Sum, Range, Unique, Removed;
      RemovedKey(a, 0);
      RemovedKey(b, j);
      RemovedSum(weights, a, 0);
      RemovedSum(weights, b, j);
      SumIgnoresOrder(weights, Removed(a, 0), Removed(b, j));
    } else {
      assert b == [];
    }
  }
}
