/** Splitting a sequence at every occurrence of a mark, and joining the pieces again. */
module Splitting {

  function Split<T(==)>(s: seq<T>, mark: T): (parts: seq<seq<T>>)
    ensures |parts| >= 1
  {
    if s == [] then [[]]
    else
      var rest := Split(s[1..], mark);
      if s[0] == mark then [[]] + rest else [[s[0]] + rest[0]] + rest[1..]
  }

  function Join<T>(parts: seq<seq<T>>, mark: T): seq<T>
    requires |parts| >= 1
  {
    if |parts| == 1 then parts[0] else parts[0] + [mark] + Join(parts[1..], mark)
  }

  predicate MarkFree<T(==)>(parts: seq<seq<T>>, mark: T) {
    forall part | part in parts :: mark !in part
  }

  lemma {:induction false} SplitThenJoin<T>(s: seq<T>, mark: T)
    ensures Join(Split(s, mark), mark) == s && MarkFree(Split(s, mark), mark)
  {
    if s != [] {
      SplitThenJoin(s[1..], mark);
      var parts, rest := Split(s, mark), Split(s[1..], mark);
      assert s == [s[0]] + s[1..];
      if s[0] == mark {
        assert parts[1..] == rest;
        assert Join(parts, mark) == [] + [mark] + s[1..];
      } else {
        assert parts[1..] == rest[1..];
        assert Join(parts, mark) == [s[0]] + Join(rest, mark);
      }
    }
  }

  lemma {:induction false} JoinThenSplit<T>(parts: seq<seq<T>>, mark: T)
    requires |parts| >= 1 && MarkFree(parts, mark)
    ensures Split(Join(parts, mark), mark) == parts
    decreases |parts|, |parts[0]|
  {
    var first, s := parts[0], Join(parts, mark);
    if first != [] {
      var shorter := [first[1..]] + parts[1..];
      assert MarkFree(shorter, mark) by {
        assert forall c | c in first[1..] :: c in first;
      }
      assert shorter[1..] == parts[1..];
      assert s[1..] == Join(shorter, mark);
      JoinThenSplit(shorter, mark);
      assert s[0] != mark by { assert first[0] in first; }
      assert [first[0]] + first[1..] == first;
      assert [first] + parts[1..] == parts;
    } else if |parts| > 1 {
      JoinThenSplit(parts[1..], mark);
      assert s[1..] == Join(parts[1..], mark);
      assert [[]] + parts[1..] == parts;
    } else {
      assert parts == [[]];
    }
  }

  /** Splitting finds the only pieces without the mark the text can be joined from. */
  lemma SplitInvertsJoin<T>(s: seq<T>, parts: seq<seq<T>>, mark: T)
    requires |parts| >= 1
    ensures Split(s, mark) == parts <==> s == Join(parts, mark) && MarkFree(parts, mark)
  {
    SplitThenJoin(s, mark);
    if MarkFree(parts, mark) {
      JoinThenSplit(parts, mark);
    }
  }
}
