/** Stock notions shared by every component: optional values and a stable sort. */
module Common {
  datatype Option<+T> = None | Some(value: T)

  function Max(a: int, b: int): int { if a >= b then a else b }

  function Min(a: int, b: int): int { if a <= b then a else b }

  /** Insert `x` before the first element whose key is not smaller. */
  function InsertByKey<T>(x: T, s: seq<T>, key: T -> int): seq<T> {
    if s == [] then [x]
    else if key(x) <= key(s[0]) then [x] + s
    else [s[0]] + InsertByKey(x, s[1..], key)
  }

  /** Python's `sorted(s, key=key)`: ascending, and elements with equal keys keep their order. */
  function SortByKey<T>(s: seq<T>, key: T -> int): seq<T> {
    if s == [] then [] else InsertByKey(s[0], SortByKey(s[1..], key), key)
  }

  ghost predicate AscendingBy<T>(s: seq<T>, key: T -> int) {
    forall i, j :: 0 <= i < j < |s| ==> key(s[i]) <= key(s[j])
  }

  lemma {:induction false} InsertKeepsElements<T>(x: T, s: seq<T>, key: T -> int)
    ensures multiset(InsertByKey(x, s, key)) == multiset{x} + multiset(s)
    ensures |InsertByKey(x, s, key)| == |s| + 1
    decreases |s|
  {
    if s == [] || key(x) <= key(s[0]) {
    } else {
      InsertKeepsElements(x, s[1..], key);
      assert s == [s[0]] + s[1..];
    }
  }

  lemma {:induction false} InsertKeepsOrder<T>(x: T, s: seq<T>, key: T -> int)
    requires AscendingBy(s, key)
    ensures AscendingBy(InsertByKey(x, s, key), key)
    decreases |s|
  {
    if s == [] || key(x) <= key(s[0]) {
    } else {
      InsertKeepsOrder(x, s[1..], key);
      InsertKeepsElements(x, s[1..], key);
      var r := InsertByKey(x, s[1..], key);
      forall j | 0 <= j < |r| ensures key(s[0]) <= key(r[j]) {
        assert r[j] in multiset(r);
        assert r[j] == x || r[j] in s[1..];
      }
    }
  }

  lemma {:induction false} SortKeepsElements<T>(s: seq<T>, key: T -> int)
    ensures multiset(SortByKey(s, key)) == multiset(s)
    ensures |SortByKey(s, key)| == |s|
    decreases |s|
  {
    if s == [] {
    } else {
      SortKeepsElements(s[1..], key);
      InsertKeepsElements(s[0], SortByKey(s[1..], key), key);
      assert s == [s[0]] + s[1..];
    }
  }

  lemma {:induction false} SortIsAscending<T>(s: seq<T>, key: T -> int)
    ensures AscendingBy(SortByKey(s, key), key)
    decreases |s|
  {
    if s == [] {
    } else {
      SortIsAscending(s[1..], key);
      InsertKeepsOrder(s[0], SortByKey(s[1..], key), key);
    }
  }

  /** Elements with equal keys stand in the order of another key. */
  ghost predicate TiesAscendBy<T>(s: seq<T>, key: T -> int, other: T -> int) {
    forall i, j :: 0 <= i < j < |s| && key(s[i]) == key(s[j]) ==> other(s[i]) <= other(s[j])
  }

  lemma {:induction false} InsertKeepsTies<T>(x: T, s: seq<T>, key: T -> int, other: T -> int)
    requires TiesAscendBy(s, key, other) && forall k :: 0 <= k < |s| ==> other(x) <= other(s[k])
    ensures TiesAscendBy(InsertByKey(x, s, key), key, other)
    decreases |s|
  {
    if s != [] && key(x) > key(s[0]) {
      var rest := s[1..];
      var r := InsertByKey(x, rest, key);
      InsertKeepsTies(x, rest, key, other);
      InsertKeepsElements(x, rest, key);
      forall j | 0 <= j < |r| && key(s[0]) == key(r[j]) ensures other(s[0]) <= other(r[j]) {
        assert r[j] in multiset(r);
        assert r[j] in rest;
        var k :| 0 <= k < |rest| && rest[k] == r[j];
        assert s[k + 1] == r[j];
      }
    }
  }

  /** Sorting keeps the order of elements with equal keys. */
  lemma {:induction false} SortIsStable<T>(s: seq<T>, key: T -> int, other: T -> int)
    requires AscendingBy(s, other)
    ensures TiesAscendBy(SortByKey(s, key), key, other)
    decreases |s|
  {
    if s != [] {
      var rest := SortByKey(s[1..], key);
      SortIsStable(s[1..], key, other);
      SortKeepsElements(s[1..], key);
      forall k | 0 <= k < |rest| ensures other(s[0]) <= other(rest[k]) {
        assert rest[k] in multiset(rest);
        assert rest[k] in multiset(s[1..]);
        var j :| 0 <= j < |s| - 1 && s[1..][j] == rest[k];
        assert s[j + 1] == rest[k];
      }
      InsertKeepsTies(s[0], rest, key, other);
    }
  }

  lemma SortKeepsMembers<T>(s: seq<T>, key: T -> int)
    ensures forall x :: x in SortByKey(s, key) <==> x in s
  {
    SortKeepsElements(s, key);
    forall x ensures x in SortByKey(s, key) <==> x in s {
      assert x in s <==> x in multiset(s);
      assert x in SortByKey(s, key) <==> x in multiset(SortByKey(s, key));
    }
  }

  lemma LastApart<T>(s: seq<T>)
    requires s != []
    ensures s == s[..|s| - 1] + [s[|s| - 1]]
  {
  }

  lemma FirstApart<T>(s: seq<T>)
    requires s != []
    ensures s == [s[0]] + s[1..]
  {
  }

  lemma FrontKept<T>(s: seq<T>, x: T)
    ensures (s + [x])[..|s|] == s
  {
  }

  ghost predicate Distinct<T>(s: seq<T>) {
    forall i, j :: 0 <= i < j < |s| ==> s[i] != s[j]
  }

  lemma {:induction false} DistinctOccursOnce<T>(s: seq<T>, x: T)
    requires Distinct(s)
    ensures multiset(s)[x] <= 1
  {
    if s != [] {
      DistinctOccursOnce(s[1..], x);
      assert s == [s[0]] + s[1..];
      assert s[0] !in s[1..];
    }
  }

  /** A rearrangement of distinct elements is distinct. */
  lemma DistinctRearranged<T>(s: seq<T>, t: seq<T>)
    requires Distinct(s) && multiset(s) == multiset(t)
    ensures Distinct(t)
  {
    forall i, j | 0 <= i < j < |t| ensures t[i] != t[j] {
      if t[i] == t[j] {
        assert t == t[..j] + t[j..];
        assert t[i] in t[..j] && t[i] in t[j..];
        assert multiset(t) == multiset(t[..j]) + multiset(t[j..]);
        DistinctOccursOnce(s, t[i]);
      }
    }
  }

  lemma DistinctConcat<T>(s: seq<T>, t: seq<T>)
    requires Distinct(s) && Distinct(t) && forall x :: x in s ==> x !in t
    ensures Distinct(s + t)
  {
    forall i, j | 0 <= i < j < |s + t| ensures (s + t)[i] != (s + t)[j] {
      if i < |s| <= j {
        assert s[i] in s && t[j - |s|] in t;
      }
    }
  }
}
