/** The ordered set of massive node ids (`std::set<int>` in Grid.h). It is
    kept as a strictly increasing sequence, which is exactly the iteration
    order of the ordered set. */
module NodeSet {

  predicate StrictlySorted(s: seq<int>)
  {
    forall i, j :: 0 <= i < j < |s| ==> s[i] < s[j]
  }

  function Elems(s: seq<int>): set<int>
  {
    set x | x in s
  }

  /** `std::set<int>::insert`. */
  function Insert(s: seq<int>, x: int): (r: seq<int>)
    requires StrictlySorted(s)
    ensures StrictlySorted(r)
    ensures Elems(r) == Elems(s) + {x}
    ensures x in s ==> r == s
  {
    if |s| == 0 then [x]
    else if x < s[0] then
      InsertFront(s, x);
      [x] + s
    else if x == s[0] then s
    else
      var t := Insert(s[1..], x);
      InsertBehind(s, x, t);
      [s[0]] + t
  }

  /** An id below the smallest one goes in front. */
  lemma {:induction false} InsertFront(s: seq<int>, x: int)
    requires StrictlySorted(s) && |s| > 0 && x < s[0]
    ensures StrictlySorted([x] + s)
    ensures Elems([x] + s) == Elems(s) + {x}
    ensures x !in s
  {
    var r := [x] + s;
    forall i, j | 0 <= i < j < |r| ensures r[i] < r[j] {
      if i > 0 {
        assert r[i] == s[i - 1] && r[j] == s[j - 1];
      } else {
        assert r[j] == s[j - 1] && s[0] <= s[j - 1];
      }
    }
  }

  /** An id above the smallest one is inserted into the rest. */
  lemma {:induction false} InsertBehind(s: seq<int>, x: int, t: seq<int>)
    requires StrictlySorted(s) && |s| > 0 && s[0] < x
    requires StrictlySorted(t) && Elems(t) == Elems(s[1..]) + {x}
    requires x in s[1..] ==> t == s[1..]
    ensures StrictlySorted([s[0]] + t)
    ensures Elems([s[0]] + t) == Elems(s) + {x}
    ensures x in s ==> [s[0]] + t == s
  {
    SortedBehind(s, x, t);
    assert Elems([s[0]] + t) == Elems(s) + {x} by {
      ElemsCons(s[0], t);
      ElemsCons(s[0], s[1..]);
      assert s == [s[0]] + s[1..];
    }
    if x in s {
      InTail(s, x);
      assert s == [s[0]] + s[1..];
    }
  }

  lemma {:induction false} ElemsCons(a: int, t: seq<int>)
    ensures Elems([a] + t) == {a} + Elems(t)
  {
    assert forall y :: y in [a] + t <==> y == a || y in t;
  }

  lemma {:induction false} InTail(s: seq<int>, x: int)
    requires |s| > 0 && x in s && x != s[0]
    ensures x in s[1..]
  {
    var k :| 0 <= k < |s| && s[k] == x;
    assert s[1..][k - 1] == x;
  }

  lemma {:induction false} SortedBehind(s: seq<int>, x: int, t: seq<int>)
    requires StrictlySorted(s) && |s| > 0 && s[0] < x
    requires StrictlySorted(t) && Elems(t) == Elems(s[1..]) + {x}
    ensures StrictlySorted([s[0]] + t)
  {
    var r := [s[0]] + t;
    forall i, j | 0 <= i < j < |r| ensures r[i] < r[j] {
      var y := t[j - 1];
      assert r[j] == y;
      if i > 0 {
        assert r[i] == t[i - 1];
      } else {
        assert y in Elems(t);
        if y != x {
          var k :| 0 <= k < |s[1..]| && s[1..][k] == y;
          assert s[k + 1] == y;
        }
      }
    }
  }

  /** Inserting every id of xs, in order. */
  function InsertAll(s: seq<int>, xs: seq<int>): (r: seq<int>)
    requires StrictlySorted(s)
    ensures StrictlySorted(r)
    ensures Elems(r) == Elems(s) + Elems(xs)
  {
    if |xs| == 0 then s
    else
      assert Elems(xs) == Elems(xs[..|xs| - 1]) + {xs[|xs| - 1]} by {
        assert xs == xs[..|xs| - 1] + [xs[|xs| - 1]];
      }
      Insert(InsertAll(s, xs[..|xs| - 1]), xs[|xs| - 1])
  }

  /** An ordered set is determined by its elements: two strictly increasing
      sequences with the same elements are equal. */
  lemma {:induction false} SortedUnique(a: seq<int>, b: seq<int>)
    requires StrictlySorted(a) && StrictlySorted(b)
    requires Elems(a) == Elems(b)
    ensures a == b
  {
    if |a| == 0 {
      assert Elems(a) == {};
      SortedCardinality(b);
    } else {
      assert a[0] in Elems(b);
      assert b != [];
      assert b[0] in Elems(a);
      assert a[0] == b[0] by {
        var i :| 0 <= i < |b| && b[i] == a[0];
        var j :| 0 <= j < |a| && a[j] == b[0];
        assert a[0] <= a[j] == b[0] <= b[i] == a[0];
      }
      assert Elems(a[1..]) == Elems(b[1..]) by {
        assert Elems(a) == {a[0]} + Elems(a[1..]) by { assert a == [a[0]] + a[1..]; }
        assert Elems(b) == {b[0]} + Elems(b[1..]) by { assert b == [b[0]] + b[1..]; }
        assert a[0] !in Elems(a[1..]);
        assert b[0] !in Elems(b[1..]);
      }
      SortedUnique(a[1..], b[1..]);
      assert a == [a[0]] + a[1..] && b == [b[0]] + b[1..];
    }
  }

  /** A strictly increasing sequence has as many elements as entries. */
  lemma {:induction false} SortedCardinality(s: seq<int>)
    requires StrictlySorted(s)
    ensures |Elems(s)| == |s|
  {
    if |s| > 0 {
      var rest := Elems(s[1..]);
      SortedCardinality(s[1..]);
      assert Elems(s) == rest + {s[0]} by { assert s == [s[0]] + s[1..]; }
      HeadNotInTail(s);
      assert |rest + {s[0]}| == |rest| + 1;
    }
  }

  lemma {:induction false} HeadNotInTail(s: seq<int>)
    requires StrictlySorted(s) && |s| > 0
    ensures s[0] !in Elems(s[1..])
  {
    forall k | 0 <= k < |s| - 1
      ensures s[1..][k] != s[0]
    {
      assert s[1..][k] == s[k + 1];
    }
  }

  /** Entry k of the ordered set is its k-th smallest element: exactly k
      elements lie below it. */
  lemma {:induction false} RankOfEntry(s: seq<int>, k: int)
    requires StrictlySorted(s) && 0 <= k < |s|
    ensures |set x | x in Elems(s) && x < s[k]| == k
  {
    assert (set x | x in Elems(s) && x < s[k]) == Elems(s[..k]) by {
      forall x | x in Elems(s) && x < s[k] ensures x in Elems(s[..k]) {
        var i :| 0 <= i < |s| && s[i] == x;
        assert i < k;
        assert s[..k][i] == x;
      }
    }
    SortedCardinality(s[..k]);
  }
}
