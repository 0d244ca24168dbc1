/**
 Models of the JavaScript `Array.prototype` methods the dashboard uses:
 `find`, `some` and `filter`, each over a callback without side effects.
 */
module JsArray {
  import opened Optional

  /** Position `k` holds the first element of `s` that satisfies `f`. */
  ghost predicate IsFirst<T>(s: seq<T>, f: T -> bool, k: int)
  {
    0 <= k < |s| && f(s[k]) && forall j :: 0 <= j < k ==> !f(s[j])
  }

  /** `s.find(f)`: the first element satisfying `f`, or `undefined`. */
  function Find<T>(s: seq<T>, f: T -> bool): (r: Option<T>)
    ensures r.None? <==> forall i :: 0 <= i < |s| ==> !f(s[i])
    ensures r.Some? ==> exists k :: IsFirst(s, f, k) && s[k] == r.value
  {
    if s == [] then None
    else if f(s[0]) then assert IsFirst(s, f, 0); Some(s[0])
    else
      var r := Find(s[1..], f);
      assert forall i :: 1 <= i < |s| ==> s[i] == s[1..][i - 1];
      assert r.Some? ==> exists k :: IsFirst(s, f, k) && s[k] == r.value by {
        if r.Some? {
          var k :| IsFirst(s[1..], f, k) && s[1..][k] == r.value;
          assert IsFirst(s, f, k + 1);
        }
      }
      r
  }

  /** The first satisfying position determines the result of `find`. */
  lemma FindIsFirst<T>(s: seq<T>, f: T -> bool, k: int)
    requires IsFirst(s, f, k)
    ensures Find(s, f) == Some(s[k])
  {
    var r := Find(s, f);
    var k' :| IsFirst(s, f, k') && s[k'] == r.value;
    assert k' == k;
  }

  /** `s.some(f)`: some element satisfies `f`. */
  function Any<T>(s: seq<T>, f: T -> bool): (b: bool)
    ensures b <==> exists i :: 0 <= i < |s| && f(s[i])
  {
    if s == [] then false
    else if f(s[0]) then true
    else
      assert forall i :: 1 <= i < |s| ==> s[i] == s[1..][i - 1];
      assert (exists i :: 0 <= i < |s| && f(s[i])) ==> exists i :: 0 <= i < |s| - 1 && f(s[1..][i]) by {
        if i :| 0 <= i < |s| && f(s[i]) {
          assert f(s[1..][i - 1]);
        }
      }
      Any(s[1..], f)
  }

  /**
   `s.filter(f)`: every element satisfying `f` is kept as often as it occurs,
   every other element is dropped.
   */
  function Filter<T(!new)>(s: seq<T>, f: T -> bool): (r: seq<T>)
    ensures |r| <= |s|
    ensures forall x :: multiset(r)[x] == if f(x) then multiset(s)[x] else 0
  {
    if s == [] then []
    else
      var rest := Filter(s[1..], f);
      assert s == [s[0]] + s[1..];
      assert multiset(s) == multiset{s[0]} + multiset(s[1..]);
      if f(s[0]) then [s[0]] + rest else rest
  }

  lemma FilterKeeps<T(!new)>(s: seq<T>, f: T -> bool, x: T)
    ensures x in Filter(s, f) <==> x in s && f(x)
  {
    assert x in Filter(s, f) <==> x in multiset(Filter(s, f));
    assert x in s <==> x in multiset(s);
  }

  /** `filter` keeps the relative order: it distributes over concatenation. */
  lemma {:induction false} FilterConcat<T(!new)>(a: seq<T>, b: seq<T>, f: T -> bool)
    ensures Filter(a + b, f) == Filter(a, f) + Filter(b, f)
  {
    if a == [] {
      assert a + b == b;
    } else {
      assert (a + b)[1..] == a[1..] + b;
      FilterConcat(a[1..], b, f);
    }
  }

  /** The positions of `s` whose element satisfies `f`. */
  ghost function Positions<T>(s: seq<T>, f: T -> bool): set<int>
  {
    set i | 0 <= i < |s| && f(s[i])
  }

  /** `s.filter(f).length`: the number of positions of `s` holding an element that satisfies `f`. */
  function Count<T(!new)>(s: seq<T>, f: T -> bool): (n: nat)
    ensures n == |Positions(s, f)| && n <= |s|
  {
    CountPositions(s, f);
    |Filter(s, f)|
  }

  lemma {:induction false} CountPositions<T(!new)>(s: seq<T>, f: T -> bool)
    ensures |Filter(s, f)| == |Positions(s, f)|
    decreases |s|
  {
    if s != [] {
      var init, last := s[..|s| - 1], s[|s| - 1];
      assert s == init + [last];
      CountPositions(init, f);
      FilterSnocSize(init, last, f);
      PositionsSnoc(init, last, f);
    }
  }

  lemma FilterSnocSize<T(!new)>(init: seq<T>, last: T, f: T -> bool)
    ensures |Filter(init + [last], f)| == |Filter(init, f)| + if f(last) then 1 else 0
  {
    FilterConcat(init, [last], f);
    assert [last][1..] == [];
  }

  lemma PositionsSnoc<T>(init: seq<T>, last: T, f: T -> bool)
    ensures |Positions(init + [last], f)| == |Positions(init, f)| + if f(last) then 1 else 0
  {
    var before, after := Positions(init, f), Positions(init + [last], f);
    PositionsSnocSet(init, last, f);
    if f(last) {
      assert |init| !in before;
      assert after == before + {|init|};
    } else {
      assert after == before;
    }
  }

  /** Appending an element adds at most its own position. */
  lemma PositionsSnocSet<T>(init: seq<T>, last: T, f: T -> bool)
    ensures forall i :: i in Positions(init + [last], f) <==> i in Positions(init, f) || (i == |init| && f(last))
  {
    var s := init + [last];
    forall i | 0 <= i < |init| ensures s[i] == init[i] {
    }
  }
}
