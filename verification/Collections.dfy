/** Small facts about sequences without repetition and about ordered keys. */
module Collections {
  function Elems<T(==)>(s: seq<T>): set<T> {
    set x | x in s
  }

  ghost predicate Distinct<T>(s: seq<T>) {
    forall i, j :: 0 <= i < j < |s| ==> s[i] != s[j]
  }

  lemma {:induction false} DistinctCount<T>(s: seq<T>)
    requires Distinct(s)
    ensures |Elems(s)| == |s|
  {
    if s == [] {
      assert Elems(s) == {};
    } else {
      var n := |s| - 1;
      DistinctCount(s[..n]);
      assert Elems(s) == Elems(s[..n]) + {s[n]};
      assert s[n] !in Elems(s[..n]);
    }
  }

  /** Cutting a sequence without repetition in two gives disjoint element sets. */
  lemma SplitElems<T>(s: seq<T>, k: nat)
    requires Distinct(s) && k <= |s|
    ensures Elems(s) == Elems(s[..k]) + Elems(s[k..])
    ensures Elems(s[..k]) !! Elems(s[k..])
    ensures |Elems(s[..k])| == k && |Elems(s[k..])| == |s| - k && |Elems(s)| == |s|
  {
    assert s == s[..k] + s[k..];
    DistinctCount(s);
    DistinctCount(s[..k]);
    DistinctCount(s[k..]);
  }

  lemma {:induction false} MaxExists(s: set<nat>)
    requires s != {}
    ensures exists m :: m in s && forall x :: x in s ==> x <= m
  {
    var y :| y in s;
    if s != {y} {
      MaxExists(s - {y});
      var m :| m in s - {y} && forall x :: x in s - {y} ==> x <= m;
      var top := if m < y then y else m;
      forall x | x in s ensures x <= top {
        assert x == y || x in s - {y};
      }
      assert top in s;
    }
  }

  lemma SubsetSize<T>(a: set<T>, b: set<T>)
    requires a <= b
    ensures |a| <= |b| && |b - a| == |b| - |a|
  {
    assert b == a + (b - a);
  }

  lemma AddOne<T>(a: set<T>, b: set<T>, t: T)
    requires t !in a
    ensures |(a + {t}) * b| == |a * b| + if t in b then 1 else 0
  {
    if t in b {
      assert (a + {t}) * b == a * b + {t};
    } else {
      assert (a + {t}) * b == a * b;
    }
  }

  predicate StrictlyAscending(s: seq<nat>) {
    forall i, j :: 0 <= i < j < |s| ==> s[i] < s[j]
  }

  /** The keys of an ordered map, in the order in which it is iterated. */
  function Ascending(s: set<nat>): (r: seq<nat>)
    ensures StrictlyAscending(r) && Elems(r) == s && |r| == |s|
    decreases |s|
  {
    if s == {} then []
    else
      MaxExists(s);
      var m :| m in s && forall x :: x in s ==> x <= m;
      var low := Ascending(s - {m});
      AppendTop(low, m, s);
      low + [m]
  }

  lemma AppendTop(low: seq<nat>, m: nat, s: set<nat>)
    requires m in s && (forall x :: x in s ==> x <= m)
    requires StrictlyAscending(low) && Elems(low) == s - {m}
    ensures StrictlyAscending(low + [m]) && Elems(low + [m]) == s
  {
    assert Elems(low + [m]) == Elems(low) + {m};
    forall i | 0 <= i < |low| ensures low[i] < m {
      assert low[i] in Elems(low);
    }
  }
}
