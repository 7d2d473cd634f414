/** Walking a map in the order of its keys, as an ordered container is iterated. */
module KeyOrder {
  import opened Text

  predicate IsLeast(k: string, keys: set<string>) {
    k in keys && forall j <- keys :: j == k || Less(k, j)
  }

  lemma {:induction false} LeastExists(keys: set<string>)
    requires keys != {}
    ensures exists k :: IsLeast(k, keys)
  {
    var i :| i in keys;
    if keys == {i} {
      assert IsLeast(i, keys);
    } else {
      LeastExists(keys - {i});
      var k :| IsLeast(k, keys - {i});
      LessTotal(i, k);
      if Less(i, k) {
        forall j <- keys ensures j == i || Less(i, j) {
          if j != i && j != k { assert Less(k, j); LessTransitive(i, k, j); }
        }
        assert IsLeast(i, keys);
      } else {
        assert IsLeast(k, keys);
      }
    }
  }

  lemma LeastIsUnique(j: string, k: string, keys: set<string>)
    requires IsLeast(j, keys) && IsLeast(k, keys)
    ensures j == k
  {
    if j != k { LessTransitive(j, k, j); LessIrreflexive(j); }
  }

  function Least(keys: set<string>): (k: string)
    requires keys != {}
    ensures IsLeast(k, keys)
  {
    LeastExists(keys);
    assert forall j, k :: IsLeast(j, keys) && IsLeast(k, keys) ==> j == k by {
      forall j, k | IsLeast(j, keys) && IsLeast(k, keys) ensures j == k { LeastIsUnique(j, k, keys); }
    }
    var k :| IsLeast(k, keys);
    k
  }

  lemma LeastOfSubset(part: set<string>, all: set<string>)
    requires part <= all && all != {} && Least(all) in part
    ensures Least(part) == Least(all)
  {
    LeastIsUnique(Least(part), Least(all), part);
  }

  /** The values of a map, in increasing order of their keys. */
  function Values<T>(m: map<string, T>): (vs: seq<T>)
    ensures |vs| == |m|
    decreases |m|
  {
    if m == map[] then []
    else
      var k := Least(m.Keys);
      assert (m - {k}).Keys == m.Keys - {k};
      [m[k]] + Values(m - {k})
  }

  lemma {:induction false} ValuesAreTheValues<T>(m: map<string, T>, v: T)
    ensures v in Values(m) <==> exists k <- m :: m[k] == v
    decreases |m|
  {
    if m != map[] {
      var k := Least(m.Keys);
      assert (m - {k}).Keys == m.Keys - {k};
      ValuesAreTheValues(m - {k}, v);
      if exists j <- m :: m[j] == v {
        var j :| j in m && m[j] == v;
        assert j != k ==> j in m - {k} && (m - {k})[j] == v;
      }
    }
  }

  lemma FirstValue<T>(m: map<string, T>)
    requires m != map[]
    ensures var k := Least(m.Keys);
      k in m && (m - {k}).Keys == m.Keys - {k} && Values(m) == [m[k]] + Values(m - {k})
  {
    hide IsLeast;
    assert Least(m.Keys) in m.Keys by { assert IsLeast(Least(m.Keys), m.Keys); LeastIsKey(m.Keys); }
  }

  lemma NoValues<T>()
    ensures Values<T>(map[]) == []
  {
  }

  lemma LeastIsKey(keys: set<string>)
    requires keys != {}
    ensures Least(keys) in keys
  {
  }

  ghost function Holders<T>(m: map<string, T>, v: T): set<string> { set k | k in m && m[k] == v }

  /** Each value appears once for every key that holds it. */
  lemma {:induction false} ValuesCount<T>(m: map<string, T>, v: T)
    ensures multiset(Values(m))[v] == |Holders(m, v)|
    decreases |m|
  {
    hide Values, IsLeast, Less, Holders;
    if m == map[] {
      NoValues<T>();
      assert Holders(m, v) == {} by { NoHolders(v); }
    } else {
      var k := Least(m.Keys);
      FirstValue(m);
      HoldersStep(m, k, v);
      ValuesCount(m - {k}, v);
      assert multiset([m[k]] + Values(m - {k})) == multiset{m[k]} + multiset(Values(m - {k}));
    }
  }

  lemma NoHolders<T>(v: T)
    ensures Holders(map[], v) == {}
  {
  }

  lemma HoldersStep<T>(m: map<string, T>, k: string, v: T)
    requires k in m
    ensures |Holders(m, v)| == |Holders(m - {k}, v)| + if m[k] == v then 1 else 0
  {
    assert Holders(m, v) == Holders(m - {k}, v) + if m[k] == v then {k} else {};
  }
}
