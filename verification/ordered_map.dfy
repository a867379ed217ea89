/**
 * A JavaScript `Map`: a finite map that also remembers the order in which
 * its keys were first inserted, because the router's loops walk that order.
 */
module OrderedMap {
  import opened Basics

  datatype OMap<K(==,!new), V> = OMap(order: seq<K>, rows: map<K, V>) {
    /** The order lists exactly the keys, each once. */
    ghost predicate Valid() {
      && (forall k :: k in order <==> k in rows)
      && NoRepeats(order)
    }

    /** `Map.set`: an existing key keeps its place, a new one goes last. */
    function Put(k: K, v: V): OMap<K, V> {
      OMap(if k in rows then order else order + [k], rows[k := v])
    }

    /** `Map.delete`. */
    function Remove(k: K): OMap<K, V> {
      OMap(Without(order, k), rows - {k})
    }

    /** Delete a whole set of keys. */
    function RemoveAll(ks: set<K>): OMap<K, V> {
      OMap(Excluding(order, ks), rows - ks)
    }
  }

  function Empty<K(==,!new), V>(): OMap<K, V> {
    OMap([], map[])
  }

  ghost predicate NoRepeats<K>(s: seq<K>) {
    forall i, j :: 0 <= i < j < |s| ==> s[i] != s[j]
  }

  function Without<K(==)>(s: seq<K>, k: K): seq<K> {
    if s == [] then []
    else Without(s[..|s| - 1], k) + (if s[|s| - 1] == k then [] else [s[|s| - 1]])
  }

  function Excluding<K(==)>(s: seq<K>, ks: set<K>): seq<K> {
    if s == [] then []
    else Excluding(s[..|s| - 1], ks) + (if s[|s| - 1] in ks then [] else [s[|s| - 1]])
  }

  /** The keys of `keep` in the order of `s`. */
  function Select<K(==)>(s: seq<K>, keep: set<K>): seq<K> {
    if s == [] then []
    else Select(s[..|s| - 1], keep) + (if s[|s| - 1] in keep then [s[|s| - 1]] else [])
  }

  /** The earliest key of `keep` in `s`, if there is one. */
  function First<K(==,!new)>(s: seq<K>, keep: set<K>): (r: Option<K>)
    ensures r.Some? ==> exists i :: 0 <= i < |s| && s[i] == r.value && r.value in keep && forall j :: 0 <= j < i ==> s[j] !in keep
    ensures r.None? ==> forall k :: k in s ==> k !in keep
  {
    if s == [] then None
    else if s[0] in keep then Some(s[0])
    else
      var r := First(s[1..], keep);
      assert r.Some? ==> forall j :: 0 < j < |s| ==> s[j] == s[1..][j - 1];
      r
  }

  /** The kept keys, and the keys left after a deletion, come in the order of the original. */
  lemma {:induction false} SelectConcat<K(!new)>(s: seq<K>, t: seq<K>, keep: set<K>)
    ensures Select(s + t, keep) == Select(s, keep) + Select(t, keep)
    ensures Excluding(s + t, keep) == Excluding(s, keep) + Excluding(t, keep)
    decreases |t|
  {
    if t == [] {
      assert s + t == s;
    } else {
      var n := |t| - 1;
      SelectConcat(s, t[..n], keep);
      assert (s + t)[..|s + t| - 1] == s + t[..n];
    }
  }

  lemma SelectOne<K(!new)>(k: K, keep: set<K>)
    ensures Select([k], keep) == (if k in keep then [k] else []) && Excluding([k], keep) == (if k in keep then [] else [k])
  {
    assert [k][..0] == [];
  }

  lemma PrefixNoRepeats<K>(s: seq<K>)
    requires s != [] && NoRepeats(s)
    ensures NoRepeats(s[..|s| - 1]) && s[|s| - 1] !in s[..|s| - 1]
  {
  }

  lemma JoinedNoRepeats<K(!new)>(a: seq<K>, b: seq<K>)
    requires NoRepeats(a) && NoRepeats(b) && forall x :: x in a ==> x !in b
    ensures NoRepeats(a + b)
  {
    forall i, j | 0 <= i < j < |a + b| ensures (a + b)[i] != (a + b)[j] {
      if i < |a| <= j {
        assert a[i] in a && b[j - |a|] in b;
      }
    }
  }

  lemma {:induction false} ExcludingFacts<K(!new)>(s: seq<K>, ks: set<K>)
    ensures forall k :: k in Excluding(s, ks) <==> k in s && k !in ks
    ensures NoRepeats(s) ==> NoRepeats(Excluding(s, ks))
  {
    if s == [] {
    } else {
      var n := |s| - 1;
      ExcludingFacts(s[..n], ks);
      assert s == s[..n] + [s[n]];
      if NoRepeats(s) {
        PrefixNoRepeats(s);
      }
    }
  }

  lemma {:induction false} WithoutIsExcluding<K>(s: seq<K>, k: K)
    ensures Without(s, k) == Excluding(s, {k})
  {
    if s == [] {
    } else {
      WithoutIsExcluding(s[..|s| - 1], k);
    }
  }

  lemma {:induction false} SelectFacts<K(!new)>(s: seq<K>, keep: set<K>)
    ensures forall k :: k in Select(s, keep) <==> k in s && k in keep
    ensures NoRepeats(s) ==> NoRepeats(Select(s, keep))
  {
    if s == [] {
    } else {
      var n := |s| - 1;
      SelectFacts(s[..n], keep);
      assert s == s[..n] + [s[n]];
      if NoRepeats(s) {
        PrefixNoRepeats(s);
      }
    }
  }

  /** Insertion keeps a map well formed and its keys in place; a new key goes last. */
  lemma PutValid<K(!new), V>(m: OMap<K, V>, k: K, v: V)
    requires m.Valid()
    ensures m.Put(k, v).Valid() && m.order <= m.Put(k, v).order
  {
  }

  /** Deleting a set of keys keeps a map well formed. */
  lemma RemoveAllValid<K(!new), V>(m: OMap<K, V>, ks: set<K>)
    requires m.Valid()
    ensures m.RemoveAll(ks).Valid()
  {
    ExcludingFacts(m.order, ks);
  }

  lemma RemoveValid<K(!new), V>(m: OMap<K, V>, k: K)
    requires m.Valid()
    ensures m.Remove(k).Valid() && m.Remove(k) == m.RemoveAll({k})
  {
    WithoutIsExcluding(m.order, k);
    RemoveAllValid(m, {k});
  }

  lemma {:induction false} SelectWithin<K(!new)>(s: seq<K>, a: set<K>, b: set<K>)
    ensures Select(Select(s, a), b) == Select(s, a * b)
  {
    if s == [] {
    } else {
      var n := |s| - 1;
      SelectWithin(s[..n], a, b);
      if s[n] in a {
        assert Select(s, a)[..|Select(s, a)| - 1] == Select(s[..n], a);
      } else {
        assert Select(s, a) == Select(s[..n], a);
      }
    }
  }

  lemma {:induction false} ExcludingTwice<K(!new)>(s: seq<K>, a: set<K>, b: set<K>)
    ensures Excluding(Excluding(s, a), b) == Excluding(s, a + b)
  {
    if s == [] {
    } else {
      var n := |s| - 1;
      ExcludingTwice(s[..n], a, b);
      if s[n] !in a {
        assert Excluding(s, a)[..|Excluding(s, a)| - 1] == Excluding(s[..n], a);
      } else {
        assert Excluding(s, a) == Excluding(s[..n], a);
      }
    }
  }

  lemma {:induction false} ExcludingNothing<K(!new)>(s: seq<K>)
    ensures Excluding(s, {}) == s
  {
    if s == [] {
    } else {
      ExcludingNothing(s[..|s| - 1]);
    }
  }

  /** Deleting one more key after a set of keys. */
  lemma RemoveOneMore<K(!new), V>(m: OMap<K, V>, ks: set<K>, k: K)
    ensures m.RemoveAll(ks).Remove(k) == m.RemoveAll(ks + {k})
  {
    WithoutIsExcluding(m.RemoveAll(ks).order, k);
    ExcludingTwice(m.order, ks, {k});
    assert m.rows - ks - {k} == m.rows - (ks + {k});
  }

  lemma RemoveNothing<K(!new), V>(m: OMap<K, V>)
    ensures m.RemoveAll({}) == m
  {
    ExcludingNothing(m.order);
    assert m.rows - {} == m.rows;
  }

  /** The keys of `keep` among the first keys of an order. */
  function Taken<K>(s: seq<K>, keep: set<K>): set<K> {
    set k | k in s && k in keep
  }

  lemma TakenStep<K(!new)>(s: seq<K>, keep: set<K>, i: nat)
    requires i < |s|
    ensures Taken(s[..i + 1], keep) == if s[i] in keep then Taken(s[..i], keep) + {s[i]} else Taken(s[..i], keep)
    ensures Taken(s[..0], keep) == {}
    ensures NoRepeats(s) ==> s[i] !in Taken(s[..i], keep)
  {
    assert s[..i + 1] == s[..i] + [s[i]];
  }

  lemma TakenAll<K(!new), V>(m: OMap<K, V>, keep: set<K>)
    requires m.Valid() && keep <= m.rows.Keys
    ensures Taken(m.order[..|m.order|], keep) == keep && Taken(m.order[..0], keep) == {}
    ensures m.order[..|m.order|] == m.order
  {
    assert m.order[..|m.order|] == m.order;
  }
}
