/** Counting facts about finite maps that the inflight and gauge proofs share. */
module Collections {

  /** The keys of `m` whose value satisfies `f`. */
  function KeysWhere<K, V>(m: map<K, V>, f: V -> bool): set<K> {
    set k | k in m && f(m[k])
  }

  function One(b: bool): nat {
    if b then 1 else 0
  }

  /** Storing `v` under `k` moves the count by what `k` counted before and counts now. */
  lemma CountUpdate<K, V>(m: map<K, V>, f: V -> bool, k: K, v: V)
    ensures |KeysWhere(m[k := v], f)| == |KeysWhere(m, f)| - One(k in m && f(m[k])) + One(f(v))
  {
    var before, after := KeysWhere(m, f), KeysWhere(m[k := v], f);
    assert after - {k} == before - {k};
    assert k in before <==> k in m && f(m[k]);
    assert k in after <==> f(v);
    CardWithout(before, k);
    CardWithout(after, k);
  }

  /** Deleting `k` moves the count by what `k` counted before. */
  lemma CountRemove<K, V>(m: map<K, V>, f: V -> bool, k: K)
    ensures |KeysWhere(m - {k}, f)| == |KeysWhere(m, f)| - One(k in m && f(m[k]))
  {
    var before := KeysWhere(m, f);
    assert KeysWhere(m - {k}, f) == before - {k};
    assert k in before <==> k in m && f(m[k]);
    CardWithout(before, k);
  }

  lemma CardWithout<K>(s: set<K>, k: K)
    ensures |s - {k}| == |s| - One(k in s)
  {
  }

  lemma MapUpdateSize<K, V>(m: map<K, V>, k: K, v: V)
    ensures |m[k := v]| == |m| + One(k !in m)
  {
  }

  lemma MapRemoveSize<K, V>(m: map<K, V>, k: K)
    ensures |m - {k}| == |m| - One(k in m)
  {
  }

  /** Distinct keys with distinct values: as many values as keys. */
  lemma {:induction false} DistinctValues<K, V>(m: map<K, V>)
    requires forall k <- m, k' <- m :: m[k] == m[k'] ==> k == k'
    ensures |m.Values| == |m|
    decreases |m|
  {
    if k :| k in m {
      var rest := m - {k};
      MapRemoveSize(m, k);
      DistinctValues(rest);
      assert m.Values == rest.Values + {m[k]} by {
        forall v <- m.Values ensures v in rest.Values + {m[k]} {
          var j :| j in m && m[j] == v;
          assert j != k ==> j in rest;
        }
      }
    } else {
      assert m == map[];
    }
  }

  lemma {:induction false} UpperBound(s: set<nat>) returns (b: nat)
    ensures forall n <- s :: n < b
    decreases |s|
  {
    if n :| n in s {
      var rest := UpperBound(s - {n});
      b := if rest > n then rest else n + 1;
      assert s == s - {n} + {n};
    } else {
      b := 0;
    }
  }

  /** One element changes sides. */
  lemma MoveOver<T>(left: set<T>, done: set<T>, k: T)
    requires k in left && left !! done
    ensures left - {k} !! done + {k} && (left - {k}) + (done + {k}) == left + done && |done + {k}| == |done| + 1
  {
  }
}
