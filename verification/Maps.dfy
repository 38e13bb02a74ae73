/** Go's map assignment and deletion. */
module Maps {
  /** `m[k] = v` */
  function With<K(!new), V>(m: map<K, V>, k: K, v: V): (r: map<K, V>)
    ensures k in r && r[k] == v
    ensures forall j :: j != k ==> (j in r <==> j in m) && (j in m ==> r[j] == m[j])
    ensures |r| == |m| + if k in m then 0 else 1
  {
    assert m[k := v].Keys == m.Keys + {k};
    m[k := v]
  }

  /** `delete(m, k)` */
  function Without<K(!new), V>(m: map<K, V>, k: K): (r: map<K, V>)
    ensures forall j :: j in r <==> j in m && j != k
    ensures forall j :: j in r ==> r[j] == m[j]
    ensures |r| == |m| - if k in m then 1 else 0
  {
    assert (m - {k}).Keys == m.Keys - {k};
    m - {k}
  }
}
