/** How the size of a map changes with one key. */
module Maps {

  lemma SizeOfKeys<K, V>(m: map<K, V>)
    ensures |m| == |m.Keys|
  {
  }

  lemma SizePut<K, V>(m: map<K, V>, k: K, v: V)
    ensures |m[k := v]| == |m| + if k in m then 0 else 1
  {
    assert m[k := v].Keys == m.Keys + {k};
    SizeOfKeys(m[k := v]);
    SizeOfKeys(m);
  }

  lemma SizeDrop<K, V>(m: map<K, V>, k: K)
    ensures |m - {k}| == |m| - if k in m then 1 else 0
  {
    assert (m - {k}).Keys == m.Keys - {k};
    SizeOfKeys(m - {k});
    SizeOfKeys(m);
  }
}
