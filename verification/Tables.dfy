/** Append-only tables: maps that only gain rows. */
module Tables {

  ghost predicate Grows<K, V>(a: map<K, V>, b: map<K, V>) {
    forall k :: k in a ==> k in b && b[k] == a[k]
  }

  lemma Same<K, V>(a: map<K, V>)
    ensures Grows(a, a)
  {
  }

  lemma Added<K, V>(a: map<K, V>, k: K, v: V)
    requires k !in a
    ensures Grows(a, a[k := v])
  {
  }

  lemma Composes<K, V>(a: map<K, V>, b: map<K, V>, c: map<K, V>)
    requires Grows(a, b) && Grows(b, c)
    ensures Grows(a, c)
  {
  }

  lemma GrowsAt<K, V>(a: map<K, V>, b: map<K, V>, k: K)
    requires Grows(a, b) && k in a
    ensures k in b && b[k] == a[k]
  {
  }
}
