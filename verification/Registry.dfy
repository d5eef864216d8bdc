/** Two maps that hold the same keys, one entry of the first made from each entry of the second. */
module Registry {
  ghost predicate Made<K, R, I>(rec: map<K, R>, iss: map<K, I>, make: (K, I) -> R) {
    rec.Keys == iss.Keys && forall k <- iss :: rec[k] == make(k, iss[k])
  }

  ghost predicate Every<K, I>(iss: map<K, I>, ok: (K, I) -> bool) { forall k <- iss :: ok(k, iss[k]) }

  /** Each entry's slot in minted holds that entry's secret. */
  ghost predicate Slotted<K, I, S(!new), V(!new)>(
    iss: map<K, I>, slot: (K, I) -> S, secret: I -> V, minted: map<S, V>)
  {
    forall k <- iss :: slot(k, iss[k]) in minted && minted[slot(k, iss[k])] == secret(iss[k])
  }

  lemma MadeAdd<K, R, I>(rec: map<K, R>, iss: map<K, I>, make: (K, I) -> R, k: K, i: I)
    requires Made(rec, iss, make)
    ensures Made(rec[k := make(k, i)], iss[k := i], make)
  {
  }

  lemma EveryAdd<K, I>(iss: map<K, I>, ok: (K, I) -> bool, k: K, i: I)
    requires Every(iss, ok) && ok(k, i)
    ensures Every(iss[k := i], ok)
  {
  }

  lemma SlottedGrow<K, I, S(!new), V(!new)>(
    iss: map<K, I>, slot: (K, I) -> S, secret: I -> V, minted: map<S, V>, s: S, v: V)
    requires Slotted(iss, slot, secret, minted) && s !in minted
    ensures Slotted(iss, slot, secret, minted[s := v])
  {
  }

  lemma SlottedAdd<K, I, S(!new), V(!new)>(
    iss: map<K, I>, slot: (K, I) -> S, secret: I -> V, minted: map<S, V>, k: K, i: I)
    requires Slotted(iss, slot, secret, minted) && slot(k, i) !in minted
    ensures Slotted(iss[k := i], slot, secret, minted[slot(k, i) := secret(i)])
  {
  }

  ghost predicate Within<S, V>(a: map<S, V>, b: map<S, V>) { forall k <- a :: k in b && a[k] == b[k] }

  lemma WithinAdd<S, V>(a: map<S, V>, b: map<S, V>, k: S, v: V)
    requires Within(a, b)
    ensures Within(a[k := v], b[k := v])
  {
  }

  lemma WithinRemove<S, V>(a: map<S, V>, b: map<S, V>, k: S)
    requires Within(a, b)
    ensures Within(a - {k}, b)
  {
  }

  lemma WithinGrow<S, V>(a: map<S, V>, k: S, v: V)
    requires k !in a
    ensures Within(a, a[k := v])
  {
  }
}
