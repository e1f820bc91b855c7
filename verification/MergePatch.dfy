/** Merge patches on the members of one JSON object, following section 2 of RFC 7396: a null deletes
    the member, anything else sets it. */
module MergePatch {
  import opened Runs

  type Patch<!K, V> = map<K, Option<V>>

  function Apply<K, V>(target: map<K, V>, patch: Patch<K, V>): map<K, V> {
    map k | k in target.Keys + patch.Keys && (k in patch ==> patch[k].Some?) ::
      if k in patch then patch[k].value else target[k]
  }

  /** The patch that `MergeFrom(original)` makes for `modified`: what differs, and nulls for what is
      gone. */
  function Diff<K, V(==)>(original: map<K, V>, modified: map<K, V>): Patch<K, V> {
    map k | k in original.Keys + modified.Keys
            && !(k in original && k in modified && original[k] == modified[k]) ::
      if k in modified then Some(modified[k]) else None
  }

  /** A diff, applied to what it was made from, gives the modified object; applied to any newer
      object it leaves alone every member the two agree on. */
  lemma DiffApplies<K, V>(original: map<K, V>, modified: map<K, V>, newer: map<K, V>, k: K)
    ensures Apply(original, Diff(original, modified)) == modified
    ensures (k in original <==> k in modified) && (k in original ==> original[k] == modified[k])
            ==> (k in Apply(newer, Diff(original, modified)) <==> k in newer)
                && (k in newer ==> Apply(newer, Diff(original, modified))[k] == newer[k])
  {
    var again := Apply(original, Diff(original, modified));
    forall m | m in again.Keys + modified.Keys
      ensures m in again && m in modified && again[m] == modified[m]
    {
    }
    assert again.Keys == modified.Keys;
  }

  /** Of two patches on the same members, the later one alone decides. */
  lemma LastPatchDecides<K, V>(target: map<K, V>, first: Patch<K, V>, second: Patch<K, V>)
    requires first.Keys <= second.Keys
    ensures Apply(Apply(target, first), second) == Apply(target, second)
  {
  }

  /** Members a patch does not name stay as they are. */
  lemma OthersStay<K, V>(target: map<K, V>, patch: Patch<K, V>, k: K)
    requires k !in patch
    ensures k in Apply(target, patch) <==> k in target
    ensures k in target ==> Apply(target, patch)[k] == target[k]
  {
  }
}
