/** A directory of small files on a disk that may lose what was not synced. */
module Durable {
  import opened Common

  /** `files` is what the directory shows; `unsynced` remembers, for each name changed since
      the last successful directory sync, what a power loss may bring back. */
  datatype Directory<K(==), V> = Disk(files: map<K, V>, unsynced: map<K, Option<V>>)
  {
    function At(k: K): Option<V> { if k in files then Some(files[k]) else None }

    function Written(k: K, v: V): Directory<K, V> { Disk(files[k := v], Dirty(k)) }

    function Removed(k: K): Directory<K, V> { Disk(files - {k}, Dirty(k)) }

    function Dirty(k: K): map<K, Option<V>> {
      if k in unsynced then unsynced else unsynced[k := At(k)]
    }

    function Synced(): Directory<K, V> { Disk(files, map[]) }

    /** Power loss: the names in `back` return to their old content; the rest is durable. */
    function Reverted(back: set<K>): Directory<K, V> {
      Disk(map k | k in files.Keys + unsynced.Keys
           && (if k in back && k in unsynced then unsynced[k].Some? else k in files)
             :: if k in back && k in unsynced then unsynced[k].value else files[k],
           map[])
    }
  }

  /** A synced write survives every power loss.  One that is not known to be synced shows, after
      a power loss, either the new content or what was durable before; other names keep what
      they would have kept without it. */
  lemma WrittenThenLost<K, V>(d: Directory<K, V>, k: K, v: V, back: set<K>, j: K)
    ensures d.Written(k, v).Synced().Reverted(back).At(k) == Some(v)
    ensures d.Written(k, v).Reverted(back).At(k) == if k in back
            then (if k in d.unsynced then d.unsynced[k] else d.At(k)) else Some(v)
    ensures j != k ==> d.Written(k, v).Reverted(back).At(j) == d.Reverted(back).At(j)
  {
  }

  /** How a durable write or removal ends: done and synced, failed without effect, or done but
      not known to be synced. */
  datatype Outcome = Done | NoEffect | Unsynced
}
