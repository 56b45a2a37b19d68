/**
 * The host's user-meta store: one string per (user id, meta key). A key that
 * was never written reads as the empty string.
 */
module UserMeta {

  type UserId = nat
  type MetaKey = string
  type MetaTable = map<(UserId, MetaKey), string>

  /** A single-value read of one user's meta entry (get_the_author_meta on a meta key). */
  function GetMeta(t: MetaTable, user: UserId, key: MetaKey): (r: string)
    ensures (user, key) in t ==> r == t[(user, key)]
    ensures r != "" ==> (user, key) in t
  {
    if (user, key) in t then t[(user, key)] else ""
  }

  /** The store the host keeps; update_user_meta overwrites one entry in place. */
  class UserMetaStore {
    var table: MetaTable

    constructor (initial: MetaTable)
      ensures table == initial
    {
      table := initial;
    }

    method Update(user: UserId, key: MetaKey, value: string)
      modifies this
      ensures table == old(table)[(user, key) := value]
    {
      table := table[(user, key) := value];
    }
  }
}
