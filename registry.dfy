/**
 * The user registries: dictionaries from a connection key to the user object
 * registered under it. `ConnectedUsers` is keyed by network end point and
 * swallows every failure of a removal; `ChatUsers` (two copies in the
 * repository, identical in behaviour) is keyed by a string.
 */
module Registry {
  import opened Wrappers

  /** `Chat/ConnectedUsers`: the end point to user dictionary. */
  class ConnectedUsers<K(==), V> {
    var users: map<K, V>

    constructor ()
      ensures users == map[]
    {
      users := map[];
    }

    /** `TryAdd`: registers `user` under `key` unless the key is taken. */
    method AddUser(key: K, user: V)
      modifies this
      ensures key !in old(users) ==> users == old(users)[key := user]
      ensures key in old(users) ==> users == old(users)
      ensures TryGetUser(key) == Some(if key in old(users) then old(users)[key] else user)
    {
      if key !in users {
        users := users[key := user];
      }
    }

    /**
     * `TryRemove` inside a catch-all: `None` stands for a null key, on which
     * the dictionary throws and the method answers true.
     */
    method RemoveUser(key: Option<K>) returns (removed: bool)
      modifies this
      ensures key.None? ==> removed && users == old(users)
      ensures key.Some? ==> removed == (key.value in old(users)) && users == old(users) - {key.value}
      ensures key.Some? ==> TryGetUser(key.value) == None
    {
      if key.None? {
        removed := true;
      } else {
        removed := key.value in users;
        users := users - {key.value};
      }
    }

    /** `TryGetValue`: the user registered under `key`, if any. */
    function TryGetUser(key: K): (r: Option<V>)
      reads this
      ensures r.Some? <==> key in users
      ensures r.Some? ==> r.value == users[key]
    {
      if key in users then Some(users[key]) else None
    }
  }

  /**
   * `Chat/ChatUsers` and `Common/ChatUsers`: the registry the message
   * processor looks senders up in. The source declares it as a class of its
   * own with the same `TryAdd`/`TryGetValue` code as `ConnectedUsers`, so its
   * `AddUser` and `TryGetUser` deliberately mirror those above; only
   * `RemoveUser` differs (no null key, no swallowed exception).
   */
  class ChatUsers<K(==), V> {
    var users: map<K, V>

    constructor ()
      ensures users == map[]
    {
      users := map[];
    }

    /** `TryAdd`: registers `user` under `key` unless the key is taken. */
    method AddUser(key: K, user: V)
      modifies this
      ensures key !in old(users) ==> users == old(users)[key := user]
      ensures key in old(users) ==> users == old(users)
      ensures TryGetUser(key) == Some(if key in old(users) then old(users)[key] else user)
    {
      if key !in users {
        users := users[key := user];
      }
    }

    /** `TryRemove`: true exactly when the key was registered. */
    method RemoveUser(key: K) returns (removed: bool)
      modifies this
      ensures removed == (key in old(users))
      ensures users == old(users) - {key}
      ensures TryGetUser(key) == None
    {
      removed := key in users;
      users := users - {key};
    }

    /** `TryGetValue`: the user registered under `key`, if any. */
    function TryGetUser(key: K): (r: Option<V>)
      reads this
      ensures r.Some? <==> key in users
      ensures r.Some? ==> r.value == users[key]
    {
      if key in users then Some(users[key]) else None
    }
  }
}
