/**
 * The shared state every view reads and writes: the database tables and
 * Django's global cache object. A cached value is an evaluated queryset,
 * i.e. the set of primary keys it returned.
 */
module Db {
  import opened Http
  import opened ProjectModels
  import opened CacheTools

  /** What an operation answers together with the tables it leaves behind. */
  datatype Outcome<R> = Outcome(result: R, tables: Tables)

  /** The cache's contents: key to evaluated queryset. */
  type Entries = map<string, set<nat>>

  /** What a view answers, with the tables and the cache it leaves behind. */
  datatype Effect<R> = Effect(result: R, tables: Tables, entries: Entries)

  /**
   * The cache after a `get_queryset` that reads `key`: unchanged on a hit,
   * and holding `value` under `key` after a miss.
   */
  function Remember(entries: Entries, key: string, value: set<nat>): (r: Entries)
    ensures key in r
    ensures key in entries ==> r == entries
    ensures key !in entries ==> r == entries[key := value]
  {
    if key in entries then entries else entries[key := value]
  }

  /** An authenticated request user is a stored account. */
  predicate KnownUser(t: Tables, actor: RequestUser) {
    actor.Known? ==> actor.id in t.users
  }

  /** `request.user.is_superuser`. */
  predicate IsSuperuser(t: Tables, actor: RequestUser) {
    actor.Known? && actor.id in t.users && t.users[actor.id].isSuperuser
  }

  class Database {
    var tables: Tables
    const cache: Cache<set<nat>>

    constructor (capability: Capability)
      ensures tables == EmptyTables
      ensures fresh(cache) && cache.entries == map[] && cache.capability == capability
    {
      tables := EmptyTables;
      cache := new Cache(capability);
    }
  }
}
