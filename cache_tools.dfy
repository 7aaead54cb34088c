/**
 * The cache layer: a string-keyed cache object (Django's global `cache`)
 * and `safe_delete_pattern`, which drops the entries a wildcard pattern
 * names and falls back to clearing the whole cache when it cannot.
 */
module CacheTools {
  import opened Wrappers
  import opened Text

  /** What the configured backend offers `safe_delete_pattern`. */
  datatype Capability =
    | NativePatternDelete  // the backend has `delete_pattern` (a Redis-style backend)
    | EnumerableKeys       // no `delete_pattern`, but a local `_cache` dict whose keys can be listed
    | NoEnumerableKeys     // neither: no `_cache` attribute, or listing it raises

  /** The configured backend, a file-based cache: no `delete_pattern` and no `_cache`. */
  const FileBasedCache: Capability := NoEnumerableKeys

  /** `pattern.replace("*", "")`: the search base of the fallback. */
  function StripStars(p: string): (r: string)
    ensures '*' !in r
    ensures |r| <= |p|
  {
    WithoutCharGone(p, '*');
    Without(p, "*")
  }

  lemma StripStarsAppend(a: string, b: string)
    ensures StripStars(a + b) == StripStars(a) + StripStars(b)
  {
    WithoutCharAppend(a, b, '*');
  }

  /** Removing the stars of a star-free string leaves it as it is. */
  lemma StripStarsOfStarFree(s: string)
    requires '*' !in s
    ensures StripStars(s) == s
  {
    WithoutAbsent(s, "*");
  }

  /** Glob matching with `*` standing for any run of characters (other characters are literal). */
  predicate GlobMatch(p: string, k: string)
    decreases |p| + |k|
  {
    if p == [] then k == []
    else if p[0] == '*' then GlobMatch(p[1..], k) || (k != [] && GlobMatch(p, k[1..]))
    else k != [] && k[0] == p[0] && GlobMatch(p[1..], k[1..])
  }

  /** A pattern without `*` matches exactly itself. */
  lemma {:induction false} GlobLiteral(p: string, k: string)
    requires '*' !in p
    ensures GlobMatch(p, k) <==> p == k
    decreases |p|
  {
    if p != [] && k != [] {
      GlobLiteral(p[1..], k[1..]);
      assert p == [p[0]] + p[1..] && k == [k[0]] + k[1..];
    }
  }

  /** The pattern `s*` matches exactly the keys that start with `s`. */
  lemma {:induction false} GlobTrailingStar(s: string, k: string)
    requires '*' !in s
    ensures GlobMatch(s + "*", k) <==> s <= k
    decreases |s| + |k|
  {
    if s == [] {
      assert s + "*" == "*";
      StarMatchesAll(k);
    } else {
      assert (s + "*")[0] == s[0] && (s + "*")[1..] == s[1..] + "*";
      if k != [] {
        GlobTrailingStar(s[1..], k[1..]);
      }
    }
  }

  lemma {:induction false} StarMatchesAll(k: string)
    ensures GlobMatch("*", k)
    decreases |k|
  {
    if k == [] {
      assert GlobMatch("*"[1..], k);
    } else {
      StarMatchesAll(k[1..]);
    }
  }

  /** The keys of `m` that the fallback scan deletes: those containing `base`. */
  function MatchingKeys<V>(m: map<string, V>, base: string): (r: set<string>)
    ensures r <= m.Keys
    ensures forall k :: k in r <==> k in m && Contains(k, base)
  {
    set k | k in m && Contains(k, base)
  }

  /**
   * The cache `safe_delete_pattern(pattern)` leaves behind. A native
   * `delete_pattern` removes the keys matching the glob and nothing else,
   * and the cache is never cleared. Otherwise every listed key containing the
   * star-stripped pattern is deleted, and when nothing could be deleted
   * (no match, or no listable keys) the whole cache is cleared. No entry ever
   * changes its value: the routine only deletes.
   */
  function AfterDeletePattern<V>(m: map<string, V>, pattern: string, cap: Capability): (r: map<string, V>)
    ensures r.Keys <= m.Keys
    ensures forall k :: k in r ==> r[k] == m[k]
    ensures cap == NativePatternDelete ==> forall k :: k in m ==> (k in r <==> !GlobMatch(pattern, k))
    ensures cap != NativePatternDelete ==> forall k :: k in r ==> !Contains(k, StripStars(pattern))
    ensures cap == EnumerableKeys && MatchingKeys(m, StripStars(pattern)) != {} ==>
              forall k :: k in m ==> (k in r <==> !Contains(k, StripStars(pattern)))
    ensures cap != NativePatternDelete && MatchingKeys(m, StripStars(pattern)) == {} ==> r == map[]
    ensures cap == NoEnumerableKeys ==> r == map[]
  {
    match cap
    case NativePatternDelete => map k | k in m && !GlobMatch(pattern, k) :: m[k]
    case EnumerableKeys =>
      var base := StripStars(pattern);
      if MatchingKeys(m, base) != {} then map k | k in m && !Contains(k, base) :: m[k] else map[]
    case NoEnumerableKeys => map[]
  }

  /** The configured file-based backend always takes the clear-all branch. */
  lemma ConfiguredBackendClearsAll<V>(m: map<string, V>, pattern: string)
    ensures AfterDeletePattern(m, pattern, FileBasedCache) == map[]
  {
  }

  /**
   * The fallback matches substrings, not prefixes: dropping `user_projects_1`
   * also drops `user_projects_12`, another user's entry.
   */
  lemma SubstringMatchOverDeletes<V>(m: map<string, V>)
    requires "user_projects_12" in m
    ensures "user_projects_12" !in AfterDeletePattern(m, "user_projects_1", EnumerableKeys)
  {
    var base := "user_projects_1";
    assert base + "2" == "user_projects_12";
    ContainsInfix([], base, "2");
    assert [] + base + "2" == base + "2";
    StripStarsOfStarFree(base);
  }

  /** The version prefix a local-memory backend puts in front of every key it stores. */
  function MakeKey(key: string): string {
    ":1:" + key
  }

  /**
   * The fallback as written, run against a local-memory backend. That backend
   * stores each entry under `MakeKey(key)`, so the scan of `_cache` sees made
   * keys; `cache.delete(made)` makes the key once more and removes the entry
   * whose own key is `made`, which is none of the views' entries. A match
   * still sets the flag, so the cache is not cleared either.
   */
  function LocMemDeletePattern<V>(m: map<string, V>, pattern: string): (r: map<string, V>)
    ensures r.Keys <= m.Keys
    ensures (forall k :: k in m ==> !(":" <= k)) && MatchingKeys(m, StripStars(pattern)) != {} ==> r == m
  {
    var base := StripStars(pattern);
    var hits := set k | k in m && Contains(MakeKey(k), base) :: MakeKey(k);
    MadeKeysStillMatch(m, base);
    assert MatchingKeys(m, base) != {} ==> hits != {} by {
      if MatchingKeys(m, base) != {} {
        var k :| k in MatchingKeys(m, base);
        assert MakeKey(k) in hits;
      }
    }
    assert (forall k :: k in m ==> !(":" <= k)) ==> m - hits == m by {
      if forall k :: k in m ==> !(":" <= k) {
        assert forall s :: s in hits ==> ":" <= s;
        assert (m - hits).Keys == m.Keys;
      }
    }
    if hits == {} then map[] else m - hits
  }

  /** A made key contains whatever the key it was made from contains, and starts with a colon. */
  lemma MadeKeysStillMatch<V>(m: map<string, V>, base: string)
    ensures forall k :: k in m && Contains(k, base) ==> Contains(MakeKey(k), base)
    ensures forall k :: ":" <= MakeKey(k)
  {
    forall k | k in m && Contains(k, base) ensures Contains(MakeKey(k), base) {
      ContainsAfterPrefix(":1:", k, base);
    }
  }

  /**
   * On a local-memory backend the fallback misses: invalidating a key such as
   * `user_projects_5` leaves that very entry in place, where the intended scan
   * removes it.
   */
  lemma LocMemKeepsStaleEntry<V>(key: string, v: V)
    requires '*' !in key && key != [] && key[0] != ':'
    ensures key in LocMemDeletePattern(map[key := v], key)
    ensures key !in AfterDeletePattern(map[key := v], key, EnumerableKeys)
  {
    var m := map[key := v];
    StripStarsOfStarFree(key);
    ContainsInfix([], key, []);
    assert [] + key + [] == key;
    assert key in MatchingKeys(m, StripStars(key));
    assert forall k :: k in m ==> !(":" <= k);
  }

  /** Django's cache object, as a map from key to stored value. */
  class Cache<V> {
    var entries: map<string, V>
    const capability: Capability

    constructor (capability: Capability)
      ensures entries == map[] && this.capability == capability
    {
      entries := map[];
      this.capability := capability;
    }

    /** `cache.get(key)`: the stored value, or None on a miss. */
    method Get(key: string) returns (v: Option<V>)
      ensures v.Some? <==> key in entries
      ensures v.Some? ==> v.value == entries[key]
    {
      v := if key in entries then Some(entries[key]) else None;
    }

    /** `cache.set(key, value, timeout=600)`; the timeout is not modelled. */
    method Set(key: string, value: V)
      modifies this
      ensures entries == old(entries)[key := value]
    {
      entries := entries[key := value];
    }

    /** `cache.delete(key)`. */
    method Delete(key: string)
      modifies this
      ensures entries == old(entries) - {key}
    {
      entries := entries - {key};
    }

    /** `cache.clear()`. */
    method Clear()
      modifies this
      ensures entries == map[]
    {
      entries := map[];
    }

    /** `safe_delete_pattern(pattern)` run against this cache. */
    method SafeDeletePattern(pattern: string)
      modifies this
      ensures entries == AfterDeletePattern(old(entries), pattern, capability)
    {
      var deletedAny := false;
      if capability == NativePatternDelete {
        // cache.delete_pattern(pattern)
        entries := map k | k in entries && !GlobMatch(pattern, k) :: entries[k];
        deletedAny := true;
      } else if capability == EnumerableKeys {
        var base := StripStars(pattern);
        ghost var before := entries;
        var keys := entries.Keys;
        while keys != {}
          invariant keys <= before.Keys
          invariant entries.Keys == set k | k in before && (k in keys || !Contains(k, base))
          invariant forall k :: k in entries ==> entries[k] == before[k]
          invariant deletedAny <==> exists k :: k in before && k !in keys && Contains(k, base)
          decreases keys
        {
          var key :| key in keys;
          if Contains(key, base) {
            Delete(key);
            deletedAny := true;
          }
          keys := keys - {key};
        }
        assert deletedAny <==> MatchingKeys(before, base) != {};
      }
      if !deletedAny {
        Clear();
      }
    }
  }
}
