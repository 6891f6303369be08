/**
 * The server's in-memory TTL cache (`SimpleCache`) and its key generators.
 * The clock is passed in as `now` (milliseconds); the periodic sweep timer is not part of
 * this model.
 */
module Cache {
  import opened Wrappers

  /** Five minutes, the time to live `set` uses when none is given. */
  const DefaultTtl: int := 5 * 60 * 1000

  datatype Entry<V> = Entry(value: V, expires: int)

  /** An entry is stale once the clock has moved strictly past its expiry instant. */
  predicate Expired<V>(e: Entry<V>, now: int)
  {
    now > e.expires
  }

  /** What `get(key)` returns at time `now` from the entries `m`. */
  function Lookup<V>(m: map<string, Entry<V>>, key: string, now: int): (r: Option<V>)
    ensures r.Some? <==> key in m && m[key].expires >= now
    ensures r.Some? ==> r.value == m[key].value
  {
    if key !in m then None
    else if Expired(m[key], now) then None
    else Some(m[key].value)
  }

  /** The entries after `get(key)` at time `now`: a stale entry for `key` is evicted. */
  function AfterGet<V>(m: map<string, Entry<V>>, key: string, now: int): (r: map<string, Entry<V>>)
    ensures key in r <==> key in m && !Expired(m[key], now)
    ensures forall k :: k != key ==> (k in r <==> k in m)
    ensures forall k :: k in r ==> r[k] == m[k]
  {
    if key in m && Expired(m[key], now) then m - {key} else m
  }

  /** The entries `cleanup()` keeps at time `now`. */
  function Swept<V>(m: map<string, Entry<V>>, now: int): (r: map<string, Entry<V>>)
    ensures forall k :: k in r <==> k in m && !Expired(m[k], now)
    ensures forall k :: k in r ==> r[k] == m[k]
  {
    map k | k in m && !Expired(m[k], now) :: m[k]
  }

  class SimpleCache<V> {
    var entries: map<string, Entry<V>>

    constructor()
      ensures entries == map[]
    {
      entries := map[];
    }

    /** `set(key, value, ttl)`: the entry expires `ttl` milliseconds from now. */
    method Set(key: string, value: V, now: int, ttl: int := DefaultTtl)
      modifies this
      ensures entries == old(entries)[key := Entry(value, now + ttl)]
    {
      entries := entries[key := Entry(value, now + ttl)];
    }

    /** `get(key)`: a stale entry is deleted and reported as missing. */
    method Get(key: string, now: int) returns (r: Option<V>)
      modifies this
      ensures r == Lookup(old(entries), key, now)
      ensures entries == AfterGet(old(entries), key, now)
    {
      if key !in entries {
        return None;
      }
      var item := entries[key];
      if now > item.expires {
        entries := entries - {key};
        return None;
      }
      return Some(item.value);
    }

    method Delete(key: string)
      modifies this
      ensures entries == old(entries) - {key}
    {
      entries := entries - {key};
    }

    method Clear()
      modifies this
      ensures entries == map[]
    {
      entries := map[];
    }

    /** `cleanup()`: walks a snapshot of the keys and deletes every stale entry. */
    method Cleanup(now: int)
      modifies this
      ensures entries == Swept(old(entries), now)
    {
      var pending := entries.Keys;
      ghost var start := entries;
      while pending != {}
        invariant pending <= start.Keys
        invariant entries == map k | k in start && (k in pending || !Expired(start[k], now)) :: start[k]
        decreases |pending|
      {
        var key :| key in pending;
        if now > entries[key].expires {
          entries := entries - {key};
        }
        pending := pending - {key};
      }
    }
  }

  /** After `set(k, v, ttl)` at time `t`, `get(k)` returns `v` at every instant up to `t + ttl`. */
  lemma SetThenGet<V>(m: map<string, Entry<V>>, k: string, v: V, t: int, ttl: int, later: int)
    requires later <= t + ttl
    ensures Lookup(m[k := Entry(v, t + ttl)], k, later) == Some(v)
  {
  }

  /** ... and nothing strictly after that instant. */
  lemma SetThenGetAfterExpiry<V>(m: map<string, Entry<V>>, k: string, v: V, t: int, ttl: int, later: int)
    requires later > t + ttl
    ensures Lookup(m[k := Entry(v, t + ttl)], k, later) == None
    ensures AfterGet(m[k := Entry(v, t + ttl)], k, later) == m - {k}
  {
  }

  /** `set`, `delete` and `get` leave every other key as it was. */
  lemma OtherKeysUntouched<V>(m: map<string, Entry<V>>, k: string, other: string, v: V, expires: int, now: int)
    requires other != k
    ensures other in m[k := Entry(v, expires)] <==> other in m
    ensures other in m - {k} <==> other in m
    ensures other in AfterGet(m, k, now) <==> other in m
    ensures other in m ==>
      (m[k := Entry(v, expires)][other] == m[other]
       && (m - {k})[other] == m[other] && AfterGet(m, k, now)[other] == m[other])
  {
  }

  /** Sweeping does not change what `get` answers at the same instant. */
  lemma SweepPreservesLookup<V>(m: map<string, Entry<V>>, k: string, now: int)
    ensures Lookup(Swept(m, now), k, now) == Lookup(m, k, now)
  {
  }

  /** A second sweep at the same instant removes nothing more. */
  lemma SweepIdempotent<V>(m: map<string, Entry<V>>, now: int)
    ensures Swept(Swept(m, now), now) == Swept(m, now)
  {
  }

  /** After `clear()`, every `get` misses. */
  lemma ClearedMisses<V>(m: map<string, Entry<V>>, k: string, now: int)
    requires m == map[]
    ensures Lookup(m, k, now) == None
  {
  }

  /** `cacheKeys.user(id)`. */
  function UserKey(id: string): (k: string)
    ensures |k| == 5 + |id| && k[..5] == "user:" && k[5..] == id
  {
    "user:" + id
  }

  /** `cacheKeys.colleges()`. */
  function CollegesKey(): string
  {
    "colleges:all"
  }

  /** `cacheKeys.leaderboard(collegeId, period)`. */
  function LeaderboardKey(collegeId: string, period: string): (k: string)
    ensures |k| == 13 + |collegeId| + |period|
    ensures k[..12] == "leaderboard:" && k[12..12 + |collegeId|] == collegeId
    ensures k[12 + |collegeId|] == ':' && k[13 + |collegeId|..] == period
  {
    "leaderboard:" + collegeId + ":" + period
  }

  /** The three generators never produce the same key: their first characters differ. */
  lemma KeyFamiliesDisjoint(id: string, collegeId: string, period: string)
    ensures UserKey(id) != CollegesKey()
    ensures UserKey(id) != LeaderboardKey(collegeId, period)
    ensures CollegesKey() != LeaderboardKey(collegeId, period)
  {
    assert UserKey(id)[0] == 'u';
    assert CollegesKey()[0] == 'c';
    assert LeaderboardKey(collegeId, period)[0] == 'l';
  }

  lemma UserKeyInjective(a: string, b: string)
    requires UserKey(a) == UserKey(b)
    ensures a == b
  {
    assert a == UserKey(a)[5..];
  }

  /** Leaderboard keys are distinct for distinct arguments when college ids hold no ':'. */
  lemma LeaderboardKeyInjective(c1: string, p1: string, c2: string, p2: string)
    requires ':' !in c1 && ':' !in c2
    requires LeaderboardKey(c1, p1) == LeaderboardKey(c2, p2)
    ensures c1 == c2 && p1 == p2
  {
    var k := LeaderboardKey(c1, p1);
    FirstColonAfterPrefix(c1, p1);
    FirstColonAfterPrefix(c2, p2);
    assert |c1| == |c2|;
    assert c1 == k[12..12 + |c1|] == c2;
  }

  /** In a leaderboard key whose college id holds no ':', the first ':' after the prefix ends the id. */
  lemma FirstColonAfterPrefix(c: string, p: string)
    requires ':' !in c
    ensures forall i :: 12 <= i < 12 + |c| ==> LeaderboardKey(c, p)[i] != ':'
    ensures LeaderboardKey(c, p)[12 + |c|] == ':'
  {
    var k := LeaderboardKey(c, p);
    forall i | 12 <= i < 12 + |c| ensures k[i] != ':' {
      assert k[i] == c[i - 12];
    }
  }

  /** Without that condition two different leaderboards can share a cache key. */
  lemma LeaderboardKeyCollision()
    ensures LeaderboardKey("a:b", "c") == LeaderboardKey("a", "b:c")
  {
  }
}
