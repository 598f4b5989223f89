// The bounded cache of search results (internal/indexer/cache.go) against
// the unbounded map it stands for. Times are counts; 0 is the zero time.
module SearchCache {
  import opened Runs

  const MAX_ENTRIES := 64

  datatype Entry<R> = Entry(results: R, expires: nat)

  // The entry an eviction pass keeps as the oldest so far. The zero time
  // also stands for "none yet".
  function Older(oldest: nat, expires: nat): bool {
    oldest == 0 || expires < oldest
  }

  class Cache<R(0)> {
    var entries: map<string, Entry<R>>
    // Every put there has been, the last one for each key.
    ghost var puts: map<string, Entry<R>>

    ghost predicate Valid()
      reads this
    {
      && |entries| <= MAX_ENTRIES
      && entries.Keys <= puts.Keys
      && forall key | key in entries :: entries[key] == puts[key]
    }

    constructor ()
      ensures Valid() && entries == map[] && puts == map[]
    {
      entries, puts := map[], map[];
    }

    // A hit is the last put for the key in the unbounded map, unexpired; a
    // miss is a key never put, or expired, or evicted.
    method Get(key: string, now: nat) returns (r: Option<R>)
      requires Valid()
      ensures r.Some? ==> key in puts && r.value == puts[key].results && now < puts[key].expires
      ensures r.Some? <==> key in entries && now < entries[key].expires
    {
      if key !in entries || now >= entries[key].expires {
        return None;
      }
      return Some(entries[key].results);
    }

    // The entry an eviction takes: walked in any order, one that expires no
    // later than any other, if none has the zero time.
    method Soonest() returns (key: string)
      requires |entries| > 0
      ensures key in entries
      ensures (forall k | k in entries :: entries[k].expires > 0) ==>
                forall k | k in entries :: entries[key].expires <= entries[k].expires
    {
      var todo := entries.Keys;
      assert |todo| == |entries|;
      key := "";
      var oldest: nat := 0;
      while todo != {}
        invariant todo <= entries.Keys
        invariant todo != entries.Keys ==> key in entries && entries[key].expires == oldest
        invariant todo == entries.Keys ==> oldest == 0
        invariant (forall k | k in entries :: entries[k].expires > 0) ==>
                    forall k | k in entries && k !in todo :: oldest <= entries[k].expires
      {
        var k :| k in todo;
        if Older(oldest, entries[k].expires) {
          key, oldest := k, entries[k].expires;
        }
        todo := todo - {k};
      }
    }

    method Put(key: string, results: R, expires: nat, ttl: int)
      requires Valid()
      modifies this
      ensures Valid()
      ensures ttl < 0 ==> entries == old(entries) && puts == old(puts)
      ensures ttl >= 0 ==> puts == old(puts)[key := Entry(results, expires)]
      ensures ttl >= 0 ==> key in entries && entries[key] == Entry(results, expires)
      ensures ttl >= 0 && (key in old(entries) || |old(entries)| < MAX_ENTRIES) ==>
                entries == old(entries)[key := Entry(results, expires)]
      ensures ttl >= 0 && key !in old(entries) && |old(entries)| >= MAX_ENTRIES ==>
                exists gone :: Evicts(old(entries), gone)
                    && entries == (old(entries) - {gone})[key := Entry(results, expires)]
    {
      if ttl < 0 {
        return;
      }
      if key !in entries && |entries| >= MAX_ENTRIES {
        var gone := Soonest();
        assert Evicts(entries, gone);
        RemoveOne(entries, gone);
        entries := entries - {gone};
      }
      AddOne(entries, key, Entry(results, expires));
      entries := entries[key := Entry(results, expires)];
      puts := puts[key := Entry(results, expires)];
    }
  }

  // Taking this one out is right: nothing kept expires sooner.
  ghost predicate Evicts<R>(entries: map<string, Entry<R>>, gone: string) {
    && gone in entries
    && ((forall k | k in entries :: entries[k].expires > 0) ==>
          forall k | k in entries :: entries[gone].expires <= entries[k].expires)
  }

  lemma RemoveOne<R>(m: map<string, Entry<R>>, key: string)
    requires key in m
    ensures |m - {key}| == |m| - 1
  {
    assert (m - {key}).Keys == m.Keys - {key};
    assert |m.Keys| == |m| && |(m - {key}).Keys| == |m - {key}|;
  }

  lemma AddOne<R>(m: map<string, Entry<R>>, key: string, e: Entry<R>)
    ensures |m[key := e]| == |m| + if key in m then 0 else 1
  {
    assert m[key := e].Keys == m.Keys + {key};
    assert |m[key := e].Keys| == |m[key := e]| && |m.Keys| == |m|;
  }

  // What is in the cache and has not expired is lost only to an eviction,
  // and then everything kept expires no sooner: 63 results at least as
  // fresh have been stored since.
  lemma LostOnlyToFresher<R>(entries: map<string, Entry<R>>, key: string, e: Entry<R>, gone: string)
    requires |entries| == MAX_ENTRIES && key !in entries && Evicts(entries, gone)
    requires forall k | k in entries :: entries[k].expires > 0
    ensures var after := (entries - {gone})[key := e];
            && |after| == MAX_ENTRIES
            && |after - {key}| == MAX_ENTRIES - 1
            && forall k | k in after - {key} :: after[k].expires >= entries[gone].expires
  {
    RemoveOne(entries, gone);
    AddOne(entries - {gone}, key, e);
    RemoveOne((entries - {gone})[key := e], key);
  }
}
