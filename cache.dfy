/**
 * The time-to-live cache of ya_pickledb: a list of (key, expiry) entries,
 * searched front to back, to which entries are appended and from which the
 * first entry with a given key is deleted.
 *
 * The wall clock is a parameter: `now` is the current instant as an integer
 * number of clock ticks, and a maximum age is a number of ticks.
 */
module TtlCache {
  import opened Wrappers

  /** A cached key and the last instant at which it is still fresh. */
  datatype TempObj = TempObj(key: string, expiry: int) {
    /** An entry is expired strictly after its expiry instant. */
    predicate IsExpired(now: int) {
      now > expiry
    }
  }

  /** The entry created for `key` at instant `now` with maximum age `maxAge`. */
  function NewTempObj(key: string, maxAge: int, now: int): (t: TempObj)
    ensures t.key == key
    ensures forall later :: t.IsExpired(later) <==> later > now + maxAge
  {
    TempObj(key, now + maxAge)
  }

  /** The position of the first entry for `key`, if there is one. */
  function Find(entries: seq<TempObj>, key: string): (r: Option<nat>)
    ensures r.None? <==> forall i :: 0 <= i < |entries| ==> entries[i].key != key
    ensures r.Some? ==> r.value < |entries| && entries[r.value].key == key
    ensures r.Some? ==> forall i :: 0 <= i < r.value ==> entries[i].key != key
  {
    if entries == [] then None
    else if entries[0].key == key then Some(0)
    else match Find(entries[1..], key)
      case None => None
      case Some(i) => Some(i + 1)
  }

  /** The first entry for `key`, if there is one. */
  function Lookup(entries: seq<TempObj>, key: string): (r: Option<TempObj>)
    ensures r.None? <==> forall i :: 0 <= i < |entries| ==> entries[i].key != key
    ensures r.Some? ==> r.value in entries && r.value.key == key
    ensures r.Some? ==> exists i :: 0 <= i < |entries| && entries[i] == r.value
                          && forall j :: 0 <= j < i ==> entries[j].key != key
  {
    match Find(entries, key)
    case None => None
    case Some(i) => Some(entries[i])
  }

  /**
   * The entries without the first one for `key`; the others keep their
   * order. Without an entry for `key`, nothing changes.
   */
  function Without(entries: seq<TempObj>, key: string): (r: seq<TempObj>)
    ensures Lookup(entries, key).None? ==> r == entries
    ensures Lookup(entries, key).Some? ==> |r| == |entries| - 1
    ensures Find(entries, key).Some? ==>
              forall j :: 0 <= j < Find(entries, key).value ==> r[j] == entries[j]
    ensures Find(entries, key).Some? ==>
              forall j :: Find(entries, key).value <= j < |r| ==> r[j] == entries[j + 1]
    ensures multiset(r) <= multiset(entries)
  {
    match Find(entries, key)
    case None => entries
    case Some(i) =>
      assert entries == entries[..i] + [entries[i]] + entries[i + 1..];
      entries[..i] + entries[i + 1..]
  }

  /**
   * Appending an entry never shadows an earlier one: the first entry for a
   * key stays the one that was first before, and the new entry is found
   * only for a key that had none.
   */
  lemma LookupAfterAdd(entries: seq<TempObj>, t: TempObj, key: string)
    ensures Lookup(entries + [t], key) ==
      if Lookup(entries, key).Some? then Lookup(entries, key)
      else if t.key == key then Some(t)
      else None
  {
    var s := entries + [t];
    match Find(entries, key)
    case Some(i) =>
      assert s[i] == entries[i];
      assert Find(s, key) == Some(i);
    case None =>
      if t.key == key {
        assert s[|entries|] == t;
        assert Find(s, key) == Some(|entries|);
      }
  }

  /** Deleting a key that was just added, and had no entry before, restores the cache. */
  lemma DeleteAfterAdd(entries: seq<TempObj>, t: TempObj)
    requires Lookup(entries, t.key).None?
    ensures Without(entries + [t], t.key) == entries
  {
    var s := entries + [t];
    assert s[|entries|] == t;
    assert Find(s, t.key) == Some(|entries|);
    assert s[..|entries|] == entries;
  }

  /** The first entry for `key` is at `m` when `m` holds `key` and no earlier entry does. */
  lemma FindAt(entries: seq<TempObj>, key: string, m: nat)
    requires m < |entries| && entries[m].key == key
    requires forall j :: 0 <= j < m ==> entries[j].key != key
    ensures Find(entries, key) == Some(m)
  {
  }

  /** Deleting one key leaves the first entry of every other key as it was. */
  lemma LookupAfterDelete(entries: seq<TempObj>, key: string, other: string)
    requires other != key
    ensures Lookup(Without(entries, key), other) == Lookup(entries, other)
  {
    var r := Without(entries, key);
    match Find(entries, key)
    case None =>
    case Some(i) =>
      match Find(entries, other)
      case None =>
        forall j | 0 <= j < |r| ensures r[j].key != other {
          if j < i {
            assert r[j] == entries[j];
          } else {
            assert r[j] == entries[j + 1];
          }
        }
      case Some(k) =>
        var m := if k < i then k else k - 1;
        forall j | 0 <= j < m ensures r[j].key != other {
          assert r[j] == entries[j] || r[j] == entries[j + 1];
        }
        assert r[m] == entries[k];
        FindAt(r, other, m);
  }

  class Cache {
    /** The entries, oldest first; a key may have several. */
    var cache: seq<TempObj>

    /** An empty cache. */
    constructor ()
      ensures cache == []
    {
      cache := [];
    }

    /** The first entry for `key`, searched front to back, or None. */
    method GetByKey(key: string) returns (el: Option<TempObj>)
      ensures el == Lookup(cache, key)
    {
      el := None;
      var i := 0;
      while i < |cache|
        invariant 0 <= i <= |cache|
        invariant forall j :: 0 <= j < i ==> cache[j].key != key
      {
        if cache[i].key == key {
          el := Some(cache[i]);
          assert Find(cache, key) == Some(i);
          break;
        }
        i := i + 1;
      }
    }

    /**
     * Appends an entry for `key` that expires `maxAge` ticks after `now`;
     * an existing entry for `key` is kept.
     */
    method AddKeyToCache(key: string, maxAge: int, now: int)
      modifies this
      ensures cache == old(cache) + [NewTempObj(key, maxAge, now)]
      ensures Lookup(cache, key) ==
        if Lookup(old(cache), key).Some? then Lookup(old(cache), key)
        else Some(NewTempObj(key, maxAge, now))
    {
      LookupAfterAdd(cache, NewTempObj(key, maxAge, now), key);
      cache := cache + [NewTempObj(key, maxAge, now)];
    }

    /** Deletes the first entry for `key`, if any; the rest keep their order. */
    method DeleteKey(key: string)
      modifies this
      ensures cache == Without(old(cache), key)
    {
      var i := 0;
      while i < |cache|
        invariant 0 <= i <= |cache|
        invariant cache == old(cache)
        invariant forall j :: 0 <= j < i ==> cache[j].key != key
      {
        if cache[i].key == key {
          assert Find(cache, key) == Some(i);
          cache := cache[..i] + cache[i + 1..];
          break;
        }
        i := i + 1;
      }
    }

    /**
     * Whether the first entry for `key` is expired at `now`; false when
     * `key` has no entry.
     */
    method IsKeyExpired(key: string, now: int) returns (expired: bool)
      ensures Lookup(cache, key).None? ==> !expired
      ensures Lookup(cache, key).Some? ==> expired == Lookup(cache, key).value.IsExpired(now)
    {
      var el := GetByKey(key);
      expired := if el.Some? then el.value.IsExpired(now) else false;
    }

    /** The key of every entry, in order, expired or not. */
    function GetCachedKeys(): (keys: seq<string>)
      reads this
      ensures |keys| == |cache|
      ensures forall i :: 0 <= i < |cache| ==> keys[i] == cache[i].key
      ensures forall k :: k in keys <==> Lookup(cache, k).Some?
    {
      var entries := cache;
      seq(|entries|, i requires 0 <= i < |entries| => entries[i].key)
    }
  }

  /**
   * Two entries for one key: the older one decides expiry until it is
   * deleted, after which the newer one does.
   */
  method ShadowedEntryScenario() returns (before: bool, after: bool, keys: seq<string>)
    ensures before && !after
    ensures keys == ["k"]
  {
    var c := new Cache();
    c.AddKeyToCache("k", 10, 0);
    c.AddKeyToCache("k", 100, 0);
    before := c.IsKeyExpired("k", 50);
    c.DeleteKey("k");
    after := c.IsKeyExpired("k", 50);
    keys := c.GetCachedKeys();
  }
}
