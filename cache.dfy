/**
 * The process-wide content cache of db/cache.go: a map from cache key to the
 * bytes and content type of one built file. The Go code keeps it in a global
 * `sync.Map`; run sequentially that is a finite map, held here by a class
 * whose methods update it in place.
 */
module Cache {
  import opened Wrappers
  import opened GoStrings

  newtype byte = x: int | 0 <= x < 256

  datatype CacheEntry = CacheEntry(data: seq<byte>, contentType: string)

  /** The zero value `CacheEntry{}` of Go. */
  const EmptyEntry: CacheEntry := CacheEntry([], "")

  datatype CacheError = ErrKeyNotFound

  /** Go's `string(b)` on a byte slice: one character per byte. */
  function BytesToString(b: seq<byte>): (s: string)
    ensures |s| == |b|
    ensures forall i :: 0 <= i < |b| ==> s[i] as int == b[i] as int
  {
    seq(|b|, i requires 0 <= i < |b| => b[i] as int as char)
  }

  /** What a point read finds in cache contents `m`. */
  function Lookup(m: map<string, CacheEntry>, key: string): (CacheEntry, Option<CacheError>) {
    if key in m then (m[key], None) else (EmptyEntry, Some(ErrKeyNotFound))
  }

  /** The contents left after deleting every key that starts with `prefix`. */
  function WithoutPrefix(m: map<string, CacheEntry>, prefix: string): map<string, CacheEntry> {
    map k | k in m && !HasPrefix(k, prefix) :: m[k]
  }

  class ContentCache {
    var entries: map<string, CacheEntry>

    /** InitCache: a fresh, empty cache. */
    constructor InitCache()
      ensures entries == map[]
    {
      entries := map[];
    }

    /** SetKey: stores the entry for `key`, replacing any entry it had; never fails. */
    method SetKey(key: string, value: seq<byte>, contentType: string) returns (err: Option<CacheError>)
      modifies this
      ensures err == None
      ensures entries == old(entries)[key := CacheEntry(value, contentType)]
    {
      entries := entries[key := CacheEntry(value, contentType)];
      err := None;
    }

    /** GetValue: the stored entry, or the empty entry with ErrKeyNotFound. */
    method GetValue(key: string) returns (entry: CacheEntry, err: Option<CacheError>)
      ensures key in entries ==> entry == entries[key] && err == None
      ensures key !in entries ==> entry == EmptyEntry && err == Some(ErrKeyNotFound)
      ensures (entry, err) == Lookup(entries, key)
    {
      if key in entries {
        entry, err := entries[key], None;
      } else {
        entry, err := EmptyEntry, Some(ErrKeyNotFound);
      }
    }

    /** ClearCacheByPrefix: walks every key and deletes the ones that start with `prefix`. */
    method ClearCacheByPrefix(prefix: string) returns (err: Option<CacheError>)
      modifies this
      ensures err == None
      ensures entries == WithoutPrefix(old(entries), prefix)
    {
      var pending := entries.Keys;
      while pending != {}
        invariant pending <= old(entries).Keys
        invariant entries == map k | k in old(entries) && (k in pending || !HasPrefix(k, prefix)) :: old(entries)[k]
        decreases pending
      {
        var k :| k in pending;
        if HasPrefix(k, prefix) {
          entries := entries - {k};
        }
        pending := pending - {k};
      }
      err := None;
    }

    /**
     * GetCacheByPrefix: a new map holding, for every stored key that starts
     * with `prefix`, the entry's data as a string; the content type is dropped.
     */
    method GetCacheByPrefix(prefix: string) returns (result: map<string, string>, err: Option<CacheError>)
      ensures err == None
      ensures forall k :: k in result <==> k in entries && HasPrefix(k, prefix)
      ensures forall k :: k in result ==> result[k] == BytesToString(entries[k].data)
    {
      result := map[];
      var pending := entries.Keys;
      while pending != {}
        invariant pending <= entries.Keys
        invariant forall k :: k in result <==> k in entries && k !in pending && HasPrefix(k, prefix)
        invariant forall k :: k in result ==> result[k] == BytesToString(entries[k].data)
        decreases pending
      {
        var k :| k in pending;
        if HasPrefix(k, prefix) {
          result := result[k := BytesToString(entries[k].data)];
        }
        pending := pending - {k};
      }
      err := None;
    }
  }

  /** A read after a write of `key` returns exactly what was written, with no error. */
  lemma LookupAfterSet(m: map<string, CacheEntry>, key: string, value: seq<byte>, contentType: string)
    ensures Lookup(m[key := CacheEntry(value, contentType)], key) == (CacheEntry(value, contentType), None)
  {
  }

  /** A write of `key` leaves what every other key reads unchanged. */
  lemma LookupOtherAfterSet(m: map<string, CacheEntry>, key: string, other: string, e: CacheEntry)
    requires other != key
    ensures Lookup(m[key := e], other) == Lookup(m, other)
  {
  }

  /** Two writes of the same key leave only the second entry. */
  lemma SecondSetReplaces(m: map<string, CacheEntry>, key: string, e1: CacheEntry, e2: CacheEntry)
    ensures m[key := e1][key := e2] == m[key := e2]
  {
  }

  /** After a prefix delete no key starts with the prefix, every other key keeps its entry, and a read of a deleted key misses. */
  lemma WithoutPrefixContents(m: map<string, CacheEntry>, prefix: string)
    ensures forall k :: k in WithoutPrefix(m, prefix) ==> !HasPrefix(k, prefix)
    ensures forall k :: k in m && !HasPrefix(k, prefix) ==> k in WithoutPrefix(m, prefix) && WithoutPrefix(m, prefix)[k] == m[k]
    ensures forall k :: HasPrefix(k, prefix) ==> Lookup(WithoutPrefix(m, prefix), k) == (EmptyEntry, Some(ErrKeyNotFound))
  {
  }

  /** Deleting the same prefix twice is the same as deleting it once. */
  lemma WithoutPrefixIdempotent(m: map<string, CacheEntry>, prefix: string)
    ensures WithoutPrefix(WithoutPrefix(m, prefix), prefix) == WithoutPrefix(m, prefix)
  {
  }

  /** Every key starts with "", so deleting the prefix "" empties the cache. */
  lemma WithoutEmptyPrefix(m: map<string, CacheEntry>)
    ensures WithoutPrefix(m, "") == map[]
  {
    assert forall k :: HasPrefix(k, "");
  }
}
