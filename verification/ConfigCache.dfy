/** The cache of configurations that checkSingle has visited: buckets of bitsets and states under the bitset's hash. */
module ConfigCache {
  import opened Bitset

  datatype CacheEntry<S> = CacheEntry(linearized: array<bv64>, state: S)

  /** A hash as the key of a bucket. */
  datatype Key = Key(hash: bv64)

  type Cache<S> = map<Key, seq<CacheEntry<S>>>

  /** The bucket for a key; a key without one has the empty bucket. */
  function Bucket<S>(cache: Cache<S>, key: Key): seq<CacheEntry<S>> {
    if key in cache then cache[key] else []
  }

  function Filing<S>(cache: Cache<S>, key: Key, entry: CacheEntry<S>): Cache<S> {
    cache[key := Bucket(cache, key) + [entry]]
  }

  lemma BucketAfter<S>(cache: Cache<S>, key: Key, entry: CacheEntry<S>, other: Key)
    ensures Bucket(Filing(cache, key, entry), other) == Bucket(cache, other) + (if other == key then [entry] else [])
  {
  }

  ghost function KeyOf<S>(e: CacheEntry<S>): Key
    reads e.linearized
  {
    Key(HashOf(e.linearized[..]))
  }

  /** The configuration an entry stands for: the operations linearized, and the state they lead to. */
  ghost function ConfigOf<S>(e: CacheEntry<S>): (set<nat>, S)
    reads e.linearized
  {
    (Members(e.linearized[..]), e.state)
  }

  /** Every entry lies in the bucket of its own key. */
  ghost predicate Filed<S>(cache: Cache<S>, repr: set<array<bv64>>)
    reads repr
  {
    forall key, i: nat | i < |Bucket(cache, key)| :: FiledAt(cache, repr, key, i)
  }

  ghost predicate FiledAt<S>(cache: Cache<S>, repr: set<array<bv64>>, key: Key, i: nat)
    requires i < |Bucket(cache, key)|
    reads repr
  {
    Bucket(cache, key)[i].linearized in repr && KeyOf(Bucket(cache, key)[i]) == key
  }

  /** Every entry is one of the arrays `repr`, `words` long, and its configuration was seen. */
  ghost predicate SeenAt<S>(cache: Cache<S>, repr: set<array<bv64>>, words: nat, seen: set<(set<nat>, S)>, key: Key,
                            i: nat)
    requires i < |Bucket(cache, key)|
    reads repr
  {
    var e := Bucket(cache, key)[i];
    e.linearized in repr && e.linearized.Length == words && ConfigOf(e) in seen
  }

  ghost predicate StoredAt<S>(cache: Cache<S>, repr: set<array<bv64>>, c: (set<nat>, S), key: Key, i: nat)
    reads repr
  {
    i < |Bucket(cache, key)| && Bucket(cache, key)[i].linearized in repr && ConfigOf(Bucket(cache, key)[i]) == c
  }

  ghost predicate Stored<S>(cache: Cache<S>, repr: set<array<bv64>>, c: (set<nat>, S))
    reads repr
  {
    exists key, i: nat :: StoredAt(cache, repr, c, key, i)
  }

  /** The entries of the cache are those of the configurations `seen`. */
  ghost predicate Holds<S>(cache: Cache<S>, repr: set<array<bv64>>, words: nat, seen: set<(set<nat>, S)>)
    reads repr
  {
    && (forall key, i: nat | i < |Bucket(cache, key)| :: SeenAt(cache, repr, words, seen, key, i))
    && (forall c | c in seen :: Stored(cache, repr, c))
  }

  /** The cache holds the configurations `seen`, in arrays of its own, each under its hash. */
  ghost predicate Remembers<S>(cache: Cache<S>, repr: set<array<bv64>>, words: nat, seen: set<(set<nat>, S)>)
    reads repr
  {
    Filed(cache, repr) && Holds(cache, repr, words, seen)
  }

  lemma SameConfigSameKey<S>(e: CacheEntry<S>, f: CacheEntry<S>)
    requires e.linearized.Length == f.linearized.Length && ConfigOf(e) == ConfigOf(f)
    ensures KeyOf(e) == KeyOf(f)
  {
    EqualSetsHashEqually(e.linearized[..], f.linearized[..]);
  }

  /** A visited configuration is found in the one bucket that is searched for it. */
  lemma InItsBucket<S>(cache: Cache<S>, repr: set<array<bv64>>, words: nat, seen: set<(set<nat>, S)>,
                       entry: CacheEntry<S>)
    returns (i: nat)
    requires Remembers(cache, repr, words, seen) && entry.linearized.Length == words && ConfigOf(entry) in seen
    ensures StoredAt(cache, repr, ConfigOf(entry), KeyOf(entry), i)
  {
    assert Stored(cache, repr, ConfigOf(entry));
    var key, i': nat :| StoredAt(cache, repr, ConfigOf(entry), key, i');
    assert SeenAt(cache, repr, words, seen, key, i') && FiledAt(cache, repr, key, i');
    SameConfigSameKey(entry, Bucket(cache, key)[i']);
    i := i';
  }

  /** No other bucket need be searched. */
  lemma NotInBucket<S>(cache: Cache<S>, repr: set<array<bv64>>, words: nat, seen: set<(set<nat>, S)>,
                       entry: CacheEntry<S>, key: Key)
    requires Remembers(cache, repr, words, seen) && entry.linearized.Length == words && key == KeyOf(entry)
    requires forall i: nat :: !StoredAt(cache, repr, ConfigOf(entry), key, i)
    ensures ConfigOf(entry) !in seen
  {
    if ConfigOf(entry) in seen {
      var i := InItsBucket(cache, repr, words, seen, entry);
    }
  }

  method CacheContains<S(==)>(cache: Cache<S>, entry: CacheEntry<S>, ghost repr: set<array<bv64>>, ghost words: nat,
                              ghost seen: set<(set<nat>, S)>)
    returns (found: bool)
    requires Remembers(cache, repr, words, seen) && entry.linearized.Length == words
    ensures found <==> ConfigOf(entry) in seen
  {
    var hash := Hash(entry.linearized);
    var key := Key(hash);
    var i := 0;
    while i < |Bucket(cache, key)|
      invariant i <= |Bucket(cache, key)|
      invariant forall k: nat | k < i :: !StoredAt(cache, repr, ConfigOf(entry), key, k)
    {
      assert SeenAt(cache, repr, words, seen, key, i);
      var same := SameEntry(entry, Bucket(cache, key)[i]);
      if same {
        return true;
      }
      i := i + 1;
    }
    NotInBucket(cache, repr, words, seen, entry, key);
    found := false;
  }

  method SameEntry<S(==)>(e: CacheEntry<S>, f: CacheEntry<S>) returns (same: bool)
    requires e.linearized.Length == f.linearized.Length
    ensures same <==> ConfigOf(e) == ConfigOf(f)
  {
    same := Equals(e.linearized, f.linearized);
    same := same && e.state == f.state;
  }

  lemma FiledOneMore<S>(cache: Cache<S>, repr: set<array<bv64>>, entry: CacheEntry<S>)
    requires Filed(cache, repr)
    ensures Filed(Filing(cache, KeyOf(entry), entry), repr + {entry.linearized})
  {
    var cache' := Filing(cache, KeyOf(entry), entry);
    forall key, i: nat | i < |Bucket(cache', key)| ensures FiledAt(cache', repr + {entry.linearized}, key, i) {
      BucketAfter(cache, KeyOf(entry), entry, key);
      if i < |Bucket(cache, key)| { assert FiledAt(cache, repr, key, i); }
    }
  }

  lemma HoldsOneMore<S>(cache: Cache<S>, repr: set<array<bv64>>, words: nat, seen: set<(set<nat>, S)>, added: Key,
                        entry: CacheEntry<S>)
    requires Holds(cache, repr, words, seen) && entry.linearized.Length == words
    ensures Holds(Filing(cache, added, entry), repr + {entry.linearized}, words, seen + {ConfigOf(entry)})
  {
    var cache', repr', seen' := Filing(cache, added, entry), repr + {entry.linearized}, seen + {ConfigOf(entry)};
    forall key, i: nat | i < |Bucket(cache', key)| ensures SeenAt(cache', repr', words, seen', key, i) {
      BucketAfter(cache, added, entry, key);
      if i < |Bucket(cache, key)| { assert SeenAt(cache, repr, words, seen, key, i); }
    }
    BucketAfter(cache, added, entry, added);
    assert StoredAt(cache', repr', ConfigOf(entry), added, |Bucket(cache, added)|);
    forall c | c in seen ensures Stored(cache', repr', c) {
      var key, i: nat :| StoredAt(cache, repr, c, key, i);
      BucketAfter(cache, added, entry, key);
      assert StoredAt(cache', repr', c, key, i);
    }
  }

  /** Filing one more entry under its hash adds its configuration and loses none. */
  lemma RemembersOneMore<S>(cache: Cache<S>, repr: set<array<bv64>>, words: nat, seen: set<(set<nat>, S)>,
                            entry: CacheEntry<S>)
    requires Remembers(cache, repr, words, seen) && entry.linearized.Length == words
    ensures Remembers(Filing(cache, KeyOf(entry), entry), repr + {entry.linearized}, words, seen + {ConfigOf(entry)})
  {
    FiledOneMore(cache, repr, entry);
    HoldsOneMore(cache, repr, words, seen, KeyOf(entry), entry);
  }
}
