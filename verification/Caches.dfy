/** The memo of the search: bitset and state pairs, bucketed by the hash of the bitset. */
module Caches {
  import opened Histories
  import opened Search
  import opened Bitsets

  datatype CacheEntry<S> = CacheEntry(linearized: array<Word>, state: S)

  type Buckets<S> = map<Word, seq<CacheEntry<S>>>

  /** The entry under `key` was made for stack `q`: its bitset, a clone no one else writes to, holds
      the operations of `q`, and its state is the one `q` leads to. */
  ghost predicate EntryOk<S, I, O>(m: Model<S, I, O>, ops: seq<Operation<I, O>>, chunks: nat,
                                   e: CacheEntry<S>, q: seq<nat>, key: Word)
    reads e.linearized
  {
    && e.linearized.Length == chunks
    && Represents(e.linearized[..], Ids(q))
    && key == HashOf(e.linearized[..])
    && Replay(m, ops, q) == Some(e.state)
  }

  /** `origin` tells, bucket by bucket, the stack each entry was made for. */
  ghost predicate CacheOk<S, I, O>(m: Model<S, I, O>, ops: seq<Operation<I, O>>, chunks: nat,
                                   cache: Buckets<S>, origin: map<Word, seq<seq<nat>>>, arrays: set<array<Word>>)
    reads arrays
  {
    && cache.Keys == origin.Keys
    && (forall key :: key in cache ==> |cache[key]| == |origin[key]|)
    && (forall key, i :: key in cache && 0 <= i < |cache[key]| ==>
          cache[key][i].linearized in arrays && EntryOk(m, ops, chunks, cache[key][i], origin[key][i], key))
  }

  ghost predicate Stored(origin: map<Word, seq<seq<nat>>>, q: seq<nat>) {
    exists key :: key in origin && q in origin[key]
  }

  /** The stacks in the cache are exactly the visited ones, apart from the empty stack. */
  ghost predicate Remembers(origin: map<Word, seq<seq<nat>>>, visited: set<seq<nat>>) {
    forall q :: q in visited <==> q == [] || Stored(origin, q)
  }

  ghost predicate InBucket<S, I, O>(m: Model<S, I, O>, bucket: seq<CacheEntry<S>>, words: seq<Word>, state: S)
    reads set i | 0 <= i < |bucket| :: bucket[i].linearized
  {
    exists i :: 0 <= i < |bucket| && bucket[i].linearized[..] == words && m.equal(state, bucket[i].state)
  }

  /** An entry of the cache that matches covers the stack. */
  lemma HitCovers<S(!new), I(!new), O(!new)>(m: Model<S, I, O>, ops: seq<Operation<I, O>>, chunks: nat,
      visited: set<seq<nat>>, e: CacheEntry<S>, q: seq<nat>, key: Word, words: seq<Word>, p: seq<nat>, state: S)
    requires ValidModel(m)
    requires EntryOk(m, ops, chunks, e, q, key) && q in visited
    requires Represents(words, Ids(p)) && Replay(m, ops, p) == Some(state)
    requires e.linearized[..] == words && m.equal(state, e.state)
    ensures Covered(m, ops, visited, p)
  {
    forall x: nat ensures x in Ids(q) <==> x in Ids(p) {
      assert Member(words, x) <==> x in Ids(p);
      assert Member(words, x) <==> x in Ids(q);
    }
    assert Same(m, ops, q, p);
  }

  /** A covered stack has a matching entry, and in the very bucket its hash selects. */
  lemma CoveredHits<S(!new), I(!new), O(!new)>(m: Model<S, I, O>, ops: seq<Operation<I, O>>, chunks: nat,
      cache: Buckets<S>, origin: map<Word, seq<seq<nat>>>, arrays: set<array<Word>>, visited: set<seq<nat>>,
      words: seq<Word>, p: seq<nat>, state: S)
    requires ValidModel(m)
    requires CacheOk(m, ops, chunks, cache, origin, arrays) && Remembers(origin, visited)
    requires |words| == chunks && Represents(words, Ids(p)) && Replay(m, ops, p) == Some(state) && p != []
    requires Covered(m, ops, visited, p)
    ensures HashOf(words) in cache && InBucket(m, cache[HashOf(words)], words, state)
  {
    var q :| q in visited && Same(m, ops, q, p);
    assert p[0] in Ids(p);
    assert q != [];
    assert Stored(origin, q);
    var key :| key in origin && q in origin[key];
    var i :| 0 <= i < |origin[key]| && origin[key][i] == q;
    var e := cache[key][i];
    assert EntryOk(m, ops, chunks, e, q, key);
    RepresentationIsUnique(e.linearized[..], words, Ids(p));
  }

  /** Whether the bucket of the new pair's hash holds an equal pair: exactly when the new stack is
      covered by a visited one. */
  method CacheContains<S(!new), I(!new), O(!new)>(m: Model<S, I, O>, cache: Buckets<S>, entry: CacheEntry<S>,
      ghost ops: seq<Operation<I, O>>, ghost origin: map<Word, seq<seq<nat>>>, ghost arrays: set<array<Word>>,
      ghost visited: set<seq<nat>>, ghost p: seq<nat>) returns (found: bool)
    requires ValidModel(m)
    requires CacheOk(m, ops, entry.linearized.Length, cache, origin, arrays) && Remembers(origin, visited)
    requires p != [] && EntryOk(m, ops, entry.linearized.Length, entry, p, HashOf(entry.linearized[..]))
    ensures found <==> Covered(m, ops, visited, p)
  {
    var hash := Hash(entry.linearized, Ids(p));
    var bucket := if hash in cache then cache[hash] else [];
    ghost var words := entry.linearized[..];
    var i := 0;
    while i < |bucket|
      invariant 0 <= i <= |bucket|
      invariant forall j :: 0 <= j < i ==> bucket[j].linearized[..] != words || !m.equal(entry.state, bucket[j].state)
    {
      var elem := bucket[i];
      ghost var q := origin[hash][i];
      assert EntryOk(m, ops, entry.linearized.Length, elem, q, hash);
      var same := Equals(entry.linearized, elem.linearized, Ids(p), Ids(q));
      if same && m.equal(entry.state, elem.state) {
        assert Stored(origin, q);
        HitCovers(m, ops, entry.linearized.Length, visited, elem, q, hash, words, p, entry.state);
        return true;
      }
      i := i + 1;
    }
    if Covered(m, ops, visited, p) {
      CoveredHits(m, ops, entry.linearized.Length, cache, origin, arrays, visited, words, p, entry.state);
    }
    return false;
  }

  ghost function Added(origin: map<Word, seq<seq<nat>>>, key: Word, q: seq<nat>): map<Word, seq<seq<nat>>> {
    origin[key := (if key in origin then origin[key] else []) + [q]]
  }

  /** Appending the new pair to its bucket makes exactly the new stack remembered as well. */
  method Insert<S(!new), I(!new), O(!new)>(m: Model<S, I, O>, cache: Buckets<S>, entry: CacheEntry<S>,
      ghost ops: seq<Operation<I, O>>, ghost origin: map<Word, seq<seq<nat>>>, ghost arrays: set<array<Word>>,
      ghost visited: set<seq<nat>>, ghost p: seq<nat>)
    returns (cache': Buckets<S>, ghost origin': map<Word, seq<seq<nat>>>)
    requires CacheOk(m, ops, entry.linearized.Length, cache, origin, arrays) && Remembers(origin, visited)
    requires p != [] && EntryOk(m, ops, entry.linearized.Length, entry, p, HashOf(entry.linearized[..]))
    ensures CacheOk(m, ops, entry.linearized.Length, cache', origin', arrays + {entry.linearized})
    ensures Remembers(origin', visited + {p})
  {
    var hash := Hash(entry.linearized, Ids(p));
    cache' := cache[hash := (if hash in cache then cache[hash] else []) + [entry]];
    origin' := Added(origin, hash, p);
    AddedRemembers(origin, visited, hash, p);
  }

  lemma AddedRemembers(origin: map<Word, seq<seq<nat>>>, visited: set<seq<nat>>, key: Word, p: seq<nat>)
    requires Remembers(origin, visited)
    requires p != []
    ensures Remembers(Added(origin, key, p), visited + {p})
  {
    var origin' := Added(origin, key, p);
    assert p in origin'[key];
    forall q ensures q in visited + {p} <==> q == [] || Stored(origin', q) {
      if Stored(origin, q) {
        var k :| k in origin && q in origin[k];
        assert k in origin' && q in origin'[k];
      }
      if Stored(origin', q) && q != p {
        var k :| k in origin' && q in origin'[k];
        assert k in origin && q in origin[k];
      }
    }
  }
}
