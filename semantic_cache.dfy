/**
  The semantic cache of `app/core/semantic_cache.py`: answers stored as Redis hashes under a key
  derived from the query, and found again by a nearest-neighbour search on the query embedding
  that counts as a hit only below a cosine-distance threshold. Every failure is swallowed: search
  answers `None`, storing and index creation leave the store as it was.
*/
module SemanticCache {
  import opened Outcomes
  import opened Text
  import opened RedisModel

  const IndexName := "idx:semantic_cache"
  const CachePrefix := "cache:"
  const VectorDim := 1024
  const DistanceThreshold: real := 0.1
  /** One day, in seconds. */
  const CacheTtl := 86400

  /** One document of the KNN search: the hash it was found in and its distance. */
  datatype Hit = Hit(key: string, score: real)
  /** The search result: its `total` and the documents returned. */
  datatype SearchResult = SearchResult(total: nat, docs: seq<Hit>)

  /** `f"cache:{hash(query_text)}"`. */
  function CacheKey(hash: string -> int, query: string): string {
    CachePrefix + IntToString(hash(query))
  }

  /** The fields `store_cache` writes. */
  function Mapping(response: string, vector: Embedding, now: real): map<string, HashValue> {
    map["response_text" := HText(response), "query_vector" := HVector(vector), "created_at" := HTime(now)]
  }

  /** The hashes after a successful store. */
  function Stored(hashes: map<string, map<string, HashValue>>, key: string, mapping: map<string, HashValue>)
    : map<string, map<string, HashValue>>
  {
    hashes[key := (if key in hashes then hashes[key] else map[]) + mapping]
  }

  /** `top_hit.response_text`: present only when the hash has a text `response_text` field. */
  function ResponseText(hashes: map<string, map<string, HashValue>>, key: string): Option<string> {
    if key in hashes && "response_text" in hashes[key] && hashes[key]["response_text"].HText?
    then Some(hashes[key]["response_text"].text)
    else None
  }

  /** What `search_cache` answers for a search outcome; a failed search, like a failed read of the hit, is `None`. */
  function Answer(res: Result<SearchResult, string>, hashes: map<string, map<string, HashValue>>): Option<string> {
    match res
    case Err(_) => None
    case Ok(sr) =>
      if sr.total > 0 && |sr.docs| > 0 && sr.docs[0].score < DistanceThreshold
      then ResponseText(hashes, sr.docs[0].key)
      else None
  }

  /** A cached answer comes only from a top hit strictly closer than the threshold; a hit at exactly 0.1 is a miss. */
  lemma AnswerOnlyBelowThreshold(res: Result<SearchResult, string>, hashes: map<string, map<string, HashValue>>)
    ensures Answer(res, hashes).Some? <==>
      res.Ok? && res.value.total > 0 && |res.value.docs| > 0 && res.value.docs[0].score < DistanceThreshold
      && ResponseText(hashes, res.value.docs[0].key).Some?
    ensures Answer(res, hashes).Some? ==> Answer(res, hashes) == ResponseText(hashes, res.value.docs[0].key)
    ensures res.Ok? && |res.value.docs| > 0 && res.value.docs[0].score == 0.1 ==> Answer(res, hashes).None?
  {
  }

  /** Storing the same query twice leaves one entry, holding the later answer. */
  lemma LaterStoreWins(hashes: map<string, map<string, HashValue>>, hash: string -> int, query: string,
                       first: string, second: string, v1: Embedding, v2: Embedding, t1: real, t2: real)
    ensures var key := CacheKey(hash, query);
      Stored(Stored(hashes, key, Mapping(first, v1, t1)), key, Mapping(second, v2, t2))
      == Stored(hashes, key, Mapping(second, v2, t2))
  {
    var key := CacheKey(hash, query);
    var before := if key in hashes then hashes[key] else map[];
    var m1 := Mapping(first, v1, t1);
    var m2 := Mapping(second, v2, t2);
    assert (before + m1) + m2 == before + m2;
  }

  /** A stored answer is what a hit on its key reads back. */
  lemma StoreThenRead(hashes: map<string, map<string, HashValue>>, key: string, response: string, v: Embedding, now: real)
    ensures ResponseText(Stored(hashes, key, Mapping(response, v, now)), key) == Some(response)
  {
  }

  class SemanticCacheManager {
    const r: Redis
    /** The embedding model. */
    const embed: string -> Result<Embedding, string>
    /** Python's process-salted `hash()` of a string. */
    const hash: string -> int
    /** `FT.SEARCH` with `KNN 1` over the cache hashes. */
    const knn: (Embedding, map<string, map<string, HashValue>>) -> Result<SearchResult, string>

    /**
      `__init__` and `_create_index`: an index that exists is kept; otherwise it is created, and a
      failure to create it (`createError`) is swallowed.
    */
    constructor (r: Redis, embed: string -> Result<Embedding, string>, hash: string -> int,
                 knn: (Embedding, map<string, map<string, HashValue>>) -> Result<SearchResult, string>,
                 createError: Option<string>)
      modifies r
      ensures this.r == r && this.embed == embed && this.hash == hash && this.knn == knn
      ensures r.indexes == if IndexName !in old(r.indexes) && createError.None? then old(r.indexes) + {IndexName} else old(r.indexes)
      ensures r.lists == old(r.lists) && r.hashes == old(r.hashes) && r.ttl == old(r.ttl)
    {
      this.r := r;
      this.embed := embed;
      this.hash := hash;
      this.knn := knn;
      new;
      if IndexName !in r.indexes && createError.None? {
        r.CreateIndex(IndexName);
      }
    }

    /** `search_cache`: reads the store and changes nothing; every failure is `None`. */
    method SearchCache(query: string) returns (cached: Option<string>)
      ensures embed(query).Err? ==> cached.None?
      ensures embed(query).Ok? ==> cached == Answer(knn(embed(query).value, r.hashes), r.hashes)
    {
      var vector := embed(query);
      if vector.Err? {
        return None;
      }
      var res := knn(vector.value, r.hashes);
      if res.Err? {
        return None;
      }
      if res.value.total > 0 {
        if |res.value.docs| == 0 {
          return None;
        }
        var top := res.value.docs[0];
        if top.score < DistanceThreshold {
          return ResponseText(r.hashes, top.key);
        }
      }
      return None;
    }

    /**
      `store_cache`: writes the answer, the query vector and the time under the query's key and
      sets a one-day expiry. A failed embedding or a failed pipeline (`execError`) changes nothing.
    */
    method StoreCache(query: string, response: string, now: real, execError: Option<string>)
      modifies r
      ensures embed(query).Ok? && execError.None? ==>
        var key := CacheKey(hash, query);
        && r.hashes == Stored(old(r.hashes), key, Mapping(response, embed(query).value, now))
        && r.ttl == old(r.ttl)[key := CacheTtl]
      ensures embed(query).Err? || execError.Some? ==> r.hashes == old(r.hashes) && r.ttl == old(r.ttl)
      ensures r.lists == old(r.lists) && r.indexes == old(r.indexes)
    {
      var vector := embed(query);
      if vector.Err? || execError.Some? {
        return;
      }
      var key := CacheKey(hash, query);
      r.HSet(key, Mapping(response, vector.value, now));
      r.Expire(key, CacheTtl);
    }
  }
}
