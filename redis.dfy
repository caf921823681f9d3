/**
  The part of a Redis server that the conversation memory and the semantic cache use, as an
  in-memory store: lists (`LPUSH`, `LTRIM`, `LRANGE`), hashes (`HSET`), expiry (`EXPIRE`) and the
  names of the search indexes that exist. Each command is a method that changes the store the way
  the Redis command documentation describes for these arguments.
*/
module RedisModel {
  import opened Outcomes

  /** A hash field value as the cache writes it: text, a vector, or a timestamp. */
  datatype HashValue = HText(text: string) | HVector(vector: Embedding) | HTime(seconds: real)

  /**
    How many leading elements the index range `0..stop` covers in a list of `len` elements. A
    negative `stop` counts from the end (`-1` is the last element); a `stop` past the end is the end.
  */
  function Kept(len: nat, stop: int): (n: nat)
    ensures n <= len
    ensures stop >= 0 ==> n == if stop < len then stop + 1 else len
    ensures stop < 0 ==> n == if len + stop < 0 then 0 else len + stop + 1
  {
    var s := if stop < 0 then len + stop else stop;
    if s < 0 then 0 else if s >= len then len else s + 1
  }

  class Redis {
    var lists: map<string, seq<string>>
    var hashes: map<string, map<string, HashValue>>
    var ttl: map<string, int>
    var indexes: set<string>

    constructor (lists: map<string, seq<string>>, hashes: map<string, map<string, HashValue>>,
                 ttl: map<string, int>, indexes: set<string>)
      ensures this.lists == lists && this.hashes == hashes && this.ttl == ttl && this.indexes == indexes
    {
      this.lists, this.hashes, this.ttl, this.indexes := lists, hashes, ttl, indexes;
    }

    /** The list at `key`; a missing key reads as the empty list. */
    function List(key: string): seq<string>
      reads this
    {
      if key in lists then lists[key] else []
    }

    /** The hash at `key`; a missing key reads as the empty hash. */
    function Hash(key: string): map<string, HashValue>
      reads this
    {
      if key in hashes then hashes[key] else map[]
    }

    /** `LPUSH key value`: the value goes in front. */
    method LPush(key: string, value: string)
      modifies this
      ensures lists == old(lists)[key := [value] + old(List(key))]
      ensures hashes == old(hashes) && ttl == old(ttl) && indexes == old(indexes)
    {
      lists := lists[key := [value] + List(key)];
    }

    /** `LTRIM key 0 stop`: keeps the covered prefix; a list trimmed to nothing is deleted with its expiry. */
    method LTrim(key: string, stop: int)
      modifies this
      ensures key !in old(lists) ==> lists == old(lists) && ttl == old(ttl)
      ensures key in old(lists) ==>
        var kept := old(lists)[key][..Kept(|old(lists)[key]|, stop)];
        && (kept != [] ==> lists == old(lists)[key := kept] && ttl == old(ttl))
        && (kept == [] ==> lists == old(lists) - {key} && ttl == old(ttl) - {key})
      ensures hashes == old(hashes) && indexes == old(indexes)
    {
      if key in lists {
        var kept := lists[key][..Kept(|lists[key]|, stop)];
        if kept != [] {
          lists := lists[key := kept];
        } else {
          lists := lists - {key};
          ttl := ttl - {key};
        }
      }
    }

    /** `LRANGE key 0 stop`. */
    method LRange(key: string, stop: int) returns (xs: seq<string>)
      ensures xs == List(key)[..Kept(|List(key)|, stop)]
    {
      xs := List(key)[..Kept(|List(key)|, stop)];
    }

    /** `EXPIRE key seconds`: sets the expiry of an existing key; a missing key is left alone. */
    method Expire(key: string, seconds: int)
      modifies this
      ensures ttl == if key in old(lists) || key in old(hashes) then old(ttl)[key := seconds] else old(ttl)
      ensures lists == old(lists) && hashes == old(hashes) && indexes == old(indexes)
    {
      if key in lists || key in hashes {
        ttl := ttl[key := seconds];
      }
    }

    /** `HSET key mapping`: the given fields are set, the other fields of the hash are kept. */
    method HSet(key: string, mapping: map<string, HashValue>)
      modifies this
      ensures hashes == old(hashes)[key := old(Hash(key)) + mapping]
      ensures lists == old(lists) && ttl == old(ttl) && indexes == old(indexes)
    {
      hashes := hashes[key := Hash(key) + mapping];
    }

    /** `FT.CREATE name ...`. */
    method CreateIndex(name: string)
      modifies this
      ensures indexes == old(indexes) + {name}
      ensures lists == old(lists) && hashes == old(hashes) && ttl == old(ttl)
    {
      indexes := indexes + {name};
    }
  }
}
