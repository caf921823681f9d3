/**
  The conversation memory of `app/services/memory.py`: per session, a Redis list of JSON-encoded
  turns, newest first, cut to the window size on every write and read back oldest first.
*/
module Memory {
  import opened Outcomes
  import opened Json
  import opened Schemas
  import opened PySeq
  import opened RedisModel

  const HistoryPrefix := "history:"
  /** One week, in seconds. */
  const HistoryTtl := 604800
  const DefaultWindow := 10
  /** The window the application constructs its memory with. */
  const AppWindow := 30

  function HistoryKey(sessionId: string): string {
    HistoryPrefix + sessionId
  }

  /** The two keys of a stored entry. */
  const RoleKey := "role"
  const ContentKey := "content"

  /** `json.dumps({"role": role, "content": content}, ensure_ascii=False)`. */
  function Encode(t: Turn): string {
    Object2(RoleKey, t.role, ContentKey, t.content)
  }

  /** `json.loads` of one stored entry, for entries of the shape the memory writes. */
  function Decode(e: string): Option<Turn> {
    match ReadObject2(e, RoleKey, ContentKey)
    case None => None
    case Some((role, content)) => Some(Turn(role, content))
  }

  /** Decodes every entry; one that does not decode makes the whole read fail, as `json.loads` raises. */
  function DecodeAll(es: seq<string>): Result<seq<Turn>, string> {
    if |es| == 0 then Ok([])
    else
      match Decode(es[0])
      case None => Err(es[0])
      case Some(t) =>
        match DecodeAll(es[1..])
        case Err(e) => Err(e)
        case Ok(ts) => Ok([t] + ts)
  }

  function EncodeAll(turns: seq<Turn>): seq<string> {
    seq(|turns|, k requires 0 <= k < |turns| => Encode(turns[k]))
  }

  /** The part of a list that `LRANGE`/`LTRIM` with `0, window - 1` keep. */
  function Window(list: seq<string>, window: int): seq<string> {
    list[..Kept(|list|, window - 1)]
  }

  /** The list after `LPUSH` of `entry` and `LTRIM` to the window. */
  function Pushed(list: seq<string>, entry: string, window: int): seq<string> {
    Window([entry] + list, window)
  }

  class ConversationMemoryManager {
    const r: Redis
    const windowSize: int

    constructor (r: Redis, windowSize: int := DefaultWindow)
      ensures this.r == r && this.windowSize == windowSize
    {
      this.r := r;
      this.windowSize := windowSize;
    }

    /** `get_history`: the first `window_size` stored entries, reversed into oldest-first order and decoded. */
    method GetHistory(sessionId: string) returns (h: Result<seq<Turn>, string>)
      ensures h == DecodeAll(Reverse(Window(r.List(HistoryKey(sessionId)), windowSize)))
    {
      var key := HistoryKey(sessionId);
      var historyData := r.LRange(key, windowSize - 1);
      h := DecodeAll(Reverse(historyData));
    }

    /**
      `add_message`: pushes the encoded turn in front of the session's list, cuts the list to the
      window and resets its expiry to a week. No other key changes.
    */
    method AddMessage(sessionId: string, role: string, content: string)
      modifies r
      ensures var key := HistoryKey(sessionId);
        var p := Pushed(old(r.List(key)), Encode(Turn(role, content)), windowSize);
        && (p != [] ==> r.lists == old(r.lists)[key := p] && r.ttl == old(r.ttl)[key := HistoryTtl])
        && (p == [] ==> r.lists == old(r.lists) - {key} && r.ttl == (if key in old(r.hashes) then (old(r.ttl) - {key})[key := HistoryTtl] else old(r.ttl) - {key}))
      ensures r.hashes == old(r.hashes) && r.indexes == old(r.indexes)
    {
      var key := HistoryKey(sessionId);
      var message := Encode(Turn(role, content));
      r.LPush(key, message);
      r.LTrim(key, windowSize - 1);
      r.Expire(key, HistoryTtl);
    }
  }

  /**
    With a positive window, the list after a write is the new entry followed by the first
    `window - 1` earlier entries, so it never holds more than `window` entries. A window of 0
    keeps everything (the range `0..-1` is the whole list).
  */
  lemma PushedWindow(list: seq<string>, entry: string, window: int)
    ensures window > 0 ==>
      Pushed(list, entry, window) == [entry] + list[..if window - 1 < |list| then window - 1 else |list|]
      && |Pushed(list, entry, window)| <= window
    ensures window == 0 ==> Pushed(list, entry, window) == [entry] + list && Window(list, window) == list
  {
    if window > 0 {
      var n := if window - 1 < |list| then window - 1 else |list|;
      assert ([entry] + list)[..n + 1] == [entry] + list[..n];
    }
  }

  /** A stored entry decodes to the turn it encodes. */
  lemma EntryRoundTrip(t: Turn)
    ensures Decode(Encode(t)) == Some(t)
  {
    Object2RoundTrip(RoleKey, t.role, ContentKey, t.content);
  }

  lemma DecodeAllEncoded(turns: seq<Turn>)
    ensures DecodeAll(EncodeAll(turns)) == Ok(turns)
  {
    var es := EncodeAll(turns);
    forall k | 0 <= k < |es|
      ensures Decode(es[k]) == Some(turns[k])
    {
      EntryRoundTrip(turns[k]);
    }
    DecodeAllOf(es, turns);
  }

  /** A read in which every entry decodes succeeds, with each entry's turn in its place. */
  lemma {:induction false} DecodeAllOf(es: seq<string>, turns: seq<Turn>)
    requires |es| == |turns| && forall k :: 0 <= k < |es| ==> Decode(es[k]) == Some(turns[k])
    ensures DecodeAll(es) == Ok(turns)
  {
    if |es| > 0 {
      DecodeAllOf(es[1..], turns[1..]);
      assert turns == [turns[0]] + turns[1..];
    }
  }

  /** A successful read decodes every entry, in place. */
  lemma {:induction false} DecodeAllPointwise(es: seq<string>)
    ensures DecodeAll(es).Ok? ==>
      |DecodeAll(es).value| == |es| && forall k :: 0 <= k < |es| ==> Decode(es[k]) == Some(DecodeAll(es).value[k])
  {
    if |es| > 0 && DecodeAll(es).Ok? {
      DecodeAllPointwise(es[1..]);
      assert forall k :: 1 <= k < |es| ==> es[k] == es[1..][k - 1];
    }
  }

  /** An entry that decodes to `t` is read back as `t`, in its place, when the whole read succeeds. */
  lemma DecodedAt(es: seq<string>, k: nat, t: Turn)
    requires k < |es| && Decode(es[k]) == Some(t)
    ensures DecodeAll(es).Ok? ==> |DecodeAll(es).value| == |es| && DecodeAll(es).value[k] == t
  {
    DecodeAllPointwise(es);
  }

  /** The session's list after pushing `entries` one by one to an empty session. */
  function AfterPushes(entries: seq<string>, window: int): seq<string> {
    if |entries| == 0 then []
    else Pushed(AfterPushes(entries[..|entries| - 1], window), entries[|entries| - 1], window)
  }

  /** Pushing the last entry onto the newest-first window of the earlier ones gives the window of all of them. */
  lemma PushReversed(entries: seq<string>, window: int)
    requires window > 0 && |entries| > 0
    ensures var n := |entries|;
      Pushed(Reverse(LastN(entries[..n - 1], window)), entries[n - 1], window) == Reverse(LastN(entries, window))
  {
    var n := |entries|;
    var prev, x := entries[..n - 1], entries[n - 1];
    assert prev + [x] == entries;
    var wide := LastN(prev, window);
    var list := Reverse(wide);
    PushedWindow(list, x, window);
    if window > 1 {
      var narrow := LastN(prev, window - 1);
      LastNSnoc(prev, x, window);
      ReverseSnoc(narrow, x);
      assert narrow == wide[|wide| - |narrow|..];
      ReverseSuffix(wide, |wide| - |narrow|);
    }
  }

  /** Pushing entries keeps the newest `window` of them, newest first. */
  lemma {:induction false} AfterPushesNewest(entries: seq<string>, window: int)
    requires window > 0
    ensures AfterPushes(entries, window) == Reverse(LastN(entries, window))
  {
    if |entries| > 0 {
      AfterPushesNewest(entries[..|entries| - 1], window);
      PushReversed(entries, window);
    }
  }

  lemma EncodeLastN(turns: seq<Turn>, window: nat)
    ensures EncodeAll(LastN(turns, window)) == LastN(EncodeAll(turns), window)
  {
  }

  /**
    The round trip of the memory: after adding `turns` to an empty session, reading the history
    gives back the last `window` turns (all of them when there are fewer), oldest first.
  */
  lemma HistoryRoundTrip(turns: seq<Turn>, window: int)
    requires window > 0
    ensures DecodeAll(Reverse(Window(AfterPushes(EncodeAll(turns), window), window))) == Ok(LastN(turns, window))
  {
    var entries := EncodeAll(turns);
    AfterPushesNewest(entries, window);
    var stored := AfterPushes(entries, window);
    assert Window(stored, window) == stored;
    ReverseReverse(LastN(entries, window));
    EncodeLastN(turns, window);
    DecodeAllEncoded(LastN(turns, window));
  }

  /** Different sessions use different keys, so a write to one never touches another. */
  lemma HistoryKeyInjective(a: string, b: string)
    requires HistoryKey(a) == HistoryKey(b)
    ensures a == b
  {
    assert a == HistoryKey(a)[|HistoryPrefix|..];
    assert b == HistoryKey(b)[|HistoryPrefix|..];
  }
}
