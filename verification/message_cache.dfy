/** The message cache of the link-preview plugin (src/PreviewMessageLinks/MessageCache.ts):
    one record per (channel, message) pair, plus listeners per pair that `set` notifies. */
module MessageCache {
  import opened Base

  /** Discord ids: decimal digit strings. */
  type Snowflake = string

  predicate IsSnowflake(s: string) {
    forall i :: 0 <= i < |s| ==> '0' <= s[i] <= '9'
  }

  /** The host's help-message kinds, in their enum order. */
  datatype HelpMessageType = Warning | Info | Error | Positive

  datatype Reaction = Reaction(emoji: string, count: nat, me: bool)

  /** The host's message record, reduced to the fields the plugin reads or writes. */
  datatype MessageRecord = MessageRecord(id: Snowflake, channelId: Snowflake, reactions: seq<Reaction>, content: string)

  /** A cached outcome: the message, or why it could not be shown. */
  datatype CacheRecord =
    | Success(message: MessageRecord)
    | Failure(errorType: HelpMessageType, errorMessage: string)

  /** Listeners are compared by identity, as the event emitter does. */
  type Listener = nat

  datatype Cache = Cache(entries: map<string, CacheRecord>, listeners: map<string, seq<Listener>>)

  const EmptyCache := Cache(map[], map[])

  /** The key of a pair: channel id, a comma and a space, message id. */
  function Hash(channelId: Snowflake, messageId: Snowflake): string {
    channelId + ", " + messageId
  }

  predicate Has(cache: Cache, channelId: Snowflake, messageId: Snowflake) {
    Hash(channelId, messageId) in cache.entries
  }

  function Get(cache: Cache, channelId: Snowflake, messageId: Snowflake): (r: Option<CacheRecord>)
    ensures r.Some? <==> Has(cache, channelId, messageId)
  {
    var key := Hash(channelId, messageId);
    if key in cache.entries then Some(cache.entries[key]) else None
  }

  /** The listeners registered under a key, in registration order. */
  function ListenersOf(cache: Cache, key: string): seq<Listener> {
    if key in cache.listeners then cache.listeners[key] else []
  }

  /** One listener call made by `set`: the listener, the record it receives, and what `get`
      would return for the same pair while the listener runs. */
  datatype Notification = Notification(listener: Listener, record: CacheRecord, current: Option<CacheRecord>)

  datatype SetOutcome = SetOutcome(cache: Cache, notified: seq<Notification>, returned: CacheRecord)

  /** `set(c, m, record)`: emit to the pair's listeners, then store, then return the record. */
  function Set(cache: Cache, channelId: Snowflake, messageId: Snowflake, record: CacheRecord): (r: SetOutcome)
    ensures Get(r.cache, channelId, messageId) == Some(record)
    ensures r.returned == record
    ensures forall k :: k != Hash(channelId, messageId) ==>
              (k in r.cache.entries <==> k in cache.entries) &&
              (k in cache.entries ==> r.cache.entries[k] == cache.entries[k])
    ensures r.cache.listeners == cache.listeners
    ensures |r.notified| == |ListenersOf(cache, Hash(channelId, messageId))|
    ensures forall i :: 0 <= i < |r.notified| ==>
              r.notified[i] == Notification(ListenersOf(cache, Hash(channelId, messageId))[i], record,
                                            Get(cache, channelId, messageId))
  {
    var key := Hash(channelId, messageId);
    var before := Get(cache, channelId, messageId);
    var heard := ListenersOf(cache, key);
    var notified := seq(|heard|, i requires 0 <= i < |heard| => Notification(heard[i], record, before));
    SetOutcome(cache.(entries := cache.entries[key := record]), notified, record)
  }

  /** `addListener`: the listener goes to the end of the pair's list. */
  function AddListener(cache: Cache, channelId: Snowflake, messageId: Snowflake, listener: Listener): (r: Cache)
    ensures ListenersOf(r, Hash(channelId, messageId)) == ListenersOf(cache, Hash(channelId, messageId)) + [listener]
    ensures forall k :: k != Hash(channelId, messageId) ==> ListenersOf(r, k) == ListenersOf(cache, k)
    ensures r.entries == cache.entries
  {
    var key := Hash(channelId, messageId);
    cache.(listeners := cache.listeners[key := ListenersOf(cache, key) + [listener]])
  }

  /** Removes the most recently added occurrence of `l`, as the event emitter does. */
  function RemoveLast(s: seq<Listener>, l: Listener): (r: seq<Listener>)
    ensures l !in s ==> r == s
    ensures l in s ==> |r| == |s| - 1 && multiset(r) == multiset(s) - multiset{l}
  {
    if |s| == 0 then s
    else if s[|s| - 1] == l then
      assert s == s[..|s| - 1] + [l];
      s[..|s| - 1]
    else
      var r := RemoveLast(s[..|s| - 1], l) + [s[|s| - 1]];
      assert s == s[..|s| - 1] + [s[|s| - 1]];
      assert l in s ==> l in s[..|s| - 1];
      r
  }

  /** `removeListener`: drops the last registration of the listener under the pair's key. */
  function RemoveListener(cache: Cache, channelId: Snowflake, messageId: Snowflake, listener: Listener): (r: Cache)
    ensures ListenersOf(r, Hash(channelId, messageId)) == RemoveLast(ListenersOf(cache, Hash(channelId, messageId)), listener)
    ensures forall k :: k != Hash(channelId, messageId) ==> ListenersOf(r, k) == ListenersOf(cache, k)
    ensures r.entries == cache.entries
  {
    var key := Hash(channelId, messageId);
    cache.(listeners := cache.listeners[key := RemoveLast(ListenersOf(cache, key), listener)])
  }

  /** The channel id comes first, then the separator's comma. */
  lemma HashLayout(c: Snowflake, m: Snowflake)
    ensures |Hash(c, m)| == |c| + 2 + |m|
    ensures forall i :: 0 <= i < |c| ==> Hash(c, m)[i] == c[i]
    ensures Hash(c, m)[|c|] == ','
  {
  }

  /** Distinct numeric pairs never share a key. */
  lemma HashInjective(c1: Snowflake, m1: Snowflake, c2: Snowflake, m2: Snowflake)
    requires IsSnowflake(c1) && IsSnowflake(c2)
    requires Hash(c1, m1) == Hash(c2, m2)
    ensures c1 == c2 && m1 == m2
  {
    var h := Hash(c1, m1);
    HashLayout(c1, m1);
    HashLayout(c2, m2);
    if |c1| != |c2| {
      assert false;
    }
    assert c1 == h[..|c1|] == c2;
    assert m1 == h[|c1| + 2..] == m2;
  }

  /** Ids with a comma could collide; Discord ids never contain one. */
  lemma HashNeedsNumericIds()
    ensures Hash("1, 2", "3") == Hash("1", "2, 3")
  {
  }

  /** After `set`, the pair is present and `get` returns the stored record. */
  lemma GetAfterSet(cache: Cache, c: Snowflake, m: Snowflake, record: CacheRecord)
    ensures Has(Set(cache, c, m, record).cache, c, m)
    ensures Get(Set(cache, c, m, record).cache, c, m) == Some(record)
  {
  }

  /** Writing one numeric pair leaves every other numeric pair as it was. */
  lemma SetLeavesOtherPairs(cache: Cache, c: Snowflake, m: Snowflake, record: CacheRecord, c': Snowflake, m': Snowflake)
    requires IsSnowflake(c) && IsSnowflake(c')
    requires (c, m) != (c', m')
    ensures Get(Set(cache, c, m, record).cache, c', m') == Get(cache, c', m')
  {
    if Hash(c, m) == Hash(c', m') {
      HashInjective(c, m, c', m');
    }
  }

  /** Nothing was ever stored in the empty cache. */
  lemma EmptyCacheHasNothing(c: Snowflake, m: Snowflake)
    ensures !Has(EmptyCache, c, m) && Get(EmptyCache, c, m) == None
  {
  }

  /** Adding then removing a listener restores every listener list. */
  lemma AddThenRemove(cache: Cache, c: Snowflake, m: Snowflake, l: Listener)
    ensures forall k :: ListenersOf(RemoveListener(AddListener(cache, c, m, l), c, m, l), k) == ListenersOf(cache, k)
  {
    var s := ListenersOf(cache, Hash(c, m));
    assert (s + [l])[..|s + [l]| - 1] == s;
  }

  /** A listener that was not registered before the add/remove pair is not notified by a
      later `set` of that pair. */
  lemma RemovedListenerNotNotified(cache: Cache, c: Snowflake, m: Snowflake, l: Listener, record: CacheRecord)
    requires l !in ListenersOf(cache, Hash(c, m))
    ensures forall n :: n in Set(RemoveListener(AddListener(cache, c, m, l), c, m, l), c, m, record).notified ==>
              n.listener != l
  {
    AddThenRemove(cache, c, m, l);
  }
}
