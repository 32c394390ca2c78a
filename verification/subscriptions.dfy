/** The dispatcher handlers of the link-preview plugin (src/PreviewMessageLinks/subscriptions.ts):
    each event may rewrite the cached record of the one message it names. */
module Subscriptions {
  import opened Base
  import opened MessageCache

  /** A raw message object as the gateway delivers it. */
  datatype RawMessage = RawMessage(id: Snowflake, channelId: Snowflake, fields: string)

  /** The host's record operations. Their internals belong to the client and are not part of
      this model: the handlers only decide whether and where their results are stored. */
  datatype HostOps = HostOps(
    create: RawMessage -> MessageRecord,
    update: (MessageRecord, RawMessage) -> MessageRecord,
    addReaction: (MessageRecord, string, bool) -> MessageRecord,
    removeReaction: (MessageRecord, string, bool) -> MessageRecord,
    removeReactionsForEmoji: (MessageRecord, string) -> MessageRecord)

  /** The text of the client's "message deleted" notice, a localised host string. */
  datatype Locale = Locale(notLoaded: string, deleted: string)

  datatype Event =
    | MessageCreate(message: RawMessage)
    | MessageUpdate(message: RawMessage)
    | MessageDelete(channelId: Snowflake, id: Snowflake)
    | ReactionAdd(channelId: Snowflake, messageId: Snowflake, userId: Snowflake, emoji: string, optimistic: bool)
    | ReactionRemove(channelId: Snowflake, messageId: Snowflake, userId: Snowflake, emoji: string, optimistic: bool)
    | ReactionRemoveAll(channelId: Snowflake, messageId: Snowflake)
    | ReactionRemoveEmoji(channelId: Snowflake, messageId: Snowflake, emoji: string)

  /** The (channel, message) pair an event names. */
  function Target(e: Event): (Snowflake, Snowflake) {
    match e
    case MessageCreate(m) => (m.channelId, m.id)
    case MessageUpdate(m) => (m.channelId, m.id)
    case MessageDelete(c, id) => (c, id)
    case ReactionAdd(c, m, _, _, _) => (c, m)
    case ReactionRemove(c, m, _, _, _) => (c, m)
    case ReactionRemoveAll(c, m) => (c, m)
    case ReactionRemoveEmoji(c, m, _) => (c, m)
  }

  /** The `MessageCache.set` call a handler makes. */
  datatype Write = Write(channelId: Snowflake, messageId: Snowflake, record: CacheRecord)

  /** The cached message of a pair, when its record is a success. */
  function CachedMessage(cache: Cache, c: Snowflake, m: Snowflake): (r: Option<MessageRecord>)
    ensures r.Some? <==> Get(cache, c, m).Some? && Get(cache, c, m).value.Success?
    ensures r.Some? ==> Get(cache, c, m) == Some(Success(r.value))
  {
    match Get(cache, c, m)
    case Some(Success(msg)) => Some(msg)
    case _ => None
  }

  /** MESSAGE_CREATE: refreshes a pair only if it is already cached, whatever its status. */
  function OnCreate(ops: HostOps, cache: Cache, message: RawMessage): (r: Option<Write>)
    ensures r.Some? <==> Has(cache, message.channelId, message.id)
    ensures r.Some? ==> r.value == Write(message.channelId, message.id, Success(ops.create(message)))
  {
    if !Has(cache, message.channelId, message.id) then None
    else Some(Write(message.channelId, message.id, Success(ops.create(message))))
  }

  /** MESSAGE_UPDATE: merges the update into a cached success only. */
  function OnUpdate(ops: HostOps, cache: Cache, message: RawMessage): (r: Option<Write>)
    ensures r.Some? <==> CachedMessage(cache, message.channelId, message.id).Some?
    ensures r.Some? ==> r.value == Write(message.channelId, message.id,
                                         Success(ops.update(CachedMessage(cache, message.channelId, message.id).value, message)))
  {
    match CachedMessage(cache, message.channelId, message.id)
    case None => None
    case Some(cached) => Some(Write(message.channelId, message.id, Success(ops.update(cached, message))))
  }

  /** MESSAGE_DELETE: any cached record, success or failure, becomes the deleted notice. */
  function OnDelete(locale: Locale, cache: Cache, channelId: Snowflake, id: Snowflake): (r: Option<Write>)
    ensures r.Some? <==> Has(cache, channelId, id)
    ensures r.Some? ==> r.value == Write(channelId, id, Failure(Error, locale.deleted))
  {
    if !Has(cache, channelId, id) then None
    else Some(Write(channelId, id, Failure(Error, locale.deleted)))
  }

  /** The reaction guard: a confirmed (non-optimistic) echo of the current user's own reaction
      is ignored, since the optimistic copy was already applied. */
  predicate IgnoredEcho(userId: Snowflake, currentUser: Snowflake, optimistic: bool) {
    !optimistic && userId == currentUser
  }

  /** MESSAGE_REACTION_ADD, with the guard written twice as in the source. */
  function OnReactionAdd(ops: HostOps, currentUser: Snowflake, cache: Cache, c: Snowflake, m: Snowflake,
                         userId: Snowflake, emoji: string, optimistic: bool): (r: Option<Write>)
    ensures r.Some? <==> !IgnoredEcho(userId, currentUser, optimistic) && CachedMessage(cache, c, m).Some?
    ensures r.Some? ==> r.value == Write(c, m, Success(ops.addReaction(CachedMessage(cache, c, m).value, emoji,
                                                                       userId == currentUser)))
  {
    var self := userId == currentUser;
    if !optimistic && self then None
    else if !optimistic && userId == currentUser then None
    else match CachedMessage(cache, c, m)
      case None => None
      case Some(cached) => Some(Write(c, m, Success(ops.addReaction(cached, emoji, self))))
  }

  /** MESSAGE_REACTION_REMOVE: the same guard, once. */
  function OnReactionRemove(ops: HostOps, currentUser: Snowflake, cache: Cache, c: Snowflake, m: Snowflake,
                            userId: Snowflake, emoji: string, optimistic: bool): (r: Option<Write>)
    ensures r.Some? <==> !IgnoredEcho(userId, currentUser, optimistic) && CachedMessage(cache, c, m).Some?
    ensures r.Some? ==> r.value == Write(c, m, Success(ops.removeReaction(CachedMessage(cache, c, m).value, emoji,
                                                                          userId == currentUser)))
  {
    var self := userId == currentUser;
    if !optimistic && self then None
    else match CachedMessage(cache, c, m)
      case None => None
      case Some(cached) => Some(Write(c, m, Success(ops.removeReaction(cached, emoji, self))))
  }

  /** MESSAGE_REACTION_REMOVE_ALL: a cached success loses all its reactions, nothing else. */
  function OnReactionRemoveAll(cache: Cache, c: Snowflake, m: Snowflake): (r: Option<Write>)
    ensures r.Some? <==> CachedMessage(cache, c, m).Some?
    ensures r.Some? ==> r.value.record.Success? && r.value.record.message.reactions == []
    ensures r.Some? ==> r.value.record.message.(reactions := CachedMessage(cache, c, m).value.reactions)
                        == CachedMessage(cache, c, m).value
  {
    match CachedMessage(cache, c, m)
    case None => None
    case Some(cached) => Some(Write(c, m, Success(cached.(reactions := []))))
  }

  /** MESSAGE_REACTION_REMOVE_EMOJI: acts on a cached success only. */
  function OnReactionRemoveEmoji(ops: HostOps, cache: Cache, c: Snowflake, m: Snowflake, emoji: string): (r: Option<Write>)
    ensures r.Some? <==> CachedMessage(cache, c, m).Some?
    ensures r.Some? ==> r.value == Write(c, m, Success(ops.removeReactionsForEmoji(CachedMessage(cache, c, m).value, emoji)))
  {
    match CachedMessage(cache, c, m)
    case None => None
    case Some(cached) => Some(Write(c, m, Success(ops.removeReactionsForEmoji(cached, emoji))))
  }

  /** The write the subscribed handler for `e` makes, if any. */
  function Handle(ops: HostOps, locale: Locale, currentUser: Snowflake, cache: Cache, e: Event): (r: Option<Write>)
    ensures r.Some? ==> (r.value.channelId, r.value.messageId) == Target(e)
    ensures r.Some? ==> Has(cache, Target(e).0, Target(e).1)
  {
    match e
    case MessageCreate(msg) => OnCreate(ops, cache, msg)
    case MessageUpdate(msg) => OnUpdate(ops, cache, msg)
    case MessageDelete(c, id) => OnDelete(locale, cache, c, id)
    case ReactionAdd(c, m, u, emoji, opt) => OnReactionAdd(ops, currentUser, cache, c, m, u, emoji, opt)
    case ReactionRemove(c, m, u, emoji, opt) => OnReactionRemove(ops, currentUser, cache, c, m, u, emoji, opt)
    case ReactionRemoveAll(c, m) => OnReactionRemoveAll(cache, c, m)
    case ReactionRemoveEmoji(c, m, emoji) => OnReactionRemoveEmoji(ops, cache, c, m, emoji)
  }

  /** Dispatching an event: the handler's write, if any, goes through `MessageCache.set`. */
  function Dispatch(ops: HostOps, locale: Locale, currentUser: Snowflake, cache: Cache, e: Event): (r: Cache)
    ensures r.listeners == cache.listeners
  {
    match Handle(ops, locale, currentUser, cache, e)
    case None => cache
    case Some(w) => Set(cache, w.channelId, w.messageId, w.record).cache
  }

  /** Every handler touches at most the pair its event names: all other numeric pairs keep
      their records, and a pair that was not cached stays uncached. */
  lemma DispatchFrame(ops: HostOps, locale: Locale, currentUser: Snowflake, cache: Cache, e: Event,
                      c: Snowflake, m: Snowflake)
    requires IsSnowflake(c) && IsSnowflake(Target(e).0)
    ensures (c, m) != Target(e) ==> Get(Dispatch(ops, locale, currentUser, cache, e), c, m) == Get(cache, c, m)
    ensures Has(Dispatch(ops, locale, currentUser, cache, e), c, m) <==> Has(cache, c, m)
  {
    var w := Handle(ops, locale, currentUser, cache, e);
    if w.Some? {
      if (c, m) != Target(e) {
        SetLeavesOtherPairs(cache, Target(e).0, Target(e).1, w.value.record, c, m);
      }
    }
  }

  /** The duplicated guard in the reaction-add handler is redundant: a single check decides
      the same, as the reaction-remove handler has it. */
  lemma RepeatedGuardRedundant(ops: HostOps, currentUser: Snowflake, cache: Cache, c: Snowflake, m: Snowflake,
                               userId: Snowflake, emoji: string, optimistic: bool)
    ensures OnReactionAdd(ops, currentUser, cache, c, m, userId, emoji, optimistic).Some? ==
            OnReactionRemove(ops, currentUser, cache, c, m, userId, emoji, optimistic).Some?
  {
  }

  /** A delete notice replaces even a cached success. */
  lemma DeleteOverwritesSuccess(ops: HostOps, locale: Locale, currentUser: Snowflake, cache: Cache,
                                c: Snowflake, id: Snowflake, msg: MessageRecord)
    requires Get(cache, c, id) == Some(Success(msg))
    ensures Get(Dispatch(ops, locale, currentUser, cache, MessageDelete(c, id)), c, id) == Some(Failure(Error, locale.deleted))
  {
  }

  /** Events about a pair whose record is a failure leave the cache as it is, except create
      and delete. */
  lemma FailureOnlyRefreshedByCreateOrDelete(ops: HostOps, locale: Locale, currentUser: Snowflake, cache: Cache,
                                             e: Event, kind: HelpMessageType, text: string)
    requires Get(cache, Target(e).0, Target(e).1) == Some(Failure(kind, text))
    requires !e.MessageCreate? && !e.MessageDelete?
    ensures Dispatch(ops, locale, currentUser, cache, e) == cache
  {
  }
}
