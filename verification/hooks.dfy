/** The data side of the link-preview hooks (src/PreviewMessageLinks/hooks.ts): error-text
    formatting, the classification of a message fetch, the cache-then-store choice for a
    freshly mounted embed, and settings with their defaults. */
module Hooks {
  import opened Base
  import opened MessageCache
  import opened Subscriptions

  predicate EndsWithDot(s: string) {
    |s| > 0 && s[|s| - 1] == '.'
  }

  /** `name: message`, where one trailing dot of `name` is dropped. */
  function FormatErrorMessage(name: string, message: string): (r: string)
    ensures |r| >= |message| + 2
    ensures r[|r| - |message| - 2..] == ": " + message
    ensures EndsWithDot(name) ==> r[..|r| - |message| - 2] + "." == name
    ensures !EndsWithDot(name) ==> r[..|r| - |message| - 2] == name
  {
    var head := if EndsWithDot(name) then name[..|name| - 1] else name;
    assert EndsWithDot(name) ==> head + "." == name;
    var r := head + ": " + message;
    assert r[..|head|] == head && r[|head|..] == ": " + message;
    r
  }

  /** Only one dot goes: a name ending in two dots keeps the first. */
  lemma StripsOneDot(name: string, message: string)
    ensures FormatErrorMessage(name + ".", message) == name + ": " + message
  {
    var r := FormatErrorMessage(name + ".", message);
    assert EndsWithDot(name + ".");
    assert r[..|r| - |message| - 2] == name;
    assert r == r[..|r| - |message| - 2] + r[|r| - |message| - 2..];
  }

  /** Decimal rendering of a number, as a template string does it. */
  function DigitChar(d: nat): (c: char)
    requires d < 10
    ensures '0' <= c <= '9' && c as int - '0' as int == d
  {
    (d + '0' as int) as char
  }

  function Decimal(n: nat): (r: string)
    ensures |r| >= 1 && IsSnowflake(r)
    ensures |r| > 1 ==> r[0] != '0'
    decreases n
  {
    if n < 10 then [DigitChar(n)]
    else
      var r := Decimal(n / 10) + [DigitChar(n % 10)];
      assert r[0] == Decimal(n / 10)[0];
      r
  }

  function ParseDecimal(s: string): (n: nat)
    requires IsSnowflake(s)
  {
    if |s| == 0 then 0
    else ParseDecimal(s[..|s| - 1]) * 10 + (s[|s| - 1] as int - '0' as int)
  }

  /** Reading the digits back gives the number. */
  lemma {:induction false} DecimalRoundTrip(n: nat)
    ensures ParseDecimal(Decimal(n)) == n
    decreases n
  {
    if n >= 10 {
      var s := Decimal(n);
      assert s[..|s| - 1] == Decimal(n / 10);
      DecimalRoundTrip(n / 10);
    }
  }

  /** The response body, as far as the classification reads it. */
  datatype Body =
    | NoBody
    | ErrorBody(message: Option<string>)       // `{ message?: string }`
    | MessageList(messages: seq<RawMessage>)

  /** A request either rejects with an error or answers with a status and a body. */
  datatype Response =
    | Thrown(name: string, message: string)
    | Received(ok: bool, status: nat, body: Body)

  /** `response.body?.message ?? `Status ${status}``. */
  function NotOkDetail(status: nat, body: Body): string {
    if body.ErrorBody? && body.message.Some? then body.message.value else "Status " + Decimal(status)
  }

  /** `response.body?.[0]`. */
  function FirstMessage(body: Body): Option<RawMessage> {
    if body.MessageList? && |body.messages| > 0 then Some(body.messages[0]) else None
  }

  const ChannelNotInStore := "Channel not in store"

  /** The outcome `fetchMessage` resolves to for one response; `channels` are the channels
      the client's channel store holds. */
  function FetchMessage(ops: HostOps, locale: Locale, channels: set<Snowflake>, messageId: Snowflake,
                        response: Response): (r: CacheRecord)
    ensures r.Success? <==>
              response.Received? && response.ok && FirstMessage(response.body).Some? &&
              FirstMessage(response.body).value.id == messageId &&
              FirstMessage(response.body).value.channelId in channels
    ensures r.Success? ==> r.message == ops.create(FirstMessage(response.body).value)
    ensures response.Thrown? ==> r == Failure(Error, response.name + ": " + response.message)
    ensures response.Received? && !response.ok ==>
              r == Failure(Warning, FormatErrorMessage(locale.notLoaded, NotOkDetail(response.status, response.body)))
    ensures response.Received? && response.ok &&
            (FirstMessage(response.body).None? || FirstMessage(response.body).value.id != messageId) ==>
              r == Failure(Error, locale.deleted)
    ensures response.Received? && response.ok && FirstMessage(response.body).Some? &&
            FirstMessage(response.body).value.id == messageId &&
            FirstMessage(response.body).value.channelId !in channels ==>
              r == Failure(Warning, FormatErrorMessage(locale.notLoaded, ChannelNotInStore))
    ensures r.Failure? && r.errorType == Warning ==>
              response.Received? && (!response.ok || FirstMessage(response.body).Some?)
  {
    match response
    case Thrown(name, message) => Failure(Error, name + ": " + message)
    case Received(ok, status, body) =>
      if !ok then Failure(Warning, FormatErrorMessage(locale.notLoaded, NotOkDetail(status, body)))
      else match FirstMessage(body)
        case None => Failure(Error, locale.deleted)
        case Some(message) =>
          if message.id != messageId then Failure(Error, locale.deleted)
          else if message.channelId !in channels then
            Failure(Warning, FormatErrorMessage(locale.notLoaded, ChannelNotInStore))
          else Success(ops.create(message))
  }

  /** A rejected request keeps the error name as is: unlike the other texts it does not go
      through `FormatErrorMessage`, so a trailing dot survives. */
  lemma ThrownNameKeepsDot(ops: HostOps, locale: Locale, channels: set<Snowflake>, messageId: Snowflake,
                           name: string, message: string)
    requires EndsWithDot(name)
    ensures FetchMessage(ops, locale, channels, messageId, Thrown(name, message)).errorMessage
            != FormatErrorMessage(name, message)
  {
    var a := name + ": " + message;
    var b := FormatErrorMessage(name, message);
    assert |a| != |b|;
  }

  /** A not-ok answer without a body message reports the numeric status. */
  lemma NotOkReportsStatus(ops: HostOps, locale: Locale, channels: set<Snowflake>, messageId: Snowflake,
                           status: nat)
    ensures FetchMessage(ops, locale, channels, messageId, Received(false, status, NoBody))
            == Failure(Warning, FormatErrorMessage(locale.notLoaded, "Status " + Decimal(status)))
  {
  }

  /** What a freshly mounted embed starts with, the cache after that choice, and whether a
      fetch was started. */
  datatype Initial = Initial(value: Option<CacheRecord>, cache: Cache, fetchStarted: bool)

  /** The initial state of `useMessageCache`: an existing cache entry wins; otherwise a message
      the client's store already holds is written to the cache as a success; otherwise nothing,
      and a fetch is started. */
  function InitialCache(cache: Cache, storeMessage: Option<MessageRecord>, c: Snowflake, m: Snowflake): (r: Initial)
    ensures Has(cache, c, m) ==> r.value == Get(cache, c, m) && r.cache == cache && !r.fetchStarted
    ensures !Has(cache, c, m) && storeMessage.Some? ==>
              r.value == Some(Success(storeMessage.value)) && Get(r.cache, c, m) == r.value && !r.fetchStarted
    ensures !Has(cache, c, m) && storeMessage.None? ==> r.value.None? && r.cache == cache && r.fetchStarted
    ensures r.cache.listeners == cache.listeners
  {
    match Get(cache, c, m)
    case Some(record) => Initial(Some(record), cache, false)
    case None =>
      match storeMessage
      case Some(message) =>
        var out := Set(cache, c, m, Success(message));
        Initial(Some(out.returned), out.cache, false)
      case None => Initial(None, cache, true)
  }

  /** The started fetch, once it resolves, stores its outcome under the pair. */
  function FetchResolved(ops: HostOps, locale: Locale, channels: set<Snowflake>, cache: Cache,
                         c: Snowflake, m: Snowflake, response: Response): Cache
  {
    Set(cache, c, m, FetchMessage(ops, locale, channels, m, response)).cache
  }

  /** A pair that is in neither the cache nor the store ends up holding the fetch outcome. */
  lemma FetchFillsCache(ops: HostOps, locale: Locale, channels: set<Snowflake>, cache: Cache,
                        c: Snowflake, m: Snowflake, response: Response)
    requires !Has(cache, c, m)
    ensures InitialCache(cache, None, c, m).fetchStarted
    ensures Get(FetchResolved(ops, locale, channels, InitialCache(cache, None, c, m).cache, c, m, response), c, m)
            == Some(FetchMessage(ops, locale, channels, m, response))
  {
  }

  datatype SettingKey = HideLinks | Interactive | MaxDepth

  datatype SettingValue = Flag(on: bool) | Number(n: int)

  /** What the settings store returns for a key. */
  datatype Loaded = Undefined | NullValue | Stored(value: SettingValue)

  function DefaultSetting(key: SettingKey): SettingValue {
    match key
    case HideLinks => Flag(true)
    case Interactive => Flag(true)
    case MaxDepth => Number(3)
  }

  /** `loadData(key) ?? defaultSettings[key]`: the default replaces only a missing or null
      value, never a stored `false` or `0`. */
  function UseSetting(key: SettingKey, loaded: Loaded): (r: SettingValue)
    ensures loaded.Stored? ==> r == loaded.value
    ensures !loaded.Stored? ==> r == DefaultSetting(key)
  {
    match loaded
    case Stored(v) => v
    case _ => DefaultSetting(key)
  }

  /** The default shows through exactly when nothing usable was stored or the stored value
      happens to equal it. */
  lemma DefaultOnlyWhenMissing(key: SettingKey, loaded: Loaded)
    ensures UseSetting(key, loaded) == DefaultSetting(key) <==>
            !loaded.Stored? || loaded.value == DefaultSetting(key)
  {
  }

  /** A stored `false` is kept: the fallback is nullish, not falsy. */
  lemma StoredFalseKept()
    ensures UseSetting(HideLinks, Stored(Flag(false))) == Flag(false)
    ensures UseSetting(MaxDepth, Stored(Number(0))) == Number(0)
  {
  }
}
