/**
 * The two HTTP handlers of the service: `POST /send-message` caches a
 * submission in Redis under a timestamped key and produces it to Kafka, and
 * `GET /messages` lists the cached submissions. JSON encoding and decoding,
 * the clock and the Redis and Kafka clients are inputs: decoders are partial
 * functions, the encoder a total one, the clock a number, and each backend
 * call comes with its outcome.
 */
module Handlers {
  import opened Wrappers
  import opened Models

  /** An HTTP reply: the status code and the body written. */
  datatype Response = Response(status: nat, body: string)

  /** The prefix of every key `SendMessage` caches under; the read endpoint lists the keys matching `message-*`. */
  const MessageKeyPrefix: string := "message-"

  /** The prefix the WebSocket path caches its records under (`CacheMessage` in the Redis package). */
  const SessionKeyPrefix: string := "message:"

  /** Nanoseconds in ten minutes, the lifetime of a cached submission. */
  const CacheTtlNanos: nat := 10 * 60 * 1000000000

  /** The Kafka key of every produced submission. */
  const KafkaKey: string := "chat-key"

  /** `http.Error` writes the message followed by a newline. */
  function ErrorResponse(status: nat, msg: string): Response {
    Response(status, msg + "\n")
  }

  // ----- Decimal timestamps in cache keys -----

  predicate IsDigit(c: char) {
    '0' <= c <= '9'
  }

  function DigitChar(d: nat): (c: char)
    requires d < 10
    ensures IsDigit(c)
  {
    ('0' as int + d) as char
  }

  function DigitValue(c: char): (d: nat)
    requires IsDigit(c)
    ensures d < 10
  {
    c as int - '0' as int
  }

  predicate AllDigits(s: string) {
    forall i :: 0 <= i < |s| ==> IsDigit(s[i])
  }

  /** `%d` of a non-negative number: its decimal digits, most significant first, without leading zeros. */
  function NatToDecimal(n: nat): (r: string)
    ensures |r| >= 1 && AllDigits(r)
    ensures r[0] == '0' <==> n == 0
    decreases n
  {
    if n < 10 then [DigitChar(n)] else NatToDecimal(n / 10) + [DigitChar(n % 10)]
  }

  /** `%d` of any number: a minus sign before the digits of a negative one. */
  function FormatInt(n: int): (r: string)
    ensures |r| >= 1
  {
    if n < 0 then "-" + NatToDecimal(-n) else NatToDecimal(n)
  }

  /** The value of a string of decimal digits. */
  function DecimalValue(s: string): nat
    requires AllDigits(s)
    decreases |s|
  {
    if s == [] then 0 else DecimalValue(s[..|s| - 1]) * 10 + DigitValue(s[|s| - 1])
  }

  lemma {:induction false} DecimalRoundTrip(n: nat)
    ensures DecimalValue(NatToDecimal(n)) == n
    decreases n
  {
    var r := NatToDecimal(n);
    if n < 10 {
      assert r[..0] == [];
    } else {
      DecimalRoundTrip(n / 10);
      assert r[..|r| - 1] == NatToDecimal(n / 10);
    }
  }

  /** Reading back a `%d` rendering: an optional minus sign, then at least one digit. */
  function ParseInt(s: string): (r: Option<int>)
    ensures r.Some? ==> s != [] && (r.value < 0 ==> s[0] == '-')
  {
    if s != [] && s[0] == '-' then
      if |s| > 1 && AllDigits(s[1..]) then Some(-(DecimalValue(s[1..]) as int)) else None
    else if s != [] && AllDigits(s) then Some(DecimalValue(s))
    else None
  }

  /** The key `SendMessage` caches under at clock reading `now` (nanoseconds since the epoch). */
  function CacheKey(now: int): (k: string)
    ensures |k| > |MessageKeyPrefix| && k[..|MessageKeyPrefix|] == MessageKeyPrefix
  {
    MessageKeyPrefix + FormatInt(now)
  }

  /** The timestamp a cache key was made at, if it is one of `CacheKey`'s keys. */
  function KeyTimestamp(k: string): Option<int> {
    if |k| >= |MessageKeyPrefix| && k[..|MessageKeyPrefix|] == MessageKeyPrefix
    then ParseInt(k[|MessageKeyPrefix|..])
    else None
  }

  /** The timestamp can be read back from the key, so the key names the instant it was made at. */
  lemma CacheKeyRoundTrip(now: int)
    ensures KeyTimestamp(CacheKey(now)) == Some(now)
  {
    var k := CacheKey(now);
    assert k[|MessageKeyPrefix|..] == FormatInt(now);
    if now < 0 {
      assert FormatInt(now)[1..] == NatToDecimal(-now);
      DecimalRoundTrip(-now);
    } else {
      DecimalRoundTrip(now);
    }
  }

  /** Submissions cached at different instants never overwrite each other. */
  lemma CacheKeyInjective(a: int, b: int)
    ensures CacheKey(a) == CacheKey(b) <==> a == b
  {
    CacheKeyRoundTrip(a);
    CacheKeyRoundTrip(b);
  }

  /** The glob `message-*` as Redis `KEYS` applies it: the literal prefix, then anything. */
  predicate MatchesMessagePattern(k: string) {
    |k| >= |MessageKeyPrefix| && k[..|MessageKeyPrefix|] == MessageKeyPrefix
  }

  /** Every key `SendMessage` writes is one the read endpoint enumerates. */
  lemma CacheKeyListed(now: int)
    ensures MatchesMessagePattern(CacheKey(now))
  {
  }

  /**
   * The records the WebSocket path caches, under `message:` and the record id,
   * are never enumerated by the read endpoint, whatever the id.
   */
  lemma SessionKeysNotListed(id: string)
    ensures !MatchesMessagePattern(SessionKeyPrefix + id)
  {
    assert (SessionKeyPrefix + id)[7] == ':';
  }

  // ----- POST /send-message -----

  /** A Redis write with its lifetime, or a Kafka write. */
  datatype Effect = CacheSet(key: string, value: Bytes, ttlNanos: nat) | Produce(key: string, value: Bytes)

  /** What the environment answers during one request: the clock and the outcome of each backend call. */
  datatype SendEnv = SendEnv(now: int, cacheOk: bool, produceOk: bool)

  /** The reply and the backend writes attempted, in order. */
  datatype SendOutcome = SendOutcome(response: Response, effects: seq<Effect>)

  /**
   * `SendMessage`: decode the body, cache the re-encoded request for ten
   * minutes, produce it to Kafka, reply. Each failure replies at once and
   * attempts nothing further.
   */
  function SendMessage(decodeBody: Bytes -> Option<MessageRequest>, encode: MessageRequest -> Bytes,
                       body: Bytes, env: SendEnv): (r: SendOutcome)
    ensures decodeBody(body).None? ==> r == SendOutcome(ErrorResponse(400, "Invalid request"), [])
    ensures decodeBody(body).Some? ==>
              var v := encode(decodeBody(body).value);
              && |r.effects| >= 1
              && r.effects[0] == CacheSet(CacheKey(env.now), v, CacheTtlNanos)
              && (|r.effects| == 2 <==> env.cacheOk)
              && (env.cacheOk ==> r.effects[1] == Produce(KafkaKey, v))
    ensures |r.effects| <= 2
    ensures r.response.status == 200 <==> decodeBody(body).Some? && env.cacheOk && env.produceOk
    ensures decodeBody(body).Some? && !env.cacheOk ==> r.response == ErrorResponse(500, "Failed to cache message")
    ensures decodeBody(body).Some? && env.cacheOk && !env.produceOk ==>
              r.response == ErrorResponse(500, "Failed to send message")
  {
    match decodeBody(body)
    case None => SendOutcome(ErrorResponse(400, "Invalid request"), [])
    case Some(req) =>
      var v := encode(req);
      var cache := CacheSet(CacheKey(env.now), v, CacheTtlNanos);
      if !env.cacheOk then SendOutcome(ErrorResponse(500, "Failed to cache message"), [cache])
      else if !env.produceOk then SendOutcome(ErrorResponse(500, "Failed to send message"), [cache, Produce(KafkaKey, v)])
      else SendOutcome(Response(200, "Message sent to Kafka and cached in Redis"), [cache, Produce(KafkaKey, v)])
  }

  // ----- GET /messages -----

  /** The outcome of the read endpoint: the listing failed, or the messages to encode as a JSON array. */
  datatype GetReply = KeysFailed | Listed(messages: seq<MessageRequest>)

  /** The reply when the key listing fails. */
  const KeysFailedResponse: Response := ErrorResponse(500, "Failed to get messages from cache")

  /**
   * The HTTP reply for an outcome of the read endpoint: the listing error
   * with status 500, or the messages, encoded by `encode`, with the default
   * status 200.
   */
  function Reply(g: GetReply, encode: seq<MessageRequest> -> string): (r: Response)
    ensures r.status == 200 <==> g.Listed?
    ensures g.KeysFailed? ==> r.status == 500 && r.body == "Failed to get messages from cache\n"
    ensures g.Listed? ==> r.body == encode(g.messages)
  {
    match g
    case KeysFailed => KeysFailedResponse
    case Listed(messages) => Response(200, encode(messages))
  }

  /** A listed key contributes a message when its `GET` succeeds and its value decodes. */
  function Lookup(get: string -> Option<Bytes>, decode: Bytes -> Option<MessageRequest>, k: string): Option<MessageRequest> {
    if get(k).Some? then decode(get(k).value) else None
  }

  /** Reference definition: the messages of the listed keys that can be read and decoded, in key order. */
  function Window(get: string -> Option<Bytes>, decode: Bytes -> Option<MessageRequest>, keys: seq<string>): seq<MessageRequest>
    decreases |keys|
  {
    if keys == [] then []
    else
      var init := Window(get, decode, keys[..|keys| - 1]);
      var m := Lookup(get, decode, keys[|keys| - 1]);
      if m.Some? then init + [m.value] else init
  }

  /**
   * `GetMessages`: list the keys matching `message-*` (`listed`, `None` when
   * the listing fails), then read and decode each one in turn, skipping keys
   * whose read fails or whose value does not decode; reply with the
   * encoded messages.
   */
  method GetMessages(listed: Option<seq<string>>, get: string -> Option<Bytes>,
                     decode: Bytes -> Option<MessageRequest>, encode: seq<MessageRequest> -> string)
    returns (reply: GetReply, response: Response)
    ensures listed.None? ==> reply == KeysFailed
    ensures listed.Some? ==> reply == Listed(Window(get, decode, listed.value))
    ensures response == Reply(reply, encode)
  {
    if listed.None? {
      reply := KeysFailed;
      response := KeysFailedResponse;
      return;
    }
    var keys := listed.value;
    var messages: seq<MessageRequest> := [];
    var i := 0;
    while i < |keys|
      invariant 0 <= i <= |keys|
      invariant messages == Window(get, decode, keys[..i])
    {
      assert keys[..i + 1][..i] == keys[..i];
      var val := get(keys[i]);
      if val.Some? {
        var message := decode(val.value);
        if message.Some? {
          messages := messages + [message.value];
        }
      }
      i := i + 1;
    }
    assert keys[..|keys|] == keys;
    reply := Listed(messages);
    response := Response(200, encode(messages));
  }

  /** A message is listed exactly when some listed key holds a readable value that decodes to it. */
  lemma {:induction false} WindowMember(get: string -> Option<Bytes>, decode: Bytes -> Option<MessageRequest>,
                                        keys: seq<string>, m: MessageRequest)
    ensures m in Window(get, decode, keys) <==> exists k :: k in keys && Lookup(get, decode, k) == Some(m)
    decreases |keys|
  {
    if keys != [] {
      var init := keys[..|keys| - 1];
      var last := keys[|keys| - 1];
      WindowMember(get, decode, init, m);
      assert keys == init + [last];
      if exists k :: k in keys && Lookup(get, decode, k) == Some(m) {
        var k :| k in keys && Lookup(get, decode, k) == Some(m);
        if k != last {
          assert k in init;
        }
      }
    }
  }

  /** The listing has at most one message per key, and exactly one when every key can be read and decoded. */
  lemma {:induction false} WindowLength(get: string -> Option<Bytes>, decode: Bytes -> Option<MessageRequest>, keys: seq<string>)
    ensures |Window(get, decode, keys)| <= |keys|
    ensures (forall k :: k in keys ==> Lookup(get, decode, k).Some?) ==> |Window(get, decode, keys)| == |keys|
    decreases |keys|
  {
    if keys != [] {
      var init := keys[..|keys| - 1];
      WindowLength(get, decode, init);
      assert forall k :: k in init ==> k in keys;
    }
  }

  /** Key order is kept: the listing of two runs of keys is the listing of the first followed by that of the second. */
  lemma {:induction false} WindowAppend(get: string -> Option<Bytes>, decode: Bytes -> Option<MessageRequest>,
                                        a: seq<string>, b: seq<string>)
    ensures Window(get, decode, a + b) == Window(get, decode, a) + Window(get, decode, b)
    decreases |b|
  {
    if b == [] {
      assert a + b == a;
    } else {
      var binit := b[..|b| - 1];
      WindowAppend(get, decode, a, binit);
      assert (a + b)[..|a + b| - 1] == a + binit;
      assert (a + b)[|a + b| - 1] == b[|b| - 1];
    }
  }

  /**
   * A submission `SendMessage` cached is returned by the read endpoint while
   * its entry is still in the cache: the key listing returns every key in the
   * cache that matches `message-*`, each read returns what the cache holds,
   * and the decoder reads back what the encoder wrote.
   */
  lemma CachedSubmissionListed(decodeBody: Bytes -> Option<MessageRequest>, encode: MessageRequest -> Bytes,
                               decode: Bytes -> Option<MessageRequest>, body: Bytes, env: SendEnv,
                               cache: map<string, Bytes>, keys: seq<string>, get: string -> Option<Bytes>)
    requires decodeBody(body).Some? && decode(encode(decodeBody(body).value)) == decodeBody(body)
    requires forall k :: k in keys <==> k in cache && MatchesMessagePattern(k)
    requires forall k :: k in cache ==> get(k) == Some(cache[k])
    requires var e := SendMessage(decodeBody, encode, body, env).effects[0]; e.key in cache && cache[e.key] == e.value
    ensures decodeBody(body).value in Window(get, decode, keys)
  {
    var k := CacheKey(env.now);
    CacheKeyListed(env.now);
    assert k in keys;
    WindowMember(get, decode, keys, decodeBody(body).value);
  }
}
