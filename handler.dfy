/**
 * The ntfy logging handler: construction (topic URL, headers with a derived
 * Authorization, priority map) and `emit`, which stamps the shared session
 * headers with the record's priority and title, posts the rendered message
 * and contains every failure.
 */
module Handler {
  import opened Wrappers
  import Decimal
  import Utf8
  import Base64
  import Priority

  /** A header map, name to value. */
  type Headers = map<string, string>

  const DefaultServerUrl: string := "https://ntfy.sh"
  const AuthorizationKey: string := "Authorization"
  const PriorityKey: string := "X-Priority"
  const TitleKey: string := "X-Title"

  /** The message text of a record, rendered at emit time; rendering can fail. */
  datatype Message = Rendered(text: string) | Unrenderable

  /** What emit reads of a log record: `levelno`, `levelname`, `name` and `getMessage()`. */
  datatype LogRecord = LogRecord(levelno: int, levelname: string, name: string, message: Message)

  /** What the transport makes of a post: a response status, or a network failure. */
  datatype PostOutcome = Ok(status: int) | NetworkError {
    /** The post raises: a network failure, or `raise_for_status` on a 4xx or 5xx status. */
    predicate Fails() {
      NetworkError? || 400 <= status < 600
    }
  }

  /** One request handed to the transport. */
  datatype Request = Request(url: string, headers: Headers, body: string)

  /** Why construction raises: `int()` rejected a key of the priority map. */
  datatype ConfigError = NonNumericLevel

  /** Python truthiness of an optional string: absent and empty are both false. */
  predicate IsSet(s: Option<string>) {
    s.Some? && s.value != ""
  }

  /** `f"{server_url}/{topic_name}"`. */
  function TopicUrl(serverUrl: string, topicName: string): (url: string)
    ensures |url| == |serverUrl| + 1 + |topicName|
    ensures url[..|serverUrl|] == serverUrl && url[|serverUrl|] == '/' && url[|serverUrl| + 1..] == topicName
  {
    serverUrl + "/" + topicName
  }

  /** The caller's headers as construction copies them; absent headers are no headers. */
  function SuppliedHeaders(ntfyHeaders: Option<Headers>): Headers {
    if ntfyHeaders.Some? then ntfyHeaders.value else map[]
  }

  /** The credentials of HTTP Basic authentication (section 2 of RFC 7617): base64 of the UTF-8 of `user:pass`. */
  function BasicToken(username: string, password: string): (token: string)
    ensures |token| == 4 * ((|Utf8.Encode(username + ":" + password)| + 2) / 3)
    ensures Base64.Decode(token) == Some(Utf8.Encode(username + ":" + password))
  {
    var octets := Utf8.Encode(username + ":" + password);
    Base64.DecodeEncode(octets);
    Base64.Encode(octets)
  }

  /**
   * What construction promises of the session headers: the caller's headers,
   * plus an Authorization header only when the caller gave none, taken from
   * a non-empty access token first (section 2.1 of RFC 6750), else from a
   * non-empty username and password together.
   */
  ghost predicate ResolvedHeaders(h: Headers, ntfyHeaders: Option<Headers>,
                                  accessToken: Option<string>, username: Option<string>, password: Option<string>)
    ensures ResolvedHeaders(h, ntfyHeaders, accessToken, username, password) ==>
      var supplied := SuppliedHeaders(ntfyHeaders);
      && (forall k :: k in supplied ==> k in h && h[k] == supplied[k])
      && h.Keys <= supplied.Keys + {AuthorizationKey}
      && (AuthorizationKey in h <==>
            (AuthorizationKey in supplied || IsSet(accessToken) || (IsSet(username) && IsSet(password))))
  {
    var supplied := SuppliedHeaders(ntfyHeaders);
    && (AuthorizationKey in supplied ==> h == supplied)
    && (AuthorizationKey !in supplied && IsSet(accessToken) ==>
          h == supplied[AuthorizationKey := "Bearer " + accessToken.value])
    && (AuthorizationKey !in supplied && !IsSet(accessToken) && IsSet(username) && IsSet(password) ==>
          h == supplied[AuthorizationKey := "Basic " + BasicToken(username.value, password.value)])
    && (AuthorizationKey !in supplied && !IsSet(accessToken) && !(IsSet(username) && IsSet(password)) ==>
          h == supplied)
  }

  /** The header part of construction: copy the caller's headers, then add Authorization if due. */
  method BuildHeaders(ntfyHeaders: Option<Headers>, accessToken: Option<string>,
                      username: Option<string>, password: Option<string>) returns (headers: Headers)
    ensures ResolvedHeaders(headers, ntfyHeaders, accessToken, username, password)
  {
    headers := map[];
    if ntfyHeaders.Some? && |ntfyHeaders.value| > 0 {
      headers := map k | k in ntfyHeaders.value :: ntfyHeaders.value[k];
    }
    assert headers == SuppliedHeaders(ntfyHeaders);
    if AuthorizationKey !in headers {
      if IsSet(accessToken) {
        headers := headers[AuthorizationKey := "Bearer " + accessToken.value];
      } else if IsSet(username) && IsSet(password) {
        var token := Base64.Encode(Utf8.Encode(username.value + ":" + password.value));
        headers := headers[AuthorizationKey := "Basic " + token];
      }
    }
  }

  /** The octets of `user:pass`: the username's, one colon, the password's. */
  lemma CredentialOctets(username: string, password: string)
    ensures Utf8.Encode(username + ":" + password) == Utf8.Encode(username) + [':' as int] + Utf8.Encode(password)
  {
    Utf8.EncodeConcat(username + ":", password);
    Utf8.EncodeConcat(username, ":");
    Utf8.EncodeOne(':');
  }

  /** The record's title, `f"{record.levelname}: {record.name}"`. */
  function Title(record: LogRecord): (title: string)
    ensures var n := |record.levelname|;
      && |title| == n + 2 + |record.name|
      && title[..n] == record.levelname && title[n..n + 2] == ": " && title[n + 2..] == record.name
  {
    record.levelname + ": " + record.name
  }

  /**
   * The headers after emit writes the record's priority and title into them:
   * those two keys are set, whatever the caller had put there, and every
   * other header is kept.
   */
  function Stamp(h: Headers, priorityMap: map<int, int>, record: LogRecord): (r: Headers)
    ensures r.Keys == h.Keys + {PriorityKey, TitleKey}
    ensures r[PriorityKey] == Decimal.IntToString(Priority.PriorityFor(priorityMap, record.levelno))
    ensures r[TitleKey] == Title(record)
    ensures forall k :: k in h && k != PriorityKey && k != TitleKey ==> r[k] == h[k]
  {
    h[PriorityKey := Decimal.IntToString(Priority.PriorityFor(priorityMap, record.levelno))][TitleKey := Title(record)]
  }

  /** Stamping keeps everything but the two stamped keys. */
  lemma StampKeepsOthers(h: Headers, priorityMap: map<int, int>, record: LogRecord)
    ensures Stamp(h, priorityMap, record) - {PriorityKey, TitleKey} == h - {PriorityKey, TitleKey}
  {
  }

  /** What the two stamped keys held before does not matter. */
  lemma StampOverwrites(a: Headers, b: Headers, priorityMap: map<int, int>, record: LogRecord)
    requires a - {PriorityKey, TitleKey} == b - {PriorityKey, TitleKey}
    ensures Stamp(a, priorityMap, record) == Stamp(b, priorityMap, record)
  {
    var ra, rb := Stamp(a, priorityMap, record), Stamp(b, priorityMap, record);
    forall k | k in a && k != PriorityKey && k != TitleKey
      ensures k in b && a[k] == b[k]
    {
      assert k in a - {PriorityKey, TitleKey};
    }
    forall k | k in b && k != PriorityKey && k != TitleKey
      ensures k in a
    {
      assert k in b - {PriorityKey, TitleKey};
    }
    assert ra.Keys == rb.Keys;
  }

  /** Stamping the same record twice gives the headers of stamping it once. */
  lemma StampIdempotent(h: Headers, priorityMap: map<int, int>, record: LogRecord)
    ensures Stamp(Stamp(h, priorityMap, record), priorityMap, record) == Stamp(h, priorityMap, record)
  {
  }

  /** The handler: `logging.Handler` subclass `NtfyHandler`. */
  class NtfyHandler {
    /** `self.topic_url`. */
    const topicUrl: string
    /** `self.log_level_priority_map`. */
    const priorityMap: map<int, int>
    /** `self.ntfy_session.headers`: shared by every emit, and written by each. */
    var headers: Headers
    /** The headers resolved at construction. */
    ghost const baseHeaders: Headers
    /** Every request handed to the transport, oldest first. */
    ghost var requests: seq<Request>
    /** How many errors emit has passed to the framework's `handleError`. */
    ghost var errorsReported: nat

    /** Emit only ever touches the two stamped keys of the session headers. */
    ghost predicate Valid()
      reads this
    {
      headers - {PriorityKey, TitleKey} == baseHeaders - {PriorityKey, TitleKey}
    }

    /** Stores the state construction computed. */
    constructor (topicUrl: string, headers: Headers, priorityMap: map<int, int>)
      ensures this.topicUrl == topicUrl && this.headers == headers && this.priorityMap == priorityMap
      ensures baseHeaders == headers && requests == [] && errorsReported == 0
      ensures Valid()
    {
      this.topicUrl := topicUrl;
      this.headers := headers;
      this.priorityMap := priorityMap;
      this.baseHeaders := headers;
      this.requests := [];
      this.errorsReported := 0;
    }

    /**
     * `NtfyHandler(...)`: fails, as `int()` raises, exactly when a non-empty
     * priority map has a key that is not numeric.
     */
    static method Create(topicName: string, serverUrl: string, logLevelPriorityMap: Option<seq<(Priority.Key, int)>>,
                         ntfyHeaders: Option<Headers>, accessToken: Option<string>,
                         username: Option<string>, password: Option<string>)
      returns (r: Result<NtfyHandler, ConfigError>)
      ensures r.Failure? <==>
        (logLevelPriorityMap.Some? &&
         exists i :: 0 <= i < |logLevelPriorityMap.value| && Priority.KeyLevel(logLevelPriorityMap.value[i].0).None?)
      ensures r.Success? ==>
        && fresh(r.value)
        && r.value.Valid()
        && r.value.topicUrl == TopicUrl(serverUrl, topicName)
        && ResolvedHeaders(r.value.headers, ntfyHeaders, accessToken, username, password)
        && r.value.baseHeaders == r.value.headers
        && (logLevelPriorityMap.Some? && logLevelPriorityMap.value != [] ==>
              Priority.Normalised(logLevelPriorityMap.value) == Some(r.value.priorityMap))
        && (logLevelPriorityMap.None? || logLevelPriorityMap.value == [] ==>
              r.value.priorityMap == Priority.DefaultPriorityMap)
        && r.value.requests == [] && r.value.errorsReported == 0
    {
      var url := TopicUrl(serverUrl, topicName);
      var headers := BuildHeaders(ntfyHeaders, accessToken, username, password);
      var levels := Priority.NormalisePriorityMap(logLevelPriorityMap);
      if logLevelPriorityMap.Some? {
        Priority.NormalisedFails(logLevelPriorityMap.value);
      }
      if levels.None? {
        return Failure(NonNumericLevel);
      }
      var h := new NtfyHandler(url, headers, levels.value);
      r := Success(h);
    }

    /**
     * `emit(record)`: writes X-Priority and X-Title into the session headers
     * in place, renders the message, posts it to the topic URL and contains
     * every failure. It never raises; `reported` says whether it passed an
     * error to `handleError`, which it then did exactly once.
     */
    method Emit(record: LogRecord, outcome: PostOutcome) returns (reported: bool)
      requires Valid()
      modifies this
      ensures Valid()
      ensures headers == Stamp(old(headers), priorityMap, record)
      ensures headers == Stamp(baseHeaders, priorityMap, record)
      ensures requests == old(requests) +
        (if record.message.Rendered? then [Request(topicUrl, headers, record.message.text)] else [])
      ensures reported == (record.message.Unrenderable? || outcome.Fails())
      ensures errorsReported == old(errorsReported) + (if reported then 1 else 0)
    {
      var priority := Priority.PriorityFor(priorityMap, record.levelno);
      StampKeepsOthers(headers, priorityMap, record);
      StampOverwrites(headers, baseHeaders, priorityMap, record);
      headers := headers[PriorityKey := Decimal.IntToString(priority)];
      headers := headers[TitleKey := Title(record)];
      match record.message {
        case Unrenderable =>
          reported := true;
        case Rendered(body) =>
          requests := requests + [Request(topicUrl, headers, body)];
          reported := outcome.Fails();
      }
      if reported {
        errorsReported := errorsReported + 1;
      }
    }
  }

  /**
   * The example of an ERROR record from logger "diskmon" on topic "alerts":
   * one request to https://ntfy.sh/alerts with priority 4 and title
   * "ERROR: diskmon"; a 200 response reports nothing.
   */
  method ExampleAlert()
  {
    var created := NtfyHandler.Create("alerts", DefaultServerUrl, None, None, None, None, None);
    assert created.Success?;
    var handler := created.value;
    assert handler.headers == map[];
    var record := LogRecord(Priority.ERROR, "ERROR", "diskmon", Rendered("disk full"));
    Priority.DefaultMapPriorities(record.levelno);
    assert Decimal.IntToString(4) == "4";
    assert Title(record) == "ERROR: diskmon";
    assert handler.topicUrl == "https://ntfy.sh/alerts";
    assert Stamp(map[], handler.priorityMap, record) == map[PriorityKey := "4", TitleKey := "ERROR: diskmon"];
    var reported := handler.Emit(record, Ok(200));
    assert !reported;
    assert handler.requests ==
      [Request("https://ntfy.sh/alerts", map[PriorityKey := "4", TitleKey := "ERROR: diskmon"], "disk full")];
  }
}
