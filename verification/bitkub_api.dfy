/**
 * The Bitkub REST client: query strings for the two history endpoints,
 * the signed request (timestamp, method, path and query under an HMAC),
 * and the loop that walks the page cursor.
 *
 * The network and the wall clock are not modelled; they are a script of
 * rounds. Round i holds the clock reading taken for the i-th request and
 * the server's reply to it.
 */
module BitkubApi {
  import opened Primitives
  import opened Strconv
  import Strings
  import Hex
  import opened Dto

  const DepositHistoryPath := "/api/v3/crypto/deposit-history"
  const OrderHistoryPath := "/api/v3/market/my-order-history"
  /** The page string of the first request of a walk. */
  const FirstPage := "1"
  /** The page size every request asks for. */
  const PageLimit := "100"
  const QuoteSuffix := "_thb"

  const TimestampHeader := "X-BTK-TIMESTAMP"
  const ApiKeyHeader := "X-BTK-APIKEY"
  const SignHeader := "X-BTK-SIGN"

  type Sha256Digest = s: seq<byte> | |s| == 32 witness seq(32, _ => 0)

  /** HMAC-SHA256 over the bytes of (key, message); its internals are not modelled. */
  type HmacSha256 = (string, string) -> Sha256Digest

  type Header = (string, string)

  datatype HttpRequest = HttpRequest(verb: string, url: string, headers: seq<Header>)

  /** The three ways one request fails; each ends the walk. */
  datatype ApiError =
    | TransportError        // the request could not be built or sent
    | UnexpectedStatus(code: int)
    | DecodeError

  datatype Body<T> = Decoded(response: Response<T>) | Undecodable

  datatype Reply<T> = NoReply | HttpResponse(status: int, body: Body<T>)

  datatype Round<T> = Round(nowMillis: int64, reply: Reply<T>)

  /** Which history is walked; the order history carries the already lower-cased symbol and the optional start time. */
  datatype Endpoint = DepositHistories | OrderHistories(symbol: string, start: Option<uint64>)

  /** The deposit-history query: page `p`, then page size `lmt`. */
  function DepositQuery(page: string, limit: string): (q: string)
    ensures |q| == 8 + |page| + |limit| && q[0] == '?'
  {
    "?p=" + page + "&lmt=" + limit
  }

  /** The order-history query: pair `sym` (symbol quoted in baht), page `p`, page size `lmt`, then `start` when given. */
  function OrderQuery(symbol: string, page: string, limit: string, start: Option<uint64>): (q: string)
    ensures |q| > 0 && q[0] == '?'
    ensures start.None? ==> |q| == 17 + |symbol| + |page| + |limit|
    ensures start.Some? ==> |q| == 24 + |symbol| + |page| + |limit| + |FormatUint(start.value as nat)|
  {
    var q := "?sym=" + symbol + QuoteSuffix + "&p=" + page + "&lmt=" + limit;
    if start.Some? then q + "&start=" + FormatUint(start.value as nat) else q
  }

  function Method(e: Endpoint): string
  {
    if e.DepositHistories? then "GET" else "POST"
  }

  function Path(e: Endpoint): string
  {
    if e.DepositHistories? then DepositHistoryPath else OrderHistoryPath
  }

  function Query(e: Endpoint, page: string): string
  {
    match e
    case DepositHistories => DepositQuery(page, PageLimit)
    case OrderHistories(symbol, start) => OrderQuery(symbol, page, PageLimit, start)
  }

  function SigningPayload(timestamp: string, verb: string, path: string, query: string): string
  {
    timestamp + verb + path + query
  }

  /** The lower-case hex spelling of the digest: 64 characters that decode back to the 32 digest bytes. */
  function GenSignature(mac: HmacSha256, secret: string, payload: string): (sig: string)
    ensures |sig| == 64
    ensures forall i :: 0 <= i < |sig| ==> Hex.IsLowerHex(sig[i])
    ensures Hex.Decode(sig) == Some(mac(secret, payload))
  {
    Hex.DecodeEncode(mac(secret, payload));
    Hex.Encode(mac(secret, payload))
  }

  /** The value of the first header called `name`. */
  function HeaderValue(headers: seq<Header>, name: string): Option<string>
    decreases |headers|
  {
    if headers == [] then None
    else if headers[0].0 == name then Some(headers[0].1)
    else HeaderValue(headers[1..], name)
  }

  /**
   * What the exchange checks: the URL lies under `baseUrl`, and the signature
   * header decodes to the HMAC, under `secret`, of the timestamp header, the
   * method and the part of the URL after `baseUrl`, in that order.
   */
  predicate Authentic(mac: HmacSha256, secret: string, baseUrl: string, r: HttpRequest)
  {
    match (HeaderValue(r.headers, TimestampHeader), HeaderValue(r.headers, SignHeader))
    case (Some(ts), Some(sig)) =>
      |baseUrl| <= |r.url| && r.url[..|baseUrl|] == baseUrl
      && Hex.Decode(sig) == Some(mac(secret, ts + r.verb + r.url[|baseUrl|..]))
    case _ => false
  }

  /** What one request yields once its reply is in: a non-200 status or an undecodable body is an error. */
  function Receive<T>(reply: Reply<T>): (r: Result<Response<T>, ApiError>)
    ensures r.Success? <==> reply.HttpResponse? && reply.status == 200 && reply.body.Decoded?
    ensures r.Success? ==> r.value == reply.body.response
    ensures reply.NoReply? ==> r == Failure(TransportError)
    ensures reply.HttpResponse? && reply.status != 200 ==> r == Failure(UnexpectedStatus(reply.status))
    ensures reply.HttpResponse? && reply.status == 200 && reply.body.Undecodable? ==> r == Failure(DecodeError)
  {
    match reply
    case NoReply => Failure(TransportError)
    case HttpResponse(status, body) =>
      if status != 200 then Failure(UnexpectedStatus(status))
      else match body
        case Undecodable => Failure(DecodeError)
        case Decoded(response) => Success(response)
  }

  /** The walk ends at this reply: it is an error, or a page whose cursor is 0. */
  predicate Stops<T>(reply: Reply<T>)
  {
    Receive(reply).Failure? || Receive(reply).value.pagination.next == 0
  }

  /** The script holds a reply at which the walk ends. */
  predicate Terminates<T>(rounds: seq<Round<T>>)
  {
    exists i :: 0 <= i < |rounds| && Stops(rounds[i].reply)
  }

  lemma {:induction false} TerminatesTail<T>(rounds: seq<Round<T>>)
    requires Terminates(rounds) && !Stops(rounds[0].reply)
    ensures Terminates(rounds[1..])
  {
    var i :| 0 <= i < |rounds| && Stops(rounds[i].reply);
    assert rounds[1..][i - 1] == rounds[i];
  }

  function Prepend<T>(page: seq<T>, rest: Result<seq<T>, ApiError>): Result<seq<T>, ApiError>
  {
    match rest
    case Success(records) => Success(page + records)
    case Failure(err) => Failure(err)
  }

  lemma {:induction false} PrependNothing<T>(rest: Result<seq<T>, ApiError>)
    ensures Prepend([], rest) == rest
  {
    if rest.Success? {
      assert [] + rest.value == rest.value;
    }
  }

  lemma {:induction false} PrependTwice<T>(first: seq<T>, second: seq<T>, rest: Result<seq<T>, ApiError>)
    ensures Prepend(first, Prepend(second, rest)) == Prepend(first + second, rest)
  {
    if rest.Success? {
      assert first + (second + rest.value) == first + second + rest.value;
    }
  }

  /** The records a walk over `rounds` returns, or the error that ended it. */
  function Walk<T>(rounds: seq<Round<T>>): Result<seq<T>, ApiError>
    requires Terminates(rounds)
    decreases |rounds|
  {
    match Receive(rounds[0].reply)
    case Failure(err) => Failure(err)
    case Success(response) =>
      if response.pagination.next == 0 then Success(response.result)
      else
        TerminatesTail(rounds);
        Prepend(response.result, Walk(rounds[1..]))
  }

  /** The index of the round at which the walk ends: the first error or the first page with cursor 0. */
  function FirstStop<T>(rounds: seq<Round<T>>): (k: nat)
    requires Terminates(rounds)
    ensures k < |rounds| && Stops(rounds[k].reply)
    ensures forall j :: 0 <= j < k ==> !Stops(rounds[j].reply)
    decreases |rounds|
  {
    if Stops(rounds[0].reply) then 0
    else
      TerminatesTail(rounds);
      var k := FirstStop(rounds[1..]);
      assert forall j :: 1 <= j < k + 1 ==> rounds[j] == rounds[1..][j - 1];
      k + 1
  }

  /** One step of `Walk`: how the first reply decides the outcome. */
  lemma {:induction false} WalkFirst<T>(rounds: seq<Round<T>>)
    requires Terminates(rounds)
    ensures Receive(rounds[0].reply).Failure? ==> Walk(rounds) == Failure(Receive(rounds[0].reply).error)
    ensures Receive(rounds[0].reply).Success? && Receive(rounds[0].reply).value.pagination.next == 0 ==>
      Walk(rounds) == Success(Receive(rounds[0].reply).value.result)
    ensures !Stops(rounds[0].reply) ==>
      Terminates(rounds[1..]) &&
      Walk(rounds) == Prepend(Receive(rounds[0].reply).value.result, Walk(rounds[1..]))
  {
    if !Stops(rounds[0].reply) {
      TerminatesTail(rounds);
    }
  }

  datatype Client = Client(baseUrl: string, apiKey: string, apiSecret: string)
  {
    /** The request sent for (verb, path, query) at clock reading `now`. */
    function BuildRequest(mac: HmacSha256, verb: string, path: string, query: string, now: int64): HttpRequest
    {
      var timestamp := FormatInt(now as int);
      var signature := GenSignature(mac, apiSecret, SigningPayload(timestamp, verb, path, query));
      HttpRequest(verb, baseUrl + path + query,
                  [(TimestampHeader, timestamp), (ApiKeyHeader, apiKey), (SignHeader, signature)])
    }

    /**
     * A built request goes to `baseUrl + path + query`, the same path and
     * query that are signed; its timestamp header is the signed prefix; its
     * key header is the stored key verbatim; its signature is 64 hex
     * characters; and the exchange's check accepts it.
     */
    lemma {:induction false} BuildRequestSigned(mac: HmacSha256, verb: string, path: string, query: string, now: int64)
      ensures var r := BuildRequest(mac, verb, path, query, now);
        && r.verb == verb
        && r.url == baseUrl + path + query
        && HeaderValue(r.headers, TimestampHeader) == Some(FormatInt(now as int))
        && HeaderValue(r.headers, ApiKeyHeader) == Some(apiKey)
        && HeaderValue(r.headers, SignHeader)
             == Some(GenSignature(mac, apiSecret, SigningPayload(FormatInt(now as int), verb, path, query)))
        && |HeaderValue(r.headers, SignHeader).value| == 64
        && Authentic(mac, apiSecret, baseUrl, r)
    {
      var r := BuildRequest(mac, verb, path, query, now);
      var timestamp := FormatInt(now as int);
      var signature := GenSignature(mac, apiSecret, SigningPayload(timestamp, verb, path, query));
      assert r.url[..|baseUrl|] == baseUrl && r.url[|baseUrl|..] == path + query;
      assert timestamp + verb + (path + query) == SigningPayload(timestamp, verb, path, query);
      assert HeaderValue(r.headers[2..], SignHeader) == Some(signature);
      assert HeaderValue(r.headers[1..], SignHeader) == Some(signature) by {
        assert r.headers[1..][1..] == r.headers[2..];
      }
    }

    /** The requests a walk issues, the first one for page `page`. */
    function Sent<T>(mac: HmacSha256, e: Endpoint, rounds: seq<Round<T>>, page: string): (sent: seq<HttpRequest>)
      requires Terminates(rounds)
      ensures |sent| == FirstStop(rounds) + 1
      decreases |rounds|
    {
      var request := BuildRequest(mac, Method(e), Path(e), Query(e, page), rounds[0].nowMillis);
      if Stops(rounds[0].reply) then [request]
      else
        TerminatesTail(rounds);
        [request] + Sent(mac, e, rounds[1..], FormatUint(Receive(rounds[0].reply).value.pagination.next as nat))
    }

    /** One step of `Sent`: the first request, then the rest of the walk if the first reply does not end it. */
    lemma {:induction false} SentFirst<T>(mac: HmacSha256, e: Endpoint, rounds: seq<Round<T>>, page: string)
      requires Terminates(rounds)
      ensures Stops(rounds[0].reply) ==>
        Sent(mac, e, rounds, page) == [BuildRequest(mac, Method(e), Path(e), Query(e, page), rounds[0].nowMillis)]
      ensures !Stops(rounds[0].reply) ==>
        Terminates(rounds[1..]) &&
        Sent(mac, e, rounds, page) ==
          [BuildRequest(mac, Method(e), Path(e), Query(e, page), rounds[0].nowMillis)]
          + Sent(mac, e, rounds[1..], FormatUint(Receive(rounds[0].reply).value.pagination.next as nat))
    {
      if !Stops(rounds[0].reply) {
        TerminatesTail(rounds);
      }
    }

    /** How one reply of `Paginate` moves the walk's outcome forward. */
    lemma {:induction false} PaginateOutcomeStep<T>(pending: seq<Round<T>>, records: seq<T>,
                                                    outcome: Result<seq<T>, ApiError>)
      requires Terminates(pending)
      requires outcome == Prepend(records, Walk(pending))
      ensures var received := Receive(pending[0].reply);
        && (received.Failure? ==> outcome == Failure(received.error))
        && (received.Success? && received.value.pagination.next == 0 ==>
              outcome == Success(records + received.value.result))
        && (!Stops(pending[0].reply) ==>
              && Terminates(pending[1..])
              && outcome == Prepend(records + received.value.result, Walk(pending[1..])))
    {
      WalkFirst(pending);
      var received := Receive(pending[0].reply);
      if !Stops(pending[0].reply) {
        PrependTwice(records, received.value.result, Walk(pending[1..]));
      }
    }

    /** How one request of `Paginate` moves its request log forward. */
    lemma {:induction false} PaginateLogStep<T>(mac: HmacSha256, e: Endpoint, pending: seq<Round<T>>, page: string,
                                                sent: seq<HttpRequest>, log: seq<HttpRequest>)
      requires Terminates(pending)
      requires log == sent + Sent(mac, e, pending, page)
      ensures var request := BuildRequest(mac, Method(e), Path(e), Query(e, page), pending[0].nowMillis);
        && (Stops(pending[0].reply) ==> log == sent + [request])
        && (!Stops(pending[0].reply) ==>
              && Terminates(pending[1..])
              && log == sent + [request]
                        + Sent(mac, e, pending[1..], FormatUint(Receive(pending[0].reply).value.pagination.next as nat)))
    {
      SentFirst(mac, e, pending, page);
    }

    /**
     * Walks the cursor of endpoint `e`: page "1" first, then the page the
     * previous reply names, until a reply with cursor 0; every error ends the
     * walk with no records. Returns the outcome and the requests sent.
     */
    method Paginate<T>(mac: HmacSha256, e: Endpoint, rounds: seq<Round<T>>)
      returns (result: Result<seq<T>, ApiError>, sent: seq<HttpRequest>)
      requires Terminates(rounds)
      ensures result == Walk(rounds)
      ensures sent == Sent(mac, e, rounds, FirstPage)
    {
      var page := FirstPage;
      var records: seq<T> := [];
      var pending := rounds;
      sent := [];
      PrependNothing(Walk(rounds));
      while true
        invariant Terminates(pending)
        invariant Walk(rounds) == Prepend(records, Walk(pending))
        invariant sent + Sent(mac, e, pending, page) == Sent(mac, e, rounds, FirstPage)
        decreases |pending|
      {
        var request := BuildRequest(mac, Method(e), Path(e), Query(e, page), pending[0].nowMillis);
        var received := Receive(pending[0].reply);
        PaginateOutcomeStep(pending, records, Walk(rounds));
        PaginateLogStep(mac, e, pending, page, sent, Sent(mac, e, rounds, FirstPage));
        sent := sent + [request];
        if received.Failure? {
          return Failure(received.error), sent;
        }
        records := records + received.value.result;
        if received.value.pagination.next == 0 {
          break;
        }
        page := FormatUint(received.value.pagination.next as nat);
        pending := pending[1..];
      }
      result := Success(records);
    }

    method RequestDepositHistories(mac: HmacSha256, rounds: seq<Round<DepositHistory>>)
      returns (result: Result<seq<DepositHistory>, ApiError>, sent: seq<HttpRequest>)
      requires Terminates(rounds)
      ensures result == Walk(rounds)
      ensures sent == Sent(mac, DepositHistories, rounds, FirstPage)
    {
      result, sent := Paginate(mac, DepositHistories, rounds);
    }

    method RequestOrderHistories(mac: HmacSha256, tokenSymbol: string, startTimestamp: Option<uint64>,
                                 rounds: seq<Round<OrderHistory>>)
      returns (result: Result<seq<OrderHistory>, ApiError>, sent: seq<HttpRequest>)
      requires Terminates(rounds)
      ensures result == Walk(rounds)
      ensures sent == Sent(mac, OrderHistories(Strings.ToLower(tokenSymbol), startTimestamp), rounds, FirstPage)
    {
      var symbol := Strings.ToLower(tokenSymbol);
      result, sent := Paginate(mac, OrderHistories(symbol, startTimestamp), rounds);
    }
  }

  function NewBitkubApiClient(baseUrl: string, apiKey: string, apiSecret: string): (c: Client)
    ensures c.baseUrl == baseUrl && c.apiKey == apiKey && c.apiSecret == apiSecret
  {
    Client(baseUrl, apiKey, apiSecret)
  }
}
