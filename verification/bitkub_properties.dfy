/**
 * What a walk over a script of rounds does, stated against the script
 * alone: where it stops, how many requests it sends and with which page,
 * what it returns, and that every request is signed; together with the
 * shape of the query strings and of the signed payload.
 */
module BitkubApiProperties {
  import opened Primitives
  import opened Strconv
  import Strings
  import opened UrlQuery
  import opened BitkubApi

  /** The in-order concatenation of the records of the first `n` pages. */
  function Fetched<T>(rounds: seq<Round<T>>, n: nat): seq<T>
    requires n <= |rounds|
    requires forall j :: 0 <= j < n ==> Receive(rounds[j].reply).Success?
    decreases n
  {
    if n == 0 then []
    else
      assert forall j :: 0 <= j < n - 1 ==> rounds[1..][j] == rounds[j + 1];
      Receive(rounds[0].reply).value.result + Fetched(rounds[1..], n - 1)
  }

  /** The page number the k-th request asks for: 1 first, then the cursor of the reply before. */
  function PageNumber<T>(rounds: seq<Round<T>>, k: nat): nat
    requires Terminates(rounds) && k <= FirstStop(rounds)
  {
    if k == 0 then 1 else Receive(rounds[k - 1].reply).value.pagination.next as nat
  }

  lemma {:induction false} FirstStopStep<T>(rounds: seq<Round<T>>)
    requires Terminates(rounds) && !Stops(rounds[0].reply)
    ensures Terminates(rounds[1..]) && FirstStop(rounds) == FirstStop(rounds[1..]) + 1
  {
    TerminatesTail(rounds);
  }

  /**
   * The walk fails exactly when the reply at which it stops is an error,
   * and then returns that error and no records; otherwise it returns the
   * records of every page up to and including that one, in order.
   */
  lemma {:induction false} WalkOutcome<T>(rounds: seq<Round<T>>)
    requires Terminates(rounds)
    ensures forall j :: 0 <= j < FirstStop(rounds) ==> Receive(rounds[j].reply).Success?
    ensures Walk(rounds).Success? <==> Receive(rounds[FirstStop(rounds)].reply).Success?
    ensures Walk(rounds).Failure? ==> Walk(rounds).error == Receive(rounds[FirstStop(rounds)].reply).error
    ensures Walk(rounds).Success? ==> Walk(rounds).value == Fetched(rounds, FirstStop(rounds) + 1)
    decreases |rounds|
  {
    WalkFirst(rounds);
    if Stops(rounds[0].reply) {
      if Receive(rounds[0].reply).Success? {
        assert Fetched(rounds[1..], 0) == [];
      }
    } else {
      FirstStopStep(rounds);
      var k := FirstStop(rounds[1..]);
      WalkOutcome(rounds[1..]);
      assert rounds[1..][k] == rounds[k + 1];
      assert forall j :: 1 <= j < k + 1 ==> rounds[j] == rounds[1..][j - 1];
    }
  }

  /** General form of `RequestsIssued`, for a walk whose first request asks for page `page`. */
  lemma {:induction false} SentFrom<T>(client: Client, mac: HmacSha256, e: Endpoint, rounds: seq<Round<T>>,
                                       page: string, k: nat)
    requires Terminates(rounds) && k <= FirstStop(rounds)
    ensures |client.Sent(mac, e, rounds, page)| == FirstStop(rounds) + 1
    ensures client.Sent(mac, e, rounds, page)[k] ==
      client.BuildRequest(mac, Method(e), Path(e),
                          Query(e, if k == 0 then page else FormatUint(PageNumber(rounds, k))),
                          rounds[k].nowMillis)
    decreases |rounds|
  {
    client.SentFirst(mac, e, rounds, page);
    if !Stops(rounds[0].reply) {
      FirstStopStep(rounds);
      var nextPage := FormatUint(Receive(rounds[0].reply).value.pagination.next as nat);
      SentFrom(client, mac, e, rounds[1..], nextPage, if k == 0 then 0 else k - 1);
      if k >= 1 {
        SentTail(client, mac, e, rounds, page, k);
        if k >= 2 {
          PageNumberTail(rounds, k);
        }
      }
    }
  }

  /** Past the first reply, the requests of a walk are those of the walk over the remaining rounds. */
  lemma {:induction false} SentTail<T>(client: Client, mac: HmacSha256, e: Endpoint, rounds: seq<Round<T>>,
                                       page: string, k: nat)
    requires Terminates(rounds) && !Stops(rounds[0].reply) && 1 <= k <= FirstStop(rounds)
    ensures Terminates(rounds[1..]) && k - 1 <= FirstStop(rounds[1..])
    ensures client.Sent(mac, e, rounds, page)[k] ==
      client.Sent(mac, e, rounds[1..], FormatUint(Receive(rounds[0].reply).value.pagination.next as nat))[k - 1]
  {
    client.SentFirst(mac, e, rounds, page);
    FirstStopStep(rounds);
  }

  lemma {:induction false} PageNumberTail<T>(rounds: seq<Round<T>>, k: nat)
    requires Terminates(rounds) && !Stops(rounds[0].reply) && 2 <= k <= FirstStop(rounds)
    ensures Terminates(rounds[1..]) && k - 1 <= FirstStop(rounds[1..])
    ensures rounds[1..][k - 1] == rounds[k]
    ensures PageNumber(rounds[1..], k - 1) == PageNumber(rounds, k)
  {
    FirstStopStep(rounds);
    assert rounds[1..][k - 2] == rounds[k - 1];
  }

  /**
   * A walk sends one request per round up to and including the round at
   * which it stops, and no more. The k-th request goes out at the k-th clock
   * reading and asks for page 1 when k is 0, otherwise for the decimal
   * rendering of the cursor the previous reply returned.
   */
  lemma {:induction false} RequestsIssued<T>(client: Client, mac: HmacSha256, e: Endpoint, rounds: seq<Round<T>>, k: nat)
    requires Terminates(rounds) && k <= FirstStop(rounds)
    ensures |client.Sent(mac, e, rounds, FirstPage)| == FirstStop(rounds) + 1
    ensures client.Sent(mac, e, rounds, FirstPage)[k] ==
      client.BuildRequest(mac, Method(e), Path(e), Query(e, FormatUint(PageNumber(rounds, k))), rounds[k].nowMillis)
  {
    SentFrom(client, mac, e, rounds, FirstPage, k);
    assert FormatUint(1) == FirstPage;
  }

  /**
   * Every request a walk sends uses the endpoint's verb (GET for deposits,
   * POST for orders), carries the stored API key, and passes the exchange's
   * signature check.
   */
  lemma {:induction false} SentAuthentic<T>(client: Client, mac: HmacSha256, e: Endpoint, rounds: seq<Round<T>>, k: nat)
    requires Terminates(rounds) && k <= FirstStop(rounds)
    ensures var r := client.Sent(mac, e, rounds, FirstPage)[k];
      && r.verb == (if e.DepositHistories? then "GET" else "POST")
      && HeaderValue(r.headers, ApiKeyHeader) == Some(client.apiKey)
      && Authentic(mac, client.apiSecret, client.baseUrl, r)
  {
    RequestsIssued(client, mac, e, rounds, k);
    client.BuildRequestSigned(mac, Method(e), Path(e), Query(e, FormatUint(PageNumber(rounds, k))), rounds[k].nowMillis);
  }

  /** A page string is a decimal number, so it holds no '&' and no '='. */
  lemma {:induction false} DecimalSeparable(s: string)
    requires AllDigits(s)
    ensures '&' !in s && '=' !in s
  {
  }

  /** The deposit query reads back as exactly `p` = page and `lmt` = limit. */
  lemma {:induction false} DepositQueryParams(page: string, limit: string)
    requires '&' !in page && '&' !in limit
    ensures ParseQuery(DepositQuery(page, limit)) == [("p", page), ("lmt", limit)]
  {
    var ps := [("p", page), ("lmt", limit)];
    assert ps[1..] == [("lmt", limit)];
    assert Join(ps) == "p=" + page + "&" + ("lmt=" + limit);
    assert DepositQuery(page, limit) == Render(ps);
    ParseRender(ps);
  }

  /**
   * The order query reads back as `sym` = symbol + "_thb", `p` = page,
   * `lmt` = limit, followed by `start` = the decimal start time exactly when
   * a start time is given.
   */
  lemma {:induction false} OrderQueryParams(symbol: string, page: string, limit: string, start: Option<uint64>)
    requires '&' !in symbol && '&' !in page && '&' !in limit
    ensures ParseQuery(OrderQuery(symbol, page, limit, start)) ==
      [("sym", symbol + QuoteSuffix), ("p", page), ("lmt", limit)]
      + (if start.Some? then [("start", FormatUint(start.value as nat))] else [])
  {
    var base := [("sym", symbol + QuoteSuffix), ("p", page), ("lmt", limit)];
    OrderQueryBase(symbol, page, limit);
    if start.Some? {
      var ts := FormatUint(start.value as nat);
      DecimalSeparable(ts);
      RenderSnoc(base, ("start", ts));
      assert OrderQuery(symbol, page, limit, start) == OrderQuery(symbol, page, limit, None) + "&start=" + ts;
      assert Render(base) + "&" + Field(("start", ts)) == Render(base) + "&start=" + ts;
      ParseRender(base + [("start", ts)]);
    } else {
      ParseRender(base);
    }
  }

  lemma {:induction false} OrderQueryBase(symbol: string, page: string, limit: string)
    ensures OrderQuery(symbol, page, limit, None) ==
      Render([("sym", symbol + QuoteSuffix), ("p", page), ("lmt", limit)])
  {
    var sym := symbol + QuoteSuffix;
    var base := [("sym", sym), ("p", page), ("lmt", limit)];
    var tail := "p=" + page + "&" + ("lmt=" + limit);
    assert Join(base[1..]) == tail by {
      assert base[1..][1..] == [("lmt", limit)];
    }
    assert Join(base) == "sym=" + sym + "&" + tail;
    calc {
      Render(base);
      "?" + ("sym=" + sym + "&" + tail);
      { assert "?" + "sym=" == "?sym="; }
      "?sym=" + sym + "&" + tail;
      { assert "&" + "p=" == "&p="; }
      "?sym=" + sym + "&p=" + page + "&" + ("lmt=" + limit);
      { assert "&" + "lmt=" == "&lmt="; }
      "?sym=" + sym + "&p=" + page + "&lmt=" + limit;
      OrderQuery(symbol, page, limit, None);
    }
  }

  /** Whether any parameter is named `key`. */
  predicate HasParam(ps: seq<Param>, key: string)
  {
    exists i :: 0 <= i < |ps| && ps[i].0 == key
  }

  /** The order query has a `start` parameter if and only if a start time was given. */
  lemma {:induction false} OrderQueryStart(symbol: string, page: string, start: Option<uint64>)
    requires '&' !in symbol && '&' !in page
    ensures HasParam(ParseQuery(OrderQuery(symbol, page, PageLimit, start)), "start") <==> start.Some?
  {
    OrderQueryParams(symbol, page, PageLimit, start);
    var ps := ParseQuery(OrderQuery(symbol, page, PageLimit, start));
    if start.Some? {
      assert ps[3].0 == "start";
    } else {
      assert forall i :: 0 <= i < |ps| ==> ps[i].0 in {"sym", "p", "lmt"};
    }
  }

  /**
   * The k-th request of an order-history walk for `tokenSymbol` carries the
   * lower-cased symbol with the "_thb" suffix, the page of `RequestsIssued`,
   * the limit 100 and, only when given, the start time.
   */
  lemma {:induction false} OrderRequestQuery<T>(client: Client, mac: HmacSha256, tokenSymbol: string, start: Option<uint64>,
                             rounds: seq<Round<T>>, k: nat)
    requires '&' !in tokenSymbol
    requires Terminates(rounds) && k <= FirstStop(rounds)
    ensures var e := OrderHistories(Strings.ToLower(tokenSymbol), start);
      var r := client.Sent(mac, e, rounds, FirstPage)[k];
      && r.url == client.baseUrl + OrderHistoryPath + OrderQuery(Strings.ToLower(tokenSymbol), FormatUint(PageNumber(rounds, k)), PageLimit, start)
      && ParseQuery(r.url[|client.baseUrl| + |OrderHistoryPath|..]) ==
           [("sym", Strings.ToLower(tokenSymbol) + QuoteSuffix), ("p", FormatUint(PageNumber(rounds, k))), ("lmt", "100")]
           + (if start.Some? then [("start", FormatUint(start.value as nat))] else [])
  {
    var symbol := Strings.ToLower(tokenSymbol);
    var e := OrderHistories(symbol, start);
    var page := FormatUint(PageNumber(rounds, k));
    RequestsIssued(client, mac, e, rounds, k);
    client.BuildRequestSigned(mac, Method(e), Path(e), Query(e, page), rounds[k].nowMillis);
    Strings.ToLowerKeeps(tokenSymbol, '&');
    DecimalSeparable(page);
    OrderQueryParams(symbol, page, PageLimit, start);
    var r := client.Sent(mac, e, rounds, FirstPage)[k];
    assert r.url[|client.baseUrl| + |OrderHistoryPath|..] == OrderQuery(symbol, page, PageLimit, start);
  }

  /** The k-th request of a deposit-history walk asks for `p` = its page and `lmt` = 100, nothing else. */
  lemma {:induction false} DepositRequestQuery<T>(client: Client, mac: HmacSha256, rounds: seq<Round<T>>, k: nat)
    requires Terminates(rounds) && k <= FirstStop(rounds)
    ensures var r := client.Sent(mac, DepositHistories, rounds, FirstPage)[k];
      && r.url == client.baseUrl + DepositHistoryPath + DepositQuery(FormatUint(PageNumber(rounds, k)), PageLimit)
      && ParseQuery(r.url[|client.baseUrl| + |DepositHistoryPath|..]) ==
           [("p", FormatUint(PageNumber(rounds, k))), ("lmt", "100")]
  {
    var page := FormatUint(PageNumber(rounds, k));
    var e := DepositHistories;
    RequestsIssued(client, mac, e, rounds, k);
    client.BuildRequestSigned(mac, Method(e), Path(e), Query(e, page), rounds[k].nowMillis);
    DecimalSeparable(page);
    DepositQueryParams(page, PageLimit);
    var r := client.Sent(mac, e, rounds, FirstPage)[k];
    assert r.url[|client.baseUrl| + |DepositHistoryPath|..] == DepositQuery(page, PageLimit);
  }

  // The signed payload

  predicate IsTimestampChar(c: char) { c == '-' || IsDigit(c) }

  /** The length of the longest prefix made of '-' and digits: where the timestamp of a payload ends. */
  function TimestampLength(s: string): (n: nat)
    ensures n <= |s|
    decreases |s|
  {
    if s == [] || !IsTimestampChar(s[0]) then 0 else 1 + TimestampLength(s[1..])
  }

  lemma {:induction false} TimestampLengthOf(a: string, b: string)
    requires forall i :: 0 <= i < |a| ==> IsTimestampChar(a[i])
    requires b != [] && !IsTimestampChar(b[0])
    ensures TimestampLength(a + b) == |a|
    decreases |a|
  {
    if a != [] {
      assert (a + b)[1..] == a[1..] + b;
      TimestampLengthOf(a[1..], b);
    }
  }

  /** In a path without '?' followed by a query, no '?' comes before the query. */
  lemma QuestionMarkAfterPath(p: string, q: string, i: nat)
    requires '?' !in p
    requires i < |p + q| && (p + q)[i] == '?'
    ensures |p| <= i
  {
  }

  /** A path followed by a query that starts with '?' splits back at its first '?'. */
  lemma {:induction false} PathQuerySplit(p1: string, q1: string, p2: string, q2: string)
    requires '?' !in p1 && '?' !in p2
    requires q1 != [] && q1[0] == '?' && q2 != [] && q2[0] == '?'
    requires p1 + q1 == p2 + q2
    ensures p1 == p2 && q1 == q2
  {
    assert (p1 + q1)[|p1|] == '?' && (p2 + q2)[|p2|] == '?';
    QuestionMarkAfterPath(p1, q1, |p2|);
    QuestionMarkAfterPath(p2, q2, |p1|);
    assert p1 == (p1 + q1)[..|p1|];
    assert p2 == (p2 + q2)[..|p2|];
    assert q1 == (p1 + q1)[|p1|..];
    assert q2 == (p2 + q2)[|p2|..];
  }

  /** Two concatenations with equally long first parts agree part by part. */
  lemma SameLengthSplit(a1: string, b1: string, a2: string, b2: string)
    requires a1 + b1 == a2 + b2 && |a1| == |a2|
    ensures a1 == a2 && b1 == b2
  {
    assert a1 == (a1 + b1)[..|a1|] && a2 == (a2 + b2)[..|a2|];
    assert b1 == (a1 + b1)[|a1|..] && b2 == (a2 + b2)[|a2|..];
  }

  predicate IsVerb(v: string) { v == "GET" || v == "POST" }

  /**
   * The payload `timestamp + verb + path + query` determines all four parts
   * when the verb is GET or POST, the path holds no '?' and the query starts
   * with '?': two requests that differ in clock reading, verb, path or query
   * sign different payloads.
   */
  lemma {:induction false} SigningPayloadInjective(n1: int, v1: string, p1: string, q1: string,
                                n2: int, v2: string, p2: string, q2: string)
    requires IsVerb(v1) && IsVerb(v2)
    requires '?' !in p1 && '?' !in p2
    requires q1 != [] && q1[0] == '?' && q2 != [] && q2[0] == '?'
    requires SigningPayload(FormatInt(n1), v1, p1, q1) == SigningPayload(FormatInt(n2), v2, p2, q2)
    ensures n1 == n2 && v1 == v2 && p1 == p2 && q1 == q2
  {
    var t1, t2 := FormatInt(n1), FormatInt(n2);
    var r1, r2 := v1 + (p1 + q1), v2 + (p2 + q2);
    assert t1 + r1 == t2 + r2 by {
      assert SigningPayload(t1, v1, p1, q1) == t1 + r1;
      assert SigningPayload(t2, v2, p2, q2) == t2 + r2;
    }
    assert r1[0] == v1[0] && r2[0] == v2[0];
    TimestampLengthOf(t1, r1);
    TimestampLengthOf(t2, r2);
    SameLengthSplit(t1, r1, t2, r2);
    FormatIntInjective(n1, n2);
    SameLengthSplit(v1, p1 + q1, v2, p2 + q2);
    PathQuerySplit(p1, q1, p2, q2);
  }

  /**
   * For the two endpoints of this client, equal payloads mean the same clock
   * reading, the same verb and path, and the same query string.
   */
  lemma {:induction false} RequestPayloadInjective(e1: Endpoint, page1: string, n1: int64, e2: Endpoint, page2: string, n2: int64)
    requires SigningPayload(FormatInt(n1 as int), Method(e1), Path(e1), Query(e1, page1))
          == SigningPayload(FormatInt(n2 as int), Method(e2), Path(e2), Query(e2, page2))
    ensures n1 == n2 && Method(e1) == Method(e2) && Path(e1) == Path(e2) && Query(e1, page1) == Query(e2, page2)
  {
    assert '?' !in DepositHistoryPath && '?' !in OrderHistoryPath;
    SigningPayloadInjective(n1 as int, Method(e1), Path(e1), Query(e1, page1),
                            n2 as int, Method(e2), Path(e2), Query(e2, page2));
  }

  // Scenarios

  /** Replies with cursors 2, 3, 0: the walk stops at the third reply and returns the three pages' records in order. */
  lemma {:induction false} ThreePageWalk<T>(rounds: seq<Round<T>>)
    requires |rounds| == 3
    requires forall i :: 0 <= i < 3 ==> Receive(rounds[i].reply).Success?
    requires Receive(rounds[0].reply).value.pagination.next == 2
    requires Receive(rounds[1].reply).value.pagination.next == 3
    requires Receive(rounds[2].reply).value.pagination.next == 0
    ensures Terminates(rounds) && FirstStop(rounds) == 2
    ensures Walk(rounds) == Success(Receive(rounds[0].reply).value.result
                                    + Receive(rounds[1].reply).value.result
                                    + Receive(rounds[2].reply).value.result)
  {
    assert Stops(rounds[2].reply);
    assert FirstStop(rounds) == 2 by {
      assert !Stops(rounds[0].reply) && !Stops(rounds[1].reply);
    }
    WalkOutcome(rounds);
    var r0, r1, r2 := Receive(rounds[0].reply).value.result, Receive(rounds[1].reply).value.result,
                      Receive(rounds[2].reply).value.result;
    assert Fetched(rounds[1..][1..], 1) == r2 by {
      assert rounds[1..][1..][0] == rounds[2];
      assert Fetched(rounds[1..][1..][1..], 0) == [];
    }
    assert rounds[1..][0] == rounds[1];
    assert Fetched(rounds, 3) == r0 + (r1 + r2);
    assert r0 + (r1 + r2) == r0 + r1 + r2;
  }

  /** The same script: three requests, for pages 1, 2 and 3, each with its round's clock reading. */
  lemma {:induction false} ThreePageRequests<T>(client: Client, mac: HmacSha256, e: Endpoint, rounds: seq<Round<T>>)
    requires |rounds| == 3
    requires forall i :: 0 <= i < 3 ==> Receive(rounds[i].reply).Success?
    requires Receive(rounds[0].reply).value.pagination.next == 2
    requires Receive(rounds[1].reply).value.pagination.next == 3
    requires Receive(rounds[2].reply).value.pagination.next == 0
    ensures Terminates(rounds) && |client.Sent(mac, e, rounds, FirstPage)| == 3
    ensures forall k :: 0 <= k < 3 ==>
      client.Sent(mac, e, rounds, FirstPage)[k] ==
        client.BuildRequest(mac, Method(e), Path(e), Query(e, ["1", "2", "3"][k]), rounds[k].nowMillis)
  {
    ThreePageWalk(rounds);
    RequestsIssued(client, mac, e, rounds, 0);
    RequestsIssued(client, mac, e, rounds, 1);
    RequestsIssued(client, mac, e, rounds, 2);
    assert FormatUint(1) == "1" && FormatUint(2) == "2" && FormatUint(3) == "3";
  }

  /**
   * A first page with cursor 2 followed by an HTTP 500: the walk fails with
   * that status, returns no records, and sends two requests, never asking
   * for page 3.
   */
  lemma {:induction false} FailureOnSecondPage<T>(client: Client, mac: HmacSha256, e: Endpoint, rounds: seq<Round<T>>)
    requires |rounds| == 3
    requires Receive(rounds[0].reply).Success? && Receive(rounds[0].reply).value.pagination.next == 2
    requires rounds[1].reply.HttpResponse? && rounds[1].reply.status == 500
    ensures Terminates(rounds) && FirstStop(rounds) == 1
    ensures Walk(rounds) == Failure(UnexpectedStatus(500))
    ensures |client.Sent(mac, e, rounds, FirstPage)| == 2
  {
    assert Stops(rounds[1].reply);
    assert FirstStop(rounds) == 1 by {
      assert !Stops(rounds[0].reply);
    }
    WalkOutcome(rounds);
  }

  /** A single page with cursor 0: one request, and exactly that page's records. */
  lemma {:induction false} SinglePageWalk<T>(client: Client, mac: HmacSha256, e: Endpoint, rounds: seq<Round<T>>)
    requires |rounds| >= 1
    requires Receive(rounds[0].reply).Success? && Receive(rounds[0].reply).value.pagination.next == 0
    ensures Terminates(rounds) && FirstStop(rounds) == 0
    ensures Walk(rounds) == Success(Receive(rounds[0].reply).value.result)
    ensures |client.Sent(mac, e, rounds, FirstPage)| == 1
  {
    assert Stops(rounds[0].reply);
    WalkFirst(rounds);
  }

  /** The symbol "BTC" becomes `sym=btc_thb` in the first order-history query. */
  lemma {:induction false} SymbolNormalised()
    ensures Query(OrderHistories(Strings.ToLower("BTC"), None), FirstPage) == "?sym=btc_thb&p=1&lmt=100"
  {
    assert Strings.ToLower("BTC") == "btc" by {
      assert Strings.ToLower("C") == "c";
      assert Strings.ToLower("TC") == "tc";
    }
  }
}
