# Bitkub history client and environment validator, in Dafny

This project models the small amount of logic in a Go trading bot:

- **The Bitkub REST client** (`internal/connectors/bitkub/api/api.go`).
  - It builds the query strings of the deposit-history endpoint (`?p=<page>&lmt=100`) and the order-history endpoint (`?sym=<symbol>_thb&p=<page>&lmt=100`, plus `&start=<ts>` when a start time is given).
  - It signs `timestamp + method + path + query` with HMAC-SHA256 under the API secret and hex-encodes the digest.
  - It sends the signed request to `baseUrl + path + query` with three `X-BTK-*` headers.
  - It walks the page cursor. It starts at page `"1"`, appends every page's records and stops at the first page whose `next` cursor is 0. Any failed request ends the walk with the error and no records.
- **The environment validator** (`internal/config/validator.go`). It maps `"local"`, `"development"` and `"production"` to the three `AppEnvironment` constants, and any other string to an error.

Layout:

- `primitives.dfy`: machine integer types, `Option` and `Result`.
- `strconv.dfy`: decimal rendering as `FormatUint`/`FormatInt` do it, with its inverse.
- `strings.dfy`: ASCII `ToLower`.
- `hex.dfy`: lower-case hex encoding, with its inverse.
- `dto.dfy`: the response records.
- `url_query.dfy`: a query-string reader, which gives an independent reading of the built query strings.
- `config.dfy`: the validator.
- `bitkub_api.dfy`: the client. `Client.Paginate` is the pagination loop, proved against the specification functions `Walk` and `Client.Sent`.
- `bitkub_properties.dfy`: what a walk returns and sends, the shape of the queries, payload injectivity, and worked scenarios.

The network and the wall clock become a script, `seq<Round<T>>`. Round *i* holds the clock reading taken for the *i*-th request and the server's reply to it. A reply is one of:

- no reply (the transport failed);
- an HTTP status with a body that is either undecodable or a decoded response.

The HMAC is a function parameter that returns 32 bytes.

## Model

| member | source | states |
|---|---|---|
| BitkubApi.Client.Paginate | internal/connectors/bitkub/api/api.go:43-66 | The loop returns exactly `Walk(rounds)`: the in-order concatenation of every page up to the first with cursor 0, or the first error. It sends exactly `Sent(rounds, "1")`: one request per round up to that point, the first for page "1", each later one for the previous cursor in decimal. |
| BitkubApi.Client.RequestDepositHistories | internal/connectors/bitkub/api/api.go:40-67 | The deposit walk returns `Walk(rounds)` and sends the deposit endpoint's requests starting at page "1". |
| BitkubApi.Client.RequestOrderHistories | internal/connectors/bitkub/api/api.go:69-101 | The order walk lower-cases the symbol once and then returns `Walk(rounds)`. It sends the order endpoint's requests for that symbol and start time, starting at page "1". |
| BitkubApi.FirstStop | internal/connectors/bitkub/api/api.go:53-61 | The walk stops at the first round whose reply is an error or has cursor 0. Every earlier round is a successful page with a non-zero cursor. |
| BitkubApiProperties.WalkOutcome | internal/connectors/bitkub/api/api.go:47-66 | The walk succeeds if and only if the reply at the stopping round succeeds. On failure it returns that reply's error and no records. On success it returns the records of all pages up to and including that round, in order. |
| BitkubApiProperties.RequestsIssued | internal/connectors/bitkub/api/api.go:59-63 | The number of requests is the stopping index plus one. Request *k* uses clock reading *k* and asks for page "1" when *k* = 0, otherwise for the decimal rendering of reply *k*-1's cursor. |
| BitkubApiProperties.SentAuthentic | internal/connectors/bitkub/api/api.go:103-159 | Every request sent, whether built by the GET helper (lines 103-119) or the POST helper (lines 139-159), uses GET for deposits and POST for orders, carries the stored API key, and passes the exchange's signature check. |
| BitkubApiProperties.DepositQueryParams | internal/connectors/bitkub/api/api.go:49 | Read back as a query string, the deposit query is exactly `p` = page then `lmt` = limit. |
| BitkubApiProperties.OrderQueryParams | internal/connectors/bitkub/api/api.go:81-84 | Read back, the order query is `sym` = symbol + "_thb", `p` = page, `lmt` = limit, then `start` = decimal start time, present exactly when a start time is given. |
| BitkubApiProperties.OrderQueryStart | internal/connectors/bitkub/api/api.go:82-84 | The order query has a `start` parameter if and only if a start time was given. |
| BitkubApiProperties.OrderRequestQuery | internal/connectors/bitkub/api/api.go:74-87 | Request *k* of an order walk goes to `baseUrl` + order path + a query that reads back as the lower-cased symbol with "_thb", page *k*, limit "100" and the optional start. |
| BitkubApiProperties.DepositRequestQuery | internal/connectors/bitkub/api/api.go:43-52 | Request *k* of a deposit walk goes to `baseUrl` + deposit path + a query that reads back as page *k* and limit "100". |
| BitkubApi.Client.BuildRequestSigned | internal/connectors/bitkub/api/api.go:104-119 | A built request has the given verb. Its URL is `baseUrl + path + query`, the same path and query that were signed. Its timestamp header is the decimal clock reading and its key header is the stored key. Its signature header is exactly `GenSignature` of the payload, so 64 lower-case hex characters, and it passes the exchange's check. |
| BitkubApi.Client.BuildRequest | internal/connectors/bitkub/api/api.go:144-159 | The request for (verb, path, query) at a clock reading: the URL `baseUrl + path + query`, and headers `X-BTK-TIMESTAMP`, `X-BTK-APIKEY` and `X-BTK-SIGN` in the order the source adds them. Its properties are stated by `BuildRequestSigned`. |
| BitkubApi.SigningPayload | internal/connectors/bitkub/api/api.go:107 | The signed payload is timestamp, verb, path and query concatenated in that order. `SigningPayloadInjective` shows that it determines all four parts. |
| BitkubApi.DepositQuery | internal/connectors/bitkub/api/api.go:49 | The deposit query opens with '?' and is 8 characters longer than page and limit together, the length of the `?p=` and `&lmt=` frame. `DepositQueryParams` states its full reading. |
| BitkubApi.OrderQuery | internal/connectors/bitkub/api/api.go:81-84 | The order query opens with '?'. Without a start time its length is that of the `?sym=`, `_thb&p=` and `&lmt=` frame plus symbol, page and limit. With a start time it is 7 characters plus the decimal start longer. `OrderQueryParams` states its full reading. |
| BitkubApi.Receive | internal/connectors/bitkub/api/api.go:121-132 | A reply succeeds exactly when it is an HTTP 200 with a decodable body, and then yields that body. No reply is a transport error. Any other status is `UnexpectedStatus` carrying that status. A 200 with an undecodable body is a decode error. |
| BitkubApi.Walk | internal/connectors/bitkub/api/api.go:47-64 | The reference outcome of a walk: the first error, or the concatenation of the pages up to the first with cursor 0. `WalkOutcome` characterises it through `FirstStop`. |
| BitkubApi.Client.Sent | internal/connectors/bitkub/api/api.go:79-98 | The reference request log of a walk has one request per round up to the stopping round. `RequestsIssued` gives each request's page and clock reading. |
| BitkubApi.GenSignature | internal/connectors/bitkub/api/api.go:179-188 | The signature is 64 lower-case hex characters that decode back to the HMAC of (secret, payload). |
| BitkubApiProperties.SigningPayloadInjective | internal/connectors/bitkub/api/api.go:105-107 | For a GET or POST verb, a path without '?' and a query starting with '?', the payload determines the clock reading, verb, path and query. |
| BitkubApiProperties.RequestPayloadInjective | internal/connectors/bitkub/api/api.go:145-147 | For the two endpoints, equal payloads mean the same clock reading, verb, path and query. |
| BitkubApiProperties.ThreePageWalk | internal/connectors/bitkub/api/api.go:57-63 | Cursors 2, 3, 0 stop the walk at the third reply, which returns the three pages' records in order. |
| BitkubApiProperties.ThreePageRequests | internal/connectors/bitkub/api/api.go:59-63 | For that script, exactly three requests are sent, for pages "1", "2" and "3". |
| BitkubApiProperties.FailureOnSecondPage | internal/connectors/bitkub/api/api.go:125-127 | An HTTP 500 on the second request ends the walk with that status and no records, after two requests. |
| BitkubApiProperties.SinglePageWalk | internal/connectors/bitkub/api/api.go:57-61 | A first page with cursor 0 gives one request and exactly that page's records. |
| BitkubApiProperties.SymbolNormalised | internal/connectors/bitkub/api/api.go:74-81 | The symbol "BTC" becomes `?sym=btc_thb&p=1&lmt=100` in the first order query. |
| BitkubApi.NewBitkubApiClient | internal/connectors/bitkub/api/api.go:32-38 | The client keeps the base URL, key and secret it is given, verbatim. |
| Strconv.FormatUint | internal/connectors/bitkub/api/api.go:63 | The page string is a non-empty run of decimal digits, with a leading '0' only for 0. |
| Strconv.FormatUintRoundTrip | internal/connectors/bitkub/api/api.go:97 | Reading the rendered page string back as a decimal gives the cursor. |
| Strconv.FormatUintInjective | internal/connectors/bitkub/api/api.go:63 | Distinct cursors give distinct page strings. |
| Strconv.FormatInt | internal/connectors/bitkub/api/api.go:105 | The timestamp is a non-empty string of digits, led by '-' exactly when the reading is negative. |
| Strconv.FormatIntRoundTrip | internal/connectors/bitkub/api/api.go:145 | The digits after the optional '-' read back as the magnitude of the clock reading, with no leading zero unless the reading is 0. |
| Strconv.FormatIntInjective | internal/connectors/bitkub/api/api.go:145 | Distinct clock readings give distinct timestamps. |
| Strings.ToLower | internal/connectors/bitkub/api/api.go:74 | The result has the same length and no upper-case ASCII letter. Every character is kept, or is an upper-case letter moved to lower case. |
| Strings.ToLowerIdempotent | internal/connectors/bitkub/api/api.go:74 | Lower-casing twice is lower-casing once. |
| Strings.ToLowerKeeps | internal/connectors/bitkub/api/api.go:74 | Lower-casing neither adds nor removes a non-letter character such as '&'. |
| Hex.Encode | internal/connectors/bitkub/api/api.go:187 | Two lower-case hex characters per byte. |
| Hex.DecodeEncode | internal/connectors/bitkub/api/api.go:187 | Decoding the hex encoding gives back the bytes. |
| Hex.EncodeInjective | internal/connectors/bitkub/api/api.go:187 | Distinct digests give distinct signatures. |
| UrlQuery.ParseRender | internal/connectors/bitkub/api/api.go:49 | A query rendered from parameters without '&', and with no '=' in names, reads back as the same parameters. |
| Config.ValidateAppEnvironment | internal/config/validator.go:5-16 | "local", "development" and "production" map to `Local`, `Development` and `Production`. Any other string, including a change of case or the empty string, is the error "unknown environment: " + the string. |
| Config.Ordinal | internal/config/types.go:5-9 | Local is 0, Development is 1 and Production is 2, as `iota` numbers them, so the numbering is one-to-one. |
| Config.AcceptedNamesDistinct | internal/config/validator.go:6-12 | Two accepted strings are equal exactly when they map to the same constant. |

## Left out

- Network I/O is not modelled: `http.Client`, `http.NewRequest`, `client.Do` and JSON decoding. Each request's outcome is a scripted reply. A URL that `http.NewRequest` rejects falls under the same transport error as a failed `client.Do`.
- The internals of HMAC and SHA-256 are not modelled. The MAC is an arbitrary function returning 32 bytes. Injectivity is proved for the payload only, not collision resistance for the MAC.
- The wall clock (`time.Now().UnixMilli()`) is a per-round input.
- RequestDepositHistories, RequestOrderHistories and Paginate require the script to hold a stopping reply. The Go loop has no iteration cap, and a server whose cursor never reaches 0 keeps it running forever.
- The two Go loops are identical apart from endpoint, verb and query, so they share one loop, `Client.Paginate`.
- The `ctx` parameter is unused by the client, so there is no cancellation to model.
- Strings.ToLower: ASCII only, where Go's `strings.ToLower` applies full Unicode case mapping.
- The symbol is not URL-escaped, as in the source. The read-back lemmas (OrderQueryParams, OrderRequestQuery) require a symbol without '&'. Such a character would split the query into extra parameters.
- Header names are kept as written. Go's `Header.Add` canonicalises them to `X-Btk-Timestamp` and so on, which HTTP treats as the same name.
- The response envelope's `error` field is decoded but never inspected by the client, and it is not inspected here either. The float `Amount` of a deposit record is kept as its 64-bit pattern.
- `resp.Body.Close()` is deferred only on the success path, a resource matter outside this model.
- The Binance client, configuration loading, logger setup, `cmd/main.go` and the module wrappers are outside the modelled core.
