# Order submission path of a Hyperliquid Rust SDK, modelled in Dafny

This project models the three pure pieces of the SDK's order-submission path:

- **HTTP response classification and `HttpClient::post`** (`src/req.rs`). A raw
  response (status code and body text) becomes one of three things: success
  text, `Error::ClientRequest`, or `Error::ServerRequest`. A failure while
  building the request, sending it or reading its body becomes
  `Error::GenericRequest`. `post` runs build → execute → parse. The
  `HL_PERF_PROFILE` flag only adds `[PERF]` log lines. The model is module `Req`.
- **The signing preimage and the signed envelope**, as the latency harness
  writes them out (`src/bin/test_sdk_internal_latency.rs`). The preimage is the
  msgpack bytes of the action, then the nonce as eight big-endian bytes, then a
  `0` byte meaning "no vault address". The signature is rendered as
  `{"r": "0x…64 hex…", "s": "0x…64 hex…", "v": 27 + parity}`. The payload is
  `{action, nonce, signature}`. The model is module `Signing`, with the JSON
  value type in `Json`.
- **Order-outcome dispatch** (`src/bin/test_hyperliquid_speed_1.rs`). The
  value returned by `ExchangeClient::order` is sorted into one of six
  categories: filled, resting, another status entry, accepted without status
  information, exchange-level error, or request failure. The model is module
  `Dispatch`.

Module `Common` holds `Option`, `Fallible` (a step that fails with a message)
and the fixed-width integer types. Module `Digits` holds fixed-width
positional notation, most significant digit first. It is used both for
`u64::to_be_bytes` (base 256, width 8) and for `{:064x}` (base 16, width 64),
and its two round-trip lemmas are proved once for both.

Collaborators whose code is not part of this model are parameters of the
functions that call them:

- `reqwest`'s `build`, `execute` and `text` are fields of `Req.Transport` and a
  `Fallible` body in `Req.Response`.
- `serde_json::from_str::<ErrorData>` is `Req.ErrorDataDecoder`.
- `rmp_serde::to_vec_named`, `keccak256`, `sign_l1_action` and
  `serde_json::to_value` are fields of `Signing.Collaborators`.

Two facts about the code shape the model:

- `parse_response` returns the body text for a status below 400 without
  decoding it. The status-entry dispatch lives in the speed test, which
  `Dispatch` models.
- Only the single `0` no-vault byte is ever written into the preimage.

## Model

| member | source | states |
|---|---|---|
| Req.ParseResponse | src/req.rs:19-52 | An unreadable body is a `GenericRequest` carrying the read error's text, and nothing else is. Otherwise the result class follows the status: below 400 success, 400-499 client, 500 and up server. Success text is the body unchanged. Every status-bearing error carries the input status. |
| Req.StatusClassesPartition | src/req.rs:26-51 | With a readable body, `Ok`, `ClientRequest` and `ServerRequest` correspond exactly to the three status ranges, which cover all of `u16`. |
| Req.SuccessKeepsBody | src/req.rs:26-28 | Below 400 the result is `Ok` with the body text, whatever the body holds. |
| Req.ClientErrorFromParsedBody | src/req.rs:29-37 | 4xx with a body that parses as `ErrorData` gives `ClientRequest{status, Some(code), msg, Some(data)}`. |
| Req.ClientErrorFromUnparsedBody | src/req.rs:38-45 | 4xx with an unparseable body gives `ClientRequest{status, None, raw text, Some(parse error)}`. |
| Req.DecoderOnlyMattersFor4xx | src/req.rs:29-51 | Outside 4xx the result is the same for every `ErrorData` decoder. A 5xx is `ServerRequest{status, raw text}` even when the body parses. |
| Req.FullUrl | src/req.rs:61 | The URL is the base URL followed by the path. |
| Req.FullUrlInjective | src/req.rs:61 | Under one base URL, distinct paths give distinct URLs. |
| Req.MakeRequest | src/req.rs:61-66 | The request's URL is the base URL followed by the path, its content type is `application/json`, and its body is `data` unchanged. |
| Req.Post | src/req.rs:55-99 | The flag off gives no log. The flag on gives a log that is an in-order prefix of the four `[PERF]` lines. When build and execute succeed, the result is `parse_response` of the response. |
| Req.PerfFlagDoesNotChangeResult | src/req.rs:56-98 | The result of `post` is the same with the flag on and off. |
| Req.TransportFailureIsGeneric | src/req.rs:21-80 | A build failure, an execute failure or a failure to read the body each gives `GenericRequest` with that step's message. |
| Req.StatusErrorMeansServerAnswered | src/req.rs:61-88 | A `ClientRequest` or `ServerRequest` from `post` implies several facts. The request was built for the joined URL with `data` as body and then executed. The body was read. The status was at least 400 and is the one reported. |
| Req.PerfLinesTrackProgress | src/req.rs:56-96 | With the flag on, the log has no lines exactly when build failed. It has only the build line exactly when execute failed. It has all four lines exactly when the parse step ran, including when reading the body failed. |
| Req.IsMainnet | src/req.rs:101-103 | `is_mainnet`: the base URL equals the mainnet URL. It has no contract of its own; `Req.MainnetExchangeUrl` states what it means. |
| Req.MainnetExchangeUrl | src/req.rs:101-103 | `is_mainnet` holds iff the client's exchange URL is `https://api.hyperliquid.xyz/exchange`, that is, iff the base URL is the mainnet URL. |
| Signing.BeBytesRoundTrip | src/bin/test_sdk_internal_latency.rs:114 | The nonce becomes 8 bytes, and decoding them big-endian gives the nonce back. |
| Signing.FromBeBytesRoundTrip | src/bin/test_sdk_internal_latency.rs:114 | Every 8-byte string is the big-endian encoding of exactly one `u64`. |
| Signing.BeBytes | src/bin/test_sdk_internal_latency.rs:114 | `to_be_bytes` of the nonce is exactly 8 bytes. Its inverse is the most-significant-first reading `FromBeBytes`, by the two round-trip lemmas. |
| Signing.Preimage | src/bin/test_sdk_internal_latency.rs:112-115 | The preimage starts with the action bytes unchanged. The next eight bytes are the nonce's big-endian bytes. It is 9 bytes longer than the action bytes and ends in the no-vault byte `0`. |
| Signing.PreimageRoundTrip | src/bin/test_sdk_internal_latency.rs:112-115 | Splitting a preimage gives back the action bytes and the nonce. |
| Signing.SplitPreimageRoundTrip | src/bin/test_sdk_internal_latency.rs:112-115 | Every byte string that splits is the preimage of its parts. |
| Signing.PreimageInjective | src/bin/test_sdk_internal_latency.rs:112-116 | Equal preimages have equal action bytes and equal nonces, so the hashed bytes commit to both. |
| Signing.ConnectionId | src/bin/test_sdk_internal_latency.rs:116 | The connection id is keccak256 of the preimage. keccak256 is opaque, so it has no contract; `Signing.PayloadAgreesWithPreimage` states what is signed. |
| Signing.RenderScalar | src/bin/test_sdk_internal_latency.rs:140-141 | A rendered scalar is `0x` followed by exactly 64 lower-case hex digits. |
| Signing.RenderScalarRoundTrip | src/bin/test_sdk_internal_latency.rs:140-141 | Parsing the 64 digits gives the 256-bit value back. |
| Signing.ParseScalarRoundTrip | src/bin/test_sdk_internal_latency.rs:140-141 | The rendering is canonical: the only string that parses to `x` is the rendering of `x`. |
| Signing.V | src/bin/test_sdk_internal_latency.rs:142 | `v` is 27 or 28, and it is 28 exactly when the parity bit is set. |
| Signing.SignatureJson | src/bin/test_sdk_internal_latency.rs:138-144 | The signature object has exactly the keys `r`, `s` and `v`. |
| Signing.SignatureJsonRoundTrip | src/bin/test_sdk_internal_latency.rs:138-144 | Reading the signature object back gives the signature. |
| Signing.Payload | src/bin/test_sdk_internal_latency.rs:146-150 | The payload has exactly the keys `action`, `nonce` and `signature`, and `action` is the action JSON. |
| Signing.SignedPayload | src/bin/test_sdk_internal_latency.rs:112-150 | A payload is produced iff encoding, signing and JSON rendering all succeed. Signing is for the network `is_mainnet` of the exchange client names. The first failing step decides the error: an encoding failure is `Failed to serialize: …`, a signer failure passes through unchanged, and a JSON failure is `Failed to serialize to JSON: …`. A produced payload's `action` is the rendered action JSON. |
| Signing.PayloadAgreesWithPreimage | src/bin/test_sdk_internal_latency.rs:112-150 | In a produced payload, `nonce` equals the nonce decoded from the signed preimage. `signature` decodes to the signature over keccak256 of that preimage for the network the client targets. |
| Dispatch.FirstStatus | src/bin/test_hyperliquid_speed_1.rs:90 | There is a first status iff data is present and the status list is non-empty, and it is the list's head. |
| Dispatch.Classify | src/bin/test_hyperliquid_speed_1.rs:88-110 | A request failure, an exchange `Err`, and an `Ok` without a first status each correspond to exactly one outcome category. |
| Dispatch.OnlyFirstStatusCounts | src/bin/test_hyperliquid_speed_1.rs:90 | Entries after the first do not change the outcome. |
| Dispatch.FilledIff | src/bin/test_hyperliquid_speed_1.rs:92-94 | The outcome is `FilledNow(oid)` iff the exchange accepted the order and the first entry is `Filled(oid)`. |
| Dispatch.RestingIff | src/bin/test_hyperliquid_speed_1.rs:95-97 | The outcome is `RestingOnBook(oid)` iff the exchange accepted the order and the first entry is `Resting(oid)`. |
| Dispatch.OtherEntryIff | src/bin/test_hyperliquid_speed_1.rs:98 | The outcome is `OtherEntry(s)` iff the first entry is `s` and `s` is neither Filled nor Resting. |
| Dispatch.NoStatusInfo | src/bin/test_hyperliquid_speed_1.rs:89-103 | Accepted with no data, or with an empty status list, gives `OkWithoutStatus`. |
| Dispatch.ErrorsKeptApart | src/bin/test_hyperliquid_speed_1.rs:104-109 | An exchange `Err` and a request failure keep their message or error and are distinct outcomes. |

## Left out

- Req.MainnetUrl: `BaseUrl::get_url` is not part of this model. The mainnet URL is taken as `https://api.hyperliquid.xyz`, the host the latency tools address directly.
- Req.Post: the measured milliseconds in the `[PERF]` lines, the `Instant` reads and the environment-variable read are left out. The flag is a parameter and each log line is a tag.
- `reqwest` client configuration, connection pooling, timeouts and the async runtime are not modelled. They appear only as the injected outcomes of build, execute and reading the body.
- Signing.Collaborators: msgpack encoding, keccak256, EIP-712 signing and `serde_json::to_value` are opaque values. No property of their outputs is assumed beyond the 32-byte digest width.
- Signing.V: `sig.v()` is taken to be the y-parity bit, 0 or 1, as alloy's `Signature` reports it. That type is not part of this model.
- The vault-address-present layout is not modelled; the code only ever writes the `0` marker.
- `next_nonce` and nonce monotonicity are not modelled. The nonce is a `u64` parameter.
- The harness's step 9 is not modelled: serializing the payload to a string and sending it. Neither are the earlier steps that build and convert the `ClientOrderRequest`.
- Dispatch.DataStatus: `ExchangeDataStatus` is not part of this model. Its variants other than `Filled` and `Resting` are one `OtherStatus` variant holding their debug text, and only the `oid` of a filled or resting order is kept.
- Dispatch.Classify: `ExchangeClient::order` is not part of this model, so the decoding of the response text into `ExchangeResponseStatus` is not connected to `Req.Post`.
- Dispatch.Classify: `ExchangeClient::order` fails with the crate's whole `Error` type. `RequestFailed` holds only the three request variants of `Req.Error`, so errors such as a failure to decode the response into `ExchangeResponseStatus` are not represented. `Classify` passes the error through unchanged, so no dispatch behaviour depends on the missing variants.
- Printing, sleeps, rounds and all timing statistics are left out. So are `round_to_decimals` and the price arithmetic, which are floating point.
- `src/bin/test_network_latency.rs`, `src/bin/test_real_order_latency.rs` and `src/bin/test_hyperliquid_speed.rs` are left out. They hold network probes and float statistics, and their result dispatch repeats the one modelled.
