# ipgeolocate: response normalisation, modelled in Dafny

This project models the core of the `ipgeolocate` Rust crate: the adapters
that ask an IP-geolocation web service about an address and turn the JSON it
answers with into one record.

- `src/lib.rs` has a seven-field `Locator` and four adapters: `freegeoip`, `ipwhois`, `ipapi` and `ipapico`.
- `src/ipwhois.rs` has a ten-field `Locator` read from ipwhois.app.
- `src/ip_api.rs` has a four-field `Query` read from ip-api.com.
- Both of these files add `get_ipv4` and `get_ipv6`. These refuse private addresses before making any request.

Every adapter follows the same steps:
- It requests a fixed URL built around the caller's ip.
- It fails with a connect error when the response is not OK.
- It fails when the body cannot be read, then when the body is not JSON.
- It then reads a fixed list of top-level keys in a fixed order. Each key must hold one JSON kind (String or Number). The first key that is missing or of the wrong kind ends the call with an error naming that field.
- On success it builds the record from those values and the caller's ip, copied unchanged.

The `ipwhois` adapter of `src/lib.rs` first checks a Boolean `success` key.

Files (one module each):

- `wrappers.dfy` (`Wrappers`): `Option` and `Result` with `:-`, standing for Rust's early `return Err(..)`.
- `json.dfy` (`Json`): the serde_json `Value`. `Index` is `value["key"]`: a missing key, or any document that is not an object, reads as `Null`. It also holds the two leaf kinds and the text `to_string()` gives a leaf.
- `geo.dfy` (`Geo`): the error kinds and the HTTP response. `Receive` holds the steps before the first field is read.
- `fields.dfy` (`Fields`): the single-field read that every adapter repeats (`Field`). It also holds the predicates that describe a table of fields (`AllPresent`, `FirstMissing`). `ReadAll` reads a whole table generically, and every adapter is proved to agree with it on its own table.
- `net.dfy` (`Net`): `Ipv4Addr`, `is_private`, and proof that it means the three blocks of section 3 of RFC 1918. It also holds the dotted-decimal `to_string` with its read-back, and `Ipv6Addr`.
- `lib.dfy` (`GeoLib`), `ipwhois.dfy` (`IpWhois`), `ip_api.dfy` (`IpApi`): one module per source file.

Each adapter has two parts:
- A `…Decode` function on the parsed document. It is the source's chain of `match` arms, field by field.
- A full function that takes the HTTP call as `fetch: string -> Response` and serde_json's parser as `parse: string -> Option<Value>`.

A `…DecodeSpec` lemma states each adapter's behaviour against a declarative table of `(field name, key, kind)`.

Facts about the source that the model keeps as they are:
- A missing key and a key of the wrong kind give the same error, "Unable to find X in parsed JSON". There is no separate type-mismatch error (src/lib.rs:43-48).
- The ipapi.co URL is `http://ipapi.co/{ip}/json/` (src/lib.rs:299).
- The ip-api.com adapter of `src/lib.rs` reads no `isp` field; its record has seven fields (src/lib.rs:6-14, src/lib.rs:233-275).
- `get` in `src/ipwhois.rs` reads no `success` key (src/ipwhois.rs:64-127).
- `src/ip_api.rs` reads `lat`/`lon` as JSON Strings (src/ip_api.rs:61-74). `Locator::ipapi` in `src/lib.rs` reads the same keys of the same service as Numbers (src/lib.rs:234-247). `IpApi.CoordinatesDisagreeWithLib` proves that no document satisfies both.

## Model

| member | source | states |
|---|---|---|
| `Json.IndexOfUpdate` | src/lib.rs:43-48 | `value[key]` returns what an object holds at the key, returns `Null` once the key is removed, and is unaffected by updates at other keys |
| `Json.NonObjectHasNoLeaves` | src/lib.rs:43-48 | a document that is not an object gives `Null` at every key, so no field can be read from it |
| `Geo.Receive` | src/lib.rs:20-40 | checks run in this order: a non-OK response gives the connect error for the service's host; an OK response with an unreadable body gives the body error; a body that does not parse gives the parse error; only an OK, readable, parseable body yields a document, which is the parser's result |
| `Geo.ReceiveFailsBeforeFields` | src/lib.rs:22-40 | a failure before parsing is only ever one of the connect, body or parse errors |
| `Fields.Field` | src/lib.rs:43-48 | a read succeeds exactly when the key holds the demanded kind; the result is that leaf's text; otherwise the error names the field |
| `Fields.ReadAll` | src/lib.rs:43-84 | reading a table in order succeeds exactly when every field is present; the values then come in table order; otherwise the error names the first missing field |
| `Fields.MissingLikeWrongKind` | src/lib.rs:43-48 | an absent key and a key of the wrong kind give the same "field not found" error |
| `Fields.NoCoercion` | src/lib.rs:43-63 | a String is refused where a Number is demanded and the other way round; the matching kind is returned verbatim |
| `GeoLib.FreegeoipDecode` | src/lib.rs:86-104 | a successful result's `ip` is the caller's argument |
| `GeoLib.Freegeoip` | src/lib.rs:17-40 | requests `https://freegeoip.app/json/` + ip; a connect, body or parse failure is returned before any field is read; otherwise the result is the document's decoding; the `ip` of a success is the argument |
| `GeoLib.FreegeoipDecodeSpec` | src/lib.rs:43-102 | succeeds exactly when Number `latitude`/`longitude` and String `city`, `region_name`, `country_name`, `time_zone` are present; the record holds them in that order as text, together with the caller's ip; otherwise the error names the first field in that order that fails; it succeeds and fails exactly when the generic `Fields.ReadAll` over its table does, with the same error |
| `GeoLib.IpwhoisDecode` | src/lib.rs:187-205 | a successful result's `ip` is the caller's argument |
| `GeoLib.Ipwhois` | src/lib.rs:107-130 | requests `http://ipwhois.app/json/` + ip; transport and parse failures come before the gate and the fields; the `ip` of a success is the argument |
| `GeoLib.IpwhoisGateFirst` | src/lib.rs:132-141 | a `success` that is not a Bool gives "cannot find success"; `false` gives the monthly-limit error, whatever else the document holds; success requires `success: true` |
| `GeoLib.MonthlyLimitWinsOverMissingFields` | src/lib.rs:132-141 | `{"success": false}` with no geo key gives the monthly-limit error, and `{}` gives "cannot find success" |
| `GeoLib.IpwhoisDecodeSpec` | src/lib.rs:143-203 | once the gate passes: succeeds exactly when `latitude`, `longitude`, `city`, `region`, `country`, `timezone` are all Strings; the record copies them; otherwise the error names the first field that fails; it succeeds and fails exactly when the generic `Fields.ReadAll` over its table does, with the same error |
| `GeoLib.IpapiDecode` | src/lib.rs:277-295 | a successful result's `ip` is the caller's argument |
| `GeoLib.Ipapi` | src/lib.rs:208-231 | requests `http://ip-api.com/json/` + ip; transport and parse failures come first; the `ip` of a success is the argument |
| `GeoLib.IpapiDecodeSpec` | src/lib.rs:233-293 | succeeds exactly when Number `lat`/`lon` and String `city`, `regionName`, `country`, `timezone` are present; the record holds them; otherwise the error names the first field that fails; it succeeds and fails exactly when the generic `Fields.ReadAll` over its table does, with the same error |
| `GeoLib.IpapicoDecode` | src/lib.rs:367-385 | a successful result's `ip` is the caller's argument |
| `GeoLib.Ipapico` | src/lib.rs:298-321 | requests `http://ipapi.co/` + ip + `/json/`; transport and parse failures come first; the `ip` of a success is the argument |
| `GeoLib.IpapicoDecodeSpec` | src/lib.rs:323-383 | succeeds exactly when Number `latitude`/`longitude` and String `city`, `region`, `country_name`, `timezone` are present; the record holds them; otherwise the error names the first field that fails; it succeeds and fails exactly when the generic `Fields.ReadAll` over its table does, with the same error |
| `GeoLib.CoordinateKinds` | src/lib.rs:144-157 | a String latitude fails freegeoip, ipapi and ipapico with the latitude error; a Number latitude fails ipwhois (past its gate) with the same error |
| `Net.PrivateIsRfc1918` | src/ipwhois.rs:19-22 | `is_private`'s octet test holds exactly for addresses in 10.0.0.0/8, 172.16.0.0/12 and 192.168.0.0/16 |
| `Net.DecimalRoundTrip` | src/ipwhois.rs:23 | the decimal text of an octet reads back as that octet |
| `Net.DottedRoundTrip` | src/ipwhois.rs:23 | the dotted-decimal text of an address reads back as the address |
| `Net.DottedInjective` | src/ipwhois.rs:23 | two addresses with the same dotted text are the same address, so distinct addresses are looked up under distinct URLs |
| `IpWhois.Decode` | src/ipwhois.rs:129-153 | a successful result's `ip` is the caller's argument |
| `IpWhois.Get` | src/ipwhois.rs:39-62 | requests `http://ipwhois.app/json/` + ip; a non-OK status gives the connect error before any parsing; the `ip` of a success is the argument |
| `IpWhois.GetIpv4` | src/ipwhois.rs:19-26 | an address in an RFC 1918 block gives "IP can't be private", whatever the transport would answer (no request is made); any other address gives exactly `get` of its dotted-decimal text |
| `IpWhois.GetIpv6` | src/ipwhois.rs:29-36 | an address that is not global gives "IP can't be private" with no request; a global one gives `get` of its text |
| `IpWhois.DecodeSpec` | src/ipwhois.rs:64-151 | succeeds exactly when `latitude`, `longitude`, `city`, `region`, `country_code`, `country`, `timezone_gmt`, `timezone`, `type` are all Strings; the ten-field record copies them (with `iptype` from `type`) and the caller's ip; otherwise the error names the first that fails; it succeeds and fails exactly when the generic `Fields.ReadAll` over its table does, with the same error |
| `IpWhois.IgnoresSuccess` | src/ipwhois.rs:57-127 | whatever `success` holds, or whether it is there at all, the outcome is the same |
| `IpWhois.GateOnlyInLib` | src/ipwhois.rs:64-70 | with `success: false` and every field present, `src/lib.rs`'s ipwhois gives the monthly-limit error while this `get` succeeds |
| `IpApi.Decode` | src/ip_api.rs:83-95 | a successful result's `ip` is the caller's argument |
| `IpApi.Get` | src/ip_api.rs:35-58 | requests `http://ip-api.com/json/` + ip; a non-OK status gives the connect error with the rate-limit hint; invalid JSON gives the parse error; both come before any field is read |
| `IpApi.GetIpv4` | src/ip_api.rs:15-22 | RFC 1918 addresses give "IP can't be private" with no request; others give `get` of the dotted-decimal text |
| `IpApi.GetIpv6` | src/ip_api.rs:25-32 | non-global addresses give "IP can't be private" with no request; others give `get` of the address's text |
| `IpApi.DecodeSpec` | src/ip_api.rs:60-93 | succeeds exactly when `lat`, `lon` and `city` are Strings; the `Query` is exactly latitude=`lat`, longitude=`lon`, city=`city` and ip=argument; otherwise the error names the first of latitude, longitude, city that fails; it succeeds and fails exactly when the generic `Fields.ReadAll` over its table does, with the same error |
| `IpApi.CoordinatesDisagreeWithLib` | src/ip_api.rs:61-74 | no document is decoded successfully both by this reader (String `lat`) and by `Locator::ipapi` of `src/lib.rs` (Number `lat`) |

## Left out

- HTTP transport (`ureq::get(url).call()`, `response.ok()`, `into_string()`): this is a parameter `fetch: string -> Response`. A response is an OK flag plus a body, and the body is absent when it cannot be read as a string. Timeouts, redirects and TLS are outside the model.
- JSON text parsing (`serde_json::from_str`): this is a parameter `parse: string -> Option<Value>`.
- `Number::to_string`: a Number carries the text it renders as. Floating-point values and their formatting are not modelled.
- `Ipv6Addr::is_global` and the `Display` of `Ipv6Addr`: they are the parameters `isGlobal` and `display`. The predicate has many special-purpose ranges and is unstable in Rust's standard library.
- Error messages: each is modelled by its kind and its varying part (host, field name), not by its exact wording. The `Display` of the underlying parse or body error is not kept.
- `Net.ParseDotted`: it reads dotted-decimal text back and is the inverse used to state the round trip. It is not Rust's `Ipv4Addr::from_str`, which the crate does not call.
- The examples under `examples/`: CLI parsing, the `ifconfig.io` lookup, the async runtime and printing. They also call a service-name `Locator::get(ip, service)`, a `Service` enum and an `isp` field. None of these is defined in the modelled source files.
- Repeating a call on the same body gives the same result. This needs no lemma, because every adapter here is a function.
