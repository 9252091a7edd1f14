/**
 * The four-field `Query` of src/ip_api.rs, read from ip-api.com with the
 * coordinates as JSON Strings, and its two guarded entry points.
 */
module IpApi {
  import opened Wrappers
  import opened Json
  import opened Geo
  import opened Fields
  import opened Net
  import GeoLib

  datatype Query = Query(ip: string, latitude: string, longitude: string, city: string)

  /** The three keys read, in order; each must hold a JSON String. */
  const GetFields: seq<FieldSpec> := [
    FieldSpec("latitude", "lat", StringKind),
    FieldSpec("longitude", "lon", StringKind),
    FieldSpec("city", "city", StringKind)]

  function Decode(ip: string, doc: Value): (r: Result<Query, GeoError>)
    ensures r.Success? ==> r.value.ip == ip
  {
    var latitude :- Field(doc, FieldSpec("latitude", "lat", StringKind));
    var longitude :- Field(doc, FieldSpec("longitude", "lon", StringKind));
    var city :- Field(doc, FieldSpec("city", "city", StringKind));
    Success(Query(ip, latitude, longitude, city))
  }

  /** `Query::get(ip)`; a refused request carries the rate-limit hint. */
  function Get(ip: string, fetch: string -> Response,
               parse: string -> Option<Value>): (r: Result<Query, GeoError>)
    ensures r.Success? ==> r.value.ip == ip
    ensures var received := Receive(fetch("http://ip-api.com/json/" + ip), "ip-api.com", true, parse);
      && (received.Failure? ==> r == Failure(received.error))
      && (received.Success? ==> r == Decode(ip, received.value))
  {
    var doc :- Receive(fetch("http://ip-api.com/json/" + ip), "ip-api.com", true, parse);
    Decode(ip, doc)
  }

  /** `Query::get_ipv4(ip)`: RFC 1918 addresses are refused with no request. */
  function GetIpv4(addr: Ipv4Addr, fetch: string -> Response,
                   parse: string -> Option<Value>): (r: Result<Query, GeoError>)
    ensures InRfc1918(addr) ==> r == Failure(PrivateAddress)
    ensures !InRfc1918(addr) ==> r == Get(Dotted(addr), fetch, parse)
  {
    PrivateIsRfc1918(addr);
    if IsPrivate(addr) then Failure(PrivateAddress) else Get(Dotted(addr), fetch, parse)
  }

  /** `Query::get_ipv6(ip)`, with `is_global` and `to_string` as parameters. */
  function GetIpv6(addr: Ipv6Addr, isGlobal: Ipv6Addr -> bool, display: Ipv6Addr -> string,
                   fetch: string -> Response, parse: string -> Option<Value>): (r: Result<Query, GeoError>)
    ensures !isGlobal(addr) ==> r == Failure(PrivateAddress)
    ensures isGlobal(addr) ==> r == Get(display(addr), fetch, parse)
  {
    if !isGlobal(addr) then Failure(PrivateAddress) else Get(display(addr), fetch, parse)
  }

  lemma DecodeSpec(ip: string, doc: Value)
    ensures var r := Decode(ip, doc);
      && (r.Success? <==> AllPresent(doc, GetFields))
      && (r.Success? ==> r.value == Query(ip, Index(doc, "lat").s, Index(doc, "lon").s, Index(doc, "city").s))
      && (r.Failure? ==> exists i :: FirstMissing(doc, GetFields, i)
                                   && r.error == FieldNotFound(GetFields[i].name))
      && (r.Success? <==> ReadAll(doc, GetFields).Success?)
      && (r.Failure? ==> ReadAll(doc, GetFields) == Failure(r.error))
  {
    var t := GetFields;
    if !Present(doc, t[0]) { assert FirstMissing(doc, t, 0); ReadAllStopsAt(doc, t, 0); }
    else if !Present(doc, t[1]) { assert FirstMissing(doc, t, 1); ReadAllStopsAt(doc, t, 1); }
    else if !Present(doc, t[2]) { assert FirstMissing(doc, t, 2); ReadAllStopsAt(doc, t, 2); }
  }

  /** The same service, read two ways: src/ip_api.rs wants `lat`/`lon` as
      Strings where `Locator::ipapi` in src/lib.rs wants Numbers, so no
      document satisfies both. */
  lemma CoordinatesDisagreeWithLib(ip: string, doc: Value)
    ensures !(Decode(ip, doc).Success? && GeoLib.IpapiDecode(ip, doc).Success?)
  {
  }
}
