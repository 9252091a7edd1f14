/**
 * The ten-field `Locator` of src/ipwhois.rs, read from ipwhois.app with
 * every value a JSON String and no `success` gate, and its two guarded
 * entry points for IPv4 and IPv6 addresses.
 */
module IpWhois {
  import opened Wrappers
  import opened Json
  import opened Geo
  import opened Fields
  import opened Net
  import GeoLib

  datatype Locator = Locator(
    ip: string,
    latitude: string,
    longitude: string,
    city: string,
    region: string,
    countryCode: string,
    country: string,
    timezoneGmt: string,
    timezone: string,
    iptype: string)

  /** The nine keys read, in order; each must hold a JSON String. */
  const GetFields: seq<FieldSpec> := [
    FieldSpec("latitude", "latitude", StringKind),
    FieldSpec("longitude", "longitude", StringKind),
    FieldSpec("city", "city", StringKind),
    FieldSpec("region", "region", StringKind),
    FieldSpec("country_code", "country_code", StringKind),
    FieldSpec("country", "country", StringKind),
    FieldSpec("timezone_gmt", "timezone_gmt", StringKind),
    FieldSpec("timezone", "timezone", StringKind),
    FieldSpec("type", "type", StringKind)]

  function Decode(ip: string, doc: Value): (r: Result<Locator, GeoError>)
    ensures r.Success? ==> r.value.ip == ip
  {
    var latitude :- Field(doc, FieldSpec("latitude", "latitude", StringKind));
    var longitude :- Field(doc, FieldSpec("longitude", "longitude", StringKind));
    var city :- Field(doc, FieldSpec("city", "city", StringKind));
    var region :- Field(doc, FieldSpec("region", "region", StringKind));
    var countryCode :- Field(doc, FieldSpec("country_code", "country_code", StringKind));
    var country :- Field(doc, FieldSpec("country", "country", StringKind));
    var timezoneGmt :- Field(doc, FieldSpec("timezone_gmt", "timezone_gmt", StringKind));
    var timezone :- Field(doc, FieldSpec("timezone", "timezone", StringKind));
    var iptype :- Field(doc, FieldSpec("type", "type", StringKind));
    Success(Locator(ip, latitude, longitude, city, region, countryCode, country, timezoneGmt, timezone, iptype))
  }

  /** `Locator::get(ip)`. */
  function Get(ip: string, fetch: string -> Response,
               parse: string -> Option<Value>): (r: Result<Locator, GeoError>)
    ensures r.Success? ==> r.value.ip == ip
    ensures var received := Receive(fetch("http://ipwhois.app/json/" + ip), "ipwhois.app", false, parse);
      && (received.Failure? ==> r == Failure(received.error))
      && (received.Success? ==> r == Decode(ip, received.value))
  {
    var doc :- Receive(fetch("http://ipwhois.app/json/" + ip), "ipwhois.app", false, parse);
    Decode(ip, doc)
  }

  /** `Locator::get_ipv4(ip)`: an RFC 1918 address is refused before any
      request is made; any other is looked up by its dotted-decimal text. */
  function GetIpv4(addr: Ipv4Addr, fetch: string -> Response,
                   parse: string -> Option<Value>): (r: Result<Locator, GeoError>)
    ensures InRfc1918(addr) ==> r == Failure(PrivateAddress)
    ensures !InRfc1918(addr) ==> r == Get(Dotted(addr), fetch, parse)
  {
    PrivateIsRfc1918(addr);
    if IsPrivate(addr) then Failure(PrivateAddress) else Get(Dotted(addr), fetch, parse)
  }

  /** `Locator::get_ipv6(ip)`, with `Ipv6Addr::is_global` and the address's
      `to_string` given as `isGlobal` and `display`. */
  function GetIpv6(addr: Ipv6Addr, isGlobal: Ipv6Addr -> bool, display: Ipv6Addr -> string,
                   fetch: string -> Response, parse: string -> Option<Value>): (r: Result<Locator, GeoError>)
    ensures !isGlobal(addr) ==> r == Failure(PrivateAddress)
    ensures isGlobal(addr) ==> r == Get(display(addr), fetch, parse)
  {
    if !isGlobal(addr) then Failure(PrivateAddress) else Get(display(addr), fetch, parse)
  }

  /** All nine keys must hold Strings; the record copies them; otherwise
      the first key, in table order, that fails is named. */
  lemma DecodeSpec(ip: string, doc: Value)
    ensures var r := Decode(ip, doc);
      && (r.Success? <==> AllPresent(doc, GetFields))
      && (r.Success? ==> r.value == Locator(ip,
            Index(doc, "latitude").s, Index(doc, "longitude").s,
            Index(doc, "city").s, Index(doc, "region").s,
            Index(doc, "country_code").s, Index(doc, "country").s,
            Index(doc, "timezone_gmt").s, Index(doc, "timezone").s,
            Index(doc, "type").s))
      && (r.Failure? ==> exists i :: FirstMissing(doc, GetFields, i)
                                   && r.error == FieldNotFound(GetFields[i].name))
      && (r.Success? <==> ReadAll(doc, GetFields).Success?)
      && (r.Failure? ==> ReadAll(doc, GetFields) == Failure(r.error))
  {
    DecodeSucceeds(ip, doc);
    DecodeFails(ip, doc);
    DecodeAgreesWithReadAll(ip, doc);
  }

  lemma DecodeSucceeds(ip: string, doc: Value)
    ensures Decode(ip, doc).Success? <==> AllPresent(doc, GetFields)
    ensures Decode(ip, doc).Success? ==> Decode(ip, doc).value == Locator(ip,
            Index(doc, "latitude").s, Index(doc, "longitude").s,
            Index(doc, "city").s, Index(doc, "region").s,
            Index(doc, "country_code").s, Index(doc, "country").s,
            Index(doc, "timezone_gmt").s, Index(doc, "timezone").s,
            Index(doc, "type").s)
  {
    var t := GetFields;
    if !Present(doc, t[0]) { assert !AllPresent(doc, t); }
    else if !Present(doc, t[1]) { assert !AllPresent(doc, t); }
    else if !Present(doc, t[2]) { assert !AllPresent(doc, t); }
    else if !Present(doc, t[3]) { assert !AllPresent(doc, t); }
    else if !Present(doc, t[4]) { assert !AllPresent(doc, t); }
    else if !Present(doc, t[5]) { assert !AllPresent(doc, t); }
    else if !Present(doc, t[6]) { assert !AllPresent(doc, t); }
    else if !Present(doc, t[7]) { assert !AllPresent(doc, t); }
    else if !Present(doc, t[8]) { assert !AllPresent(doc, t); }
    else {
      forall i | 0 <= i < |t|
        ensures Present(doc, t[i])
      {
        assert i in {0, 1, 2, 3, 4, 5, 6, 7, 8};
      }
    }
  }

  lemma DecodeFails(ip: string, doc: Value)
    ensures Decode(ip, doc).Failure? ==>
      exists i :: FirstMissing(doc, GetFields, i) && Decode(ip, doc).error == FieldNotFound(GetFields[i].name)
  {
    var t := GetFields;
    if !Present(doc, t[0]) { assert FirstMissing(doc, t, 0); }
    else if !Present(doc, t[1]) { assert FirstMissing(doc, t, 1); }
    else if !Present(doc, t[2]) { assert FirstMissing(doc, t, 2); }
    else if !Present(doc, t[3]) { assert FirstMissing(doc, t, 3); }
    else if !Present(doc, t[4]) { assert FirstMissing(doc, t, 4); }
    else if !Present(doc, t[5]) { assert FirstMissing(doc, t, 5); }
    else if !Present(doc, t[6]) { assert FirstMissing(doc, t, 6); }
    else if !Present(doc, t[7]) { assert FirstMissing(doc, t, 7); }
    else if !Present(doc, t[8]) { assert FirstMissing(doc, t, 8); }
  }

  lemma DecodeAgreesWithReadAll(ip: string, doc: Value)
    ensures Decode(ip, doc).Failure? ==> ReadAll(doc, GetFields) == Failure(Decode(ip, doc).error)
  {
    DecodeFails(ip, doc);
    if Decode(ip, doc).Failure? {
      var i :| FirstMissing(doc, GetFields, i) && Decode(ip, doc).error == FieldNotFound(GetFields[i].name);
      ReadAllStopsAt(doc, GetFields, i);
    }
  }

  /** No `success` key is consulted: whatever it holds, or whether it is
      there at all, the outcome is the same. */
  lemma IgnoresSuccess(ip: string, m: map<string, Value>, v: Value)
    ensures Decode(ip, Object(m["success" := v])) == Decode(ip, Object(m - {"success"}))
  {
  }

  /** The two ipwhois readers part ways on a spent quota: the one in
      src/lib.rs stops at `success: false`, this one reads the fields. */
  lemma GateOnlyInLib(ip: string, doc: Value)
    requires Index(doc, "success") == Bool(false)
    requires AllPresent(doc, GetFields)
    ensures GeoLib.IpwhoisDecode(ip, doc) == Failure(MonthlyLimit)
    ensures Decode(ip, doc).Success?
  {
    DecodeSpec(ip, doc);
  }
}
