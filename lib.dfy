/**
 * The crate's main `Locator` (src/lib.rs) and its four adapters, one per
 * web service. Each requests a fixed URL built around the caller's ip,
 * checks the response, parses it, and then reads six top-level keys in a
 * fixed order, each of one JSON kind, stopping at the first that fails.
 */
module GeoLib {
  import opened Wrappers
  import opened Json
  import opened Geo
  import opened Fields

  /** The record every adapter of src/lib.rs returns; latitude and
      longitude are text. */
  datatype Locator = Locator(
    ip: string,
    latitude: string,
    longitude: string,
    city: string,
    region: string,
    country: string,
    timezone: string)

  // ---------------------------------------------------------------- freegeoip

  /** The fields freegeoip reads, in order: coordinates as JSON Numbers. */
  const FreegeoipFields: seq<FieldSpec> := [
    FieldSpec("latitude", "latitude", NumberKind),
    FieldSpec("longitude", "longitude", NumberKind),
    FieldSpec("city", "city", StringKind),
    FieldSpec("region", "region_name", StringKind),
    FieldSpec("country", "country_name", StringKind),
    FieldSpec("timezone", "time_zone", StringKind)]

  function FreegeoipDecode(ip: string, doc: Value): (r: Result<Locator, GeoError>)
    ensures r.Success? ==> r.value.ip == ip
  {
    var latitude :- Field(doc, FieldSpec("latitude", "latitude", NumberKind));
    var longitude :- Field(doc, FieldSpec("longitude", "longitude", NumberKind));
    var city :- Field(doc, FieldSpec("city", "city", StringKind));
    var region :- Field(doc, FieldSpec("region", "region_name", StringKind));
    var country :- Field(doc, FieldSpec("country", "country_name", StringKind));
    var timezone :- Field(doc, FieldSpec("timezone", "time_zone", StringKind));
    Success(Locator(ip, latitude, longitude, city, region, country, timezone))
  }

  /** `Locator::freegeoip(ip)`, with the HTTP call given as `fetch` and
      serde_json's parser as `parse`. */
  function Freegeoip(ip: string, fetch: string -> Response,
                     parse: string -> Option<Value>): (r: Result<Locator, GeoError>)
    ensures r.Success? ==> r.value.ip == ip
    ensures var received := Receive(fetch("https://freegeoip.app/json/" + ip), "freegeoip.app", false, parse);
      && (received.Failure? ==> r == Failure(received.error))
      && (received.Success? ==> r == FreegeoipDecode(ip, received.value))
  {
    var doc :- Receive(fetch("https://freegeoip.app/json/" + ip), "freegeoip.app", false, parse);
    FreegeoipDecode(ip, doc)
  }

  /** freegeoip succeeds exactly when all six keys hold their kind; it
      copies them into the record as text; otherwise it names the first
      field, in table order, that is missing or of the wrong kind. */
  lemma FreegeoipDecodeSpec(ip: string, doc: Value)
    ensures var r := FreegeoipDecode(ip, doc);
      && (r.Success? <==> AllPresent(doc, FreegeoipFields))
      && (r.Success? ==> r.value == Locator(ip,
            Index(doc, "latitude").text, Index(doc, "longitude").text,
            Index(doc, "city").s, Index(doc, "region_name").s,
            Index(doc, "country_name").s, Index(doc, "time_zone").s))
      && (r.Failure? ==> exists i :: FirstMissing(doc, FreegeoipFields, i)
                                   && r.error == FieldNotFound(FreegeoipFields[i].name))
      && (r.Success? <==> ReadAll(doc, FreegeoipFields).Success?)
      && (r.Failure? ==> ReadAll(doc, FreegeoipFields) == Failure(r.error))
  {
    var t := FreegeoipFields;
    if !Present(doc, t[0]) { assert FirstMissing(doc, t, 0); ReadAllStopsAt(doc, t, 0); }
    else if !Present(doc, t[1]) { assert FirstMissing(doc, t, 1); ReadAllStopsAt(doc, t, 1); }
    else if !Present(doc, t[2]) { assert FirstMissing(doc, t, 2); ReadAllStopsAt(doc, t, 2); }
    else if !Present(doc, t[3]) { assert FirstMissing(doc, t, 3); ReadAllStopsAt(doc, t, 3); }
    else if !Present(doc, t[4]) { assert FirstMissing(doc, t, 4); ReadAllStopsAt(doc, t, 4); }
    else if !Present(doc, t[5]) { assert FirstMissing(doc, t, 5); ReadAllStopsAt(doc, t, 5); }
  }

  // ---------------------------------------------------------------- ipwhois

  /** The fields the ipwhois adapter reads once its gate passes:
      coordinates as JSON Strings. */
  const IpwhoisFields: seq<FieldSpec> := [
    FieldSpec("latitude", "latitude", StringKind),
    FieldSpec("longitude", "longitude", StringKind),
    FieldSpec("city", "city", StringKind),
    FieldSpec("region", "region", StringKind),
    FieldSpec("country", "country", StringKind),
    FieldSpec("timezone", "timezone", StringKind)]

  /** The `success` gate comes first: it must be a JSON Bool, and `false`
      means the service's monthly quota is spent. */
  function IpwhoisDecode(ip: string, doc: Value): (r: Result<Locator, GeoError>)
    ensures r.Success? ==> r.value.ip == ip
  {
    match Index(doc, "success")
    case Bool(success) =>
      if !success then Failure(MonthlyLimit)
      else
        var latitude :- Field(doc, FieldSpec("latitude", "latitude", StringKind));
        var longitude :- Field(doc, FieldSpec("longitude", "longitude", StringKind));
        var city :- Field(doc, FieldSpec("city", "city", StringKind));
        var region :- Field(doc, FieldSpec("region", "region", StringKind));
        var country :- Field(doc, FieldSpec("country", "country", StringKind));
        var timezone :- Field(doc, FieldSpec("timezone", "timezone", StringKind));
        Success(Locator(ip, latitude, longitude, city, region, country, timezone))
    case _ => Failure(SuccessMissing)
  }

  /** `Locator::ipwhois(ip)`. */
  function Ipwhois(ip: string, fetch: string -> Response,
                   parse: string -> Option<Value>): (r: Result<Locator, GeoError>)
    ensures r.Success? ==> r.value.ip == ip
    ensures var received := Receive(fetch("http://ipwhois.app/json/" + ip), "ipwhois.app", false, parse);
      && (received.Failure? ==> r == Failure(received.error))
      && (received.Success? ==> r == IpwhoisDecode(ip, received.value))
  {
    var doc :- Receive(fetch("http://ipwhois.app/json/" + ip), "ipwhois.app", false, parse);
    IpwhoisDecode(ip, doc)
  }

  /** The gate decides before any geo key is read: a `success` that is not
      a Bool, or is `false`, fails whatever else the document holds. */
  lemma IpwhoisGateFirst(ip: string, doc: Value)
    ensures !Index(doc, "success").Bool? ==> IpwhoisDecode(ip, doc) == Failure(SuccessMissing)
    ensures Index(doc, "success") == Bool(false) ==> IpwhoisDecode(ip, doc) == Failure(MonthlyLimit)
    ensures IpwhoisDecode(ip, doc).Success? ==> Index(doc, "success") == Bool(true)
  {
  }

  /** A spent quota is reported as such even when no geo key is there. */
  lemma MonthlyLimitWinsOverMissingFields(ip: string)
    ensures IpwhoisDecode(ip, Object(map["success" := Bool(false)])) == Failure(MonthlyLimit)
    ensures IpwhoisDecode(ip, Object(map[])) == Failure(SuccessMissing)
  {
  }

  /** Past the gate, ipwhois behaves like the other adapters on its own
      table: six String keys, the first failure named. */
  lemma IpwhoisDecodeSpec(ip: string, doc: Value)
    requires Index(doc, "success") == Bool(true)
    ensures var r := IpwhoisDecode(ip, doc);
      && (r.Success? <==> AllPresent(doc, IpwhoisFields))
      && (r.Success? ==> r.value == Locator(ip,
            Index(doc, "latitude").s, Index(doc, "longitude").s,
            Index(doc, "city").s, Index(doc, "region").s,
            Index(doc, "country").s, Index(doc, "timezone").s))
      && (r.Failure? ==> exists i :: FirstMissing(doc, IpwhoisFields, i)
                                   && r.error == FieldNotFound(IpwhoisFields[i].name))
      && (r.Success? <==> ReadAll(doc, IpwhoisFields).Success?)
      && (r.Failure? ==> ReadAll(doc, IpwhoisFields) == Failure(r.error))
  {
    var t := IpwhoisFields;
    if !Present(doc, t[0]) { assert FirstMissing(doc, t, 0); ReadAllStopsAt(doc, t, 0); }
    else if !Present(doc, t[1]) { assert FirstMissing(doc, t, 1); ReadAllStopsAt(doc, t, 1); }
    else if !Present(doc, t[2]) { assert FirstMissing(doc, t, 2); ReadAllStopsAt(doc, t, 2); }
    else if !Present(doc, t[3]) { assert FirstMissing(doc, t, 3); ReadAllStopsAt(doc, t, 3); }
    else if !Present(doc, t[4]) { assert FirstMissing(doc, t, 4); ReadAllStopsAt(doc, t, 4); }
    else if !Present(doc, t[5]) { assert FirstMissing(doc, t, 5); ReadAllStopsAt(doc, t, 5); }
  }

  // ---------------------------------------------------------------- ip-api.com

  /** The fields ip-api.com is read for: `lat`/`lon` as JSON Numbers. */
  const IpapiFields: seq<FieldSpec> := [
    FieldSpec("latitude", "lat", NumberKind),
    FieldSpec("longitude", "lon", NumberKind),
    FieldSpec("city", "city", StringKind),
    FieldSpec("region", "regionName", StringKind),
    FieldSpec("country", "country", StringKind),
    FieldSpec("timezone", "timezone", StringKind)]

  function IpapiDecode(ip: string, doc: Value): (r: Result<Locator, GeoError>)
    ensures r.Success? ==> r.value.ip == ip
  {
    var latitude :- Field(doc, FieldSpec("latitude", "lat", NumberKind));
    var longitude :- Field(doc, FieldSpec("longitude", "lon", NumberKind));
    var city :- Field(doc, FieldSpec("city", "city", StringKind));
    var region :- Field(doc, FieldSpec("region", "regionName", StringKind));
    var country :- Field(doc, FieldSpec("country", "country", StringKind));
    var timezone :- Field(doc, FieldSpec("timezone", "timezone", StringKind));
    Success(Locator(ip, latitude, longitude, city, region, country, timezone))
  }

  /** `Locator::ipapi(ip)`. */
  function Ipapi(ip: string, fetch: string -> Response,
                 parse: string -> Option<Value>): (r: Result<Locator, GeoError>)
    ensures r.Success? ==> r.value.ip == ip
    ensures var received := Receive(fetch("http://ip-api.com/json/" + ip), "ip-api.com", false, parse);
      && (received.Failure? ==> r == Failure(received.error))
      && (received.Success? ==> r == IpapiDecode(ip, received.value))
  {
    var doc :- Receive(fetch("http://ip-api.com/json/" + ip), "ip-api.com", false, parse);
    IpapiDecode(ip, doc)
  }

  lemma IpapiDecodeSpec(ip: string, doc: Value)
    ensures var r := IpapiDecode(ip, doc);
      && (r.Success? <==> AllPresent(doc, IpapiFields))
      && (r.Success? ==> r.value == Locator(ip,
            Index(doc, "lat").text, Index(doc, "lon").text,
            Index(doc, "city").s, Index(doc, "regionName").s,
            Index(doc, "country").s, Index(doc, "timezone").s))
      && (r.Failure? ==> exists i :: FirstMissing(doc, IpapiFields, i)
                                   && r.error == FieldNotFound(IpapiFields[i].name))
      && (r.Success? <==> ReadAll(doc, IpapiFields).Success?)
      && (r.Failure? ==> ReadAll(doc, IpapiFields) == Failure(r.error))
  {
    var t := IpapiFields;
    if !Present(doc, t[0]) { assert FirstMissing(doc, t, 0); ReadAllStopsAt(doc, t, 0); }
    else if !Present(doc, t[1]) { assert FirstMissing(doc, t, 1); ReadAllStopsAt(doc, t, 1); }
    else if !Present(doc, t[2]) { assert FirstMissing(doc, t, 2); ReadAllStopsAt(doc, t, 2); }
    else if !Present(doc, t[3]) { assert FirstMissing(doc, t, 3); ReadAllStopsAt(doc, t, 3); }
    else if !Present(doc, t[4]) { assert FirstMissing(doc, t, 4); ReadAllStopsAt(doc, t, 4); }
    else if !Present(doc, t[5]) { assert FirstMissing(doc, t, 5); ReadAllStopsAt(doc, t, 5); }
  }

  // ---------------------------------------------------------------- ipapi.co

  /** The fields ipapi.co is read for: coordinates as JSON Numbers. */
  const IpapicoFields: seq<FieldSpec> := [
    FieldSpec("latitude", "latitude", NumberKind),
    FieldSpec("longitude", "longitude", NumberKind),
    FieldSpec("city", "city", StringKind),
    FieldSpec("region", "region", StringKind),
    FieldSpec("country", "country_name", StringKind),
    FieldSpec("timezone", "timezone", StringKind)]

  function IpapicoDecode(ip: string, doc: Value): (r: Result<Locator, GeoError>)
    ensures r.Success? ==> r.value.ip == ip
  {
    var latitude :- Field(doc, FieldSpec("latitude", "latitude", NumberKind));
    var longitude :- Field(doc, FieldSpec("longitude", "longitude", NumberKind));
    var city :- Field(doc, FieldSpec("city", "city", StringKind));
    var region :- Field(doc, FieldSpec("region", "region", StringKind));
    var country :- Field(doc, FieldSpec("country", "country_name", StringKind));
    var timezone :- Field(doc, FieldSpec("timezone", "timezone", StringKind));
    Success(Locator(ip, latitude, longitude, city, region, country, timezone))
  }

  /** `Locator::ipapico(ip)`: the ip sits between a prefix and a suffix. */
  function Ipapico(ip: string, fetch: string -> Response,
                   parse: string -> Option<Value>): (r: Result<Locator, GeoError>)
    ensures r.Success? ==> r.value.ip == ip
    ensures var received := Receive(fetch("http://ipapi.co/" + ip + "/json/"), "ipapi.co", false, parse);
      && (received.Failure? ==> r == Failure(received.error))
      && (received.Success? ==> r == IpapicoDecode(ip, received.value))
  {
    var doc :- Receive(fetch("http://ipapi.co/" + ip + "/json/"), "ipapi.co", false, parse);
    IpapicoDecode(ip, doc)
  }

  lemma IpapicoDecodeSpec(ip: string, doc: Value)
    ensures var r := IpapicoDecode(ip, doc);
      && (r.Success? <==> AllPresent(doc, IpapicoFields))
      && (r.Success? ==> r.value == Locator(ip,
            Index(doc, "latitude").text, Index(doc, "longitude").text,
            Index(doc, "city").s, Index(doc, "region").s,
            Index(doc, "country_name").s, Index(doc, "timezone").s))
      && (r.Failure? ==> exists i :: FirstMissing(doc, IpapicoFields, i)
                                   && r.error == FieldNotFound(IpapicoFields[i].name))
      && (r.Success? <==> ReadAll(doc, IpapicoFields).Success?)
      && (r.Failure? ==> ReadAll(doc, IpapicoFields) == Failure(r.error))
  {
    var t := IpapicoFields;
    if !Present(doc, t[0]) { assert FirstMissing(doc, t, 0); ReadAllStopsAt(doc, t, 0); }
    else if !Present(doc, t[1]) { assert FirstMissing(doc, t, 1); ReadAllStopsAt(doc, t, 1); }
    else if !Present(doc, t[2]) { assert FirstMissing(doc, t, 2); ReadAllStopsAt(doc, t, 2); }
    else if !Present(doc, t[3]) { assert FirstMissing(doc, t, 3); ReadAllStopsAt(doc, t, 3); }
    else if !Present(doc, t[4]) { assert FirstMissing(doc, t, 4); ReadAllStopsAt(doc, t, 4); }
    else if !Present(doc, t[5]) { assert FirstMissing(doc, t, 5); ReadAllStopsAt(doc, t, 5); }
  }

  // ---------------------------------------------------------------- across adapters

  /** The coordinate kinds differ: freegeoip, ipapi and ipapico refuse a
      String latitude, and ipwhois, past its gate, refuses a Number one;
      each fails with the latitude error. */
  lemma CoordinateKinds(ip: string, m: map<string, Value>, text: string)
    ensures FreegeoipDecode(ip, Object(m["latitude" := String(text)])) == Failure(FieldNotFound("latitude"))
    ensures IpapicoDecode(ip, Object(m["latitude" := String(text)])) == Failure(FieldNotFound("latitude"))
    ensures IpapiDecode(ip, Object(m["lat" := String(text)])) == Failure(FieldNotFound("latitude"))
    ensures IpwhoisDecode(ip, Object(m["success" := Bool(true)]["latitude" := Number(text)]))
         == Failure(FieldNotFound("latitude"))
  {
  }
}
