/**
 * The `hits.map(h => ...)` step of `GET /api/events`: each search hit becomes one output
 * item, with addresses, signature and severity picked by fallback chains over the field
 * names of the different event producers, and geo and ASN context from two optional
 * MaxMind readers.
 */
module EventProjection {
  import opened Wrappers
  import opened JsValue

  /** A search hit; `source` is its `_source` document, `Undefined` when it has none. */
  datatype Hit = Hit(source: Value)

  /** What a MaxMind `reader.get(ip)` call does: return a record (or null), or throw. */
  datatype Lookup = Returned(record: Value) | Threw(message: string)

  /** A loaded MaxMind database; `None` in its place is a reader that is not (yet) loaded. */
  type Reader = Value -> Lookup

  /** `{ country, city, location }` built from a city record. */
  datatype GeoView = GeoView(country: Value, city: Value, location: Value)

  /** `{ num, org }` built from an ASN record. */
  datatype AsnView = AsnView(num: Value, org: Value)

  /** One element of the response's `items`; `None` for `geo` and `asn` is JSON null. */
  datatype Item = Item(
    ts: Value,
    srcIp: Value,
    destIp: Value,
    signature: Value,
    severity: Value,
    http: Value,
    dns: Value,
    geo: Option<GeoView>,
    asn: Option<AsnView>)

  /** `h._source || {}` */
  function Document(h: Hit): Value {
    Or(h.source, EmptyObject)
  }

  /** `s.src_ip || s["id.orig_h"]`: Suricata's field first, then Zeek's. */
  function SourceAddress(s: Value): Value {
    OrChain([Get(s, "src_ip"), Get(s, "id.orig_h")])
  }

  /** `s.dest_ip || s["id.resp_h"]` */
  function DestinationAddress(s: Value): Value {
    OrChain([Get(s, "dest_ip"), Get(s, "id.resp_h")])
  }

  /** `s.alert?.signature || s['note'] || null` */
  function Signature(s: Value): Value {
    OrChain([Get(Get(s, "alert"), "signature"), Get(s, "note"), Null])
  }

  /** `s.alert?.severity ?? s.severity ?? null` */
  function Severity(s: Value): Value {
    CoalesceChain([Get(Get(s, "alert"), "severity"), Get(s, "severity"), Null])
  }

  /** `reader && src ? reader.get(src) : null` */
  function GatedLookup(reader: Option<Reader>, src: Value): Lookup {
    if reader.Some? && Truthy(src) then reader.value(src) else Returned(Null)
  }

  /** `geo ? { country: geo.country?.iso_code, city: geo.city?.names?.en, location: geo.location } : null` */
  function GeoOf(rec: Value): Option<GeoView> {
    if Truthy(rec) then
      Some(GeoView(Get(Get(rec, "country"), "iso_code"), Get(Get(Get(rec, "city"), "names"), "en"), Get(rec, "location")))
    else None
  }

  /** `asn ? { num: asn.autonomous_system_number, org: asn.autonomous_system_organization } : null` */
  function AsnOf(rec: Value): Option<AsnView> {
    if Truthy(rec) then
      Some(AsnView(Get(rec, "autonomous_system_number"), Get(rec, "autonomous_system_organization")))
    else None
  }

  /**
   * The callback of `hits.map`. The city lookup runs before the ASN lookup, and a lookup
   * that throws is not caught here: the exception leaves the callback.
   */
  function ProjectHit(h: Hit, city: Option<Reader>, asn: Option<Reader>): Result<Item, string> {
    var s := Document(h);
    var src := SourceAddress(s);
    match GatedLookup(city, src)
    case Threw(m) => Failure(m)
    case Returned(geo) =>
      match GatedLookup(asn, src)
      case Threw(m) => Failure(m)
      case Returned(asnRecord) =>
        Success(Item(
          Get(s, "@timestamp"),
          src,
          DestinationAddress(s),
          Signature(s),
          Severity(s),
          OrChain([Get(s, "http"), Null]),
          OrChain([Get(s, "dns"), Null]),
          GeoOf(geo),
          AsnOf(asnRecord)))
  }

  /** Every hit before position `i` is projected without an exception. */
  predicate ProjectsBefore(hits: seq<Hit>, city: Option<Reader>, asn: Option<Reader>, i: int)
    requires 0 <= i <= |hits|
  {
    forall j :: 0 <= j < i ==> ProjectHit(hits[j], city, asn).Success?
  }

  /**
   * `hits.map(...)`: in order, one item per hit, item i the projection of hit i; the
   * first hit whose projection throws ends the whole map with that exception.
   */
  function ProjectAll(hits: seq<Hit>, city: Option<Reader>, asn: Option<Reader>): (r: Result<seq<Item>, string>)
    ensures r.Success? <==> ProjectsBefore(hits, city, asn, |hits|)
    ensures r.Success? ==> (
      && |r.value| == |hits|
      && forall i :: 0 <= i < |hits| ==> ProjectHit(hits[i], city, asn) == Success(r.value[i]))
    ensures r.Failure? ==> (exists i :: (
      && 0 <= i < |hits|
      && ProjectsBefore(hits, city, asn, i)
      && ProjectHit(hits[i], city, asn) == Failure(r.error)))
  {
    var project := h => ProjectHit(h, city, asn);
    var r := MapOrThrow(hits, project);
    assert forall i :: 0 <= i <= |hits| ==> (ReturnsBefore(hits, project, i) <==> ProjectsBefore(hits, city, asn, i));
    r
  }

  /** An address is the producer's own field when that is truthy, the other producer's otherwise. */
  lemma AddressFallback(s: Value)
    ensures SourceAddress(s) == if Truthy(Get(s, "src_ip")) then Get(s, "src_ip") else Get(s, "id.orig_h")
    ensures DestinationAddress(s) == if Truthy(Get(s, "dest_ip")) then Get(s, "dest_ip") else Get(s, "id.resp_h")
  {
    PairFallback(Get(s, "src_ip"), Get(s, "id.orig_h"));
    PairFallback(Get(s, "dest_ip"), Get(s, "id.resp_h"));
  }

  lemma PairFallback(a: Value, b: Value)
    ensures OrChain([a, b]) == if Truthy(a) then a else b
  {
    if Truthy(a) {
      assert FirstTruthy([a, b], 0);
    } else if Truthy(b) {
      assert FirstTruthy([a, b], 1);
    } else {
      assert NoneTruthy([a, b]);
    }
  }

  /**
   * A Zeek document that carries the address only as `id.orig_h` gets the same source
   * address as a Suricata document with that address as `src_ip`, provided it is truthy.
   */
  lemma ProducerAliasesAgree(fields: map<string, Value>, v: Value)
    requires "src_ip" !in fields && "id.orig_h" !in fields
    requires Truthy(v)
    ensures SourceAddress(Obj(fields["id.orig_h" := v])) == v
    ensures SourceAddress(Obj(fields["src_ip" := v])) == v
  {
    AddressFallback(Obj(fields["id.orig_h" := v]));
    AddressFallback(Obj(fields["src_ip" := v]));
  }

  /** Truthiness is needed above: an empty `id.orig_h` is kept as "", an empty `src_ip` falls through to undefined. */
  lemma EmptyAliasesDisagree()
    ensures SourceAddress(Obj(map["id.orig_h" := Str("")])) == Str("")
    ensures SourceAddress(Obj(map["src_ip" := Str("")])) == Undefined
  {
    AddressFallback(Obj(map["id.orig_h" := Str("")]));
    AddressFallback(Obj(map["src_ip" := Str("")]));
  }

  /**
   * The signature is the alert's signature when truthy, else the note when truthy, else
   * null; so it is always either a truthy value or null.
   */
  lemma SignatureFallback(s: Value)
    ensures var sig, note := Get(Get(s, "alert"), "signature"), Get(s, "note");
      Signature(s) == if Truthy(sig) then sig else if Truthy(note) then note else Null
    ensures Truthy(Signature(s)) || Signature(s) == Null
  {
    var vs := [Get(Get(s, "alert"), "signature"), Get(s, "note"), Null];
    if Truthy(vs[0]) {
      assert FirstTruthy(vs, 0);
    } else if Truthy(vs[1]) {
      assert FirstTruthy(vs, 1);
    } else {
      assert NoneTruthy(vs);
    }
  }

  /**
   * The severity is the alert's severity unless it is null or undefined, else the
   * document's `severity` unless null or undefined, else null. A severity of 0 is kept.
   */
  lemma SeverityFallback(s: Value)
    ensures var alertSeverity, severity := Get(Get(s, "alert"), "severity"), Get(s, "severity");
      Severity(s) == if !Nullish(alertSeverity) then alertSeverity else if !Nullish(severity) then severity else Null
    ensures Severity(s) != Undefined
  {
    var vs := [Get(Get(s, "alert"), "severity"), Get(s, "severity"), Null];
    if !Nullish(vs[0]) {
      assert FirstPresent(vs, 0);
    } else if !Nullish(vs[1]) {
      assert FirstPresent(vs, 1);
    } else {
      assert AllNullish(vs);
    }
  }

  /** The two chains differ: a severity of 0 survives `??`, an empty signature does not survive `||`. */
  lemma ZeroSeverityKeptEmptySignatureSkipped()
    ensures var s := Obj(map["alert" := Obj(map["signature" := Str(""), "severity" := Num(0.0)]), "note" := Str("n")]);
      Severity(s) == Num(0.0) && Signature(s) == Str("n")
  {
    var s := Obj(map["alert" := Obj(map["signature" := Str(""), "severity" := Num(0.0)]), "note" := Str("n")]);
    SeverityFallback(s);
    SignatureFallback(s);
  }

  /**
   * The fields of a projected item: the timestamp and addresses of the document (a hit
   * without `_source` reads as `{}`), `http` and `dns` verbatim when truthy and null
   * otherwise, and `geo` and `asn` each from its own reader's record alone.
   */
  lemma ProjectedItem(h: Hit, city: Option<Reader>, asn: Option<Reader>)
    requires ProjectHit(h, city, asn).Success?
    ensures var it, s := ProjectHit(h, city, asn).value, Document(h);
      && (h.source == Undefined ==> s == EmptyObject)
      && it.ts == Get(s, "@timestamp")
      && it.srcIp == SourceAddress(s) && it.destIp == DestinationAddress(s)
      && it.signature == Signature(s) && it.severity == Severity(s)
      && it.http == (if Truthy(Get(s, "http")) then Get(s, "http") else Null)
      && it.dns == (if Truthy(Get(s, "dns")) then Get(s, "dns") else Null)
      && it.geo == (if city.Some? && Truthy(it.srcIp) then GeoOf(city.value(it.srcIp).record) else None)
      && it.asn == (if asn.Some? && Truthy(it.srcIp) then AsnOf(asn.value(it.srcIp).record) else None)
  {
    var s := Document(h);
    PairFallback(Get(s, "http"), Null);
    PairFallback(Get(s, "dns"), Null);
  }

  /**
   * `geo` shows nothing of a city record but its country's ISO code, its English city name
   * and its location, and `asn` nothing of an ASN record but its number and organization:
   * records that agree on those give the same output, whatever else they hold.
   */
  lemma EnrichmentExposesOnlyChosenFields(r1: Value, r2: Value)
    requires r1.Obj? && r2.Obj?
    ensures (&& Get(Get(r1, "country"), "iso_code") == Get(Get(r2, "country"), "iso_code")
             && Get(Get(Get(r1, "city"), "names"), "en") == Get(Get(Get(r2, "city"), "names"), "en")
             && Get(r1, "location") == Get(r2, "location"))
      ==> GeoOf(r1) == GeoOf(r2) && GeoOf(r1).Some?
    ensures (forall k :: k in ["autonomous_system_number", "autonomous_system_organization"] ==> Get(r1, k) == Get(r2, k))
      ==> AsnOf(r1) == AsnOf(r2) && AsnOf(r1).Some?
  {
  }

  /** Without a truthy source address no lookup happens: the readers do not matter and nothing is enriched. */
  lemma NoAddressNoLookup(h: Hit, city: Option<Reader>, asn: Option<Reader>)
    requires !Truthy(SourceAddress(Document(h)))
    ensures ProjectHit(h, city, asn) == ProjectHit(h, None, None)
    ensures ProjectHit(h, city, asn).Success?
    ensures ProjectHit(h, city, asn).value.geo.None? && ProjectHit(h, city, asn).value.asn.None?
  {
  }

  /** Readers that are not loaded never fail a hit and leave both `geo` and `asn` null. */
  lemma NoReadersNoEnrichment(h: Hit)
    ensures ProjectHit(h, None, None).Success?
    ensures ProjectHit(h, None, None).value.geo.None? && ProjectHit(h, None, None).value.asn.None?
  {
  }

  /** A city lookup that finds nothing is indistinguishable from a city reader that is not loaded. */
  lemma CityMissLikeAbsentReader(h: Hit, city: Reader, asn: Option<Reader>)
    requires var src := SourceAddress(Document(h));
      Truthy(src) ==> city(src).Returned? && !Truthy(city(src).record)
    ensures ProjectHit(h, Some(city), asn) == ProjectHit(h, None, asn)
  {
  }

  /** An ASN lookup that finds nothing is indistinguishable from an ASN reader that is not loaded. */
  lemma AsnMissLikeAbsentReader(h: Hit, city: Option<Reader>, asn: Reader)
    requires var src := SourceAddress(Document(h));
      Truthy(src) ==> asn(src).Returned? && !Truthy(asn(src).record)
    ensures ProjectHit(h, city, Some(asn)) == ProjectHit(h, city, None)
  {
  }

  /** An address found only in the ASN database gets `asn` and no `geo`. */
  lemma OnlyAsnMatches(h: Hit, city: Reader, asn: Reader)
    requires var src := SourceAddress(Document(h));
      && Truthy(src)
      && city(src) == Returned(Null)
      && asn(src).Returned? && Truthy(asn(src).record)
    ensures ProjectHit(h, Some(city), Some(asn)).Success?
    ensures ProjectHit(h, Some(city), Some(asn)).value.geo.None?
    ensures ProjectHit(h, Some(city), Some(asn)).value.asn.Some?
  {
  }

  /**
   * A lookup that throws is not absorbed: the hit's projection throws the city reader's
   * exception when that one throws, and otherwise the ASN reader's.
   */
  lemma LookupExceptionEscapes(h: Hit, city: Option<Reader>, asn: Option<Reader>)
    requires var src := SourceAddress(Document(h));
      Truthy(src) && ((city.Some? && city.value(src).Threw?) || (asn.Some? && asn.value(src).Threw?))
    ensures var src := SourceAddress(Document(h));
      ProjectHit(h, city, asn) == Failure(
        if city.Some? && city.value(src).Threw? then city.value(src).message else asn.value(src).message)
  {
  }

  /**
   * A hit's projection fails exactly when one of its lookups throws: a lookup happens only
   * for a truthy source address and a loaded reader, and nothing else in the callback throws.
   */
  lemma ProjectHitFailsExactlyOnThrow(h: Hit, city: Option<Reader>, asn: Option<Reader>)
    ensures var src := SourceAddress(Document(h));
      ProjectHit(h, city, asn).Failure? <==>
        Truthy(src) && ((city.Some? && city.value(src).Threw?) || (asn.Some? && asn.value(src).Threw?))
  {
  }

  /** An address found in both databases gets both `geo` and `asn`, each from its own record. */
  lemma BothFoundSucceeds(h: Hit, city: Reader, asn: Reader)
    requires var src := SourceAddress(Document(h));
      && Truthy(src)
      && city(src).Returned? && Truthy(city(src).record)
      && asn(src).Returned? && Truthy(asn(src).record)
    ensures var r, src := ProjectHit(h, Some(city), Some(asn)), SourceAddress(Document(h));
      && r.Success?
      && r.value.geo == GeoOf(city(src).record) && r.value.geo.Some?
      && r.value.asn == AsnOf(asn(src).record) && r.value.asn.Some?
  {
  }

  /** With no reader loaded every hit is projected, in order, and none is enriched. */
  lemma NoReadersProjectAll(hits: seq<Hit>)
    ensures ProjectAll(hits, None, None).Success?
    ensures |ProjectAll(hits, None, None).value| == |hits|
    ensures forall i :: 0 <= i < |hits| ==>
      ProjectAll(hits, None, None).value[i].geo.None? && ProjectAll(hits, None, None).value[i].asn.None?
  {
    forall j | 0 <= j < |hits| ensures ProjectHit(hits[j], None, None).Success? {
      NoReadersNoEnrichment(hits[j]);
    }
  }
}
