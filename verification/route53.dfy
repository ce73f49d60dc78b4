/**
 * The Route 53 gateway strategy. A gateway is a TXT record named
 * `bluegreen-<name>.<zone>` whose value carries the gateway's metadata (a
 * JSON object, in UTF-8, in base64, as a quoted character-string), paired
 * with the A record of the same name (without `bluegreen-`) that points the
 * gateway at an environment.
 *
 * Every Route 53 call is an input here: the hosted zones, the listed record
 * sets and the outcome of a change batch are arguments of the functions.
 */
module Route53 {
  import opened Wrappers
  import opened Model
  import Text
  import Json
  import JsonText
  import JsonRoundTrip
  import Utf8
  import Base64

  /** The name prefix of a gateway's TXT record. */
  const TxtPrefix := "bluegreen-"

  /** What a metadata value starts with. */
  const Marker := "bluegreen"

  // ---------------------------------------------------------------------
  // Records
  // ---------------------------------------------------------------------

  /** The target of an alias A record as Route 53 lists it. */
  datatype AliasTarget = AliasTarget(hostedZoneId: string, dnsName: string)

  /** A resource record set: name, type, TTL, the `Value` of each resource record, and an alias target. */
  datatype RecordSet = RecordSet(
    name: string,
    rtype: string,
    ttl: Option<int>,
    values: seq<string>,
    alias: Option<AliasTarget>)

  /** The record pointing a gateway at an environment, as `buildGatewayToEnvironmentDNSRecord` builds it. */
  datatype DnsRecord =
    | AliasRecord(name: string, hostedZoneId: Option<string>, dnsName: Option<string>, evaluateTargetHealth: bool)
    | CnameRecord(name: string, ttl: int, value: Option<string>)

  /** A call that returns a value, or throws. */
  datatype Outcome<T> = Ok(value: T) | Throws(reason: string)

  // ---------------------------------------------------------------------
  // hydrateMetadata / buildTXTRecord / buildGatewayToEnvironmentDNSRecord
  // ---------------------------------------------------------------------

  /** A context value as the metadata stores it: a string, or absent. */
  function Stored(o: Option<string>): Option<Json.Value> {
    if o.Some? then Some(Json.JStr(o.value)) else None
  }

  const GatewayKey := "gateway"
  const ServiceKey := "service"
  const EnvironmentKey := "environment"

  /**
   * The object `{gateway, service, environment}`; `JSON.stringify` leaves out
   * an undefined gateway or service. `environment` is `None` for `null`.
   */
  function MetadataMembers(gateway: Option<string>, service: Option<string>, environment: Option<string>): (ms: seq<Json.Member>)
    ensures JsonRoundTrip.FlatObject(ms)
  {
    var g := if gateway.Some? then [Json.Member(GatewayKey, Json.JStr(gateway.value))] else [];
    var s := if service.Some? then [Json.Member(ServiceKey, Json.JStr(service.value))] else [];
    var e := [Json.Member(EnvironmentKey, if environment.Some? then Json.JStr(environment.value) else Json.JNull)];
    assert GatewayKey[0] == 'g' && ServiceKey[0] == 's' && EnvironmentKey[0] == 'e';
    g + s + e
  }

  /** Each field of the metadata object holds what was given for it. */
  lemma MetadataFields(gateway: Option<string>, service: Option<string>, environment: Option<string>)
    ensures var ms := MetadataMembers(gateway, service, environment);
            && Json.Get(ms, GatewayKey) == Stored(gateway)
            && Json.Get(ms, ServiceKey) == Stored(service)
            && Json.Get(ms, EnvironmentKey) == Some(if environment.Some? then Json.JStr(environment.value) else Json.JNull)
  {
    var ms := MetadataMembers(gateway, service, environment);
    assert GatewayKey[0] == 'g' && ServiceKey[0] == 's' && EnvironmentKey[0] == 'e';
    if gateway.Some? {
      assert ms[0] == Json.Member(GatewayKey, Json.JStr(gateway.value));
    } else {
      assert !Json.HasKey(ms, GatewayKey);
    }
    assert Json.Get(ms, ServiceKey) == Stored(service) by {
      if service.Some? {
        assert ms[|ms| - 2] == Json.Member(ServiceKey, Json.JStr(service.value));
        assert forall i :: 0 <= i < |ms| - 2 ==> ms[i].key == GatewayKey;
      } else {
        assert !Json.HasKey(ms, ServiceKey);
      }
    }
    assert forall i :: 0 <= i < |ms| - 1 ==> ms[i].key != EnvironmentKey;
    assert ms[|ms| - 1] == Json.Member(EnvironmentKey, if environment.Some? then Json.JStr(environment.value) else Json.JNull);
  }

  /** The base64 text of the metadata object's UTF-8 JSON. */
  function EncodedMetadata(gateway: Option<string>, service: Option<string>, environment: Option<string>): (b: string)
    ensures Base64.Encoded(b)
  {
    Base64.Encode(Utf8.Encode(JsonText.Stringify(Json.JObj(MetadataMembers(gateway, service, environment)))))
  }

  /** The text `bluegreen:<b>` a metadata value holds. */
  function MarkedText(b: string): string {
    Marker + ":" + b
  }

  /** A TXT character-string: the text between double quotes. */
  function Quoted(t: string): (v: string)
    ensures |v| == |t| + 2 && v[0] == '"' && v[|v| - 1] == '"' && v[1..|v| - 1] == t
  {
    "\"" + t + "\""
  }

  /** `hydrateMetadata(gateway, service, environment)`: `"bluegreen:<base64>"`, quotes included. */
  function HydrateMetadata(gateway: Option<string>, service: Option<string>, environment: Option<string>): (v: string)
    // the stored value is a JSON string whose text is the marked metadata
    ensures JsonText.Parse(v) == Some(Json.JStr(MarkedText(EncodedMetadata(gateway, service, environment))))
  {
    var t := MarkedText(EncodedMetadata(gateway, service, environment));
    MarkedTextIsPlain(EncodedMetadata(gateway, service, environment));
    JsonRoundTrip.QuotedPlain_Parse(t);
    Quoted(t)
  }

  /** The marked text splits on ':' into the marker and the base64 text, which has no ':'. */
  lemma {:induction false} MarkedTextSplitsInTwo(b: string)
    requires Base64.Encoded(b)
    ensures Text.Split(MarkedText(b), ':') == [Marker, b]
  {
    assert MarkedText(b) == Marker + [':'] + b;
    Text.SplitTwo(Marker, b, ':');
  }

  /**
   * Inside its quotes, a hydrated value splits on ':' into exactly the marker
   * and the base64 text, because the base64 alphabet has no ':'.
   */
  lemma HydratedSplitsInTwo(gateway: Option<string>, service: Option<string>, environment: Option<string>)
    ensures var v := HydrateMetadata(gateway, service, environment);
            |v| >= 2 && v[0] == '"' && v[|v| - 1] == '"'
            && Text.Split(v[1..|v| - 1], ':') == [Marker, EncodedMetadata(gateway, service, environment)]
  {
    MarkedTextSplitsInTwo(EncodedMetadata(gateway, service, environment));
  }

  /** `context.rrname || context.gateway`, as interpolated into a record name. */
  function RecordLabel(ctx: Context): string {
    Show(if Given(ctx.rrname) then ctx.rrname else ctx.gateway)
  }

  /** `context.environment || null`. */
  function EnvironmentOrNull(ctx: Context): Option<string> {
    if Given(ctx.environment) then ctx.environment else None
  }

  /** `<rrname or gateway>.<zone>`: the name of the gateway's A record. */
  function RecordName(zoneName: string, ctx: Context): string {
    RecordLabel(ctx) + "." + zoneName
  }

  /** `buildTXTRecord(zoneName, context)`. */
  function BuildTxtRecord(zoneName: string, ctx: Context): (r: RecordSet)
    ensures r.name == TxtPrefix + RecordName(zoneName, ctx)
    ensures r.rtype == "TXT" && r.ttl == Some(0) && r.alias.None?
    ensures r.values == [HydrateMetadata(ctx.gateway, ctx.service, EnvironmentOrNull(ctx))]
  {
    RecordSet(
      TxtPrefix + RecordName(zoneName, ctx),
      "TXT",
      Some(0),
      [HydrateMetadata(ctx.gateway, ctx.service, EnvironmentOrNull(ctx))],
      None)
  }

  /**
   * `buildGatewayToEnvironmentDNSRecord(zoneName, context, environment)`: an
   * alias A record when the environment has an `r53:Alias`, else a CNAME to
   * its URL; either way named as the TXT record is, without `bluegreen-`.
   */
  function BuildDnsRecord(zoneName: string, ctx: Context, env: Environment): (r: DnsRecord)
    ensures r.name == RecordName(zoneName, ctx)
    ensures Given(env.alias) ==> r == AliasRecord(r.name, env.aliasZone, env.aliasName, false)
    ensures !Given(env.alias) ==> r == CnameRecord(r.name, 0, env.url)
  {
    var name := RecordName(zoneName, ctx);
    if Given(env.alias) then AliasRecord(name, env.aliasZone, env.aliasName, false)
    else CnameRecord(name, 0, env.url)
  }

  // ---------------------------------------------------------------------
  // getBlueGreenTXTRecord / isBlueGreenTXTRecord
  // ---------------------------------------------------------------------

  /** `_.map(values, JSON.parse)`; `None` where one value is not JSON (a SyntaxError). */
  function ParseValues(values: seq<string>): (r: Option<seq<Json.Value>>)
    ensures r.Some? <==> forall i :: 0 <= i < |values| ==> JsonText.Parse(values[i]).Some?
    ensures r.Some? ==> |r.value| == |values|
    ensures r.Some? ==> forall i :: 0 <= i < |values| ==> JsonText.Parse(values[i]) == Some(r.value[i])
  {
    if values == [] then Some([])
    else match JsonText.Parse(values[0])
      case None => None
      case Some(v) =>
        match ParseValues(values[1..])
        case None =>
          assert !JsonText.Parse(values[1..][0]).Some? || exists i :: 0 <= i < |values[1..]| && !JsonText.Parse(values[1..][i]).Some?;
          None
        case Some(vs) => Some([v] + vs)
  }

  /**
   * `r.indexOf('bluegreen') === 0`: a string starting with the marker, an
   * array whose first item is the marker; any other value has no `indexOf`
   * and the test throws (`None`).
   */
  function StartsWithMarker(v: Json.Value): Option<bool> {
    match v
    case JStr(s) => Some(Text.StartsWith(s, Marker))
    case JArr(items) => Some(items != [] && items[0] == Json.JStr(Marker))
    case _ => None
  }

  /** Where `_.find` stops: at an accepted value, at a value whose test throws, or nowhere. */
  datatype Scan = Hit(at: nat) | Stop(at: nat) | Miss

  /** `_.find(vs, StartsWithMarker)`: the first position that is accepted, unless a test throws first. */
  function FindMarked(vs: seq<Json.Value>): (r: Scan)
    ensures !r.Miss? ==> r.at < |vs|
    ensures r.Hit? ==> StartsWithMarker(vs[r.at]) == Some(true)
    ensures r.Stop? ==> StartsWithMarker(vs[r.at]).None?
    ensures forall j :: 0 <= j < |vs| && (r.Miss? || j < r.at) ==> StartsWithMarker(vs[j]) == Some(false)
  {
    if vs == [] then Miss
    else match StartsWithMarker(vs[0])
      case None => Stop(0)
      case Some(true) => Hit(0)
      case Some(false) =>
        match FindMarked(vs[1..])
        case Hit(k) => Hit(k + 1)
        case Stop(k) => Stop(k + 1)
        case Miss => Miss
  }

  /** What `getBlueGreenTXTRecord` returns: `false`, `undefined`, the value found, or it throws. */
  datatype Probe = NoValues | NotFound | Found(value: Json.Value) | ProbeThrew(reason: string)

  /** The message of the TypeError a value without `indexOf` raises. */
  function NoIndexOf(v: Json.Value): string {
    if v.JNull? then "TypeError: Cannot read property 'indexOf' of null"
    else "TypeError: r.indexOf is not a function"
  }

  /** `getBlueGreenTXTRecord(record)`. */
  function GetMarkedValue(r: RecordSet): (p: Probe)
    ensures p.NoValues? <==> r.values == []
    ensures p.Found? ==> StartsWithMarker(p.value) == Some(true)
    ensures p.Found? ==> exists i :: 0 <= i < |r.values| && JsonText.Parse(r.values[i]) == Some(p.value)
    ensures r.values != [] && ParseValues(r.values).None? ==> p.ProbeThrew?
    ensures r.values != [] && ParseValues(r.values).Some? ==>
              var vs := ParseValues(r.values).value;
              && (FindMarked(vs).Hit? ==> p == Found(vs[FindMarked(vs).at]))
              && (FindMarked(vs).Stop? ==> p.ProbeThrew?)
              && (FindMarked(vs).Miss? ==> p == NotFound)
  {
    if r.values == [] then NoValues
    else match ParseValues(r.values)
      case None => ProbeThrew("SyntaxError: Unexpected token in JSON")
      case Some(vs) =>
        match FindMarked(vs)
        case Hit(i) => Found(vs[i])
        case Stop(i) => ProbeThrew(NoIndexOf(vs[i]))
        case Miss => NotFound
  }

  /**
   * When every value parses and has `indexOf`, a value is found exactly when
   * one of them starts with the marker.
   */
  lemma GetMarkedValueFindsMarker(r: RecordSet)
    requires ParseValues(r.values).Some?
    requires forall i :: 0 <= i < |r.values| ==> StartsWithMarker(ParseValues(r.values).value[i]).Some?
    ensures GetMarkedValue(r).Found? <==>
              exists i :: 0 <= i < |r.values| && StartsWithMarker(ParseValues(r.values).value[i]) == Some(true)
  {
  }

  /** `isBlueGreenTXTRecord(record)`: only a TXT record whose values hold a marked one. */
  function IsBlueGreenTxt(r: RecordSet): (o: Outcome<bool>)
    ensures r.rtype != "TXT" ==> o == Ok(false)
    ensures r.values == [] ==> o == Ok(false)
    ensures o == Ok(true) <==> r.rtype == "TXT" && GetMarkedValue(r).Found?
    ensures o.Throws? <==> r.rtype == "TXT" && GetMarkedValue(r).ProbeThrew?
  {
    if r.rtype != "TXT" then Ok(false)
    else match GetMarkedValue(r)
      case Found(v) =>
        assert Json.Truthy(v) by {
          if v.JStr? {
            assert |v.s| >= |Marker|;
          }
        }
        Ok(Json.Truthy(v))
      case ProbeThrew(m) => Throws(m)
      case _ => Ok(false)
  }

  /** The marked text `bluegreen:<b>` holds no character `JSON.stringify` would escape. */
  lemma MarkedTextIsPlain(b: string)
    requires Base64.Encoded(b)
    ensures forall i :: 0 <= i < |MarkedText(b)| ==> JsonRoundTrip.Plain(MarkedText(b)[i])
  {
    var t := MarkedText(b);
    forall i | 0 <= i < |t| ensures JsonRoundTrip.Plain(t[i]) {
      if i >= |Marker| + 1 {
        assert t[i] == b[i - |Marker| - 1];
      }
    }
  }

  /** A record whose only value is `"bluegreen:<b>"` yields the string `bluegreen:<b>`. */
  lemma QuotedMarkedValueFound(r: RecordSet, b: string)
    requires Base64.Encoded(b)
    requires r.values == [Quoted(MarkedText(b))]
    ensures GetMarkedValue(r) == Found(Json.JStr(MarkedText(b)))
  {
    var t := MarkedText(b);
    MarkedTextIsPlain(b);
    JsonRoundTrip.QuotedPlain_Parse(t);
    assert JsonText.Parse(r.values[0]) == Some(Json.JStr(t));
    assert r.values[1..] == [] && [Json.JStr(t)] + [] == [Json.JStr(t)];
    assert ParseValues(r.values) == Some([Json.JStr(t)]);
    assert t[..|Marker|] == Marker;
    assert FindMarked([Json.JStr(t)]) == Hit(0);
  }

  /** A TXT record built by `buildTXTRecord` is a BlueGreen TXT record, its value found as a string. */
  lemma BuiltTxtIsMarked(zoneName: string, ctx: Context)
    ensures var b := EncodedMetadata(ctx.gateway, ctx.service, EnvironmentOrNull(ctx));
            GetMarkedValue(BuildTxtRecord(zoneName, ctx)) == Found(Json.JStr(MarkedText(b)))
            && IsBlueGreenTxt(BuildTxtRecord(zoneName, ctx)) == Ok(true)
  {
    QuotedMarkedValueFound(BuildTxtRecord(zoneName, ctx), EncodedMetadata(ctx.gateway, ctx.service, EnvironmentOrNull(ctx)));
  }

  // ---------------------------------------------------------------------
  // mergeTXTandARecords
  // ---------------------------------------------------------------------

  /** `_.filter(records, isBlueGreenTXTRecord)`, which ends at the first test that throws. */
  function MarkedTxtRecords(records: seq<RecordSet>): (o: Outcome<seq<RecordSet>>)
    ensures o.Ok? <==> forall i :: 0 <= i < |records| ==> IsBlueGreenTxt(records[i]).Ok?
    ensures o.Ok? ==> forall t :: t in o.value <==> t in records && IsBlueGreenTxt(t) == Ok(true)
  {
    if records == [] then Ok([])
    else match IsBlueGreenTxt(records[0])
      case Throws(m) => Throws(m)
      case Ok(keep) =>
        match MarkedTxtRecords(records[1..])
        case Throws(m) =>
          assert exists i :: 0 <= i < |records[1..]| && !IsBlueGreenTxt(records[1..][i]).Ok?;
          Throws(m)
        case Ok(rest) =>
          assert forall t :: t in records <==> t == records[0] || t in records[1..];
          Ok(if keep then [records[0]] + rest else rest)
  }

  /**
   * The TXT filter keeps the records' order and throws the first throw: over
   * two lists one after the other it throws what the first throws, otherwise
   * what the second throws, otherwise it keeps what each keeps.
   */
  lemma MarkedTxtRecordsAppend(xs: seq<RecordSet>, ys: seq<RecordSet>)
    ensures MarkedTxtRecords(xs).Throws? ==> MarkedTxtRecords(xs + ys) == MarkedTxtRecords(xs)
    ensures MarkedTxtRecords(xs).Ok? && MarkedTxtRecords(ys).Throws? ==> MarkedTxtRecords(xs + ys) == MarkedTxtRecords(ys)
    ensures MarkedTxtRecords(xs).Ok? && MarkedTxtRecords(ys).Ok? ==>
              MarkedTxtRecords(xs + ys) == Ok(MarkedTxtRecords(xs).value + MarkedTxtRecords(ys).value)
  {
    MarkedTxtRecordsFilters(xs);
    MarkedTxtRecordsFilters(ys);
    MarkedTxtRecordsFilters(xs + ys);
    FilterThrowingAppend(xs, ys, KeepTxt);
  }

  /** `isBlueGreenTXTRecord` as a callback of the throwing filter: it keeps the record itself. */
  function KeepTxt(t: RecordSet): Outcome<Option<RecordSet>> {
    match IsBlueGreenTxt(t)
    case Throws(m) => Throws(m)
    case Ok(keep) => Ok(if keep then Some(t) else None)
  }

  /** The TXT filter is the throwing filter with `isBlueGreenTXTRecord` as its test. */
  lemma {:induction false} MarkedTxtRecordsFilters(records: seq<RecordSet>)
    ensures MarkedTxtRecords(records) == FilterThrowing(records, KeepTxt)
  {
    if records != [] {
      MarkedTxtRecordsFilters(records[1..]);
    }
  }

  /** A single record is kept exactly when it is a BlueGreen TXT record, and a throw of the test is the filter's. */
  lemma MarkedTxtRecordsSingle(t: RecordSet)
    ensures MarkedTxtRecords([t]) == match IsBlueGreenTxt(t) case Throws(m) => Throws(m) case Ok(keep) => Ok(if keep then [t] else [])
  {
    MarkedTxtRecordsFilters([t]);
    FilterThrowingSingle(t, KeepTxt);
  }

  /** The A record named `name`. */
  predicate IsAFor(r: RecordSet, name: string) {
    r.rtype == "A" && r.name == name
  }

  /** `_.find(records, R => R.Type === 'A' && R.Name === name)`, as a position. */
  function FirstA(records: seq<RecordSet>, name: string): (r: Option<nat>)
    ensures r.Some? ==> r.value < |records| && IsAFor(records[r.value], name)
    ensures forall j :: 0 <= j < |records| && (r.None? || j < r.value) ==> !IsAFor(records[j], name)
  {
    if records == [] then None
    else if IsAFor(records[0], name) then Some(0)
    else match FirstA(records[1..], name)
      case None => None
      case Some(k) => Some(k + 1)
  }

  /** A gateway's TXT record and the A record attached to it, if any. */
  datatype Paired = Paired(txt: RecordSet, a: Option<RecordSet>)

  /** `TXT.Name.substring('bluegreen-'.length)`: the name the gateway's A record has. */
  function GatewayName(txt: RecordSet): string {
    Text.Slice(txt.name, |TxtPrefix|)
  }

  /** One TXT record with the first A record of its gateway name. */
  function PairWithA(records: seq<RecordSet>, txt: RecordSet): (p: Paired)
    ensures p.txt == txt
    ensures p.a.Some? ==> p.a.value in records && IsAFor(p.a.value, GatewayName(txt))
    ensures p.a.None? ==> forall j :: 0 <= j < |records| ==> !IsAFor(records[j], GatewayName(txt))
  {
    match FirstA(records, GatewayName(txt))
    case None => Paired(txt, None)
    case Some(i) => Paired(txt, Some(records[i]))
  }

  /** What `mergeTXTandARecords(records)` returns: the BlueGreen TXT records in order, each paired. */
  function Merged(records: seq<RecordSet>): (o: Outcome<seq<Paired>>)
    ensures o.Ok? <==> MarkedTxtRecords(records).Ok?
    ensures o.Ok? ==> |o.value| == |MarkedTxtRecords(records).value|
    ensures o.Ok? ==> forall k :: 0 <= k < |o.value| ==> o.value[k].txt == MarkedTxtRecords(records).value[k]
    ensures o.Ok? ==> forall k :: 0 <= k < |o.value| ==>
              o.value[k].txt in records && IsBlueGreenTxt(o.value[k].txt) == Ok(true)
              && o.value[k] == PairWithA(records, o.value[k].txt)
  {
    match MarkedTxtRecords(records)
    case Throws(m) => Throws(m)
    case Ok(ts) => Ok(seq(|ts|, i requires 0 <= i < |ts| => PairWithA(records, ts[i])))
  }

  /** `mergeTXTandARecords(records)`: the filter, then one `_.find` per TXT record. */
  method MergeTxtAndARecords(records: seq<RecordSet>) returns (r: Outcome<seq<Paired>>)
    ensures r == Merged(records)
  {
    var filtered := MarkedTxtRecords(records);
    if filtered.Throws? {
      return Throws(filtered.reason);
    }
    var txts := filtered.value;
    var paired: seq<Paired> := [];
    var i := 0;
    while i < |txts|
      invariant 0 <= i <= |txts|
      invariant |paired| == i
      invariant forall k :: 0 <= k < i ==> paired[k] == PairWithA(records, txts[k])
    {
      var gatewayName := Text.Slice(txts[i].name, |TxtPrefix|);
      var found := FirstA(records, gatewayName);
      var attached := if found.Some? then Some(records[found.value]) else None;
      paired := paired + [Paired(txts[i], attached)];
      i := i + 1;
    }
    assert paired == seq(|txts|, k requires 0 <= k < |txts| => PairWithA(records, txts[k]));
    r := Ok(paired);
  }

  // ---------------------------------------------------------------------
  // parseBlueGreenMetadata / dehydrateMetadata
  // ---------------------------------------------------------------------

  /**
   * `parseBlueGreenMetadata` up to its last step: `Some` base64 text when the
   * found value splits on ':' into two parts, `None` (the `null` result) when
   * it does not, or the error raised on the way.
   */
  function MetadataText(r: RecordSet): (o: Outcome<Option<string>>)
    ensures o.Ok? ==> GetMarkedValue(r).Found? && GetMarkedValue(r).value.JStr?
    ensures o.Ok? ==> (o.value.Some? <==> |Text.Split(GetMarkedValue(r).value.s, ':')| == 2)
    ensures o.Ok? && o.value.Some? ==> o.value.value == Text.Split(GetMarkedValue(r).value.s, ':')[1]
  {
    match GetMarkedValue(r)
    case NoValues => Throws("TypeError: txtValue.split is not a function")
    case NotFound => Throws("TypeError: Cannot read property 'split' of undefined")
    case ProbeThrew(m) => Throws(m)
    case Found(v) =>
      if v.JStr? then
        var parts := Text.Split(v.s, ':');
        Ok(if |parts| == 2 then Some(parts[1]) else None)
      else Throws("TypeError: txtValue.split is not a function")
  }

  /** The JSON a base64 text carries; `None` when it is not base64 of UTF-8 JSON. */
  function DecodeMetadata(b: string): Option<Json.Value> {
    match Base64.Decode(b)
    case None => None
    case Some(bytes) =>
      match Utf8.Decode(bytes)
      case None => None
      case Some(text) => JsonText.Parse(text)
  }

  /**
   * `parseBlueGreenMetadata(record)` as written: the two-part case calls
   * `utils.tryParseJSONSync`, which the utilities module does not define.
   */
  function ParseMetadataAsWritten(r: RecordSet): (o: Outcome<Option<Json.Value>>)
    ensures MetadataText(r) == Ok(None) <==> o == Ok(None)
    ensures MetadataText(r).Ok? && MetadataText(r).value.Some? ==> o == Throws("TypeError: utils.tryParseJSONSync is not a function")
  {
    match MetadataText(r)
    case Throws(m) => Throws(m)
    case Ok(None) => Ok(None)
    case Ok(Some(_)) => Throws("TypeError: utils.tryParseJSONSync is not a function")
  }

  /** `parseBlueGreenMetadata(record)` as intended: the decoded JSON, or `null` when it does not parse. */
  function ParseMetadata(r: RecordSet): (o: Outcome<Option<Json.Value>>)
    ensures o.Throws? <==> MetadataText(r).Throws?
    ensures MetadataText(r).Ok? && MetadataText(r).value.Some? ==> o == Ok(DecodeMetadata(MetadataText(r).value.value))
    ensures MetadataText(r) == Ok(None) ==> o == Ok(None)
  {
    match MetadataText(r)
    case Throws(m) => Throws(m)
    case Ok(None) => Ok(None)
    case Ok(Some(b)) => Ok(DecodeMetadata(b))
  }

  /** The fields `dehydrateMetadata` copies onto a record; `environment` is `null` when falsy. */
  datatype Metadata = Metadata(gateway: Option<Json.Value>, service: Option<Json.Value>, environment: Json.Value)

  /** A property of a truthy parsed value: an object's own member, else `undefined`. */
  function Property(v: Json.Value, k: string): Option<Json.Value> {
    if v.JObj? then Json.Get(v.members, k) else None
  }

  /** `dehydrateMetadata(record)`: `Ok(None)` for `false`, the metadata for `true`. */
  function Dehydrate(r: RecordSet): (o: Outcome<Option<Metadata>>)
    ensures o.Throws? <==> ParseMetadata(r).Throws?
    ensures o.Ok? && o.value.Some? <==> ParseMetadata(r).Ok? && ParseMetadata(r).value.Some? && Json.Truthy(ParseMetadata(r).value.value)
    ensures o.Ok? && o.value.Some? ==> !Json.Truthy(o.value.value.environment) ==> o.value.value.environment == Json.JNull
  {
    match ParseMetadata(r)
    case Throws(m) => Throws(m)
    case Ok(parsed) =>
      if parsed.None? || !Json.Truthy(parsed.value) then Ok(None)
      else
        var v := parsed.value;
        var env := Property(v, EnvironmentKey);
        Ok(Some(Metadata(Property(v, GatewayKey), Property(v, ServiceKey),
                         if env.Some? && Json.Truthy(env.value) then env.value else Json.JNull)))
  }

  /** The base64 part of a found marked value, split off at its single ':'. */
  lemma MarkedTextSplits(r: RecordSet, b: string)
    requires Base64.Encoded(b)
    requires GetMarkedValue(r) == Found(Json.JStr(MarkedText(b)))
    ensures MetadataText(r) == Ok(Some(b))
  {
    MarkedTextSplitsInTwo(b);
  }

  /** The base64 text of the metadata decodes to the metadata object. */
  lemma EncodedMetadataDecodes(gateway: Option<string>, service: Option<string>, environment: Option<string>)
    ensures DecodeMetadata(EncodedMetadata(gateway, service, environment)) ==
              Some(Json.JObj(MetadataMembers(gateway, service, environment)))
  {
    var ms := MetadataMembers(gateway, service, environment);
    var text := JsonText.Stringify(Json.JObj(ms));
    Base64.DecodeEncode(Utf8.Encode(text));
    Utf8.DecodeEncode(text);
    JsonRoundTrip.FlatObject_RoundTrip(ms);
  }

  /** The intended parse of a built TXT record gives the metadata object back. */
  lemma BuiltTxtParses(zoneName: string, ctx: Context)
    ensures ParseMetadata(BuildTxtRecord(zoneName, ctx)) ==
              Ok(Some(Json.JObj(MetadataMembers(ctx.gateway, ctx.service, EnvironmentOrNull(ctx)))))
    ensures MetadataText(BuildTxtRecord(zoneName, ctx)) == Ok(Some(EncodedMetadata(ctx.gateway, ctx.service, EnvironmentOrNull(ctx))))
  {
    var b := EncodedMetadata(ctx.gateway, ctx.service, EnvironmentOrNull(ctx));
    BuiltTxtIsMarked(zoneName, ctx);
    MarkedTextSplits(BuildTxtRecord(zoneName, ctx), b);
    EncodedMetadataDecodes(ctx.gateway, ctx.service, EnvironmentOrNull(ctx));
  }

  /**
   * The metadata round trip: the TXT record `buildTXTRecord` writes for a
   * context gives back, when parsed, that context's gateway and service, and
   * its environment (`null` when it has none).
   */
  lemma MetadataRoundTrip(zoneName: string, ctx: Context)
    ensures Dehydrate(BuildTxtRecord(zoneName, ctx)) ==
              Ok(Some(Metadata(Stored(ctx.gateway), Stored(ctx.service),
                               if Given(ctx.environment) then Json.JStr(ctx.environment.value) else Json.JNull)))
  {
    var ms := MetadataMembers(ctx.gateway, ctx.service, EnvironmentOrNull(ctx));
    BuiltTxtParses(zoneName, ctx);
    MetadataFields(ctx.gateway, ctx.service, EnvironmentOrNull(ctx));
    DehydrateObject(BuildTxtRecord(zoneName, ctx), ms);
  }

  /** A record whose metadata parses to an object gets that object's three fields. */
  lemma DehydrateObject(r: RecordSet, ms: seq<Json.Member>)
    requires ParseMetadata(r) == Ok(Some(Json.JObj(ms)))
    ensures var env := Json.Get(ms, EnvironmentKey);
            Dehydrate(r) == Ok(Some(Metadata(Json.Get(ms, GatewayKey), Json.Get(ms, ServiceKey),
                                             if env.Some? && Json.Truthy(env.value) then env.value else Json.JNull)))
  {
    var v := Json.JObj(ms);
    assert Json.Truthy(v);
    assert Property(v, GatewayKey) == Json.Get(ms, GatewayKey);
    assert Property(v, ServiceKey) == Json.Get(ms, ServiceKey);
    assert Property(v, EnvironmentKey) == Json.Get(ms, EnvironmentKey);
  }

  /**
   * The source as written cannot read back the metadata it writes: parsing
   * the TXT record of any gateway throws, where the intended parse gives the
   * stored object.
   */
  lemma AsWrittenParseThrows(zoneName: string, ctx: Context)
    ensures ParseMetadataAsWritten(BuildTxtRecord(zoneName, ctx)) == Throws("TypeError: utils.tryParseJSONSync is not a function")
    ensures ParseMetadata(BuildTxtRecord(zoneName, ctx)) ==
              Ok(Some(Json.JObj(MetadataMembers(ctx.gateway, ctx.service, EnvironmentOrNull(ctx)))))
  {
    BuiltTxtParses(zoneName, ctx);
  }

  /** The A record `attachEnvironmentToGateway` writes has the name its TXT record is paired by. */
  lemma DnsRecordPairsWithTxt(zoneName: string, ctx: Context, env: Environment)
    ensures GatewayName(BuildTxtRecord(zoneName, ctx)) == BuildDnsRecord(zoneName, ctx, env).name
  {
    var name := RecordName(zoneName, ctx);
    assert (TxtPrefix + name)[|TxtPrefix|..] == name;
  }

  // ---------------------------------------------------------------------
  // addMetadataAndFilterInvalidRecords / transformGateway
  // ---------------------------------------------------------------------

  /** The hosted zone a lookup settles on: its id and its name (the DNS root). */
  datatype HostedZone = HostedZone(id: string, name: string)

  /** A paired record after `listGateways` has added its zone and its metadata. */
  datatype Described = Described(pair: Paired, zone: HostedZone, meta: Metadata)

  /** The description of one pair, when its metadata parses to something. */
  function Describe(p: Paired, zone: HostedZone): (o: Outcome<Option<Described>>)
    ensures o.Throws? <==> Dehydrate(p.txt).Throws?
    // a pair is kept exactly when its metadata parses, with its zone and that metadata
    ensures o.Ok? && o.value.Some? <==> Dehydrate(p.txt).Ok? && Dehydrate(p.txt).value.Some?
    ensures o.Ok? && o.value.Some? ==> o.value.value == Described(p, zone, Dehydrate(p.txt).value.value)
  {
    match Dehydrate(p.txt)
    case Throws(m) => Throws(m)
    case Ok(meta) => Ok(if meta.Some? then Some(Described(p, zone, meta.value)) else None)
  }

  /** `_.filter(xs, f)` with a callback that may throw: the values kept, or the first throw. */
  function FilterThrowing<A, B>(xs: seq<A>, f: A -> Outcome<Option<B>>): (o: Outcome<seq<B>>)
    ensures o.Ok? ==> |o.value| <= |xs|
  {
    if xs == [] then Ok([])
    else match f(xs[0])
      case Throws(m) => Throws(m)
      case Ok(d) =>
        match FilterThrowing(xs[1..], f)
        case Throws(m) => Throws(m)
        case Ok(rest) => Ok(if d.Some? then [d.value] + rest else rest)
  }

  /**
   * The filter keeps the values' order and throws the first throw: over two
   * lists one after the other it throws what the first throws, otherwise
   * what the second throws, otherwise it keeps what each keeps.
   */
  lemma {:induction false} FilterThrowingAppend<A, B>(xs: seq<A>, ys: seq<A>, f: A -> Outcome<Option<B>>)
    ensures FilterThrowing(xs, f).Throws? ==> FilterThrowing(xs + ys, f) == FilterThrowing(xs, f)
    ensures FilterThrowing(xs, f).Ok? && FilterThrowing(ys, f).Throws? ==> FilterThrowing(xs + ys, f) == FilterThrowing(ys, f)
    ensures FilterThrowing(xs, f).Ok? && FilterThrowing(ys, f).Ok? ==>
              FilterThrowing(xs + ys, f) == Ok(FilterThrowing(xs, f).value + FilterThrowing(ys, f).value)
  {
    if xs == [] {
      assert xs + ys == ys && FilterThrowing(xs, f) == Ok([]);
      if FilterThrowing(ys, f).Ok? {
        assert [] + FilterThrowing(ys, f).value == FilterThrowing(ys, f).value;
      }
    } else {
      var zs := xs + ys;
      assert zs[0] == xs[0] && zs[1..] == xs[1..] + ys;
      FilterThrowingAppend(xs[1..], ys, f);
      if f(xs[0]).Ok? && FilterThrowing(xs[1..], f).Ok? && FilterThrowing(ys, f).Ok? {
        FilterThrowingConsOk(xs[0], FilterThrowing(xs[1..], f).value, FilterThrowing(ys, f).value, f);
      }
    }
  }

  /** The step behind the append case in which nothing throws. */
  lemma FilterThrowingConsOk<A, B>(x: A, u: seq<B>, v: seq<B>, f: A -> Outcome<Option<B>>)
    requires f(x).Ok?
    ensures var head := if f(x).value.Some? then [f(x).value.value] else [];
            head + (u + v) == (head + u) + v
  {
  }

  /** A single value gives what the callback gives: its throw, or the value it keeps. */
  lemma FilterThrowingSingle<A, B>(x: A, f: A -> Outcome<Option<B>>)
    ensures FilterThrowing([x], f) == match f(x) case Throws(m) => Throws(m) case Ok(d) => Ok(if d.Some? then [d.value] else [])
  {
    assert [x][1..] == [] && FilterThrowing([], f) == Ok([]);
    if f(x).Ok? && f(x).value.Some? {
      assert [f(x).value.value] + [] == [f(x).value.value];
    }
  }

  /** The filter throws exactly when the callback throws on one of the values. */
  lemma {:induction false} FilterThrowingOk<A, B>(xs: seq<A>, f: A -> Outcome<Option<B>>)
    ensures FilterThrowing(xs, f).Ok? <==> forall i :: 0 <= i < |xs| ==> f(xs[i]).Ok?
  {
    if xs != [] {
      var tail := xs[1..];
      FilterThrowingOk(tail, f);
      assert forall i :: 0 < i < |xs| ==> xs[i] == tail[i - 1];
    }
  }

  /** `dehydrateMetadata` as the filter's callback, for one zone. */
  function Describer(zone: HostedZone): Paired -> Outcome<Option<Described>> {
    p => Describe(p, zone)
  }

  /** `_.filter(records, dehydrateMetadata)`: the records whose metadata parses, which end at the first throw. */
  function DescribeAll(pairs: seq<Paired>, zone: HostedZone): (o: Outcome<seq<Described>>)
    // the filter throws exactly when one of the records' metadata does
    ensures o.Ok? <==> forall i :: 0 <= i < |pairs| ==> Describe(pairs[i], zone).Ok?
    ensures o.Ok? ==> |o.value| <= |pairs|
  {
    FilterThrowingOk(pairs, Describer(zone));
    FilterThrowing(pairs, Describer(zone))
  }

  /** What the filter keeps is a record of the list, with its zone and the metadata it parses to. */
  lemma {:induction false} DescribeAllSound(pairs: seq<Paired>, zone: HostedZone, d: Described)
    requires DescribeAll(pairs, zone).Ok? && d in DescribeAll(pairs, zone).value
    ensures d.pair in pairs && d.zone == zone && Dehydrate(d.pair.txt) == Ok(Some(d.meta))
  {
    var h := Describe(pairs[0], zone).value;
    if h.Some? && d == h.value {
    } else {
      DescribeAllSound(pairs[1..], zone, d);
    }
  }

  /** The filter keeps every record whose metadata parses. */
  lemma {:induction false} DescribeAllComplete(pairs: seq<Paired>, zone: HostedZone, p: Paired)
    requires DescribeAll(pairs, zone).Ok? && p in pairs
    requires Dehydrate(p.txt).Ok? && Dehydrate(p.txt).value.Some?
    ensures Described(p, zone, Dehydrate(p.txt).value.value) in DescribeAll(pairs, zone).value
  {
    if p != pairs[0] {
      DescribeAllComplete(pairs[1..], zone, p);
    }
  }

  /** The service filter: with a service in the context, the records whose metadata names it. */
  function ForService(ctx: Context, ds: seq<Described>): (r: seq<Described>)
    ensures !Given(ctx.service) ==> r == ds
    ensures Given(ctx.service) ==> forall d :: d in r <==> d in ds && d.meta.service == Stored(ctx.service)
    ensures |r| <= |ds|
  {
    if !Given(ctx.service) then ds
    else if ds == [] then []
    else
      var rest := ForService(ctx, ds[1..]);
      assert forall d :: d in ds <==> d == ds[0] || d in ds[1..];
      if ds[0].meta.service == Stored(ctx.service) then [ds[0]] + rest else rest
  }

  /**
   * The service filter keeps the records' order: filtering two lists one
   * after the other is filtering each, and a single record is kept exactly
   * when no service is given or its metadata names the service.
   */
  lemma {:induction false} ForServiceAppend(ctx: Context, xs: seq<Described>, ys: seq<Described>)
    ensures ForService(ctx, xs + ys) == ForService(ctx, xs) + ForService(ctx, ys)
    ensures forall d :: ForService(ctx, [d]) == if !Given(ctx.service) || d.meta.service == Stored(ctx.service) then [d] else []
  {
    if Given(ctx.service) {
      if xs == [] {
        assert xs + ys == ys;
      } else {
        assert (xs + ys)[1..] == xs[1..] + ys;
        ForServiceAppend(ctx, xs[1..], ys);
      }
    }
    forall d
      ensures ForService(ctx, [d]) == if !Given(ctx.service) || d.meta.service == Stored(ctx.service) then [d] else []
    {
      assert [d][1..] == [];
    }
  }

  /**
   * `transformGateway(record)`: the gateway a record describes; an attached
   * A record without an alias target has no `DNSName` to read and throws.
   */
  function TransformGateway(name: string, gateway: Option<Json.Value>, service: Option<Json.Value>,
                            environment: Option<Json.Value>, zone: Option<string>, root: Option<string>,
                            a: Option<RecordSet>): (o: Outcome<Gateway>)
    ensures o.Ok? <==> a.None? || a.value.alias.Some?
    ensures o.Ok? ==> o.value.name == gateway && o.value.service == service && o.value.environment == environment
    ensures o.Ok? ==> o.value.recordName == name && o.value.uri == Text.Slice(name, |TxtPrefix|)
    ensures o.Ok? ==> o.value.zone == zone && o.value.root == root
    ensures o.Ok? && a.Some? ==> o.value.alias == Some(a.value.alias.value.dnsName)
                                 && o.value.aliasZone == Some(a.value.alias.value.hostedZoneId)
    ensures o.Ok? && a.None? ==> o.value.alias.None? && o.value.aliasZone.None?
  {
    var g := Gateway(gateway, service, environment, Text.Slice(name, |TxtPrefix|), name, zone, root, None, None);
    match a
    case None => Ok(g)
    case Some(A) =>
      if A.alias.None? then Throws("TypeError: Cannot read property 'DNSName' of undefined")
      else Ok(g.(alias := Some(A.alias.value.dnsName), aliasZone := Some(A.alias.value.hostedZoneId)))
  }

  /** The gateway of a listed record: its metadata, its zone and its A record. */
  function GatewayOf(d: Described): Outcome<Gateway> {
    TransformGateway(d.pair.txt.name, d.meta.gateway, d.meta.service, Some(d.meta.environment),
                     Some(d.zone.id), Some(d.zone.name), d.pair.a)
  }

  /** `_.map(records, transformGateway)`, which ends at the first throw. */
  function TransformAll(ds: seq<Described>): (o: Outcome<seq<Gateway>>)
    ensures o.Ok? <==> forall i :: 0 <= i < |ds| ==> GatewayOf(ds[i]).Ok?
    ensures o.Ok? ==> |o.value| == |ds| && forall i :: 0 <= i < |ds| ==> GatewayOf(ds[i]) == Ok(o.value[i])
  {
    if ds == [] then Ok([])
    else match GatewayOf(ds[0])
      case Throws(m) => Throws(m)
      case Ok(g) =>
        match TransformAll(ds[1..])
        case Throws(m) =>
          assert exists i :: 0 <= i < |ds[1..]| && !GatewayOf(ds[1..][i]).Ok?;
          Throws(m)
        case Ok(gs) => Ok([g] + gs)
  }

  // ---------------------------------------------------------------------
  // getZoneLookupFn / checkForSingletonZone / lookupHostedZone
  // ---------------------------------------------------------------------

  /** How a zone lookup calls back: with a zone, or with an error. */
  datatype ZoneLookup = ZoneFound(zone: HostedZone) | ZoneFailed(err: Err)

  const MoreThanOneZone :=
    "More than one hosted zone in AWS Environment.  You will need to configure BlueGreen to use one or specify the target zone when invoking this command.  The following are your available zones: "

  /** `_.map(zones, z => `${z.Name}: ${z.Id}`).join(', ')`. */
  function ZoneList(zones: seq<HostedZone>): string {
    Text.Join(seq(|zones|, i requires 0 <= i < |zones| => zones[i].name + ": " + zones[i].id), ", ")
  }

  /**
   * `getZoneLookupFn(context)` run to its callback. `named` is what
   * `getHostedZone` reports for the zone the context gives, `zones` what
   * `listHostedZones` reports; only the one the context selects is consulted.
   */
  function LookupZone(ctx: Context, named: Fetched<HostedZone>, zones: Fetched<seq<HostedZone>>): (r: ZoneLookup)
    ensures Given(ctx.zone) ==> (r.ZoneFound? <==> named.Fetched?)
    ensures Given(ctx.zone) && r.ZoneFound? ==> r.zone == named.value
    ensures !Given(ctx.zone) ==> (r.ZoneFound? <==> zones.Fetched? && |zones.value| == 1)
    ensures !Given(ctx.zone) && r.ZoneFound? ==> r.zone == zones.value[0]
    ensures !Given(ctx.zone) && zones.Fetched? && |zones.value| != 1 ==>
              r == ZoneFailed(ErrorObj(MoreThanOneZone + ZoneList(zones.value)))
  {
    if Given(ctx.zone) then
      match named
      case FetchError(e) => ZoneFailed(e)
      case Fetched(z) => ZoneFound(z)
    else
      match zones
      case FetchError(e) => ZoneFailed(e)
      case Fetched(zs) =>
        if |zs| == 1 then ZoneFound(zs[0])
        else ZoneFailed(ErrorObj(MoreThanOneZone + ZoneList(zs)))
  }

  // ---------------------------------------------------------------------
  // listGateways
  // ---------------------------------------------------------------------

  /** The message `listGateways` reports with an error. */
  function ListFailure(ctx: Context): string {
    if Given(ctx.service) then "An error occurred attempting to list gateways for service " + ctx.service.value
    else "An error occurred attempting to list gateways."
  }

  /** The gateways of the listed record sets of a zone, as the waterfall's later steps build them. */
  function ListedGateways(ctx: Context, zone: HostedZone, records: seq<RecordSet>): (o: Outcome<seq<Gateway>>)
  {
    match Merged(records)
    case Throws(m) => Throws(m)
    case Ok(pairs) =>
      match DescribeAll(pairs, zone)
      case Throws(m) => Throws(m)
      case Ok(ds) => TransformAll(ForService(ctx, ds))
  }

  /**
   * `listGateways(app, context, callback)`: a failed lookup or listing is
   * reported with a message; an exception in a later step escapes.
   */
  function ListGateways(ctx: Context, zone: ZoneLookup, listed: Fetched<seq<RecordSet>>): (r: Reply)
    ensures zone.ZoneFailed? ==> r == Replied(Some(zone.err), PText(ListFailure(ctx)))
    ensures zone.ZoneFound? && listed.FetchError? ==> r == Replied(Some(listed.err), PText(ListFailure(ctx)))
    ensures r.Replied? && r.err.None? ==>
              (zone.ZoneFound? && listed.Fetched? && r.data.PGateways?
               && ListedGateways(ctx, zone.zone, listed.value) == Ok(r.data.gateways))
    ensures r.Threw? ==> zone.ZoneFound? && listed.Fetched? && ListedGateways(ctx, zone.zone, listed.value).Throws?
    ensures zone.ZoneFound? && listed.Fetched? ==>
              match ListedGateways(ctx, zone.zone, listed.value)
              case Ok(gs) => r == Replied(None, PGateways(gs))
              case Throws(m) => r == Threw(m)
    ensures !r.Silent?
  {
    match zone
    case ZoneFailed(e) => Replied(Some(e), PText(ListFailure(ctx)))
    case ZoneFound(z) =>
      match listed
      case FetchError(e) => Replied(Some(e), PText(ListFailure(ctx)))
      case Fetched(records) =>
        match ListedGateways(ctx, z, records)
        case Throws(m) => Threw(m)
        case Ok(gs) => Replied(None, PGateways(gs))
  }

  /**
   * Every gateway listed comes from a BlueGreen TXT record of the zone whose
   * metadata parses, carries that zone, and, when the context names a
   * service, belongs to that service.
   */
  lemma ListedGatewaysAreDescribed(ctx: Context, zone: HostedZone, records: seq<RecordSet>, i: nat)
    requires ListedGateways(ctx, zone, records).Ok? && i < |ListedGateways(ctx, zone, records).value|
    ensures var g := ListedGateways(ctx, zone, records).value[i];
            && (exists txt :: txt in records && IsBlueGreenTxt(txt) == Ok(true) && g.recordName == txt.name
                  && Dehydrate(txt).Ok? && Dehydrate(txt).value.Some? && g.name == Dehydrate(txt).value.value.gateway)
            && g.zone == Some(zone.id) && g.root == Some(zone.name)
            && (Given(ctx.service) ==> g.service == Some(Json.JStr(ctx.service.value)))
  {
    var pairs := Merged(records).value;
    var ds := DescribeAll(pairs, zone).value;
    var fs := ForService(ctx, ds);
    var g := ListedGateways(ctx, zone, records).value[i];
    assert GatewayOf(fs[i]) == Ok(g);
    assert fs[i] in ds;
    DescribeAllSound(pairs, zone, fs[i]);
    var j :| 0 <= j < |pairs| && pairs[j] == fs[i].pair;
  }

  /** With no service in the context, every BlueGreen gateway of the zone is listed, paired with its A record. */
  lemma UnfilteredListsEveryGateway(ctx: Context, zone: HostedZone, records: seq<RecordSet>, txt: RecordSet)
    requires !Given(ctx.service)
    requires ListedGateways(ctx, zone, records).Ok?
    requires txt in records && IsBlueGreenTxt(txt) == Ok(true) && Dehydrate(txt).Ok? && Dehydrate(txt).value.Some?
    ensures var meta := Dehydrate(txt).value.value;
            GatewayOf(Described(PairWithA(records, txt), zone, meta)).Ok?
            && GatewayOf(Described(PairWithA(records, txt), zone, meta)).value in ListedGateways(ctx, zone, records).value
  {
    var pairs := Merged(records).value;
    var ts := MarkedTxtRecords(records).value;
    assert txt in ts;
    var k :| 0 <= k < |ts| && ts[k] == txt;
    assert pairs[k] == PairWithA(records, txt);
    var ds := DescribeAll(pairs, zone).value;
    var meta := Dehydrate(txt).value.value;
    var d := Described(PairWithA(records, txt), zone, meta);
    DescribeAllComplete(pairs, zone, PairWithA(records, txt));
    var m :| 0 <= m < |ds| && ds[m] == d;
    var gs := ListedGateways(ctx, zone, records).value;
    assert GatewayOf(ds[m]) == Ok(gs[m]);
  }

  // ---------------------------------------------------------------------
  // createGatewayForService / attachEnvironmentToGateway
  // ---------------------------------------------------------------------

  datatype Action = Create | Upsert

  /** One change of a change batch. */
  datatype Change =
    | TxtChange(action: Action, txt: RecordSet)
    | DnsChange(action: Action, dns: DnsRecord)

  /** `changeResourceRecordSets({ChangeBatch: {Changes}, HostedZoneId})`. */
  datatype ChangeBatch = ChangeBatch(zoneId: string, changes: seq<Change>)

  /** What a handler sent to Route 53, if anything, and how it called back. */
  datatype Handled = Handled(sent: Option<ChangeBatch>, reply: Reply)

  /** `x === y` between a context value and a value read from metadata. */
  predicate SameValue(want: Option<string>, got: Option<Json.Value>) {
    got == Stored(want)
  }

  /** A gateway with the context's service and gateway name. */
  predicate Names(ctx: Context, g: Gateway) {
    SameValue(ctx.service, g.service) && SameValue(ctx.gateway, g.name)
  }

  /** `_.find(gateways, g => context.service === g.service && context.gateway === g.name)`. */
  function FindGateway(ctx: Context, gs: seq<Gateway>): (r: Option<nat>)
    ensures r.Some? ==> r.value < |gs| && Names(ctx, gs[r.value])
    ensures forall j :: 0 <= j < |gs| && (r.None? || j < r.value) ==> !Names(ctx, gs[j])
  {
    if gs == [] then None
    else if Names(ctx, gs[0]) then Some(0)
    else match FindGateway(ctx, gs[1..])
      case None => None
      case Some(k) => Some(k + 1)
  }

  /** The gateways a listing called back with (`undefined` finds nothing). */
  function GatewaysOf(p: Payload): seq<Gateway> {
    if p.PGateways? then p.gateways else []
  }

  const LookupBeforeCreateFailed := "An error occurred looking up Gateway information preventing Gateway creation."

  function CreateFailure(ctx: Context): string {
    "Could not create gateway '" + Show(ctx.gateway) + "' for service '" + Show(ctx.service) + "'."
  }

  /** The gateway `transformGateway` makes of a freshly created TXT record. */
  function CreatedGateway(zone: HostedZone, ctx: Context): Gateway {
    var txt := BuildTxtRecord(zone.name, ctx);
    TransformGateway(txt.name, Stored(ctx.gateway), Stored(ctx.service), None, Some(zone.id), None, None).value
  }

  /**
   * `createGatewayForService(app, context, callback)`. `listed` is how the
   * listing called back, `zone` the second zone lookup, `changed` the
   * outcome of the change batch.
   */
  function CreateGatewayForService(ctx: Context, listed: Reply, zone: ZoneLookup, changed: Option<Err>): (h: Handled)
    // a failed listing is reported before anything is sent
    ensures listed.Replied? && ErrTruthy(listed.err) ==>
              h == Handled(None, Replied(listed.err, PText(LookupBeforeCreateFailed)))
    // an existing gateway of the same service and name is returned, and nothing is created
    ensures listed.Replied? && !ErrTruthy(listed.err) && FindGateway(ctx, GatewaysOf(listed.data)).Some? ==>
              h == Handled(None, Replied(None, PExisting(GatewaysOf(listed.data)[FindGateway(ctx, GatewaysOf(listed.data)).value])))
    // only a gateway not yet listed is created, by one CREATE of its TXT record in the zone found
    ensures h.sent.Some? ==>
              && listed.Replied? && !ErrTruthy(listed.err)
              && FindGateway(ctx, GatewaysOf(listed.data)).None? && zone.ZoneFound?
              && h.sent.value == ChangeBatch(zone.zone.id, [TxtChange(Create, BuildTxtRecord(zone.zone.name, ctx))])
    ensures h.sent.Some? && !ErrTruthy(changed) ==> h.reply == Replied(None, PGateway(CreatedGateway(zone.zone, ctx)))
    ensures h.sent.Some? && ErrTruthy(changed) ==> h.reply == Replied(changed, PText(CreateFailure(ctx)))
    // a gateway not yet listed is created exactly when the zone is found; a failed zone lookup is reported
    ensures listed.Replied? && !ErrTruthy(listed.err) && FindGateway(ctx, GatewaysOf(listed.data)).None? ==>
              && (h.sent.Some? <==> zone.ZoneFound?)
              && (zone.ZoneFailed? ==> h.reply == Replied(Some(zone.err), PText(CreateFailure(ctx))))
    // a listing that throws or never calls back is passed on, and nothing is sent
    ensures !listed.Replied? ==> h == Handled(None, listed)
  {
    match listed
    case Threw(m) => Handled(None, Threw(m))
    case Silent => Handled(None, Silent)
    case Replied(err, data) =>
      if ErrTruthy(err) then Handled(None, Replied(err, PText(LookupBeforeCreateFailed)))
      else
        var gs := GatewaysOf(data);
        match FindGateway(ctx, gs)
        case Some(i) => Handled(None, Replied(None, PExisting(gs[i])))
        case None =>
          match zone
          case ZoneFailed(e) => Handled(None, Replied(Some(e), PText(CreateFailure(ctx))))
          case ZoneFound(z) =>
            var batch := ChangeBatch(z.id, [TxtChange(Create, BuildTxtRecord(z.name, ctx))]);
            if ErrTruthy(changed) then Handled(Some(batch), Replied(changed, PText(CreateFailure(ctx))))
            else Handled(Some(batch), Replied(None, PGateway(CreatedGateway(z, ctx))))
  }

  /** The created gateway is the one a later listing finds: same service, same name. */
  lemma CreatedGatewayIsNamed(zone: HostedZone, ctx: Context)
    ensures Names(ctx, CreatedGateway(zone, ctx))
    ensures CreatedGateway(zone, ctx).recordName == TxtPrefix + RecordName(zone.name, ctx)
  {
  }

  /** A lone BlueGreen TXT record pairs with no A record. */
  lemma MergedSingle(txt: RecordSet)
    requires IsBlueGreenTxt(txt) == Ok(true) && txt.rtype == "TXT"
    ensures Merged([txt]) == Ok([Paired(txt, None)])
  {
    assert [txt][0] == txt && [txt][1..] == [];
    assert MarkedTxtRecords([]) == Ok([]);
    assert [txt] + [] == [txt];
    assert MarkedTxtRecords([txt]) == Ok([txt]);
    assert !IsAFor(txt, GatewayName(txt));
    assert FirstA([txt], GatewayName(txt)) == None;
    assert PairWithA([txt], txt) == Paired(txt, None);
    var ts := [txt];
    assert seq(|ts|, i requires 0 <= i < |ts| => PairWithA([txt], ts[i])) == [Paired(txt, None)];
  }

  /** A lone pair whose metadata parses is kept with that metadata. */
  lemma DescribedSingle(p: Paired, zone: HostedZone, d: Described)
    requires Describe(p, zone) == Ok(Some(d))
    ensures DescribeAll([p], zone) == Ok([d])
  {
    assert [p][0] == p && [p][1..] == [];
    assert DescribeAll([], zone) == Ok([]);
    assert [d] + [] == [d];
  }

  /** A lone description of the context's service survives the service filter. */
  lemma ForServiceSingle(ctx: Context, d: Described)
    requires d.meta.service == Stored(ctx.service)
    ensures ForService(ctx, [d]) == [d]
  {
    assert [d][1..] == [];
  }

  /** A listing of one BlueGreen TXT record of the context's service gives that record's gateway. */
  lemma ListingOfOne(ctx: Context, zone: HostedZone, txt: RecordSet, meta: Metadata)
    requires IsBlueGreenTxt(txt) == Ok(true) && txt.rtype == "TXT"
    requires Dehydrate(txt) == Ok(Some(meta)) && meta.service == Stored(ctx.service)
    ensures GatewayOf(Described(Paired(txt, None), zone, meta)).Ok?
    ensures ListedGateways(ctx, zone, [txt]) == Ok([GatewayOf(Described(Paired(txt, None), zone, meta)).value])
  {
    MergedSingle(txt);
    var p := Paired(txt, None);
    var d := Described(p, zone, meta);
    assert Describe(p, zone) == Ok(Some(d));
    DescribedSingle(p, zone, d);
    ForServiceSingle(ctx, d);
    assert [d][0] == d && [d][1..] == [];
    assert TransformAll([]) == Ok([]);
    assert [GatewayOf(d).value] + [] == [GatewayOf(d).value];
  }

  /** A listing of the zone holding only the record a creation sends finds the created gateway. */
  lemma ListingFindsCreated(zone: HostedZone, ctx: Context)
    ensures var listed := ListedGateways(ctx, zone, [BuildTxtRecord(zone.name, ctx)]);
            listed.Ok? && |listed.value| == 1 && Names(ctx, listed.value[0])
            && listed.value[0].recordName == CreatedGateway(zone, ctx).recordName
  {
    var txt := BuildTxtRecord(zone.name, ctx);
    BuiltTxtIsMarked(zone.name, ctx);
    MetadataRoundTrip(zone.name, ctx);
    var meta := Dehydrate(txt).value.value;
    ListingOfOne(ctx, zone, txt, meta);
  }

  /**
   * Creating a gateway twice sends one change: once the created record is
   * listed, a second creation returns the existing gateway and sends nothing.
   */
  lemma CreateTwiceSendsOnce(zone: HostedZone, ctx: Context, changed: Option<Err>)
    ensures var listed := ListGateways(ctx, ZoneFound(zone), Fetched([BuildTxtRecord(zone.name, ctx)]));
            var h := CreateGatewayForService(ctx, listed, ZoneFound(zone), changed);
            h.sent.None? && h.reply.Replied? && h.reply.data.PExisting?
            && Names(ctx, h.reply.data.gateway)
  {
    ListingFindsCreated(zone, ctx);
  }

  /** `_.find(environments, e => e.name === context.environment && e.service === context.service)`. */
  function FindEnvironment(ctx: Context, es: seq<Environment>): (r: Option<nat>)
    ensures r.Some? ==> r.value < |es| && ctx.environment == Some(es[r.value].name) && IsService(es[r.value].service, ctx.service)
    ensures forall j :: 0 <= j < |es| && (r.None? || j < r.value) ==>
              !(ctx.environment == Some(es[j].name) && IsService(es[j].service, ctx.service))
  {
    if es == [] then None
    else if ctx.environment == Some(es[0].name) && IsService(es[0].service, ctx.service) then Some(0)
    else match FindEnvironment(ctx, es[1..])
      case None => None
      case Some(k) => Some(k + 1)
  }

  /** The environments a request called back with (`undefined` finds nothing). */
  function EnvironmentsOf(p: Payload): seq<Environment> {
    if p.PEnvironments? then p.environments else []
  }

  function AttachFailure(ctx: Context): string {
    "Could not attach gateway '" + Show(ctx.gateway) + "' to environment '" + Show(ctx.environment)
    + "' for service '" + Show(ctx.service) + "'."
  }

  function AttachSuccess(ctx: Context): string {
    "Successfully attached gateway '" + Show(ctx.gateway) + "' to environment '" + Show(ctx.environment)
    + "' for service '" + Show(ctx.service) + "'."
  }

  /** The first error of the three lookups, taken in the order gateways, environments, zone. */
  function FirstFailure(gateways: Reply, environments: Reply, zone: ZoneLookup): (e: Option<Err>)
    ensures e.Some? <==> (gateways.Replied? && ErrTruthy(gateways.err)) || (environments.Replied? && ErrTruthy(environments.err))
                         || zone.ZoneFailed?
    ensures gateways.Replied? && ErrTruthy(gateways.err) ==> e == gateways.err
    ensures !(gateways.Replied? && ErrTruthy(gateways.err)) && environments.Replied? && ErrTruthy(environments.err) ==>
              e == environments.err
  {
    if gateways.Replied? && ErrTruthy(gateways.err) then gateways.err
    else if environments.Replied? && ErrTruthy(environments.err) then environments.err
    else if zone.ZoneFailed? then Some(zone.err)
    else None
  }

  /**
   * `attachEnvironmentToGateway(app, context, callback)`. `gateways` is how
   * the listing called back, `environments` how the environments request
   * did, `zone` the zone lookup and `changed` the outcome of the change batch.
   */
  function AttachEnvironmentToGateway(ctx: Context, gateways: Reply, environments: Reply, zone: ZoneLookup,
                                      changed: Option<Err>): (h: Handled)
    // a missing gateway or environment is refused before anything is sent
    ensures gateways.Replied? && environments.Replied? && FirstFailure(gateways, environments, zone).None?
            && FindGateway(ctx, GatewaysOf(gateways.data)).None? ==>
              h == Handled(None, Replied(Some(ErrorObj("Gateway '" + Show(ctx.gateway) + "' does not exist.")),
                                         PText(AttachFailure(ctx))))
    ensures gateways.Replied? && environments.Replied? && FirstFailure(gateways, environments, zone).None?
            && FindGateway(ctx, GatewaysOf(gateways.data)).Some?
            && FindEnvironment(ctx, EnvironmentsOf(environments.data)).None? ==>
              h == Handled(None, Replied(Some(ErrorObj("Environment '" + Show(ctx.environment) + "' does not exist.")),
                                         PText(AttachFailure(ctx))))
    // otherwise one batch of two UPSERTs: the TXT record, then the record pointing at the environment
    ensures h.sent.Some? ==>
              && gateways.Replied? && environments.Replied? && FirstFailure(gateways, environments, zone).None?
              && FindGateway(ctx, GatewaysOf(gateways.data)).Some?
              && FindEnvironment(ctx, EnvironmentsOf(environments.data)).Some?
              && h.sent.value == ChangeBatch(zone.zone.id, [
                   TxtChange(Upsert, BuildTxtRecord(zone.zone.name, ctx)),
                   DnsChange(Upsert, BuildDnsRecord(zone.zone.name, ctx,
                     EnvironmentsOf(environments.data)[FindEnvironment(ctx, EnvironmentsOf(environments.data)).value]))])
    ensures gateways.Replied? && environments.Replied? && FirstFailure(gateways, environments, zone).None?
            && FindGateway(ctx, GatewaysOf(gateways.data)).Some?
            && FindEnvironment(ctx, EnvironmentsOf(environments.data)).Some? ==>
              h.sent.Some?
    ensures h.sent.Some? ==>
              h.reply == if ErrTruthy(changed) then Replied(changed, PText(AttachFailure(ctx)))
                         else Replied(None, PText(AttachSuccess(ctx)))
    // a throw of a lookup escapes; otherwise one lookup's error ends the collection, even while another is silent
    ensures gateways.Threw? ==> h == Handled(None, gateways)
    ensures !gateways.Threw? && environments.Threw? ==> h == Handled(None, environments)
    ensures !gateways.Threw? && !environments.Threw? && FirstFailure(gateways, environments, zone).Some? ==>
              h == Handled(None, Replied(FirstFailure(gateways, environments, zone), PText(AttachFailure(ctx))))
    ensures !gateways.Threw? && !environments.Threw? && (gateways.Silent? || environments.Silent?)
            && FirstFailure(gateways, environments, zone).None? ==>
              h == Handled(None, Silent)
  {
    if gateways.Threw? then Handled(None, gateways)
    else if environments.Threw? then Handled(None, environments)
    else match FirstFailure(gateways, environments, zone)
      case Some(e) => Handled(None, Replied(Some(e), PText(AttachFailure(ctx))))
      case None =>
        if gateways.Silent? || environments.Silent? then Handled(None, Silent) else
        var gs, es := GatewaysOf(gateways.data), EnvironmentsOf(environments.data);
        match FindGateway(ctx, gs)
        case None =>
          Handled(None, Replied(Some(ErrorObj("Gateway '" + Show(ctx.gateway) + "' does not exist.")), PText(AttachFailure(ctx))))
        case Some(_) =>
          match FindEnvironment(ctx, es)
          case None =>
            Handled(None, Replied(Some(ErrorObj("Environment '" + Show(ctx.environment) + "' does not exist.")),
                                  PText(AttachFailure(ctx))))
          case Some(j) =>
            var batch := ChangeBatch(zone.zone.id, [
              TxtChange(Upsert, BuildTxtRecord(zone.zone.name, ctx)),
              DnsChange(Upsert, BuildDnsRecord(zone.zone.name, ctx, es[j]))]);
            if ErrTruthy(changed) then Handled(Some(batch), Replied(changed, PText(AttachFailure(ctx))))
            else Handled(Some(batch), Replied(None, PText(AttachSuccess(ctx))))
  }

  /**
   * An attachment that is sent writes a TXT record naming the context's
   * gateway, service and environment, and beside it a record of the name the
   * TXT record pairs with, pointing at the environment found.
   */
  lemma AttachSendsPairedRecords(ctx: Context, gateways: Reply, environments: Reply, zone: ZoneLookup,
                                 changed: Option<Err>)
    requires AttachEnvironmentToGateway(ctx, gateways, environments, zone, changed).sent.Some?
    ensures var b := AttachEnvironmentToGateway(ctx, gateways, environments, zone, changed).sent.value;
            |b.changes| == 2 && b.changes[0].TxtChange? && b.changes[1].DnsChange?
            && GatewayName(b.changes[0].txt) == b.changes[1].dns.name
            && Dehydrate(b.changes[0].txt) ==
                 Ok(Some(Metadata(Stored(ctx.gateway), Stored(ctx.service),
                                  if Given(ctx.environment) then Json.JStr(ctx.environment.value) else Json.JNull)))
            && exists e :: e in EnvironmentsOf(environments.data) && e.name == ctx.environment.value
                           && b.changes[1].dns == BuildDnsRecord(zone.zone.name, ctx, e)
  {
    var es := EnvironmentsOf(environments.data);
    var j := FindEnvironment(ctx, es).value;
    DnsRecordPairsWithTxt(zone.zone.name, ctx, es[j]);
    MetadataRoundTrip(zone.zone.name, ctx);
  }

  // ---------------------------------------------------------------------
  // register
  // ---------------------------------------------------------------------

  /**
   * `register(app, callback)` calls `app.registerRequestHandler`, which the
   * orchestrator does not define, so it throws before calling back.
   */
  function Register(): (r: Registration)
    ensures r == RegisterThrew("TypeError: bluegreen.registerRequestHandler is not a function")
  {
    RegisterThrew("TypeError: bluegreen.registerRequestHandler is not a function")
  }
}
