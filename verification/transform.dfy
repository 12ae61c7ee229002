/**
 The record transformer of the migration step (`transform_community_data`):
 a pure mapping from one parsed payload and its URL to the destination
 document. The clock is a parameter: `stamp` carries the date and the full
 timestamp that the source reads from `datetime.now()`.
 */
module Transform {
  import opened Values
  import opened Ascii
  import opened Community

  /** The closed set of canonical pricing models. */
  datatype Pricing = Free | Freemium | Paid {
    function Name(): string {
      match this
      case Free => "FREE"
      case Freemium => "FREEMIUM"
      case Paid => "PAID"
    }
  }

  predicate IsPricingName(s: string) {
    s == "FREE" || s == "FREEMIUM" || s == "PAID"
  }

  /** What Python raises while transforming: `.get` on a payload that is not
      an object, or `.upper()` on a truthy pricing model that is not a string. */
  datatype TransformError = NotAnObject | PricingNotAString

  /** `date` is a `%Y-%m-%d` date and `timestamp` an ISO-8601 timestamp. The
      source reads the clock once for each, so the two may come from
      different instants; nothing here relates them. */
  datatype Stamp = Stamp(date: string, timestamp: string)

  /** The destination document. Fields copied from the payload stay dynamic
      values; the derived and pipeline-managed fields are typed. */
  datatype Document = Document(
    name: Json,
    description: Json,
    website: Json,
    tags: Json,
    focusAreas: Json,
    country: Json,
    city: Json,
    language: Json,
    contactEmail: Json,
    isVirtual: bool,
    socialLinks: Json,
    communityInfo: Json,
    pricingModel: Option<Pricing>,
    topicsSupported: seq<Json>,
    audienceType: seq<Json>,
    eventTypes: seq<Json>,
    yearFounded: Json,
    verified: bool,
    embedding: seq<Json>,
    dataSource: string,
    createdAt: string,
    updatedAt: string,
    lastVerifiedAt: string,
    memberCount: Json)

  /** Fields reserved for later enrichment stages, always at their neutral value. */
  predicate ReservedFieldsNeutral(d: Document) {
    && d.topicsSupported == []
    && d.audienceType == []
    && d.eventTypes == []
    && d.embedding == []
    && d.yearFounded == JNull
    && !d.verified
  }

  /** Language collapsing: a list becomes its first element (null when empty);
      any other falsy value becomes null; any other truthy value is kept. */
  function CollapseLanguage(v: Json): (r: Json)
    ensures v.JList? ==> (r == JNull <==> v.items == [] || v.items[0] == JNull)
    ensures v.JList? && v.items != [] ==> r == v.items[0]
    ensures !v.JList? ==> (r == JNull <==> !Truthy(v))
    ensures !v.JList? && Truthy(v) ==> r == v
  {
    if v.JList? then
      (if v.items != [] then v.items[0] else JNull)
    else if !Truthy(v) then JNull
    else v
  }

  /** Pricing canonicalisation. A falsy value (null, missing, "", 0, ...) gives
      no pricing model; a truthy non-string fails; a string is upper-cased and
      kept when canonical, else becomes FREE when it mentions "free" in any
      case, else PAID. */
  function NormalizePricing(v: Json): (r: Result<Option<Pricing>, TransformError>)
    ensures r.Err? <==> Truthy(v) && !v.JStr?
    ensures r == Ok(None) <==> !Truthy(v)
    ensures r.Ok? && r.value.Some? ==> v.JStr? && v.s != ""
  {
    if !Truthy(v) then Ok(None)
    else if !v.JStr? then Err(PricingNotAString)
    else
      var u := Upper(v.s);
      if u == "FREE" then Ok(Some(Free))
      else if u == "FREEMIUM" then Ok(Some(Freemium))
      else if u == "PAID" then Ok(Some(Paid))
      else if Contains(Lower(u), "free") then Ok(Some(Free))
      else Ok(Some(Paid))
  }

  /** `sqlite_data.get("focus_areas") or ""` */
  function FocusAreasOrEmpty(v: Json): (r: Json)
    ensures r != JNull && Truthy(r) == Truthy(v)
    ensures Truthy(v) ==> r == v
    ensures !Truthy(v) ==> r == JStr("")
  {
    if Truthy(v) then v else JStr("")
  }

  /** The whole transformation. It fails only when the payload is not an
      object or its pricing model cannot be upper-cased; on success the
      pipeline-managed fields are fixed by `url` and `stamp` alone. */
  function TransformRecord(v: Json, url: string, stamp: Stamp): (r: Result<Document, TransformError>)
    ensures r.Err? <==>
              || !v.JObject?
              || (Truthy(GetOrNull(v.fields, "pricing_model")) && !GetOrNull(v.fields, "pricing_model").JStr?)
    ensures r.Ok? ==> ReservedFieldsNeutral(r.value)
    ensures r.Ok? ==> r.value.dataSource == url
    ensures r.Ok? ==> r.value.createdAt == r.value.updatedAt == stamp.date
    ensures r.Ok? ==> r.value.lastVerifiedAt == stamp.timestamp
    ensures r.Ok? ==> r.value.focusAreas != JNull
    ensures r.Ok? ==> NormalizePricing(GetOrNull(v.fields, "pricing_model")) == Ok(r.value.pricingModel)
    ensures r.Ok? ==> && r.value.description == GetOrNull(v.fields, "description")
                      && r.value.country == GetOrNull(v.fields, "country")
                      && r.value.city == GetOrNull(v.fields, "city")
                      && r.value.contactEmail == GetOrNull(v.fields, "contact_email")
                      && r.value.memberCount == GetOrNull(v.fields, "member_count")
  {
    if !v.JObject? then Err(NotAnObject)
    else
      var d := v.fields;
      var language := CollapseLanguage(GetOrNull(d, "language"));
      var isVirtual := GetOrNull(d, "country") == JNull && GetOrNull(d, "city") == JNull;
      match NormalizePricing(GetOrNull(d, "pricing_model"))
      case Err(e) => Err(e)
      case Ok(pricing) =>
        Ok(Document(
             name := Get(d, "name", JStr("")),
             description := GetOrNull(d, "description"),
             website := Get(d, "website", JStr(url)),
             tags := Get(d, "tags", JList([])),
             focusAreas := FocusAreasOrEmpty(GetOrNull(d, "focus_areas")),
             country := GetOrNull(d, "country"),
             city := GetOrNull(d, "city"),
             language := language,
             contactEmail := GetOrNull(d, "contact_email"),
             isVirtual := isVirtual,
             socialLinks := Get(d, "social_links", JObject(map[])),
             communityInfo := Get(d, "community_info", JObject(map[])),
             pricingModel := pricing,
             topicsSupported := [],
             audienceType := [],
             eventTypes := [],
             yearFounded := JNull,
             verified := false,
             embedding := [],
             dataSource := url,
             createdAt := stamp.date,
             updatedAt := stamp.date,
             lastVerifiedAt := stamp.timestamp,
             memberCount := GetOrNull(d, "member_count")))
  }

  /** Absent means a missing key or an explicit null. */
  predicate Absent(d: map<string, Json>, key: string) {
    key !in d || d[key] == JNull
  }

  /** A community is virtual exactly when it has neither a country nor a city;
      any present value, even "Global" or "", makes it non-virtual. */
  lemma VirtualIffNoLocation(v: Json, url: string, stamp: Stamp)
    requires TransformRecord(v, url, stamp).Ok?
    ensures TransformRecord(v, url, stamp).value.isVirtual <==>
              Absent(v.fields, "country") && Absent(v.fields, "city")
  {
  }

  /** The language field as a function of the stored `language` value. */
  lemma LanguageCollapsed(v: Json, url: string, stamp: Stamp)
    requires TransformRecord(v, url, stamp).Ok?
    ensures var lang := GetOrNull(v.fields, "language");
            var r := TransformRecord(v, url, stamp).value.language;
            && (lang.JList? && lang.items != [] ==> r == lang.items[0])
            && (lang.JList? && lang.items == [] ==> r == JNull)
            && (!lang.JList? && !Truthy(lang) ==> r == JNull)
            && (!lang.JList? && Truthy(lang) ==> r == lang)
  {
  }

  /** The five pricing rules, stated on the original text: canonical names
      in any case are kept, anything else mentioning "free" in any case is
      FREE, the rest is PAID, and the empty string gives none. */
  lemma PricingRules(s: string)
    ensures s == "" ==> NormalizePricing(JStr(s)) == Ok(None)
    ensures Upper(s) == "FREE" ==> NormalizePricing(JStr(s)) == Ok(Some(Free))
    ensures Upper(s) == "FREEMIUM" ==> NormalizePricing(JStr(s)) == Ok(Some(Freemium))
    ensures Upper(s) == "PAID" ==> NormalizePricing(JStr(s)) == Ok(Some(Paid))
    ensures s != "" && !IsPricingName(Upper(s)) && Contains(Lower(s), "free") ==>
              NormalizePricing(JStr(s)) == Ok(Some(Free))
    ensures s != "" && !IsPricingName(Upper(s)) && !Contains(Lower(s), "free") ==>
              NormalizePricing(JStr(s)) == Ok(Some(Paid))
  {
    LowerOfUpper(s);
  }

  /** A canonical pricing model is a fixed point of canonicalisation. */
  lemma PricingIdempotent(v: Json)
    requires NormalizePricing(v).Ok? && NormalizePricing(v).value.Some?
    ensures var p := NormalizePricing(v).value.value;
            NormalizePricing(JStr(p.Name())) == Ok(Some(p))
  {
    var p := NormalizePricing(v).value.value;
    match p
    case Free => assert Upper("FREE") == "FREE";
    case Freemium => assert Upper("FREEMIUM") == "FREEMIUM";
    case Paid => assert Upper("PAID") == "PAID";
  }

  /** `dict.get(key, default)` semantics for the defaulted fields: the
      default applies only to a missing key; a present null is copied. */
  lemma DefaultsOnlyForMissingKeys(v: Json, url: string, stamp: Stamp)
    requires TransformRecord(v, url, stamp).Ok?
    ensures var d := v.fields;
            var r := TransformRecord(v, url, stamp).value;
            && r.name == (if "name" in d then d["name"] else JStr(""))
            && r.website == (if "website" in d then d["website"] else JStr(url))
            && r.tags == (if "tags" in d then d["tags"] else JList([]))
            && r.socialLinks == (if "social_links" in d then d["social_links"] else JObject(map[]))
            && r.communityInfo == (if "community_info" in d then d["community_info"] else JObject(map[]))
            && r.focusAreas == (if "focus_areas" in d && Truthy(d["focus_areas"]) then d["focus_areas"] else JStr(""))
  {
  }

  /** Apart from the three clock-derived fields, the output depends only on
      the payload and the URL. */
  lemma TransformDeterministic(v: Json, url: string, s1: Stamp, s2: Stamp)
    ensures TransformRecord(v, url, s1).Ok? <==> TransformRecord(v, url, s2).Ok?
    ensures TransformRecord(v, url, s1).Ok? ==>
              TransformRecord(v, url, s1).value.(createdAt := s2.date, updatedAt := s2.date,
                                                 lastVerifiedAt := s2.timestamp)
              == TransformRecord(v, url, s2).value
  {
  }

  /** Every payload the enrichment agent can produce transforms without
      error; the copied fields keep the agent's values and the URL becomes
      the data source. */
  lemma EnrichedPayloadTransforms(c: CommunityInfo, url: string, stamp: Stamp)
    ensures TransformRecord(ToJson(c), url, stamp).Ok?
    ensures var r := TransformRecord(ToJson(c), url, stamp).value;
            && r.name == JStr(c.name)
            && r.website == JStr(c.website)
            && r.dataSource == url
  {
    ToJsonFields(c);
  }

  /** For an agent payload, virtual means the agent found neither country nor city. */
  lemma EnrichedPayloadVirtual(c: CommunityInfo, url: string, stamp: Stamp)
    ensures TransformRecord(ToJson(c), url, stamp).Ok?
    ensures TransformRecord(ToJson(c), url, stamp).value.isVirtual <==> c.country.None? && c.city.None?
  {
    ToJsonFields(c);
  }

  /** For an agent payload, only the first of the detected languages survives. */
  lemma EnrichedPayloadLanguage(c: CommunityInfo, url: string, stamp: Stamp)
    ensures TransformRecord(ToJson(c), url, stamp).Ok?
    ensures var r := TransformRecord(ToJson(c), url, stamp).value;
            && (c.language.None? ==> r.language == JNull)
            && (c.language.Some? && c.language.value != [] ==> r.language == JStr(c.language.value[0]))
            && (c.language.Some? && c.language.value == [] ==> r.language == JNull)
  {
    ToJsonFields(c);
  }

  /** For an agent payload, a pricing model is produced unless none or "" was found. */
  lemma EnrichedPayloadPricing(c: CommunityInfo, url: string, stamp: Stamp)
    ensures TransformRecord(ToJson(c), url, stamp).Ok?
    ensures TransformRecord(ToJson(c), url, stamp).value.pricingModel.None? <==>
              c.pricingModel.None? || c.pricingModel == Some("")
  {
    ToJsonFields(c);
  }

  lemma FreeExample()
    ensures NormalizePricing(JStr("free")) == Ok(Some(Free))
  {
    assert Upper("free") == "FREE";
  }

  lemma FreemiumExample()
    ensures NormalizePricing(JStr("Freemium")) == Ok(Some(Freemium))
  {
    assert Upper("Freemium") == "FREEMIUM";
  }

  /** Not canonical once upper-cased, but mentions "free". */
  lemma FreemiumPlanExample()
    ensures NormalizePricing(JStr("Freemium Plan")) == Ok(Some(Free))
  {
    var u := Upper("Freemium Plan");
    assert u[8] == ' ';
    assert u != "FREE" && u != "FREEMIUM" && u != "PAID";
    assert Lower(u)[..4] == "free";
    assert OccursAt(Lower(u), "free", 0);
  }

  lemma SubscriptionExample()
    ensures NormalizePricing(JStr("Subscription")) == Ok(Some(Paid))
  {
    var u := Upper("Subscription");
    assert u[0] == 'S';
    assert u != "FREE" && u != "FREEMIUM" && u != "PAID";
    var l := Lower(u);
    assert l == "subscription";
    assert !Contains(l, "free") by {
      forall i | 0 <= i <= |l| - 4
        ensures !OccursAt(l, "free", i)
      {
        assert l[i..i + 4][0] == l[i];
      }
    }
  }
}
