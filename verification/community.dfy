/**
 The structured payload the enrichment agent returns for one community
 (the `CommunityInfo` model), and the JSON object its serialisation parses
 back into. The agent itself, its prompt and its page fetch are not part of
 this model; the tag vocabulary is only requested in the prompt and never
 enforced, so `tags` is free text here.
 */
module Community {
  import opened Values

  datatype CommunityInfo = CommunityInfo(
    name: string,
    description: string,
    shortDescription: string,
    tags: seq<string>,
    website: string,
    country: Option<string>,
    city: Option<string>,
    language: Option<seq<string>>,
    contactEmail: Option<string>,
    socialLinks: map<string, string>,
    communityInfo: map<string, Json>,
    memberCount: Option<int>,
    pricingModel: Option<string>,
    focusAreas: Option<string>)

  function OptStr(o: Option<string>): Json {
    match o
    case None => JNull
    case Some(s) => JStr(s)
  }

  function StrList(xs: seq<string>): (j: Json)
    ensures j.JList? && |j.items| == |xs|
    ensures forall i :: 0 <= i < |xs| ==> j.items[i] == JStr(xs[i])
  {
    JList(seq(|xs|, i requires 0 <= i < |xs| => JStr(xs[i])))
  }

  /** The value the serialised payload holds under one of its keys. */
  function FieldValue(c: CommunityInfo, key: string): Json {
    if key == "name" then JStr(c.name)
    else if key == "website" then JStr(c.website)
    else if key == "country" then OptStr(c.country)
    else if key == "city" then OptStr(c.city)
    else if key == "language" then
      (match c.language
       case None => JNull
       case Some(l) => StrList(l))
    else if key == "pricing_model" then OptStr(c.pricingModel)
    else if key == "description" then JStr(c.description)
    else if key == "short_description" then JStr(c.shortDescription)
    else if key == "tags" then StrList(c.tags)
    else if key == "contact_email" then OptStr(c.contactEmail)
    else if key == "social_links" then JObject(map k | k in c.socialLinks :: JStr(c.socialLinks[k]))
    else if key == "community_info" then JObject(c.communityInfo)
    else if key == "member_count" then
      (match c.memberCount
       case None => JNull
       case Some(n) => JInt(n))
    else OptStr(c.focusAreas)
  }

  /** The JSON object a `CommunityInfo` serialises to: every field is present
      as a key, and an absent optional value is an explicit null. */
  function ToJson(c: CommunityInfo): (j: Json)
    ensures j.JObject?
    ensures forall k :: k in FieldNames() <==> k in j.fields
  {
    JObject(map k | k in FieldNames() :: FieldValue(c, k))
  }

  /** The value each key of the serialised payload holds. */
  lemma ToJsonFields(c: CommunityInfo)
    ensures "name" in ToJson(c).fields && ToJson(c).fields["name"] == JStr(c.name)
    ensures "website" in ToJson(c).fields && ToJson(c).fields["website"] == JStr(c.website)
    ensures "country" in ToJson(c).fields && ToJson(c).fields["country"] == OptStr(c.country)
    ensures "city" in ToJson(c).fields && ToJson(c).fields["city"] == OptStr(c.city)
    ensures "language" in ToJson(c).fields &&
            ToJson(c).fields["language"] == (match c.language
                                             case None => JNull
                                             case Some(l) => StrList(l))
    ensures "pricing_model" in ToJson(c).fields && ToJson(c).fields["pricing_model"] == OptStr(c.pricingModel)
  {
  }

  function FieldNames(): set<string> {
    {"name", "description", "short_description", "tags", "website", "country", "city",
     "language", "contact_email", "social_links", "community_info", "member_count",
     "pricing_model", "focus_areas"}
  }
}
