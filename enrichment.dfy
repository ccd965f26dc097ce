/** The IP-and-geo enricher: a decoded click task becomes an enriched row.
    The geolocation HTTP client and the user-agent library are foreign
    code; both appear here as functions the caller supplies. */
module Enrichment {
  import opened Common
  import opened Events

  /** What the user-agent library reports about one header value. */
  datatype AgentInfo = AgentInfo(mobile: bool, osFullName: string, browserName: string)

  /** The user-agent library, as a function of the header text. */
  type UserAgentLibrary = string -> AgentInfo

  /** The geolocation client: the answer for an IP, or `None` when the call
      fails for any reason (transport error, non-200 status, bad body). */
  type GeoService = string -> Option<GeoResponse>

  /** Device class, OS and browser of one user agent. */
  datatype Parsed = Parsed(device: string, os: string, browser: string)

  /** The device parser: "mobile" when the library sees a mobile
      signature, "desktop" otherwise; OS full name and browser name as the
      library gives them. */
  function Parse(library: UserAgentLibrary, userAgent: string): (p: Parsed)
    ensures p.device == "mobile" || p.device == "desktop"
    ensures p.device == "mobile" <==> library(userAgent).mobile
    ensures p.os == library(userAgent).osFullName
    ensures p.browser == library(userAgent).browserName
  {
    var info := library(userAgent);
    Parsed(if info.mobile then "mobile" else "desktop", info.osFullName, info.browserName)
  }

  /** The text a nullable column stands for, absent read as empty. */
  function TextOf(s: Option<string>): string
  {
    if s.Some? then s.value else ""
  }

  /** Enrich one task. It never fails: a geolocation failure or an empty IP
      only leaves country and city absent. */
  function Enrich(task: ClickTask, geo: GeoService, library: UserAgentLibrary)
    : (r: Result<EnrichedClick, Error>)
    ensures r.Ok?
    ensures r.value.alias == task.alias && r.value.ip == task.ip
    ensures r.value.timestamp == task.timestamp
    ensures r.value.country.Some? <==> r.value.city.Some?
    ensures r.value.country.Some? <==> task.ip != "" && geo(task.ip).Some?
    ensures r.value.country.Some? ==>
              r.value.country.value == geo(task.ip).value.countryName &&
              r.value.city.value == geo(task.ip).value.city
    ensures r.value.referer != Some("") && TextOf(r.value.referer) == task.referer
    ensures Parsed(r.value.device, r.value.os, r.value.browser) == Parse(library, task.userAgent)
  {
    var location := if task.ip != "" then geo(task.ip) else None;
    var country := if location.Some? then Some(location.value.countryName) else None;
    var city := if location.Some? then Some(location.value.city) else None;
    var parsed := Parse(library, task.userAgent);
    var referer := if task.referer != "" then Some(task.referer) else None;
    Ok(EnrichedClick(task.alias, task.ip, country, city,
                     parsed.device, parsed.os, parsed.browser, referer, task.timestamp))
  }

  /** For an empty IP the geolocation service is not consulted: whatever it
      would answer, the record is the same and has no location. */
  lemma EmptyIpIgnoresGeo(task: ClickTask, geo1: GeoService, geo2: GeoService, library: UserAgentLibrary)
    requires task.ip == ""
    ensures Enrich(task, geo1, library) == Enrich(task, geo2, library)
    ensures Enrich(task, geo1, library).value.country.None?
    ensures Enrich(task, geo1, library).value.city.None?
  {
  }
}
