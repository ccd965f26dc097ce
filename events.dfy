/** The records that travel through the click pipeline and the link store:
    the event the redirect emits, the task the consumer decodes, the
    enriched row it stores, the geolocation answer, a short link, and the
    body of a successful creation response. */
module Events {
  import opened Common

  /** Emitted by the redirect handler and serialised onto the broker. */
  datatype ClickEvent = ClickEvent(
    alias: string,
    timestamp: Time,
    ip: string,
    userAgent: string,
    referer: string)

  /** What a consumer decodes from a broker message; the timestamp stays
      the text the producer wrote. */
  datatype ClickTask = ClickTask(
    alias: string,
    ip: string,
    userAgent: string,
    referer: string,
    timestamp: string)

  /** One row of the enriched_clicks table: nine columns, three nullable. */
  datatype EnrichedClick = EnrichedClick(
    alias: string,
    ip: string,
    country: Option<string>,
    city: Option<string>,
    device: string,
    os: string,
    browser: string,
    referer: Option<string>,
    timestamp: string)

  /** The two fields the geolocation service answers with. */
  datatype GeoResponse = GeoResponse(countryName: string, city: string)

  /** A short link as the application sees it. */
  datatype Link = Link(
    alias: string,
    originalUrl: string,
    createdAt: Time,
    expiresAt: Option<Time>,
    clickCount: int)

  /** Body of a 201 reply; `expiresAt` is `None` where the JSON field is
      omitted because it is empty. */
  datatype ShorterResponse = ShorterResponse(shortUrl: string, expiresAt: Option<Time>)
}
