/**
 * The documents the service sends back: Atom feeds with OPDS links and
 * entries, the search-result feed with its result count, and the fixed
 * OpenSearch description. Field sets only; XML encoding is not modelled.
 */
module Catalog {

  /** A timestamp, as supplied by the service's clock. */
  type Time = int

  /** An Atom link; `title` is "" where the source sets none. */
  datatype Link = Link(rel: string, href: string, mediaType: string, title: string)

  /** An Atom entry; every entry the service builds carries exactly one link. */
  datatype Entry = Entry(id: string, title: string, link: Link)

  datatype Feed = Feed(id: string, title: string, updated: Time, links: seq<Link>, entries: seq<Entry>)

  datatype OpenSearchUrl = OpenSearchUrl(mediaType: string, template: string)

  datatype OpenSearchDescription =
    OpenSearchDescription(inputEncoding: string, outputEncoding: string, url: OpenSearchUrl)

  datatype Document =
    | OpenSearch(description: OpenSearchDescription)
    | NavigationFeed(feed: Feed)
    | AcquisitionFeed(feed: Feed)
    | SearchResultFeed(feed: Feed, totalResults: int)
}
