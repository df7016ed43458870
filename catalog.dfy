/** The catalog records the detail page reads, shaped after the fields it
    uses. A field that the page reaches through optional chaining (`?.`) is
    an `Option`; a field it reads directly is a plain value. */
module Catalog {

  datatype Option<+T> = None | Some(value: T) {
    /** The value, or `default` when absent: the `x || []` idiom of the page
        applied to a list, where an absent list falls back and a present one
        (even an empty one) is kept. */
    function GetOr(default: T): T
    {
      match this
      case Some(v) => v
      case None => default
    }
  }

  /** A streaming or rental service listed for one region. */
  datatype Provider = Provider(providerId: int, providerName: string, logoPath: string)

  /** The offers of one region: the subscription (`flatrate`) and rental
      (`rent`) lists, each of which the catalog may omit. */
  datatype RegionProviders = RegionProviders(flatrate: Option<seq<Provider>>, rent: Option<seq<Provider>>)

  /** The `watch/providers` block: `results` maps a region code to its offers. */
  datatype WatchProviders = WatchProviders(results: Option<map<string, RegionProviders>>)

  datatype CastMember = CastMember(id: int, name: string, character: string, profilePath: Option<string>)

  datatype Credits = Credits(cast: Option<seq<CastMember>>)

  /** The detail record of one movie. `runtime` is in whole minutes. */
  datatype MovieRecord = MovieRecord(
    id: int,
    title: string,
    tagline: Option<string>,
    overview: string,
    runtime: int,
    credits: Option<Credits>,
    watchProviders: Option<WatchProviders>)

  /** A video attached to a movie: `kind` is the catalog's `type` field
      ("Trailer", "Teaser", ...), `site` the hosting platform. */
  datatype Video = Video(kind: string, site: string, key: string)

  datatype Review = Review(id: string, author: string, content: string, createdAt: string)

  /** An entry of the similar-movies list. */
  datatype MovieSummary = MovieSummary(id: int, title: string)
}
