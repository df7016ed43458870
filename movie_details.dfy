/** The detail page of one movie: the state the page holds, the facts it
    derives from the catalog records for display, the choice among its three
    outcomes (loading, not found, detail) and the watchlist toggle. The
    watchlist store is not part of this model: the page only asks it whether
    an id is present and tells it to add or remove, so it appears here as a
    membership predicate and, in `ToggleFlipsMembership`, as three functions. */
module MovieDetails {
  import opened Catalog

  /** The region whose offers the page lists. */
  const Region: string := "US"
  /** How many cast members the page shows. */
  const CastLimit: nat := 6
  /** How many similar movies the page shows. */
  const SimilarLimit: nat := 5
  /** How many characters of a review body the page shows before cutting. */
  const ReviewBudget: nat := 300
  /** What a cut review body ends with. */
  const Ellipsis: string := "..."
  /** The `type` and `site` of the video the page plays as its trailer. */
  const TrailerKind: string := "Trailer"
  const TrailerSite: string := "YouTube"

  function Min(a: int, b: int): int { if a <= b then a else b }

  /** `s.slice(0, n)`: the first `n` elements, or all of `s` when it is
      shorter, in the order received. */
  function Take<T>(s: seq<T>, n: nat): (r: seq<T>)
    ensures |r| == Min(n, |s|)
    ensures r <= s
  {
    if |s| <= n then s else s[..n]
  }

  // ---------------------------------------------------------------------
  // Watch providers

  /** `movie['watch/providers']?.results?.US`. */
  function RegionEntry(m: MovieRecord): Option<RegionProviders>
  {
    match m.watchProviders
    case None => None
    case Some(wp) =>
      match wp.results
      case None => None
      case Some(byRegion) => if Region in byRegion then Some(byRegion[Region]) else None
  }

  /** True when the catalog gave a list and that list is not empty. */
  predicate Listed(o: Option<seq<Provider>>)
  {
    o.Some? && o.value != []
  }

  /** `providers?.flatrate || []`: the region's subscription list when the
      catalog has one, and the empty list when the provider block, its
      results, the region entry or the list itself is missing. */
  function Streaming(m: MovieRecord): (r: seq<Provider>)
    ensures RegionEntry(m).Some? && RegionEntry(m).value.flatrate.Some? ==> r == RegionEntry(m).value.flatrate.value
    ensures RegionEntry(m).None? || RegionEntry(m).value.flatrate.None? ==> r == []
  {
    match RegionEntry(m)
    case None => []
    case Some(p) => p.flatrate.GetOr([])
  }

  /** `providers?.rent || []`, with the same fallbacks as `Streaming`. */
  function Rent(m: MovieRecord): (r: seq<Provider>)
    ensures RegionEntry(m).Some? && RegionEntry(m).value.rent.Some? ==> r == RegionEntry(m).value.rent.value
    ensures RegionEntry(m).None? || RegionEntry(m).value.rent.None? ==> r == []
  {
    match RegionEntry(m)
    case None => []
    case Some(p) => p.rent.GetOr([])
  }

  /** The "Where to Watch" section is shown exactly when the catalog has an
      entry for the region whose subscription or rental list is non-empty. */
  function ShowWhereToWatch(m: MovieRecord): (b: bool)
    ensures b <==> RegionEntry(m).Some? && (Listed(RegionEntry(m).value.flatrate) || Listed(RegionEntry(m).value.rent))
  {
    |Streaming(m)| > 0 || |Rent(m)| > 0
  }

  /** Offers listed for any region other than the page's own never change
      what the page shows. */
  lemma OtherRegionsIgnored(m: MovieRecord, region: string, offers: RegionProviders)
    requires region != Region
    requires m.watchProviders.Some? && m.watchProviders.value.results.Some?
    ensures var results := m.watchProviders.value.results.value;
            var m' := m.(watchProviders := Some(WatchProviders(Some(results[region := offers]))));
            Streaming(m') == Streaming(m) && Rent(m') == Rent(m)
  {
  }

  // ---------------------------------------------------------------------
  // Cast

  /** `movie.credits?.cast`. */
  function CatalogCast(m: MovieRecord): Option<seq<CastMember>>
  {
    match m.credits
    case None => None
    case Some(c) => c.cast
  }

  /** `movie.credits?.cast?.slice(0, 6) || []`: the leading cast members in
      billing order, at most six, and none when credits or cast are missing. */
  function Cast(m: MovieRecord): (r: seq<CastMember>)
    ensures CatalogCast(m).None? ==> r == []
    ensures CatalogCast(m).Some? ==> |r| == Min(CastLimit, |CatalogCast(m).value|) && r <= CatalogCast(m).value
  {
    match CatalogCast(m)
    case None => []
    case Some(cs) => Take(cs, CastLimit)
  }

  // ---------------------------------------------------------------------
  // Trailer

  predicate IsTrailer(v: Video)
  {
    v.kind == TrailerKind && v.site == TrailerSite
  }

  /** The position of the first YouTube trailer, scanning in the order the
      catalog returned the videos. */
  function FirstTrailerIndex(vs: seq<Video>): (r: Option<nat>)
    ensures r.Some? ==> r.value < |vs| && IsTrailer(vs[r.value])
    ensures r.Some? ==> forall j :: 0 <= j < r.value ==> !IsTrailer(vs[j])
    ensures r.None? ==> forall j :: 0 <= j < |vs| ==> !IsTrailer(vs[j])
  {
    if vs == [] then None
    else if IsTrailer(vs[0]) then Some(0)
    else
      match FirstTrailerIndex(vs[1..])
      case None => None
      case Some(k) => Some(k + 1)
  }

  /** `videos.find(v => v.type === 'Trailer' && v.site === 'YouTube')`. */
  function Trailer(vs: seq<Video>): (r: Option<Video>)
    ensures r.None? <==> forall v :: v in vs ==> !IsTrailer(v)
    ensures r.Some? ==> IsTrailer(r.value)
    ensures r.Some? ==> exists i :: 0 <= i < |vs| && vs[i] == r.value && forall j :: 0 <= j < i ==> !IsTrailer(vs[j])
  {
    match FirstTrailerIndex(vs)
    case None => None
    case Some(i) => Some(vs[i])
  }

  /** The search runs front to back: videos after the first trailer are never
      consulted, and a list without a trailer defers to what follows it. */
  lemma {:induction false} TrailerOfConcat(vs: seq<Video>, ws: seq<Video>)
    ensures Trailer(vs + ws) == if Trailer(vs).Some? then Trailer(vs) else Trailer(ws)
  {
    if vs == [] {
      assert vs + ws == ws;
    } else {
      assert (vs + ws)[0] == vs[0];
      assert (vs + ws)[1..] == vs[1..] + ws;
      if !IsTrailer(vs[0]) {
        TrailerOfConcat(vs[1..], ws);
        assert Trailer(vs) == Trailer(vs[1..]);
        assert Trailer(vs + ws) == Trailer(vs[1..] + ws);
      }
    }
  }

  // ---------------------------------------------------------------------
  // Runtime

  datatype Duration = Duration(hours: nat, minutes: nat)

  /** The runtime line `{h}h {m}m`, absent unless the runtime is positive. */
  function RuntimeLine(runtime: int): (r: Option<Duration>)
    ensures r.Some? <==> runtime > 0
    ensures r.Some? ==> r.value.hours * 60 + r.value.minutes == runtime && r.value.minutes < 60
  {
    if runtime > 0 then Some(Duration(runtime / 60, runtime % 60)) else None
  }

  /** Reading a runtime line back gives the runtime: every positive hours and
      minutes pair with minutes below 60 is the line of exactly one runtime. */
  lemma RuntimeLineRoundTrip(d: Duration)
    requires d.minutes < 60 && d.hours * 60 + d.minutes > 0
    ensures RuntimeLine(d.hours * 60 + d.minutes) == Some(d)
  {
  }

  // ---------------------------------------------------------------------
  // Reviews

  /** A review body as displayed: unchanged up to the budget, otherwise its
      first `ReviewBudget` characters followed by the ellipsis. */
  function Excerpt(body: string): (r: string)
    ensures |body| <= ReviewBudget ==> r == body
    ensures |body| > ReviewBudget ==> |r| == ReviewBudget + |Ellipsis| && r[..ReviewBudget] == body[..ReviewBudget] && r[ReviewBudget..] == Ellipsis
  {
    if |body| > ReviewBudget then body[..ReviewBudget] + Ellipsis else body
  }

  /** Cutting an already cut body changes nothing, so a displayed body is
      never longer than the budget plus the ellipsis. */
  lemma ExcerptIdempotent(body: string)
    ensures Excerpt(Excerpt(body)) == Excerpt(body)
    ensures |Excerpt(body)| <= ReviewBudget + |Ellipsis|
  {
  }

  datatype ReviewView = ReviewView(author: string, createdAt: string, text: string)

  /** Every review, in the order received, with its body cut. */
  function ReviewViews(reviews: seq<Review>): (r: seq<ReviewView>)
    ensures |r| == |reviews|
    ensures forall i :: 0 <= i < |r| ==> r[i].author == reviews[i].author && r[i].text == Excerpt(reviews[i].content)
    ensures forall i :: 0 <= i < |r| ==> |r[i].text| <= ReviewBudget + |Ellipsis|
  {
    if reviews == [] then []
    else
      ExcerptIdempotent(reviews[0].content);
      [ReviewView(reviews[0].author, reviews[0].createdAt, Excerpt(reviews[0].content))] + ReviewViews(reviews[1..])
  }

  // ---------------------------------------------------------------------
  // Similar movies

  /** `similarMovies.slice(0, 5)`: the first five similar movies in the order
      received, with no re-sorting. */
  function SimilarShown(similar: seq<MovieSummary>): (r: seq<MovieSummary>)
    ensures |r| == Min(SimilarLimit, |similar|)
    ensures r <= similar
  {
    Take(similar, SimilarLimit)
  }

  // ---------------------------------------------------------------------
  // Page state, outcome and watchlist toggle

  /** The state the page holds: whether a fetch is pending and the last
      records the fetch delivered. */
  datatype PageState = PageState(
    loading: bool,
    movie: Option<MovieRecord>,
    reviews: seq<Review>,
    videos: seq<Video>,
    similarMovies: seq<MovieSummary>)

  /** The state before the first fetch settles. */
  const InitialState: PageState := PageState(true, None, [], [], [])

  /** Everything the detail outcome displays. */
  datatype DetailView = DetailView(
    movie: MovieRecord,
    showTagline: bool,
    runtime: Option<Duration>,
    trailer: Option<Video>,
    inWatchlist: bool,
    cast: seq<CastMember>,
    streaming: seq<Provider>,
    rent: seq<Provider>,
    showWhereToWatch: bool,
    reviews: seq<ReviewView>,
    similar: seq<MovieSummary>)

  datatype PageOutcome = Loading | NotFound | Detail(view: DetailView)

  /** What the page renders from its state; `isInWatchlist` is the store's
      membership query. */
  function Render(st: PageState, isInWatchlist: int -> bool): (r: PageOutcome)
    ensures r.Loading? <==> st.loading
    ensures r.NotFound? <==> !st.loading && st.movie.None?
    ensures r.Detail? ==> st.movie == Some(r.view.movie)
    ensures r.Detail? ==> r.view.inWatchlist == isInWatchlist(r.view.movie.id)
    ensures r.Detail? ==> (r.view.showTagline <==> r.view.movie.tagline.Some? && r.view.movie.tagline.value != "")
    ensures r.Detail? ==> r.view.runtime == RuntimeLine(r.view.movie.runtime)
    ensures r.Detail? ==> r.view.trailer == Trailer(st.videos)
    ensures r.Detail? ==> r.view.cast == Cast(r.view.movie)
    ensures r.Detail? ==> r.view.streaming == Streaming(r.view.movie) && r.view.rent == Rent(r.view.movie)
    ensures r.Detail? ==> (r.view.showWhereToWatch <==> r.view.streaming != [] || r.view.rent != [])
    ensures r.Detail? ==> r.view.reviews == ReviewViews(st.reviews)
    ensures r.Detail? ==> r.view.similar == SimilarShown(st.similarMovies)
  {
    if st.loading then Loading
    else
      match st.movie
      case None => NotFound
      case Some(m) =>
        Detail(DetailView(
          m,
          m.tagline.Some? && m.tagline.value != "",
          RuntimeLine(m.runtime),
          Trailer(st.videos),
          isInWatchlist(m.id),
          Cast(m),
          Streaming(m),
          Rent(m),
          ShowWhereToWatch(m),
          ReviewViews(st.reviews),
          SimilarShown(st.similarMovies)))
  }

  /** Until the first fetch settles the page shows only its loading line. */
  lemma InitialStateRendersLoading(isInWatchlist: int -> bool)
    ensures Render(InitialState, isInWatchlist) == Loading
  {
  }

  /** What the watchlist button asks of the store. */
  datatype WatchlistAction = AddToWatchlist(movie: MovieRecord) | RemoveFromWatchlist(id: int)

  /** The button removes the movie by id when it is in the watchlist and
      adds the whole movie record otherwise. */
  function ToggleAction(inWatchlist: bool, m: MovieRecord): (a: WatchlistAction)
    ensures a.RemoveFromWatchlist? <==> inWatchlist
    ensures a.RemoveFromWatchlist? ==> a.id == m.id
    ensures a.AddToWatchlist? ==> a.movie == m
  {
    if inWatchlist then RemoveFromWatchlist(m.id) else AddToWatchlist(m)
  }

  /** Carries an action out against a store given by its two mutations. */
  function Apply<S>(a: WatchlistAction, s: S, add: (S, MovieRecord) -> S, remove: (S, int) -> S): S
  {
    match a
    case AddToWatchlist(m) => add(s, m)
    case RemoveFromWatchlist(id) => remove(s, id)
  }

  /** For any store whose `add` makes the movie present and whose `remove`
      makes the id absent, pressing the button flips the movie's membership. */
  lemma ToggleFlipsMembership<S>(s: S, m: MovieRecord, contains: (S, int) -> bool,
                                  add: (S, MovieRecord) -> S, remove: (S, int) -> S)
    requires forall t: S, x: MovieRecord :: contains(add(t, x), x.id)
    requires forall t: S, id: int :: !contains(remove(t, id), id)
    ensures contains(Apply(ToggleAction(contains(s, m.id), m), s, add, remove), m.id) == !contains(s, m.id)
  {
  }
}
