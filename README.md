# Movie detail page: view-model derivations

This project models the logic of the movie detail page of a browser-based
movie discovery front end. The page holds the records it fetched from the
movie catalog (the movie's detail record, its reviews, its videos and a list
of similar movies). From them it derives what it displays:

- the streaming and rental providers of the US region, with empty lists when
  the catalog has no offers for that region;
- the first six cast members;
- the first YouTube trailer;
- the runtime as hours and minutes;
- review bodies cut to 300 characters;
- the first five similar movies;
- whether the "Where to Watch" section appears;
- what the watchlist button does;
- which of its three outcomes the page renders: loading, "movie not found",
  or the detail view.

`catalog.dfy` (module `Catalog`) holds the shapes of the catalog records.
Every field the page reaches through optional chaining is an `Option`.
`movie_details.dfy` (module `MovieDetails`) holds the derivations as pure
functions, each with a contract, and lemmas that relate them.

The watchlist store is not part of this model. The page asks it whether an
id is present and tells it to add a movie or remove an id. So `Render` takes
the store's membership query as a parameter `int -> bool`. `ToggleFlipsMembership`
takes any store given by its `contains`, `add` and `remove` functions.

Where the design description and the code disagree, the model follows the
code:

- The description says a failed catalog call shows "not found". In the code,
  the four calls have no rejection handling. A failed call leaves `loading`
  true, so the page keeps showing "Loading...".
- The description says a newer navigation discards a stale fetch (last
  request wins). The code has no request token. The model claims neither
  behaviour.

## Model

| member | source | states |
|---|---|---|
| `MovieDetails.Streaming` | src/components/MovieDetails.tsx:69-70 | the streaming list is the US entry's `flatrate` list when the catalog has it, and empty when the provider block, its results, the US entry or the list is missing |
| `MovieDetails.Rent` | src/components/MovieDetails.tsx:69-71 | the rental list is the US entry's `rent` list when present, and empty in every missing case |
| `MovieDetails.OtherRegionsIgnored` | src/components/MovieDetails.tsx:69 | changing the offers of any region other than US leaves both displayed lists unchanged |
| `MovieDetails.ShowWhereToWatch` | src/components/MovieDetails.tsx:237 | the section is shown if and only if the catalog has a US entry whose `flatrate` or `rent` list is present and non-empty |
| `MovieDetails.Cast` | src/components/MovieDetails.tsx:72 | the cast shown is a prefix of the catalog cast with length min(6, its length), and empty when credits or cast are missing |
| `MovieDetails.FirstTrailerIndex` | src/components/MovieDetails.tsx:73 | the index found holds a video of type Trailer on YouTube and no earlier video is one; no index means no video is one |
| `MovieDetails.Trailer` | src/components/MovieDetails.tsx:73 | the trailer is absent exactly when no video is a YouTube Trailer; a trailer found is one and sits at a position with no YouTube Trailer before it |
| `MovieDetails.TrailerOfConcat` | src/components/MovieDetails.tsx:73 | the search over two lists joined is the first list's trailer if it has one, and the second list's otherwise |
| `MovieDetails.RuntimeLine` | src/components/MovieDetails.tsx:139-142 | the runtime line exists if and only if runtime > 0, and then hours * 60 + minutes == runtime with minutes < 60 |
| `MovieDetails.RuntimeLineRoundTrip` | src/components/MovieDetails.tsx:142 | every positive (hours, minutes < 60) pair is the runtime line of hours * 60 + minutes |
| `MovieDetails.Excerpt` | src/components/MovieDetails.tsx:289 | a body of at most 300 characters is unchanged; a longer one becomes exactly 303 characters: its own first 300 followed by "..." |
| `MovieDetails.ExcerptIdempotent` | src/components/MovieDetails.tsx:289 | cutting a displayed body again changes nothing, and a displayed body never exceeds 303 characters |
| `MovieDetails.ReviewViews` | src/components/MovieDetails.tsx:280-289 | one displayed review per fetched review, in the same order, with the same author and the cut body, each at most 303 characters |
| `MovieDetails.SimilarShown` | src/components/MovieDetails.tsx:302 | the similar movies shown are a prefix of the fetched list with length min(5, its length), in received order |
| `MovieDetails.Render` | src/components/MovieDetails.tsx:47-74 | Loading exactly when loading; NotFound exactly when not loading and no movie; otherwise the detail view of that movie. It has the watchlist flag for its id, the tagline shown only when non-empty, and the derived runtime, trailer, cast, providers, reviews and similar list |
| `MovieDetails.InitialStateRendersLoading` | src/components/MovieDetails.tsx:11-15 | the state before any fetch settles renders the loading outcome |
| `MovieDetails.ToggleAction` | src/components/MovieDetails.tsx:169 | the button removes by the movie's id exactly when the movie is in the watchlist, and otherwise adds the movie record itself |
| `MovieDetails.ToggleFlipsMembership` | src/components/MovieDetails.tsx:169 | for any store whose add makes the movie present and whose remove makes the id absent, pressing the button flips the movie's membership |

## Left out

- The fetch effect (src/components/MovieDetails.tsx:20-45) is left out. It runs four asynchronous catalog calls in parallel, scrolls the window and sets the page state. That is I/O and concurrency. `Render` takes the state it leaves as its input.
- The slug decoder `extractIdFromSlug` is not part of this model. Its file `src/utils/slug` is not among the sources modelled.
- The watchlist store is not part of this model. Its file `src/context/WatchlistContext` is not among the sources modelled. It appears only as a membership predicate and as the functions in `ToggleFlipsMembership`.
- Image URLs are left out: `getImageUrl` and the fallback image links built from the first genre's name. They are calls into `src/services/api`, which is not part of this model, plus string building.
- The release year (`new Date(...).getFullYear()`) and the review date (`toLocaleDateString()`) are left out. Both depend on the time zone and the locale.
- The rating `vote_average.toFixed(1)` is left out because it is floating-point formatting.
- Layout, styles, icons and the trailer modal with its embed URL are left out. The remaining guards are direct tests on values in `DetailView`. The cast, reviews and similar sections appear when their lists are non-empty. The trailer button appears when `trailer` is present.
- MovieDetails.RuntimeLine: models the runtime as a whole number of minutes. For a whole number, JavaScript's `Math.floor(runtime / 60)` and `runtime % 60` agree with Dafny's `/` and `%` whenever runtime > 0, which is the only case shown. A fractional runtime is not modelled.
- MovieDetails.Excerpt: counts a string's length in `char`s. JavaScript counts UTF-16 code units, so for text outside the Basic Multilingual Plane the cut point can differ from the model's.
- The record shapes in `Catalog` keep only the fields the modelled derivations read. They are inferred from how the page uses them, because `src/services/api` is not part of this model.
