/** The movie/show record of the metadata service, as the views receive it. */
module Typings {
  import opened JsValues

  /** One catalogue entry; `title` is set for movies, `name` for TV shows. */
  datatype Movie = Movie(
    id: int,
    title: Option<string>,
    name: Option<string>,
    originalName: Option<string>,
    overview: string,
    posterPath: Option<string>,
    backdropPath: Option<string>,
    mediaType: Option<string>,
    genreIds: seq<int>,
    popularity: real,
    voteAverage: real,
    voteCount: int,
    releaseDate: Option<string>,
    firstAirDate: Option<string>,
    originalLanguage: string
  )
}
