/** The movies page: one merged, de-duplicated list built from ten category requests. */
module MoviesPage {
  import opened JsValues
  import opened Typings
  import Catalogue

  /** The category requests, in the order they are issued. */
  const Categories: seq<string> := [
    "fetchTrending", "fetchTopRated", "fetchActionMovies", "fetchComedyMovies",
    "fetchHorrorMovies", "fetchRomanceMovies", "fetchDocumentaries",
    "fetchPopularMovies", "fetchUpcomingMovies", "fetchSciFiMovies"
  ]

  /** The page's `movies` state. */
  class Movies {
    var movies: seq<Movie>

    constructor ()
      ensures movies == []
    {
      movies := [];
    }

    /**
     * `fetchMovies`: when every request and parse succeeds (`Some`, one list
     * per category in request order) the state becomes the de-duplicated
     * merge (distinct ids, every merged id, first-occurrence order, the last
     * record per id); on any failure (`None`) it keeps its previous value.
     */
    method FetchMovies(responses: Option<seq<seq<Movie>>>)
      requires responses.Some? ==> |responses.value| == |Categories|
      modifies this
      ensures responses.None? ==> movies == old(movies)
      ensures responses.Some? ==> movies == Catalogue.UniqueById(Catalogue.Merge(responses.value))
      ensures responses.Some? ==> Catalogue.DistinctIds(movies)
      ensures responses.Some? ==> Catalogue.IdSet(movies) == Catalogue.IdSet(Catalogue.Merge(responses.value))
      ensures responses.Some? ==> var all := Catalogue.Merge(responses.value);
        forall i :: 0 <= i < |movies| ==>
          movies[i].id in Catalogue.IdSet(all) && movies[i] == all[Catalogue.LastIndex(all, movies[i].id)]
      ensures responses.Some? ==> var all := Catalogue.Merge(responses.value);
        forall i, j :: 0 <= i < j < |movies| ==>
          movies[i].id in Catalogue.IdSet(all) && movies[j].id in Catalogue.IdSet(all) &&
          Catalogue.FirstIndex(all, movies[i].id) < Catalogue.FirstIndex(all, movies[j].id)
    {
      match responses {
        case None =>
        case Some(results) =>
          var all := Catalogue.Merge(results);
          movies := Catalogue.UniqueById(all);
          Catalogue.UniqueIdsDistinct(all);
          Catalogue.UniqueIdSet(all);
          Catalogue.UniqueKeepsLast(all);
          Catalogue.UniqueFirstOccurrenceOrder(all);
      }
    }
  }
}
