/** The series page: one merged, de-duplicated list built from nine TV category requests. */
module SeriesPage {
  import opened JsValues
  import opened Typings
  import Catalogue

  /** The TV category requests, in the order they are issued. */
  const Categories: seq<string> := [
    "fetchTrendingTV", "fetchTopRatedTV", "fetchActionTV", "fetchComedyTV",
    "fetchHorrorTV", "fetchRomanceTV", "fetchDocumentaryTV",
    "fetchPopularTV", "fetchSciFiTV"
  ]

  /** The page's `tvShows` state. */
  class Series {
    var tvShows: seq<Movie>

    constructor ()
      ensures tvShows == []
    {
      tvShows := [];
    }

    /**
     * `fetchTVShows`: on success the state becomes the de-duplicated merge,
     * with distinct ids, every merged id, first-occurrence order and the last
     * record per id; on any failure it keeps its previous value.
     */
    method FetchTVShows(responses: Option<seq<seq<Movie>>>)
      requires responses.Some? ==> |responses.value| == |Categories|
      modifies this
      ensures responses.None? ==> tvShows == old(tvShows)
      ensures responses.Some? ==> tvShows == Catalogue.UniqueById(Catalogue.Merge(responses.value))
      ensures responses.Some? ==> Catalogue.DistinctIds(tvShows)
      ensures responses.Some? ==> Catalogue.IdSet(tvShows) == Catalogue.IdSet(Catalogue.Merge(responses.value))
      ensures responses.Some? ==> var all := Catalogue.Merge(responses.value);
        forall i :: 0 <= i < |tvShows| ==>
          tvShows[i].id in Catalogue.IdSet(all) && tvShows[i] == all[Catalogue.LastIndex(all, tvShows[i].id)]
      ensures responses.Some? ==> var all := Catalogue.Merge(responses.value);
        forall i, j :: 0 <= i < j < |tvShows| ==>
          tvShows[i].id in Catalogue.IdSet(all) && tvShows[j].id in Catalogue.IdSet(all) &&
          Catalogue.FirstIndex(all, tvShows[i].id) < Catalogue.FirstIndex(all, tvShows[j].id)
    {
      match responses {
        case None =>
        case Some(results) =>
          var all := Catalogue.Merge(results);
          tvShows := Catalogue.UniqueById(all);
          Catalogue.UniqueIdsDistinct(all);
          Catalogue.UniqueIdSet(all);
          Catalogue.UniqueKeepsLast(all);
          Catalogue.UniqueFirstOccurrenceOrder(all);
      }
    }
  }
}
