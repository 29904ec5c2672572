/**
 * The details modal: which video becomes the trailer, the fallbacks that
 * fill in media type, runtime and release date, the ten-member cast list,
 * and the "My List" flag kept in step with the user's stored list.
 */
module Modal {
  import opened JsValues
  import opened Typings

  /** One entry of the `videos.results` list of a details response. */
  datatype Video = Video(site: string, kind: string, official: bool, key: string)

  /** The video filter: YouTube videos of type Trailer, Teaser or Clip. */
  predicate IsCandidate(v: Video) {
    v.site == "YouTube" && (v.kind == "Trailer" || v.kind == "Teaser" || v.kind == "Clip")
  }

  /** `results.filter(IsCandidate)`: the candidates, in their original order. */
  function Candidates(vs: seq<Video>): (r: seq<Video>)
    ensures |r| <= |vs|
    ensures forall v :: v in r <==> v in vs && IsCandidate(v)
  {
    if vs == [] then []
    else (if IsCandidate(vs[0]) then [vs[0]] else []) + Candidates(vs[1..])
  }

  /** The filter keeps order and duplicates: filtering a concatenation concatenates the filtered parts. */
  lemma {:induction false} CandidatesAppend(a: seq<Video>, b: seq<Video>)
    ensures Candidates(a + b) == Candidates(a) + Candidates(b)
  {
    if a == [] {
      assert a + b == b;
    } else {
      assert (a + b)[0] == a[0];
      assert (a + b)[1..] == a[1..] + b;
      CandidatesAppend(a[1..], b);
    }
  }

  /** The predicate of one `find` in the selection chain. */
  datatype Wanted = Wanted(kind: string, officialOnly: bool)

  predicate Matches(v: Video, w: Wanted) {
    (!w.officialOnly || v.official) && v.kind == w.kind
  }

  /** The six `find` calls of the selection chain, in the order they are tried. */
  const Priority: seq<Wanted> := [
    Wanted("Trailer", true), Wanted("Trailer", false),
    Wanted("Teaser", true), Wanted("Teaser", false),
    Wanted("Clip", true), Wanted("Clip", false)
  ]

  /** `findIndex`: the first position whose video matches `w`. */
  function FindIndex(vs: seq<Video>, w: Wanted): (r: Option<nat>)
    ensures r.Some? ==> r.value < |vs| && Matches(vs[r.value], w)
    ensures r.Some? ==> forall j :: 0 <= j < r.value ==> !Matches(vs[j], w)
    ensures r.None? ==> forall j :: 0 <= j < |vs| ==> !Matches(vs[j], w)
  {
    if vs == [] then None
    else if Matches(vs[0], w) then Some(0)
    else match FindIndex(vs[1..], w)
      case Some(i) => Some(i + 1)
      case None => None
  }

  /**
   * `find(ws[0]) || find(ws[1]) || ... || filtered[0]`, as a position:
   * the first `find` that succeeds, else the first video, else nothing.
   */
  function SelectIndex(vs: seq<Video>, ws: seq<Wanted>): (r: Option<nat>)
    ensures r.Some? ==> r.value < |vs|
    ensures r.None? <==> vs == []
  {
    if ws == [] then (if |vs| > 0 then Some(0) else None)
    else match FindIndex(vs, ws[0])
      case Some(i) => Some(i)
      case None => SelectIndex(vs, ws[1..])
  }

  /** `selectedVideo`: the chain applied to the filtered videos. */
  function SelectVideo(filtered: seq<Video>): (r: Option<Video>)
    ensures r.Some? ==> r.value in filtered
    ensures r.None? <==> filtered == []
  {
    match SelectIndex(filtered, Priority)
    case Some(i) => Some(filtered[i])
    case None => None
  }

  /** `selectedVideo?.key || ""`: the key of the chosen video, or "" when none is chosen. */
  function TrailerKey(results: seq<Video>): (r: string)
    ensures r != "" ==> exists v :: v in results && IsCandidate(v) && v.key == r
  {
    match SelectVideo(Candidates(results))
    case Some(v) => v.key
    case None => ""
  }

  /** The position of a candidate in the priority order: 0 for an official Trailer ... 5 for a Clip. */
  function Rank(v: Video): (r: nat)
    ensures r < 6
  {
    (if v.kind == "Trailer" then 0 else if v.kind == "Teaser" then 2 else 4)
      + (if v.official then 0 else 1)
  }

  /** Position `i` holds a video of the best rank present, and the first one of that rank. */
  predicate IsBest(vs: seq<Video>, i: nat)
    requires i < |vs|
  {
    && (forall j :: 0 <= j < |vs| ==> Rank(vs[i]) <= Rank(vs[j]))
    && (forall j :: 0 <= j < i ==> Rank(vs[i]) < Rank(vs[j]))
  }

  /** Among candidates of rank at least `k`, the `k`-th `find` matches exactly those of rank `k`. */
  lemma MatchesAtLevel(v: Video, k: nat)
    requires IsCandidate(v) && k < 6 && Rank(v) >= k
    ensures Matches(v, Priority[k]) <==> Rank(v) == k
  {
  }

  /** Once every candidate has rank at least `k`, the rest of the chain picks the first best one. */
  lemma {:induction false} SelectFromLevel(vs: seq<Video>, k: nat)
    requires k <= 6
    requires forall j :: 0 <= j < |vs| ==> IsCandidate(vs[j]) && Rank(vs[j]) >= k
    ensures var r := SelectIndex(vs, Priority[k..]);
      r.Some? ==> r.value < |vs| && IsBest(vs, r.value)
    decreases 6 - k
  {
    if k == 6 {
      assert Priority[k..] == [];
    } else {
      var w := Priority[k];
      assert Priority[k..][0] == w;
      assert Priority[k..][1..] == Priority[k + 1..];
      forall j | 0 <= j < |vs|
        ensures Matches(vs[j], w) <==> Rank(vs[j]) == k
      {
        MatchesAtLevel(vs[j], k);
      }
      match FindIndex(vs, w)
      case Some(i) =>
      case None =>
        SelectFromLevel(vs, k + 1);
    }
  }

  /** The chain picks the first video of the best rank among the candidates. */
  lemma SelectedIsBest(filtered: seq<Video>)
    requires forall j :: 0 <= j < |filtered| ==> IsCandidate(filtered[j])
    ensures SelectVideo(filtered).None? <==> filtered == []
    ensures SelectVideo(filtered).Some? ==>
      exists i :: 0 <= i < |filtered| && filtered[i] == SelectVideo(filtered).value && IsBest(filtered, i)
  {
    assert Priority[0..] == Priority;
    SelectFromLevel(filtered, 0);
  }

  /** Over candidates only, some `find` of the chain succeeds: the `filtered[0]` fallback never decides. */
  lemma FallbackNeverDecides(filtered: seq<Video>)
    requires forall j :: 0 <= j < |filtered| ==> IsCandidate(filtered[j])
    requires filtered != []
    ensures exists k :: 0 <= k < |Priority| && FindIndex(filtered, Priority[k]).Some?
  {
    SelectedIsBest(filtered);
    var i :| 0 <= i < |filtered| && IsBest(filtered, i);
    var k := Rank(filtered[i]);
    MatchesAtLevel(filtered[i], k);
    assert Matches(filtered[i], Priority[k]);
  }

  /** The trailer key: "" without candidates, otherwise the key of the first best-ranked candidate. */
  lemma TrailerKeyIsBest(results: seq<Video>)
    ensures Candidates(results) == [] ==> TrailerKey(results) == ""
    ensures Candidates(results) != [] ==>
      exists i :: 0 <= i < |Candidates(results)| && IsBest(Candidates(results), i)
        && TrailerKey(results) == Candidates(results)[i].key
  {
    var f := Candidates(results);
    forall j | 0 <= j < |f| ensures IsCandidate(f[j]) {
      assert f[j] in f;
    }
    SelectedIsBest(f);
  }

  /** `currentMovie.media_type || (currentMovie.title ? "movie" : "tv")`: the path segment of the details request. */
  function MediaType(m: Movie): (r: string)
    ensures r != ""
    ensures Truthy(m.mediaType) ==> r == m.mediaType.value
    ensures !Truthy(m.mediaType) ==> (r == "movie" || r == "tv") && (r == "movie" <==> Truthy(m.title))
  {
    if Truthy(m.mediaType) then m.mediaType.value
    else if Truthy(m.title) then "movie" else "tv"
  }

  datatype CastMember = CastMember(name: string, character: string, profilePath: Option<string>)

  datatype Genre = Genre(id: int, name: string)

  /** The parts of a details response the modal reads. */
  datatype Details = Details(
    runtime: Option<int>,
    episodeRunTime: Option<seq<int>>,
    releaseDate: Option<string>,
    firstAirDate: Option<string>,
    genres: Option<seq<Genre>>,
    credits: Option<seq<CastMember>>,   // `credits.cast`
    videos: Option<seq<Video>>          // `videos.results`
  )

  const MaxCast: nat := 10

  /** `(credits?.cast || []).slice(0, 10)`. */
  function TopCast(credits: Option<seq<CastMember>>): (r: seq<CastMember>)
    ensures credits.None? ==> r == []
    ensures credits.Some? ==> |r| == (if |credits.value| < MaxCast then |credits.value| else MaxCast)
    ensures credits.Some? ==> r == credits.value[..|r|]
  {
    var all := credits.GetOr([]);
    if |all| <= MaxCast then all else all[..MaxCast]
  }

  /** What the runtime badge shows: minutes, `undefined` (an empty episode list), or "N/A". */
  datatype Runtime = Minutes(minutes: int) | Undefined | NotAvailable

  /** `movieData?.runtime || (Array.isArray(episode_run_time) ? episode_run_time[0] : "N/A")`. */
  function RuntimeOf(d: Option<Details>): (r: Runtime)
    ensures d.Some? && TruthyInt(d.value.runtime) ==> r == Minutes(d.value.runtime.value)
    ensures r == NotAvailable <==>
      d.None? || (!TruthyInt(d.value.runtime) && d.value.episodeRunTime.None?)
    ensures r == Undefined <==>
      d.Some? && !TruthyInt(d.value.runtime) && d.value.episodeRunTime == Some([])
    ensures d.Some? && !TruthyInt(d.value.runtime) && d.value.episodeRunTime.Some? ==>
      (d.value.episodeRunTime.value != [] ==> r == Minutes(d.value.episodeRunTime.value[0]))
  {
    match d
    case None => NotAvailable
    case Some(m) =>
      if TruthyInt(m.runtime) then Minutes(m.runtime.value)
      else match m.episodeRunTime
        case Some(e) => if |e| > 0 then Minutes(e[0]) else Undefined
        case None => NotAvailable
  }

  /** `movieData?.release_date || movieData?.first_air_date || "Unknown"`. */
  function ReleaseDateOf(d: Option<Details>): (r: string)
    ensures r != ""
    ensures d.Some? && Truthy(d.value.releaseDate) ==> r == d.value.releaseDate.value
    ensures d.Some? && !Truthy(d.value.releaseDate) && Truthy(d.value.firstAirDate) ==>
      r == d.value.firstAirDate.value
    ensures d.None? || (!Truthy(d.value.releaseDate) && !Truthy(d.value.firstAirDate)) ==>
      r == "Unknown"
  {
    match d
    case None => "Unknown"
    case Some(m) => OrElse(Or(m.releaseDate, m.firstAirDate), "Unknown")
  }

  /** `data?.videos?.results.length > 0`: the trailer is only recomputed for a non-empty list. */
  function NextTrailer(previous: string, videos: Option<seq<Video>>): (r: string)
    ensures videos.None? || videos.value == [] ==> r == previous
    ensures videos.Some? && videos.value != [] ==> r == TrailerKey(videos.value)
  {
    if videos.Some? && |videos.value| > 0 then TrailerKey(videos.value) else previous
  }

  /** How the details request ended: a non-ok status, an exception, or a parsed body. */
  datatype FetchOutcome = NotOk | Threw | Loaded(data: Details)

  /** The modal's component state, with the user's stored "My List" as a set of ids. */
  class ModalState {
    const current: Option<Movie>
    const signedIn: bool
    var movieData: Option<Details>
    var trailer: string
    var genres: seq<Genre>
    var cast: seq<CastMember>
    /** The ids of the documents in the user's stored list. */
    var myList: set<int>
    /** The ids the last snapshot of that list delivered (the `movies` state). */
    var snapshot: set<int>
    var addedToList: bool

    /** The flag agrees with the stored list. */
    predicate InSync()
      reads this
    {
      current.Some? ==> addedToList == (current.value.id in myList)
    }

    constructor (current: Option<Movie>, signedIn: bool, stored: set<int>)
      ensures this.current == current && this.signedIn == signedIn && myList == stored
      ensures movieData.None? && trailer == "" && genres == [] && cast == []
      ensures snapshot == {} && !addedToList
    {
      this.current := current;
      this.signedIn := signedIn;
      myList := stored;
      movieData := None;
      trailer := "";
      genres := [];
      cast := [];
      snapshot := {};
      addedToList := false;
    }

    /** The details effect: nothing without a current movie; a non-ok status clears `movieData`. */
    method OnDetailsFetched(outcome: FetchOutcome)
      modifies this
      ensures myList == old(myList) && snapshot == old(snapshot) && addedToList == old(addedToList)
      ensures current.None? || outcome == Threw ==>
        movieData == old(movieData) && trailer == old(trailer) && genres == old(genres) && cast == old(cast)
      ensures current.Some? && outcome == NotOk ==>
        movieData.None? && trailer == old(trailer) && genres == old(genres) && cast == old(cast)
      ensures current.Some? && outcome.Loaded? ==>
        && movieData == Some(outcome.data)
        && genres == outcome.data.genres.GetOr([])
        && cast == TopCast(outcome.data.credits)
        && trailer == NextTrailer(old(trailer), outcome.data.videos)
    {
      if current.None? {
        return;
      }
      match outcome {
        case NotOk =>
          movieData := None;
        case Threw =>
        case Loaded(data) =>
          movieData := Some(data);
          genres := data.genres.GetOr([]);
          cast := TopCast(data.credits);
          trailer := NextTrailer(trailer, data.videos);
      }
    }

    /** A snapshot of the stored list arrives (signed in only) and the flag is re-derived from it. */
    method DeliverSnapshot()
      modifies this
      ensures movieData == old(movieData) && trailer == old(trailer) && genres == old(genres) && cast == old(cast)
      ensures myList == old(myList)
      ensures snapshot == if signedIn then myList else old(snapshot)
      ensures addedToList == if current.Some? then current.value.id in snapshot else old(addedToList)
      ensures signedIn ==> InSync()
    {
      if signedIn {
        snapshot := myList;
      }
      if current.Some? {
        addedToList := current.value.id in snapshot;
      }
    }

    /**
     * `handleList`: without a user or a movie nothing happens; a write that
     * succeeds removes the id when the flag is set and adds it otherwise,
     * flipping the flag; a write that fails changes nothing.
     */
    method HandleList(writeSucceeds: bool)
      modifies this
      ensures movieData == old(movieData) && trailer == old(trailer) && genres == old(genres) && cast == old(cast)
      ensures snapshot == old(snapshot)
      ensures !signedIn || current.None? || !writeSucceeds ==>
        myList == old(myList) && addedToList == old(addedToList)
      ensures signedIn && current.Some? && writeSucceeds ==>
        && addedToList == !old(addedToList)
        && myList == (if old(addedToList) then old(myList) - {current.value.id}
                      else old(myList) + {current.value.id})
      ensures old(InSync()) ==> InSync()
    {
      if !signedIn || current.None? {
        return;
      }
      if !writeSucceeds {
        return;
      }
      var id := current.value.id;
      if addedToList {
        myList := myList - {id};
        addedToList := false;
      } else {
        myList := myList + {id};
        addedToList := true;
      }
    }
  }
}
