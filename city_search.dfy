/**
 * The city search dialog. Each suggestion, favourite and history item
 * carries a value string `lat | lon | name | country`; selecting an item
 * splits that string back on `" | "`, hands a history entry to the search
 * history, closes the dialog and navigates to the city page.
 */
module CitySearch {
  import opened JsValues

  /** A location as the lists show it; latitude and longitude kept as their text. */
  datatype Location = Location(lat: string, lon: string, name: string, country: string, state: Option<string>)

  /** `const [lat, lon, name, country] = value.split(' | ')`: a missing field is `undefined`. */
  datatype Decoded = Decoded(lat: Option<string>, lon: Option<string>, name: Option<string>, country: Option<string>)

  /** What `addToHistory.mutate` receives (coordinates left as text). */
  datatype HistoryEntry = HistoryEntry(query: string, name: Option<string>, lat: Option<string>, lon: Option<string>, country: Option<string>)

  const Sep: string := " | "

  /** The separator occurs in `s` starting at index `j`. */
  predicate SepAt(s: string, j: int) {
    0 <= j && j + |Sep| <= |s| && s[j..j + |Sep|] == Sep
  }

  /** No occurrence of the separator anywhere in `s`. */
  predicate SepFree(s: string) {
    forall j :: 0 <= j < |s| ==> !SepAt(s, j)
  }

  /** The item value of a location; the state is not part of it. */
  function Encode(loc: Location): (r: string)
    ensures |r| == |loc.lat| + |loc.lon| + |loc.name| + |loc.country| + 3 * |Sep|
  {
    loc.lat + Sep + loc.lon + Sep + loc.name + Sep + loc.country
  }

  /** The first occurrence of the separator at or after `from`. */
  function FindSep(s: string, from: nat): (r: Option<nat>)
    decreases |s| - from
    ensures r.Some? ==> from <= r.value && SepAt(s, r.value)
    ensures r.Some? ==> forall j :: from <= j < r.value ==> !SepAt(s, j)
    ensures r.None? ==> forall j :: from <= j ==> !SepAt(s, j)
  {
    if from + |Sep| > |s| then None
    else if SepAt(s, from) then Some(from)
    else FindSep(s, from + 1)
  }

  /** `String.prototype.split` on `" | "`: the pieces between successive separators, scanning left to right. */
  function Split(s: string): (r: seq<string>)
    decreases |s|
    ensures |r| >= 1
  {
    match FindSep(s, 0)
    case None => [s]
    case Some(p) => [s[..p]] + Split(s[p + |Sep|..])
  }

  /** Joining pieces back with the separator. */
  function Join(fs: seq<string>): string
    requires |fs| >= 1
  {
    if |fs| == 1 then fs[0] else fs[0] + Sep + Join(fs[1..])
  }

  function Field(fs: seq<string>, i: nat): Option<string> {
    if i < |fs| then Some(fs[i]) else None
  }

  /** Decoding an item value: the first four pieces, `undefined` where there are fewer. */
  function Decode(value: string): (r: Decoded)
    ensures r.lat.Some?
    ensures r.country.Some? ==> r.name.Some? && r.lon.Some?
  {
    var fs := Split(value);
    Decoded(Field(fs, 0), Field(fs, 1), Field(fs, 2), Field(fs, 3))
  }

  /** Splitting loses nothing: the pieces joined back give the original string. */
  lemma {:induction false} SplitJoin(s: string)
    decreases |s|
    ensures Join(Split(s)) == s
  {
    match FindSep(s, 0)
    case None =>
    case Some(p) =>
      SplitJoin(s[p + |Sep|..]);
      assert s[..p] + Sep + s[p + |Sep|..] == s by {
        assert s[p..p + |Sep|] == Sep;
        assert s == s[..p] + s[p..p + |Sep|] + s[p + |Sep|..];
      }
  }

  /** No piece of a split contains the separator. */
  lemma {:induction false} SplitPiecesSepFree(s: string)
    decreases |s|
    ensures forall f :: f in Split(s) ==> SepFree(f)
  {
    match FindSep(s, 0)
    case None =>
      forall j ensures !SepAt(s, j) { }
    case Some(p) =>
      SplitPiecesSepFree(s[p + |Sep|..]);
      var f := s[..p];
      forall j | 0 <= j < |f| ensures !SepAt(f, j) {
        if j + |Sep| <= |f| {
          assert f[j..j + |Sep|] == s[j..j + |Sep|];
          assert !SepAt(s, j);
        }
      }
      assert Split(s) == [f] + Split(s[p + |Sep|..]);
  }

  /**
   * A field can sit in front of a separator and still be cut off exactly
   * there only if it has no separator inside and does not end in `" |"`
   * (which would join with the separator's leading space).
   */
  predicate SafeField(f: string) {
    SepFree(f) && !(|f| >= 2 && f[|f| - 2] == ' ' && f[|f| - 1] == '|')
  }

  /** In `f + " | " + rest` with a safe `f`, the first separator is the one right after `f`. */
  lemma FirstSepAfter(f: string, rest: string)
    requires SafeField(f)
    ensures FindSep(f + Sep + rest, 0) == Some(|f|)
  {
    var s := f + Sep + rest;
    forall j | 0 <= j < |f| ensures !SepAt(s, j) {
      if j + |Sep| <= |f| {
        assert s[j..j + |Sep|] == f[j..j + |Sep|];
        assert !SepAt(f, j);
      } else if j == |f| - 2 {
        assert s[j..j + |Sep|] == [f[|f| - 2], f[|f| - 1], ' '];
      } else {
        assert s[j..j + |Sep|] == [f[j], ' ', '|'];
      }
    }
    assert s[|f|..|f| + |Sep|] == Sep;
    assert SepAt(s, |f|);
  }

  /** A string one piece long splits into itself. */
  lemma SplitSepFree(s: string)
    requires SepFree(s)
    ensures Split(s) == [s]
  {
    match FindSep(s, 0)
    case None =>
    case Some(p) =>
      assert false;
  }

  /** Splitting `f + " | " + rest` yields `f` and then the pieces of `rest`. */
  lemma SplitCons(f: string, rest: string)
    requires SafeField(f)
    ensures Split(f + Sep + rest) == [f] + Split(rest)
  {
    var s := f + Sep + rest;
    FirstSepAfter(f, rest);
    assert s[..|f|] == f;
    assert s[|f| + |Sep|..] == rest;
  }

  /**
   * The round trip: decoding an item value gives back the four encoded
   * fields when the first three are safe and the country has no separator.
   */
  lemma DecodeEncode(loc: Location)
    requires SafeField(loc.lat) && SafeField(loc.lon) && SafeField(loc.name) && SepFree(loc.country)
    ensures Decode(Encode(loc)) == Decoded(Some(loc.lat), Some(loc.lon), Some(loc.name), Some(loc.country))
  {
    EncodeNested(loc);
    SplitFields(loc.lat, loc.lon, loc.name, loc.country);
  }

  /** The item value, with its concatenations grouped from the right. */
  lemma EncodeNested(loc: Location)
    ensures Encode(loc) == loc.lat + Sep + (loc.lon + Sep + (loc.name + Sep + loc.country))
  {
  }

  /** The pieces of four joined fields, the first three safe and the last free of the separator. */
  lemma SplitFields(a: string, b: string, c: string, d: string)
    requires SafeField(a) && SafeField(b) && SafeField(c) && SepFree(d)
    ensures Split(a + Sep + (b + Sep + (c + Sep + d))) == [a, b, c, d]
  {
    SplitSepFree(d);
    SplitCons(c, d);
    assert Split(c + Sep + d) == [c, d];
    SplitCons(b, c + Sep + d);
    assert Split(b + Sep + (c + Sep + d)) == [b, c, d];
    SplitCons(a, b + Sep + (c + Sep + d));
  }

  /**
   * Fields free of the separator are not enough: a latitude ending in
   * `" |"` shares its last two characters with the following separator, and
   * the longitude comes back wrong.
   */
  lemma SepFreeIsNotEnough()
    ensures var loc := Location("1 |", "2", "N", "C", None);
      && SepFree(loc.lat) && SepFree(loc.lon) && SepFree(loc.name) && SepFree(loc.country)
      && Decode(Encode(loc)).lat == Some("1")
      && Decode(Encode(loc)).lon == Some("| 2")
  {
    var loc := Location("1 |", "2", "N", "C", None);
    var rest := "| 2" + Sep + "N | C";
    assert Encode(loc) == "1" + Sep + rest;
    assert SafeField("| 2") by {
      forall j | 0 <= j < 3 ensures !SepAt("| 2", j) {
        assert j == 0 ==> "| 2"[j..j + |Sep|][0] == '|';
      }
    }
    SplitCons("1", rest);
    SplitCons("| 2", "N | C");
    assert SepFree("1 |") by {
      forall j | 0 <= j < 3 ensures !SepAt("1 |", j) {
        assert j == 0 ==> "1 |"[j..j + |Sep|][0] == '1';
      }
    }
  }

  /** Two locations that differ only in their state share one item value. */
  lemma StateNotEncoded(loc: Location, state: Option<string>)
    ensures Encode(loc.(state := state)) == Encode(loc)
    ensures Decode(Encode(loc.(state := state))) == Decode(Encode(loc))
  {
  }

  /** The page the selection navigates to: `/city/${name}?lat=${lat}&lon=${lon}`. */
  function CityPath(d: Decoded): (r: string)
    ensures |r| >= |"/city/"| && r[..|"/city/"|] == "/city/"
  {
    "/city/" + Interpolate(d.name) + "?lat=" + Interpolate(d.lat) + "&lon=" + Interpolate(d.lon)
  }

  /** The navigation after selecting a safely encoded location names its own fields. */
  lemma PathOfEncoded(loc: Location)
    requires SafeField(loc.lat) && SafeField(loc.lon) && SafeField(loc.name) && SepFree(loc.country)
    ensures CityPath(Decode(Encode(loc))) == "/city/" + loc.name + "?lat=" + loc.lat + "&lon=" + loc.lon
  {
    DecodeEncode(loc);
  }

  /** The dialog's own state plus what it has handed to the search history and the router. */
  class CitySearchDialog {
    var open: bool
    var query: string
    /** Entries passed to `addToHistory.mutate`, oldest first. */
    var historyAdds: seq<HistoryEntry>
    /** Paths passed to `navigate`, oldest first. */
    var navigations: seq<string>

    constructor()
      ensures !open && query == "" && historyAdds == [] && navigations == []
    {
      open := false;
      query := "";
      historyAdds := [];
      navigations := [];
    }

    /** The search button opens the dialog. */
    method Open()
      modifies this
      ensures open && query == old(query) && historyAdds == old(historyAdds) && navigations == old(navigations)
    {
      open := true;
    }

    /** Typing in the input replaces the query. */
    method SetQuery(q: string)
      modifies this
      ensures query == q && open == old(open) && historyAdds == old(historyAdds) && navigations == old(navigations)
    {
      query := q;
    }

    /** The guard `query.length > 2 && !isLoading` around the "No cities found." element. */
    predicate ShowsNoCities(isLoading: bool)
      reads this
      ensures ShowsNoCities(isLoading) ==> !isLoading && |query| >= 3
      ensures |query| >= 3 && !isLoading ==> ShowsNoCities(isLoading)
    {
      |query| > 2 && !isLoading
    }

    /** `handlSelectLocation`: record the decoded fields with the current query, close, navigate. */
    method SelectLocation(cityData: string)
      modifies this
      ensures var d := Decode(cityData);
        && historyAdds == old(historyAdds) + [HistoryEntry(old(query), d.name, d.lat, d.lon, d.country)]
        && !open
        && navigations == old(navigations) + [CityPath(d)]
        && query == old(query)
    {
      var d := Decode(cityData);
      historyAdds := historyAdds + [HistoryEntry(query, d.name, d.lat, d.lon, d.country)];
      open := false;
      navigations := navigations + [CityPath(d)];
    }
  }

  /** Selecting a safely encoded location records and navigates to that very location. */
  method SelectEncoded(dialog: CitySearchDialog, loc: Location)
    requires SafeField(loc.lat) && SafeField(loc.lon) && SafeField(loc.name) && SepFree(loc.country)
    modifies dialog
    ensures dialog.historyAdds == old(dialog.historyAdds) +
      [HistoryEntry(old(dialog.query), Some(loc.name), Some(loc.lat), Some(loc.lon), Some(loc.country))]
    ensures dialog.navigations == old(dialog.navigations) + ["/city/" + loc.name + "?lat=" + loc.lat + "&lon=" + loc.lon]
    ensures !dialog.open
  {
    DecodeEncode(loc);
    PathOfEncoded(loc);
    dialog.SelectLocation(Encode(loc));
  }
}
