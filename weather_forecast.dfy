/**
 * The five-day forecast card: three-hourly forecast entries grouped into
 * days, keeping each day's first-seen fields and its running minimum and
 * maximum temperature, then cut to the first six days.
 */
module WeatherForecast {
  import opened JsValues

  datatype Condition = Condition(id: int, main: string, description: string, icon: string)

  /** One forecast entry (temperatures and wind speed taken as whole numbers). */
  datatype Entry = Entry(dt: int, tempMin: int, tempMax: int, humidity: int, windSpeed: int, weather: seq<Condition>)

  /** One accumulated day; `weather` is `weather[0]` of its first entry, `undefined` when that list is empty. */
  datatype DailyForecast = DailyForecast(date: int, tempMin: int, tempMax: int, humidity: int, wind: int, weather: Option<Condition>)

  const MaxDays: nat := 6

  function Min(a: int, b: int): int { if a <= b then a else b }
  function Max(a: int, b: int): int { if a >= b then a else b }

  /** The record stored the first time a day is seen. */
  function NewDay(e: Entry): DailyForecast {
    DailyForecast(e.dt, e.tempMin, e.tempMax, e.humidity, e.windSpeed,
                  if |e.weather| > 0 then Some(e.weather[0]) else None)
  }

  /** A later entry of a known day: only the running minimum and maximum change. */
  function Widen(d: DailyForecast, e: Entry): DailyForecast {
    d.(tempMin := Min(d.tempMin, e.tempMin), tempMax := Max(d.tempMax, e.tempMax))
  }

  /** The entries of `list` whose day key is `k`, in order. */
  function EntriesOn(list: seq<Entry>, dayKey: int -> string, k: string): seq<Entry>
  {
    if list == [] then []
    else
      var n := |list| - 1;
      EntriesOn(list[..n], dayKey, k) + (if dayKey(list[n].dt) == k then [list[n]] else [])
  }

  /** A day's entries are exactly the entries carrying its key. */
  lemma {:induction false} EntriesOnMembers(list: seq<Entry>, dayKey: int -> string, k: string)
    ensures forall e :: e in EntriesOn(list, dayKey, k) <==> e in list && dayKey(e.dt) == k
  {
    if list != [] {
      var n := |list| - 1;
      assert list == list[..n] + [list[n]];
      EntriesOnMembers(list[..n], dayKey, k);
    }
  }

  /** The lowest minimum temperature of some entries. */
  function LowestMin(es: seq<Entry>): (r: int)
    requires es != []
    ensures forall e :: e in es ==> r <= e.tempMin
  {
    var n := |es| - 1;
    assert es == es[..n] + [es[n]];
    if n == 0 then es[0].tempMin else Min(LowestMin(es[..n]), es[n].tempMin)
  }

  /** The lowest minimum is the minimum of one of the entries. */
  lemma {:induction false} LowestMinAttained(es: seq<Entry>)
    requires es != []
    ensures exists e :: e in es && LowestMin(es) == e.tempMin
  {
    var n := |es| - 1;
    if n == 0 {
      assert es[0] in es;
    } else {
      var p := es[..n];
      LowestMinAttained(p);
      var w :| w in p && LowestMin(p) == w.tempMin;
      assert w in es && es[n] in es;
    }
  }

  /** The highest maximum temperature of some entries. */
  function HighestMax(es: seq<Entry>): (r: int)
    requires es != []
    ensures forall e :: e in es ==> e.tempMax <= r
  {
    var n := |es| - 1;
    assert es == es[..n] + [es[n]];
    if n == 0 then es[0].tempMax else Max(HighestMax(es[..n]), es[n].tempMax)
  }

  /** The highest maximum is the maximum of one of the entries. */
  lemma {:induction false} HighestMaxAttained(es: seq<Entry>)
    requires es != []
    ensures exists e :: e in es && HighestMax(es) == e.tempMax
  {
    var n := |es| - 1;
    if n == 0 {
      assert es[0] in es;
    } else {
      var p := es[..n];
      HighestMaxAttained(p);
      var w :| w in p && HighestMax(p) == w.tempMax;
      assert w in es && es[n] in es;
    }
  }

  /** The distinct day keys of `list`, each placed where its day first appears. */
  function DayKeys(list: seq<Entry>, dayKey: int -> string): (r: seq<string>)
    ensures forall i, j :: 0 <= i < j < |r| ==> r[i] != r[j]
  {
    if list == [] then []
    else
      var n := |list| - 1;
      var prev := DayKeys(list[..n], dayKey);
      var k := dayKey(list[n].dt);
      if k in prev then prev else prev + [k]
  }

  /** A key is listed exactly when the day has entries. */
  lemma {:induction false} DayKeysMembers(list: seq<Entry>, dayKey: int -> string)
    ensures forall k :: k in DayKeys(list, dayKey) <==> EntriesOn(list, dayKey, k) != []
  {
    if list != [] {
      var n := |list| - 1;
      DayKeysMembers(list[..n], dayKey);
    }
  }

  /** What the forecast says about day `k`: its first entry's fields with the extreme temperatures of all its entries. */
  function Summary(list: seq<Entry>, dayKey: int -> string, k: string): DailyForecast
    requires EntriesOn(list, dayKey, k) != []
  {
    var es := EntriesOn(list, dayKey, k);
    NewDay(es[0]).(tempMin := LowestMin(es), tempMax := HighestMax(es))
  }

  /** All days, one per distinct key, in order of first appearance. */
  function Days(list: seq<Entry>, dayKey: int -> string): (r: seq<DailyForecast>)
    ensures |r| == |DayKeys(list, dayKey)|
    ensures forall j :: 0 <= j < |r| ==>
      EntriesOn(list, dayKey, DayKeys(list, dayKey)[j]) != [] && r[j] == Summary(list, dayKey, DayKeys(list, dayKey)[j])
  {
    var keys := DayKeys(list, dayKey);
    DayKeysMembers(list, dayKey);
    seq(|keys|, j requires 0 <= j < |keys| => assert keys[j] in keys; Summary(list, dayKey, keys[j]))
  }

  /** How one more entry changes the day list and the summary of each day. */
  lemma SummarySnoc(l: seq<Entry>, e: Entry, dayKey: int -> string, k: string)
    ensures var l' := l + [e];
      && l'[..|l|] == l
      && EntriesOn(l', dayKey, k) == EntriesOn(l, dayKey, k) + (if dayKey(e.dt) == k then [e] else [])
      && DayKeys(l', dayKey) == (if dayKey(e.dt) in DayKeys(l, dayKey) then DayKeys(l, dayKey)
                                 else DayKeys(l, dayKey) + [dayKey(e.dt)])
  {
    var l' := l + [e];
    assert l'[..|l|] == l;
  }

  lemma SummaryStep(l: seq<Entry>, e: Entry, dayKey: int -> string, k: string)
    requires EntriesOn(l + [e], dayKey, k) != []
    ensures EntriesOn(l, dayKey, k) == [] ==> Summary(l + [e], dayKey, k) == NewDay(e)
    ensures EntriesOn(l, dayKey, k) != [] && dayKey(e.dt) != k ==>
      Summary(l + [e], dayKey, k) == Summary(l, dayKey, k)
    ensures EntriesOn(l, dayKey, k) != [] && dayKey(e.dt) == k ==>
      Summary(l + [e], dayKey, k) == Widen(Summary(l, dayKey, k), e)
  {
    SummarySnoc(l, e, dayKey, k);
    var es := EntriesOn(l, dayKey, k);
    if es != [] && dayKey(e.dt) == k {
      var es' := es + [e];
      assert es'[..|es|] == es;
      assert es'[0] == es[0];
      assert LowestMin(es') == Min(LowestMin(es), e.tempMin);
      assert HighestMax(es') == Max(HighestMax(es), e.tempMax);
    } else if es != [] {
      assert EntriesOn(l + [e], dayKey, k) == es;
    } else {
      assert EntriesOn(l + [e], dayKey, k) == [e];
    }
  }

  /** Each accumulated day holds the summary of its entries so far. */
  ghost predicate Summarised(acc: map<string, DailyForecast>, l: seq<Entry>, dayKey: int -> string) {
    forall k :: k in acc ==> EntriesOn(l, dayKey, k) != [] && acc[k] == Summary(l, dayKey, k)
  }

  /** The accumulator after the entries `l`: the days of `l` in key order, each with its summary. */
  ghost predicate AccMatches(acc: map<string, DailyForecast>, order: seq<string>, l: seq<Entry>, dayKey: int -> string) {
    && order == DayKeys(l, dayKey)
    && (forall k :: k in acc <==> k in order)
    && Summarised(acc, l, dayKey)
  }

  lemma KeysStep(l: seq<Entry>, e: Entry, dayKey: int -> string)
    ensures dayKey(e.dt) in DayKeys(l, dayKey) ==> DayKeys(l + [e], dayKey) == DayKeys(l, dayKey)
    ensures dayKey(e.dt) !in DayKeys(l, dayKey) ==> DayKeys(l + [e], dayKey) == DayKeys(l, dayKey) + [dayKey(e.dt)]
  {
    SummarySnoc(l, e, dayKey, dayKey(e.dt));
  }

  lemma SummariesStepNew(acc: map<string, DailyForecast>, l: seq<Entry>, e: Entry, dayKey: int -> string)
    requires Summarised(acc, l, dayKey)
    requires EntriesOn(l, dayKey, dayKey(e.dt)) == []
    ensures Summarised(acc[dayKey(e.dt) := NewDay(e)], l + [e], dayKey)
  {
    var acc' := acc[dayKey(e.dt) := NewDay(e)];
    forall k | k in acc'
      ensures EntriesOn(l + [e], dayKey, k) != [] && acc'[k] == Summary(l + [e], dayKey, k)
    {
      SummarySnoc(l, e, dayKey, k);
      SummaryStep(l, e, dayKey, k);
    }
  }

  lemma SummariesStepKnown(acc: map<string, DailyForecast>, l: seq<Entry>, e: Entry, dayKey: int -> string)
    requires Summarised(acc, l, dayKey)
    requires dayKey(e.dt) in acc
    ensures Summarised(acc[dayKey(e.dt) := Widen(acc[dayKey(e.dt)], e)], l + [e], dayKey)
  {
    var acc' := acc[dayKey(e.dt) := Widen(acc[dayKey(e.dt)], e)];
    forall k | k in acc'
      ensures EntriesOn(l + [e], dayKey, k) != [] && acc'[k] == Summary(l + [e], dayKey, k)
    {
      SummarySnoc(l, e, dayKey, k);
      SummaryStep(l, e, dayKey, k);
    }
  }

  /** A day seen for the first time is appended with its first entry's record. */
  lemma AccStepNewDay(acc: map<string, DailyForecast>, order: seq<string>, l: seq<Entry>, e: Entry, dayKey: int -> string)
    requires AccMatches(acc, order, l, dayKey)
    requires dayKey(e.dt) !in acc
    ensures AccMatches(acc[dayKey(e.dt) := NewDay(e)], order + [dayKey(e.dt)], l + [e], dayKey)
  {
    KeysStep(l, e, dayKey);
    DayKeysMembers(l, dayKey);
    SummariesStepNew(acc, l, e, dayKey);
  }

  /** A day seen before keeps its record, with the running minimum and maximum updated. */
  lemma AccStepKnownDay(acc: map<string, DailyForecast>, order: seq<string>, l: seq<Entry>, e: Entry, dayKey: int -> string)
    requires AccMatches(acc, order, l, dayKey)
    requires dayKey(e.dt) in acc
    ensures AccMatches(acc[dayKey(e.dt) := Widen(acc[dayKey(e.dt)], e)], order, l + [e], dayKey)
  {
    KeysStep(l, e, dayKey);
    SummariesStepKnown(acc, l, e, dayKey);
  }

  /** `Object.values` of a finished accumulator lists the days. */
  lemma AccValues(acc: map<string, DailyForecast>, order: seq<string>, list: seq<Entry>, dayKey: int -> string)
    requires AccMatches(acc, order, list, dayKey)
    ensures forall j :: 0 <= j < |order| ==> order[j] in acc
    ensures seq(|order|, j requires 0 <= j < |order| && order[j] in acc => acc[order[j]]) == Days(list, dayKey)
  {
  }

  /**
   * `nextDays`: the `reduce` into a keyed accumulator (a map plus the
   * insertion order of its keys, which is what `Object.values` follows for
   * date-shaped keys), then `slice(0, 6)`.
   */
  method NextDays(list: seq<Entry>, dayKey: int -> string) returns (days: seq<DailyForecast>)
    ensures var all := Days(list, dayKey);
      days == if |all| <= MaxDays then all else all[..MaxDays]
  {
    var order: seq<string> := [];
    var acc: map<string, DailyForecast> := map[];
    var i := 0;
    while i < |list|
      invariant 0 <= i <= |list|
      invariant AccMatches(acc, order, list[..i], dayKey)
    {
      var e := list[i];
      var date := dayKey(e.dt);
      assert list[..i + 1] == list[..i] + [e];
      if date !in acc {
        AccStepNewDay(acc, order, list[..i], e, dayKey);
        acc := acc[date := NewDay(e)];
        order := order + [date];
      } else {
        AccStepKnownDay(acc, order, list[..i], e, dayKey);
        var d := acc[date];
        acc := acc[date := d.(tempMin := Min(d.tempMin, e.tempMin), tempMax := Max(d.tempMax, e.tempMax))];
      }
      i := i + 1;
    }
    assert list[..i] == list;
    AccValues(acc, order, list, dayKey);
    var all := seq(|order|, j requires 0 <= j < |order| && order[j] in acc => acc[order[j]]);
    days := if |all| <= MaxDays then all else all[..MaxDays];
  }

  /** Every day's minimum is the lowest minimum of its entries and its maximum the highest maximum. */
  lemma DayExtremes(list: seq<Entry>, dayKey: int -> string, j: nat)
    requires j < |Days(list, dayKey)|
    ensures var d, k := Days(list, dayKey)[j], DayKeys(list, dayKey)[j];
      && (forall e :: e in list && dayKey(e.dt) == k ==> d.tempMin <= e.tempMin && e.tempMax <= d.tempMax)
      && (exists e :: e in list && dayKey(e.dt) == k && d.tempMin == e.tempMin)
      && (exists e :: e in list && dayKey(e.dt) == k && d.tempMax == e.tempMax)
  {
    var keys := DayKeys(list, dayKey);
    DayKeysMembers(list, dayKey);
    EntriesOnMembers(list, dayKey, keys[j]);
    var es := EntriesOn(list, dayKey, keys[j]);
    assert keys[j] in keys;
    var lo, hi := LowestMin(es), HighestMax(es);
    LowestMinAttained(es);
    HighestMaxAttained(es);
    var elo :| elo in es && lo == elo.tempMin;
    var ehi :| ehi in es && hi == ehi.tempMax;
  }

  /** The first entry of a day, and its position in the list. */
  function FirstOfDay(list: seq<Entry>, dayKey: int -> string, k: string): (i: nat)
    requires EntriesOn(list, dayKey, k) != []
    ensures i < |list| && dayKey(list[i].dt) == k
    ensures forall j :: 0 <= j < i ==> dayKey(list[j].dt) != k
    ensures EntriesOn(list, dayKey, k)[0] == list[i]
  {
    var n := |list| - 1;
    assert list == list[..n] + [list[n]];
    if EntriesOn(list[..n], dayKey, k) == [] then
      EntriesOnMembers(list[..n], dayKey, k);
      assert forall j :: 0 <= j < n ==> list[..n][j] in list[..n];
      n
    else
      var i := FirstOfDay(list[..n], dayKey, k);
      assert list[..n][i] == list[i];
      i
  }

  /** `keys` lists days of `list` in the order in which their first entries appear. */
  ghost predicate DaysInFirstOrder(keys: seq<string>, list: seq<Entry>, dayKey: int -> string) {
    forall i, j :: 0 <= i < j < |keys| ==>
      && EntriesOn(list, dayKey, keys[i]) != []
      && EntriesOn(list, dayKey, keys[j]) != []
      && FirstOfDay(list, dayKey, keys[i]) < FirstOfDay(list, dayKey, keys[j])
  }

  /** A later entry does not move the first entry of a day already seen. */
  lemma FirstOfDaySnoc(p: seq<Entry>, e: Entry, dayKey: int -> string, k: string)
    requires EntriesOn(p, dayKey, k) != []
    ensures EntriesOn(p + [e], dayKey, k) != []
    ensures FirstOfDay(p + [e], dayKey, k) == FirstOfDay(p, dayKey, k)
  {
    var xs := p + [e];
    assert xs[..|p|] == p;
    var i0 := FirstOfDay(p, dayKey, k);
    assert xs[i0] == p[i0];
    forall j | 0 <= j < i0 ensures dayKey(xs[j].dt) != k {
      assert xs[j] == p[j];
    }
  }

  /** A day first seen in a later entry starts at that entry. */
  lemma FirstOfDayNew(p: seq<Entry>, e: Entry, dayKey: int -> string)
    requires EntriesOn(p, dayKey, dayKey(e.dt)) == []
    ensures EntriesOn(p + [e], dayKey, dayKey(e.dt)) != []
    ensures FirstOfDay(p + [e], dayKey, dayKey(e.dt)) == |p|
  {
    var xs, k := p + [e], dayKey(e.dt);
    assert xs[..|p|] == p;
    EntriesOnMembers(p, dayKey, k);
    forall j | 0 <= j < |p| ensures dayKey(xs[j].dt) != k {
      assert xs[j] == p[j] && p[j] in p;
    }
  }

  /**
   * The day keys follow the first appearance of their days, which decides
   * which days the six-day cut keeps.
   */
  lemma {:induction false} DayKeysFirstOrder(list: seq<Entry>, dayKey: int -> string)
    ensures DaysInFirstOrder(DayKeys(list, dayKey), list, dayKey)
  {
    if list != [] {
      var n := |list| - 1;
      var p, e := list[..n], list[n];
      assert list == p + [e];
      DayKeysFirstOrder(p, dayKey);
      DayKeysMembers(p, dayKey);
      var keys := DayKeys(p, dayKey);
      forall i | 0 <= i < |keys|
        ensures EntriesOn(list, dayKey, keys[i]) != []
        ensures FirstOfDay(list, dayKey, keys[i]) == FirstOfDay(p, dayKey, keys[i])
      {
        assert keys[i] in keys;
        FirstOfDaySnoc(p, e, dayKey, keys[i]);
      }
      var k := dayKey(e.dt);
      if k in keys {
        assert DayKeys(list, dayKey) == keys;
      } else {
        FirstOfDayNew(p, e, dayKey);
        var ks := keys + [k];
        assert DayKeys(list, dayKey) == ks;
        forall i, j | 0 <= i < j < |ks|
          ensures EntriesOn(list, dayKey, ks[i]) != [] && EntriesOn(list, dayKey, ks[j]) != []
          ensures FirstOfDay(list, dayKey, ks[i]) < FirstOfDay(list, dayKey, ks[j])
        {
          assert ks[i] == keys[i];
          if j < |keys| {
            assert ks[j] == keys[j];
          }
        }
      }
    }
  }

  /** Date, humidity, wind and conditions come from the day's first entry and are never overwritten. */
  lemma DayFirstFields(list: seq<Entry>, dayKey: int -> string, j: nat)
    requires j < |Days(list, dayKey)|
    ensures var d, k := Days(list, dayKey)[j], DayKeys(list, dayKey)[j];
      EntriesOn(list, dayKey, k) != [] &&
      var e := list[FirstOfDay(list, dayKey, k)];
      d.date == e.dt && d.humidity == e.humidity && d.wind == e.windSpeed &&
      d.weather == (if |e.weather| > 0 then Some(e.weather[0]) else None)
  {
    DayKeysMembers(list, dayKey);
    assert DayKeys(list, dayKey)[j] in DayKeys(list, dayKey);
  }

  /** Exactly one day per distinct key: keys are distinct and cover every entry. */
  lemma OneDayPerKey(list: seq<Entry>, dayKey: int -> string)
    ensures forall i, j :: 0 <= i < j < |DayKeys(list, dayKey)| ==> DayKeys(list, dayKey)[i] != DayKeys(list, dayKey)[j]
    ensures forall e :: e in list ==> dayKey(e.dt) in DayKeys(list, dayKey)
    ensures list == [] ==> Days(list, dayKey) == []
  {
    DayKeysMembers(list, dayKey);
    forall e | e in list ensures dayKey(e.dt) in DayKeys(list, dayKey) {
      EntriesOnMembers(list, dayKey, dayKey(e.dt));
      assert e in EntriesOn(list, dayKey, dayKey(e.dt));
    }
  }
}
