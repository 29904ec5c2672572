/**
 * The catalogue pages' merge of category results and their removal of
 * duplicate ids through a JavaScript `Map` keyed by id.
 */
module Catalogue {
  import opened Typings

  /** `results.flatMap(res => res.results)`: the category lists joined in request order. */
  function Merge(pages: seq<seq<Movie>>): (r: seq<Movie>)
    ensures forall i :: 0 <= i < |pages| ==> multiset(pages[i]) <= multiset(r)
    ensures |pages| == 1 ==> r == pages[0]
  {
    if pages == [] then [] else pages[0] + Merge(pages[1..])
  }

  /** Merging splits over the request list: every category's records stay together and in order. */
  lemma {:induction false} MergeAppend(a: seq<seq<Movie>>, b: seq<seq<Movie>>)
    ensures Merge(a + b) == Merge(a) + Merge(b)
  {
    if a == [] {
      assert a + b == b;
    } else {
      assert (a + b)[1..] == a[1..] + b;
      MergeAppend(a[1..], b);
    }
  }

  /** One more category appends its records, unchanged, after everything merged so far. */
  lemma MergeSnoc(pages: seq<seq<Movie>>, page: seq<Movie>)
    ensures Merge(pages + [page]) == Merge(pages) + page
  {
    MergeAppend(pages, [page]);
  }

  /** A record is in the merged list exactly when some category returned it. */
  lemma {:induction false} MergeMembers(pages: seq<seq<Movie>>, x: Movie)
    ensures x in Merge(pages) <==> exists i :: 0 <= i < |pages| && x in pages[i]
  {
    if pages != [] {
      MergeMembers(pages[1..], x);
      if x in Merge(pages[1..]) {
        var i :| 0 <= i < |pages[1..]| && x in pages[1..][i];
        assert x in pages[i + 1];
      }
      if exists i :: 0 <= i < |pages| && x in pages[i] {
        var i :| 0 <= i < |pages| && x in pages[i];
        if i > 0 {
          assert x in pages[1..][i - 1];
        }
      }
    }
  }

  /** The ids occurring in a list. */
  function IdSet(xs: seq<Movie>): set<int> {
    set x | x in xs :: x.id
  }

  predicate DistinctIds(xs: seq<Movie>) {
    forall i, j :: 0 <= i < j < |xs| ==> xs[i].id != xs[j].id
  }

  lemma IdSetSnoc(xs: seq<Movie>, x: Movie)
    ensures IdSet(xs + [x]) == IdSet(xs) + {x.id}
  {
    assert forall y :: y in xs + [x] <==> y in xs || y == x;
  }

  /** The position of the first record with a given id. */
  function FirstIndex(xs: seq<Movie>, id: int): (i: nat)
    requires id in IdSet(xs)
    ensures i < |xs| && xs[i].id == id
    ensures forall j :: 0 <= j < i ==> xs[j].id != id
  {
    if xs[0].id == id then 0
    else
      var y :| y in xs && y.id == id;
      assert y in xs[1..];
      1 + FirstIndex(xs[1..], id)
  }

  /** The position of the last record with a given id. */
  function LastIndex(xs: seq<Movie>, id: int): (i: nat)
    requires id in IdSet(xs)
    ensures i < |xs| && xs[i].id == id
    ensures forall j :: i < j < |xs| ==> xs[j].id != id
  {
    var n := |xs| - 1;
    if xs[n].id == id then n
    else
      var y :| y in xs && y.id == id;
      assert xs == xs[..n] + [xs[n]];
      assert y in xs[..n];
      LastIndex(xs[..n], id)
  }

  /** A JavaScript `Map` from id to record: its keys in insertion order and its entries. */
  datatype IdMap = IdMap(keys: seq<int>, values: map<int, Movie>)

  ghost predicate WellFormed(m: IdMap) {
    && (forall i, j :: 0 <= i < j < |m.keys| ==> m.keys[i] != m.keys[j])
    && (forall i :: 0 <= i < |m.keys| ==> m.keys[i] in m.values)
    && (forall k :: k in m.values ==> k in m.keys)
  }

  /** `map.set(k, v)`: a new key goes last; a known key keeps its place and takes the new value. */
  function Set(m: IdMap, k: int, v: Movie): IdMap {
    IdMap(if k in m.values then m.keys else m.keys + [k], m.values[k := v])
  }

  /** `new Map(xs.map(x => [x.id, x]))`: the pairs set one after the other. */
  function BuildMap(xs: seq<Movie>): (m: IdMap)
    ensures WellFormed(m)
    ensures m.values.Keys == IdSet(xs)
  {
    if xs == [] then IdMap([], map[])
    else
      var n := |xs| - 1;
      assert xs == xs[..n] + [xs[n]];
      IdSetSnoc(xs[..n], xs[n]);
      Set(BuildMap(xs[..n]), xs[n].id, xs[n])
  }

  /** `Array.from(map.values())`: the entries in key order. */
  function Values(m: IdMap): (r: seq<Movie>)
    requires WellFormed(m)
    ensures |r| == |m.keys|
    ensures forall i :: 0 <= i < |r| ==> r[i] == m.values[m.keys[i]]
  {
    seq(|m.keys|, i requires 0 <= i < |m.keys| => m.values[m.keys[i]])
  }

  /** The deduplicated catalogue: every record in it is a record of the input. */
  function UniqueById(xs: seq<Movie>): (r: seq<Movie>)
    ensures forall i :: 0 <= i < |r| ==> r[i] in xs
  {
    BuildMapKeepsLast(xs);
    Values(BuildMap(xs))
  }

  lemma FirstIndexSnoc(xs: seq<Movie>, x: Movie, id: int)
    requires id in IdSet(xs)
    ensures id in IdSet(xs + [x]) && FirstIndex(xs + [x], id) == FirstIndex(xs, id)
  {
    IdSetSnoc(xs, x);
    var a, b := FirstIndex(xs + [x], id), FirstIndex(xs, id);
    assert (xs + [x])[b] == xs[b];
    if a < |xs| {
      assert (xs + [x])[a] == xs[a];
    }
  }

  /** Each entry of the built map is the last record with its id. */
  lemma {:induction false} BuildMapKeepsLast(xs: seq<Movie>)
    ensures forall k :: k in BuildMap(xs).values ==>
      k in IdSet(xs) && BuildMap(xs).values[k] == xs[LastIndex(xs, k)]
  {
    if xs != [] {
      var n := |xs| - 1;
      var p, x := xs[..n], xs[n];
      assert xs == p + [x];
      BuildMapKeepsLast(p);
      var m0, m := BuildMap(p), BuildMap(xs);
      assert m == Set(m0, x.id, x);
      forall k | k in m.values
        ensures k in IdSet(xs) && m.values[k] == xs[LastIndex(xs, k)]
      {
        if k != x.id {
          assert k in m0.values;
          assert LastIndex(xs, k) == LastIndex(p, k);
          assert xs[LastIndex(p, k)] == p[LastIndex(p, k)];
        }
      }
    }
  }

  /** Ids of `xs`, listed in the order of their first occurrence there. */
  ghost predicate InFirstOrder(keys: seq<int>, xs: seq<Movie>) {
    forall i, j :: 0 <= i < j < |keys| ==>
      keys[i] in IdSet(xs) && keys[j] in IdSet(xs) && FirstIndex(xs, keys[i]) < FirstIndex(xs, keys[j])
  }

  /** One more record keeps the order of the known ids, and a new id goes after all of them. */
  lemma FirstOrderSnoc(keys: seq<int>, p: seq<Movie>, x: Movie)
    requires InFirstOrder(keys, p)
    requires forall i :: 0 <= i < |keys| ==> keys[i] in IdSet(p)
    ensures InFirstOrder(keys, p + [x])
    ensures x.id !in IdSet(p) ==> InFirstOrder(keys + [x.id], p + [x])
  {
    var xs := p + [x];
    IdSetSnoc(p, x);
    assert xs[..|p|] == p;
    forall i | 0 <= i < |keys| ensures FirstIndex(xs, keys[i]) == FirstIndex(p, keys[i]) {
      FirstIndexSnoc(p, x, keys[i]);
    }
    if x.id !in IdSet(p) {
      assert FirstIndex(xs, x.id) == |p| by {
        forall j | 0 <= j < |p| ensures xs[j].id != x.id {
          assert xs[j] == p[j] && p[j] in p;
        }
      }
      var ks := keys + [x.id];
      forall i, j | 0 <= i < j < |ks|
        ensures ks[i] in IdSet(xs) && ks[j] in IdSet(xs) && FirstIndex(xs, ks[i]) < FirstIndex(xs, ks[j])
      {
        assert ks[i] == keys[i];
        if j < |keys| {
          assert ks[j] == keys[j];
        }
      }
    }
  }

  /** The keys of the built map follow the first occurrence of each id. */
  lemma {:induction false} BuildMapFirstOrder(xs: seq<Movie>)
    ensures InFirstOrder(BuildMap(xs).keys, xs)
  {
    if xs != [] {
      var n := |xs| - 1;
      var p, x := xs[..n], xs[n];
      assert xs == p + [x];
      BuildMapFirstOrder(p);
      var m0 := BuildMap(p);
      assert BuildMap(xs) == Set(m0, x.id, x);
      forall i | 0 <= i < |m0.keys| ensures m0.keys[i] in IdSet(p) {
        assert m0.keys[i] in m0.values;
      }
      FirstOrderSnoc(m0.keys, p, x);
    } else {
      assert BuildMap(xs).keys == [];
    }
  }

  /** No id occurs twice in the deduplicated catalogue. */
  lemma UniqueIdsDistinct(xs: seq<Movie>)
    ensures DistinctIds(UniqueById(xs))
  {
    BuildMapKeepsLast(xs);
  }

  /** The deduplicated catalogue has exactly the ids of its input. */
  lemma UniqueIdSet(xs: seq<Movie>)
    ensures IdSet(UniqueById(xs)) == IdSet(xs)
  {
    BuildMapKeepsLast(xs);
    var m, r := BuildMap(xs), UniqueById(xs);
    forall k | k in IdSet(xs) ensures k in IdSet(r) {
      var i :| 0 <= i < |m.keys| && m.keys[i] == k;
      assert r[i] in r;
    }
  }

  /** For every id, the record kept is the last input record with that id. */
  lemma UniqueKeepsLast(xs: seq<Movie>)
    ensures forall i :: 0 <= i < |UniqueById(xs)| ==>
      UniqueById(xs)[i].id in IdSet(xs) && UniqueById(xs)[i] == xs[LastIndex(xs, UniqueById(xs)[i].id)]
  {
    BuildMapKeepsLast(xs);
  }

  /** The deduplicated catalogue lists ids in the order of their first occurrence. */
  lemma UniqueFirstOccurrenceOrder(xs: seq<Movie>)
    ensures forall i, j :: 0 <= i < j < |UniqueById(xs)| ==>
      UniqueById(xs)[i].id in IdSet(xs) && UniqueById(xs)[j].id in IdSet(xs) &&
      FirstIndex(xs, UniqueById(xs)[i].id) < FirstIndex(xs, UniqueById(xs)[j].id)
  {
    BuildMapKeepsLast(xs);
    BuildMapFirstOrder(xs);
    var m, r := BuildMap(xs), UniqueById(xs);
    forall i | 0 <= i < |r| ensures r[i].id == m.keys[i] {
      assert m.keys[i] in m.values;
    }
  }

  /** A list without repeated ids comes back unchanged, so deduplicating twice is deduplicating once. */
  lemma UniqueOfDistinct(xs: seq<Movie>)
    requires DistinctIds(xs)
    ensures UniqueById(xs) == xs
  {
    UniqueKeepsLast(xs);
    UniqueFirstOccurrenceOrder(xs);
    var m, r := BuildMap(xs), UniqueById(xs);
    UniqueIdSet(xs);
    forall i | 0 <= i < |xs| ensures FirstIndex(xs, xs[i].id) == i && LastIndex(xs, xs[i].id) == i {
      assert xs[i] in xs;
    }
    // both r and xs list the ids of xs in first-occurrence order
    forall i | 0 <= i < |r| ensures r[i] == xs[FirstIndex(xs, r[i].id)] {
      assert r[i].id in IdSet(xs);
    }
    assert |r| == |xs| by {
      UniqueIdsDistinct(xs);
      DistinctCard(r);
      DistinctCard(xs);
    }
    StrictlyIncreasingIsIdentity(r, xs);
  }

  lemma {:induction false} DistinctCard(xs: seq<Movie>)
    requires DistinctIds(xs)
    ensures |IdSet(xs)| == |xs|
  {
    if xs != [] {
      var n := |xs| - 1;
      assert xs == xs[..n] + [xs[n]];
      DistinctCard(xs[..n]);
      IdSetSnoc(xs[..n], xs[n]);
      assert xs[n].id !in IdSet(xs[..n]);
    }
  }

  /** Positions that increase strictly and stay below `|xs|` in a list of length `|xs|` are `0, 1, ...`. */
  lemma StrictlyIncreasingIsIdentity(r: seq<Movie>, xs: seq<Movie>)
    requires |r| == |xs|
    requires forall i :: 0 <= i < |r| ==> r[i].id in IdSet(xs) && r[i] == xs[FirstIndex(xs, r[i].id)]
    requires forall i, j :: 0 <= i < j < |r| ==>
      r[i].id in IdSet(xs) && r[j].id in IdSet(xs) && FirstIndex(xs, r[i].id) < FirstIndex(xs, r[j].id)
    requires forall i :: 0 <= i < |xs| ==> FirstIndex(xs, xs[i].id) == i
    ensures r == xs
  {
    var n := |r|;
    forall i | 0 <= i < n ensures FirstIndex(xs, r[i].id) == i {
      Squeeze(r, xs, i);
    }
  }

  lemma Squeeze(r: seq<Movie>, xs: seq<Movie>, i: nat)
    requires i < |r| == |xs|
    requires forall k :: 0 <= k < |r| ==> r[k].id in IdSet(xs)
    requires forall a, b :: 0 <= a < b < |r| ==>
      r[a].id in IdSet(xs) && r[b].id in IdSet(xs) && FirstIndex(xs, r[a].id) < FirstIndex(xs, r[b].id)
    ensures FirstIndex(xs, r[i].id) == i
  {
    LowerBound(r, xs, i);
    UpperBound(r, xs, i);
  }

  lemma {:induction false} LowerBound(r: seq<Movie>, xs: seq<Movie>, i: nat)
    requires i < |r|
    requires forall k :: 0 <= k < |r| ==> r[k].id in IdSet(xs)
    requires forall a, b :: 0 <= a < b < |r| ==>
      r[a].id in IdSet(xs) && r[b].id in IdSet(xs) && FirstIndex(xs, r[a].id) < FirstIndex(xs, r[b].id)
    ensures FirstIndex(xs, r[i].id) >= i
  {
    if i > 0 {
      LowerBound(r, xs, i - 1);
    }
  }

  lemma {:induction false} UpperBound(r: seq<Movie>, xs: seq<Movie>, i: nat)
    requires i < |r| == |xs|
    requires forall k :: 0 <= k < |r| ==> r[k].id in IdSet(xs)
    requires forall a, b :: 0 <= a < b < |r| ==>
      r[a].id in IdSet(xs) && r[b].id in IdSet(xs) && FirstIndex(xs, r[a].id) < FirstIndex(xs, r[b].id)
    ensures FirstIndex(xs, r[i].id) <= i
    decreases |r| - i
  {
    if i < |r| - 1 {
      UpperBound(r, xs, i + 1);
    }
  }

  /** Deduplication is idempotent. */
  lemma UniqueIdempotent(xs: seq<Movie>)
    ensures UniqueById(UniqueById(xs)) == UniqueById(xs)
  {
    UniqueIdsDistinct(xs);
    UniqueOfDistinct(UniqueById(xs));
  }
}
