/**
 * The in-memory vector store: entries appended by `upsert`, and a query
 * that ranks every entry by its distance to a vector.
 *
 * Distances are exact reals and the square root is not taken: the square
 * root is increasing, so the ranking is the same; the reported distance is
 * the squared one.
 */
module VectorStore {
  import opened Wrappers
  import opened JsonValues
  import opened Slices

  type Dict = map<string, Json>

  datatype Entry = Entry(id: string, vector: seq<real>, metadata: Dict)

  datatype Scored = Scored(distance: real, id: string, metadata: Dict)

  /** The squared Euclidean distance over the pairs `zip` forms: the common prefix of the two vectors. */
  function SquaredDistance(a: seq<real>, b: seq<real>): (r: real)
    ensures r >= 0.0
    decreases |a|
  {
    if a == [] || b == [] then 0.0
    else (a[0] - b[0]) * (a[0] - b[0]) + SquaredDistance(a[1..], b[1..])
  }

  /** Components past the shorter vector do not count. */
  lemma {:induction false} DistanceZipPrefix(a: seq<real>, b: seq<real>, extra: seq<real>)
    requires |a| <= |b|
    ensures SquaredDistance(a, b + extra) == SquaredDistance(a, b)
    decreases |a|
  {
    if a != [] {
      assert (b + extra)[1..] == b[1..] + extra;
      DistanceZipPrefix(a[1..], b[1..], extra);
    }
  }

  lemma {:induction false} DistanceSelf(a: seq<real>)
    ensures SquaredDistance(a, a) == 0.0
    decreases |a|
  {
    if a != [] {
      DistanceSelf(a[1..]);
    }
  }

  /** The entries `upsert` appends for the first `n` positions. */
  function Entries(embeddings: seq<seq<real>>, metadatas: seq<Dict>, ids: seq<string>, n: nat): (r: seq<Entry>)
    requires n <= |embeddings| && n <= |metadatas| && n <= |ids|
    ensures |r| == n
    ensures forall i | 0 <= i < n :: r[i] == Entry(ids[i], embeddings[i], metadatas[i])
  {
    if n == 0 then [] else Entries(embeddings, metadatas, ids, n - 1) + [Entry(ids[n - 1], embeddings[n - 1], metadatas[n - 1])]
  }

  /** The number of entries `upsert` can append before an index runs past `ids` or `metadatas`. */
  function Appendable(embeddings: seq<seq<real>>, metadatas: seq<Dict>, ids: seq<string>): (n: nat)
    ensures n <= |embeddings| && n <= |metadatas| && n <= |ids|
    ensures n < |embeddings| ==> n == |metadatas| || n == |ids|
  {
    if |embeddings| <= |metadatas| && |embeddings| <= |ids| then |embeddings|
    else if |metadatas| <= |ids| then |metadatas|
    else |ids|
  }

  /** Every entry scored against `vector`, in store order. */
  function Scores(vector: seq<real>, store: seq<Entry>): (r: seq<Scored>)
    ensures |r| == |store|
    ensures forall i | 0 <= i < |store| ::
      r[i] == Scored(SquaredDistance(vector, store[i].vector), store[i].id, store[i].metadata)
  {
    seq(|store|, i requires 0 <= i < |store| =>
      Scored(SquaredDistance(vector, store[i].vector), store[i].id, store[i].metadata))
  }

  // ---------------------------------------------------------------- the stable sort on the distance key

  predicate SortedByDistance(s: seq<Scored>) {
    forall i, j | 0 <= i < j < |s| :: s[i].distance <= s[j].distance
  }

  /** `x` placed after every element whose distance is not greater. */
  function Insert(s: seq<Scored>, x: Scored): (r: seq<Scored>)
    ensures multiset(r) == multiset(s) + multiset{x}
    ensures |r| == |s| + 1
    decreases |s|
  {
    if s == [] then [x]
    else if x.distance < s[0].distance then [x] + s
    else
      assert s == [s[0]] + s[1..];
      [s[0]] + Insert(s[1..], x)
  }

  /** `list.sort(key=distance)`: a stable sort, defined here as insertion in order. */
  function Sort(s: seq<Scored>): (r: seq<Scored>)
    ensures |r| == |s|
    decreases |s|
  {
    if s == [] then [] else Insert(Sort(s[..|s| - 1]), s[|s| - 1])
  }

  lemma ConsSorted(y: Scored, t: seq<Scored>)
    requires SortedByDistance(t) && (t == [] || y.distance <= t[0].distance)
    ensures SortedByDistance([y] + t)
  {
    var r := [y] + t;
    forall i, j | 0 <= i < j < |r|
      ensures r[i].distance <= r[j].distance
    {
      if i > 0 {
        assert r[i] == t[i - 1] && r[j] == t[j - 1];
      } else {
        assert r[j] == t[j - 1];
        assert t[0].distance <= t[j - 1].distance;
      }
    }
  }

  lemma {:induction false} InsertSorted(s: seq<Scored>, x: Scored)
    requires SortedByDistance(s)
    ensures SortedByDistance(Insert(s, x))
    ensures Insert(s, x)[0] == if s != [] && s[0].distance <= x.distance then s[0] else x
    decreases |s|
  {
    if s == [] {
    } else if x.distance < s[0].distance {
      ConsSorted(x, s);
    } else {
      SortedTail(s);
      InsertSorted(s[1..], x);
      var rest := Insert(s[1..], x);
      assert rest[0] == x || rest[0] == s[1];
      ConsSorted(s[0], rest);
    }
  }

  lemma {:induction false} SortSorted(s: seq<Scored>)
    ensures SortedByDistance(Sort(s))
    decreases |s|
  {
    if s != [] {
      SortSorted(s[..|s| - 1]);
      InsertSorted(Sort(s[..|s| - 1]), s[|s| - 1]);
    }
  }

  lemma {:induction false} SortPermutes(s: seq<Scored>)
    ensures multiset(Sort(s)) == multiset(s)
    decreases |s|
  {
    if s != [] {
      SortPermutes(s[..|s| - 1]);
      assert s == s[..|s| - 1] + [s[|s| - 1]];
    }
  }

  /** The elements of `s` at distance `d`, in their order in `s`. */
  function AtDistance(s: seq<Scored>, d: real): seq<Scored>
    decreases |s|
  {
    if s == [] then [] else Selected(s[0], d) + AtDistance(s[1..], d)
  }

  /** One element's contribution to `AtDistance`. */
  function Selected(x: Scored, d: real): seq<Scored> {
    if x.distance == d then [x] else []
  }

  lemma {:induction false} AtDistanceAppend(a: seq<Scored>, b: seq<Scored>, d: real)
    ensures AtDistance(a + b, d) == AtDistance(a, d) + AtDistance(b, d)
    decreases |a|
  {
    if a == [] {
      assert a + b == b;
    } else {
      var x, t := a[0], a[1..];
      assert a == [x] + t;
      assert a + b == [x] + (t + b);
      AtDistanceCons(x, t + b, d);
      AtDistanceCons(x, t, d);
      AtDistanceAppend(t, b, d);
      Associative(Selected(x, d), AtDistance(t, d), AtDistance(b, d));
    }
  }

  lemma AtDistanceCons(x: Scored, t: seq<Scored>, d: real)
    ensures AtDistance([x] + t, d) == Selected(x, d) + AtDistance(t, d)
  {
    assert ([x] + t)[1..] == t;
  }

  lemma {:induction false} AtDistanceAbove(s: seq<Scored>, d: real)
    requires forall i | 0 <= i < |s| :: s[i].distance > d
    ensures AtDistance(s, d) == []
    decreases |s|
  {
    if s != [] {
      AtDistanceAbove(s[1..], d);
    }
  }

  lemma SortedTail(s: seq<Scored>)
    requires s != [] && SortedByDistance(s)
    ensures SortedByDistance(s[1..])
    ensures forall i | 0 <= i < |s| :: s[0].distance <= s[i].distance
  {
  }

  lemma InsertStableFront(s: seq<Scored>, x: Scored, d: real)
    requires s != [] && SortedByDistance(s) && x.distance < s[0].distance
    ensures AtDistance([x] + s, d) == AtDistance(s, d) + AtDistance([x], d)
  {
    AtDistanceAppend([x], s, d);
    if x.distance == d {
      SortedTail(s);
      AtDistanceAbove(s, d);
    }
  }

  lemma InsertStableBehind(s: seq<Scored>, x: Scored, d: real, rest: seq<Scored>)
    requires s != [] && AtDistance(rest, d) == AtDistance(s[1..], d) + AtDistance([x], d)
    ensures AtDistance([s[0]] + rest, d) == AtDistance(s, d) + AtDistance([x], d)
  {
    var t := [s[0]] + rest;
    assert t[0] == s[0] && t[1..] == rest;
    var a := Selected(s[0], d);
    assert AtDistance(t, d) == a + AtDistance(rest, d);
    assert AtDistance(s, d) == a + AtDistance(s[1..], d);
  }

  /** Inserting into a sorted list puts `x` after the elements of its own distance. */
  lemma {:induction false} InsertStable(s: seq<Scored>, x: Scored, d: real)
    requires SortedByDistance(s)
    ensures AtDistance(Insert(s, x), d) == AtDistance(s, d) + AtDistance([x], d)
    decreases |s|
  {
    if s == [] {
    } else if x.distance < s[0].distance {
      InsertStableFront(s, x, d);
    } else {
      SortedTail(s);
      InsertStable(s[1..], x, d);
      InsertStableBehind(s, x, d, Insert(s[1..], x));
    }
  }

  /** Stability: the elements at any one distance keep their relative order. */
  lemma {:induction false} SortStable(s: seq<Scored>, d: real)
    ensures AtDistance(Sort(s), d) == AtDistance(s, d)
    decreases |s|
  {
    if s != [] {
      var init, last := s[..|s| - 1], s[|s| - 1];
      assert init + [last] == s;
      assert Sort(s) == Insert(Sort(init), last);
      SortStable(init, d);
      SortSorted(init);
      InsertStable(Sort(init), last, d);
      AtDistanceAppend(init, [last], d);
    }
  }

  /** A prefix of a sorted permutation of `s` is sorted and holds only elements of `s`. */
  lemma HeadOfSorted(sorted: seq<Scored>, k: int, s: seq<Scored>)
    requires SortedByDistance(sorted) && multiset(sorted) == multiset(s)
    ensures SortedByDistance(Head(sorted, k))
    ensures forall i | 0 <= i < |Head(sorted, k)| :: Head(sorted, k)[i] in s
  {
    var r := Head(sorted, k);
    forall i | 0 <= i < |r|
      ensures r[i] in s
    {
      assert r[i] == sorted[i];
      assert sorted[i] in multiset(s);
    }
  }

  // ---------------------------------------------------------------- the store

  class InMemoryVectorStore {
    var store: seq<Entry>

    constructor()
      ensures store == []
    {
      store := [];
    }

    /**
     * `upsert`: the entry for position `i` is appended in order; a position
     * missing from `ids` or `metadatas` raises `IndexError` after the
     * earlier entries have been appended.
     */
    method Upsert(embeddings: seq<seq<real>>, metadatas: seq<Dict>, ids: seq<string>) returns (error: Option<string>)
      modifies this
      ensures store == old(store) + Entries(embeddings, metadatas, ids, Appendable(embeddings, metadatas, ids))
      ensures error.Some? <==> |ids| < |embeddings| || |metadatas| < |embeddings|
    {
      var entries := store;
      error := None;
      var i := 0;
      while i < |embeddings|
        invariant 0 <= i <= |embeddings| && i <= |metadatas| && i <= |ids|
        invariant entries == old(store) + Entries(embeddings, metadatas, ids, i)
        invariant store == old(store)
      {
        if i >= |ids| || i >= |metadatas| {
          error := Some("IndexError: list index out of range");
          break;
        }
        entries := entries + [Entry(ids[i], embeddings[i], metadatas[i])];
        i := i + 1;
      }
      store := entries;
    }

    /** `query`: the entries sorted by distance to `vector`, ties in store order, cut to `topK`. */
    function Query(vector: seq<real>, topK: int): (r: seq<Scored>)
      reads this
      ensures topK >= 0 ==> |r| == if topK <= |store| then topK else |store|
      ensures SortedByDistance(r)
      ensures forall i | 0 <= i < |r| :: r[i] in Scores(vector, store)
    {
      var sorted := Sort(Scores(vector, store));
      SortSorted(Scores(vector, store));
      SortPermutes(Scores(vector, store));
      HeadOfSorted(sorted, topK, Scores(vector, store));
      Head(sorted, topK)
    }
  }

  /** A full query returns every entry once, and the entries at one distance in store order. */
  lemma QueryAll(vs: InMemoryVectorStore, vector: seq<real>, d: real)
    ensures multiset(vs.Query(vector, |vs.store|)) == multiset(Scores(vector, vs.store))
    ensures AtDistance(vs.Query(vector, |vs.store|), d) == AtDistance(Scores(vector, vs.store), d)
  {
    var s := Scores(vector, vs.store);
    assert vs.Query(vector, |vs.store|) == Sort(s);
    SortPermutes(s);
    SortStable(s, d);
  }

  /**
   * A query cut to `topK` keeps the nearest entries: it is a prefix of the
   * full ranking, no entry it drops is nearer than one it keeps, and at each
   * distance the entries kept are the first ones in store order.
   */
  lemma QueryNearest(vs: InMemoryVectorStore, vector: seq<real>, topK: int, d: real)
    ensures vs.Query(vector, topK) == vs.Query(vector, |vs.store|)[..|vs.Query(vector, topK)|]
    ensures multiset(vs.Query(vector, topK)) + multiset(vs.Query(vector, |vs.store|)[|vs.Query(vector, topK)|..])
      == multiset(Scores(vector, vs.store))
    ensures forall i, j | 0 <= i < |vs.Query(vector, topK)| <= j < |vs.store| ::
      vs.Query(vector, topK)[i].distance <= vs.Query(vector, |vs.store|)[j].distance
    ensures AtDistance(Scores(vector, vs.store), d)
      == AtDistance(vs.Query(vector, topK), d) + AtDistance(vs.Query(vector, |vs.store|)[|vs.Query(vector, topK)|..], d)
  {
    var s := Scores(vector, vs.store);
    var full := Sort(s);
    var r := vs.Query(vector, topK);
    assert vs.Query(vector, |vs.store|) == full;
    assert r == Head(full, topK);
    var rest := full[|r|..];
    assert full == r + rest;
    SortPermutes(s);
    SortSorted(s);
    SortStable(s, d);
    AtDistanceAppend(r, rest, d);
  }

  /** The nearest entry comes first. */
  lemma QueryNearestFirst(vs: InMemoryVectorStore, vector: seq<real>, topK: int, k: nat)
    requires topK > 0 && k < |vs.store|
    ensures vs.Query(vector, topK) != []
    ensures vs.Query(vector, topK)[0].distance <= SquaredDistance(vector, vs.store[k].vector)
  {
    var s := Scores(vector, vs.store);
    var sorted := Sort(s);
    SortSorted(s);
    SortPermutes(s);
    assert s[k] in multiset(sorted);
    var j :| 0 <= j < |sorted| && sorted[j] == s[k];
    assert vs.Query(vector, topK)[0] == sorted[0];
  }
}
