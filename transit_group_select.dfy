/**
 * TransitGroupSelect: a selection of transit routes by modes, agencies and
 * routes. Its lists are kept sorted and free of duplicates, so selections
 * of the same entries are equal; a builder appends to copies of an
 * original's lists and gives back the original when nothing changed.
 * Modes and ids are modelled by their position in the Java ordering.
 */
module TransitGroupSelect {

  /** Every element is smaller than the next one: sorted and without duplicates. */
  predicate StrictlyIncreasing(s: seq<int>) {
    forall i, j :: 0 <= i < j < |s| ==> s[i] < s[j]
  }

  /** x added to a strictly increasing list, where it sorts, unless it is already there. */
  function InsertUnique(x: int, s: seq<int>): (r: seq<int>)
    requires StrictlyIncreasing(s)
    ensures StrictlyIncreasing(r) && forall y :: y in r <==> y in s || y == x
    ensures |r| > 0 && (r[0] == x || (s != [] && r[0] == s[0]))
  {
    if s == [] then [x]
    else if x < s[0] then [x] + s
    else if x == s[0] then s
    else
      var rest := InsertUnique(x, s[1..]);
      assert s == [s[0]] + s[1..];
      [s[0]] + rest
  }

  /** stream().sorted().distinct(): the distinct elements in increasing order. */
  function Normalise(s: seq<int>): (r: seq<int>)
    ensures StrictlyIncreasing(r)
    ensures forall x :: x in r <==> x in s
  {
    if s == [] then []
    else
      var rest := Normalise(s[..|s| - 1]);
      var r := InsertUnique(s[|s| - 1], rest);
      assert s == s[..|s| - 1] + [s[|s| - 1]];
      assert forall x :: x in r <==> x in rest || x == s[|s| - 1];
      r
  }

  /** Two strictly increasing lists with the same elements are the same list. */
  lemma {:induction false} IncreasingUnique(a: seq<int>, b: seq<int>)
    requires StrictlyIncreasing(a) && StrictlyIncreasing(b)
    requires forall x :: x in a <==> x in b
    ensures a == b
    decreases |a|
  {
    if a != [] {
      assert a[0] in a;
    }
    if b != [] {
      assert b[0] in b;
    }
    if a != [] && b != [] {
      var i :| 0 <= i < |b| && b[i] == a[0];
      var j :| 0 <= j < |a| && a[j] == b[0];
      assert a[0] <= a[j] && b[0] <= b[i];
      assert a[0] == b[0];
      forall x
        ensures x in a[1..] <==> x in b[1..]
      {
        if x in a[1..] {
          var k :| 1 <= k < |a| && a[k] == x;
          assert a[k] in a;
          var m :| 0 <= m < |b| && b[m] == x;
          assert m != 0;
          assert b[1..][m - 1] == x;
        }
        if x in b[1..] {
          var k :| 1 <= k < |b| && b[k] == x;
          assert b[k] in b;
          var m :| 0 <= m < |a| && a[m] == x;
          assert m != 0;
          assert a[1..][m - 1] == x;
        }
      }
      IncreasingUnique(a[1..], b[1..]);
      assert a == [a[0]] + a[1..] && b == [b[0]] + b[1..];
    }
  }

  /** Normalising is idempotent, and lists with the same elements normalise alike, whatever their order or repeats. */
  lemma NormaliseCanonical(s: seq<int>, t: seq<int>)
    requires forall x :: x in s <==> x in t
    ensures Normalise(s) == Normalise(t)
    ensures Normalise(Normalise(s)) == Normalise(s)
  {
    IncreasingUnique(Normalise(s), Normalise(t));
    IncreasingUnique(Normalise(Normalise(s)), Normalise(s));
  }

  /** The selection; the value of the constructor from a builder always holds normalised lists. */
  datatype Select = Select(modes: seq<int>, agencyIds: seq<int>, routeIds: seq<int>)

  /** The default selection, of no entries. */
  const DEFAULT: Select := Select([], [], [])

  /** The private constructor from a builder's lists: each sorted and deduplicated. */
  function FromLists(modes: seq<int>, agencyIds: seq<int>, routeIds: seq<int>): (r: Select)
    ensures StrictlyIncreasing(r.modes) && StrictlyIncreasing(r.agencyIds) && StrictlyIncreasing(r.routeIds)
    ensures forall x :: (x in r.modes <==> x in modes) && (x in r.agencyIds <==> x in agencyIds)
                        && (x in r.routeIds <==> x in routeIds)
  {
    Select(Normalise(modes), Normalise(agencyIds), Normalise(routeIds))
  }

  /** isEmpty: no modes, agencies or routes. */
  function IsEmpty(s: Select): (r: bool)
    ensures r <==> |s.modes| == 0 && |s.agencyIds| == 0 && |s.routeIds| == 0
    ensures r <==> s == DEFAULT
  {
    s.modes == [] && s.agencyIds == [] && s.routeIds == []
  }

  /** Selections of the same entries are equal, however the entries were listed. */
  lemma SameEntriesEqual(m1: seq<int>, a1: seq<int>, r1: seq<int>, m2: seq<int>, a2: seq<int>, r2: seq<int>)
    requires forall x :: (x in m1 <==> x in m2) && (x in a1 <==> x in a2) && (x in r1 <==> x in r2)
    ensures FromLists(m1, a1, r1) == FromLists(m2, a2, r2)
  {
    NormaliseCanonical(m1, m2);
    NormaliseCanonical(a1, a2);
    NormaliseCanonical(r1, r2);
  }

  class Builder {
    const original: Select
    var modes: seq<int>
    var agencyIds: seq<int>
    var routeIds: seq<int>

    /** The builder starts from copies of the original's lists. */
    constructor(original: Select)
      ensures this.original == original
      ensures modes == original.modes && agencyIds == original.agencyIds && routeIds == original.routeIds
    {
      this.original := original;
      modes := original.modes;
      agencyIds := original.agencyIds;
      routeIds := original.routeIds;
    }

    method AddModes(ms: seq<int>)
      modifies this
      ensures modes == old(modes) + ms
      ensures agencyIds == old(agencyIds) && routeIds == old(routeIds)
    {
      modes := modes + ms;
    }

    method AddAgencyIds(ids: seq<int>)
      modifies this
      ensures agencyIds == old(agencyIds) + ids
      ensures modes == old(modes) && routeIds == old(routeIds)
    {
      agencyIds := agencyIds + ids;
    }

    method AddRouteIds(ids: seq<int>)
      modifies this
      ensures routeIds == old(routeIds) + ids
      ensures modes == old(modes) && agencyIds == old(agencyIds)
    {
      routeIds := routeIds + ids;
    }

    /**
     * build: the selection of the builder's lists; sameAsOriginal tells
     * whether it equals the original, which is then returned instead.
     */
    method Build() returns (r: Select, sameAsOriginal: bool)
      ensures sameAsOriginal <==> original == FromLists(modes, agencyIds, routeIds)
      ensures r == FromLists(modes, agencyIds, routeIds)
      ensures sameAsOriginal ==> r == original
    {
      var obj := FromLists(modes, agencyIds, routeIds);
      sameAsOriginal := original == obj;
      r := if sameAsOriginal then original else obj;
    }
  }

  /**
   * A builder on a built selection that adds only entries already present
   * gives back that selection.
   */
  lemma AddingPresentEntriesKeepsOriginal(original: Select, ms: seq<int>, as_: seq<int>, rs: seq<int>)
    requires original == FromLists(original.modes, original.agencyIds, original.routeIds)
    requires forall x :: (x in ms ==> x in original.modes) && (x in as_ ==> x in original.agencyIds)
                         && (x in rs ==> x in original.routeIds)
    ensures FromLists(original.modes + ms, original.agencyIds + as_, original.routeIds + rs) == original
  {
    SameEntriesEqual(original.modes + ms, original.agencyIds + as_, original.routeIds + rs,
                     original.modes, original.agencyIds, original.routeIds);
  }

  /** The builder from the default selection, given its entries, builds the selection of exactly those entries. */
  method BuildFromDefault(ms: seq<int>, as_: seq<int>, rs: seq<int>) returns (r: Select)
    ensures forall x :: (x in r.modes <==> x in ms) && (x in r.agencyIds <==> x in as_) && (x in r.routeIds <==> x in rs)
    ensures IsEmpty(r) <==> ms == [] && as_ == [] && rs == []
  {
    var b := new Builder(DEFAULT);
    b.AddModes(ms);
    b.AddAgencyIds(as_);
    b.AddRouteIds(rs);
    assert b.modes == ms && b.agencyIds == as_ && b.routeIds == rs;
    var same;
    r, same := b.Build();
    if ms != [] { assert ms[0] in r.modes; }
    if as_ != [] { assert as_[0] in r.agencyIds; }
    if rs != [] { assert rs[0] in r.routeIds; }
  }
}
