/**
 * Matchers over transit entities: everything, nothing, a test on the
 * entity, and the subtraction matcher, which matches what its first
 * matcher matches and none of the subtracted ones do.
 */
module Matchers {

  datatype Matcher<!T> =
    | Everything
    | Nothing
    | Test(test: T -> bool)
    | Sub(a: Matcher<T>, b: seq<Matcher<T>>)

  /** Matcher.match; for a subtraction, a's verdict, then each subtracted matcher in turn. */
  function Match<T>(m: Matcher<T>, entity: T): (r: bool)
    ensures m.Sub? ==> (r <==> Match(m.a, entity) && forall i :: 0 <= i < |m.b| ==> !Match(m.b[i], entity))
    decreases m
  {
    match m
    case Everything => true
    case Nothing => false
    case Test(test) => test(entity)
    case Sub(a, b) => Match(a, entity) && NoneMatch(m, b, entity, 0)
  }

  /** No matcher of b from index k on matches the entity (the loop of SubMatcher.match). */
  function NoneMatch<T>(m: Matcher<T>, b: seq<Matcher<T>>, entity: T, k: nat): (r: bool)
    requires m.Sub? && b == m.b && k <= |b|
    ensures r <==> forall i :: k <= i < |b| ==> !Match(b[i], entity)
    decreases m, |b| - k
  {
    if k == |b| then true
    else
      assert b[k] in m.b;
      !Match(b[k], entity) && NoneMatch(m, b, entity, k + 1)
  }

  lemma {:induction false} NoneMatchIff<T>(m: Matcher<T>, entity: T, k: nat)
    requires m.Sub? && k <= |m.b|
    ensures NoneMatch(m, m.b, entity, k) <==> forall i :: k <= i < |m.b| ==> !Match(m.b[i], entity)
    decreases |m.b| - k
  {
    if k < |m.b| {
      NoneMatchIff(m, entity, k + 1);
    }
  }

  /** A subtraction matches exactly what a matches and no matcher of b matches. */
  lemma SubMatchIff<T>(a: Matcher<T>, b: seq<Matcher<T>>, entity: T)
    ensures Match(Sub(a, b), entity) <==> Match(a, entity) && forall i :: 0 <= i < |b| ==> !Match(b[i], entity)
  {
    NoneMatchIff(Sub(a, b), entity, 0);
  }

  /** everything() matches all entities and nothing() none. */
  lemma EverythingAndNothing<T>(entity: T)
    ensures Match(Everything, entity) && !Match(Nothing, entity)
  {
  }

  /**
   * subtract: subtracting from a subtraction appends to its list of
   * subtracted matchers; anything else becomes the first matcher of a new
   * subtraction.
   */
  function Subtract<T>(a: Matcher<T>, b: Matcher<T>): (r: Matcher<T>)
    ensures r.Sub? && |r.b| > 0 && r.b[|r.b| - 1] == b
    ensures a.Sub? ==> r.a == a.a && r.b == a.b + [b]
    ensures !a.Sub? ==> r.a == a && r.b == [b]
  {
    if a.Sub? then Sub(a.a, a.b + [b]) else Sub(a, [b])
  }

  /** The subtraction matches exactly what a matches and b does not. */
  lemma SubtractMatches<T>(a: Matcher<T>, b: Matcher<T>, entity: T)
    ensures Match(Subtract(a, b), entity) <==> Match(a, entity) && !Match(b, entity)
  {
    var r := Subtract(a, b);
    SubMatchIff(r.a, r.b, entity);
    if a.Sub? {
      SubMatchIff(a.a, a.b, entity);
      assert forall i :: 0 <= i < |a.b| ==> r.b[i] == a.b[i];
    }
  }

  /** Subtracting twice keeps one flat list: a minus b minus c is a with [b, c] subtracted. */
  lemma SubtractTwiceIsFlat<T>(a: Matcher<T>, b: Matcher<T>, c: Matcher<T>, entity: T)
    requires !a.Sub?
    ensures Subtract(Subtract(a, b), c) == Sub(a, [b, c])
    ensures Match(Subtract(Subtract(a, b), c), entity) <==> Match(a, entity) && !Match(b, entity) && !Match(c, entity)
  {
    SubtractMatches(Subtract(a, b), c, entity);
    SubtractMatches(a, b, entity);
  }

  /** Subtracting everything matches nothing; subtracting nothing changes no verdict. */
  lemma SubtractEverythingOrNothing<T>(a: Matcher<T>, entity: T)
    ensures !Match(Subtract(a, Everything), entity)
    ensures Match(Subtract(a, Nothing), entity) == Match(a, entity)
  {
    SubtractMatches(a, Everything, entity);
    SubtractMatches(a, Nothing, entity);
  }
}
