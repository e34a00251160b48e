/** The main transit modes of the planner, and substring search on names. */
module TransitModes {
  datatype TransitMode =
    | Rail | Coach | Subway | Bus | Tram | Ferry | Airplane
    | CableCar | Gondola | Funicular | Trolleybus | Monorail | Carpool | Taxi

  /** sub occurs in s starting at index i. */
  predicate OccursAt(s: string, sub: string, i: int) {
    0 <= i <= |s| - |sub| && s[i..i + |sub|] == sub
  }

  /** String.contains: sub occurs in s at some index. */
  function Contains(s: string, sub: string): (r: bool)
    ensures r <==> exists i :: OccursAt(s, sub, i)
  {
    ContainsFrom(s, sub, 0)
  }

  /** Contains decided by trying each start index from k in turn. */
  function ContainsFrom(s: string, sub: string, k: nat): (r: bool)
    requires k <= |s|
    ensures r <==> exists i :: k <= i && OccursAt(s, sub, i)
    decreases |s| - k
  {
    if |s| - k < |sub| then
      assert forall i :: k <= i ==> !OccursAt(s, sub, i);
      false
    else if s[k..k + |sub|] == sub then
      assert OccursAt(s, sub, k);
      true
    else
      ContainsFrom(s, sub, k + 1)
  }
}
