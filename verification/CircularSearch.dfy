/** Table searches that start at a remembered entry and wrap around. */
module CircularSearch {

  /** How many entries a search from start passes before it comes to t. */
  function Ahead(start: nat, t: nat, size: nat): int
    requires start < size && t < size
  {
    if t >= start then t - start else t + size - start
  }

  lemma AheadNext(start: nat, t: nat, size: nat)
    requires start < size && t < size
    ensures t != start ==> Ahead(if start + 1 >= size then 0 else start + 1, t, size) == Ahead(start, t, size) - 1
    ensures Ahead(start, start, size) == 0 && 0 <= Ahead(start, t, size) < size
  {
  }
}
