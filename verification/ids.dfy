/** Identity assignment for newly created records. The database assigns the real
    identities; the model only needs one that no existing record carries, which it
    builds as a string longer than every identity already taken. */
module Ids {

  /** The identities of a record list, in list order, read with `idOf`. */
  function IdsOf<T>(records: seq<T>, idOf: T -> string): (ids: seq<string>)
    ensures |ids| == |records|
    ensures forall i | 0 <= i < |records| :: ids[i] == idOf(records[i])
  {
    seq(|records|, i requires 0 <= i < |records| => idOf(records[i]))
  }

  /** The length of the longest identity in `taken` (0 when empty). */
  function LongestLength(taken: seq<string>): (n: nat)
    ensures forall i | 0 <= i < |taken| :: |taken[i]| <= n
    ensures |taken| > 0 ==> exists i | 0 <= i < |taken| :: |taken[i]| == n
  {
    if |taken| == 0 then 0
    else
      var rest := LongestLength(taken[1..]);
      if |taken[0]| >= rest then |taken[0]| else rest
  }

  /** An identity different from every identity in `taken`. */
  function FreshId(taken: seq<string>): (id: string)
    ensures id !in taken
    ensures |id| > 0
  {
    seq(LongestLength(taken) + 1, _ => '#')
  }
}
