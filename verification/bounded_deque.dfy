/** A double-ended queue with a maximum length, as far as the engine uses it:
    only appending on the right. Appending to a full queue discards the
    element at the left end, so the queue keeps the newest `maxlen` items. */
module BoundedDeque {

  /** Append `x` on the right of `q`, dropping items on the left until at most
      `maxlen` remain. A queue with `maxlen == 0` stays empty. */
  function Append<T>(q: seq<T>, x: T, maxlen: nat): (r: seq<T>)
    requires |q| <= maxlen
    ensures |r| == if |q| < maxlen then |q| + 1 else maxlen
    ensures maxlen > 0 ==> r[|r| - 1] == x
    // What remains of the old queue is its newest part, in order.
    ensures maxlen > 0 ==> r[..|r| - 1] == q[|q| + 1 - |r|..]
  {
    var all := q + [x];
    if |all| <= maxlen then all else all[|all| - maxlen..]
  }

  /** Appending to a queue that is not yet full only extends it. */
  lemma AppendNotFull<T>(q: seq<T>, x: T, maxlen: nat)
    requires |q| < maxlen
    ensures Append(q, x, maxlen) == q + [x]
  {
  }

  /** Appending to a full two-element queue slides it by one place: the old
      right element moves to the left and the new item takes the right. */
  lemma AppendFullPair<T>(q: seq<T>, x: T)
    requires |q| == 2
    ensures Append(q, x, 2) == [q[1], x]
  {
  }
}
