/** What a process writes, as the reads of its output return it. */
module Streams {

  function Flatten<T>(pieces: seq<seq<T>>): seq<T>
  {
    if pieces == [] then [] else Flatten(pieces[..|pieces| - 1]) + pieces[|pieces| - 1]
  }

  lemma Associates<T>(a: seq<T>, b: seq<T>, c: seq<T>)
    ensures a + (b + c) == a + b + c
  {
  }

  lemma FlattenNothing<T>()
    ensures Flatten<T>([]) == []
  {
  }

  lemma FlattenAppend<T>(pieces: seq<seq<T>>, piece: seq<T>)
    ensures Flatten(pieces + [piece]) == Flatten(pieces) + piece
  {
    assert (pieces + [piece])[..|pieces|] == pieces;
  }

  /** The reads of a stream: an empty one ends it. */
  function UntilEmpty<T(==)>(pieces: seq<seq<T>>): seq<seq<T>>
  {
    if pieces == [] || pieces[0] == [] then [] else [pieces[0]] + UntilEmpty(pieces[1..])
  }

  lemma {:induction false} ReadsUntilEmpty<T>(full: seq<seq<T>>, later: seq<seq<T>>)
    requires forall k :: 0 <= k < |full| ==> full[k] != []
    ensures UntilEmpty(full) == full && UntilEmpty(full + [[]] + later) == full
    decreases |full|
  {
    var all := full + [[]] + later;
    if full != [] {
      ReadsUntilEmpty(full[1..], later);
      assert all[1..] == full[1..] + [[]] + later && all[0] == full[0];
    }
  }

  lemma FlattenStep<T>(pieces: seq<seq<T>>, i: nat)
    requires i < |pieces|
    ensures Flatten(pieces[..i + 1]) == Flatten(pieces[..i]) + pieces[i]
  {
    assert pieces[..i + 1][..i] == pieces[..i];
  }
}
