/** Facts about where the parts of a concatenation sit in it. */
module Sequences {

  /** Where the three parts of a concatenation sit in it. */
  lemma Frame<T>(head: seq<T>, mid: seq<T>, tail: seq<T>)
    ensures |head + mid + tail| == |head| + |mid| + |tail|
    ensures forall k :: 0 <= k < |head| ==> (head + mid + tail)[k] == head[k]
    ensures (head + mid + tail)[|head|..|head| + |mid|] == mid
    ensures forall k :: 0 <= k < |tail| ==> (head + mid + tail)[|head| + |mid| + k] == tail[k]
  {
  }

  lemma LastReplaced<T>(head: seq<T>, x: T, y: T)
    ensures (head + [x])[..|head|] == (head + [y])[..|head|]
  {
    assert (head + [x])[..|head|] == head;
    assert (head + [y])[..|head|] == head;
  }

  lemma AppendAssoc<T>(a: seq<T>, b: seq<T>, c: seq<T>)
    ensures a + (b + c) == a + b + c
  {
  }
}
