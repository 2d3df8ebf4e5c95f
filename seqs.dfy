/** Small facts about sequences, stated once so that larger proofs can cite them. */
module Seqs {
  lemma AppendAssoc<T>(a: seq<T>, b: seq<T>, c: seq<T>)
    ensures a + b + c == a + (b + c)
  {
  }

  lemma PrependOne<T>(x: T, ys: seq<T>, a: T, b: T, c: T)
    requires ys == [a, b, c]
    ensures [x] + ys == [x, a, b, c]
  {
  }

  lemma EndsWithPair<T>(s: seq<T>, a: seq<T>, x: T, y: T)
    requires s == a + [x, y]
    ensures |s| == |a| + 2 && s[|s| - 2..] == [x, y]
  {
  }

  lemma FramedMiddle<T>(head: seq<T>, middle: seq<T>, tail: seq<T>)
    ensures var s := head + middle + tail;
      |s| == |head| + |middle| + |tail| && s[|head|..|s| - |tail|] == middle
  {
  }

  lemma Framed<T>(head: seq<T>, middle: seq<T>, tail: seq<T>)
    ensures var s := head + middle + tail;
      |s| == |head| + |middle| + |tail| && s[..|head|] == head && s[|s| - |tail|..] == tail
  {
  }
}
