/** Order-preserving selection on sequences, shared by the two filters of the model. */
module Seqs {

  /** The last element of a non-empty sequence. */
  function Last<T>(s: seq<T>): T
    requires s != []
  {
    s[|s| - 1]
  }

  /** `xs` can be obtained from `ys` by deleting elements: nothing added, nothing reordered. */
  predicate IsSubseq<T(==)>(xs: seq<T>, ys: seq<T>)
    decreases |ys|
  {
    if ys == [] then xs == []
    else
      (xs != [] && Last(xs) == Last(ys) && IsSubseq(xs[..|xs| - 1], ys[..|ys| - 1]))
      || IsSubseq(xs, ys[..|ys| - 1])
  }

  /** Appending the same element to both sides, or to the longer side only, keeps a subsequence. */
  lemma SubseqAppend<T>(xs: seq<T>, ys: seq<T>, y: T)
    requires IsSubseq(xs, ys)
    ensures IsSubseq(xs + [y], ys + [y])
    ensures IsSubseq(xs, ys + [y])
  {
    assert (xs + [y])[..|xs|] == xs;
    assert (ys + [y])[..|ys|] == ys;
  }

  /** The elements of `s` that satisfy `p`, in their original order (a list comprehension with a guard). */
  function Keep<T>(s: seq<T>, p: T -> bool): (r: seq<T>)
    ensures |r| <= |s|
    ensures forall k :: 0 <= k < |r| ==> p(r[k])
    decreases |s|
  {
    if s == [] then []
    else
      var r := Keep(s[..|s| - 1], p);
      if p(Last(s)) then r + [Last(s)] else r
  }

  /**
   * `Keep` deletes exactly the elements that fail `p`: the result is a
   * subsequence of the input, and each value occurs in it as often as in the
   * input when it satisfies `p`, and not at all otherwise.
   */
  lemma {:induction false} KeepIsSelection<T(!new)>(s: seq<T>, p: T -> bool)
    ensures IsSubseq(Keep(s, p), s)
    ensures forall x {:trigger multiset(Keep(s, p))[x]} ::
              multiset(Keep(s, p))[x] == if p(x) then multiset(s)[x] else 0
    decreases |s|
  {
    if s != [] {
      var init := s[..|s| - 1];
      assert s == init + [Last(s)];
      KeepIsSelection(init, p);
      SubseqAppend(Keep(init, p), init, Last(s));
    }
  }

  /** Selecting from a sequence extended by one element extends the selection by that element, if it is chosen. */
  lemma KeepAppend<T(!new)>(s: seq<T>, p: T -> bool, x: T)
    ensures Keep(s + [x], p) == if p(x) then Keep(s, p) + [x] else Keep(s, p)
  {
    assert (s + [x])[..|s|] == s;
  }

  /** Concatenation is associative. */
  lemma AppendAssoc<T>(a: seq<T>, b: seq<T>, c: seq<T>)
    ensures a + (b + c) == a + b + c
  {
  }
}
