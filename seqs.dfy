/** Facts about slicing and updating sequences, stated once for any element
    type so that proofs about concrete lists need not rediscover them. */
module Seqs {

  /** Splitting a sequence around its element at `i`. */
  lemma SplitAt<T>(s: seq<T>, i: nat)
    requires i < |s|
    ensures s[..i + 1] == s[..i] + [s[i]] && s[..i + 1] + s[i + 1..] == s
    ensures s[i..] == [s[i]] + s[i + 1..] && s[i..][1..] == s[i + 1..]
  {
  }

  /** Taking out the element that follows a prefix `a`. */
  lemma DropAfter<T>(a: seq<T>, b: seq<T>)
    requires b != []
    ensures var s := a + b;
            s[|a|] == b[0] && s[..|a|] + s[|a| + 1..] == a + b[1..]
  {
    var s := a + b;
    assert s[..|a|] == a;
    assert s[|a| + 1..] == b[1..];
  }

  /** Moving the element that follows a prefix `a` onto that prefix. */
  lemma KeepAfter<T>(a: seq<T>, b: seq<T>)
    requires b != []
    ensures (a + [b[0]]) + b[1..] == a + b
  {
    assert b == [b[0]] + b[1..];
  }

  /** Replacing the element at `i` and looking at the prefix up to it. */
  lemma UpdateAt<T>(s: seq<T>, i: nat, x: T)
    requires i < |s|
    ensures s[i := x][..i + 1] == s[..i] + [x] && s[i := x][i + 1..] == s[i + 1..]
  {
  }

  /** Concatenation is associative. */
  lemma AppendAssoc<T>(a: seq<T>, b: seq<T>, c: seq<T>)
    ensures (a + b) + c == a + (b + c)
  {
  }

  /** The last element of `a + b` and what comes before it, for non-empty `b`. */
  lemma LastOfAppend<T>(a: seq<T>, b: seq<T>)
    requires b != []
    ensures (a + b)[..|a + b| - 1] == a + b[..|b| - 1] && (a + b)[|a + b| - 1] == b[|b| - 1]
  {
  }

  lemma TakeAll<T>(s: seq<T>)
    ensures s[..|s|] == s
  {
  }
}
