/** Small facts about sequence slices, stated once for every element type. */
module Seqs {
  lemma ConsAppend<T>(s: seq<T>, t: seq<T>)
    requires s != []
    ensures (s + t)[0] == s[0] && (s + t)[1..] == s[1..] + t
  {
  }

  lemma HeadTail<T>(s: seq<T>, p: nat)
    requires p < |s|
    ensures s[p..] == [s[p]] + s[p + 1..]
  {
  }

  lemma ConsInit<T>(h: T, q: seq<T>)
    requires q != []
    ensures ([h] + q)[..|q|] == [h] + q[..|q| - 1]
    ensures ([h] + q)[|q|] == q[|q| - 1]
  {
  }

  lemma AppendInitLast<T>(p: seq<T>, q: seq<T>)
    requires q != []
    ensures (p + q)[..|p + q| - 1] == p + q[..|q| - 1]
    ensures (p + q)[|p + q| - 1] == q[|q| - 1]
  {
  }

  lemma AppendSlices<T>(s: seq<T>, t: seq<T>, k: nat, m: nat)
    requires k <= m <= |s|
    ensures (s + t)[..k] == s[..k] && (s + t)[m..] == s[m..] + t
  {
  }

  lemma AppendAssoc<T>(a: seq<T>, b: seq<T>, c: seq<T>)
    ensures (a + b) + c == a + (b + c)
  {
  }

  lemma InitLast<T>(s: seq<T>)
    requires s != []
    ensures s == s[..|s| - 1] + [s[|s| - 1]]
  {
  }

  lemma PrefixStep<T>(s: seq<T>, i: nat)
    requires i < |s|
    ensures s[..i + 1] == s[..i] + [s[i]] && s[..i + 1][..i] == s[..i]
  {
  }

  /** `s.flatMap(f)`. */
  function FlatMap<T, U>(f: T -> seq<U>, s: seq<T>): seq<U> {
    if s == [] then [] else f(s[0]) + FlatMap(f, s[1..])
  }

  lemma {:induction false} FlatMapSnoc<T, U>(f: T -> seq<U>, s: seq<T>, x: T)
    ensures FlatMap(f, s + [x]) == FlatMap(f, s) + f(x)
  {
    if s == [] {
      assert s + [x] == [x];
      assert [x][1..] == [];
    } else {
      ConsAppend(s, [x]);
      FlatMapSnoc(f, s[1..], x);
    }
  }
}
