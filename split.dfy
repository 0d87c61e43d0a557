/**
 * `String.prototype.split` with a non-empty literal separator, and the two
 * facts every buffer-split-pop loop relies on: the pieces join back to the
 * text, and splitting a longer text re-uses the complete pieces.
 */
module Splits {
  import opened Wrappers
  import opened Text
  import Seqs

  /**
   * `s.split(sep)` for a non-empty separator: the pieces between the
   * leftmost non-overlapping occurrences of `sep`, always at least one.
   */
  function Split(s: string, sep: string): (r: seq<string>)
    requires sep != []
    ensures |r| >= 1
    decreases |s|
  {
    match IndexOfFrom(s, sep, 0)
    case None => [s]
    case Some(k) => [s[..k]] + Split(s[k + |sep|..], sep)
  }

  lemma {:induction false} JoinCons(h: string, q: seq<string>, sep: string)
    requires q != []
    ensures Join([h] + q, sep) == h + sep + Join(q, sep)
  {
    assert ([h] + q)[1..] == q;
  }

  lemma ThreeWay(s: string, k: nat, m: nat)
    requires k <= m <= |s|
    ensures s == s[..k] + s[k..m] + s[m..]
  {
  }

  /** The first occurrence of `sep` in `s` is still the first one in `s + t`. */
  lemma {:induction false} IndexOfPrefix(s: string, t: string, sep: string, k: nat)
    requires IndexOfFrom(s, sep, 0) == Some(k)
    ensures IndexOfFrom(s + t, sep, 0) == Some(k)
  {
    var u := s + t;
    assert StartsAt(u, k, sep) by {
      assert u[k..k + |sep|] == s[k..k + |sep|];
    }
    forall j: nat | j < k
      ensures !StartsAt(u, j, sep)
    {
      if j + |sep| <= |u| {
        assert u[j..j + |sep|] == s[j..j + |sep|];
        assert !StartsAt(s, j, sep);
      }
    }
  }

  /** Joining the pieces back with the separator gives the text again. */
  lemma {:induction false} SplitJoin(s: string, sep: string)
    requires sep != []
    ensures Join(Split(s, sep), sep) == s
    decreases |s|
  {
    match IndexOfFrom(s, sep, 0)
    case None =>
    case Some(k) =>
      var rest := s[k + |sep|..];
      SplitUnfold(s, sep, k);
      SplitJoin(rest, sep);
      JoinCons(s[..k], Split(rest, sep), sep);
      assert s[k..k + |sep|] == sep;
      ThreeWay(s, k, k + |sep|);
  }

  /** No piece of a split contains the separator. */
  lemma {:induction false} SplitPiecesFree(s: string, sep: string)
    requires sep != []
    ensures forall p :: p in Split(s, sep) ==> !Contains(p, sep)
    decreases |s|
  {
    match IndexOfFrom(s, sep, 0)
    case None =>
    case Some(k) =>
      SplitPiecesFree(s[k + |sep|..], sep);
      var head := s[..k];
      forall j | 0 <= j <= |head|
        ensures !StartsAt(head, j, sep)
      {
        if j + |sep| <= |head| {
          assert head[j..j + |sep|] == s[j..j + |sep|];
          assert !StartsAt(s, j, sep);
        }
      }
      SplitUnfold(s, sep, k);
  }

  /**
   * Splitting `s + t` re-uses every complete piece of `s` and continues from
   * its last piece: `split` of a growing buffer does not depend on where the
   * growth happened.
   */
  lemma {:induction false} SplitAppend(s: string, t: string, sep: string)
    requires sep != []
    ensures var ps := Split(s, sep);
      Split(s + t, sep) == ps[..|ps| - 1] + Split(ps[|ps| - 1] + t, sep)
    decreases |s|
  {
    var ps := Split(s, sep);
    var o := IndexOfFrom(s, sep, 0);
    if o.None? {
      assert ps == [s];
    } else {
      var k := o.value;
      var rest := s[k + |sep|..];
      IndexOfPrefix(s, t, sep, k);
      Seqs.AppendSlices(s, t, k, k + |sep|);
      SplitUnfold(s, sep, k);
      SplitUnfold(s + t, sep, k);
      SplitAppend(rest, t, sep);
      var h, qs := s[..k], Split(rest, sep);
      var init, last := qs[..|qs| - 1], qs[|qs| - 1];
      Seqs.ConsInit(h, qs);
      assert ps == [h] + qs && |ps| - 1 == |qs|;
      assert ps[..|ps| - 1] == [h] + init && ps[|ps| - 1] == last;
      assert Split(s + t, sep) == [h] + Split(rest + t, sep);
      assert Split(rest + t, sep) == init + Split(last + t, sep);
      Seqs.AppendAssoc([h], init, Split(last + t, sep));
    }
  }

  lemma {:induction false} SplitUnfold(u: string, sep: string, k: nat)
    requires sep != [] && IndexOfFrom(u, sep, 0) == Some(k)
    ensures k + |sep| <= |u| && Split(u, sep) == [u[..k]] + Split(u[k + |sep|..], sep)
  {
  }
}
