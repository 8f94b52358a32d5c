/** Order-preserving selection: `x` is a subsequence of `y`. */
module Subsequences {

  /** `f` picks, in increasing positions of `y`, the elements of `x` in order. */
  ghost predicate Embeds<T>(x: seq<T>, y: seq<T>, f: seq<nat>) {
    && |f| == |x|
    && (forall i :: 0 <= i < |f| ==> f[i] < |y| && x[i] == y[f[i]])
    && (forall i, j :: 0 <= i < j < |f| ==> f[i] < f[j])
  }

  ghost predicate IsSubseq<T>(x: seq<T>, y: seq<T>) {
    exists f :: Embeds(x, y, f)
  }

  lemma SubseqRefl<T>(x: seq<T>)
    ensures IsSubseq(x, x)
  {
    var f: seq<nat> := seq(|x|, i => i);
    assert Embeds(x, x, f);
  }

  lemma SubseqOfEmpty<T>(y: seq<T>)
    ensures IsSubseq([], y)
  {
    var f: seq<nat> := [];
    assert Embeds([], y, f);
  }

  /** Subsequences can be glued side by side. */
  lemma SubseqConcat<T>(x1: seq<T>, y1: seq<T>, x2: seq<T>, y2: seq<T>)
    requires IsSubseq(x1, y1) && IsSubseq(x2, y2)
    ensures IsSubseq(x1 + x2, y1 + y2)
  {
    var f1 :| Embeds(x1, y1, f1);
    var f2 :| Embeds(x2, y2, f2);
    var g: seq<nat> := seq(|f2|, i requires 0 <= i < |f2| => f2[i] + |y1|);
    var f := f1 + g;
    assert forall i :: 0 <= i < |f1| ==> f[i] == f1[i] && f1[i] < |y1|;
    assert forall i :: |f1| <= i < |f| ==> f[i] == f2[i - |f1|] + |y1|;
    assert Embeds(x1 + x2, y1 + y2, f);
  }

  lemma SubseqTrans<T>(x: seq<T>, y: seq<T>, z: seq<T>)
    requires IsSubseq(x, y) && IsSubseq(y, z)
    ensures IsSubseq(x, z)
  {
    var f :| Embeds(x, y, f);
    var g :| Embeds(y, z, g);
    var h: seq<nat> := seq(|f|, i requires 0 <= i < |f| => g[f[i]]);
    assert Embeds(x, z, h);
  }
}
