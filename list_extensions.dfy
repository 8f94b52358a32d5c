/**
 * Shuffling a list by Sattolo's algorithm: a copy of the list is walked from its last
 * position down to position 1, and each position is swapped with a position drawn
 * strictly below it. The random draws are given as a sequence `picks`, where `picks[i]`
 * is the draw made for position `i`.
 */
module ListExtensions {

  /** `picks` holds, for every position `i` from 1 up, a draw in `[0, i)`; `picks[0]` is unused. */
  predicate ValidPicks(picks: seq<int>, n: int) {
    |picks| == n && forall i :: 1 <= i < n ==> 0 <= picks[i] < i
  }

  /** Every length has draws to shuffle it with: always drawing position 0 is one. */
  lemma PicksExist(n: nat)
    ensures ValidPicks(seq(n, _ => 0), n)
  {
  }

  /** `s` with the elements at `j` and `k` exchanged. */
  function Swapped<T>(s: seq<T>, j: int, k: int): (r: seq<T>)
    requires 0 <= j < |s| && 0 <= k < |s|
    ensures |r| == |s| && r[j] == s[k] && r[k] == s[j]
    ensures forall p :: 0 <= p < |s| && p != j && p != k ==> r[p] == s[p]
  {
    s[j := s[k]][k := s[j]]
  }

  /** The swaps for positions `i`, `i - 1`, ..., 1, in that order. */
  function ShuffleDown<T>(s: seq<T>, picks: seq<int>, i: int): (r: seq<T>)
    requires ValidPicks(picks, |s|) && i < |s|
    ensures |r| == |s|
    decreases i
  {
    if i <= 0 then s else ShuffleDown(Swapped(s, picks[i], i), picks, i - 1)
  }

  /** The shuffle of a whole list. */
  function Shuffle<T>(s: seq<T>, picks: seq<int>): (r: seq<T>)
    requires ValidPicks(picks, |s|)
    ensures |r| == |s|
  {
    ShuffleDown(s, picks, |s| - 1)
  }

  // ----------------------------------------------------------------------------------
  // The shuffle permutes

  lemma SwapKeepsElements<T>(s: seq<T>, j: int, k: int)
    requires 0 <= j < |s| && 0 <= k < |s|
    ensures multiset(Swapped(s, j, k)) == multiset(s)
  {
    assert Swapped(s, j, k) == s[j := s[k]][k := s[j]];
  }

  lemma {:induction false} ShuffleDownPermutes<T>(s: seq<T>, picks: seq<int>, i: int)
    requires ValidPicks(picks, |s|) && i < |s|
    ensures multiset(ShuffleDown(s, picks, i)) == multiset(s)
    decreases i
  {
    if i > 0 {
      SwapKeepsElements(s, picks[i], i);
      ShuffleDownPermutes(Swapped(s, picks[i], i), picks, i - 1);
    }
  }

  /** The shuffle only rearranges: same length, same elements, each as often. */
  lemma ShufflePermutes<T>(s: seq<T>, picks: seq<int>)
    requires ValidPicks(picks, |s|)
    ensures multiset(Shuffle(s, picks)) == multiset(s)
  {
    ShuffleDownPermutes(s, picks, |s| - 1);
  }

  /** With at most one element there is nothing to swap. */
  lemma ShortListUnchanged<T>(s: seq<T>, picks: seq<int>)
    requires ValidPicks(picks, |s|) && |s| <= 1
    ensures Shuffle(s, picks) == s
  {
  }

  // ----------------------------------------------------------------------------------
  // Nothing stays in place

  /** Every element of `cur` is the element of `start` at position `origin[p]`. */
  ghost predicate Tracks<T>(cur: seq<T>, start: seq<T>, origin: seq<int>) {
    && |origin| == |cur| == |start|
    && forall p :: 0 <= p < |cur| ==> 0 <= origin[p] < |start| && cur[p] == start[origin[p]]
  }

  /** No position keeps the element it started with. */
  ghost predicate Deranged(origin: seq<int>) {
    forall p :: 0 <= p < |origin| ==> origin[p] != p
  }

  /**
   * What holds before the step for position `i`: positions above `i` are final and
   * hold an element from elsewhere; a position not yet final holds its own element or
   * one from above `i`; and once a swap was made, the `carrier` position, not yet
   * final, holds one from above `i`.
   */
  ghost predicate Pending(origin: seq<int>, i: int, carrier: int) {
    && 0 <= i < |origin|
    && (forall p :: i < p < |origin| ==> origin[p] != p)
    && (forall p :: 0 <= p <= i ==> origin[p] == p || origin[p] > i)
    && (i < |origin| - 1 ==> 0 <= carrier <= i && origin[carrier] > i)
  }

  /** The positions in order: each element where it started. */
  function Identity(n: nat): (ident: seq<int>)
    ensures |ident| == n && forall p :: 0 <= p < n ==> ident[p] == p
  {
    seq(n, p => p)
  }

  /** Swapping positions the same way in a list and in its origins keeps them in step. */
  lemma {:induction false} ShuffleDownTracks<T>(cur: seq<T>, start: seq<T>, origin: seq<int>, picks: seq<int>, i: int)
    requires Tracks(cur, start, origin) && ValidPicks(picks, |cur|) && i < |cur|
    ensures Tracks(ShuffleDown(cur, picks, i), start, ShuffleDown(origin, picks, i))
    decreases i
  {
    if i > 0 {
      var j := picks[i];
      assert Tracks(Swapped(cur, j, i), start, Swapped(origin, j, i));
      ShuffleDownTracks(Swapped(cur, j, i), start, Swapped(origin, j, i), picks, i - 1);
    }
  }

  /** Swapping position `i` with one strictly below it finalises `i`. */
  lemma SwapFinalises(origin: seq<int>, i: int, carrier: int, j: int)
    requires Pending(origin, i, carrier) && i > 0 && 0 <= j < i
    ensures Pending(Swapped(origin, j, i), i - 1, j)
  {
    var next := Swapped(origin, j, i);
    assert next[i] == origin[j] && (origin[j] == j || origin[j] > i);
    assert next[j] == origin[i] && (origin[i] == i || origin[i] > i);
  }

  /** Finishing the walk from any pending state, with two or more positions, moves everything. */
  lemma {:induction false} ShuffleDownDeranges(origin: seq<int>, picks: seq<int>, i: int, carrier: int)
    requires Pending(origin, i, carrier) && ValidPicks(picks, |origin|) && |origin| >= 2
    ensures Deranged(ShuffleDown(origin, picks, i))
    decreases i
  {
    if i > 0 {
      SwapFinalises(origin, i, carrier, picks[i]);
      ShuffleDownDeranges(Swapped(origin, picks[i], i), picks, i - 1, picks[i]);
    } else {
      assert origin[0] > 0;
    }
  }

  /**
   * Sattolo's property: with two or more elements, the shuffle takes every element from
   * another position; `origin` says which.
   */
  lemma ShuffleIsDerangement<T>(s: seq<T>, picks: seq<int>)
    requires ValidPicks(picks, |s|) && |s| >= 2
    ensures exists origin :: Tracks(Shuffle(s, picks), s, origin) && Deranged(origin)
  {
    var ident := Identity(|s|);
    assert Tracks(s, s, ident);
    ShuffleDownTracks(s, s, ident, picks, |s| - 1);
    assert Pending(ident, |s| - 1, 0);
    ShuffleDownDeranges(ident, picks, |s| - 1, 0);
    var origin := ShuffleDown(ident, picks, |s| - 1);
    assert Tracks(Shuffle(s, picks), s, origin) && Deranged(origin);
  }

  /** With no element repeated, every element of the shuffle differs from the one it replaced. */
  lemma ShuffleMovesDistinctElements<T>(s: seq<T>, picks: seq<int>)
    requires ValidPicks(picks, |s|) && |s| >= 2
    requires forall p, q :: 0 <= p < q < |s| ==> s[p] != s[q]
    ensures forall p :: 0 <= p < |s| ==> Shuffle(s, picks)[p] != s[p]
  {
    ShuffleIsDerangement(s, picks);
    var origin :| Tracks(Shuffle(s, picks), s, origin) && Deranged(origin);
    var r := Shuffle(s, picks);
    forall p | 0 <= p < |s|
      ensures r[p] != s[p]
    {
      var o := origin[p];
      if o < p {
        assert s[o] != s[p];
      } else {
        assert s[p] != s[o];
      }
    }
  }

  // ----------------------------------------------------------------------------------
  // The two overloads

  /** Exchanges two elements of the array. */
  method Swap<T>(a: array<T>, j: int, k: int)
    requires 0 <= j < a.Length && 0 <= k < a.Length
    modifies a
    ensures a[..] == Swapped(old(a[..]), j, k)
  {
    a[j], a[k] := a[k], a[j];
  }

  /** The swap loop both overloads run, in place. */
  method SwapLoop<T>(a: array<T>, picks: seq<int>)
    requires ValidPicks(picks, a.Length)
    modifies a
    ensures a[..] == Shuffle(old(a[..]), picks)
  {
    ghost var start := a[..];
    var i := a.Length - 1;
    while i > 0
      invariant i < a.Length
      invariant ShuffleDown(a[..], picks, i) == Shuffle(start, picks)
    {
      var index := picks[i];
      Swap(a, index, i);
      i := i - 1;
    }
  }

  /**
   * `List<T>.Shuffle`: the input is copied into a new list, which is shuffled and
   * returned; the input is left as it was.
   */
  method ShuffleList<T>(list: array<T>, picks: seq<int>) returns (shuffled: array<T>)
    requires ValidPicks(picks, list.Length)
    ensures fresh(shuffled)
    ensures shuffled[..] == Shuffle(list[..], picks)
  {
    shuffled := new T[list.Length](k requires 0 <= k < list.Length reads list => list[k]);
    assert shuffled[..] == list[..];
    SwapLoop(shuffled, picks);
  }

  /**
   * `IImmutableList<T>.Shuffle`: the elements are copied into a builder, shuffled there
   * and returned as a new immutable list.
   */
  method ShuffleImmutable<T>(list: seq<T>, picks: seq<int>) returns (shuffled: seq<T>)
    requires ValidPicks(picks, |list|)
    ensures shuffled == Shuffle(list, picks)
  {
    var builder := new T[|list|](k requires 0 <= k < |list| => list[k]);
    assert builder[..] == list;
    SwapLoop(builder, picks);
    shuffled := builder[..];
  }
}
