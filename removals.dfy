/**
 * The bookkeeping of `filterPseudoLegalMoves` (src/index_model/board.h),
 * on plain lists: the first loop records the indices of the entries with a
 * true verdict in ascending order, the second removes them from the highest
 * to the lowest with the swap-remove of `ChessMoves`. Because every removal
 * only disturbs entries at or above the removed index, exactly the recorded
 * entries disappear.
 */
module Removals {
  import opened Moves

  /** Indices into a list of length `n`, strictly ascending. */
  ghost predicate Ascending(indices: seq<int>, n: int)
  {
    (forall j | 0 <= j < |indices| :: 0 <= indices[j] < n)
    && (forall j | 0 < j < |indices| :: indices[j - 1] < indices[j])
  }

  /** Ascending indices from `j` on leave room for all of them below `n`. */
  lemma {:induction false} AscendingRoom(indices: seq<int>, n: int, j: int)
    requires Ascending(indices, n) && 0 <= j < |indices|
    ensures indices[j] + (|indices| - j) <= n
    decreases |indices| - j
  {
    if j + 1 < |indices| {
      AscendingRoom(indices, n, j + 1);
    }
  }

  /** The removal loop: the indices `indices[j..]` removed one by one from the last, each by swap-remove. */
  function RemoveFrom<T>(s: seq<T>, indices: seq<int>, j: int): (r: seq<T>)
    requires Ascending(indices, |s|) && 0 <= j <= |indices|
    ensures |r| == |s| - (|indices| - j)
    decreases |indices| - j
  {
    if j == |indices| then s
    else
      AscendingRoom(indices, |s|, j);
      SwapRemove(RemoveFrom(s, indices, j + 1), indices[j])
  }

  /** The elements of `s` at `indices`. */
  ghost function Picked<T>(s: seq<T>, indices: seq<int>): (r: seq<T>)
    requires forall j | 0 <= j < |indices| :: 0 <= indices[j] < |s|
    ensures |r| == |indices|
  {
    seq(|indices|, j requires 0 <= j < |indices| => s[indices[j]])
  }

  /**
   * Removing ascending indices from the last to the first leaves the
   * entries below the lowest removed index where they were.
   */
  lemma {:induction false} RemoveFromPrefix<T>(s: seq<T>, indices: seq<int>, j: int)
    requires Ascending(indices, |s|) && 0 <= j < |indices|
    ensures indices[j] < |RemoveFrom(s, indices, j + 1)|
    ensures forall k | 0 <= k <= indices[j] :: RemoveFrom(s, indices, j + 1)[k] == s[k]
    decreases |indices| - j
  {
    hide SwapRemove;
    AscendingRoom(indices, |s|, j);
    if j + 1 < |indices| {
      RemoveFromPrefix(s, indices, j + 1);
      var r := RemoveFrom(s, indices, j + 2);
      var i := indices[j + 1];
      forall k | 0 <= k <= indices[j]
        ensures SwapRemove(r, i)[k] == s[k]
      {
        assert SwapRemove(r, i)[..i][k] == r[..i][k];
      }
    }
  }

  /** Multiset sums regroup and commute. */
  lemma MultisetRegroup<T>(a: multiset<T>, b: multiset<T>, c: multiset<T>)
    ensures (a + b) + c == a + (b + c) == (b + c) + a
  {
  }

  /** Multiset sums cancel. */
  lemma MultisetCancel<T>(a: multiset<T>, b: multiset<T>, c: multiset<T>)
    requires a + c == b + c
    ensures a == b
  {
    assert forall x :: a[x] == (a + c)[x] - c[x];
    assert forall x :: b[x] == (b + c)[x] - c[x];
  }

  /**
   * Removing ascending indices from the last to the first takes away
   * exactly the elements at those indices.
   */
  lemma {:induction false} RemoveFromMultiset<T>(s: seq<T>, indices: seq<int>, j: int)
    requires Ascending(indices, |s|) && 0 <= j <= |indices|
    ensures multiset(RemoveFrom(s, indices, j)) + multiset(Picked(s, indices[j..])) == multiset(s)
    decreases |indices| - j
  {
    hide SwapRemove;
    if j == |indices| {
      assert Picked(s, indices[j..]) == [];
    } else {
      var i := indices[j];
      var r := RemoveFrom(s, indices, j + 1);
      RemoveFromMultiset(s, indices, j + 1);
      RemoveFromPrefix(s, indices, j);
      var rest := Picked(s, indices[j + 1..]);
      assert Picked(s, indices[j..]) == [s[i]] + rest;
      var r' := SwapRemove(r, i);
      MultisetRestore(multiset(r), s[i]);
      MultisetRegroup(multiset(r'), multiset{s[i]}, multiset(rest));
    }
  }

  /** Taking one occurrence out of a multiset and putting it back is no change. */
  lemma MultisetRestore<T>(a: multiset<T>, x: T)
    requires x in a
    ensures (a - multiset{x}) + multiset{x} == a
  {
  }

  // ---------------------------------------------------------------------
  // Which entries the first loop flags, for a list of verdicts

  /** The indices below `n` whose verdict is true, ascending: what the first loop records. */
  function Flagged(verdicts: seq<bool>, n: int): (indices: seq<int>)
    requires 0 <= n <= |verdicts|
    ensures Ascending(indices, n)
    ensures forall i | 0 <= i < n :: i in indices <==> verdicts[i]
  {
    if n == 0 then []
    else Flagged(verdicts, n - 1) + (if verdicts[n - 1] then [n - 1] else [])
  }

  /** The entries among the first `n` of `s` whose verdict is false, in list order. */
  function Kept<T>(s: seq<T>, verdicts: seq<bool>, n: int): (r: seq<T>)
    requires |verdicts| == |s| && 0 <= n <= |s|
    ensures |r| <= n
  {
    if n == 0 then []
    else Kept(s, verdicts, n - 1) + (if verdicts[n - 1] then [] else [s[n - 1]])
  }

  /** The kept entries are the entries with a false verdict, and only those. */
  lemma {:induction false} KeptSpec<T>(s: seq<T>, verdicts: seq<bool>, n: int)
    requires |verdicts| == |s| && 0 <= n <= |s|
    ensures forall x | x in Kept(s, verdicts, n) :: exists i :: 0 <= i < n && s[i] == x && !verdicts[i]
    ensures forall i | 0 <= i < n && !verdicts[i] :: s[i] in Kept(s, verdicts, n)
  {
    if n > 0 {
      KeptSpec(s, verdicts, n - 1);
    }
  }

  /** The entries among the first `n` of `s` whose verdict is true, in list order. */
  function Dropped<T>(s: seq<T>, verdicts: seq<bool>, n: int): (r: seq<T>)
    requires |verdicts| == |s| && 0 <= n <= |s|
    ensures |r| <= n
  {
    if n == 0 then []
    else Dropped(s, verdicts, n - 1) + (if verdicts[n - 1] then [s[n - 1]] else [])
  }

  /** The list splits into the kept entries and the dropped ones. */
  lemma {:induction false} SplitByVerdict<T>(s: seq<T>, verdicts: seq<bool>, n: int)
    requires |verdicts| == |s| && 0 <= n <= |s|
    ensures multiset(s[..n]) == multiset(Kept(s, verdicts, n)) + multiset(Dropped(s, verdicts, n))
  {
    if n == 0 {
      assert s[..n] == [];
    } else {
      SplitByVerdict(s, verdicts, n - 1);
      var x := s[n - 1];
      assert s[..n] == s[..n - 1] + [x];
      var k, d := multiset(Kept(s, verdicts, n - 1)), multiset(Dropped(s, verdicts, n - 1));
      if verdicts[n - 1] {
        MultisetRegroup(k, d, multiset{x});
      } else {
        MultisetRegroup(d, k, multiset{x});
      }
    }
  }

  lemma PickedSnoc<T>(s: seq<T>, indices: seq<int>, i: int)
    requires forall j | 0 <= j < |indices| :: 0 <= indices[j] < |s|
    requires 0 <= i < |s|
    ensures Picked(s, indices + [i]) == Picked(s, indices) + [s[i]]
  {
  }

  /** The elements at the flagged indices are the dropped entries. */
  lemma {:induction false} PickedFlagged<T>(s: seq<T>, verdicts: seq<bool>, n: int)
    requires |verdicts| == |s| && 0 <= n <= |s|
    ensures Picked(s, Flagged(verdicts, n)) == Dropped(s, verdicts, n)
  {
    if n > 0 {
      PickedFlagged(s, verdicts, n - 1);
      if verdicts[n - 1] {
        PickedSnoc(s, Flagged(verdicts, n - 1), n - 1);
      }
    }
  }

  /**
   * Both loops together remove exactly the entries with a true verdict:
   * what is left is, up to order, the kept entries.
   */
  lemma RemoveFlagged<T>(s: seq<T>, verdicts: seq<bool>)
    requires |verdicts| == |s|
    ensures multiset(RemoveFrom(s, Flagged(verdicts, |s|), 0)) == multiset(Kept(s, verdicts, |s|))
  {
    var indices := Flagged(verdicts, |s|);
    RemoveFromMultiset(s, indices, 0);
    SplitByVerdict(s, verdicts, |s|);
    PickedFlagged(s, verdicts, |s|);
    assert s[..|s|] == s;
    assert indices[0..] == indices;
    MultisetCancel(multiset(RemoveFrom(s, indices, 0)), multiset(Kept(s, verdicts, |s|)), multiset(Dropped(s, verdicts, |s|)));
  }

  /**
   * What both loops leave is exactly the entries with a false verdict: each
   * remaining entry is one of them, and each of them remains.
   */
  lemma RemoveFlaggedMembers<T>(s: seq<T>, verdicts: seq<bool>)
    requires |verdicts| == |s|
    ensures forall x | x in RemoveFrom(s, Flagged(verdicts, |s|), 0) :: exists i :: 0 <= i < |s| && s[i] == x && !verdicts[i]
    ensures forall i | 0 <= i < |s| && !verdicts[i] :: s[i] in RemoveFrom(s, Flagged(verdicts, |s|), 0)
  {
    hide RemoveFrom, Flagged, Kept;
    var left := RemoveFrom(s, Flagged(verdicts, |s|), 0);
    var kept := Kept(s, verdicts, |s|);
    RemoveFlagged(s, verdicts);
    KeptSpec(s, verdicts, |s|);
    forall x | x in left
      ensures exists i :: 0 <= i < |s| && s[i] == x && !verdicts[i]
    {
      assert x in multiset(left);
      assert x in multiset(kept);
      assert x in kept;
    }
    forall i | 0 <= i < |s| && !verdicts[i]
      ensures s[i] in left
    {
      assert s[i] in multiset(kept);
      assert s[i] in multiset(left);
    }
  }
}
