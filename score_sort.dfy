/** The final sort of `rerank_results`, by descending score. Python's list
    sort is stable, and sorting in reverse still keeps items with equal keys
    in their original order. The model sorts an array in place
    by insertion and records, as a ghost permutation, where each element
    came from. */
module ScoreSort {
  import opened Glossary

  /** `out` is `inp` rearranged by `perm` (out[k] == inp[perm[k]], every
      position used once), ordered by non-increasing score, and elements of
      equal score appear in the order they had in `inp`. */
  ghost predicate StablySortedBy(out: seq<Ranked>, inp: seq<Ranked>, perm: seq<nat>) {
    && |out| == |inp| == |perm|
    && (forall k :: 0 <= k < |perm| ==> perm[k] < |inp| && out[k] == inp[perm[k]])
    && (forall k, l :: 0 <= k < l < |perm| ==> perm[k] != perm[l])
    && (forall k, l :: 0 <= k < l < |out| ==> out[k].score >= out[l].score)
    && (forall k, l :: 0 <= k < l < |out| && out[k].score == out[l].score ==> perm[k] < perm[l])
  }

  ghost predicate IsStableSortByScore(out: seq<Ranked>, inp: seq<Ranked>) {
    exists perm :: StablySortedBy(out, inp, perm)
  }

  /** `s` is `orig` rearranged by `perm`, every position used once. */
  ghost predicate Tracks(s: seq<Ranked>, orig: seq<Ranked>, perm: seq<nat>) {
    && |s| == |orig| == |perm|
    && (forall k :: 0 <= k < |perm| ==> perm[k] < |orig| && s[k] == orig[perm[k]])
    && (forall k, l :: 0 <= k < l < |perm| ==> perm[k] != perm[l])
  }

  /** Among positions below `n` other than `hole`, scores do not increase and
      equal scores keep their original order. */
  ghost predicate OrderedExcept(s: seq<Ranked>, perm: seq<nat>, n: int, hole: int)
    requires n <= |s| == |perm|
  {
    forall k, l :: 0 <= k < l < n && k != hole && l != hole ==>
      s[k].score >= s[l].score && (s[k].score == s[l].score ==> perm[k] < perm[l])
  }

  /** Invariant of the outer loop: the first `i` elements are stably sorted
      and the rest have not moved. */
  ghost predicate OuterInv(s: seq<Ranked>, orig: seq<Ranked>, perm: seq<nat>, i: int) {
    && 0 <= i <= |s|
    && Tracks(s, orig, perm)
    && (forall k :: i <= k < |s| ==> perm[k] == k)
    && (forall k :: 0 <= k < i ==> perm[k] < i)
    && OrderedExcept(s, perm, i, i)
  }

  /** Invariant of the inner loop: the element that started at `i` now sits
      at `j`, everything after it up to `i` scores strictly lower, and the
      other elements up to `i` are stably sorted. */
  ghost predicate InnerInv(s: seq<Ranked>, orig: seq<Ranked>, perm: seq<nat>, i: int, j: int) {
    && 0 <= j <= i < |s|
    && Tracks(s, orig, perm)
    && (forall k :: i < k < |s| ==> perm[k] == k)
    && perm[j] == i
    && (forall k :: 0 <= k <= i && k != j ==> perm[k] < i)
    && OrderedExcept(s, perm, i + 1, j)
    && (forall l :: j < l <= i ==> s[l].score < s[j].score)
  }

  lemma InnerStart(s: seq<Ranked>, orig: seq<Ranked>, perm: seq<nat>, i: int)
    requires OuterInv(s, orig, perm, i) && i < |s|
    ensures InnerInv(s, orig, perm, i, i)
  {
  }

  /** Swapping two neighbours keeps `s` a rearrangement of `orig`. */
  lemma SwapTracks(s: seq<Ranked>, orig: seq<Ranked>, perm: seq<nat>, j: int)
    requires Tracks(s, orig, perm) && 0 < j < |s|
    ensures Tracks(s[j - 1 := s[j]][j := s[j - 1]], orig, perm[j - 1 := perm[j]][j := perm[j - 1]])
  {
    var perm' := perm[j - 1 := perm[j]][j := perm[j - 1]];
    forall k, l | 0 <= k < l < |perm'| ensures perm'[k] != perm'[l] {
      assert perm[k] != perm[l];
    }
  }

  lemma InnerStep(s: seq<Ranked>, orig: seq<Ranked>, perm: seq<nat>, i: int, j: int)
    requires InnerInv(s, orig, perm, i, j) && 0 < j && s[j - 1].score < s[j].score
    ensures InnerInv(s[j - 1 := s[j]][j := s[j - 1]], orig, perm[j - 1 := perm[j]][j := perm[j - 1]], i, j - 1)
  {
    var s', perm' := s[j - 1 := s[j]][j := s[j - 1]], perm[j - 1 := perm[j]][j := perm[j - 1]];
    SwapTracks(s, orig, perm, j);
    forall k, l | 0 <= k < l < i + 1 && k != j - 1 && l != j - 1
      ensures s'[k].score >= s'[l].score && (s'[k].score == s'[l].score ==> perm'[k] < perm'[l])
    {
      var k0 := if k == j then j - 1 else k;
      var l0 := if l == j then j - 1 else l;
      assert s'[k] == s[k0] && perm'[k] == perm[k0];
      assert s'[l] == s[l0] && perm'[l] == perm[l0];
    }
    assert OrderedExcept(s', perm', i + 1, j - 1);
    forall l | j - 1 < l <= i ensures s'[l].score < s'[j - 1].score {
      if l > j {
        assert s'[l] == s[l];
      }
    }
  }

  lemma InnerEnd(s: seq<Ranked>, orig: seq<Ranked>, perm: seq<nat>, i: int, j: int)
    requires InnerInv(s, orig, perm, i, j) && (j == 0 || s[j - 1].score >= s[j].score)
    ensures OuterInv(s, orig, perm, i + 1)
  {
    forall k, l | 0 <= k < l < i + 1
      ensures s[k].score >= s[l].score && (s[k].score == s[l].score ==> perm[k] < perm[l])
    {
      if l == j && k < j - 1 {
        assert s[k].score >= s[j - 1].score;
      }
    }
  }

  lemma OuterDone(s: seq<Ranked>, orig: seq<Ranked>, perm: seq<nat>)
    requires OuterInv(s, orig, perm, |s|)
    ensures StablySortedBy(s, orig, perm)
  {
    assert OrderedExcept(s, perm, |s|, |s|);
  }

  /** One insertion step: with the first `i` elements stably sorted, move
      `a[i]` left past every element of lower score. */
  method InsertNext(a: array<Ranked>, i: int, ghost orig: seq<Ranked>, ghost perm0: seq<nat>)
    returns (ghost perm: seq<nat>)
    requires OuterInv(a[..], orig, perm0, i) && i < a.Length
    modifies a
    ensures OuterInv(a[..], orig, perm, i + 1)
  {
    perm := perm0;
    InnerStart(a[..], orig, perm, i);
    var j := i;
    while j > 0 && a[j - 1].score < a[j].score
      invariant InnerInv(a[..], orig, perm, i, j)
    {
      InnerStep(a[..], orig, perm, i, j);
      a[j - 1], a[j] := a[j], a[j - 1];
      perm := perm[j - 1 := perm[j]][j := perm[j - 1]];
      j := j - 1;
    }
    InnerEnd(a[..], orig, perm, i, j);
  }

  method SortByScoreDescending(a: array<Ranked>) returns (ghost perm: seq<nat>)
    modifies a
    ensures StablySortedBy(a[..], old(a[..]), perm)
  {
    ghost var orig := a[..];
    perm := seq(a.Length, k => k);
    var i := 0;
    while i < a.Length
      invariant OuterInv(a[..], orig, perm, i)
    {
      perm := InsertNext(a, i, orig, perm);
      i := i + 1;
    }
    OuterDone(a[..], orig, perm);
  }

  /** Sorting only rearranges: distinct labels stay distinct. */
  lemma StableSortKeepsDistinctTerms(out: seq<Ranked>, inp: seq<Ranked>)
    requires IsStableSortByScore(out, inp)
    requires DistinctRankedTerms(inp)
    ensures DistinctRankedTerms(out)
  {
    var perm :| StablySortedBy(out, inp, perm);
    forall k, l | 0 <= k < l < |out| ensures out[k].term != out[l].term {
      assert perm[k] != perm[l];
      if perm[k] < perm[l] {
        assert inp[perm[k]].term != inp[perm[l]].term;
      } else {
        assert inp[perm[l]].term != inp[perm[k]].term;
      }
    }
  }
}
