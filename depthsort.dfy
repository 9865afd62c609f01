/** The depth sort applied to the faces before painting: a stable sort,
    ascending by the depth of the face centre. */
module DepthSort {
  import opened Faces


  function Depth(f: Face): real
  {
    f.center.z
  }

  predicate SortedByDepth(s: seq<Face>)
  {
    forall a, b :: 0 <= a < b < |s| ==> Depth(s[a]) <= Depth(s[b])
  }

  /** Places f after every face of s that is not deeper than it. */
  function Insert(s: seq<Face>, f: Face): (r: seq<Face>)
    ensures |r| == |s| + 1
  {
    if |s| == 0 || Depth(s[|s| - 1]) <= Depth(f) then s + [f]
    else Insert(s[..|s| - 1], f) + [s[|s| - 1]]
  }

  function SortByDepth(faces: seq<Face>): (r: seq<Face>)
    ensures |r| == |faces|
  {
    SortPrefix(faces, |faces|)
  }

  function SortPrefix(faces: seq<Face>, n: nat): (r: seq<Face>)
    requires n <= |faces|
    ensures |r| == n
  {
    if n == 0 then [] else Insert(SortPrefix(faces, n - 1), faces[n - 1])
  }

  /** The faces of s at depth z, in their order in s. */
  function AtDepth(s: seq<Face>, z: real): seq<Face>
  {
    if |s| == 0 then []
    else AtDepth(s[..|s| - 1], z) + (if Depth(s[|s| - 1]) == z then [s[|s| - 1]] else [])
  }

  lemma {:induction false} InsertKeepsFaces(s: seq<Face>, f: Face)
    ensures multiset(Insert(s, f)) == multiset(s) + multiset{f}
  {
    if |s| > 0 && Depth(s[|s| - 1]) > Depth(f) {
      var init := s[..|s| - 1];
      InsertKeepsFaces(init, f);
      assert s == init + [s[|s| - 1]];
    }
  }

  lemma {:induction false} InsertKeepsSorted(s: seq<Face>, f: Face)
    requires SortedByDepth(s)
    ensures SortedByDepth(Insert(s, f))
  {
    if |s| > 0 && Depth(s[|s| - 1]) > Depth(f) {
      var init := s[..|s| - 1];
      var last := s[|s| - 1];
      var front := Insert(init, f);
      InsertKeepsSorted(init, f);
      InsertStaysBelow(init, f, Depth(last));
      forall a, b | 0 <= a < b < |front| + 1
        ensures Depth((front + [last])[a]) <= Depth((front + [last])[b])
      {
      }
    }
  }

  /** Inserting a face no deeper than a bound into faces no deeper than it
      gives faces no deeper than it. */
  lemma {:induction false} InsertStaysBelow(s: seq<Face>, f: Face, bound: real)
    requires forall k :: 0 <= k < |s| ==> Depth(s[k]) <= bound
    requires Depth(f) <= bound
    ensures forall k :: 0 <= k < |Insert(s, f)| ==> Depth(Insert(s, f)[k]) <= bound
  {
    if |s| > 0 && Depth(s[|s| - 1]) > Depth(f) {
      InsertStaysBelow(s[..|s| - 1], f, bound);
    }
  }

  lemma {:induction false} AtDepthOfJoin(s: seq<Face>, t: seq<Face>, z: real)
    ensures AtDepth(s + t, z) == AtDepth(s, z) + AtDepth(t, z)
  {
    if |t| > 0 {
      var init := t[..|t| - 1];
      AtDepthOfJoin(s, init, z);
      assert (s + t)[..|s + t| - 1] == s + init;
    } else {
      assert s + t == s;
    }
  }

  lemma {:induction false} InsertKeepsTies(s: seq<Face>, f: Face, z: real)
    ensures AtDepth(Insert(s, f), z) == AtDepth(s, z) + AtDepth([f], z)
  {
    if |s| == 0 || Depth(s[|s| - 1]) <= Depth(f) {
      AtDepthOfJoin(s, [f], z);
    } else {
      var init := s[..|s| - 1];
      var last := s[|s| - 1];
      InsertKeepsTies(init, f, z);
      AtDepthOfJoin(Insert(init, f), [last], z);
      AtDepthOfJoin(init, [last], z);
      assert s == init + [last];
      assert [f][..0] == [] && [last][..0] == [];
    }
  }

  /** The depth sort orders faces by centre depth. */
  lemma SortByDepthIsSorted(faces: seq<Face>)
    ensures SortedByDepth(SortByDepth(faces))
  {
    SortPrefixIsSorted(faces, |faces|);
  }

  lemma {:induction false} SortPrefixIsSorted(faces: seq<Face>, n: nat)
    requires n <= |faces|
    ensures SortedByDepth(SortPrefix(faces, n))
  {
    if n > 0 {
      SortPrefixIsSorted(faces, n - 1);
      InsertKeepsSorted(SortPrefix(faces, n - 1), faces[n - 1]);
    }
  }

  /** The depth sort is a permutation of its input. */
  lemma SortByDepthKeepsFaces(faces: seq<Face>)
    ensures multiset(SortByDepth(faces)) == multiset(faces)
  {
    SortPrefixKeepsFaces(faces, |faces|);
    assert faces[..|faces|] == faces;
  }

  lemma {:induction false} SortPrefixKeepsFaces(faces: seq<Face>, n: nat)
    requires n <= |faces|
    ensures multiset(SortPrefix(faces, n)) == multiset(faces[..n])
  {
    if n > 0 {
      SortPrefixKeepsFaces(faces, n - 1);
      PrefixGrows(faces, n);
      SortPrefixGrows(faces, n);
    }
  }

  lemma PrefixGrows(faces: seq<Face>, n: nat)
    requires 0 < n <= |faces|
    ensures multiset(faces[..n]) == multiset(faces[..n - 1]) + multiset{faces[n - 1]}
  {
    assert faces[..n] == faces[..n - 1] + [faces[n - 1]];
  }

  lemma SortPrefixGrows(faces: seq<Face>, n: nat)
    requires 0 < n <= |faces|
    ensures multiset(SortPrefix(faces, n)) == multiset(SortPrefix(faces, n - 1)) + multiset{faces[n - 1]}
  {
    InsertKeepsFaces(SortPrefix(faces, n - 1), faces[n - 1]);
  }

  /** The depth sort is stable: the faces at any one depth keep their
      relative order. */
  lemma SortByDepthIsStable(faces: seq<Face>, z: real)
    ensures AtDepth(SortByDepth(faces), z) == AtDepth(faces, z)
  {
    SortPrefixIsStable(faces, |faces|, z);
    assert faces[..|faces|] == faces;
  }

  lemma {:induction false} SortPrefixIsStable(faces: seq<Face>, n: nat, z: real)
    requires n <= |faces|
    ensures AtDepth(SortPrefix(faces, n), z) == AtDepth(faces[..n], z)
  {
    if n > 0 {
      var last := faces[n - 1];
      SortPrefixIsStable(faces, n - 1, z);
      InsertKeepsTies(SortPrefix(faces, n - 1), last, z);
      assert faces[..n][..n - 1] == faces[..n - 1];
      assert [last][..0] == [];
    }
  }
}
