/** Order-preserving list operations shared by the screens' list handlers. */
module Lists {

  /** `r` is `s` with some elements left out and the rest in their original order. */
  ghost predicate IsSubsequence<T>(r: seq<T>, s: seq<T>)
    decreases |s|
  {
    if |r| == 0 then true
    else if |s| == 0 then false
    else if r[0] == s[0] then IsSubsequence(r[1..], s[1..])
    else IsSubsequence(r, s[1..])
  }

  /**
   * `Array.prototype.filter`: the elements satisfying `keep`, in their
   * original order, each as often as it occurs in `s`. (A subsequence of only
   * kept elements as long as the number of kept positions is this one result;
   * see `FilterUnique`.)
   */
  function Filter<T(!new)>(s: seq<T>, keep: T -> bool): (r: seq<T>)
    ensures |r| <= |s|
    ensures forall i :: 0 <= i < |r| ==> r[i] in s && keep(r[i])
    ensures forall i :: 0 <= i < |s| && keep(s[i]) ==> s[i] in r
    ensures (forall i :: 0 <= i < |s| ==> keep(s[i])) ==> r == s
    ensures IsSubsequence(r, s)
    ensures |r| == CountWhere(s, keep)
  {
    if |s| == 0 then []
    else
      var rest := Filter(s[1..], keep);
      assert s == [s[0]] + s[1..];
      if keep(s[0]) then
        var r := [s[0]] + rest;
        assert r[1..] == rest;
        r
      else
        assert |rest| > 0 ==> keep(rest[0]);
        rest
  }

  /** Number of elements of `s` that satisfy `p`. */
  function CountWhere<T>(s: seq<T>, p: T -> bool): (n: nat)
    ensures n <= |s|
    ensures n == 0 <==> forall i :: 0 <= i < |s| ==> !p(s[i])
  {
    if |s| == 0 then 0
    else (if p(s[0]) then 1 else 0) + CountWhere(s[1..], p)
  }

  /** Filtering distributes over concatenation: the survivors keep their relative order. */
  lemma {:induction false} FilterAppend<T(!new)>(a: seq<T>, b: seq<T>, keep: T -> bool)
    ensures Filter(a + b, keep) == Filter(a, keep) + Filter(b, keep)
  {
    if |a| == 0 {
      assert a + b == b;
    } else {
      assert (a + b)[1..] == a[1..] + b;
      FilterAppend(a[1..], b, keep);
    }
  }

  /** A subsequence made of kept elements is no longer than the number of kept elements. */
  lemma {:induction false} SubsequenceBound<T(!new)>(t: seq<T>, s: seq<T>, keep: T -> bool)
    requires IsSubsequence(t, s)
    requires forall i :: 0 <= i < |t| ==> keep(t[i])
    ensures |t| <= CountWhere(s, keep)
    decreases |s|
  {
    if |t| > 0 && |s| > 0 {
      if t[0] == s[0] {
        SubsequenceBound(t[1..], s[1..], keep);
      } else {
        SubsequenceBound(t, s[1..], keep);
      }
    }
  }

  /**
   * `Filter`'s contract determines its result: the only subsequence of `s`
   * made of kept elements and as long as the number of kept elements is
   * `Filter(s, keep)`. So order and multiplicity are both pinned.
   */
  lemma {:induction false} FilterUnique<T(!new)>(t: seq<T>, s: seq<T>, keep: T -> bool)
    requires IsSubsequence(t, s)
    requires forall i :: 0 <= i < |t| ==> keep(t[i])
    requires |t| == CountWhere(s, keep)
    ensures t == Filter(s, keep)
    decreases |s|
  {
    if |s| > 0 {
      if |t| == 0 {
        assert |Filter(s, keep)| == 0;
      } else if t[0] == s[0] {
        FilterUnique(t[1..], s[1..], keep);
        assert t == [t[0]] + t[1..];
      } else if keep(s[0]) {
        SubsequenceBound(t, s[1..], keep);
        assert false;
      } else {
        FilterUnique(t, s[1..], keep);
      }
    }
  }

  /** Exactly the elements failing `keep` are dropped. */
  lemma {:induction false} FilterLength<T(!new)>(s: seq<T>, keep: T -> bool, drop: T -> bool)
    requires forall i :: 0 <= i < |s| ==> (drop(s[i]) <==> !keep(s[i]))
    ensures |Filter(s, keep)| == |s| - CountWhere(s, drop)
  {
    if |s| > 0 {
      FilterLength(s[1..], keep, drop);
    }
  }

  predicate NoDuplicates<T(==)>(s: seq<T>) {
    forall i, j :: 0 <= i < j < |s| ==> s[i] != s[j]
  }

  /** Filtering never introduces a duplicate. */
  lemma {:induction false} FilterNoDuplicates<T(!new)>(s: seq<T>, keep: T -> bool)
    ensures NoDuplicates(s) ==> NoDuplicates(Filter(s, keep))
  {
    if |s| > 0 && NoDuplicates(s) {
      assert NoDuplicates(s[1..]) by {
        forall i, j | 0 <= i < j < |s[1..]|
          ensures s[1..][i] != s[1..][j]
        {
          assert s[1..][i] == s[i + 1] && s[1..][j] == s[j + 1];
        }
      }
      FilterNoDuplicates(s[1..], keep);
      var rest := Filter(s[1..], keep);
      if keep(s[0]) {
        assert s[0] !in s[1..] by {
          forall k | 0 <= k < |s[1..]| ensures s[1..][k] != s[0] {
            assert s[1..][k] == s[k + 1];
          }
        }
        assert s[0] !in rest;
        var r := [s[0]] + rest;
        forall i, j | 0 <= i < j < |r| ensures r[i] != r[j] {
          if i == 0 {
            assert r[j] == rest[j - 1];
            assert r[j] in rest;
          } else {
            assert r[i] == rest[i - 1] && r[j] == rest[j - 1];
          }
        }
      }
    }
  }

  /** Appending an element that is not yet present keeps a list duplicate-free. */
  lemma AppendNoDuplicates<T>(s: seq<T>, x: T)
    requires x !in s
    ensures NoDuplicates(s) ==> NoDuplicates(s + [x])
  {
    var r := s + [x];
    forall i, j | 0 <= i < j < |r| && NoDuplicates(s) ensures r[i] != r[j] {
      if j == |s| {
        assert r[i] == s[i];
      } else {
        assert r[i] == s[i] && r[j] == s[j];
      }
    }
  }
}
